/** The oracle client: it commits to the current prices and, in the same transaction, reveals the prices it committed
    to in the previous voting period. The chain is reduced to one stored prevote per validator. */
module PricePoster {
  import opened Types
  import opened Decimal

  /** One exchange rate of a vote, in units of 10^-18. The vote string of the wire format is this list. */
  datatype ExchangeRateTuple = ExchangeRateTuple(pair: Pair, exchangeRate: int)
  type Vote = seq<ExchangeRateTuple>

  /** The vote hash, idealised as injective: a hash is the triple it was computed from. */
  datatype VoteHash = VoteHash(salt: string, vote: Vote, validator: string)

  datatype Prevote = Prevote(hash: VoteHash, salt: string, vote: Vote)

  datatype Msg = PrevoteMsg(hash: VoteHash) | VoteMsg(salt: string, vote: Vote, validator: string)

  // ---------- the chain ----------

  /** An accepted vote and the position, among all landed prevotes, of the prevote it opened. */
  datatype AcceptedVote = AcceptedVote(target: nat, salt: string, vote: Vote)

  /** The validator's ledger: every landed prevote, which of them is stored, and every accepted vote. */
  datatype Chain = Chain(stored: Option<nat>, prevotes: seq<VoteHash>, accepted: seq<AcceptedVote>)

  function StoredHash(c: Chain): Option<VoteHash> {
    if c.stored.Some? && c.stored.value < |c.prevotes| then Some(c.prevotes[c.stored.value]) else None
  }

  /** A prevote overwrites the stored one; a vote is accepted only if it opens the stored one. */
  function Execute(c: Chain, m: Msg): Option<Chain> {
    match m
    case PrevoteMsg(hash) => Some(c.(stored := Some(|c.prevotes|), prevotes := c.prevotes + [hash]))
    case VoteMsg(salt, vote, validator) =>
      if StoredHash(c) == Some(VoteHash(salt, vote, validator))
      then Some(c.(accepted := c.accepted + [AcceptedVote(c.stored.value, salt, vote)]))
      else None
  }

  function ExecuteAll(c: Chain, msgs: seq<Msg>): Option<Chain>
    decreases |msgs|
  {
    if msgs == [] then Some(c)
    else
      match Execute(c, msgs[0])
      case None => None
      case Some(next) => ExecuteAll(next, msgs[1..])
  }

  /** A transaction is atomic: either all of its messages execute or none has an effect. */
  function Deliver(c: Chain, msgs: seq<Msg>): Chain {
    match ExecuteAll(c, msgs)
    case None => c
    case Some(next) => next
  }

  // ---------- one call of the client ----------

  function MakePrevote(salt: string, vote: Vote, validator: string): Prevote {
    Prevote(VoteHash(salt, vote, validator), salt, vote)
  }

  /** What the query for the stored prevote returns: the truth, nothing, or any other hash. */
  datatype Reply = Honest | Failed | Stale(hash: VoteHash)

  function Answer(c: Chain, reply: Reply): Option<VoteHash> {
    match reply
    case Honest => StoredHash(c)
    case Failed => None
    case Stale(hash) => Some(hash)
  }

  function PreparedVote(previous: Option<Prevote>, answer: Option<VoteHash>, validator: string): seq<Msg> {
    if previous.Some? && answer == Some(VoteHash(previous.value.salt, previous.value.vote, validator))
    then [VoteMsg(previous.value.salt, previous.value.vote, validator)]
    else []
  }

  function Transaction(next: Prevote, previous: Option<Prevote>, answer: Option<VoteHash>, validator: string): seq<Msg> {
    PreparedVote(previous, answer, validator) + [PrevoteMsg(next.hash)]
  }

  /** How a broadcast ends: what the client is told and whether the transaction executes right away. One that does
      not stays with the network, which may still execute it later or never. */
  datatype Outcome = Outcome(acknowledged: bool, landed: bool)

  datatype System = System(chain: Chain, pending: seq<seq<Msg>>, previous: Option<Prevote>)

  datatype Event =
    | Call(salt: string, vote: Vote, reply: Reply, outcome: Outcome)
    | Expire
    | LateLanding(index: nat)

  function Apply(s: System, e: Event, validator: string): System {
    match e
    case Call(salt, vote, reply, outcome) =>
      var next := MakePrevote(salt, vote, validator);
      var msgs := Transaction(next, s.previous, Answer(s.chain, reply), validator);
      System(
        if outcome.landed then Deliver(s.chain, msgs) else s.chain,
        if outcome.landed then s.pending else s.pending + [msgs],
        if outcome.acknowledged then Some(next) else s.previous)
    case Expire => s.(chain := s.chain.(stored := None))
    case LateLanding(i) =>
      if i < |s.pending|
      then s.(chain := Deliver(s.chain, s.pending[i]), pending := s.pending[..i] + s.pending[i + 1..])
      else s
  }

  function Run(s: System, events: seq<Event>, validator: string): System {
    if events == [] then s
    else Apply(Run(s, events[..|events| - 1], validator), events[|events| - 1], validator)
  }

  // ---------- the client ----------

  /** One part in 2^51, which covers rounding a price to a double and printing the shortest numeral that reads back
      as that double. */
  const RELATIVE: real := 1.0 / 2_251_799_813_685_248.0

  /** What rounding and printing lose of the subnormal doubles. */
  const TINY: real := 1.0 / (SCALE * SCALE) as real

  /** How far the printed number may be from the price. */
  ghost function PrintError(price: real): real { Abs(price) * RELATIVE + TINY }

  /** strconv.FormatFloat: it prints a numeral close to the price, zero as zero, and never inverts an order. */
  ghost predicate IsFormatter(format: real -> Numeral) {
    && (forall x :: format(x).Valid())
    && format(0.0).Value() == 0.0
    && (forall x :: Abs(format(x).Value() - x) <= PrintError(x))
    && (forall x, y :: x <= y ==> format(x).Value() <= format(y).Value())
  }

  ghost function Rate(price: real, format: real -> Numeral): int
    requires IsFormatter(format)
  {
    ToDec(format(price))
  }

  /** The vote for a list of prices: their pairs and rates, one for one and in order. */
  ghost function Tuples(prices: seq<Price>, format: real -> Numeral): Vote
    requires IsFormatter(format)
  {
    seq(|prices|, i requires 0 <= i < |prices| => ExchangeRateTuple(prices[i].pair, Rate(prices[i].price, format)))
  }

  method NewPrevote(prices: seq<Price>, format: real -> Numeral, salt: string, validator: string)
    returns (prevote: Prevote)
    requires IsFormatter(format)
    ensures prevote == MakePrevote(salt, Tuples(prices, format), validator)
  {
    var tuple := new ExchangeRateTuple[|prices|](_ => ExchangeRateTuple("", 0));
    for i := 0 to |prices|
      invariant tuple[..i] == Tuples(prices, format)[..i]
    {
      var rate := Float64ToDec(format(prices[i].price));
      tuple[i] := ExchangeRateTuple(prices[i].pair, rate);
      assert tuple[..i + 1] == tuple[..i] + [tuple[i]];
      assert Tuples(prices, format)[..i + 1] == Tuples(prices, format)[..i] + [tuple[i]];
    }
    assert tuple[..] == tuple[..|prices|];
    var hash := VoteHash(salt, tuple[..], validator);
    return Prevote(hash, salt, tuple[..]);
  }

  /** The remote node: the query service, the broadcast service and the transactions still in flight. */
  class Node {
    var chain: Chain
    var pending: seq<seq<Msg>>

    method AggregatePrevote(reply: Reply) returns (response: Option<VoteHash>)
      ensures response == Answer(chain, reply)
    {
      response := Answer(chain, reply);
    }

    method SendTx(msgs: seq<Msg>, outcome: Outcome) returns (ok: bool)
      modifies this
      ensures ok == outcome.acknowledged
      ensures chain == if outcome.landed then Deliver(old(chain), msgs) else old(chain)
      ensures pending == if outcome.landed then old(pending) else old(pending) + [msgs]
    {
      if outcome.landed {
        chain := Deliver(chain, msgs);
      } else {
        pending := pending + [msgs];
      }
      ok := outcome.acknowledged;
    }
  }

  class Client {
    const validator: string
    var previousPrevote: Option<Prevote>

    constructor (validator: string)
      ensures this.validator == validator && previousPrevote == None
    {
      this.validator := validator;
      previousPrevote := None;
    }

    function View(node: Node): System
      reads this, node
    {
      System(node.chain, node.pending, previousPrevote)
    }

    /** None stands for the nil message: there is nothing to reveal. */
    method PrepareVote(node: Node, prevote: Prevote, reply: Reply) returns (msg: Option<Msg>)
      ensures PreparedVote(Some(prevote), Answer(node.chain, reply), validator)
           == if msg.Some? then [msg.value] else []
    {
      var response := node.AggregatePrevote(reply);
      if response == None {
        return None;
      }
      var localHash := VoteHash(prevote.salt, prevote.vote, validator);
      if localHash != response.value {
        return None;
      }
      return Some(VoteMsg(prevote.salt, prevote.vote, validator));
    }

    method CastVote(node: Node, newPrevote: Prevote, oldPrevote: Option<Prevote>, reply: Reply, outcome: Outcome)
      returns (ok: bool)
      modifies node
      ensures var msgs := Transaction(newPrevote, oldPrevote, Answer(old(node.chain), reply), validator);
              && node.chain == (if outcome.landed then Deliver(old(node.chain), msgs) else old(node.chain))
              && node.pending == (if outcome.landed then old(node.pending) else old(node.pending) + [msgs])
      ensures ok == outcome.acknowledged
    {
      var voteMsg: Option<Msg> := None;
      if oldPrevote.Some? {
        voteMsg := PrepareVote(node, oldPrevote.value, reply);
      }
      var msgs := [PrevoteMsg(newPrevote.hash)];
      if voteMsg.Some? {
        msgs := [voteMsg.value, PrevoteMsg(newPrevote.hash)];
      }
      assert msgs == Transaction(newPrevote, oldPrevote, Answer(node.chain, reply), validator);
      ok := node.SendTx(msgs, outcome);
    }

    /** One voting period. The new prevote is remembered only if the broadcast was acknowledged. */
    method SendPrices(node: Node, prices: seq<Price>, format: real -> Numeral, salt: string,
                      reply: Reply, outcome: Outcome)
      requires IsFormatter(format)
      modifies this, node
      ensures View(node) == Apply(old(View(node)), Call(salt, Tuples(prices, format), reply, outcome), validator)
    {
      var newPrevote := NewPrevote(prices, format, salt, validator);
      var ok := CastVote(node, newPrevote, previousPrevote, reply, outcome);
      if !ok {
        return;
      }
      previousPrevote := Some(newPrevote);
    }
  }
}
