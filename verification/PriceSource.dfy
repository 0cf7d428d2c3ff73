/** One price provider with its tick source: the source fetches batches of prices and sends them over an unbuffered
    channel; the provider caches the last price of every symbol and serves it while it is fresh. */
module PriceSource {
  import opened Types

  type Batch = map<Symbol, RawPrice>

  // ---------- the answer to a price query ----------

  predicate IsValid(price: RawPrice, found: bool, now: Time) {
    found && now - price.updateTime < PRICE_TIMEOUT
  }

  /** What GetPrice answers from the cache at time now; -1 and 0 are placeholders of invalid answers. */
  function PriceAt(mapping: map<Pair, Symbol>, cache: Batch, sourceName: string, pair: Pair, now: Time): Price {
    if pair !in mapping then Price(pair, -1.0, sourceName, false)
    else
      var found := mapping[pair] in cache;
      var price := if found then cache[mapping[pair]] else RawPrice(0.0, 0);
      Price(pair, price.price, sourceName, IsValid(price, found, now))
  }

  // ---------- provider and source as goroutines ----------

  datatype LoopPc = Selecting | ClosingSource | AwaitingSource | LoopExited
  datatype TickPc = Waiting | Fetching | Sending(update: Batch) | TickExited

  /** The two stop signals, the two program counters, the cache and the clock, followed by every batch that the source
      produced and every batch that the provider received. */
  datatype Provider = Provider(
    stop: bool,
    sourceStop: bool,
    loop: LoopPc,
    tick: TickPc,
    lastPrices: Batch,
    clock: Time,
    produced: seq<Batch>,
    received: seq<Batch>)

  function Initial(clock: Time): Provider {
    Provider(false, false, Selecting, Waiting, map[], clock, [], [])
  }

  datatype Action =
    | Close                               // Close closes the provider's stop signal
    | LoopStops | SignalSource | SourceDone
    | TickFires | FetchFails | FetchReturns(update: Batch, now: Time)
    | Deliver                             // the source sends and the provider receives
    | DropUpdate | TickStops

  /** Every price carries the time at which it was put into the batch. */
  ghost predicate Stamped(update: Batch, from: Time, to: Time) {
    from <= to && forall s :: s in update ==> from <= update[s].updateTime <= to
  }

  ghost predicate Enabled(p: Provider, a: Action) {
    match a
    case Close => !p.stop
    case LoopStops => p.loop == Selecting && p.stop
    case SignalSource => p.loop == ClosingSource
    case SourceDone => p.loop == AwaitingSource && p.tick == TickExited
    case TickFires => p.tick == Waiting
    case FetchFails => p.tick == Fetching
    case FetchReturns(update, now) => p.tick == Fetching && Stamped(update, p.clock, now)
    case Deliver => p.tick.Sending? && p.loop == Selecting
    case DropUpdate => p.tick.Sending? && p.sourceStop
    case TickStops => p.tick == Waiting && p.sourceStop
  }

  ghost function Step(p: Provider, a: Action): Provider
    requires Enabled(p, a)
  {
    match a
    case Close => p.(stop := true)
    case LoopStops => p.(loop := ClosingSource)
    case SignalSource => p.(loop := AwaitingSource, sourceStop := true)
    case SourceDone => p.(loop := LoopExited)
    case TickFires => p.(tick := Fetching)
    case FetchFails => p.(tick := Waiting)
    case FetchReturns(update, now) => p.(tick := Sending(update), clock := now, produced := p.produced + [update])
    case Deliver => p.(tick := Waiting, lastPrices := p.lastPrices + p.tick.update,
                       received := p.received + [p.tick.update])
    case DropUpdate => p.(tick := TickExited)
    case TickStops => p.(tick := TickExited)
  }

  ghost function Run(p: Provider, actions: seq<Action>): Provider {
    if actions == [] then p
    else
      var q := Run(p, actions[..|actions| - 1]);
      if Enabled(q, actions[|actions| - 1]) then Step(q, actions[|actions| - 1]) else q
  }

  // ---------- the invariant ----------

  /** Batch i is the latest one that mentions s. */
  ghost predicate LatestMention(batches: seq<Batch>, s: Symbol, i: int) {
    && 0 <= i < |batches| && s in batches[i]
    && forall j :: i < j < |batches| ==> s !in batches[j]
  }

  ghost predicate EntryOfLatest(price: RawPrice, batches: seq<Batch>, s: Symbol) {
    exists i :: LatestMention(batches, s, i) && price == batches[i][s]
  }

  /** The cache holds, for every symbol mentioned so far, its entry in the latest batch that mentions it. */
  ghost predicate IsReplay(cache: Batch, batches: seq<Batch>) {
    && (forall s :: s in cache ==> EntryOfLatest(cache[s], batches, s))
    && (forall i, s :: 0 <= i < |batches| && s in batches[i] ==> s in cache)
  }

  /** Later batches carry later times, and no time lies ahead of the clock. */
  ghost predicate Chronological(batches: seq<Batch>, clock: Time) {
    && (forall i, s :: 0 <= i < |batches| && s in batches[i] ==> batches[i][s].updateTime <= clock)
    && (forall i, j, s, t :: 0 <= i < j < |batches| && s in batches[i] && t in batches[j]
          ==> batches[i][s].updateTime <= batches[j][t].updateTime)
  }

  /** Every batch produced was received, except the one being sent or dropped by the stop. */
  ghost predicate Handover(p: Provider) {
    match p.tick
    case Sending(update) => p.produced == p.received + [update]
    case TickExited => p.received <= p.produced && |p.produced| <= |p.received| + 1
    case _ => p.produced == p.received
  }

  ghost predicate ControlInv(p: Provider) {
    && (p.loop != Selecting ==> p.stop)
    && (p.sourceStop <==> p.loop == AwaitingSource || p.loop == LoopExited)
    && (p.tick == TickExited ==> p.sourceStop)
    && (p.loop == LoopExited ==> p.tick == TickExited)
  }

  ghost predicate Inv(p: Provider) {
    && IsReplay(p.lastPrices, p.received)
    && Chronological(p.produced, p.clock)
    && Handover(p)
    && ControlInv(p)
  }

  lemma EntrySnoc(price: RawPrice, batches: seq<Batch>, update: Batch, s: Symbol)
    ensures s in update ==> EntryOfLatest(update[s], batches + [update], s)
    ensures s !in update && EntryOfLatest(price, batches, s) ==> EntryOfLatest(price, batches + [update], s)
  {
    var after := batches + [update];
    if s in update {
      assert LatestMention(after, s, |batches|);
    } else if EntryOfLatest(price, batches, s) {
      var i :| LatestMention(batches, s, i) && price == batches[i][s];
      assert LatestMention(after, s, i) && after[i] == batches[i];
    }
  }

  lemma ReplaySnoc(cache: Batch, batches: seq<Batch>, update: Batch)
    requires IsReplay(cache, batches)
    ensures IsReplay(cache + update, batches + [update])
  {
    forall s | s in cache + update
      ensures EntryOfLatest((cache + update)[s], batches + [update], s)
    {
      EntrySnoc((cache + update)[s], batches, update, s);
    }
    forall i, s | 0 <= i < |batches + [update]| && s in (batches + [update])[i]
      ensures s in cache + update
    {
      if i < |batches| { assert s in batches[i]; }
    }
  }

  lemma ChronologicalSnoc(batches: seq<Batch>, update: Batch, clock: Time, now: Time)
    requires Chronological(batches, clock) && Stamped(update, clock, now)
    ensures Chronological(batches + [update], now)
  {}

  lemma StepKeepsInv(p: Provider, a: Action)
    requires Inv(p) && Enabled(p, a)
    ensures Inv(Step(p, a))
  {
    match a {
      case Deliver => ReplaySnoc(p.lastPrices, p.received, p.tick.update);
      case FetchReturns(update, now) => ChronologicalSnoc(p.produced, update, p.clock, now);
      case _ =>
    }
  }

  lemma {:induction false} RunKeepsInv(clock: Time, actions: seq<Action>)
    ensures Inv(Run(Initial(clock), actions))
  {
    if actions == [] {
    } else {
      var q := Run(Initial(clock), actions[..|actions| - 1]);
      RunKeepsInv(clock, actions[..|actions| - 1]);
      if Enabled(q, actions[|actions| - 1]) {
        StepKeepsInv(q, actions[|actions| - 1]);
      }
    }
  }

  /** The actions of a run that were enabled. */
  ghost function Taken(p: Provider, actions: seq<Action>): seq<Action> {
    if actions == [] then []
    else
      var init, a := actions[..|actions| - 1], actions[|actions| - 1];
      if Enabled(Run(p, init), a) then Taken(p, init) + [a] else Taken(p, init)
  }

  function FetchesOf(taken: seq<Action>): seq<Batch> {
    if taken == [] then []
    else
      var init, a := taken[..|taken| - 1], taken[|taken| - 1];
      FetchesOf(init) + if a.FetchReturns? then [a.update] else []
  }

  /** The batches produced are those that the fetches of the run returned, in order. */
  lemma {:induction false} ProducedAreFetched(p: Provider, actions: seq<Action>)
    requires p.produced == []
    ensures Run(p, actions).produced == FetchesOf(Taken(p, actions))
  {
    if actions == [] {
    } else {
      var init, a := actions[..|actions| - 1], actions[|actions| - 1];
      ProducedAreFetched(p, init);
      assert (Taken(p, init) + [a])[..|Taken(p, init)|] == Taken(p, init);
    }
  }

  /** A source blocked in a send in front of a selecting provider has a step that puts its batch into the cache. */
  lemma BlockedSendDelivers(p: Provider)
    requires p.tick.Sending? && p.loop == Selecting
    ensures Enabled(p, Deliver)
    ensures var q := Step(p, Deliver);
            && q == p.(tick := Waiting, lastPrices := q.lastPrices, received := p.received + [p.tick.update])
            && q.lastPrices == p.lastPrices + p.tick.update
  {}

  lemma RunSnoc(p: Provider, actions: seq<Action>, a: Action)
    ensures var q := Run(p, actions); Run(p, actions + [a]) == if Enabled(q, a) then Step(q, a) else q
  {
    assert (actions + [a])[..|actions|] == actions;
  }

  /** Whatever the source is doing, it can get back to waiting while the provider selects. */
  lemma SourceWaits(p: Provider) returns (actions: seq<Action>)
    requires Inv(p) && p.loop == Selecting
    ensures Close !in actions
    ensures var q := Run(p, actions);
            q == p.(tick := Waiting, lastPrices := q.lastPrices, received := q.received) && p.received <= q.received
  {
    match p.tick {
      case Waiting => actions := [];
      case Fetching =>
        actions := [FetchFails];
        RunOne(p, FetchFails);
      case Sending(_) =>
        actions := [Deliver];
        RunOne(p, Deliver);
    }
  }

  lemma RunOne(p: Provider, a: Action)
    requires Enabled(p, a)
    ensures Run(p, [a]) == Step(p, a)
  {
    assert [a][..0] == [];
    assert Run(p, [a][..0]) == p;
  }

  /** A selecting provider can be handed any batch that its source may fetch, and then serves it from its cache. */
  lemma BatchArrives(p: Provider, batch: Batch, now: Time) returns (actions: seq<Action>)
    requires Inv(p) && p.loop == Selecting && Stamped(batch, p.clock, now)
    ensures Close !in actions
    ensures var q := Run(p, actions);
            && q == p.(tick := Waiting, clock := now, lastPrices := q.lastPrices, produced := p.produced + [batch],
                       received := q.received)
            && p.received < q.received && q.received[|q.received| - 1] == batch
            && forall s :: s in batch ==> s in q.lastPrices && q.lastPrices[s] == batch[s]
  {
    var waits := SourceWaits(p);
    RunSnoc(p, waits, TickFires);
    RunSnoc(p, waits + [TickFires], FetchReturns(batch, now));
    RunSnoc(p, waits + [TickFires] + [FetchReturns(batch, now)], Deliver);
    actions := waits + [TickFires] + [FetchReturns(batch, now)] + [Deliver];
  }

  // ---------- the cache agrees with history ----------

  lemma LatestMentionUnique(batches: seq<Batch>, s: Symbol, i: int, j: int)
    requires LatestMention(batches, s, i) && LatestMention(batches, s, j)
    ensures i == j
  {}

  ghost predicate FreshMention(batches: seq<Batch>, s: Symbol, i: int, now: Time) {
    LatestMention(batches, s, i) && now - batches[i][s].updateTime < 15_000_000_000
  }

  /** In every reachable state a query is answered with a valid price exactly if the pair is mapped and the latest
      received batch that mentions its symbol stamped it less than 15 seconds ago; the price is that entry's. */
  lemma AnswerIsFreshHistory(p: Provider, mapping: map<Pair, Symbol>, sourceName: string, pair: Pair, now: Time)
    requires Inv(p)
    ensures var answer := PriceAt(mapping, p.lastPrices, sourceName, pair, now);
            && answer.pair == pair
            && (answer.valid <==> pair in mapping && exists i :: FreshMention(p.received, mapping[pair], i, now))
            && (forall i :: answer.valid && LatestMention(p.received, mapping[pair], i)
                  ==> answer.price == p.received[i][mapping[pair]].price)
  {
    if pair in mapping {
      var s := mapping[pair];
      if s in p.lastPrices {
        assert EntryOfLatest(p.lastPrices[s], p.received, s);
        var k :| LatestMention(p.received, s, k) && p.lastPrices[s] == p.received[k][s];
        forall i | LatestMention(p.received, s, i) ensures i == k {
          LatestMentionUnique(p.received, s, i, k);
        }
        assert FreshMention(p.received, s, k, now) <==> now - p.lastPrices[s].updateTime < PRICE_TIMEOUT;
      }
    }
  }

  lemma StepKeepsTimes(p: Provider, a: Action, s: Symbol)
    requires Inv(p) && Enabled(p, a) && s in p.lastPrices
    ensures var q := Step(p, a);
            s in q.lastPrices && p.lastPrices[s].updateTime <= q.lastPrices[s].updateTime
  {
    if a == Deliver && s in p.tick.update {
      UpdateIsLater(p.lastPrices[s], p.received, p.tick.update, p.clock, s);
    }
  }

  lemma UpdateIsLater(price: RawPrice, received: seq<Batch>, update: Batch, clock: Time, s: Symbol)
    requires EntryOfLatest(price, received, s) && s in update && Chronological(received + [update], clock)
    ensures price.updateTime <= update[s].updateTime
  {
    var i :| LatestMention(received, s, i) && price == received[i][s];
    var all, j := received + [update], |received|;
    assert all[i] == received[i] && all[j] == update;
    assert all[i][s].updateTime <= all[j][s].updateTime;
  }

  /** A cached price is only ever replaced by one that is at least as recent. */
  lemma {:induction false} TimesNeverDecrease(clock: Time, actions: seq<Action>, more: seq<Action>, s: Symbol)
    requires s in Run(Initial(clock), actions).lastPrices
    ensures s in Run(Initial(clock), actions + more).lastPrices
    ensures Run(Initial(clock), actions).lastPrices[s].updateTime
         <= Run(Initial(clock), actions + more).lastPrices[s].updateTime
    decreases |more|
  {
    if more == [] {
      assert actions + more == actions;
    } else {
      var init, a := more[..|more| - 1], more[|more| - 1];
      TimesNeverDecrease(clock, actions, init, s);
      RunKeepsInv(clock, actions + init);
      assert (actions + more)[..|actions + more| - 1] == actions + init;
      var p := Run(Initial(clock), actions + init);
      if Enabled(p, a) {
        StepKeepsTimes(p, a, s);
      }
    }
  }

  // ---------- the provider and the source themselves ----------

  class Clock {
    var now: Time

    /** time.Now: an arbitrary amount of time may have passed. */
    method Now() returns (t: Time)
      modifies this
      ensures old(now) <= t == now
    {
      var elapsed: int :| 0 <= elapsed;
      now := now + elapsed;
      t := now;
    }
  }

  /** The tick source stamps the fetched prices one by one. */
  method StampPrices(rawPrices: map<Symbol, real>, clock: Clock) returns (priceUpdate: Batch)
    modifies clock
    ensures priceUpdate.Keys == rawPrices.Keys
    ensures forall s :: s in rawPrices ==> priceUpdate[s].price == rawPrices[s]
    ensures Stamped(priceUpdate, old(clock.now), clock.now)
  {
    priceUpdate := map[];
    var symbols := rawPrices.Keys;
    while symbols != {}
      invariant symbols <= rawPrices.Keys && priceUpdate.Keys == rawPrices.Keys - symbols
      invariant forall s :: s in priceUpdate ==> priceUpdate[s].price == rawPrices[s]
      invariant Stamped(priceUpdate, old(clock.now), clock.now)
      decreases |symbols|
    {
      var symbol :| symbol in symbols;
      var now := clock.Now();
      priceUpdate := priceUpdate[symbol := RawPrice(rawPrices[symbol], now)];
      symbols := symbols - {symbol};
    }
  }

  class PriceProvider {
    const pairToSymbolMapping: map<Pair, Symbol>
    const sourceName: string
    var lastPrices: Batch

    constructor (sourceName: string, pairToSymbolMapping: map<Pair, Symbol>)
      ensures this.sourceName == sourceName && this.pairToSymbolMapping == pairToSymbolMapping && lastPrices == map[]
    {
      this.sourceName := sourceName;
      this.pairToSymbolMapping := pairToSymbolMapping;
      lastPrices := map[];
    }

    /** The provider loop takes a batch: entry by entry, in any order. */
    method HandleUpdates(updates: Batch)
      modifies this
      ensures lastPrices == old(lastPrices) + updates
    {
      var symbols := updates.Keys;
      while symbols != {}
        invariant symbols <= updates.Keys
        invariant lastPrices == old(lastPrices) + (map s | s in updates && s !in symbols :: updates[s])
        decreases |symbols|
      {
        var symbol :| symbol in symbols;
        lastPrices := lastPrices[symbol := updates[symbol]];
        symbols := symbols - {symbol};
      }
    }

    /** The cache has an entry for the pair. */
    predicate Cached(pair: Pair)
      reads this
    {
      pair in pairToSymbolMapping && pairToSymbolMapping[pair] in lastPrices
    }

    function Entry(pair: Pair): RawPrice
      requires Cached(pair)
      reads this
    {
      lastPrices[pairToSymbolMapping[pair]]
    }

    /** The entry for the pair is younger than 15 seconds. */
    predicate Fresh(pair: Pair, now: Time)
      reads this
    {
      Cached(pair) && now - Entry(pair).updateTime < 15_000_000_000
    }

    /** The cached price, valid while it is fresh; 0 without an entry, and -1 for a pair that is not mapped. */
    ghost predicate IsAnswer(price: Price, pair: Pair, now: Time)
      reads this
    {
      && price.pair == pair && price.sourceName == sourceName
      && (pair !in pairToSymbolMapping ==> price.price == -1.0 && !price.valid)
      && (pair in pairToSymbolMapping && !Cached(pair) ==> price.price == 0.0 && !price.valid)
      && (Cached(pair) ==> price.price == Entry(pair).price && (price.valid <==> Fresh(pair, now)))
    }

    function Answer(pair: Pair, now: Time): (price: Price)
      reads this
      ensures IsAnswer(price, pair, now)
    {
      PriceAt(pairToSymbolMapping, lastPrices, sourceName, pair, now)
    }

    method GetPrice(pair: Pair, now: Time) returns (price: Price)
      ensures price == Answer(pair, now) && IsAnswer(price, pair, now)
    {
      if pair !in pairToSymbolMapping {
        return Price(pair, -1.0, sourceName, false);
      }
      var symbol := pairToSymbolMapping[pair];
      var rawPrice, priceExists := RawPrice(0.0, 0), false;
      if symbol in lastPrices {
        rawPrice, priceExists := lastPrices[symbol], true;
      }
      return Price(pair, rawPrice.price, sourceName, IsValid(rawPrice, priceExists, now));
    }
  }

  /** The set of symbols a provider asks its source for. */
  method MapValues(m: map<Pair, Symbol>) returns (s: set<Symbol>)
    ensures s == m.Values
  {
    s := {};
    var pairs := m.Keys;
    while pairs != {}
      invariant pairs <= m.Keys
      invariant s == set p | p in m && p !in pairs :: m[p]
      decreases |pairs|
    {
      var pair :| pair in pairs;
      s := s + {m[pair]};
      pairs := pairs - {pair};
    }
  }
}
