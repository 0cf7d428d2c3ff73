/** The event stream: one loop turns block messages into voting-period signals, another polls the oracle parameters
    and forwards changes. Every atomic action of the two goroutines and of their channels is a step. */
module EventStream {
  import opened Types
  import opened Arithmetic

  const UINT64_MODULUS: nat := 0x1_0000_0000_0000_0000

  /** height + 1 on a uint64. */
  function Successor(height: nat): nat { (height + 1) % UINT64_MODULUS }

  /** A websocket message (None: no height could be read) and the parameters loaded when it was handled. */
  datatype Block = Block(height: Option<nat>, params: Option<Params>)

  datatype VotingPc = Listening | Signaling(height: nat) | VotingExited | Panicked
  datatype ParamsPc = Ticking | Fetching | Sending(params: Params) | ParamsExited

  /** What the voting loop makes of a message: its next program counter. */
  function Decide(b: Block): VotingPc {
    if b.height.None? || b.height.value == 0 then Listening
    else if b.params.None? then Listening
    else if b.params.value.votePeriodBlocks == 0 then Panicked // integer division by zero
    else if Successor(b.height.value) % b.params.value.votePeriodBlocks != 0 then Listening
    else Signaling(Successor(b.height.value))
  }

  /** The stream's goroutines and channels, followed by what has happened so far: the parameters fetched, the
      parameters the feeder took out of the channel, the messages handled and the signals the feeder took. */
  datatype State = State(
    stop: bool,
    voting: VotingPc,
    updating: ParamsPc,
    current: Option<Params>,
    buffer: seq<Params>,
    fetched: seq<Params>,
    received: seq<Params>,
    blocks: seq<Block>,
    delivered: seq<nat>)

  const INITIAL: State := State(false, Listening, Ticking, None, [], [], [], [], [])

  datatype Action =
    | Close                       // Close closes the stop signal
    | VotingStops | Message(height: Option<nat>) | DeliverSignal | DropSignal
    | ParamsStop | Tick | FetchFails | FetchReturns(params: Params) | SendParams | DropParams
    | ReceiveParams               // the feeder takes the buffered parameters

  predicate Enabled(s: State, a: Action) {
    match a
    case Close => !s.stop
    case VotingStops => s.voting == Listening && s.stop
    case Message(_) => s.voting == Listening
    case DeliverSignal => s.voting.Signaling?
    case DropSignal => s.voting.Signaling? && s.stop
    case ParamsStop => s.updating == Ticking && s.stop
    case Tick => s.updating == Ticking
    case FetchFails => s.updating == Fetching
    case FetchReturns(_) => s.updating == Fetching
    case SendParams => s.updating.Sending? && s.buffer == []
    case DropParams => s.updating.Sending? && s.stop
    case ReceiveParams => s.buffer != []
  }

  function Step(s: State, a: Action): State
    requires Enabled(s, a)
  {
    match a
    case Close => s.(stop := true)
    case VotingStops => s.(voting := VotingExited)
    case Message(height) =>
      var b := Block(height, s.current);
      s.(voting := Decide(b), blocks := s.blocks + [b])
    case DeliverSignal => s.(voting := Listening, delivered := s.delivered + [s.voting.height])
    case DropSignal => s.(voting := Listening)
    case ParamsStop => s.(updating := ParamsExited)
    case Tick => s.(updating := Fetching)
    case FetchFails => s.(updating := Ticking)
    case FetchReturns(p) =>
      s.(current := Some(p), fetched := s.fetched + [p],
         updating := if s.current == Some(p) then Ticking else Sending(p))
    case SendParams => s.(updating := Ticking, buffer := [s.updating.params])
    case DropParams => s.(updating := Ticking)
    case ReceiveParams => s.(buffer := s.buffer[1..], received := s.received + [s.buffer[0]])
  }

  function Run(actions: seq<Action>): State {
    if actions == [] then INITIAL
    else
      var s := Run(actions[..|actions| - 1]);
      if Enabled(s, actions[|actions| - 1]) then Step(s, actions[|actions| - 1]) else s
  }

  // ---------- the specification ----------

  /** A history with runs of equal consecutive entries collapsed. */
  function Changes<T(==)>(h: seq<T>): seq<T> {
    if h == [] then []
    else
      var last := |h| - 1;
      if last > 0 && h[last - 1] == h[last] then Changes(h[..last]) else Changes(h[..last]) + [h[last]]
  }

  /** The heights that the handled messages call for, in order. */
  function Signals(blocks: seq<Block>): seq<nat> {
    if blocks == [] then []
    else
      var rest, d := Signals(blocks[..|blocks| - 1]), Decide(blocks[|blocks| - 1]);
      if d.Signaling? then rest + [d.height] else rest
  }

  predicate Subsequence<T(==)>(xs: seq<T>, ys: seq<T>) {
    if xs == [] then true
    else if ys == [] then false
    else
      || (xs[|xs| - 1] == ys[|ys| - 1] && Subsequence(xs[..|xs| - 1], ys[..|ys| - 1]))
      || Subsequence(xs, ys[..|ys| - 1])
  }

  function InFlight(s: State): seq<Params> {
    s.buffer + if s.updating.Sending? then [s.updating.params] else []
  }

  function Pending(s: State): seq<nat> {
    if s.voting.Signaling? then [s.voting.height] else []
  }

  // ---------- the invariant ----------

  /** Before the stop exactly the changes of the history were forwarded; after it nothing but changes, in order. */
  ghost predicate Refines(stop: bool, forwarded: seq<Params>, history: seq<Params>) {
    && Subsequence(forwarded, Changes(history))
    && (!stop ==> forwarded == Changes(history))
  }

  ghost predicate ParamsInv(s: State) {
    && |s.buffer| <= 1
    && (s.current == if s.fetched == [] then None else Some(s.fetched[|s.fetched| - 1]))
    && Refines(s.stop, s.received + InFlight(s), s.fetched)
  }

  ghost predicate VotingInv(s: State) {
    && Subsequence(s.delivered + Pending(s), Signals(s.blocks))
    && (!s.stop ==> s.delivered + Pending(s) == Signals(s.blocks))
    && (s.voting == Panicked ==> s.blocks != [] && Decide(s.blocks[|s.blocks| - 1]) == Panicked)
  }

  ghost predicate ControlInv(s: State) {
    (s.voting == VotingExited || s.updating == ParamsExited) ==> s.stop
  }

  ghost predicate Inv(s: State) {
    ParamsInv(s) && VotingInv(s) && ControlInv(s)
  }

  lemma SubsequenceSnoc<T>(xs: seq<T>, ys: seq<T>, z: T)
    requires Subsequence(xs, ys)
    ensures Subsequence(xs + [z], ys + [z])
    ensures Subsequence(xs, ys + [z])
  {
    assert (xs + [z])[..|xs|] == xs && (ys + [z])[..|ys|] == ys;
  }

  lemma {:induction false} SubsequenceDrop<T>(xs: seq<T>, z: T, ys: seq<T>)
    requires Subsequence(xs + [z], ys)
    ensures Subsequence(xs, ys)
  {
    var init := ys[..|ys| - 1];
    assert (xs + [z])[..|xs|] == xs && ys == init + [ys[|ys| - 1]];
    if !(z == ys[|ys| - 1] && Subsequence(xs, init)) {
      SubsequenceDrop(xs, z, init);
    }
    SubsequenceSnoc(xs, init, ys[|ys| - 1]);
  }

  lemma ChangesSnoc<T>(h: seq<T>, x: T)
    ensures Changes(h + [x]) == if h != [] && h[|h| - 1] == x then Changes(h) else Changes(h) + [x]
  {
    assert (h + [x])[..|h|] == h;
  }

  lemma SignalsSnoc(blocks: seq<Block>, b: Block)
    ensures Signals(blocks + [b]) == Signals(blocks) + if Decide(b).Signaling? then [Decide(b).height] else []
  {
    assert (blocks + [b])[..|blocks|] == blocks;
  }

  lemma FetchRefines(stop: bool, forwarded: seq<Params>, history: seq<Params>, p: Params)
    requires Refines(stop, forwarded, history)
    ensures Refines(stop, if history != [] && history[|history| - 1] == p then forwarded else forwarded + [p],
                    history + [p])
  {
    ChangesSnoc(history, p);
    SubsequenceSnoc(forwarded, Changes(history), p);
  }

  lemma DropRefines(forwarded: seq<Params>, history: seq<Params>, p: Params)
    requires Refines(true, forwarded + [p], history)
    ensures Refines(true, forwarded, history)
  {
    SubsequenceDrop(forwarded, p, Changes(history));
  }

  lemma Append<T>(xs: seq<T>, ys: seq<T>, z: T)
    ensures xs + (ys + [z]) == xs + ys + [z]
  {}

  lemma ParamsInvFrom(s: State, forwarded: seq<Params>)
    requires |s.buffer| <= 1
    requires s.fetched != [] && s.current == Some(s.fetched[|s.fetched| - 1])
    requires forwarded == s.received + InFlight(s) && Refines(s.stop, forwarded, s.fetched)
    ensures ParamsInv(s)
  {}

  lemma FetchKeepsParams(s: State, p: Params)
    requires ParamsInv(s) && s.updating == Fetching
    ensures ParamsInv(Step(s, FetchReturns(p)))
  {
    var t := Step(s, FetchReturns(p));
    var before := s.received + InFlight(s);
    FetchRefines(s.stop, before, s.fetched, p);
    assert InFlight(s) == s.buffer;
    if s.current == Some(p) {
      assert InFlight(t) == s.buffer;
      ParamsInvFrom(t, before);
    } else {
      assert InFlight(t) == s.buffer + [p];
      Append(s.received, s.buffer, p);
      ParamsInvFrom(t, before + [p]);
    }
  }

  lemma DropKeepsParams(s: State)
    requires ParamsInv(s) && Enabled(s, DropParams)
    ensures ParamsInv(Step(s, DropParams))
  {
    var t := Step(s, DropParams);
    assert s.received + InFlight(s) == t.received + InFlight(t) + [s.updating.params];
    DropRefines(t.received + InFlight(t), s.fetched, s.updating.params);
  }

  lemma SameForwarded(s: State, t: State)
    requires ParamsInv(s) && t.received + InFlight(t) == s.received + InFlight(s) && |t.buffer| <= 1
    requires t.fetched == s.fetched && t.current == s.current && (s.stop ==> t.stop)
    ensures ParamsInv(t)
  {}

  lemma SendKeepsParams(s: State)
    requires ParamsInv(s) && Enabled(s, SendParams)
    ensures ParamsInv(Step(s, SendParams))
  {
    var t := Step(s, SendParams);
    assert InFlight(s) == [s.updating.params] == InFlight(t);
    SameForwarded(s, t);
  }

  lemma Handover<T>(xs: seq<T>, ys: seq<T>, zs: seq<T>)
    requires |ys| == 1
    ensures xs + [ys[0]] + (ys[1..] + zs) == xs + (ys + zs)
  {}

  lemma ReceiveKeepsParams(s: State)
    requires ParamsInv(s) && Enabled(s, ReceiveParams)
    ensures ParamsInv(Step(s, ReceiveParams))
  {
    Handover(s.received, s.buffer, if s.updating.Sending? then [s.updating.params] else []);
    SameForwarded(s, Step(s, ReceiveParams));
  }

  lemma StepKeepsParams(s: State, a: Action)
    requires ParamsInv(s) && Enabled(s, a)
    ensures ParamsInv(Step(s, a))
  {
    match a {
      case FetchReturns(p) => FetchKeepsParams(s, p);
      case DropParams => DropKeepsParams(s);
      case SendParams => SendKeepsParams(s);
      case ReceiveParams => ReceiveKeepsParams(s);
      case _ => SameForwarded(s, Step(s, a));
    }
  }

  lemma StepKeepsVoting(s: State, a: Action)
    requires VotingInv(s) && Enabled(s, a)
    ensures VotingInv(Step(s, a))
  {
    var t := Step(s, a);
    var before, after := s.delivered + Pending(s), t.delivered + Pending(t);
    match a {
      case Message(h) =>
        var b := Block(h, s.current);
        SignalsSnoc(s.blocks, b);
        if Decide(b).Signaling? {
          assert after == before + [Decide(b).height];
          SubsequenceSnoc(before, Signals(s.blocks), Decide(b).height);
        } else {
          assert after == before;
        }
      case DropSignal =>
        assert before == after + [s.voting.height];
        SubsequenceDrop(after, s.voting.height, Signals(s.blocks));
      case DeliverSignal => assert after == before;
      case _ =>
    }
  }

  lemma StepKeepsInv(s: State, a: Action)
    requires Inv(s) && Enabled(s, a)
    ensures Inv(Step(s, a))
  {
    StepKeepsParams(s, a);
    StepKeepsVoting(s, a);
  }

  lemma {:induction false} RunKeepsInv(actions: seq<Action>)
    ensures Inv(Run(actions))
  {
    if actions == [] {
    } else {
      var s := Run(actions[..|actions| - 1]);
      RunKeepsInv(actions[..|actions| - 1]);
      if Enabled(s, actions[|actions| - 1]) {
        StepKeepsInv(s, actions[|actions| - 1]);
      }
    }
  }

  // ---------- the parameters ----------

  lemma AtMostTwoBehind(s: State)
    requires ParamsInv(s) && !s.stop
    ensures s.received <= Changes(s.fetched)
    ensures |Changes(s.fetched)| <= |s.received| + 2
    ensures InFlight(s) == [] && s.received != [] ==> s.current == Some(s.received[|s.received| - 1])
  {
    ChangesEndsLike(s.fetched);
  }

  /** Before the stop, what the feeder received, then the buffer, then the blocked send is exactly the fetched history
      without repetitions; so the feeder is at most two changes behind, and up to date when nothing is in flight.
      After the stop nothing is made up, duplicated or reordered, only dropped. */
  lemma ParamsRefinement(actions: seq<Action>)
    ensures var s := Run(actions);
            && Subsequence(s.received + InFlight(s), Changes(s.fetched))
            && (!s.stop ==>
                  && s.received + InFlight(s) == Changes(s.fetched)
                  && |Changes(s.fetched)| <= |s.received| + 2
                  && (InFlight(s) == [] && s.received != [] ==> s.current == Some(s.received[|s.received| - 1])))
  {
    RunKeepsInv(actions);
    ForwardedExactly(Run(actions));
  }

  lemma ForwardedExactly(s: State)
    requires ParamsInv(s)
    ensures Subsequence(s.received + InFlight(s), Changes(s.fetched))
    ensures !s.stop ==>
              && s.received + InFlight(s) == Changes(s.fetched)
              && |Changes(s.fetched)| <= |s.received| + 2
              && (InFlight(s) == [] && s.received != [] ==> s.current == Some(s.received[|s.received| - 1]))
  {
    if !s.stop {
      AtMostTwoBehind(s);
    }
  }

  lemma {:induction false} ChangesEndsLike<T>(h: seq<T>)
    ensures var c := Changes(h);
            && (h == [] <==> c == [])
            && (h != [] ==> c[|c| - 1] == h[|h| - 1])
            && (forall i :: 0 < i < |c| ==> c[i - 1] != c[i])
  {
    if h == [] {
    } else {
      ChangesEndsLike(h[..|h| - 1]);
    }
  }

  /** Before the stop the feeder is never handed the same parameters twice in a row. */
  lemma NoRepeatedParams(actions: seq<Action>)
    requires !Run(actions).stop
    ensures var r := Run(actions).received; forall i :: 0 < i < |r| ==> r[i - 1] != r[i]
  {
    RunKeepsInv(actions);
    var s := Run(actions);
    ChangesEndsLike(s.fetched);
    assert s.received == Changes(s.fetched)[..|s.received|];
  }

  // ---------- the voting periods ----------

  /** A message that starts a voting period: a positive height whose successor on a uint64 is a multiple of the vote
      period of the loaded parameters. */
  predicate Due(b: Block) {
    && b.height.Some? && b.height.value > 0
    && b.params.Some? && b.params.value.votePeriodBlocks > 0
    && (b.height.value + 1) % 0x1_0000_0000_0000_0000 % b.params.value.votePeriodBlocks == 0
  }

  /** The heights after those of the due messages, in order. */
  function DueHeights(blocks: seq<Block>): seq<nat> {
    if blocks == [] then []
    else
      var init, b := blocks[..|blocks| - 1], blocks[|blocks| - 1];
      DueHeights(init) + if Due(b) then [(b.height.value + 1) % 0x1_0000_0000_0000_0000] else []
  }

  lemma {:induction false} SignalsAreDue(blocks: seq<Block>)
    ensures Signals(blocks) == DueHeights(blocks)
  {
    if blocks == [] {
    } else {
      SignalsAreDue(blocks[..|blocks| - 1]);
    }
  }

  /** The actions of a run that were enabled. */
  function Taken(actions: seq<Action>): seq<Action> {
    if actions == [] then []
    else
      var init, a := actions[..|actions| - 1], actions[|actions| - 1];
      if Enabled(Run(init), a) then Taken(init) + [a] else Taken(init)
  }

  function FetchesOf(taken: seq<Action>): seq<Params> {
    if taken == [] then []
    else
      var init, a := taken[..|taken| - 1], taken[|taken| - 1];
      FetchesOf(init) + if a.FetchReturns? then [a.params] else []
  }

  /** Every message with the parameters fetched last before it. */
  function MessagesOf(taken: seq<Action>): seq<Block> {
    if taken == [] then []
    else
      var init, a := taken[..|taken| - 1], taken[|taken| - 1];
      var before := FetchesOf(init);
      MessagesOf(init)
      + if a.Message? then [Block(a.height, if before == [] then None else Some(before[|before| - 1]))] else []
  }

  /** The histories in the state are those of the actions taken: each message meets the parameters fetched last before
      it, and nothing is forgotten or made up. */
  lemma {:induction false} HistoriesAreTaken(actions: seq<Action>)
    ensures Run(actions).fetched == FetchesOf(Taken(actions))
    ensures Run(actions).blocks == MessagesOf(Taken(actions))
  {
    if actions == [] {
    } else {
      var init, a := actions[..|actions| - 1], actions[|actions| - 1];
      HistoriesAreTaken(init);
      if Enabled(Run(init), a) {
        RunKeepsInv(init);
        TakenStep(Run(init), Taken(init), a);
      }
    }
  }

  lemma TakenStep(s: State, taken: seq<Action>, a: Action)
    requires ParamsInv(s) && Enabled(s, a)
    requires s.fetched == FetchesOf(taken) && s.blocks == MessagesOf(taken)
    ensures Step(s, a).fetched == FetchesOf(taken + [a]) && Step(s, a).blocks == MessagesOf(taken + [a])
  {
    assert (taken + [a])[..|taken|] == taken;
  }

  /** Over every run, the signals handed to the feeder and then the blocked one are exactly the heights after the due
      messages, each judged by the parameters fetched last before it; after the stop some may be missing. */
  lemma SignalsAreExact(actions: seq<Action>)
    ensures var s, due := Run(actions), DueHeights(MessagesOf(Taken(actions)));
            && Subsequence(s.delivered + Pending(s), due)
            && (!s.stop ==> s.delivered + Pending(s) == due)
  {
    RunKeepsInv(actions);
    HistoriesAreTaken(actions);
    SignalsAreDue(Run(actions).blocks);
  }

  /** A listening loop takes any message; what comes of it is decided by the height and the loaded parameters alone. */
  lemma MessageHandled(s: State, height: Option<nat>)
    requires s.voting == Listening
    ensures Enabled(s, Message(height))
    ensures var b, t := Block(height, s.current), Step(s, Message(height));
            && t == s.(voting := t.voting, blocks := s.blocks + [b])
            && t.voting == if Fatal(b) then Panicked
                           else if Due(b) then Signaling((height.value + 1) % 0x1_0000_0000_0000_0000)
                           else Listening
  {}

  ghost predicate ZeroFetched(fetched: seq<Params>) {
    exists i :: 0 <= i < |fetched| && fetched[i].votePeriodBlocks == 0
  }

  lemma StepKeepsZero(s: State, a: Action)
    requires ParamsInv(s) && Enabled(s, a) && (s.voting == Panicked ==> ZeroFetched(s.fetched))
    ensures Step(s, a).voting == Panicked ==> ZeroFetched(Step(s, a).fetched)
  {
    if a.Message? && Step(s, a).voting == Panicked {
      assert s.fetched[|s.fetched| - 1].votePeriodBlocks == 0;
    }
    if a.FetchReturns? && s.voting == Panicked {
      var i :| 0 <= i < |s.fetched| && s.fetched[i].votePeriodBlocks == 0;
      assert (s.fetched + [a.params])[i] == s.fetched[i];
    }
  }

  /** The process can only be brought down by the voting loop after a vote period of zero was fetched. */
  lemma {:induction false} PanicNeedsZeroPeriod(actions: seq<Action>)
    ensures Run(actions).voting == Panicked ==> ZeroFetched(Run(actions).fetched)
  {
    if actions == [] {
    } else {
      var init, a := actions[..|actions| - 1], actions[|actions| - 1];
      PanicNeedsZeroPeriod(init);
      RunKeepsInv(init);
      if Enabled(Run(init), a) {
        StepKeepsZero(Run(init), a);
      }
    }
  }

  /** A positive height that meets a loaded vote period of zero. */
  predicate Fatal(b: Block) {
    b.height.Some? && b.height.value > 0 && b.params.Some? && b.params.value.votePeriodBlocks == 0
  }

  ghost predicate PanicInv(s: State) {
    && (forall k :: 0 <= k < |s.blocks| - 1 ==> !Fatal(s.blocks[k]))
    && (s.voting == Panicked <==> s.blocks != [] && Fatal(s.blocks[|s.blocks| - 1]))
  }

  /** Over every run the voting loop crashes exactly when it handles a fatal message, and handles none after that. */
  lemma {:induction false} PanicsIffFatal(actions: seq<Action>)
    ensures PanicInv(Run(actions))
    ensures Run(actions).voting == Panicked <==> exists k :: 0 <= k < |Run(actions).blocks| && Fatal(Run(actions).blocks[k])
  {
    if actions == [] {
    } else {
      PanicsIffFatal(actions[..|actions| - 1]);
    }
  }

  /** The crash is reachable: the parameters say zero, are forwarded, and a block arrives. */
  lemma ZeroPeriodPanics()
    ensures Run([Tick] + [FetchReturns(Params([], 0))] + [SendParams] + [Message(Some(1))]).voting == Panicked
  {
    var start: seq<Action> := [];
    RunSnoc(start, Tick);
    assert start + [Tick] == [Tick];
    RunSnoc([Tick], FetchReturns(Params([], 0)));
    RunSnoc([Tick] + [FetchReturns(Params([], 0))], SendParams);
    RunSnoc([Tick] + [FetchReturns(Params([], 0))] + [SendParams], Message(Some(1)));
  }

  lemma RunSnoc(actions: seq<Action>, a: Action)
    ensures var s := Run(actions); Run(actions + [a]) == if Enabled(s, a) then Step(s, a) else s
  {
    assert (actions + [a])[..|actions|] == actions;
  }

  function Contiguous(first: nat, count: nat, params: Params): seq<Block> {
    seq(count, i requires 0 <= i < count => Block(Some(first + i), Some(params)))
  }

  /** For the blocks first, first + 1, ... under a constant vote period v, the i-th signal is the i-th multiple of v
      above first, so signals are spaced exactly v apart, and their number is the number of such multiples. */
  lemma {:induction false} ContiguousSignals(first: nat, count: nat, params: Params)
    requires first > 0 && first + count < UINT64_MODULUS && params.votePeriodBlocks > 0
    ensures var v, signals := params.votePeriodBlocks, Signals(Contiguous(first, count, params));
            && |signals| == Quotient(first + count, v) - Quotient(first, v)
            && (forall i :: 0 <= i < |signals| ==> signals[i] == Multiple(Quotient(first, v) + 1 + i, v))
  {
    if count > 0 {
      var h, v := first + (count - 1), params.votePeriodBlocks;
      var b := Block(Some(h), Some(params));
      ContiguousSignals(first, count - 1, params);
      assert Contiguous(first, count, params) == Contiguous(first, count - 1, params) + [b];
      SignalsSnoc(Contiguous(first, count - 1, params), b);
      DecideInRange(h, params);
      DivisionStep(h, v);
    }
  }

  lemma DecideInRange(h: nat, params: Params)
    requires 0 < h && h + 1 < UINT64_MODULUS && params.votePeriodBlocks > 0
    ensures Decide(Block(Some(h), Some(params)))
         == if (h + 1) % params.votePeriodBlocks == 0 then Signaling(h + 1) else Listening
  {
    assert Successor(h) == h + 1;
  }

  // ---------- the stream itself ----------

  class Stream {
    var stopSignal: bool
    var voting: VotingPc
    var updating: ParamsPc
    var params: Option<Params>
    var paramsChannel: seq<Params>
    ghost var fetched: seq<Params>
    ghost var received: seq<Params>
    ghost var blocks: seq<Block>
    ghost var delivered: seq<nat>

    ghost function View(): State
      reads this
    {
      State(stopSignal, voting, updating, params, paramsChannel, fetched, received, blocks, delivered)
    }

    constructor ()
      ensures View() == INITIAL
    {
      stopSignal, voting, updating, params, paramsChannel := false, Listening, Ticking, None, [];
      fetched, received, blocks, delivered := [], [], [], [];
    }

    /** One turn of the voting loop that takes a websocket message, up to its inner select. */
    method HandleMessage(height: Option<nat>)
      requires Enabled(View(), Message(height))
      modifies this
      ensures View() == Step(old(View()), Message(height))
      ensures View() == old(View()).(voting := voting, blocks := old(blocks) + [Block(height, params)])
      ensures height.None? || height.value == 0 || params.None? ==> voting == Listening
      ensures height.Some? && height.value > 0 && params.Some? ==>
                var v, next := params.value.votePeriodBlocks, (height.value + 1) % 0x1_0000_0000_0000_0000;
                voting == if v == 0 then Panicked else if next % v == 0 then Signaling(next) else Listening
    {
      blocks := blocks + [Block(height, params)];
      if height.None? {
        return;
      }
      var blockHeight := height.value;
      if blockHeight <= 0 {
        return;
      }
      var p := params;
      if p == None {
        return;
      }
      if p.value.votePeriodBlocks == 0 {
        voting := Panicked;
        return;
      }
      if Successor(blockHeight) % p.value.votePeriodBlocks != 0 {
        return;
      }
      voting := Signaling(Successor(blockHeight));
    }

    /** One turn of the parameters loop from the query's answer to its inner select. */
    method HandleParams(response: OracleParams)
      requires updating == Fetching
      modifies this
      ensures View() == Step(old(View()), FetchReturns(Params(response.whitelist, response.votePeriod)))
      ensures var p := Params(response.whitelist, response.votePeriod);
              View() == old(View()).(current := Some(p), fetched := old(fetched) + [p],
                                     updating := if old(params) == Some(p) then Ticking else Sending(p))
    {
      var newParams := ParamsFromOracleParams(response);
      var oldParams := params;
      params := Some(newParams);
      fetched := fetched + [newParams];
      if oldParams.Some? {
        var same := oldParams.value.Equal(newParams);
        if same {
          updating := Ticking;
          return;
        }
      }
      updating := Sending(newParams);
    }

    /** The inner select of the parameters loop; dropping counts as a choice only once the stop signal is closed. */
    method ForwardParams(drop: bool)
      requires updating.Sending? && (if drop then stopSignal else paramsChannel == [])
      modifies this
      ensures View() == Step(old(View()), if drop then DropParams else SendParams)
      ensures View() == old(View()).(updating := Ticking, buffer := if drop then old(paramsChannel) else [old(updating).params])
    {
      if !drop {
        paramsChannel := [updating.params];
      }
      updating := Ticking;
    }
  }
}
