/** The whole process as interleaved steps: the feeder loop, both stream loops, and for every provider its loop and its
    tick source. Shutdown closes them one after the other while the others may still be working. */
module FeederSystem {
  import opened Types
  import Stream = EventStream
  import Source = PriceSource

  datatype FeederPc =
    | Initializing                                  // waiting for the first parameters, with a timeout
    | Looping
    | HandlingVote(height: nat)                     // gathering and sending prices
    | ClosingStream | AwaitingStream
    | ClosingProviders(todo: set<nat>) | AwaitingProvider(id: nat, todo: set<nat>)
    | Done                                          // f.done is closed
    | Aborted                                       // the init timeout panicked

  datatype System = System(
    stop: bool,
    feeder: FeederPc,
    params: Params,
    stream: Stream.State,
    providers: seq<Source.Provider>)

  datatype Action =
    | InitTimeout | CloseFeeder
    | TakeParams | TakeVote | FinishVote
    | FeederStops | CloseStream | StreamClosed
    | CloseProvider(id: nat) | ProviderClosed | Finish
    | StreamAct(stream: Stream.Action)
    | ProviderAct(id: nat, provider: Source.Action)

  function UpTo(n: nat): (ids: set<nat>)
    ensures |ids| == n
    ensures forall i: nat :: i in ids <==> i < n
  {
    if n == 0 then {}
    else
      var rest: set<nat> := UpTo(n - 1);
      rest + {n - 1}
  }

  function Ids(s: System): set<nat> { UpTo(|s.providers|) }

  function Initial(clocks: seq<Time>): System {
    System(false, Initializing, Params([], 0), Stream.INITIAL,
           seq(|clocks|, i requires 0 <= i < |clocks| => Source.Initial(clocks[i])))
  }

  /** A panic in any goroutine ends the process. */
  predicate Crashed(s: System) {
    s.feeder == Aborted || s.stream.voting == Stream.Panicked
  }

  ghost predicate Enabled(s: System, a: Action) {
    && !Crashed(s)
    && match a
       case InitTimeout => s.feeder == Initializing
       case CloseFeeder => s.feeder != Initializing && !s.stop
       case TakeParams => (s.feeder == Initializing || s.feeder == Looping) && Stream.Enabled(s.stream, Stream.ReceiveParams)
       case TakeVote => s.feeder == Looping && Stream.Enabled(s.stream, Stream.DeliverSignal)
       case FinishVote => s.feeder.HandlingVote?
       case FeederStops => s.feeder == Looping && s.stop
       case CloseStream => s.feeder == ClosingStream && Stream.Enabled(s.stream, Stream.Close)
       case StreamClosed => s.feeder == AwaitingStream
                            && s.stream.voting == Stream.VotingExited && s.stream.updating == Stream.ParamsExited
       case CloseProvider(id) => s.feeder.ClosingProviders? && id in s.feeder.todo && id < |s.providers|
                                 && Source.Enabled(s.providers[id], Source.Close)
       case ProviderClosed => s.feeder.AwaitingProvider? && s.feeder.id < |s.providers|
                              && s.providers[s.feeder.id].loop == Source.LoopExited
       case Finish => s.feeder == ClosingProviders({})
       case StreamAct(b) => b !in {Stream.Close, Stream.DeliverSignal, Stream.ReceiveParams} && Stream.Enabled(s.stream, b)
       case ProviderAct(id, b) => id < |s.providers| && b != Source.Close && Source.Enabled(s.providers[id], b)
  }

  /** Where the feeder's goroutine goes. */
  ghost function NextPc(s: System, a: Action): FeederPc
    requires Enabled(s, a)
  {
    match a
    case InitTimeout => Aborted
    case TakeParams => Looping
    case TakeVote => HandlingVote(s.stream.voting.height)
    case FinishVote => Looping
    case FeederStops => ClosingStream
    case CloseStream => AwaitingStream
    case StreamClosed => ClosingProviders(Ids(s))
    case CloseProvider(id) => AwaitingProvider(id, s.feeder.todo - {id})
    case ProviderClosed => ClosingProviders(s.feeder.todo)
    case Finish => Done
    case _ => s.feeder
  }

  ghost function Step(s: System, a: Action): System
    requires Enabled(s, a)
  {
    var moved := s.(feeder := NextPc(s, a));
    match a
    case CloseFeeder => moved.(stop := true)
    case TakeParams => moved.(params := s.stream.buffer[0], stream := Stream.Step(s.stream, Stream.ReceiveParams))
    case TakeVote => moved.(stream := Stream.Step(s.stream, Stream.DeliverSignal))
    case CloseStream => moved.(stream := Stream.Step(s.stream, Stream.Close))
    case CloseProvider(id) => moved.(providers := s.providers[id := Source.Step(s.providers[id], Source.Close)])
    case StreamAct(b) => moved.(stream := Stream.Step(s.stream, b))
    case ProviderAct(id, b) => moved.(providers := s.providers[id := Source.Step(s.providers[id], b)])
    case _ => moved
  }

  /** An action that is not enabled changes nothing. */
  ghost function Next(s: System, a: Action): System {
    if Enabled(s, a) then Step(s, a) else s
  }

  ghost function Run(s: System, actions: seq<Action>): System {
    if actions == [] then s else Next(Run(s, actions[..|actions| - 1]), actions[|actions| - 1])
  }

  lemma RunSnoc(s: System, actions: seq<Action>, a: Action)
    ensures Run(s, actions + [a]) == Next(Run(s, actions), a)
  {
    assert (actions + [a])[..|actions|] == actions;
  }

  // ---------- the invariant ----------

  /** The providers whose stop signal the feeder has not closed yet. */
  function Unclosed(s: System): set<nat> {
    match s.feeder
    case ClosingProviders(todo) => todo
    case AwaitingProvider(_, todo) => todo
    case Done => {}
    case _ => Ids(s)
  }

  predicate StreamIsDown(f: FeederPc) {
    f.ClosingProviders? || f.AwaitingProvider? || f.Done?
  }

  ghost predicate FeederInv(s: System) {
    && (s.feeder.ClosingStream? || s.feeder.AwaitingStream? || StreamIsDown(s.feeder) ==> s.stop)
    && (s.stop ==> s.feeder != Initializing)
    && (s.stream.stop <==> s.feeder.AwaitingStream? || StreamIsDown(s.feeder))
    && (StreamIsDown(s.feeder) ==> s.stream.voting == Stream.VotingExited && s.stream.updating == Stream.ParamsExited)
    && (s.stream.received != [] ==> s.params == s.stream.received[|s.stream.received| - 1])
    && (s.feeder == Initializing || s.feeder == Aborted <==> s.stream.received == [])
    && (s.stream.voting == Stream.Panicked ==> Stream.ZeroFetched(s.stream.fetched))
  }

  ghost predicate ProviderOk(s: System, i: nat)
    requires i < |s.providers|
  {
    var p := s.providers[i];
    && Source.Inv(p)
    && (p.stop <==> i !in Unclosed(s))
    && (i in Unclosed(s) || s.feeder == AwaitingProvider(i, Unclosed(s)) || p.loop == Source.LoopExited)
  }

  ghost predicate ProvidersInv(s: System) {
    && Unclosed(s) <= Ids(s)
    && (s.feeder.AwaitingProvider? ==> s.feeder.id < |s.providers| && s.feeder.id !in s.feeder.todo)
    && forall i :: 0 <= i < |s.providers| ==> ProviderOk(s, i)
  }

  ghost predicate Inv(s: System) {
    Stream.Inv(s.stream) && FeederInv(s) && ProvidersInv(s)
  }

  lemma StepKeepsStream(s: System, a: Action)
    requires Inv(s) && Enabled(s, a)
    ensures Stream.Inv(Step(s, a).stream)
  {
    match a {
      case TakeParams => Stream.StepKeepsInv(s.stream, Stream.ReceiveParams);
      case TakeVote => Stream.StepKeepsInv(s.stream, Stream.DeliverSignal);
      case CloseStream => Stream.StepKeepsInv(s.stream, Stream.Close);
      case StreamAct(b) => Stream.StepKeepsInv(s.stream, b);
      case _ =>
    }
  }

  /** What the stream's own actions leave alone. */
  lemma StreamActFrame(s: Stream.State, b: Stream.Action)
    requires Stream.Enabled(s, b) && b !in {Stream.Close, Stream.DeliverSignal, Stream.ReceiveParams}
    ensures var t := Stream.Step(s, b);
            && t.stop == s.stop && t.received == s.received
            && (s.voting == Stream.VotingExited ==> t.voting == Stream.VotingExited)
            && (s.updating == Stream.ParamsExited ==> t.updating == Stream.ParamsExited)
  {}

  lemma StepKeepsFeeder(s: System, a: Action)
    requires FeederInv(s) && Stream.ParamsInv(s.stream) && Enabled(s, a)
    ensures FeederInv(Step(s, a))
  {
    if a.StreamAct? {
      StreamActKeepsFeeder(s, a.stream);
    } else if a.TakeParams? || a.TakeVote? || a.CloseStream? {
      HandshakeKeepsFeeder(s, a);
    } else {
      OwnStepKeepsFeeder(s, a);
    }
  }

  lemma OwnStepKeepsFeeder(s: System, a: Action)
    requires FeederInv(s) && Enabled(s, a)
    requires !(a.StreamAct? || a.TakeParams? || a.TakeVote? || a.CloseStream?)
    ensures FeederInv(Step(s, a))
  {
    assert Step(s, a).stream == s.stream && Step(s, a).params == s.params;
  }

  lemma HandshakeKeepsFeeder(s: System, a: Action)
    requires FeederInv(s) && Enabled(s, a) && (a.TakeParams? || a.TakeVote? || a.CloseStream?)
    ensures FeederInv(Step(s, a))
  {
    var t := Step(s, a);
    assert t.stream.updating == s.stream.updating && t.stream.fetched == s.stream.fetched;
  }

  lemma StreamActKeepsFeeder(s: System, b: Stream.Action)
    requires FeederInv(s) && Stream.ParamsInv(s.stream) && Enabled(s, StreamAct(b))
    ensures FeederInv(Step(s, StreamAct(b)))
  {
    StreamActFrame(s.stream, b);
    Stream.StepKeepsZero(s.stream, b);
    var t := Step(s, StreamAct(b));
    assert t == s.(stream := t.stream);
  }

  lemma StepKeepsProviders(s: System, a: Action)
    requires ProvidersInv(s) && Enabled(s, a)
    ensures ProvidersInv(Step(s, a))
  {
    var t := Step(s, a);
    forall i | 0 <= i < |s.providers| ensures ProviderOk(t, i) {
      StepKeepsProvider(s, a, i);
    }
  }

  lemma StepKeepsProvider(s: System, a: Action, i: nat)
    requires ProvidersInv(s) && Enabled(s, a) && i < |s.providers|
    ensures ProviderOk(Step(s, a), i)
  {
    assert ProviderOk(s, i);
    if a.CloseProvider? {
      CloseKeepsProvider(s, a.id, i);
    } else if a.ProviderAct? {
      ActKeepsProvider(s, a.id, a.provider, i);
    } else {
      assert Step(s, a).providers == s.providers;
    }
  }

  lemma CloseKeepsProvider(s: System, id: nat, i: nat)
    requires Enabled(s, CloseProvider(id)) && i < |s.providers| && ProviderOk(s, i)
    ensures ProviderOk(Step(s, CloseProvider(id)), i)
  {
    if id == i {
      Source.StepKeepsInv(s.providers[i], Source.Close);
    }
  }

  lemma ActKeepsProvider(s: System, id: nat, b: Source.Action, i: nat)
    requires Enabled(s, ProviderAct(id, b)) && i < |s.providers| && ProviderOk(s, i)
    ensures ProviderOk(Step(s, ProviderAct(id, b)), i)
  {
    if id == i {
      ProviderActFrame(s.providers[i], b);
    }
  }

  lemma ProviderActFrame(p: Source.Provider, b: Source.Action)
    requires Source.Inv(p) && Source.Enabled(p, b) && b != Source.Close
    ensures var q := Source.Step(p, b);
            && Source.Inv(q) && q.stop == p.stop
            && (p.loop == Source.LoopExited ==> q.loop == Source.LoopExited)
  {
    Source.StepKeepsInv(p, b);
  }

  lemma StepKeepsSystem(s: System, a: Action)
    requires Inv(s) && Enabled(s, a)
    ensures Inv(Step(s, a))
  {
    StepKeepsStream(s, a);
    StepKeepsFeeder(s, a);
    StepKeepsProviders(s, a);
  }

  lemma {:induction false} RunKeepsInv(clocks: seq<Time>, actions: seq<Action>)
    ensures Inv(Run(Initial(clocks), actions))
  {
    if actions == [] {
      forall i | 0 <= i < |clocks| ensures Source.Inv(Source.Initial(clocks[i])) {
        Source.RunKeepsInv(clocks[i], []);
      }
      Stream.RunKeepsInv([]);
    } else {
      var t, a := Run(Initial(clocks), actions[..|actions| - 1]), actions[|actions| - 1];
      RunKeepsInv(clocks, actions[..|actions| - 1]);
      if Enabled(t, a) {
        StepKeepsSystem(t, a);
      }
    }
  }

  // ---------- progress of the shutdown ----------

  function FeederRank(f: FeederPc, n: nat): nat {
    match f
    case Initializing => 2 * n + 5
    case Looping => 2 * n + 5
    case HandlingVote(_) => 2 * n + 6
    case ClosingStream => 2 * n + 4
    case AwaitingStream => 2 * n + 3
    case ClosingProviders(todo) => 2 * |todo| + 1
    case AwaitingProvider(_, todo) => 2 * |todo| + 2
    case Done => 0
    case Aborted => 0
  }

  function StreamRank(s: Stream.State): nat {
    (match s.voting
     case Signaling(_) => 2
     case Listening => 1
     case _ => 0)
    + match s.updating
      case Fetching => 3
      case Sending(_) => 2
      case Ticking => 1
      case ParamsExited => 0
  }

  function ProviderRank(p: Source.Provider): nat {
    (match p.loop
     case Selecting => 3
     case ClosingSource => 2
     case AwaitingSource => 1
     case LoopExited => 0)
    + match p.tick
      case Fetching => 3
      case Sending(_) => 2
      case Waiting => 1
      case TickExited => 0
  }

  function ProvidersRank(ps: seq<Source.Provider>): nat {
    if ps == [] then 0 else ProvidersRank(ps[..|ps| - 1]) + ProviderRank(ps[|ps| - 1])
  }

  /** How many closing steps the shutdown still needs at most. */
  function Distance(s: System): nat {
    FeederRank(s.feeder, |s.providers|) + StreamRank(s.stream) + ProvidersRank(s.providers)
  }

  lemma {:induction false} ProvidersRankUpdate(ps: seq<Source.Provider>, i: nat, p: Source.Provider)
    requires i < |ps|
    ensures ProvidersRank(ps[i := p]) == ProvidersRank(ps) - ProviderRank(ps[i]) + ProviderRank(p)
  {
    var last := |ps| - 1;
    if i < last {
      ProvidersRankUpdate(ps[..last], i, p);
      assert ps[i := p][..last] == ps[..last][i := p];
    } else {
      assert ps[i := p][..last] == ps[..last];
    }
  }

  /** The steps that start new work. All others, except closing f.stop and the feeder's select, finish some. */
  predicate StartsWork(a: Action) {
    match a
    case StreamAct(b) => b.Tick? || b.Message?
    case ProviderAct(_, b) => b.TickFires?
    case InitTimeout => true
    case CloseFeeder => true
    case TakeParams => true
    case TakeVote => true
    case _ => false
  }

  lemma StreamRankStep(s: Stream.State, b: Stream.Action)
    requires Stream.Enabled(s, b)
    ensures StreamRank(Stream.Step(s, b)) <= StreamRank(s) + 2
    ensures !b.Close? && !b.ReceiveParams? && !b.Tick? && !b.Message? ==> StreamRank(Stream.Step(s, b)) < StreamRank(s)
    ensures b == Stream.Close || b == Stream.ReceiveParams ==> StreamRank(Stream.Step(s, b)) == StreamRank(s)
  {}

  lemma ProviderRankStep(p: Source.Provider, b: Source.Action)
    requires Source.Enabled(p, b)
    ensures ProviderRank(Source.Step(p, b)) <= ProviderRank(p) + 2
    ensures b != Source.Close && !b.TickFires? ==> ProviderRank(Source.Step(p, b)) < ProviderRank(p)
    ensures b == Source.Close ==> ProviderRank(Source.Step(p, b)) == ProviderRank(p)
  {}

  lemma FeederRankStep(s: System, a: Action)
    requires Enabled(s, a)
    ensures Step(s, a).feeder == NextPc(s, a) && |Step(s, a).providers| == |s.providers|
    ensures var before, after := FeederRank(s.feeder, |s.providers|), FeederRank(NextPc(s, a), |s.providers|);
            match a
            case StreamAct(_) => after == before
            case ProviderAct(_, _) => after == before
            case TakeVote => after == before + 1
            case _ => if StartsWork(a) then after <= before else after < before
  {
    if a.CloseProvider? {
      assert |s.feeder.todo - {a.id}| == |s.feeder.todo| - 1;
    }
  }

  lemma StreamDistance(s: System, a: Action)
    requires Inv(s) && Enabled(s, a) && (a.TakeParams? || a.TakeVote? || a.CloseStream? || a.StreamAct?)
    ensures StartsWork(a) ==> Distance(Step(s, a)) <= Distance(s) + 2
    ensures !StartsWork(a) ==> Distance(Step(s, a)) < Distance(s)
  {
    var b := match a case TakeParams => Stream.ReceiveParams case TakeVote => Stream.DeliverSignal
                     case CloseStream => Stream.Close case StreamAct(c) => c;
    StreamRankStep(s.stream, b);
    FeederRankStep(s, a);
    assert Step(s, a).stream == Stream.Step(s.stream, b) && Step(s, a).providers == s.providers;
  }

  lemma ProviderDistance(s: System, a: Action)
    requires Inv(s) && Enabled(s, a) && (a.CloseProvider? || a.ProviderAct?)
    ensures StartsWork(a) ==> Distance(Step(s, a)) <= Distance(s) + 2
    ensures !StartsWork(a) ==> Distance(Step(s, a)) < Distance(s)
  {
    var b := if a.CloseProvider? then Source.Close else a.provider;
    var q := Source.Step(s.providers[a.id], b);
    ProviderRankStep(s.providers[a.id], b);
    ProvidersRankUpdate(s.providers, a.id, q);
    FeederRankStep(s, a);
    assert Step(s, a).stream == s.stream && Step(s, a).providers == s.providers[a.id := q];
  }

  /** Every step either starts work, and then adds at most two to the distance, or brings the end nearer. */
  lemma StepDistance(s: System, a: Action)
    requires Inv(s) && Enabled(s, a)
    ensures StartsWork(a) ==> Distance(Step(s, a)) <= Distance(s) + 2
    ensures !StartsWork(a) ==> Distance(Step(s, a)) < Distance(s)
  {
    if a.TakeParams? || a.TakeVote? || a.CloseStream? || a.StreamAct? {
      StreamDistance(s, a);
    } else if a.CloseProvider? || a.ProviderAct? {
      ProviderDistance(s, a);
    } else {
      FeederRankStep(s, a);
      assert Step(s, a).stream == s.stream && Step(s, a).providers == s.providers;
    }
  }

  // ---------- the theorems ----------

  ghost predicate Reachable(s: System) {
    exists clocks, actions :: s == Run(Initial(clocks), actions)
  }

  lemma ReachableInv(s: System)
    requires Reachable(s)
    ensures Inv(s)
  {
    var clocks, actions :| s == Run(Initial(clocks), actions);
    RunKeepsInv(clocks, actions);
  }

  function StreamExit(s: Stream.State): Stream.Action {
    match s.voting
    case Listening => Stream.VotingStops
    case Signaling(_) => Stream.DropSignal
    case _ =>
      match s.updating
      case Fetching => Stream.FetchFails
      case Sending(_) => Stream.DropParams
      case _ => Stream.ParamsStop
  }

  function ProviderExit(p: Source.Provider): Source.Action {
    match p.loop
    case Selecting => Source.LoopStops
    case ClosingSource => Source.SignalSource
    case _ =>
      match p.tick
      case Fetching => Source.FetchFails
      case Sending(_) => Source.DropUpdate
      case Waiting => Source.TickStops
      case TickExited => Source.SourceDone
  }

  /** A stopped stream that has not come down can always move towards it. */
  lemma StreamExitEnabled(s: Stream.State)
    requires s.stop && s.voting != Stream.Panicked
    requires !(s.voting == Stream.VotingExited && s.updating == Stream.ParamsExited)
    ensures var b := StreamExit(s);
            Stream.Enabled(s, b) && !StartsWork(StreamAct(b))
            && b !in {Stream.Close, Stream.DeliverSignal, Stream.ReceiveParams}
  {}

  /** So can a stopped provider, even while its source is blocked in a send. */
  lemma ProviderExitEnabled(p: Source.Provider, id: nat)
    requires Source.ControlInv(p) && p.stop && p.loop != Source.LoopExited
    ensures var b := ProviderExit(p);
            Source.Enabled(p, b) && !StartsWork(ProviderAct(id, b)) && b != Source.Close
  {}

  /** The shutdown never deadlocks: in every reachable state after f.stop is closed, whatever the other goroutines are
      blocked on, a step that brings the end nearer is enabled until f.done is closed. */
  lemma ShutdownProgresses(s: System) returns (a: Action)
    requires Inv(s) && s.stop && s.feeder != Done && !Crashed(s)
    ensures Enabled(s, a) && !StartsWork(a) && Distance(Step(s, a)) < Distance(s)
  {
    match s.feeder {
      case Looping => a := FeederStops;
      case HandlingVote(_) => a := FinishVote;
      case ClosingStream => a := CloseStream;
      case AwaitingStream =>
        if s.stream.voting == Stream.VotingExited && s.stream.updating == Stream.ParamsExited {
          a := StreamClosed;
        } else {
          StreamExitEnabled(s.stream);
          a := StreamAct(StreamExit(s.stream));
        }
      case ClosingProviders(todo) =>
        if todo == {} {
          a := Finish;
        } else {
          var id := Member(todo);
          assert ProviderOk(s, id);
          a := CloseProvider(id);
        }
      case AwaitingProvider(id, todo) =>
        assert ProviderOk(s, id);
        if s.providers[id].loop == Source.LoopExited {
          a := ProviderClosed;
        } else {
          ProviderExitEnabled(s.providers[id], id);
          a := ProviderAct(id, ProviderExit(s.providers[id]));
        }
    }
    StepDistance(s, a);
  }

  lemma Member(todo: set<nat>) returns (id: nat)
    requires todo != {}
    ensures id in todo
  {
    assert (forall i: nat :: i !in todo) ==> todo == {};
    id :| id in todo;
  }

  /** When f.done is closed, both stream loops, every provider loop and every tick source have exited. */
  lemma DoneMeansAllExited(s: System)
    requires Reachable(s) && s.feeder == Done
    ensures s.stream.voting == Stream.VotingExited && s.stream.updating == Stream.ParamsExited
    ensures forall i :: 0 <= i < |s.providers| ==>
              s.providers[i].loop == Source.LoopExited && s.providers[i].tick == Source.TickExited
  {
    ReachableInv(s);
    forall i | 0 <= i < |s.providers|
      ensures s.providers[i].loop == Source.LoopExited && s.providers[i].tick == Source.TickExited
    {
      assert ProviderOk(s, i);
    }
  }

  /** The number of steps taken, counting those that start work and those that do not. */
  ghost function Taken(s: System, actions: seq<Action>, starts: bool): nat {
    if actions == [] then 0
    else
      var init, a := actions[..|actions| - 1], actions[|actions| - 1];
      Taken(s, init, starts) + if Enabled(Run(s, init), a) && StartsWork(a) == starts then 1 else 0
  }

  lemma {:induction false} RunFromInv(s: System, actions: seq<Action>)
    requires Inv(s)
    ensures Inv(Run(s, actions))
  {
    if actions == [] {
    } else {
      var init, a := actions[..|actions| - 1], actions[|actions| - 1];
      RunFromInv(s, init);
      if Enabled(Run(s, init), a) {
        StepKeepsSystem(Run(s, init), a);
      }
    }
  }

  lemma {:induction false} BudgetFromInv(s: System, actions: seq<Action>)
    requires Inv(s)
    ensures Taken(s, actions, false) + Distance(Run(s, actions)) <= Distance(s) + 2 * Taken(s, actions, true)
  {
    if actions == [] {
    } else {
      var init, a := actions[..|actions| - 1], actions[|actions| - 1];
      BudgetFromInv(s, init);
      RunFromInv(s, init);
      if Enabled(Run(s, init), a) {
        StepDistance(Run(s, init), a);
      }
    }
  }

  /** From every reachable state on, a run spends its closing steps from a budget that only new work can raise, by two
      a piece. */
  lemma ShutdownBudget(s: System, actions: seq<Action>)
    requires Reachable(s)
    ensures Taken(s, actions, false) + Distance(Run(s, actions)) <= Distance(s) + 2 * Taken(s, actions, true)
  {
    ReachableInv(s);
    BudgetFromInv(s, actions);
  }

  /** The only place to rest after f.stop: when nothing but new work could be started, f.done is closed. */
  lemma RestingPlace(s: System)
    requires Inv(s) && s.stop && !Crashed(s)
    requires forall a :: Enabled(s, a) ==> StartsWork(a)
    ensures s.feeder == Done
  {
    if s.feeder != Done {
      var a := ShutdownProgresses(s);
    }
  }

  lemma StepKeepsStop(s: System, a: Action)
    requires Inv(s) && Enabled(s, a) && s.stop && !StartsWork(a)
    ensures Step(s, a).stop && !Crashed(Step(s, a)) && Inv(Step(s, a))
    ensures Step(s, a).feeder.HandlingVote? ==> s.feeder.HandlingVote?
  {
    StepKeepsSystem(s, a);
    ClosingStepIsSafe(s, a);
  }

  lemma ClosingStepIsSafe(s: System, a: Action)
    requires Enabled(s, a) && s.stop && !StartsWork(a)
    ensures Step(s, a).stop && !Crashed(Step(s, a))
    ensures Step(s, a).feeder.HandlingVote? ==> s.feeder.HandlingVote?
  {
    var t := Step(s, a);
    if a.StreamAct? {
      assert t.stream == Stream.Step(s.stream, a.stream) && !a.stream.Message?;
    }
  }

  /** A run that takes one step and then the given ones. */
  lemma {:induction false} RunCons(s: System, a: Action, actions: seq<Action>)
    requires Enabled(s, a)
    ensures Run(s, [a] + actions) == Run(Step(s, a), actions)
  {
    var all := [a] + actions;
    if actions == [] {
      assert all[..|all| - 1] == [];
    } else {
      RunCons(s, a, actions[..|actions| - 1]);
      assert all[..|all| - 1] == [a] + actions[..|actions| - 1];
      assert all[|all| - 1] == actions[|actions| - 1];
    }
  }

  lemma ClosingStep(s: System) returns (a: Action)
    requires Inv(s) && s.stop && s.feeder != Done && !Crashed(s)
    ensures Enabled(s, a) && !StartsWork(a)
    ensures var t := Step(s, a);
            && Inv(t) && t.stop && !Crashed(t) && Distance(t) < Distance(s)
            && (!s.feeder.HandlingVote? ==> !t.feeder.HandlingVote? && a != FinishVote)
  {
    a := ShutdownProgresses(s);
    StepKeepsStop(s, a);
  }

  lemma {:induction false} CompletesFromInv(s: System) returns (actions: seq<Action>)
    requires Inv(s) && s.stop && !Crashed(s)
    ensures |actions| <= Distance(s) && (forall i :: 0 <= i < |actions| ==> !StartsWork(actions[i]))
    ensures Run(s, actions).feeder == Done
    ensures !s.feeder.HandlingVote? ==> FinishVote !in actions
    decreases Distance(s)
  {
    if s.feeder == Done {
      actions := [];
    } else {
      var a := ClosingStep(s);
      var rest := CompletesFromInv(Step(s, a));
      RunCons(s, a, rest);
      actions := [a] + rest;
    }
  }

  /** From every reachable state after f.stop the shutdown completes within Distance steps if nobody starts new work. */
  lemma ShutdownCompletes(s: System) returns (actions: seq<Action>)
    requires Reachable(s) && s.stop && !Crashed(s)
    ensures |actions| <= Distance(s) && (forall i :: 0 <= i < |actions| ==> !StartsWork(actions[i]))
    ensures Run(s, actions).feeder == Done
  {
    ReachableInv(s);
    actions := CompletesFromInv(s);
  }

  /** The process crashes only by the init timeout or after it fetched a vote period of zero. */
  lemma CrashNeedsZeroPeriod(s: System)
    requires Reachable(s) && Crashed(s)
    ensures s.feeder == Aborted || Stream.ZeroFetched(s.stream.fetched)
  {
    ReachableInv(s);
  }

  /** In the running system the feeder uses the latest parameters it received; it is at most two changes behind those
      fetched, and uses exactly the current ones when nothing is in flight. */
  lemma FeederParamsCurrent(s: System)
    requires Reachable(s) && !s.stream.stop && s.stream.received != []
    ensures s.params == s.stream.received[|s.stream.received| - 1]
    ensures |Stream.Changes(s.stream.fetched)| <= |s.stream.received| + 2
    ensures Stream.InFlight(s.stream) == [] ==> s.stream.current == Some(s.params)
  {
    ReachableInv(s);
    ParamsCurrent(s);
  }

  lemma ParamsCurrent(s: System)
    requires FeederInv(s) && Stream.ParamsInv(s.stream) && !s.stream.stop && s.stream.received != []
    ensures s.params == s.stream.received[|s.stream.received| - 1]
    ensures |Stream.Changes(s.stream.fetched)| <= |s.stream.received| + 2
    ensures Stream.InFlight(s.stream) == [] ==> s.stream.current == Some(s.params)
  {
    Stream.AtMostTwoBehind(s.stream);
  }

  // ---------- the components within the whole ----------

  /** What an action is to the stream. */
  function AsStream(a: Action): seq<Stream.Action> {
    match a
    case TakeParams => [Stream.ReceiveParams]
    case TakeVote => [Stream.DeliverSignal]
    case CloseStream => [Stream.Close]
    case StreamAct(b) => [b]
    case _ => []
  }

  /** What an action is to provider id. */
  function AsProvider(a: Action, id: nat): seq<Source.Action> {
    match a
    case CloseProvider(i) => if i == id then [Source.Close] else []
    case ProviderAct(i, b) => if i == id then [b] else []
    case _ => []
  }

  ghost function StreamActs(s: System, actions: seq<Action>): seq<Stream.Action> {
    if actions == [] then []
    else
      var init, a := actions[..|actions| - 1], actions[|actions| - 1];
      StreamActs(s, init) + if Enabled(Run(s, init), a) then AsStream(a) else []
  }

  ghost function ProviderActs(s: System, actions: seq<Action>, id: nat): seq<Source.Action> {
    if actions == [] then []
    else
      var init, a := actions[..|actions| - 1], actions[|actions| - 1];
      ProviderActs(s, init, id) + if Enabled(Run(s, init), a) then AsProvider(a, id) else []
  }

  /** Within every run of the process the stream makes one of its own runs, to which all of its results apply. */
  lemma {:induction false} StreamRuns(clocks: seq<Time>, actions: seq<Action>)
    ensures Run(Initial(clocks), actions).stream == Stream.Run(StreamActs(Initial(clocks), actions))
  {
    if actions == [] {
    } else {
      var init, a := actions[..|actions| - 1], actions[|actions| - 1];
      StreamRuns(clocks, init);
      var s, acts := Run(Initial(clocks), init), StreamActs(Initial(clocks), init);
      if Enabled(s, a) {
        StreamStep(s, a, acts);
      } else {
        assert acts + [] == acts;
      }
    }
  }

  lemma StreamStep(s: System, a: Action, acts: seq<Stream.Action>)
    requires Enabled(s, a) && s.stream == Stream.Run(acts)
    ensures Step(s, a).stream == Stream.Run(acts + AsStream(a))
  {
    if AsStream(a) == [] {
      assert acts + [] == acts;
    } else {
      Stream.RunSnoc(acts, AsStream(a)[0]);
      assert AsStream(a) == [AsStream(a)[0]];
    }
  }

  /** So does every provider. */
  lemma {:induction false} ProviderRuns(clocks: seq<Time>, actions: seq<Action>, id: nat)
    requires id < |clocks|
    ensures var s := Run(Initial(clocks), actions);
            && |s.providers| == |clocks|
            && s.providers[id] == Source.Run(Source.Initial(clocks[id]), ProviderActs(Initial(clocks), actions, id))
  {
    if actions == [] {
    } else {
      var init, a := actions[..|actions| - 1], actions[|actions| - 1];
      ProviderRuns(clocks, init, id);
      var s, acts := Run(Initial(clocks), init), ProviderActs(Initial(clocks), init, id);
      if Enabled(s, a) {
        ProviderStep(s, a, id, Source.Initial(clocks[id]), acts);
      } else {
        assert acts + [] == acts;
      }
    }
  }

  lemma ProviderStep(s: System, a: Action, id: nat, p: Source.Provider, acts: seq<Source.Action>)
    requires Enabled(s, a) && id < |s.providers| && s.providers[id] == Source.Run(p, acts)
    ensures |Step(s, a).providers| == |s.providers|
    ensures Step(s, a).providers[id] == Source.Run(p, acts + AsProvider(a, id))
  {
    if AsProvider(a, id) == [] {
      assert acts + [] == acts;
    } else {
      Source.RunSnoc(p, acts, AsProvider(a, id)[0]);
      assert AsProvider(a, id) == [AsProvider(a, id)[0]];
    }
  }
}
