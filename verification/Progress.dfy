/** What the running process can always still do: put fetched prices into the caches, bring fetched parameters into
    force, and vote on the voting periods that are signalled. */
module Progress {
  import opened Types
  import Poster = PricePoster
  import opened Feeder
  import opened WholeRun
  import F = FeederSystem
  import Stream = EventStream
  import Source = PriceSource
  import PosterRuns

  // ---------- runs ----------

  lemma RunSnoc(w: World, actions: seq<Action>, a: Action, u: Setup)
    requires Valid(u)
    ensures Run(w, actions + [a], u) == Next(Run(w, actions, u), a, u)
  {
    assert (actions + [a])[..|actions|] == actions;
  }

  lemma SameLast<T>(first: seq<T>, second: seq<T>)
    requires second != []
    ensures var all := first + second;
            all != [] && all[|all| - 1] == second[|second| - 1] && all[..|all| - 1] == first + second[..|second| - 1]
  {}

  lemma {:induction false} RunConcat(w: World, first: seq<Action>, second: seq<Action>, u: Setup)
    requires Valid(u)
    ensures Run(w, first + second, u) == Run(Run(w, first, u), second, u)
    decreases |second|
  {
    if second == [] {
      assert first + second == first;
    } else {
      RunConcat(w, first, second[..|second| - 1], u);
      SameLast(first, second);
    }
  }

  lemma RunOne(w: World, a: Action, u: Setup)
    requires Valid(u) && Enabled(w, a, u)
    ensures Run(w, [a], u) == Step(w, a, u)
  {
    assert [a][..0] == [];
    assert Run(w, [a][..0], u) == w;
  }

  lemma {:induction false} RunKeeps(w: World, actions: seq<Action>, start: Poster.System, u: Setup)
    requires Valid(u) && Inv(w, start, u)
    ensures Inv(Run(w, actions, u), start, u)
  {
    if actions == [] {
    } else {
      var init, a := actions[..|actions| - 1], actions[|actions| - 1];
      RunKeeps(w, init, start, u);
      if Enabled(Run(w, init, u), a, u) {
        StepKeepsInv(Run(w, init, u), a, start, u);
      }
    }
  }

  // ---------- the handler ----------

  /** Every provider as it is now, asked at the given time. */
  ghost function AskedNow(ps: seq<Source.Provider>, u: Setup, now: Time): map<int, Asked>
    requires |ps| <= |u.mappings| == |u.names|
  {
    map id: int | 0 <= id < |ps| :: Asked(ps[id], u.mappings[id], u.names[id], now)
  }

  /** The clock is not behind the providers. */
  ghost predicate ClockAt(ps: seq<Source.Provider>, now: Time) {
    forall i :: 0 <= i < |ps| ==> ps[i].clock <= now
  }

  ghost predicate CanHandle(w: World, u: Setup, now: Time) {
    && Valid(u) && |w.system.providers| == |u.names| && ClockAt(w.system.providers, now)
    && F.Enabled(w.system, F.FinishVote) && |w.quotes| <= |w.system.params.pairs|
    && forall id :: id in w.asked ==> 0 <= id < |u.names|
  }

  /** What has been asked, completed by the providers as they are now. */
  ghost function Completed(asked: map<int, Asked>, ps: seq<Source.Provider>, u: Setup, now: Time): map<int, Asked>
    requires |ps| <= |u.mappings| == |u.names|
  {
    map id: int | 0 <= id < |ps| :: if id in asked then asked[id] else Asked(ps[id], u.mappings[id], u.names[id], now)
  }

  lemma {:induction false} AskAll(w: World, u: Setup, now: Time, k: nat) returns (actions: seq<Action>)
    requires CanHandle(w, u, now) && |w.quotes| < |w.system.params.pairs|
    requires k <= |u.names| && forall id: int :: 0 <= id < k ==> id in w.asked
    ensures Run(w, actions, u) == w.(asked := Completed(w.asked, w.system.providers, u, now))
    decreases |u.names| - k
  {
    var ps := w.system.providers;
    if k == |u.names| {
      actions := [];
      assert w.asked == Completed(w.asked, ps, u, now);
    } else if k in w.asked {
      actions := AskAll(w, u, now, k + 1);
    } else {
      var v := Step(w, Ask(k, now), u);
      RunOne(w, Ask(k, now), u);
      var rest := AskAll(v, u, now, k + 1);
      assert Completed(v.asked, ps, u, now) == Completed(w.asked, ps, u, now);
      RunConcat(w, [Ask(k, now)], rest, u);
      actions := [Ask(k, now)] + rest;
    }
  }

  lemma AskPair(w: World, u: Setup, now: Time) returns (actions: seq<Action>)
    requires CanHandle(w, u, now) && |w.quotes| < |w.system.params.pairs|
    ensures Run(w, actions, u)
         == w.(quotes := w.quotes + [Completed(w.asked, w.system.providers, u, now)], asked := map[])
  {
    var asks := AskAll(w, u, now, 0);
    var v := Run(w, asks, u);
    RunSnoc(w, asks, NextPair, u);
    actions := asks + [NextPair];
  }

  /** The quotes of a period whose handler goes on without interruption. */
  ghost function FinishedQuotes(w: World, u: Setup, now: Time): seq<map<int, Asked>>
    requires CanHandle(w, u, now)
  {
    var ps, open := w.system.providers, |w.system.params.pairs| - |w.quotes|;
    w.quotes + seq(open, i requires 0 <= i < open => if i == 0 then Completed(w.asked, ps, u, now) else AskedNow(ps, u, now))
  }

  lemma {:induction false} AskPairs(w: World, u: Setup, now: Time) returns (actions: seq<Action>)
    requires CanHandle(w, u, now)
    ensures var v := Run(w, actions, u);
            v == w.(quotes := FinishedQuotes(w, u, now), asked := v.asked)
    decreases |w.system.params.pairs| - |w.quotes|
  {
    if |w.quotes| == |w.system.params.pairs| {
      actions := [];
      assert w.quotes == FinishedQuotes(w, u, now);
    } else {
      var first := AskPair(w, u, now);
      var v := Run(w, first, u);
      var rest := AskPairs(v, u, now);
      RunConcat(w, first, rest, u);
      FinishedStep(w, v, u, now);
      actions := first + rest;
    }
  }

  lemma FinishedStep(w: World, v: World, u: Setup, now: Time)
    requires CanHandle(w, u, now) && |w.quotes| < |w.system.params.pairs|
    requires v == w.(quotes := w.quotes + [Completed(w.asked, w.system.providers, u, now)], asked := map[])
    ensures FinishedQuotes(v, u, now) == FinishedQuotes(w, u, now)
  {
    assert Completed(map[], w.system.providers, u, now) == AskedNow(w.system.providers, u, now);
  }

  /** The end of the voting period in w with these quotes: one more round, and one more call of the client. */
  ghost predicate Served(w: World, v: World, quotes: seq<map<int, Asked>>, height: nat, call: Poster.Event, u: Setup)
    requires Valid(u) && call.Call?
  {
    var params := w.system.params;
    && |quotes| == |params.pairs|
    && call.vote == VoteOf(params.pairs, quotes, u.format)
    && v.rounds == w.rounds + [Round(height, |w.system.stream.received|, params, quotes, call.salt, call.vote)]
    && v.events == w.events + [call] && v.poster == Poster.Apply(w.poster, call, u.validator)
    && v.quotes == [] && v.asked == map[]
    && v.system.feeder == F.Looping && v.system.providers == w.system.providers
    && v.system.params == params && v.system.stop == w.system.stop
  }

  /** A voting period that is being handled can be finished, whatever has been asked so far. */
  lemma HandlerFinishes(w: World, u: Setup, now: Time, salt: string, reply: Poster.Reply, outcome: Poster.Outcome)
    returns (actions: seq<Action>, call: Poster.Event)
    requires CanHandle(w, u, now)
    ensures call.Call? && call.salt == salt && call.reply == reply && call.outcome == outcome
    ensures var v := Run(w, actions, u);
            && Served(w, v, FinishedQuotes(w, u, now), w.system.feeder.height, call, u)
            && v.system.stream == w.system.stream
  {
    var asks := AskPairs(w, u, now);
    var v := Run(w, asks, u);
    call := Poster.Call(salt, VoteOf(w.system.params.pairs, v.quotes, u.format), reply, outcome);
    RunSnoc(w, asks, Send(salt, reply, outcome), u);
    actions := asks + [Send(salt, reply, outcome)];
  }

  /** Quotes for every pair, all taken from the providers as they are. */
  ghost function QuotesNow(s: F.System, u: Setup, now: Time): seq<map<int, Asked>>
    requires |s.providers| <= |u.mappings| == |u.names|
  {
    seq(|s.params.pairs|, i requires 0 <= i < |s.params.pairs| => AskedNow(s.providers, u, now))
  }

  /** A signal that the stream is blocked on is handled by a looping feeder: whatever the outcome of the broadcast, one
      round for its height is added, with the parameters in force and the providers as they are. */
  lemma SignalHandled(w: World, start: Poster.System, u: Setup, now: Time, salt: string, reply: Poster.Reply, outcome: Poster.Outcome)
    returns (actions: seq<Action>, call: Poster.Event)
    requires Valid(u) && Inv(w, start, u) && w.system.feeder == F.Looping && !F.Crashed(w.system)
    requires w.system.stream.voting.Signaling? && ClockAt(w.system.providers, now)
    ensures call.Call? && call.salt == salt && call.reply == reply && call.outcome == outcome
    ensures var h, v := w.system.stream.voting.height, Run(w, actions, u);
            && Served(w, v, QuotesNow(w.system, u, now), h, call, u)
            && v.system.stream == w.system.stream.(voting := Stream.Listening, delivered := w.system.stream.delivered + [h])
            && w.system.params == w.system.stream.received[|w.system.stream.received| - 1]
  {
    var take := ProcessAct(F.TakeVote);
    VoteTaken(w.system);
    SignalTaken(w, start, u, now);
    var rest: seq<Action>;
    rest, call := HandlerFinishes(Run(w, [take], u), u, now, salt, reply, outcome);
    RunConcat(w, [take], rest, u);
    actions := [take] + rest;
  }

  lemma VoteTaken(s: F.System)
    requires F.FeederInv(s) && s.feeder == F.Looping && !F.Crashed(s) && s.stream.voting.Signaling?
    ensures F.Enabled(s, F.TakeVote)
    ensures var h, t := s.stream.voting.height, F.Step(s, F.TakeVote);
            && t == s.(feeder := F.HandlingVote(h), stream := t.stream)
            && t.stream == s.stream.(voting := Stream.Listening, delivered := s.stream.delivered + [h])
            && !F.Crashed(t)
    ensures s.stream.received != [] && s.params == s.stream.received[|s.stream.received| - 1]
  {}

  lemma HandlerStarts(w: World, u: Setup, now: Time)
    requires Valid(u) && |w.system.providers| == |u.names| && ClockAt(w.system.providers, now)
    requires !F.Crashed(w.system) && w.system.feeder.HandlingVote? && w.quotes == [] && w.asked == map[]
    ensures CanHandle(w, u, now) && FinishedQuotes(w, u, now) == QuotesNow(w.system, u, now)
  {
    assert Completed(map[], w.system.providers, u, now) == AskedNow(w.system.providers, u, now);
  }

  lemma SignalTaken(w: World, start: Poster.System, u: Setup, now: Time)
    requires Valid(u) && Inv(w, start, u) && w.system.feeder == F.Looping && !F.Crashed(w.system)
    requires w.system.stream.voting.Signaling? && ClockAt(w.system.providers, now)
    ensures var t := Run(w, [ProcessAct(F.TakeVote)], u);
            && t == w.(system := F.Step(w.system, F.TakeVote))
            && CanHandle(t, u, now) && FinishedQuotes(t, u, now) == QuotesNow(w.system, u, now)
  {
    VoteTaken(w.system);
    RunOne(w, ProcessAct(F.TakeVote), u);
    HandlerStarts(w.(system := F.Step(w.system, F.TakeVote)), u, now);
  }

  // ---------- the other goroutines ----------

  function Lifted(actions: seq<F.Action>): seq<Action> {
    seq(|actions|, i requires 0 <= i < |actions| => ProcessAct(actions[i]))
  }

  lemma {:induction false} LiftedRun(w: World, actions: seq<F.Action>, u: Setup)
    requires Valid(u) && F.FinishVote !in actions
    ensures Run(w, Lifted(actions), u) == w.(system := F.Run(w.system, actions))
  {
    if actions == [] {
    } else {
      var init, a := actions[..|actions| - 1], actions[|actions| - 1];
      LiftedRun(w, init, u);
      assert Lifted(actions) == Lifted(init) + [ProcessAct(a)];
      RunSnoc(w, Lifted(init), ProcessAct(a), u);
    }
  }

  lemma {:induction false} SystemConcat(s: F.System, first: seq<F.Action>, second: seq<F.Action>)
    ensures F.Run(s, first + second) == F.Run(F.Run(s, first), second)
    decreases |second|
  {
    if second == [] {
      assert first + second == first;
    } else {
      SystemConcat(s, first, second[..|second| - 1]);
      SameLast(first, second);
    }
  }

  lemma SystemOne(s: F.System, a: F.Action)
    requires F.Enabled(s, a)
    ensures F.Run(s, [a]) == F.Step(s, a)
  {
    assert [a][..0] == [];
    assert F.Run(s, [a][..0]) == s;
  }

  function ProviderActs(id: nat, actions: seq<Source.Action>): seq<F.Action> {
    seq(|actions|, i requires 0 <= i < |actions| => F.ProviderAct(id, actions[i]))
  }

  lemma {:induction false} ProviderRun(s: F.System, id: nat, actions: seq<Source.Action>)
    requires id < |s.providers| && !F.Crashed(s) && Source.Close !in actions
    ensures F.Run(s, ProviderActs(id, actions)) == s.(providers := s.providers[id := Source.Run(s.providers[id], actions)])
  {
    if actions == [] {
    } else {
      var init, a := actions[..|actions| - 1], actions[|actions| - 1];
      ProviderRun(s, id, init);
      assert ProviderActs(id, actions) == ProviderActs(id, init) + [F.ProviderAct(id, a)];
      F.RunSnoc(s, ProviderActs(id, init), F.ProviderAct(id, a));
    }
  }

  /** Any batch that the source of a selecting provider may fetch can reach its cache, while all else stands still. */
  lemma PricesArrive(s: F.System, id: nat, batch: Source.Batch, now: Time) returns (actions: seq<F.Action>)
    requires F.Inv(s) && !F.Crashed(s) && id < |s.providers| && s.providers[id].loop == Source.Selecting
    requires Source.Stamped(batch, s.providers[id].clock, now)
    ensures F.FinishVote !in actions
    ensures var p, t := s.providers[id], F.Run(s, actions);
            && |t.providers| == |s.providers| && t == s.(providers := s.providers[id := t.providers[id]])
            && t.providers[id].received != [] && t.providers[id].received[|t.providers[id].received| - 1] == batch
            && forall symbol :: symbol in batch
                 ==> symbol in t.providers[id].lastPrices && t.providers[id].lastPrices[symbol] == batch[symbol]
  {
    assert F.ProviderOk(s, id);
    var acts := Source.BatchArrives(s.providers[id], batch, now);
    ProviderRun(s, id, acts);
    actions := ProviderActs(id, acts);
  }

  // ---------- parameters ----------

  /** Running, and ready to receive. */
  ghost predicate Receptive(s: F.System) {
    && !F.Crashed(s) && !s.stream.stop && (s.feeder == F.Initializing || s.feeder == F.Looping)
    && s.stream.updating != Stream.ParamsExited
  }

  /** Between s and t only parameters have moved. */
  ghost predicate OnlyParams(s: F.System, t: F.System) {
    && t == s.(feeder := t.feeder, params := t.params, stream := t.stream)
    && t.stream == s.stream.(updating := t.stream.updating, current := t.stream.current, buffer := t.stream.buffer,
                             fetched := t.stream.fetched, received := t.stream.received)
  }

  /** The buffered parameters can be taken. */
  lemma BufferEmpties(s: F.System) returns (actions: seq<F.Action>)
    requires Receptive(s) && |s.stream.buffer| <= 1
    ensures F.FinishVote !in actions
    ensures var t := F.Run(s, actions);
            && Receptive(t) && OnlyParams(s, t)
            && t.stream == s.stream.(buffer := [], received := t.stream.received)
            && (s.stream.buffer != [] ==> t.feeder == F.Looping && t.params == s.stream.buffer[0])
  {
    if s.stream.buffer == [] {
      actions := [];
    } else {
      actions := [F.TakeParams];
      SystemOne(s, F.TakeParams);
    }
  }

  /** A blocked send of parameters can be completed. */
  lemma SendCompletes(s: F.System) returns (actions: seq<F.Action>)
    requires Receptive(s) && s.stream.buffer == [] && s.stream.updating.Sending?
    ensures F.FinishVote !in actions
    ensures var t := F.Run(s, actions);
            && Receptive(t) && OnlyParams(s, t) && t.feeder == F.Looping && t.params == s.stream.updating.params
            && t.stream == s.stream.(updating := Stream.Ticking, received := t.stream.received)
  {
    var send := F.StreamAct(Stream.SendParams);
    SystemOne(s, send);
    F.RunSnoc(s, [send], F.TakeParams);
    actions := [send] + [F.TakeParams];
  }

  /** The parameters loop can get back to ticking with nothing in flight. */
  lemma ParamsDrain(s: F.System) returns (actions: seq<F.Action>)
    requires Receptive(s) && |s.stream.buffer| <= 1
    ensures F.FinishVote !in actions
    ensures var t := F.Run(s, actions);
            && Receptive(t) && OnlyParams(s, t) && t.stream.updating == Stream.Ticking && t.stream.buffer == []
  {
    var first := BufferEmpties(s);
    var t := F.Run(s, first);
    var rest: seq<F.Action> := [];
    if t.stream.updating.Sending? {
      rest := SendCompletes(t);
    } else if t.stream.updating == Stream.Fetching {
      rest := [F.StreamAct(Stream.FetchFails)];
      SystemOne(t, F.StreamAct(Stream.FetchFails));
    }
    SystemConcat(s, first, rest);
    actions := first + rest;
  }

  /** A fetch returns the given parameters. */
  lemma FetchArrives(s: F.System, p: Params) returns (actions: seq<F.Action>)
    requires Receptive(s) && s.stream.updating == Stream.Ticking
    ensures F.FinishVote !in actions
    ensures var t := F.Run(s, actions);
            && Receptive(t) && OnlyParams(s, t) && t.feeder == s.feeder && t.params == s.params
            && t.stream == s.stream.(current := Some(p), fetched := s.stream.fetched + [p],
                                     updating := if s.stream.current == Some(p) then Stream.Ticking else Stream.Sending(p))
  {
    var tick, fetch := F.StreamAct(Stream.Tick), F.StreamAct(Stream.FetchReturns(p));
    SystemOne(s, tick);
    F.RunSnoc(s, [tick], fetch);
    actions := [tick] + [fetch];
  }

  lemma CurrentInForce(s: F.System)
    requires F.Inv(s) && Receptive(s) && s.stream.current.Some? && Stream.InFlight(s.stream) == []
    ensures s.feeder == F.Looping && s.params == s.stream.current.value
  {
    Stream.ChangesEndsLike(s.stream.fetched);
    assert s.stream.received + [] == s.stream.received;
    F.ParamsCurrent(s);
  }

  /** Any parameters that the chain may answer with can come into force, at the start and at any later time. */
  lemma ParamsArrive(s: F.System, p: Params) returns (actions: seq<F.Action>)
    requires F.Inv(s) && Receptive(s)
    ensures F.FinishVote !in actions
    ensures var t := F.Run(s, actions);
            && Receptive(t) && OnlyParams(s, t)
            && t.feeder == F.Looping && t.params == p && t.stream.current == Some(p)
  {
    var drain := ParamsDrain(s);
    var d := F.Run(s, drain);
    var fetch := FetchArrives(d, p);
    var t := F.Run(d, fetch);
    SystemConcat(s, drain, fetch);
    var rest: seq<F.Action> := [];
    if t.stream.updating.Sending? {
      rest := SendCompletes(t);
    } else {
      F.RunFromInv(s, drain + fetch);
      CurrentInForce(t);
    }
    SystemConcat(s, drain + fetch, rest);
    actions := drain + fetch + rest;
  }

  // ---------- the next voting period ----------

  /** A listening stream signals a block after which a voting period starts. */
  lemma BlockSignals(w: World, u: Setup, height: nat)
    requires Valid(u) && !F.Crashed(w.system) && w.system.stream.voting == Stream.Listening
    requires Stream.Due(Stream.Block(Some(height), w.system.stream.current))
    ensures var message := ProcessAct(F.StreamAct(Stream.Message(Some(height))));
            var v := Run(w, [message], u);
            && v == w.(system := w.system.(stream := v.system.stream))
            && v.system.stream == w.system.stream.(blocks := v.system.stream.blocks,
                 voting := Stream.Signaling((height + 1) % 0x1_0000_0000_0000_0000))
  {
    Stream.MessageHandled(w.system.stream, Some(height));
    RunOne(w, ProcessAct(F.StreamAct(Stream.Message(Some(height)))), u);
  }

  /** The signal that the stream is blocked on, if any, can be handled. */
  lemma SignalCleared(w: World, start: Poster.System, u: Setup, now: Time) returns (actions: seq<Action>)
    requires Valid(u) && Inv(w, start, u) && Receptive(w.system) && w.system.feeder == F.Looping
    requires ClockAt(w.system.providers, now)
    ensures var v := Run(w, actions, u);
            && Inv(v, start, u) && Receptive(v.system) && v.system.feeder == F.Looping
            && v.system.stream.voting == Stream.Listening && v.system.stream.current == w.system.stream.current
            && v.system.params == w.system.params && v.system.providers == w.system.providers && w.rounds <= v.rounds
  {
    if w.system.stream.voting.Signaling? {
      var call: Poster.Event;
      actions, call := SignalHandled(w, start, u, now, "", Poster.Failed, Poster.Outcome(false, false));
    } else {
      actions := [];
    }
    RunKeeps(w, actions, start, u);
  }

  /** A due block can be served at once by a looping feeder. */
  lemma BlockServed(w: World, start: Poster.System, u: Setup, height: nat, now: Time, salt: string, reply: Poster.Reply,
                    outcome: Poster.Outcome)
    returns (actions: seq<Action>, call: Poster.Event)
    requires Valid(u) && Inv(w, start, u) && !F.Crashed(w.system) && w.system.feeder == F.Looping
    requires w.system.stream.voting == Stream.Listening && ClockAt(w.system.providers, now)
    requires Stream.Due(Stream.Block(Some(height), w.system.stream.current))
    ensures call.Call? && call.salt == salt && call.reply == reply && call.outcome == outcome
    ensures Served(w, Run(w, actions, u), QuotesNow(w.system, u, now), (height + 1) % 0x1_0000_0000_0000_0000, call, u)
  {
    var message := ProcessAct(F.StreamAct(Stream.Message(Some(height))));
    BlockSignals(w, u, height);
    RunKeeps(w, [message], start, u);
    var rest: seq<Action>;
    rest, call := SignalHandled(Run(w, [message], u), start, u, now, salt, reply, outcome);
    RunConcat(w, [message], rest, u);
    actions := [message] + rest;
  }

  /** From every reachable state of a process that is neither stopped nor crashed nor in the middle of a period: whatever
      parameters the chain answers with next, and whatever block then starts a voting period under them, a run goes on
      to vote on that period, with these parameters and with the providers as they are. */
  lemma EveryPeriodIsServed(w: World, start: Poster.System, u: Setup, p: Params, height: nat, now: Time, salt: string,
                            reply: Poster.Reply, outcome: Poster.Outcome)
    returns (actions: seq<Action>, before: World, call: Poster.Event)
    requires Valid(u) && Inv(w, start, u) && Receptive(w.system) && ClockAt(w.system.providers, now)
    requires Stream.Due(Stream.Block(Some(height), Some(p)))
    ensures call.Call? && call.salt == salt && call.reply == reply && call.outcome == outcome
    ensures w.rounds <= before.rounds && before.system.params == p && before.system.providers == w.system.providers
    ensures Served(before, Run(w, actions, u), QuotesNow(before.system, u, now), (height + 1) % 0x1_0000_0000_0000_0000,
                   call, u)
  {
    var arrive := ParamsArrive(w.system, p);
    LiftedRun(w, arrive, u);
    RunKeeps(w, Lifted(arrive), start, u);
    var v := Run(w, Lifted(arrive), u);
    var clear := SignalCleared(v, start, u, now);
    RunConcat(w, Lifted(arrive), clear, u);
    before := Run(v, clear, u);
    var serve: seq<Action>;
    serve, call := BlockServed(before, start, u, height, now, salt, reply, outcome);
    RunConcat(w, Lifted(arrive) + clear, serve, u);
    actions := Lifted(arrive) + clear + serve;
  }

  /** From w to v two rounds were added, and the vote of the first was the last to be accepted on chain. */
  ghost predicate TwoRounds(w: World, v: World, h: nat, k: nat, salt: string, vote: Poster.Vote) {
    var n, accepted := |w.rounds|, v.poster.chain.accepted;
    && |v.rounds| == n + 2 && w.rounds <= v.rounds
    && v.rounds[n].height == h && v.rounds[n].salt == salt && v.rounds[n].vote == vote && v.rounds[n + 1].height == k
    && |accepted| > |w.poster.chain.accepted|
    && accepted[|accepted| - 1] == Poster.AcceptedVote(|w.poster.chain.prevotes|, salt, vote)
  }

  /** A blocked signal and the next due block, both served with fault-free calls, reveal the first vote on chain. */
  lemma TwoPeriodsReveal(w: World, start: Poster.System, earlier: seq<Poster.Event>, u: Setup, height: nat, now: Time,
                         first: string, second: string)
    returns (actions: seq<Action>, vote: Poster.Vote)
    requires Valid(u) && Inv(w, start, u) && PosterRuns.Start(start, earlier, u.validator)
    requires w.system.feeder == F.Looping && !F.Crashed(w.system) && w.system.stream.voting.Signaling?
    requires Stream.Due(Stream.Block(Some(height), w.system.stream.current)) && ClockAt(w.system.providers, now)
    ensures vote == VoteOf(w.system.params.pairs, QuotesNow(w.system, u, now), u.format)
    ensures TwoRounds(w, Run(w, actions, u), w.system.stream.voting.height, (height + 1) % 0x1_0000_0000_0000_0000,
                      first, vote)
  {
    var one, c := SignalHandled(w, start, u, now, first, Poster.Honest, Poster.Outcome(true, true));
    var v := Run(w, one, u);
    RunKeeps(w, one, start, u);
    var two, d := BlockServed(v, start, u, height, now, second, Poster.Honest, Poster.Outcome(true, true));
    RunConcat(w, one, two, u);
    actions, vote := one + two, c.vote;
    RemembersOwn(w, start, earlier, u);
    TwoServed(w, v, Run(v, two, u), QuotesNow(w.system, u, now), QuotesNow(v.system, u, now),
              w.system.stream.voting.height, (height + 1) % 0x1_0000_0000_0000_0000, c, d, u);
  }

  lemma TwoServed(w: World, m: World, v: World, some: seq<map<int, Asked>>, more: seq<map<int, Asked>>, h: nat, k: nat,
                  c: Poster.Event, d: Poster.Event, u: Setup)
    requires Valid(u) && PosterRuns.FaultFree(c) && PosterRuns.FaultFree(d)
    requires PosterRuns.RemembersOwn(w.poster, u.validator)
    requires Served(w, m, some, h, c, u) && Served(m, v, more, k, d, u)
    ensures TwoRounds(w, v, h, k, c.salt, c.vote)
  {
    FirstRevealed(w.poster, c, d, u.validator);
  }

  lemma RemembersOwn(w: World, start: Poster.System, earlier: seq<Poster.Event>, u: Setup)
    requires Valid(u) && Inv(w, start, u) && PosterRuns.Start(start, earlier, u.validator)
    ensures PosterRuns.RemembersOwn(w.poster, u.validator)
  {
    PosterRuns.RunKeepsInv(start, earlier, w.events, u.validator);
  }

  lemma FirstRevealed(s: Poster.System, c: Poster.Event, d: Poster.Event, validator: string)
    requires PosterRuns.FaultFree(c) && PosterRuns.FaultFree(d) && PosterRuns.RemembersOwn(s, validator)
    ensures var t := Poster.Apply(Poster.Apply(s, c, validator), d, validator);
            && |t.chain.accepted| > |s.chain.accepted|
            && t.chain.accepted[|t.chain.accepted| - 1] == Poster.AcceptedVote(|s.chain.prevotes|, c.salt, c.vote)
  {
    PosterRuns.FaultFreeCall(s, c, validator);
    PosterRuns.SelfHealing(s, c, d, validator);
  }

  // ---------- the end ----------

  lemma InvCanHandle(w: World, start: Poster.System, u: Setup, now: Time)
    requires Valid(u) && Inv(w, start, u) && !F.Crashed(w.system) && w.system.feeder.HandlingVote?
    requires ClockAt(w.system.providers, now)
    ensures CanHandle(w, u, now)
  {
    forall id | id in w.asked ensures 0 <= id < |u.names| {
      assert Snapshot(w.system.providers, u, id, w.asked[id]);
    }
  }

  /** Whatever the process is doing when f.stop is closed, it can finish, also in the middle of a voting period. */
  lemma StoppedFinishes(w: World, start: Poster.System, u: Setup, now: Time) returns (actions: seq<Action>)
    requires Valid(u) && Inv(w, start, u) && w.system.stop && !F.Crashed(w.system) && ClockAt(w.system.providers, now)
    ensures Run(w, actions, u).system.feeder == F.Done
  {
    var first: seq<Action> := [];
    if w.system.feeder.HandlingVote? {
      InvCanHandle(w, start, u, now);
      var call: Poster.Event;
      first, call := HandlerFinishes(w, u, now, "", Poster.Failed, Poster.Outcome(false, false));
    }
    RunKeeps(w, first, start, u);
    var v := Run(w, first, u);
    var closing := F.CompletesFromInv(v.system);
    LiftedRun(v, closing, u);
    RunConcat(w, first, Lifted(closing), u);
    actions := first + Lifted(closing);
  }
}
