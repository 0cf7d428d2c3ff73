/** The process together with what it votes: the goroutines of FeederSystem, the voting handler that asks the running
    providers pair by pair, the client, the network and the chain. */
module WholeRun {
  import opened Types
  import opened Decimal
  import opened PricePoster
  import opened Aggregate
  import opened Feeder
  import FeederSystem
  import Stream = EventStream
  import Source = PriceSource
  import PosterRuns

  /** What is fixed when the process starts: the providers' configurations, the printer and the validator. */
  datatype Setup = Setup(
    mappings: seq<map<Pair, Symbol>>,
    names: seq<string>,
    format: real -> Numeral,
    validator: string)

  /** A finished voting period: its signal, the parameters in force and how many the feeder had received by then, the
      providers as they were when they were asked for each pair, and what was handed to the client. */
  datatype Round = Round(
    height: nat,
    version: nat,
    params: Params,
    quotes: seq<map<int, Asked>>,
    salt: string,
    vote: Vote)

  datatype World = World(
    system: FeederSystem.System,
    quotes: seq<map<int, Asked>>,       // the pairs the handler is done with
    asked: map<int, Asked>,             // the providers it has asked for the next pair
    rounds: seq<Round>,
    poster: PricePoster.System,
    events: seq<Event>)

  datatype Action =
    | ProcessAct(a: FeederSystem.Action)
    | Ask(id: nat, now: Time)
    | NextPair
    | Send(salt: string, reply: Reply, outcome: Outcome)
    | NetworkAct(e: Event)

  ghost predicate AllAsked(asked: map<int, Asked>, n: nat) {
    forall id: int :: id in asked <==> 0 <= id < n
  }

  /** What the aggregate provider answers for a pair, with invalid prices zeroed. */
  ghost function Quote(asked: map<int, Asked>, pair: Pair): Price {
    Gathered(AggregatePrice(SomeVisit(asked.Keys), AnswersOf(asked, pair), pair))
  }

  ghost function VoteOf(pairs: seq<Pair>, quotes: seq<map<int, Asked>>, format: real -> Numeral): Vote
    requires IsFormatter(format) && |quotes| == |pairs|
  {
    Tuples(seq(|pairs|, i requires 0 <= i < |pairs| => Quote(quotes[i], pairs[i])), format)
  }

  /** The running providers look like the objects of the feeder. */
  ghost predicate SameCaches(a: AggregatePriceProvider, readings: map<int, Time>, asked: map<int, Asked>)
    requires a.providers.Keys <= readings.Keys
    reads a.providers.Values
  {
    && asked.Keys == a.providers.Keys
    && forall id :: id in asked ==>
         && asked[id].mapping == a.providers[id].pairToSymbolMapping && asked[id].sourceName == a.providers[id].sourceName
         && asked[id].provider.lastPrices == a.providers[id].lastPrices && asked[id].now == readings[id]
  }

  lemma QuoteIsPrice(a: AggregatePriceProvider, readings: map<int, Time>, asked: map<int, Asked>, pair: Pair)
    requires a.providers.Keys <= readings.Keys && SameCaches(a, readings, asked)
    ensures Quote(asked, pair) == Gathered(a.PriceNow(pair, readings))
  {
    forall id | id in asked ensures AnswersOf(asked, pair)[id] == a.Answers(pair, readings)[id] {
      assert a.Answers(pair, readings)[id] == a.providers[id].Answer(pair, readings[id]);
    }
    assert AnswersOf(asked, pair) == a.Answers(pair, readings);
  }

  lemma VoteOfQuotes(pairs: seq<Pair>, quotes: seq<map<int, Asked>>, prices: seq<Price>, format: real -> Numeral)
    requires IsFormatter(format) && |quotes| == |pairs| == |prices|
    requires forall i :: 0 <= i < |pairs| ==> Quote(quotes[i], pairs[i]) == prices[i]
    ensures VoteOf(pairs, quotes, format) == Tuples(prices, format)
  {
    assert seq(|pairs|, i requires 0 <= i < |pairs| => Quote(quotes[i], pairs[i])) == prices;
  }

  /** The vote of the handler is the one that the feeder's code commits to for the same caches and readings. */
  lemma VoteOfFeeder(f: Feeder, readings: seq<map<int, Time>>, quotes: seq<map<int, Asked>>, format: real -> Numeral)
    requires f.CanRead(readings) && IsFormatter(format) && |quotes| == |f.params.pairs|
    requires forall i :: 0 <= i < |quotes| ==> SameCaches(f.priceProvider, readings[i], quotes[i])
    ensures VoteOf(f.params.pairs, quotes, format) == Tuples(f.Prices(readings), format)
  {
    var pairs, prices := f.params.pairs, f.Prices(readings);
    forall i | 0 <= i < |quotes| ensures Quote(quotes[i], pairs[i]) == prices[i] {
      QuoteIsPrice(f.priceProvider, readings[i], quotes[i], pairs[i]);
    }
    VoteOfQuotes(pairs, quotes, prices, format);
  }

  ghost predicate Valid(u: Setup) {
    IsFormatter(u.format) && |u.mappings| == |u.names|
  }

  ghost predicate Enabled(w: World, a: Action, u: Setup) {
    match a
    case ProcessAct(b) => b != FeederSystem.FinishVote && FeederSystem.Enabled(w.system, b)
    case Ask(id, now) =>
      && FeederSystem.Enabled(w.system, FeederSystem.FinishVote) && |w.quotes| < |w.system.params.pairs|
      && id < |w.system.providers| && id < |u.mappings| && id < |u.names| && id !in w.asked
      && w.system.providers[id].clock <= now
    case NextPair =>
      && FeederSystem.Enabled(w.system, FeederSystem.FinishVote) && |w.quotes| < |w.system.params.pairs|
      && AllAsked(w.asked, |w.system.providers|)
    case Send(_, _, _) =>
      FeederSystem.Enabled(w.system, FeederSystem.FinishVote) && |w.quotes| == |w.system.params.pairs|
    case NetworkAct(e) => !e.Call?
  }

  ghost function Step(w: World, a: Action, u: Setup): World
    requires Valid(u) && Enabled(w, a, u)
  {
    match a
    case ProcessAct(b) => w.(system := FeederSystem.Step(w.system, b))
    case Ask(id, now) =>
      w.(asked := w.asked[id as int := Asked(w.system.providers[id], u.mappings[id], u.names[id], now)])
    case NextPair => w.(quotes := w.quotes + [w.asked], asked := map[])
    case Send(salt, reply, outcome) =>
      var params := w.system.params;
      var vote := VoteOf(params.pairs, w.quotes, u.format);
      var e := Call(salt, vote, reply, outcome);
      World(
        FeederSystem.Step(w.system, FeederSystem.FinishVote), [], map[],
        w.rounds + [Round(w.system.feeder.height, |w.system.stream.received|, params, w.quotes, salt, vote)],
        Apply(w.poster, e, u.validator), w.events + [e])
    case NetworkAct(e) => w.(poster := Apply(w.poster, e, u.validator), events := w.events + [e])
  }

  /** The process starts in front of any chain and network. */
  ghost function Initial(clocks: seq<Time>, poster: PricePoster.System): World {
    World(FeederSystem.Initial(clocks), [], map[], [], poster, [])
  }

  /** An action that is not enabled changes nothing. */
  ghost function Next(w: World, a: Action, u: Setup): World
    requires Valid(u)
  {
    if Enabled(w, a, u) then Step(w, a, u) else w
  }

  ghost function Run(w: World, actions: seq<Action>, u: Setup): World
    requires Valid(u)
  {
    if actions == [] then w else Next(Run(w, actions[..|actions| - 1], u), actions[|actions| - 1], u)
  }

  // ---------- the invariant ----------

  /** The provider as it was asked is a state that the running provider went through, and the clock was not behind its. */
  ghost predicate Snapshot(ps: seq<Source.Provider>, u: Setup, id: int, a: Asked) {
    && 0 <= id < |ps| && id < |u.mappings| && id < |u.names|
    && a.mapping == u.mappings[id] && a.sourceName == u.names[id]
    && Source.Inv(a.provider) && a.provider.received <= ps[id].received && a.provider.clock <= a.now
  }

  ghost predicate Snapshots(ps: seq<Source.Provider>, u: Setup, asked: map<int, Asked>) {
    forall id :: id in asked ==> Snapshot(ps, u, id, asked[id])
  }

  ghost predicate QuotesOk(ps: seq<Source.Provider>, u: Setup, quotes: seq<map<int, Asked>>) {
    forall i :: 0 <= i < |quotes| ==> AllAsked(quotes[i], |ps|) && Snapshots(ps, u, quotes[i])
  }

  ghost predicate RoundOk(s: FeederSystem.System, u: Setup, r: Round)
    requires Valid(u)
  {
    && 1 <= r.version <= |s.stream.received| && r.params == s.stream.received[r.version - 1]
    && |r.quotes| == |r.params.pairs| && QuotesOk(s.providers, u, r.quotes)
    && r.vote == VoteOf(r.params.pairs, r.quotes, u.format)
  }

  function Heights(rounds: seq<Round>): seq<nat> {
    seq(|rounds|, k requires 0 <= k < |rounds| => rounds[k].height)
  }

  function InHand(f: FeederSystem.FeederPc): seq<nat> {
    if f.HandlingVote? then [f.height] else []
  }

  ghost predicate HandlerInv(w: World, u: Setup) {
    && (!w.system.feeder.HandlingVote? ==> w.quotes == [] && w.asked == map[])
    && (w.system.feeder.HandlingVote? ==> |w.quotes| <= |w.system.params.pairs|)
    && QuotesOk(w.system.providers, u, w.quotes) && Snapshots(w.system.providers, u, w.asked)
  }

  ghost predicate HeightsInv(w: World) {
    Heights(w.rounds) + InHand(w.system.feeder) == w.system.stream.delivered
  }

  ghost predicate RoundsInv(w: World, u: Setup)
    requires Valid(u)
  {
    forall k :: 0 <= k < |w.rounds| ==> RoundOk(w.system, u, w.rounds[k])
  }

  /** What the client was called with, call by call. */
  function CallContents(events: seq<Event>): seq<(string, Vote)> {
    if events == [] then []
    else
      var init, e := events[..|events| - 1], events[|events| - 1];
      CallContents(init) + if e.Call? then [(e.salt, e.vote)] else []
  }

  function RoundContents(rounds: seq<Round>): seq<(string, Vote)> {
    seq(|rounds|, k requires 0 <= k < |rounds| => (rounds[k].salt, rounds[k].vote))
  }

  ghost predicate PosterInv(w: World, start: PricePoster.System, u: Setup) {
    && w.poster == PricePoster.Run(start, w.events, u.validator)
    && CallContents(w.events) == RoundContents(w.rounds)
  }

  ghost predicate Inv(w: World, start: PricePoster.System, u: Setup)
    requires Valid(u)
  {
    && FeederSystem.Inv(w.system) && |w.system.providers| == |u.names|
    && HandlerInv(w, u) && HeightsInv(w) && RoundsInv(w, u) && PosterInv(w, start, u)
  }

  // ---------- the process goes on ----------

  /** The providers' histories only grow. */
  ghost predicate Grown(ps: seq<Source.Provider>, qs: seq<Source.Provider>) {
    |ps| == |qs| && forall i :: 0 <= i < |ps| ==> ps[i].received <= qs[i].received
  }

  lemma StepGrows(s: FeederSystem.System, a: FeederSystem.Action)
    requires FeederSystem.Enabled(s, a)
    ensures Grown(s.providers, FeederSystem.Step(s, a).providers)
  {
    if a.CloseProvider? {
      ProviderGrows(s.providers[a.id], Source.Close);
    } else if a.ProviderAct? {
      ProviderGrows(s.providers[a.id], a.provider);
    }
  }

  lemma ProviderGrows(p: Source.Provider, b: Source.Action)
    requires Source.Enabled(p, b)
    ensures p.received <= Source.Step(p, b).received
  {}

  lemma SnapshotsGrow(ps: seq<Source.Provider>, qs: seq<Source.Provider>, u: Setup, asked: map<int, Asked>)
    requires Grown(ps, qs) && Snapshots(ps, u, asked)
    ensures Snapshots(qs, u, asked)
  {
    forall id | id in asked ensures Snapshot(qs, u, id, asked[id]) {
      assert Snapshot(ps, u, id, asked[id]);
      assert ps[id].received <= qs[id].received;
    }
  }

  lemma QuotesGrow(ps: seq<Source.Provider>, qs: seq<Source.Provider>, u: Setup, quotes: seq<map<int, Asked>>)
    requires Grown(ps, qs) && QuotesOk(ps, u, quotes)
    ensures QuotesOk(qs, u, quotes)
  {
    forall i | 0 <= i < |quotes| ensures Snapshots(qs, u, quotes[i]) {
      SnapshotsGrow(ps, qs, u, quotes[i]);
    }
  }

  lemma RoundsGrow(s: FeederSystem.System, t: FeederSystem.System, u: Setup, rounds: seq<Round>)
    requires Valid(u) && Grown(s.providers, t.providers) && s.stream.received <= t.stream.received
    requires forall k :: 0 <= k < |rounds| ==> RoundOk(s, u, rounds[k])
    ensures forall k :: 0 <= k < |rounds| ==> RoundOk(t, u, rounds[k])
  {
    forall k | 0 <= k < |rounds| ensures RoundOk(t, u, rounds[k]) {
      assert RoundOk(s, u, rounds[k]);
      QuotesGrow(s.providers, t.providers, u, rounds[k].quotes);
    }
  }

  /** What a step of the process, other than the end of a voting period, does to signals and parameters. */
  lemma ProcessFrame(s: FeederSystem.System, a: FeederSystem.Action)
    requires FeederSystem.Enabled(s, a) && a != FeederSystem.FinishVote
    ensures var t := FeederSystem.Step(s, a);
            && s.stream.received <= t.stream.received
            && (t.feeder.HandlingVote? ==> s.feeder == t.feeder || a.TakeVote?)
            && (s.feeder.HandlingVote? ==> s.feeder == t.feeder && s.params == t.params)
            && t.stream.delivered == s.stream.delivered + if a.TakeVote? then InHand(t.feeder) else []
  {
    if a.StreamAct? {
      StreamFrame(s.stream, a.stream);
    }
  }

  lemma StreamFrame(s: Stream.State, b: Stream.Action)
    requires Stream.Enabled(s, b) && b !in {Stream.Close, Stream.DeliverSignal, Stream.ReceiveParams}
    ensures Stream.Step(s, b).received == s.received && Stream.Step(s, b).delivered == s.delivered
  {}

  lemma ProcessKeepsHandler(w: World, b: FeederSystem.Action, u: Setup)
    requires Valid(u) && HandlerInv(w, u) && HeightsInv(w) && Enabled(w, ProcessAct(b), u)
    ensures HandlerInv(Step(w, ProcessAct(b), u), u) && HeightsInv(Step(w, ProcessAct(b), u))
  {
    var t := FeederSystem.Step(w.system, b);
    StepGrows(w.system, b);
    ProcessFrame(w.system, b);
    SnapshotsGrow(w.system.providers, t.providers, u, w.asked);
    QuotesGrow(w.system.providers, t.providers, u, w.quotes);
  }

  lemma ProcessKeepsRounds(w: World, b: FeederSystem.Action, u: Setup)
    requires Valid(u) && RoundsInv(w, u) && Enabled(w, ProcessAct(b), u)
    ensures RoundsInv(Step(w, ProcessAct(b), u), u)
  {
    StepGrows(w.system, b);
    ProcessFrame(w.system, b);
    RoundsGrow(w.system, FeederSystem.Step(w.system, b), u, w.rounds);
  }

  lemma ProcessKeepsInv(w: World, b: FeederSystem.Action, start: PricePoster.System, u: Setup)
    requires Valid(u) && Inv(w, start, u) && Enabled(w, ProcessAct(b), u)
    ensures Inv(Step(w, ProcessAct(b), u), start, u)
  {
    FeederSystem.StepKeepsSystem(w.system, b);
    StepGrows(w.system, b);
    ProcessKeepsHandler(w, b, u);
    ProcessKeepsRounds(w, b, u);
  }

  // ---------- the voting period ----------

  /** Steps of the handler only concern the handler. */
  lemma HandlerFrame(w: World, v: World, start: PricePoster.System, u: Setup)
    requires Valid(u) && Inv(w, start, u) && HandlerInv(v, u) && v == w.(quotes := v.quotes, asked := v.asked)
    ensures Inv(v, start, u)
  {}

  lemma AskKeepsHandler(w: World, id: nat, now: Time, u: Setup)
    requires Valid(u) && HandlerInv(w, u) && Enabled(w, Ask(id, now), u) && Source.Inv(w.system.providers[id])
    ensures HandlerInv(Step(w, Ask(id, now), u), u)
  {}

  lemma NextPairKeepsHandler(w: World, u: Setup)
    requires Valid(u) && HandlerInv(w, u) && Enabled(w, NextPair, u)
    ensures HandlerInv(Step(w, NextPair, u), u)
  {
    assert QuotesOk(w.system.providers, u, w.quotes + [w.asked]);
  }

  lemma HandlerKeepsInv(w: World, a: Action, start: PricePoster.System, u: Setup)
    requires Valid(u) && Inv(w, start, u) && Enabled(w, a, u) && (a.Ask? || a.NextPair?)
    ensures Inv(Step(w, a, u), start, u)
  {
    if a.Ask? {
      assert FeederSystem.ProviderOk(w.system, a.id);
      AskKeepsHandler(w, a.id, a.now, u);
    } else {
      NextPairKeepsHandler(w, u);
    }
    HandlerFrame(w, Step(w, a, u), start, u);
  }

  lemma EventsSnoc(start: PricePoster.System, events: seq<Event>, e: Event, validator: string)
    ensures PricePoster.Run(start, events + [e], validator) == Apply(PricePoster.Run(start, events, validator), e, validator)
    ensures CallContents(events + [e]) == CallContents(events) + if e.Call? then [(e.salt, e.vote)] else []
  {
    assert (events + [e])[..|events|] == events;
  }

  lemma RoundsSnoc(rounds: seq<Round>, r: Round)
    ensures Heights(rounds + [r]) == Heights(rounds) + [r.height]
    ensures RoundContents(rounds + [r]) == RoundContents(rounds) + [(r.salt, r.vote)]
  {}

  lemma SendKeepsHeights(w: World, a: Action, u: Setup)
    requires Valid(u) && HeightsInv(w) && a.Send? && Enabled(w, a, u)
    ensures HeightsInv(Step(w, a, u)) && HandlerInv(Step(w, a, u), u)
  {
    var v := Step(w, a, u);
    RoundsSnoc(w.rounds, v.rounds[|w.rounds|]);
    assert v.system.feeder == FeederSystem.Looping && v.system.stream == w.system.stream;
  }

  lemma NewRound(w: World, u: Setup, salt: string)
    requires Valid(u) && FeederSystem.FeederInv(w.system) && HandlerInv(w, u)
    requires w.system.feeder.HandlingVote? && |w.quotes| == |w.system.params.pairs|
    ensures RoundOk(w.system, u, Round(w.system.feeder.height, |w.system.stream.received|, w.system.params, w.quotes, salt,
                                       VoteOf(w.system.params.pairs, w.quotes, u.format)))
  {}

  lemma SendKeepsRounds(w: World, a: Action, u: Setup)
    requires Valid(u) && FeederSystem.FeederInv(w.system) && HandlerInv(w, u) && RoundsInv(w, u)
    requires a.Send? && Enabled(w, a, u)
    ensures RoundsInv(Step(w, a, u), u)
  {
    var v := Step(w, a, u);
    NewRound(w, u, a.salt);
    RoundsGrow(w.system, v.system, u, v.rounds);
  }

  lemma CallRecorded(start: PricePoster.System, events: seq<Event>, rounds: seq<Round>, e: Event, r: Round, validator: string)
    requires e.Call? && e.salt == r.salt && e.vote == r.vote && CallContents(events) == RoundContents(rounds)
    ensures PricePoster.Run(start, events + [e], validator) == Apply(PricePoster.Run(start, events, validator), e, validator)
    ensures CallContents(events + [e]) == RoundContents(rounds + [r])
  {
    EventsSnoc(start, events, e, validator);
    RoundsSnoc(rounds, r);
  }

  lemma SendKeepsPoster(w: World, a: Action, start: PricePoster.System, u: Setup)
    requires Valid(u) && PosterInv(w, start, u) && a.Send? && Enabled(w, a, u)
    ensures PosterInv(Step(w, a, u), start, u)
  {
    var params := w.system.params;
    var vote := VoteOf(params.pairs, w.quotes, u.format);
    var r := Round(w.system.feeder.height, |w.system.stream.received|, params, w.quotes, a.salt, vote);
    CallRecorded(start, w.events, w.rounds, Call(a.salt, vote, a.reply, a.outcome), r, u.validator);
  }

  lemma SendKeepsInv(w: World, a: Action, start: PricePoster.System, u: Setup)
    requires Valid(u) && Inv(w, start, u) && a.Send? && Enabled(w, a, u)
    ensures Inv(Step(w, a, u), start, u)
  {
    FeederSystem.StepKeepsSystem(w.system, FeederSystem.FinishVote);
    SendKeepsHeights(w, a, u);
    SendKeepsRounds(w, a, u);
    SendKeepsPoster(w, a, start, u);
    assert Step(w, a, u).system == FeederSystem.Step(w.system, FeederSystem.FinishVote);
  }

  lemma StepKeepsInv(w: World, a: Action, start: PricePoster.System, u: Setup)
    requires Valid(u) && Inv(w, start, u) && Enabled(w, a, u)
    ensures Inv(Step(w, a, u), start, u)
  {
    match a {
      case ProcessAct(b) => ProcessKeepsInv(w, b, start, u);
      case Ask(_, _) => HandlerKeepsInv(w, a, start, u);
      case NextPair => HandlerKeepsInv(w, a, start, u);
      case Send(_, _, _) => SendKeepsInv(w, a, start, u);
      case NetworkAct(e) => EventsSnoc(start, w.events, e, u.validator);
    }
  }

  lemma {:induction false} RunKeepsInv(clocks: seq<Time>, start: PricePoster.System, actions: seq<Action>, u: Setup)
    requires Valid(u) && |clocks| == |u.names|
    ensures Inv(Run(Initial(clocks, start), actions, u), start, u)
  {
    if actions == [] {
      FeederSystem.RunKeepsInv(clocks, []);
    } else {
      var w, a := Run(Initial(clocks, start), actions[..|actions| - 1], u), actions[|actions| - 1];
      RunKeepsInv(clocks, start, actions[..|actions| - 1], u);
      if Enabled(w, a, u) {
        StepKeepsInv(w, a, start, u);
      }
    }
  }

  // ---------- the theorem ----------

  /** If some provider had freshly received a price when it was asked, the posted rate is that of the consolidated
      value of all such prices: a price between two of them, equal to any value that more than half of them have, and
      not beyond any bound that at most a quarter of them exceed. Else the rate is zero. */
  ghost predicate RateFromFresh(asked: map<int, Asked>, pair: Pair, rate: int, format: real -> Numeral)
    requires IsFormatter(format)
  {
    var entries := FreshEntries(asked, pair);
    if entries == map[] then rate == 0
    else exists price ::
      && rate == Rate(price, format)
      && ConsolidatesEntries(price, entries)
      && BetweenEntries(price, entries)
      && ToleratesStray(price, entries)
  }

  /** The vote of a round: its period was signalled, its parameters were in force, and every rate is backed by the
      providers of this run. */
  ghost predicate Backed(w: World, u: Setup, k: nat)
    requires Valid(u) && k < |w.rounds|
  {
    var r, stream := w.rounds[k], w.system.stream;
    && k < |stream.delivered| && r.height == stream.delivered[k]
    && 1 <= r.version <= |stream.received| && r.params == stream.received[r.version - 1]
    && |r.vote| == |r.params.pairs| == |r.quotes| && QuotesOk(w.system.providers, u, r.quotes)
    && forall i :: 0 <= i < |r.vote| ==>
         && r.vote[i].pair == r.params.pairs[i]
         && RateFromFresh(r.quotes[i], r.params.pairs[i], r.vote[i].exchangeRate, u.format)
  }

  lemma QuoteBacked(ps: seq<Source.Provider>, asked: map<int, Asked>, pair: Pair, u: Setup)
    requires Valid(u) && Snapshots(ps, u, asked)
    ensures Quote(asked, pair).pair == pair
    ensures RateFromFresh(asked, pair, Rate(Quote(asked, pair).price, u.format), u.format)
  {
    forall id | id in asked ensures Source.Inv(asked[id].provider) {
      assert Snapshot(ps, u, id, asked[id]);
    }
    AggregateOfFreshPrices(asked, SomeVisit(asked.Keys), pair);
    var answer := AggregatePrice(SomeVisit(asked.Keys), AnswersOf(asked, pair), pair);
    RateOfAnswer(answer, u.format);
  }

  lemma RoundBacked(w: World, start: PricePoster.System, u: Setup, k: nat)
    requires Valid(u) && Inv(w, start, u) && k < |w.rounds|
    ensures Backed(w, u, k)
  {
    var r := w.rounds[k];
    assert RoundOk(w.system, u, r);
    assert Heights(w.rounds)[k] == w.system.stream.delivered[k];
    forall i | 0 <= i < |r.vote|
      ensures r.vote[i].pair == r.params.pairs[i]
      ensures RateFromFresh(r.quotes[i], r.params.pairs[i], r.vote[i].exchangeRate, u.format)
    {
      QuoteBacked(w.system.providers, r.quotes[i], r.params.pairs[i], u);
    }
  }

  /** The content of an accepted vote is that of a backed round. */
  ghost predicate BackedVote(w: World, u: Setup, salt: string, vote: Vote)
    requires Valid(u)
  {
    exists k :: 0 <= k < |w.rounds| && w.rounds[k].salt == salt && w.rounds[k].vote == vote && Backed(w, u, k)
  }

  lemma {:induction false} CallInContents(events: seq<Event>, j: nat)
    requires j < |events| && events[j].Call?
    ensures (events[j].salt, events[j].vote) in CallContents(events)
  {
    if j < |events| - 1 {
      CallInContents(events[..|events| - 1], j);
    }
  }

  lemma CommittedBacked(w: World, start: PricePoster.System, u: Setup, salt: string, vote: Vote)
    requires Valid(u) && Inv(w, start, u) && PosterRuns.Committed(w.events, salt, vote)
    ensures BackedVote(w, u, salt, vote)
  {
    var j :| 0 <= j < |w.events| && w.events[j].Call? && w.events[j].salt == salt && w.events[j].vote == vote;
    CallInContents(w.events, j);
    var k :| 0 <= k < |w.rounds| && RoundContents(w.rounds)[k] == (salt, vote);
    RoundBacked(w, start, u, k);
  }

  lemma CommittedWhen(earlier: seq<Event>, events: seq<Event>, salt: string, vote: Vote)
    requires PosterRuns.Committed(earlier + events, salt, vote)
    ensures PosterRuns.Committed(earlier, salt, vote) || PosterRuns.Committed(events, salt, vote)
  {
    var all := earlier + events;
    var j :| 0 <= j < |all| && all[j].Call? && all[j].salt == salt && all[j].vote == vote;
    if j < |earlier| {
      assert earlier[j] == all[j];
    } else {
      assert events[j - |earlier|] == all[j];
    }
  }

  lemma AcceptedBacked(w: World, start: PricePoster.System, earlier: seq<Event>, u: Setup, v: AcceptedVote)
    requires Valid(u) && Inv(w, start, u) && PosterRuns.Start(start, earlier, u.validator)
    requires v in w.poster.chain.accepted
    ensures PosterRuns.Committed(earlier, v.salt, v.vote) || BackedVote(w, u, v.salt, v.vote)
  {
    PosterRuns.AcceptedCommitted(start, earlier, w.events, u.validator, v);
    CommittedWhen(earlier, w.events, v.salt, v.vote);
    if PosterRuns.Committed(w.events, v.salt, v.vote) {
      CommittedBacked(w, start, u, v.salt, v.vote);
    }
  }

  /** Over every run of the whole: an accepted vote is a leftover of an earlier life or the vote of a finished voting
      period of this one, which was signalled by the stream, used the parameters in force, names their pairs in order,
      and posts for each pair the rate of the consolidated value of the prices that providers of this run had received
      less than 15 seconds before they were asked, or zero if none of them had. */
  lemma AcceptedVotesAreBacked(clocks: seq<Time>, start: PricePoster.System, earlier: seq<Event>, actions: seq<Action>,
                               u: Setup)
    requires Valid(u) && |clocks| == |u.names| && PosterRuns.Start(start, earlier, u.validator)
    ensures var w := Run(Initial(clocks, start), actions, u);
            forall v :: v in w.poster.chain.accepted
              ==> PosterRuns.Committed(earlier, v.salt, v.vote) || BackedVote(w, u, v.salt, v.vote)
  {
    var w := Run(Initial(clocks, start), actions, u);
    RunKeepsInv(clocks, start, actions, u);
    forall v | v in w.poster.chain.accepted
      ensures PosterRuns.Committed(earlier, v.salt, v.vote) || BackedVote(w, u, v.salt, v.vote)
    {
      AcceptedBacked(w, start, earlier, u, v);
    }
  }

  // ---------- the components within the whole ----------

  function AsProcess(a: Action): seq<FeederSystem.Action> {
    match a
    case ProcessAct(b) => [b]
    case Send(_, _, _) => [FeederSystem.FinishVote]
    case _ => []
  }

  ghost function ProcessActs(w: World, actions: seq<Action>, u: Setup): seq<FeederSystem.Action>
    requires Valid(u)
  {
    if actions == [] then []
    else
      var init, a := actions[..|actions| - 1], actions[|actions| - 1];
      ProcessActs(w, init, u) + if Enabled(Run(w, init, u), a, u) then AsProcess(a) else []
  }

  /** Within every run of the whole the process makes one of its own runs, to which all of its results apply. */
  lemma {:induction false} ProcessRuns(clocks: seq<Time>, start: PricePoster.System, actions: seq<Action>, u: Setup)
    requires Valid(u)
    ensures Run(Initial(clocks, start), actions, u).system
         == FeederSystem.Run(FeederSystem.Initial(clocks), ProcessActs(Initial(clocks, start), actions, u))
  {
    if actions == [] {
    } else {
      var init, a := actions[..|actions| - 1], actions[|actions| - 1];
      ProcessRuns(clocks, start, init, u);
      var w, acts := Run(Initial(clocks, start), init, u), ProcessActs(Initial(clocks, start), init, u);
      if Enabled(w, a, u) {
        ProcessStep(w, a, u, FeederSystem.Initial(clocks), acts);
      } else {
        assert acts + [] == acts;
      }
    }
  }

  lemma ProcessStep(w: World, a: Action, u: Setup, s: FeederSystem.System, acts: seq<FeederSystem.Action>)
    requires Valid(u) && Enabled(w, a, u) && w.system == FeederSystem.Run(s, acts)
    ensures Step(w, a, u).system == FeederSystem.Run(s, acts + AsProcess(a))
  {
    if AsProcess(a) == [] {
      assert acts + [] == acts;
    } else {
      FeederSystem.RunSnoc(s, acts, AsProcess(a)[0]);
      assert AsProcess(a) == [AsProcess(a)[0]];
    }
  }

  /** Over every run of the whole, the voting periods voted on, the one in hand and the signal that is blocked are
      exactly those after the due blocks that the stream met, each judged by the parameters fetched last before it. */
  lemma RoundsAreDue(clocks: seq<Time>, start: PricePoster.System, actions: seq<Action>, u: Setup)
    requires Valid(u) && |clocks| == |u.names|
    ensures var w := Run(Initial(clocks, start), actions, u);
            var acts := FeederSystem.StreamActs(FeederSystem.Initial(clocks), ProcessActs(Initial(clocks, start), actions, u));
            var due := Stream.DueHeights(Stream.MessagesOf(Stream.Taken(acts)));
            var served := Heights(w.rounds) + InHand(w.system.feeder) + Stream.Pending(w.system.stream);
            Stream.Subsequence(served, due) && (!w.system.stream.stop ==> served == due)
  {
    var acts := ProcessActs(Initial(clocks, start), actions, u);
    RunKeepsInv(clocks, start, actions, u);
    ProcessRuns(clocks, start, actions, u);
    FeederSystem.StreamRuns(clocks, acts);
    Stream.SignalsAreExact(FeederSystem.StreamActs(FeederSystem.Initial(clocks), acts));
  }
}
