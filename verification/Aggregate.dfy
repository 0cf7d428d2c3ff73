/** The aggregate price provider: it asks every provider, consolidates the valid answers and returns one price. */
module Aggregate {
  import opened Types
  import opened Sequences
  import opened Statistics
  import opened Consensus
  import opened Robustness
  import opened Bands
  import opened PriceSource

  // ---------- the specification on price records ----------

  function OneValue(): Price -> seq<real> { (p: Price) => [p.price] }

  /** The float prices of a slice of price records. */
  function Values(prices: seq<Price>): seq<real> { FlatMap(prices, OneValue()) }

  lemma {:induction false} ValuesAt(prices: seq<Price>)
    ensures |Values(prices)| == |prices|
    ensures forall i :: 0 <= i < |prices| ==> Values(prices)[i] == prices[i].price
  {
    if prices == [] {
    } else {
      ValuesAt(prices[..|prices| - 1]);
    }
  }

  function Missing(pair: Pair, price: real): Price { Price(pair, price, "missing", false) }

  /** computeConsolidatedPrice. */
  function Consolidate(prices: seq<Price>, pair: Pair): Price {
    ValuesAt(prices);
    if prices == [] then Missing(pair, NO_PRICE)
    else if |prices| == 1 then prices[0]
    else if |prices| > 2 && Survivors(Values(prices)) == [] then Missing(pair, NO_PRICE)
    else Price(pair, Consolidated(Values(prices)), "consolidated", true)
  }

  function KeepValid(answers: map<int, Price>): int -> seq<Price> {
    id => if id in answers && answers[id].valid then [answers[id]] else []
  }

  /** The valid answers in the order in which the providers are visited. */
  function ValidAnswers(order: seq<int>, answers: map<int, Price>): seq<Price> {
    FlatMap(order, KeepValid(answers))
  }

  lemma VisitStep(order: seq<int>, id: int, answers: map<int, Price>)
    requires id in answers
    ensures ValidAnswers(order + [id], answers)
         == if answers[id].valid then ValidAnswers(order, answers) + [answers[id]] else ValidAnswers(order, answers)
  {
    FlatMapSnoc(order, id, KeepValid(answers));
  }

  /** The aggregate answer when the providers are visited in the given order. */
  function AggregatePrice(order: seq<int>, answers: map<int, Price>, pair: Pair): Price {
    var prices := ValidAnswers(order, answers);
    if prices != [] then Consolidate(prices, pair) else Missing(pair, 0.0)
  }

  /** A visit of every provider exactly once. */
  ghost predicate IsVisit(order: seq<int>, ids: set<int>) {
    multiset(order) == multiset(ids)
  }

  lemma TakeOut(ids: set<int>, id: int)
    requires id in ids
    ensures multiset(ids) == multiset{id} + multiset(ids - {id})
  {}

  lemma VisitOneMore(order: seq<int>, ids: set<int>, all: set<int>, id: int)
    requires id in ids && multiset(order) + multiset(ids) == multiset(all)
    ensures multiset(order + [id]) + multiset(ids - {id}) == multiset(all)
  {
    TakeOut(ids, id);
  }

  /** Some visit of the providers. */
  ghost function SomeVisit(ids: set<int>): (order: seq<int>)
    ensures IsVisit(order, ids)
    decreases |ids|
  {
    if ids == {} then []
    else
      NonEmpty(ids);
      var id :| id in ids;
      TakeOut(ids, id);
      SomeVisit(ids - {id}) + [id]
  }

  lemma NonEmpty(ids: set<int>)
    requires ids != {}
    ensures exists id :: id in ids
  {
    assert (forall id :: id !in ids) ==> ids == {};
  }

  // ---------- what the aggregate answer guarantees ----------

  lemma ConsolidateValid(prices: seq<Price>, pair: Pair)
    requires prices != [] && forall p :: p in prices ==> p.valid && p.pair == pair
    ensures var r := Consolidate(prices, pair);
            && r.valid && r.pair == pair && |Values(prices)| == |prices|
            && r.price == Consolidated(Values(prices))
  {
    ValuesAt(prices);
    if |prices| == 1 {
      assert prices[0] in prices;
    } else if |prices| > 2 {
      FilterNeverStarves(Values(prices));
    }
  }

  lemma ConsolidatePermutation(prices: seq<Price>, others: seq<Price>, pair: Pair)
    requires multiset(prices) == multiset(others)
    ensures Consolidate(prices, pair) == Consolidate(others, pair)
  {
    PermutationLength(prices, others);
    ValuesAt(prices);
    ValuesAt(others);
    FlatMapPermutation(prices, others, OneValue());
    if |prices| == 1 {
      assert prices[0] in multiset(others);
    } else if |prices| > 1 {
      OrderIndependent(Values(prices), Values(others));
      PermutationLength(Survivors(Values(prices)), Survivors(Values(others)));
    }
  }

  /** Order independence: every order of visiting the providers gives the same price record. */
  lemma VisitOrderIrrelevant(order: seq<int>, other: seq<int>, answers: map<int, Price>, pair: Pair)
    requires multiset(order) == multiset(other)
    ensures AggregatePrice(order, answers, pair) == AggregatePrice(other, answers, pair)
  {
    FlatMapPermutation(order, other, KeepValid(answers));
    var prices, others := ValidAnswers(order, answers), ValidAnswers(other, answers);
    PermutationLength(prices, others);
    ConsolidatePermutation(prices, others, pair);
  }

  lemma EveryVisitAgrees(order: seq<int>, answers: map<int, Price>, pair: Pair, ids: set<int>)
    requires IsVisit(order, ids)
    ensures forall other :: IsVisit(other, ids) ==> AggregatePrice(other, answers, pair) == AggregatePrice(order, answers, pair)
  {
    forall other | IsVisit(other, ids)
      ensures AggregatePrice(other, answers, pair) == AggregatePrice(order, answers, pair)
    {
      VisitOrderIrrelevant(order, other, answers, pair);
    }
  }

  ghost predicate AnswerOf(p: Price, order: seq<int>, answers: map<int, Price>) {
    exists id :: id in order && id in answers && answers[id] == p
  }

  lemma {:induction false} ValidAnswersAre(order: seq<int>, answers: map<int, Price>)
    ensures forall id :: id in order && id in answers && answers[id].valid ==> answers[id] in ValidAnswers(order, answers)
    ensures forall p :: p in ValidAnswers(order, answers) ==> p.valid && AnswerOf(p, order, answers)
  {
    if order == [] {
    } else {
      var init, last := order[..|order| - 1], order[|order| - 1];
      ValidAnswersAre(init, answers);
      assert order == init + [last];
      forall p | p in ValidAnswers(order, answers) ensures p.valid && AnswerOf(p, order, answers) {
        if p in ValidAnswers(init, answers) {
          var id :| id in init && id in answers && answers[id] == p;
          assert id in order;
        } else {
          assert last in order && answers[last] == p;
        }
      }
    }
  }

  ghost predicate AnyValid(answers: map<int, Price>) {
    exists id :: id in answers && answers[id].valid
  }

  /** The price lies between two valid answers. */
  ghost predicate BetweenValid(answers: map<int, Price>, price: real) {
    exists lo, hi :: lo in answers && hi in answers && answers[lo].valid && answers[hi].valid
                     && answers[lo].price <= price <= answers[hi].price
  }

  /** The prices of the valid answers, provider by provider. */
  function ValidPrices(answers: map<int, Price>): map<int, real> {
    map id | id in answers && answers[id].valid :: answers[id].price
  }

  /** The aggregate is valid exactly if some provider's answer is, it is then a price for the pair, and it lies
      between two of the valid answers; otherwise it is the abstaining record. A single valid answer is passed on. */
  lemma AggregateValidIff(order: seq<int>, answers: map<int, Price>, pair: Pair)
    requires IsVisit(order, answers.Keys)
    requires forall id :: id in answers ==> answers[id].pair == pair
    ensures var r := AggregatePrice(order, answers, pair);
            && r.pair == pair
            && (r.valid <==> AnyValid(answers))
            && (!r.valid ==> r == Price(pair, 0.0, "missing", false))
            && (r.valid ==> BetweenValid(answers, r.price))
            && (|ValidPrices(answers)| == 1 ==> exists id :: id in ValidPrices(answers) && r == answers[id])
            && (|ValidPrices(answers)| >= 2 ==> r.sourceName == "consolidated")
  {
    var prices := ValidAnswers(order, answers);
    ValidAnswersAre(order, answers);
    VisitsAll(order, answers.Keys);
    ValuesAt(prices);
    ValuesInOrder(order, answers);
    EntriesInOrder(order, answers.Keys, ValidPrices(answers));
    if prices != [] {
      assert prices[0] in prices;
      ConsolidateValid(prices, pair);
      ConsolidatedBetween(order, answers, pair);
      if |prices| == 1 {
        SingleAnswer(order, answers, pair);
      }
    }
  }

  lemma VisitsAll(order: seq<int>, ids: set<int>)
    requires IsVisit(order, ids)
    ensures forall id :: id in order <==> id in ids
  {
    forall id ensures id in order <==> id in ids {
      assert id in order <==> id in multiset(order);
      assert id in ids <==> id in multiset(ids);
    }
  }

  lemma SingleAnswer(order: seq<int>, answers: map<int, Price>, pair: Pair)
    requires |ValidAnswers(order, answers)| == 1
    ensures exists id :: id in ValidPrices(answers) && AggregatePrice(order, answers, pair) == answers[id]
  {
    var prices := ValidAnswers(order, answers);
    ValidAnswersAre(order, answers);
    assert prices[0] in prices;
    assert AnswerOf(prices[0], order, answers);
    var id :| id in order && id in answers && answers[id] == prices[0];
    assert id in ValidPrices(answers);
  }

  lemma ConsolidatedBetween(order: seq<int>, answers: map<int, Price>, pair: Pair)
    requires ValidAnswers(order, answers) != []
    ensures Values(ValidAnswers(order, answers)) != []
    ensures BetweenValid(answers, Consolidated(Values(ValidAnswers(order, answers))))
  {
    var prices := ValidAnswers(order, answers);
    ValidAnswersAre(order, answers);
    ValuesAt(prices);
    var lo, hi := RobustLocation(Values(prices));
    var i := ValueSource(prices, lo);
    var j := ValueSource(prices, hi);
    assert prices[i] in prices && prices[j] in prices;
    assert AnswerOf(prices[i], order, answers) && AnswerOf(prices[j], order, answers);
  }

  // ---------- the entries behind an answer ----------

  function EntryOf(entries: map<int, real>): int -> seq<real> {
    id => if id in entries then [entries[id]] else []
  }

  /** The entries in the order in which the providers are visited. */
  function InOrder(order: seq<int>, entries: map<int, real>): seq<real> {
    FlatMap(order, EntryOf(entries))
  }

  lemma {:induction false} ValuesInOrder(order: seq<int>, answers: map<int, Price>)
    ensures Values(ValidAnswers(order, answers)) == InOrder(order, ValidPrices(answers))
  {
    if order == [] {
    } else {
      var init, id := order[..|order| - 1], order[|order| - 1];
      ValuesInOrder(init, answers);
      if id in answers && answers[id].valid {
        FlatMapSnoc(ValidAnswers(init, answers), answers[id], OneValue());
      } else {
        assert ValidAnswers(order, answers) == ValidAnswers(init, answers);
      }
    }
  }

  function Anything(): real -> bool { x => true }
  function Exactly(v: real): real -> bool { x => x == v }

  lemma {:induction false} CountAll(xs: seq<real>)
    ensures CountIf(xs, Anything()) == |xs|
  {
    if xs == [] {
    } else {
      CountAll(xs[..|xs| - 1]);
    }
  }

  lemma {:induction false} CountExactly(xs: seq<real>, v: real)
    ensures CountIf(xs, Exactly(v)) == Count(xs, v)
  {
    if xs == [] {
    } else {
      CountExactly(xs[..|xs| - 1], v);
      CountInit(xs, v);
    }
  }

  /** The providers whose entry has property p. */
  function Quoting(entries: map<int, real>, p: real -> bool): set<int> {
    set id | id in entries && p(entries[id])
  }

  function QuotingAmong(ids: set<int>, entries: map<int, real>, p: real -> bool): set<int> {
    set id | id in ids && id in entries && p(entries[id])
  }

  /** Counting along a visit is counting providers. */
  lemma {:induction false} CountVisit(order: seq<int>, ids: set<int>, entries: map<int, real>, p: real -> bool)
    requires IsVisit(order, ids)
    ensures CountIf(InOrder(order, entries), p) == |QuotingAmong(ids, entries, p)|
  {
    if order == [] {
      VisitsAll(order, ids);
      assert QuotingAmong(ids, entries, p) == {};
    } else {
      var init, id := order[..|order| - 1], order[|order| - 1];
      VisitsAll(order, ids);
      MultisetInit(order);
      TakeOut(ids, id);
      MultisetCancel(multiset(init), multiset(ids - {id}), id);
      CountVisit(init, ids - {id}, entries, p);
      CountVisitStep(init, id, entries, p);
      QuotingStep(ids, id, entries, p);
    }
  }

  lemma CountVisitStep(init: seq<int>, id: int, entries: map<int, real>, p: real -> bool)
    ensures CountIf(InOrder(init + [id], entries), p)
         == CountIf(InOrder(init, entries), p) + if id in entries && p(entries[id]) then 1 else 0
  {
    FlatMapSnoc(init, id, EntryOf(entries));
    if id in entries {
      CountIfSnoc(InOrder(init, entries), entries[id], p);
    } else {
      assert InOrder(init, entries) + [] == InOrder(init, entries);
    }
  }

  lemma QuotingStep(ids: set<int>, id: int, entries: map<int, real>, p: real -> bool)
    requires id in ids
    ensures |QuotingAmong(ids, entries, p)|
         == |QuotingAmong(ids - {id}, entries, p)| + if id in entries && p(entries[id]) then 1 else 0
  {
    var rest := QuotingAmong(ids - {id}, entries, p);
    if id in entries && p(entries[id]) {
      assert QuotingAmong(ids, entries, p) == rest + {id};
    } else {
      assert QuotingAmong(ids, entries, p) == rest;
    }
  }

  lemma CountEntries(order: seq<int>, ids: set<int>, entries: map<int, real>, p: real -> bool)
    requires IsVisit(order, ids) && entries.Keys <= ids
    ensures CountIf(InOrder(order, entries), p) == |Quoting(entries, p)|
  {
    CountVisit(order, ids, entries, p);
    assert QuotingAmong(ids, entries, p) == Quoting(entries, p);
  }

  lemma EntriesInOrder(order: seq<int>, ids: set<int>, entries: map<int, real>)
    requires IsVisit(order, ids) && entries.Keys <= ids
    ensures |InOrder(order, entries)| == |entries|
  {
    CountEntries(order, ids, entries, Anything());
    CountAll(InOrder(order, entries));
    assert Quoting(entries, Anything()) == entries.Keys;
  }

  /** Whichever way the entries are visited, they have the same consolidated value. */
  lemma SameEntries(order: seq<int>, ids: set<int>, other: seq<int>, others: set<int>, entries: map<int, real>)
    requires IsVisit(order, ids) && IsVisit(other, others) && entries.Keys <= ids && entries.Keys <= others
    requires entries != map[]
    ensures InOrder(order, entries) != [] && InOrder(other, entries) != []
    ensures Consolidated(InOrder(order, entries)) == Consolidated(InOrder(other, entries))
  {
    var xs, ys := InOrder(order, entries), InOrder(other, entries);
    EntriesInOrder(order, ids, entries);
    EntriesInOrder(other, others, entries);
    forall v ensures multiset(xs)[v] == multiset(ys)[v] {
      CountEntries(order, ids, entries, Exactly(v));
      CountEntries(other, others, entries, Exactly(v));
      CountExactly(xs, v);
      CountExactly(ys, v);
    }
    assert multiset(xs) == multiset(ys);
    OrderIndependent(xs, ys);
  }

  /** Price is the consolidated value of the entries, whichever way they are visited. */
  ghost predicate ConsolidatesEntries(price: real, entries: map<int, real>) {
    forall order :: IsVisit(order, entries.Keys) ==>
      InOrder(order, entries) != [] && price == Consolidated(InOrder(order, entries))
  }

  ghost predicate BetweenEntries(price: real, entries: map<int, real>) {
    exists lo, hi :: lo in entries && hi in entries && entries[lo] <= price <= entries[hi]
  }

  /** The price is v if more than half of the entries are v, and does not lie beyond t if at most a quarter of them
      does. */
  ghost predicate ToleratesStray(price: real, entries: map<int, real>) {
    && (forall v :: 2 * |Quoting(entries, Exactly(v))| > |entries| ==> price == v)
    && (forall up, t :: 4 * |Quoting(entries, Past(up, t))| <= |entries| ==> !Beyond(up, price, t))
  }

  /** What the answer for a pair must be, told by the entries of the providers alone: without an entry the missing
      record; else a valid price, the consolidated value of the entries. It lies between two of them, and no minority
      of stray entries moves it away from a value, and no quarter of them beyond a bound. */
  ghost predicate IsAggregate(r: Price, pair: Pair, entries: map<int, real>) {
    && r.pair == pair
    && (r.valid <==> entries != map[])
    && (!r.valid ==> r == Price(pair, 0.0, "missing", false))
    && (|entries| >= 2 ==> r.sourceName == "consolidated")
    && (r.valid ==> ConsolidatesEntries(r.price, entries))
    && (r.valid ==> BetweenEntries(r.price, entries))
    && (r.valid ==> ToleratesStray(r.price, entries))
  }

  lemma InOrderTolerates(order: seq<int>, ids: set<int>, entries: map<int, real>)
    requires IsVisit(order, ids) && entries.Keys <= ids && InOrder(order, entries) != []
    ensures ToleratesStray(Consolidated(InOrder(order, entries)), entries)
  {
    var xs := InOrder(order, entries);
    EntriesInOrder(order, ids, entries);
    forall v | 2 * |Quoting(entries, Exactly(v))| > |entries| ensures Consolidated(xs) == v {
      CountEntries(order, ids, entries, Exactly(v));
      CountExactly(xs, v);
      StrictMajorityWins(xs, v);
    }
    forall up, t | 4 * |Quoting(entries, Past(up, t))| <= |entries| ensures !Beyond(up, Consolidated(xs), t) {
      CountEntries(order, ids, entries, Past(up, t));
      QuarterBound(up, xs, t);
    }
  }

  lemma InOrderConsolidates(order: seq<int>, ids: set<int>, entries: map<int, real>)
    requires IsVisit(order, ids) && entries.Keys <= ids && InOrder(order, entries) != []
    ensures ConsolidatesEntries(Consolidated(InOrder(order, entries)), entries)
  {
    EntriesInOrder(order, ids, entries);
    forall other | IsVisit(other, entries.Keys)
      ensures InOrder(other, entries) != [] && Consolidated(InOrder(order, entries)) == Consolidated(InOrder(other, entries))
    {
      SameEntries(order, ids, other, entries.Keys, entries);
    }
  }

  /** The aggregate answer is determined by the valid answers of the providers, as it must be. */
  lemma AggregateOfEntries(order: seq<int>, answers: map<int, Price>, pair: Pair)
    requires IsVisit(order, answers.Keys)
    requires forall id :: id in answers ==> answers[id].pair == pair
    ensures IsAggregate(AggregatePrice(order, answers, pair), pair, ValidPrices(answers))
  {
    var prices, entries := ValidAnswers(order, answers), ValidPrices(answers);
    AggregateValidIff(order, answers, pair);
    ValuesInOrder(order, answers);
    EntriesInOrder(order, answers.Keys, entries);
    ValuesAt(prices);
    if prices != [] {
      ValidAnswersAre(order, answers);
      ConsolidateValid(prices, pair);
      InOrderTolerates(order, answers.Keys, entries);
      InOrderConsolidates(order, answers.Keys, entries);
      BetweenValidEntries(answers, Consolidated(Values(prices)));
    }
  }

  lemma BetweenValidEntries(answers: map<int, Price>, price: real)
    requires BetweenValid(answers, price)
    ensures BetweenEntries(price, ValidPrices(answers))
  {
    var lo, hi :| lo in answers && hi in answers && answers[lo].valid && answers[hi].valid
                  && answers[lo].price <= price <= answers[hi].price;
    assert lo in ValidPrices(answers) && hi in ValidPrices(answers);
  }

  lemma ValueSource(prices: seq<Price>, v: real) returns (i: nat)
    requires v in Values(prices)
    ensures i < |prices| && prices[i].price == v
  {
    ValuesAt(prices);
    i :| 0 <= i < |Values(prices)| && Values(prices)[i] == v;
  }

  /** If more than half of the valid answers quote v, the aggregate price is v. */
  lemma AggregateConsensus(order: seq<int>, answers: map<int, Price>, pair: Pair, v: real)
    requires forall id :: id in answers ==> answers[id].pair == pair
    requires var values := Values(ValidAnswers(order, answers)); 2 * Count(values, v) > |values|
    ensures var r := AggregatePrice(order, answers, pair); r.valid && r.price == v
  {
    var prices := ValidAnswers(order, answers);
    ValidAnswersAre(order, answers);
    ValuesAt(prices);
    StrictMajorityWins(Values(prices), v);
    ConsolidateValid(prices, pair);
  }

  // ---------- the provider itself ----------

  /** math.Sqrt on exact reals. */
  ghost predicate IsSqrt(sqrt: real -> real) {
    forall x :: x >= 0.0 ==> sqrt(x) >= 0.0 && sqrt(x) * sqrt(x) == x
  }

  /** Comparing with the standard deviation decides like comparing squares with the variance. */
  lemma WithinByRoot(p: real, mean: real, variance: real, stddev: real)
    requires stddev >= 0.0 && stddev * stddev == variance
    ensures (if p - mean < 0.0 then mean - p else p - mean) <= stddev <==> Within(p, mean, variance)
  {
    var a := if p - mean < 0.0 then mean - p else p - mean;
    assert Square(p - mean) == a * a;
    assert variance - a * a == (stddev - a) * (stddev + a);
    if a <= stddev {
      assert (stddev - a) * (stddev + a) >= 0.0;
    } else {
      NegativeProduct(stddev - a, stddev + a);
    }
  }

  lemma NegativeProduct(x: real, y: real)
    requires x < 0.0 && y > 0.0
    ensures x * y < 0.0
  {}

  class AggregatePriceProvider {
    const providers: map<int, PriceProvider>
    const sqrt: real -> real

    constructor (providers: map<int, PriceProvider>, sqrt: real -> real)
      ensures this.providers == providers && this.sqrt == sqrt
    {
      this.providers := providers;
      this.sqrt := sqrt;
    }

    /** What every provider answers; readings[id] is the clock when provider id is asked. */
    function Answers(pair: Pair, readings: map<int, Time>): (answers: map<int, Price>)
      requires providers.Keys <= readings.Keys
      reads providers.Values
      ensures answers.Keys == providers.Keys
      ensures forall id :: id in providers ==> providers[id].IsAnswer(answers[id], pair, readings[id])
    {
      map id | id in providers :: providers[id].Answer(pair, readings[id])
    }

    /** The prices of the providers whose cached entry for the pair is fresh at their reading. */
    ghost function FreshEntries(pair: Pair, readings: map<int, Time>): map<int, real>
      requires providers.Keys <= readings.Keys
      reads providers.Values
    {
      map id | id in providers && providers[id].Fresh(pair, readings[id]) :: providers[id].Entry(pair).price
    }

    /** The answer of a single provider is not consolidated. */
    ghost predicate PassedOn(price: Price, entries: map<int, real>) {
      exists id :: id in entries && id in providers
                   && price == Price(price.pair, entries[id], providers[id].sourceName, true)
    }

    /** The aggregate of the fresh entries, or the only one of them. */
    ghost predicate IsAnswer(price: Price, pair: Pair, readings: map<int, Time>)
      requires providers.Keys <= readings.Keys
      reads providers.Values
    {
      var entries := FreshEntries(pair, readings);
      IsAggregate(price, pair, entries) && (|entries| == 1 ==> PassedOn(price, entries))
    }

    lemma ValidAreFresh(pair: Pair, readings: map<int, Time>)
      requires providers.Keys <= readings.Keys
      ensures ValidPrices(Answers(pair, readings)) == FreshEntries(pair, readings)
    {
      var answers := Answers(pair, readings);
      forall id | id in providers
        ensures answers[id].valid <==> providers[id].Fresh(pair, readings[id])
        ensures answers[id].valid ==> answers[id].price == providers[id].Entry(pair).price
      {
        assert providers[id].IsAnswer(answers[id], pair, readings[id]);
      }
    }

    lemma PriceNowIsAggregate(pair: Pair, readings: map<int, Time>)
      requires providers.Keys <= readings.Keys
      ensures IsAnswer(PriceNow(pair, readings), pair, readings)
    {
      var answers := Answers(pair, readings);
      ValidAreFresh(pair, readings);
      forall id | id in answers ensures answers[id].pair == pair {
        assert providers[id].IsAnswer(answers[id], pair, readings[id]);
      }
      AggregateOfEntries(SomeVisit(providers.Keys), answers, pair);
      AggregateValidIff(SomeVisit(providers.Keys), answers, pair);
    }

    ghost predicate IsPriceNow(price: Price, pair: Pair, readings: map<int, Time>)
      requires providers.Keys <= readings.Keys
      reads providers.Values
    {
      forall order :: IsVisit(order, providers.Keys) ==> price == AggregatePrice(order, Answers(pair, readings), pair)
    }

    lemma SomePrice(pair: Pair, readings: map<int, Time>)
      requires providers.Keys <= readings.Keys
      ensures exists price :: IsPriceNow(price, pair, readings)
    {
      var order := SomeVisit(providers.Keys);
      EveryVisitAgrees(order, Answers(pair, readings), pair, providers.Keys);
      assert IsPriceNow(AggregatePrice(order, Answers(pair, readings), pair), pair, readings);
    }

    /** The answer for a pair: that of every visit of the providers. */
    ghost function PriceNow(pair: Pair, readings: map<int, Time>): (price: Price)
      requires providers.Keys <= readings.Keys
      reads providers.Values
      ensures IsPriceNow(price, pair, readings)
    {
      SomePrice(pair, readings);
      var price :| IsPriceNow(price, pair, readings);
      price
    }

    lemma AnswerOfVisit(order: seq<int>, pair: Pair, readings: map<int, Time>)
      requires providers.Keys <= readings.Keys && IsVisit(order, providers.Keys)
      ensures var price := AggregatePrice(order, Answers(pair, readings), pair);
              IsPriceNow(price, pair, readings) && price == PriceNow(pair, readings) && IsAnswer(price, pair, readings)
    {
      PriceNowIsAggregate(pair, readings);
    }

    /** The providers are visited in an arbitrary order, yet the answer is that of every order. */
    method GetPrice(pair: Pair, readings: map<int, Time>) returns (price: Price)
      requires IsSqrt(sqrt) && providers.Keys <= readings.Keys
      ensures IsPriceNow(price, pair, readings) && price == PriceNow(pair, readings)
      ensures IsAnswer(price, pair, readings)
    {
      var allPrices: seq<Price> := [];
      var ids := providers.Keys;
      ghost var answers := Answers(pair, readings);
      ghost var order: seq<int> := [];
      while ids != {}
        invariant ids <= providers.Keys
        invariant multiset(order) + multiset(ids) == multiset(providers.Keys)
        invariant allPrices == ValidAnswers(order, answers)
        decreases |ids|
      {
        NonEmpty(ids);
        var id :| id in ids;
        var answer := providers[id].GetPrice(pair, readings[id]);
        if answer.valid {
          allPrices := allPrices + [answer];
        }
        VisitStep(order, id, answers);
        VisitOneMore(order, ids, providers.Keys, id);
        order := order + [id];
        ids := ids - {id};
      }
      if |allPrices| > 0 {
        price := ComputeConsolidatedPrice(allPrices, pair);
      } else {
        price := Price(pair, 0.0, "missing", false);
      }
      assert Answers(pair, readings) == answers;
      AnswerOfVisit(order, pair, readings);
    }

    method ComputeConsolidatedPrice(prices: seq<Price>, pair: Pair) returns (price: Price)
      requires IsSqrt(sqrt)
      ensures price == Consolidate(prices, pair)
    {
      ValuesAt(prices);
      if |prices| == 0 {
        return Price(pair, -1.0, "missing", false);
      }
      if |prices| == 1 {
        return prices[0];
      }
      if |prices| == 2 {
        var avg := (prices[0].price + prices[1].price) / 2.0;
        return Price(pair, avg, "consolidated", true);
      }
      var floatPrices: seq<real> := [];
      for i := 0 to |prices|
        invariant floatPrices == Values(prices[..i])
      {
        assert prices[..i + 1] == prices[..i] + [prices[i]];
        FlatMapSnoc(prices[..i], prices[i], OneValue());
        floatPrices := floatPrices + [prices[i].price];
      }
      assert prices[..|prices|] == prices;
      var cleaned := RemoveOutliers(floatPrices);
      if |cleaned| == 0 {
        return Price(pair, -1.0, "missing", false);
      }
      var slice := new real[|cleaned|](i requires 0 <= i < |cleaned| => cleaned[i]);
      assert slice[..] == cleaned;
      var median := MedianInPlace(slice);
      return Price(pair, median, "consolidated", true);
    }

    method RemoveOutliers(prices: seq<real>) returns (filtered: seq<real>)
      requires IsSqrt(sqrt) && |prices| >= 2
      ensures filtered == Survivors(prices)
    {
      var mean, stddev := MeanAndStdDev(prices);
      filtered := [];
      for i := 0 to |prices|
        invariant filtered == FlatMap(prices[..i], KeepWithin(mean, Variance(prices)))
      {
        var p := prices[i];
        assert prices[..i + 1] == prices[..i] + [p];
        FlatMapSnoc(prices[..i], p, KeepWithin(mean, Variance(prices)));
        WithinByRoot(p, mean, Variance(prices), stddev);
        if (if p - mean < 0.0 then mean - p else p - mean) <= stddev {
          filtered := filtered + [p];
        }
      }
      assert prices[..|prices|] == prices;
    }

    method MedianInPlace(prices: array<real>) returns (median: real)
      requires prices.Length > 0
      modifies prices
      ensures prices[..] == Sort(old(prices[..]))
      ensures median == Median(old(prices[..]))
    {
      SortFloats(prices);
      SortSorts(old(prices[..]));
      var mid := prices.Length / 2;
      if prices.Length % 2 == 1 {
        return prices[mid];
      }
      return (prices[mid - 1] + prices[mid]) / 2.0;
    }

    method MeanAndStdDev(prices: seq<real>) returns (mean: real, stddev: real)
      requires IsSqrt(sqrt) && |prices| >= 2
      ensures mean == Mean(prices) && stddev >= 0.0 && stddev * stddev == Variance(prices)
    {
      var sum := 0.0;
      for i := 0 to |prices|
        invariant sum == SumOf(prices[..i], Itself())
      {
        assert prices[..i + 1] == prices[..i] + [prices[i]];
        SumOfSnoc(prices[..i], prices[i], Itself());
        sum := sum + prices[i];
      }
      assert prices[..|prices|] == prices;
      mean := sum / |prices| as real;
      var squares := SumOfSquares(prices, mean);
      var variance := squares / (|prices| - 1) as real;
      VarianceNonneg(prices);
      assert variance == Variance(prices);
      stddev := sqrt(variance);
    }

    /** The second loop of meanAndStdDev. */
    method SumOfSquares(prices: seq<real>, mean: real) returns (variance: real)
      ensures variance == SumOf(prices, SquaredDistanceTo(mean))
    {
      variance := 0.0;
      for i := 0 to |prices|
        invariant variance == SumOf(prices[..i], SquaredDistanceTo(mean))
      {
        assert prices[..i + 1] == prices[..i] + [prices[i]];
        SumOfSnoc(prices[..i], prices[i], SquaredDistanceTo(mean));
        var diff := prices[i] - mean;
        assert Square(diff) == diff * diff == SquaredDistanceTo(mean)(prices[i]);
        variance := variance + diff * diff;
      }
      assert prices[..|prices|] == prices;
    }
  }
}
