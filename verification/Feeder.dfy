/** The feeder's voting-period handler, and what ends up in a vote. */
module Feeder {
  import opened Types
  import opened Decimal
  import DecimalLaws
  import Rates
  import Source = PriceSource
  import opened Aggregate
  import opened PricePoster

  /** An invalid price abstains: it is sent as zero. */
  function Gathered(price: Price): Price {
    if price.valid then price else price.(price := 0.0)
  }

  class Feeder {
    var params: Params
    const priceProvider: AggregatePriceProvider
    const pricePoster: Client

    constructor (priceProvider: AggregatePriceProvider, pricePoster: Client)
      ensures this.priceProvider == priceProvider && this.pricePoster == pricePoster && params == Params([], 0)
    {
      this.priceProvider := priceProvider;
      this.pricePoster := pricePoster;
      params := Params([], 0);
    }

    method HandleParamsUpdate(params: Params)
      modifies this
      ensures this.params == params
    {
      this.params := params;
    }

    /** readings[i][id] is the clock when provider id is asked for the i-th pair. */
    ghost predicate CanRead(readings: seq<map<int, Time>>)
      reads this
    {
      && |readings| == |params.pairs|
      && forall i :: 0 <= i < |readings| ==> priceProvider.providers.Keys <= readings[i].Keys
    }

    /** What the handler hands over: for every pair the aggregate answer, with invalid prices zeroed. */
    ghost function Prices(readings: seq<map<int, Time>>): (prices: seq<Price>)
      requires CanRead(readings)
      reads this, priceProvider.providers.Values
      ensures |prices| == |params.pairs|
      ensures forall k :: 0 <= k < |prices|
                ==> prices[k] == Gathered(priceProvider.PriceNow(params.pairs[k], readings[k]))
    {
      seq(|params.pairs|, i requires 0 <= i < |params.pairs| && CanRead(readings)
                            reads this, priceProvider.providers.Values
                          => Gathered(priceProvider.PriceNow(params.pairs[i], readings[i])))
    }

    /** The first loop of handleVotingPeriod: asks for every pair, in order. */
    method GatherPrices(readings: seq<map<int, Time>>) returns (prices: seq<Price>)
      requires CanRead(readings) && IsSqrt(priceProvider.sqrt)
      ensures prices == Prices(readings)
    {
      prices := [];
      for i := 0 to |params.pairs|
        invariant |prices| == i
        invariant forall k :: 0 <= k < i ==> prices[k] == Gathered(priceProvider.PriceNow(params.pairs[k], readings[k]))
      {
        var price := priceProvider.GetPrice(params.pairs[i], readings[i]);
        if !price.valid {
          price := price.(price := 0.0);
        }
        prices := prices + [price];
      }
    }

    /** Hands the gathered prices to the poster, which commits to exactly these. */
    method HandleVotingPeriod(readings: seq<map<int, Time>>, node: Node, format: real -> Numeral, salt: string,
                              reply: Reply, outcome: Outcome)
      requires CanRead(readings) && IsSqrt(priceProvider.sqrt) && IsFormatter(format)
      modifies pricePoster, node
      ensures pricePoster.View(node)
           == Apply(old(pricePoster.View(node)), Call(salt, Tuples(old(Prices(readings)), format), reply, outcome),
                    pricePoster.validator)
    {
      var prices := GatherPrices(readings);
      pricePoster.SendPrices(node, prices, format, salt, reply, outcome);
    }
  }

  // ---------- end to end ----------

  /** The rate posted for a gathered price is zero exactly if the answer was invalid or prints below 10^-18 in
      magnitude; for a valid answer it is the printed price rounded toward zero. */
  lemma RateOfAnswer(answer: Price, format: real -> Numeral)
    requires IsFormatter(format)
    ensures var rate := Rate(Gathered(answer).price, format);
            && (rate == 0 <==> !answer.valid || Abs(format(answer.price).Value()) < FromDec(1))
            && (answer.valid ==> DecimalLaws.RoundsTowardZero(format(answer.price).Value(), rate, SCALE))
  {
    ConvertNumeral(format(answer.price));
    ConvertNumeral(format(0.0));
    DecimalLaws.ZeroRateIff(format(answer.price));
    DecimalLaws.ZeroRateIff(format(0.0));
    DecimalLaws.OneUnit();
    DecimalLaws.ConversionRounds(format(answer.price), Rate(answer.price, format));
  }

  /** A rate posted for this answer: zero if it abstains; else zero exactly if the price prints below 10^-18 in
      magnitude, and off the price by less than 10^-18 and the printing error. */
  ghost predicate RateFits(rate: int, answer: Price, format: real -> Numeral)
    requires IsFormatter(format)
  {
    && (rate == 0 <==> !answer.valid || Abs(format(answer.price).Value()) < FromDec(1))
    && (answer.valid ==> Abs(FromDec(rate) - answer.price) < FromDec(1) + PrintError(answer.price))
  }

  lemma RateFitsAnswer(answer: Price, format: real -> Numeral)
    requires IsFormatter(format)
    ensures RateFits(Rate(Gathered(answer).price, format), answer, format)
  {
    RateOfAnswer(answer, format);
    Rates.RateOfPrice(format, answer.price);
  }

  /** The committed tuples match the feeder's pairs one for one and in order; each rate fits the aggregate answer
      for its pair, so the placeholder prices of invalid answers never reach a vote. */
  lemma VoteContent(f: Feeder, readings: seq<map<int, Time>>, format: real -> Numeral, i: nat)
    requires f.CanRead(readings) && IsFormatter(format) && i < |f.params.pairs|
    ensures var vote, answer := Tuples(f.Prices(readings), format), f.priceProvider.PriceNow(f.params.pairs[i], readings[i]);
            && |vote| == |f.params.pairs| && vote[i].pair == f.params.pairs[i]
            && f.priceProvider.IsAnswer(answer, f.params.pairs[i], readings[i])
            && RateFits(vote[i].exchangeRate, answer, format)
  {
    var provider, pair := f.priceProvider, f.params.pairs[i];
    provider.PriceNowIsAggregate(pair, readings[i]);
    RateFitsAnswer(provider.PriceNow(pair, readings[i]), format);
  }

  /** A provider as a running component with its configuration and the clock when it is asked. */
  datatype Asked = Asked(provider: Source.Provider, mapping: map<Pair, Symbol>, sourceName: string, now: Time)

  function AnswersOf(asked: map<int, Asked>, pair: Pair): map<int, Price> {
    map id | id in asked ::
      Source.PriceAt(asked[id].mapping, asked[id].provider.lastPrices, asked[id].sourceName, pair, asked[id].now)
  }

  /** Provider a received this price for the pair in its latest batch that mentions it, less than 15 seconds ago. */
  ghost predicate FreshlyReceived(a: Asked, pair: Pair, price: real) {
    && pair in a.mapping
    && exists i :: Source.FreshMention(a.provider.received, a.mapping[pair], i, a.now)
                   && a.provider.received[i][a.mapping[pair]].price == price
  }

  /** Some provider freshly received a price for the pair. */
  ghost predicate AnyFresh(asked: map<int, Asked>, pair: Pair) {
    exists id, price :: id in asked && FreshlyReceived(asked[id], pair, price)
  }

  /** The price lies between two freshly received ones. */
  ghost predicate BetweenFresh(asked: map<int, Asked>, pair: Pair, price: real) {
    exists lo, hi, x, y :: lo in asked && hi in asked && FreshlyReceived(asked[lo], pair, x)
                           && FreshlyReceived(asked[hi], pair, y) && x <= price <= y
  }

  lemma AnswerFresh(a: Asked, pair: Pair)
    requires Source.Inv(a.provider)
    ensures var answer := Source.PriceAt(a.mapping, a.provider.lastPrices, a.sourceName, pair, a.now);
            && answer.pair == pair
            && (answer.valid ==> FreshlyReceived(a, pair, answer.price))
            && (!answer.valid ==> forall price :: !FreshlyReceived(a, pair, price))
  {
    Source.AnswerIsFreshHistory(a.provider, a.mapping, a.sourceName, pair, a.now);
  }

  lemma AnyFreshIff(asked: map<int, Asked>, pair: Pair)
    requires forall id :: id in asked ==> Source.Inv(asked[id].provider)
    ensures var answers := AnswersOf(asked, pair);
            && (forall id :: id in answers ==> answers[id].pair == pair)
            && (AnyFresh(asked, pair) <==> AnyValid(answers))
  {
    var answers := AnswersOf(asked, pair);
    forall id | id in asked
      ensures answers[id].pair == pair && (answers[id].valid ==> AnyFresh(asked, pair))
    {
      AnswerFresh(asked[id], pair);
    }
    if AnyFresh(asked, pair) {
      var id, price :| id in asked && FreshlyReceived(asked[id], pair, price);
      AnswerFresh(asked[id], pair);
      assert id in answers;
    }
  }

  lemma BetweenFreshAnswers(asked: map<int, Asked>, pair: Pair, price: real)
    requires forall id :: id in asked ==> Source.Inv(asked[id].provider)
    requires BetweenValid(AnswersOf(asked, pair), price)
    ensures BetweenFresh(asked, pair, price)
  {
    var answers := AnswersOf(asked, pair);
    var lo, hi :| lo in answers && hi in answers && answers[lo].valid && answers[hi].valid
                  && answers[lo].price <= price <= answers[hi].price;
    AnswerFresh(asked[lo], pair);
    AnswerFresh(asked[hi], pair);
  }

  ghost predicate HasFresh(a: Asked, pair: Pair) {
    exists price :: FreshlyReceived(a, pair, price)
  }

  ghost function FreshPrice(a: Asked, pair: Pair): (price: real)
    requires HasFresh(a, pair)
    ensures FreshlyReceived(a, pair, price)
  {
    var price :| FreshlyReceived(a, pair, price);
    price
  }

  /** The freshly received prices for a pair, provider by provider. */
  ghost function FreshEntries(asked: map<int, Asked>, pair: Pair): map<int, real> {
    map id | id in asked && HasFresh(asked[id], pair) :: FreshPrice(asked[id], pair)
  }

  lemma FreshUnique(a: Asked, pair: Pair, x: real, y: real)
    requires FreshlyReceived(a, pair, x) && FreshlyReceived(a, pair, y)
    ensures x == y
  {
    var received, symbol := a.provider.received, a.mapping[pair];
    var i :| Source.FreshMention(received, symbol, i, a.now) && received[i][symbol].price == x;
    var j :| Source.FreshMention(received, symbol, j, a.now) && received[j][symbol].price == y;
    Source.LatestMentionUnique(received, symbol, i, j);
  }

  lemma ValidAreFresh(asked: map<int, Asked>, pair: Pair)
    requires forall id :: id in asked ==> Source.Inv(asked[id].provider)
    ensures ValidPrices(AnswersOf(asked, pair)) == FreshEntries(asked, pair)
  {
    var answers := AnswersOf(asked, pair);
    forall id | id in asked
      ensures answers[id].valid <==> HasFresh(asked[id], pair)
      ensures answers[id].valid ==> answers[id].price == FreshPrice(asked[id], pair)
    {
      AnswerFresh(asked[id], pair);
      if answers[id].valid {
        FreshUnique(asked[id], pair, answers[id].price, FreshPrice(asked[id], pair));
      }
    }
  }

  /** Whatever the providers went through: the aggregate price is valid exactly if some provider freshly received a
      price for the pair, and then it is the consolidated value of all such prices, lies between two of them, and
      tolerates stray ones. */
  lemma AggregateOfFreshPrices(asked: map<int, Asked>, order: seq<int>, pair: Pair)
    requires IsVisit(order, asked.Keys)
    requires forall id :: id in asked ==> Source.Inv(asked[id].provider)
    ensures var r := AggregatePrice(order, AnswersOf(asked, pair), pair);
            && IsAggregate(r, pair, FreshEntries(asked, pair))
            && (r.valid <==> AnyFresh(asked, pair))
            && (r.valid ==> BetweenFresh(asked, pair, r.price))
  {
    var answers := AnswersOf(asked, pair);
    AnyFreshIff(asked, pair);
    ValidAreFresh(asked, pair);
    AggregateOfEntries(order, answers, pair);
    AggregateValidIff(order, answers, pair);
    var r := AggregatePrice(order, answers, pair);
    if r.valid {
      BetweenFreshAnswers(asked, pair, r.price);
    }
  }
}
