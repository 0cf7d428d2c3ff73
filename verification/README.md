# Verification of the oracle price feeder

The price feeder polls exchanges, caches their prices, consolidates them per currency pair, and posts them on chain by
a commit-reveal protocol driven by block events. This project models that process in Dafny and proves what it
guarantees: agreement of the sources and exactly how many stray sources it tolerates, faithful conversion to chain
decimals, faithful and self-healing reveals under faults, exact forwarding of parameters and voting periods, a shutdown
that cannot deadlock, and, over runs of all parts together, that the voting periods voted on are exactly those that are
due, that every accepted vote posts the consolidated value of fresh prices, and that every due period can be served.

`dafny verify dfyconfig.toml` checks everything.

## How it is organised

| file | content |
|---|---|
| `Types.dfy` | prices, pairs, the oracle parameters and their change test |
| `Arithmetic.dfy` | integer division by a positive divisor |
| `Sequences.dfy` | the sums, flat maps and the sort that the loops compute, and their laws under permutation |
| `Statistics.dfy` | mean, sample variance, the one-sigma filter, the median |
| `Consensus.dfy`, `Robustness.dfy` | the consolidated value and its laws |
| `Bands.dfy` | how many stray prices the consolidated value tolerates, exactly |
| `PriceSource.dfy` | one provider with its cache and its tick source |
| `Aggregate.dfy` | the aggregate provider, as a class whose loops refine the specification |
| `Decimal.dfy`, `DecimalLaws.dfy` | conversion of a printed number to a chain decimal, and its laws |
| `Rates.dfy` | from the price to the posted rate, through printing and conversion |
| `PricePoster.dfy`, `PosterRuns.dfy` | the oracle client against a small chain, and all of its runs under faults |
| `EventStream.dfy` | the two loops of the event stream |
| `FeederSystem.dfy` | all goroutines together, and the shutdown |
| `Feeder.dfy` | the voting-period handler, and what a committed vote contains |
| `WholeRun.dfy` | goroutines, voting handler, client, network and chain in one state, and what is accepted on chain |
| `Progress.dfy` | what the running whole can always still do: take prices and parameters, serve voting periods, stop |

## How to read it

* Sequential code is a class or a method with the source's loops, proved equal to a function; the laws are lemmas about
  that function. Go's random map iteration is an arbitrary choice, so a contract holds for every order.
* Concurrent code is a state machine. A step is one atomic action of a goroutine: taking a branch of a select, a
  channel operation, closing a signal, or the return of a call. A select with several ready branches may take any of
  them, also after its stop signal was closed; that a stop branch is eventually picked is the scheduler's part. The histories in the states record what happened; no step reads them.
  What is said to be possible is shown by a schedule that does it.
  `PriceProvider.HandleUpdates`, `StampPrices`, `Stream.HandleMessage` and `Stream.HandleParams` are the code of the
  steps that do more than one operation.
* Prices are exact reals. `math.Sqrt` is a parameter that returns the non-negative root; the specification compares
  squares and `WithinByRoot` shows that both decide alike. `strconv.FormatFloat` is a parameter: any function that
  yields a well-formed numeral within a stated relative error of the price, prints zero as zero and never inverts an
  order. Statements about "the printed price" are about its result; `Rates` carries them over to the price itself.
* The chain keeps, per validator, one stored prevote. A transaction is atomic, a vote is accepted only if it opens the
  stored hash, and a prevote overwrites it. The vote hash is idealised as injective. A broadcast is acknowledged or
  not, and lands now, later or never, in every combination; a query may answer truthfully, fail or lie. A client may
  start in front of a chain and a network that still hold what earlier lives of it left behind.
* Where documentation and code disagree, the code is followed: the comment on the aggregate `GetPrice` promises the
  first available price, the code consolidates all valid ones; the comment on `ParamsFromOracleParams` promises a panic
  on invalid pairs, the code copies them.

## Results that are false as one might expect them

* A majority of sources inside an interval does not keep the price inside it (`MajorityRangeIsNotEnough`). What does is
  three quarters of them: for n prices of which j are stray, the interval is kept exactly if 4j <= n
  (`BandTolerance`), while agreement on one value is kept exactly if 2j < n (`ValueTolerance`).
* A delivered and acknowledged transaction does not always synchronise client and chain: if the query vouches falsely
  for the remembered prevote, the chain rejects the whole transaction. `DeliveredCallSynchronises` has the exact
  case, `MisledClient` a run into it.
* A vote period of zero brings the process down; `PanicsIffFatal` says exactly when, `ZeroPeriodPanics` is such a run.

## Model

| member | source | states |
|---|---|---|
| Types.Params.Equal | types/params.go:30-43 | reports equality exactly when the parameters are the same, pair by pair |
| Types.ParamsFromOracleParams | types/params.go:10-20 | keeps the whitelist in order and the vote period |
| Statistics.SurvivesIff | feeder/priceprovider/aggregateprovider.go:117-130 | which price passes the one-sigma test, characterised without mean, variance or root |
| Statistics.SurvivorMultiplicity | feeder/priceprovider/aggregateprovider.go:117-130 | survivors are exactly the prices within one standard deviation, each as often as reported |
| Statistics.FilterNeverStarves | feeder/priceprovider/aggregateprovider.go:109-112 | at least two prices always survive, so the empty branch is dead |
| Sequences.SortSorts | feeder/priceprovider/aggregateprovider.go:134 | the sort orders the slice and keeps the multiset |
| Sequences.SortFloats | feeder/priceprovider/aggregateprovider.go:134 | the in-place sort computes that sort of the old contents |
| Consensus.OrderIndependent | feeder/priceprovider/aggregateprovider.go:91-156 | filter and consolidated value do not depend on the order of the prices |
| Consensus.MajoritySurvives | feeder/priceprovider/aggregateprovider.go:117-130 | a price reported by at least half of the sources is never an outlier |
| Consensus.StrictMajorityWins | feeder/priceprovider/aggregateprovider.go:91-156 | a strict majority fixes the consolidated value exactly, whatever the others report |
| Consensus.MajorityRangeIsNotEnough | feeder/priceprovider/aggregateprovider.go:91-156 | concrete prices whose majority lies in [0, 1] and whose result does not; the exact condition is that of `BandTolerance` |
| Bands.OutlierSide | feeder/priceprovider/aggregateprovider.go:117-130 | the prices on the far side of a discarded price, itself included, are fewer than half |
| Bands.QuarterBound | feeder/priceprovider/aggregateprovider.go:91-156 | if at most a quarter of the prices lies beyond a bound, above or below, the consolidated value does not |
| Bands.BandTolerance | feeder/priceprovider/aggregateprovider.go:91-156 | n prices with j outside a proper interval always consolidate inside it iff 4j <= n |
| Bands.CeilingTolerance | feeder/priceprovider/aggregateprovider.go:91-156 | n prices with j above a bound never consolidate above it iff 4j <= n |
| Bands.ValueTolerance | feeder/priceprovider/aggregateprovider.go:91-156 | n prices with j differing from a value always consolidate to it iff 2j < n |
| Bands.StrayPrices | feeder/priceprovider/aggregateprovider.go:91-156 | for any j above a quarter of n, n prices with exactly j above the interval that consolidate above it |
| Robustness.CampSurvivesIff | feeder/priceprovider/aggregateprovider.go:117-130 | with two values in play, one is discarded iff the other has a strict majority |
| Robustness.TwoCampOutcome | feeder/priceprovider/aggregateprovider.go:91-156 | the result of a two-value vote: the majority's value, or the midpoint of a tie |
| Robustness.LoneRogueDiscarded | feeder/priceprovider/aggregateprovider.go:117-130 | of three or more sources the single dissenter is discarded and nobody else |
| Robustness.AffineEquivariant | feeder/priceprovider/aggregateprovider.go:91-156 | a change of units keeps the survivors in place and converts the result |
| Robustness.RobustLocation | feeder/priceprovider/aggregateprovider.go:91-140 | the result lies among the prices, within one deviation of the mean, with half the survivors on each side |
| Aggregate.WithinByRoot | feeder/priceprovider/aggregateprovider.go:121 | comparing with the root decides like comparing squares |
| Aggregate.VisitOrderIrrelevant | feeder/priceprovider/aggregateprovider.go:54-69 | every iteration order of the provider map gives the same price record |
| Aggregate.AggregateValidIff | feeder/priceprovider/aggregateprovider.go:54-81 | valid iff some provider is valid, for the asked pair, between two valid answers; else the missing record with price 0; a single valid answer is passed on, more are marked consolidated |
| Aggregate.AggregateOfEntries | feeder/priceprovider/aggregateprovider.go:54-114 | the answer is the consolidated value of the valid prices in any order; counted over the providers, more than half at a value fix it and a quarter beyond a bound do not move it there |
| Aggregate.AggregateConsensus | feeder/priceprovider/aggregateprovider.go:54-114 | a strict majority of the valid answers decides the aggregate price |
| Aggregate.AggregatePriceProvider.GetPrice | feeder/priceprovider/aggregateprovider.go:54-81 | with an arbitrary visiting order, the returned record is that of every order; told by the caches: valid iff some entry is under 15 s old at its reading, and the consolidated value of exactly those entries |
| Aggregate.AggregatePriceProvider.ComputeConsolidatedPrice | feeder/priceprovider/aggregateprovider.go:91-114 | the branches and the in-place median compute the specified record |
| Aggregate.AggregatePriceProvider.RemoveOutliers | feeder/priceprovider/aggregateprovider.go:117-130 | the loop over roots returns exactly the survivors |
| Aggregate.AggregatePriceProvider.MedianInPlace | feeder/priceprovider/aggregateprovider.go:133-140 | returns the median of the old slice and leaves it sorted |
| Aggregate.AggregatePriceProvider.MeanAndStdDev | feeder/priceprovider/aggregateprovider.go:143-156 | returns the mean and the root of the sample variance |
| PriceSource.RunKeepsInv | feeder/priceprovider/priceprovider.go:88-104 | over every run the cache replays the received batches, which are those produced in time order, and exits follow the stop signals |
| PriceSource.AnswerIsFreshHistory | feeder/priceprovider/priceprovider.go:109-134 | a query is valid iff the pair is mapped and its latest entry is under 15 s old, and returns that entry's price |
| PriceSource.ProducedAreFetched | feeder/priceprovider/sources/tick_source.go:46-81 | the batches produced are those the fetches of the run returned, in order |
| PriceSource.BlockedSendDelivers | feeder/priceprovider/priceprovider.go:96-101 | a source blocked in a send in front of a selecting provider has a step that puts its batch into the cache |
| PriceSource.BatchArrives | feeder/priceprovider/priceprovider.go:92-102 | whatever the source is doing, any batch it may fetch can reach the cache of a selecting provider |
| PriceSource.TimesNeverDecrease | feeder/priceprovider/priceprovider.go:97-101 | a cached price is only replaced by one at least as recent |
| PriceSource.StampPrices | feeder/priceprovider/sources/tick_source.go:63-69 | every fetched price is kept and stamped with a time inside the loop |
| PriceSource.PriceProvider.HandleUpdates | feeder/priceprovider/priceprovider.go:96-101 | the update loop overlays the cache with the batch, in any order |
| PriceSource.PriceProvider.GetPrice | feeder/priceprovider/priceprovider.go:109-134 | unmapped: -1 and invalid; mapped without entry: 0 and invalid; else the cached price, valid iff under 15 s old |
| PriceSource.MapValues | feeder/priceprovider/priceprovider.go:142-148 | the set of the map's values |
| Decimal.Float64ToDec | feeder/priceposter/oracle.go:125-148 | the code computes the string conversion, which never panics and rounds the printed price toward zero |
| Decimal.ConvertNumeral | feeder/priceposter/oracle.go:129-147 | splitting, cutting to 18 digits, rejoining and parsing a printed number is rounding toward zero |
| DecimalLaws.ConversionRounds | feeder/priceposter/oracle.go:125-148 | the rate is the only decimal no larger in magnitude, less than 10^-18 away and not of opposite sign |
| DecimalLaws.ConversionMonotone | feeder/priceposter/oracle.go:125-148 | a larger printed number never converts to a smaller rate |
| DecimalLaws.ZeroRateIff | feeder/priceposter/oracle.go:137-147 | a rate is zero exactly if the printed number is below 10^-18 in magnitude |
| DecimalLaws.PrintRoundTrip | feeder/priceposter/oracle.go:127-147 | a decimal printed without trailing zeros converts back to itself |
| DecimalLaws.ConversionIdempotent | feeder/priceposter/oracle.go:127-147 | converting the printed result again changes nothing |
| Rates.RateMonotone | feeder/priceposter/oracle.go:125-148 | a larger price never gets a smaller rate |
| Rates.RateOfPrice | feeder/priceposter/oracle.go:125-148 | the rate misses the price by less than 10^-18 and the printing error, is zero for prices below and keeps the sign of prices above 10^-18 by that error |
| Rates.FormatterExists | feeder/priceposter/oracle.go:127 | the demands on the printer can be met |
| PricePoster.NewPrevote | feeder/priceposter/oracle.go:97-123 | commits to the pairs and rounded rates of the prices, in order |
| PricePoster.Client.PrepareVote | feeder/priceposter/oracle.go:58-89 | a vote is prepared only if the answered hash is that of the remembered prevote |
| PricePoster.Client.CastVote | feeder/priceposter/oracle.go:24-56 | the broadcast transaction is the optional vote followed by the new prevote |
| PricePoster.Client.SendPrices | feeder/priceposter/client.go:121-138 | one call is one step of the system; the new prevote is remembered only on success |
| PosterRuns.RevealThenCommitAccepted | feeder/priceposter/oracle.go:42-55 | with an unchanged chain the transaction is accepted, stores the new prevote and reveals iff client and chain agree |
| PosterRuns.CommitThenRevealRejected | feeder/priceposter/oracle.go:45-48 | the swapped order is accepted only if both hashes coincide |
| PosterRuns.RevealsAreFaithful | feeder/priceposter/client.go:121-138 | over every run with faults each accepted vote opens a landed prevote with content a client of the validator committed, none twice, also with transactions of earlier lives still under way |
| PosterRuns.RestartIsStart | feeder/priceposter/client.go:121-138 | a restart at any moment of any run, and an empty chain, are start states of these theorems |
| PosterRuns.RevealOpensLatest | feeder/priceposter/oracle.go:77-88 | an accepted vote opens the prevote that landed last before it |
| PosterRuns.DeliveredCallSynchronises | feeder/priceposter/client.go:127-135 | a delivered and acknowledged call makes client and chain agree, except when misled by the query |
| PosterRuns.MisledClient | feeder/priceposter/oracle.go:69-88 | an expired prevote that the query still reports misleads the client after any landed call |
| PosterRuns.LateLandingIsLanding | feeder/priceposter/client.go:127-135 | a broadcast that lands late with nothing in between has the effect of landing at once |
| PosterRuns.SelfHealing | feeder/priceposter/client.go:127-135 | two fault-free calls from any state reveal the first call's prices |
| PosterRuns.FaultFreeStretch | feeder/priceposter/client.go:121-138 | a fault-free stretch reveals all of its calls but the last, in order and without a gap |
| PosterRuns.BoundedLoss | feeder/priceposter/client.go:121-138 | over every run the calls without an accepted vote are at most one plus the cost of the faults: two for an acknowledged broadcast that does not land, one for any other |
| PosterRuns.BoundedLossIsTight | feeder/priceposter/client.go:121-138 | an acknowledged broadcast that never lands does cost two |
| EventStream.ParamsRefinement | feeder/eventstream/stream.go:141-166 | received, buffered and blocked parameters are the fetched history without repetitions; after stop a subsequence of it |
| EventStream.NoRepeatedParams | feeder/eventstream/stream.go:150-154 | before stop the feeder never gets the same parameters twice in a row |
| EventStream.HistoriesAreTaken | feeder/eventstream/stream.go:86-154 | over every run each message meets the parameters fetched last before it |
| EventStream.SignalsAreExact | feeder/eventstream/stream.go:86-117 | delivered and blocked signals are, in order, exactly the heights h+1 after messages with height h > 0 whose last fetched parameters have a positive vote period dividing h+1 |
| EventStream.MessageHandled | feeder/eventstream/stream.go:90-117 | a listening loop takes any message, and signals, panics or goes on listening by its height and the loaded parameters alone |
| EventStream.ContiguousSignals | feeder/eventstream/stream.go:105-115 | for contiguous blocks and a constant period: which heights are signalled, how many and how far apart |
| EventStream.PanicsIffFatal | feeder/eventstream/stream.go:92-107 | over every run the voting loop panics iff it handles a positive height while the loaded vote period is zero, and then handles nothing more |
| EventStream.PanicNeedsZeroPeriod | feeder/eventstream/stream.go:101-107 | over every run such a panic needs a fetched vote period of zero |
| EventStream.ZeroPeriodPanics | feeder/eventstream/stream.go:92-107 | a run of four steps ends in the panic |
| EventStream.Stream.HandleMessage | feeder/eventstream/stream.go:90-117 | the code of the message branch takes the specified step: nothing without a positive height and parameters, a panic for period zero, else a signal iff the period divides h+1 |
| EventStream.Stream.HandleParams | feeder/eventstream/stream.go:144-154 | fetch result, atomic swap and change test take the specified step |
| EventStream.Stream.ForwardParams | feeder/eventstream/stream.go:156-161 | the inner select sends or, once stopped, drops |
| FeederSystem.RunKeepsInv | feeder/feeder.go:62-86 | over every run of all goroutines: the component invariants, and which of them is stopped or has exited at which closing stage |
| FeederSystem.StreamRuns | feeder/feeder.go:62-78 | within the process the stream makes runs of its own, so its results apply |
| FeederSystem.ProviderRuns | feeder/priceprovider/priceprovider.go:88-104 | so does every provider with its source |
| FeederSystem.StepDistance | feeder/feeder.go:62-111 | every step starts work at a cost of two or strictly lowers the distance to the end |
| FeederSystem.ShutdownProgresses | feeder/feeder.go:62-111 | after f.stop, whatever anyone is blocked on, a step that lowers the distance is enabled until done |
| FeederSystem.ShutdownBudget | feeder/feeder.go:62-86 | closing steps of any run are bounded by the distance and twice the work started |
| FeederSystem.RestingPlace | feeder/feeder.go:81-86 | after f.stop the only state in which nothing but new work is enabled is done |
| FeederSystem.ShutdownCompletes | feeder/feeder.go:81-111 | from every state after f.stop the shutdown can finish within the distance |
| FeederSystem.DoneMeansAllExited | feeder/feeder.go:81-86 | when f.done is closed, both stream loops and all providers and tick sources have exited |
| FeederSystem.CrashNeedsZeroPeriod | feeder/feeder.go:51-58 | in this model, which leaves out the panics listed below, the process dies only by the init timeout or a vote period of zero |
| FeederSystem.FeederParamsCurrent | feeder/feeder.go:88-90 | the feeder uses the latest received parameters, at most two changes behind, current when nothing is in flight |
| Feeder.Feeder.GatherPrices | feeder/feeder.go:92-102 | the loop asks for every pair in order and zeroes invalid prices |
| Feeder.Feeder.HandleVotingPeriod | feeder/feeder.go:92-106 | one voting period commits to exactly the gathered prices |
| Feeder.VoteContent | feeder/feeder.go:92-106 | committed tuples match the pairs in order; the answers are those the caches call for; a rate is zero iff the answer was invalid or printed below 10^-18, and else within 10^-18 and the printing error of the answer |
| Feeder.AggregateOfFreshPrices | feeder/priceprovider/aggregateprovider.go:54-81 | the aggregate is valid iff some provider freshly received a price; it is the consolidated value of all such prices and lies between two of them |
| WholeRun.RunKeepsInv | feeder/feeder.go:62-106 | over every run of all parts together: the finished voting periods are the delivered signals in order, each with the parameters in force and the vote computed from the providers as they were asked, and the client's calls are exactly theirs |
| WholeRun.VoteOfFeeder | feeder/feeder.go:92-106 | for equal caches and readings the vote of the whole is that of the feeder's code |
| WholeRun.QuoteBacked | feeder/feeder.go:95-102 | the rate for a pair is that of the consolidated value of the prices freshly received by running providers, which tolerates stray ones, or zero if none received one |
| WholeRun.AcceptedVotesAreBacked | feeder/feeder.go:62-106 | over every run, a vote accepted on chain stems from an earlier life or from a signalled voting period, names the pairs in force in order, and each rate is that of the consolidated value of the prices received less than 15 s before, with its tolerance of stray providers, or zero if no provider had one |
| WholeRun.RoundsAreDue | feeder/feeder.go:73-75 | over every run the periods voted on, in hand and blocked are exactly those after the due blocks, in order |
| WholeRun.ProcessRuns | feeder/feeder.go:62-78 | within the whole the process makes runs of its own, so its results apply |
| Progress.SignalHandled | feeder/feeder.go:73-75 | a looping feeder in front of a blocked signal can serve it: exactly one round more, for its height, with the parameters in force and the providers as they are, and its call |
| Progress.HandlerFinishes | feeder/feeder.go:92-106 | a voting period can be finished from any point of the handler |
| Progress.PricesArrive | feeder/priceprovider/priceprovider.go:92-102 | any batch that a running source may fetch can reach the cache |
| Progress.ParamsArrive | feeder/feeder.go:51-72 | any parameters the chain may answer with can come into force, at the start and later |
| Progress.EveryPeriodIsServed | feeder/feeder.go:62-106 | from every state that is not stopped, crashed or in mid-period, any next parameters and any block due under them lead to a round with them |
| Progress.TwoPeriodsReveal | feeder/priceposter/client.go:121-138 | two periods served with fault-free calls reveal the first one's vote on chain |
| Progress.StoppedFinishes | feeder/feeder.go:81-111 | after f.stop the whole can finish, also from the middle of a voting period |

## Left out

- Exchange fetchers other than the tick source: a fetch is an arbitrary result that returns, an error or a batch.
- Signing, gRPC, TLS and keys: a broadcast is only its outcome. Their panics are left out, as are those of `ToString` and `rand.Int` in `newPrevote`, of the decimal parser on too large magnitudes, and those while the components are constructed.
- The websocket and its JSON: block messages are a height or an error; `ws.close`, which runs after the voting loop has reported its exit, is not waited for by anyone in the model.
- IEEE rounding, NaN and infinities, and the magnitudes the chain's decimal library rejects: prices are exact reals, decimals unbounded integers.
- The decimal library and `ExchangeRateTuples.ToString` are not part of this repository: the parser follows its documented format for digits, and the vote string is the tuple list itself.
- The hash function and the salt's randomness: the hash is injective, the salt arbitrary.
- On-chain reveal windows, tallying, fees, sequence numbers and the feeder's delegation: the chain is the stored prevote, the check and the overwrite.
- `SortFloats`: `sort.Float64s` is a library call; an insertion sort stands for it, with the same result.
- `PriceProvider.GetPrice` inside one aggregate query runs without interleaved cache updates; each provider is asked once, so its answer only depends on its cache at that moment.
- The mutex of the cache: an update and a lookup are atomic.
- Calling `Close` twice, and closing the feeder before `Run` has returned.
- `WholeRun`: the query and the broadcast of one call are one step; what happens between them on chain is covered by queries that answer anything.
- The timing of the tickers and of the fetch timeouts: ticks may come at any moment.
- Metrics, logging, configuration, commands, mocks and `tryUntilDone`.
