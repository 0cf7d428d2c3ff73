/** Values shared by the components of the price feeder: prices, symbols and the oracle parameters. */
module Types {
  datatype Option<+T> = None | Some(value: T)

  /** A currency pair of the chain's registry; only equality of pairs is ever used. */
  type Pair = string

  /** The ticker name used by a third party exchange. */
  type Symbol = string

  /** Nanoseconds of a monotonic clock. */
  type Time = int

  const SECOND: Time := 1_000_000_000
  const PRICE_TIMEOUT: Time := 15 * SECOND

  /** An exchange price and the time it was fetched. Prices are exact reals. */
  datatype RawPrice = RawPrice(price: real, updateTime: Time)

  datatype Price = Price(pair: Pair, price: real, sourceName: string, valid: bool)

  /** The part of the chain's oracle parameters that the feeder looks at. */
  datatype OracleParams = OracleParams(whitelist: seq<Pair>, votePeriod: nat)

  datatype Params = Params(pairs: seq<Pair>, votePeriodBlocks: nat) {

    /** The change test of the parameters loop: it never misses a change and never reports a false one. */
    method Equal(params: Params) returns (equal: bool)
      ensures equal <==> this == params
    {
      if votePeriodBlocks != params.votePeriodBlocks {
        return false;
      }
      if |pairs| != |params.pairs| {
        return false;
      }
      for i := 0 to |pairs|
        invariant pairs[..i] == params.pairs[..i]
      {
        if pairs[i] != params.pairs[i] {
          return false;
        }
        assert pairs[..i + 1] == params.pairs[..i] + [pairs[i]];
      }
      assert pairs == pairs[..|pairs|] == params.pairs[..|pairs|] == params.pairs;
      return true;
    }
  }

  method ParamsFromOracleParams(p: OracleParams) returns (params: Params)
    ensures params.pairs == p.whitelist && params.votePeriodBlocks == p.votePeriod
  {
    var pairs := new Pair[|p.whitelist|];
    for i := 0 to |p.whitelist|
      invariant pairs[..i] == p.whitelist[..i]
    {
      pairs[i] := p.whitelist[i];
      assert pairs[..i + 1] == p.whitelist[..i] + [p.whitelist[i]];
    }
    assert pairs[..] == pairs[..|p.whitelist|] == p.whitelist;
    return Params(pairs[..], p.votePeriod);
  }
}
