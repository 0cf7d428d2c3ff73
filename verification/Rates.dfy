/** From the price to the posted rate: printing and conversion together. */
module Rates {
  import opened Decimal
  import opened DecimalLaws
  import opened PricePoster

  /** A larger price never gets a smaller rate. */
  lemma RateMonotone(format: real -> Numeral, x: real, y: real)
    requires IsFormatter(format) && x <= y
    ensures Rate(x, format) <= Rate(y, format)
  {
    TruncatedMonotone(format(x).Value(), format(y).Value(), SCALE);
  }

  lemma RateRounds(format: real -> Numeral, price: real)
    requires IsFormatter(format)
    ensures RoundsTowardZero(format(price).Value(), Rate(price, format), SCALE)
  {
    RoundsIff(format(price).Value(), Rate(price, format), SCALE);
  }

  lemma UnitRates(r: int)
    ensures r != 0 <==> Abs(FromDec(r)) >= FromDec(1)
    ensures FromDec(1) == 1.0 / SCALE as real && FromDec(r) == r as real / SCALE as real
  {
    ScaleCompare(r, FromDec(1), SCALE as real);
    ScaleCompare(r, -FromDec(1), SCALE as real);
  }

  /** The posted rate misses the price by less than one unit of 10^-18 and the printing error. It is zero for every
      price that stays below one unit with that error, and keeps the sign of every price that stays above. */
  lemma RateOfPrice(format: real -> Numeral, price: real)
    requires IsFormatter(format)
    ensures var rate, error := Rate(price, format), PrintError(price);
            && Abs(FromDec(rate) - price) < FromDec(1) + error
            && (Abs(price) + error < FromDec(1) ==> rate == 0)
            && (Abs(price) - error >= FromDec(1) ==> rate != 0 && (rate > 0 <==> price > 0.0))
  {
    RateRounds(format, price);
    UnitRates(Rate(price, format));
  }

  // ---------- a formatter ----------

  const DIGITS: nat := 36

  /** Prints the price cut to 36 digits after the point. */
  ghost function Fixed(): real -> Numeral {
    x => PrintUnits(x < 0.0, Magnitude(Truncated(x, Pow10(DIGITS))), DIGITS)
  }

  lemma ScaledRatio(all: nat, p: nat, rest: nat, scale: nat)
    requires p >= 1 && scale >= 1 && p * rest == scale
    ensures Ratio(all, p) == Ratio(all * rest, scale)
  {
    assert scale as real == p as real * rest as real;
    assert (all * rest) as real == all as real * rest as real;
    var x := Ratio(all, p);
    assert x * p as real == all as real;
    assert x * scale as real == (x * p as real) * rest as real;
  }

  lemma NumeralMagnitude(n: Numeral, precision: nat)
    requires n.Valid() && |n.decPart| <= precision
    ensures n.Magnitude() == Ratio(Units(n, precision), Pow10(precision))
  {
    var rest := precision - |n.decPart|;
    PowSplit(|n.decPart|, rest);
    ScaledRatio(DigitValue(n.intPart + n.decPart), Pow10(|n.decPart|), Pow10(rest), Pow10(precision));
  }

  lemma PrintUnitsMagnitude(negative: bool, units: nat, precision: nat)
    ensures var n := PrintUnits(negative, units, precision);
            n.Valid() && n.Magnitude() == Ratio(units, Pow10(precision))
  {
    PrintUnitsValid(negative, units, precision);
    PrintUnitsExact(negative, units, precision);
    NumeralMagnitude(PrintUnits(negative, units, precision), precision);
  }

  lemma TruncatedSign(x: real, scale: nat)
    ensures x >= 0.0 ==> Truncated(x, scale) >= 0
    ensures x < 0.0 ==> Truncated(x, scale) <= 0
  {
    FloorMonotone(Abs(x), Abs(x), scale);
  }

  lemma SignedRatio(r: int, scale: nat)
    requires scale >= 1
    ensures r as real / scale as real == if r < 0 then -Ratio(-r, scale) else Ratio(r, scale)
    ensures r == 0 ==> -Ratio(0, scale) == 0.0
  {
    UnitStep(r, scale as real);
  }

  lemma PrintedValue(x: real, precision: nat)
    ensures var r, scale := Truncated(x, Pow10(precision)), Pow10(precision);
            var n := PrintUnits(x < 0.0, Magnitude(r), precision);
            n.Valid() && n.Value() == r as real / scale as real
  {
    var r := Truncated(x, Pow10(precision));
    TruncatedSign(x, Pow10(precision));
    SignedPrint(x < 0.0, r, precision);
  }

  lemma SignedPrint(negative: bool, r: int, precision: nat)
    requires if negative then r <= 0 else r >= 0
    ensures var n := PrintUnits(negative, Magnitude(r), precision);
            n.Valid() && n.Value() == r as real / Pow10(precision) as real
  {
    PrintUnitsMagnitude(negative, Magnitude(r), precision);
    SignedRatio(r, Pow10(precision));
  }

  lemma PrintedClose(x: real, scale: nat)
    requires scale == SCALE * SCALE
    ensures Abs(Truncated(x, scale) as real / scale as real - x) <= PrintError(x)
  {
    RoundsIff(x, Truncated(x, scale), scale);
    assert Abs(x) * RELATIVE >= 0.0;
  }

  lemma PrintedMonotone(x: real, y: real, scale: nat)
    requires x <= y && scale >= 1
    ensures Truncated(x, scale) as real / scale as real <= Truncated(y, scale) as real / scale as real
  {
    TruncatedMonotone(x, y, scale);
    ScaleCompare(Truncated(x, scale), Truncated(y, scale) as real / scale as real, scale as real);
  }

  lemma DigitsScale()
    ensures Pow10(DIGITS) == SCALE * SCALE
  {
    ScaleIsPower();
    PowSplit(PRECISION, PRECISION);
  }

  lemma FixedAt(x: real)
    ensures Fixed()(x).Valid() && Abs(Fixed()(x).Value() - x) <= PrintError(x)
  {
    DigitsScale();
    PrintedValue(x, DIGITS);
    PrintedClose(x, Pow10(DIGITS));
  }

  lemma FixedAtZero()
    ensures Fixed()(0.0).Valid() && Fixed()(0.0).Value() == 0.0
  {
    PrintedValue(0.0, DIGITS);
    RoundsIff(0.0, 0, Pow10(DIGITS));
  }

  lemma FixedMonotone(x: real, y: real)
    requires x <= y
    ensures Fixed()(x).Valid() && Fixed()(y).Valid() && Fixed()(x).Value() <= Fixed()(y).Value()
  {
    PrintedValue(x, DIGITS);
    PrintedValue(y, DIGITS);
    PrintedMonotone(x, y, Pow10(DIGITS));
  }

  /** What is demanded of a formatter can be met. */
  lemma FormatterExists()
    ensures IsFormatter(Fixed())
  {
    forall x ensures Fixed()(x).Valid() && Abs(Fixed()(x).Value() - x) <= PrintError(x) {
      FixedAt(x);
    }
    FixedAtZero();
    forall x: real, y: real | x <= y ensures Fixed()(x).Value() <= Fixed()(y).Value() {
      FixedMonotone(x, y);
    }
  }
}
