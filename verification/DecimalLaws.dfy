/** What the decimal conversion guarantees: tight rounding toward zero, monotonicity and the printing round trip. */
module DecimalLaws {
  import opened Types
  import opened Arithmetic
  import opened Decimal

  /** r / scale is x rounded toward zero: no larger in magnitude, less than one unit away, never of opposite sign. */
  ghost predicate RoundsTowardZero(x: real, r: int, scale: nat)
    requires scale >= 1
  {
    var y := r as real / scale as real;
    && Abs(y) <= Abs(x)
    && Abs(x - y) < 1.0 / scale as real
    && (r > 0 ==> x > 0.0) && (r < 0 ==> x < 0.0)
  }

  lemma ScaleCompare(r: int, x: real, s: real)
    requires s > 0.0
    ensures r as real / s <= x <==> r as real <= x * s
    ensures x < r as real / s <==> x * s < r as real
  {
    var y := r as real / s;
    assert y * s == r as real;
    assert (x - y) * s == x * s - r as real;
    assert x >= y ==> (x - y) * s >= 0.0;
    assert x < y ==> (y - x) * s > 0.0;
  }

  lemma UnitStep(r: int, s: real)
    requires s > 0.0
    ensures (r + 1) as real / s == r as real / s + 1.0 / s
    ensures (-r) as real / s == -(r as real / s)
    ensures r >= 0 <==> r as real / s >= 0.0
    ensures 1.0 / s > 0.0
  {}

  lemma RoundsNonneg(x: real, r: int, scale: nat)
    requires scale >= 1 && x >= 0.0
    ensures RoundsTowardZero(x, r, scale) <==> r == FloorAt(x, scale)
  {
    var s := scale as real;
    assert x * s >= 0.0;
    ScaleCompare(r, x, s);
    ScaleCompare(r + 1, x, s);
    UnitStep(r, s);
    assert r == FloorAt(x, scale) <==> r as real <= x * s < (r + 1) as real;
    assert r > 0 ==> (x > 0.0 || x * s < r as real);
  }

  lemma RoundsMirror(x: real, r: int, scale: nat)
    requires scale >= 1
    ensures RoundsTowardZero(-x, -r, scale) <==> RoundsTowardZero(x, r, scale)
  {
    UnitStep(r, scale as real);
  }

  lemma RoundsIff(x: real, r: int, scale: nat)
    requires scale >= 1
    ensures RoundsTowardZero(x, r, scale) <==> r == Truncated(x, scale)
  {
    if x >= 0.0 {
      RoundsNonneg(x, r, scale);
    } else {
      RoundsNonneg(-x, -r, scale);
      RoundsMirror(x, r, scale);
    }
  }

  /** The string conversion yields the one and only decimal that rounds the printed price toward zero. */
  lemma ConversionRounds(n: Numeral, r: int)
    requires n.Valid()
    ensures Convert(n.Text()) == Some(r) <==> RoundsTowardZero(n.Value(), r, SCALE)
  {
    ConvertNumeral(n);
    RoundsIff(n.Value(), r, SCALE);
  }

  lemma FloorMonotone(x: real, y: real, scale: nat)
    requires x <= y
    ensures FloorAt(x, scale) <= FloorAt(y, scale)
    ensures 0.0 <= x ==> 0 <= FloorAt(x, scale)
  {
    assert (y - x) * scale as real >= 0.0;
    assert (y - x) * scale as real == y * scale as real - x * scale as real;
    assert 0.0 <= x ==> x * scale as real >= 0.0;
  }

  lemma TruncatedMonotone(x: real, y: real, scale: nat)
    requires x <= y
    ensures Truncated(x, scale) <= Truncated(y, scale)
  {
    if x >= 0.0 || y < 0.0 {
      if x >= 0.0 { FloorMonotone(x, y, scale); } else { FloorMonotone(-y, -x, scale); }
    } else {
      FloorMonotone(-x, -x, scale);
      FloorMonotone(y, y, scale);
    }
  }

  /** A larger price is never posted as a smaller rate. */
  lemma ConversionMonotone(n: Numeral, m: Numeral)
    requires n.Valid() && m.Valid() && n.Value() <= m.Value()
    ensures Convert(n.Text()).Some? && Convert(m.Text()).Some? && Convert(n.Text()).value <= Convert(m.Text()).value
  {
    ConvertNumeral(n);
    ConvertNumeral(m);
    TruncatedMonotone(n.Value(), m.Value(), SCALE);
  }

  /** A rate is zero exactly for prices below one unit of 10^-18 in magnitude. */
  lemma ZeroRateIff(n: Numeral)
    requires n.Valid()
    ensures Convert(n.Text()) == Some(0) <==> Abs(n.Value()) < FromDec(1)
  {
    ConversionRounds(n, 0);
    assert 0 as real / SCALE as real == 0.0;
  }

  lemma OneUnit()
    ensures FromDec(1) > 0.0
  {}

  // ---------- printing a decimal ----------

  function DigitChar(d: nat): char
    requires d < 10
  {
    '0' + d as char
  }

  /** n with at least width digits. */
  function PrintNat(n: nat, width: nat): (s: string)
    ensures Digits(s) && |s| >= width
    decreases n + width
  {
    if n == 0 && width == 0 then ""
    else PrintNat(n / 10, if width > 0 then width - 1 else 0) + [DigitChar(n % 10)]
  }

  lemma {:induction false} PrintNatValue(n: nat, width: nat)
    ensures DigitValue(PrintNat(n, width)) == n
    ensures n < Pow10(width) ==> |PrintNat(n, width)| == width
    decreases n + width
  {
    if n != 0 || width != 0 {
      PrintNatValue(n / 10, if width > 0 then width - 1 else 0);
    }
  }

  function DropTrailingZeros(s: string): (t: string)
    ensures |t| <= |s| && t == s[..|t|]
  {
    if s != "" && s[|s| - 1] == '0' then DropTrailingZeros(s[..|s| - 1]) else s
  }

  lemma {:induction false} DroppedZeros(s: string)
    ensures var t := DropTrailingZeros(s);
            && (forall i :: |t| <= i < |s| ==> s[i] == '0')
            && (t != "" ==> t[|t| - 1] != '0')
  {
    if s != "" && s[|s| - 1] == '0' {
      DroppedZeros(s[..|s| - 1]);
    }
  }

  /** Dropping trailing zeros of a fraction leaves its contribution to the digits unchanged. */
  lemma DroppedValue(whole: string, fraction: string, q: nat, m: nat)
    requires Digits(whole) && Digits(fraction) && DigitValue(whole) == q && DigitValue(fraction) == m
    ensures var t := DropTrailingZeros(fraction);
            && Digits(t) && Digits(whole + t)
            && DigitValue(whole + t) * Pow10(|fraction| - |t|) == q * Pow10(|fraction|) + m
  {
    var t := DropTrailingZeros(fraction);
    DroppedZeros(fraction);
    assert whole + fraction == (whole + t) + Zeros(|fraction| - |t|);
    PaddedValue(whole + t, |fraction| - |t|);
    DigitValueConcat(whole, fraction);
  }

  function PrintUnits(negative: bool, units: nat, precision: nat): Numeral {
    var scale := Pow10(precision);
    Numeral(negative, PrintNat(Quotient(units, scale), 1),
            DropTrailingZeros(PrintNat(Remainder(units, scale), precision)))
  }

  function Magnitude(r: int): nat { if r < 0 then -(r as int) else r }

  /** A chain decimal printed the way strconv.FormatFloat prints: no trailing zeros, at least one integer digit. */
  function Print(r: int): Numeral {
    PrintUnits(r < 0, Magnitude(r), PRECISION)
  }

  lemma PrintUnitsValid(negative: bool, units: nat, precision: nat)
    ensures var n := PrintUnits(negative, units, precision);
            && n.Valid() && |n.decPart| <= precision
            && (n.decPart != "" ==> n.decPart[|n.decPart| - 1] != '0')
  {
    var m := Remainder(units, Pow10(precision));
    PrintNatValue(m, precision);
    DroppedZeros(PrintNat(m, precision));
  }

  lemma PrintedParts(q: nat, m: nat, precision: nat)
    requires m < Pow10(precision)
    ensures var whole, t := PrintNat(q, 1), DropTrailingZeros(PrintNat(m, precision));
            && |t| <= precision && Digits(whole + t)
            && DigitValue(whole + t) * Pow10(precision - |t|) == q * Pow10(precision) + m
  {
    PrintNatValue(q, 1);
    PrintNatValue(m, precision);
    DroppedValue(PrintNat(q, 1), PrintNat(m, precision), q, m);
  }

  lemma PrintUnitsExact(negative: bool, units: nat, precision: nat)
    requires PrintUnits(negative, units, precision).Valid()
    ensures Units(PrintUnits(negative, units, precision), precision) == units
  {
    var n, scale := PrintUnits(negative, units, precision), Pow10(precision);
    PrintedParts(Quotient(units, scale), Remainder(units, scale), precision);
    calc {
      Units(n, precision);
      DigitValue(n.intPart + n.decPart) * Pow10(precision - |n.decPart|);
      Quotient(units, scale) * scale + Remainder(units, scale);
      units;
    }
  }

  lemma PrintParses(r: int)
    ensures Print(r).Valid() && ToDec(Print(r)) == r
  {
    PrintUnitsValid(r < 0, Magnitude(r), PRECISION);
    PrintUnitsExact(r < 0, Magnitude(r), PRECISION);
    UnitsTruncate(Print(r));
  }

  /** Round trip: any decimal printed without trailing zeros is converted back to itself by split, cut and parse. */
  lemma PrintRoundTrip(r: int)
    ensures Convert(Print(r).Text()) == Some(r)
    ensures var dec := Print(r).decPart; dec != "" ==> dec[|dec| - 1] != '0'
  {
    PrintParses(r);
    ConvertNumeral(Print(r));
    PrintUnitsValid(r < 0, Magnitude(r), PRECISION);
  }

  /** Printing the rate of a price and converting it again changes nothing. */
  lemma ConversionIdempotent(n: Numeral)
    requires n.Valid()
    ensures Convert(n.Text()).Some?
    ensures Convert(Print(Convert(n.Text()).value).Text()) == Convert(n.Text())
  {
    ConvertNumeral(n);
    PrintRoundTrip(ToDec(n));
  }
}
