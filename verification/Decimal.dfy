/** Turning a printed floating point number into the chain's decimal, an integer counting units of 10^-18. */
module Decimal {
  import opened Types

  const PRECISION: nat := 18

  function Pow10(n: nat): (p: nat)
    ensures p >= 1
  {
    if n == 0 then 1 else 10 * Pow10(n - 1)
  }

  /** Units of the chain's decimal in the number one. */
  const SCALE: nat := 1_000_000_000_000_000_000

  lemma ScaleIsPower()
    ensures Pow10(PRECISION) == SCALE
  {
    PowSplit(9, 9);
    assert Pow10(9) == 1_000_000_000;
  }

  predicate IsDigit(c: char) { '0' <= c <= '9' }

  predicate Digits(s: string) { forall i :: 0 <= i < |s| ==> IsDigit(s[i]) }

  function DigitValue(s: string): nat
    requires Digits(s)
  {
    if s == "" then 0 else 10 * DigitValue(s[..|s| - 1]) + (s[|s| - 1] as int - '0' as int)
  }

  function Zeros(n: nat): (s: string)
    ensures |s| == n && Digits(s)
  {
    seq(n, _ => '0')
  }

  ghost function Ratio(a: nat, b: nat): real
    requires b >= 1
  {
    a as real / b as real
  }

  /** A number as strconv.FormatFloat prints it in format 'f': sign, integer digits, fraction digits. */
  datatype Numeral = Numeral(negative: bool, intPart: string, decPart: string) {

    ghost predicate Valid() {
      Digits(intPart) && Digits(decPart) && intPart != ""
    }

    function Signed(): string { (if negative then "-" else "") + intPart }

    function Text(): string {
      if decPart == "" then Signed() else Signed() + "." + decPart
    }

    ghost function Magnitude(): real
      requires Valid()
    {
      Ratio(DigitValue(intPart + decPart), Pow10(|decPart|))
    }

    ghost function Value(): real
      requires Valid()
    {
      if negative then -Magnitude() else Magnitude()
    }
  }

  /** strings.Split for a one character separator. */
  function Split(s: string, sep: char): (parts: seq<string>)
    ensures parts != []
  {
    if s == "" then [""]
    else
      var parts := Split(s[..|s| - 1], sep);
      if s[|s| - 1] == sep then parts + [""]
      else parts[|parts| - 1 := parts[|parts| - 1] + [s[|s| - 1]]]
  }

  function WithSign(negative: bool, units: int): int { if negative then -units else units }

  function ParseUnsigned(str: string): Option<nat> {
    var parts := Split(str, '.');
    if str == "" || |parts| > 2 then None
    else
      var decimals := if |parts| == 2 then parts[1] else "";
      if |parts| == 2 && (parts[0] == "" || decimals == "") then None
      else if |decimals| > PRECISION then None
      else
        var combined := parts[0] + decimals + Zeros(PRECISION - |decimals|);
        if Digits(combined) then Some(DigitValue(combined)) else None
  }

  /** The decimal parser of the chain's library: None is its error, and the value counts units of 10^-18. */
  function ParseDec(text: string): Option<int> {
    if text == "" then None
    else
      var negative := text[0] == '-';
      match ParseUnsigned(if negative then text[1..] else text)
      case None => None
      case Some(units) => Some(WithSign(negative, units))
  }

  // ---------- the specification: rounding toward zero ----------

  ghost function FloorAt(x: real, scale: nat): int { (x * scale as real).Floor }

  ghost function Truncated(x: real, scale: nat): int {
    if x >= 0.0 then FloorAt(x, scale) else -FloorAt(-x, scale)
  }

  /** The chain's decimal for a printed number. */
  ghost function ToDec(n: Numeral): int
    requires n.Valid()
  {
    Truncated(n.Value(), SCALE)
  }

  /** The real number that a chain decimal stands for. */
  ghost function FromDec(r: int): real { r as real / SCALE as real }

  function Abs(x: real): real { if x < 0.0 then -x else x }

  // ---------- splitting ----------

  lemma {:induction false} SplitWithout(s: string, sep: char)
    requires sep !in s
    ensures Split(s, sep) == [s]
  {
    if s == "" {
    } else {
      SplitWithout(s[..|s| - 1], sep);
      assert s == s[..|s| - 1] + [s[|s| - 1]];
    }
  }

  lemma {:induction false} SplitOnce(a: string, b: string, sep: char)
    requires sep !in a && sep !in b
    ensures Split(a + [sep] + b, sep) == [a, b]
  {
    var s := a + [sep] + b;
    if b == "" {
      assert s[..|s| - 1] == a;
      SplitWithout(a, sep);
    } else {
      var init := b[..|b| - 1];
      assert s[..|s| - 1] == a + [sep] + init;
      SplitOnce(a, init, sep);
      assert b == init + [b[|b| - 1]];
    }
  }

  // ---------- digits ----------

  lemma {:induction false} PowSplit(a: nat, b: nat)
    ensures Pow10(a + b) == Pow10(a) * Pow10(b)
  {
    if a > 0 {
      PowSplit(a - 1, b);
      assert 10 * (Pow10(a - 1) * Pow10(b)) == (10 * Pow10(a - 1)) * Pow10(b);
    }
  }

  lemma {:induction false} DigitValueConcat(a: string, b: string)
    requires Digits(a) && Digits(b)
    ensures Digits(a + b)
    ensures DigitValue(a + b) == DigitValue(a) * Pow10(|b|) + DigitValue(b)
  {
    if b == "" {
      assert a + b == a;
    } else {
      var init := b[..|b| - 1];
      DigitValueConcat(a, init);
      assert (a + b)[..|a + b| - 1] == a + init;
      Horner(DigitValue(a), Pow10(|init|), DigitValue(init));
    }
  }

  lemma Horner(x: nat, p: nat, y: nat)
    ensures 10 * (x * p + y) == x * (10 * p) + 10 * y
  {}

  lemma {:induction false} DigitValueBound(s: string)
    requires Digits(s)
    ensures DigitValue(s) < Pow10(|s|)
  {
    if s == "" {
    } else {
      DigitValueBound(s[..|s| - 1]);
    }
  }

  lemma {:induction false} ZerosValue(n: nat)
    ensures DigitValue(Zeros(n)) == 0
  {
    if n > 0 {
      ZerosValue(n - 1);
      assert Zeros(n)[..n - 1] == Zeros(n - 1);
    }
  }

  lemma PaddedValue(s: string, n: nat)
    requires Digits(s)
    ensures Digits(s + Zeros(n)) && DigitValue(s + Zeros(n)) == DigitValue(s) * Pow10(n)
  {
    ZerosValue(n);
    DigitValueConcat(s, Zeros(n));
  }

  // ---------- the conversion ----------

  function Cut(dec: string, precision: nat): string {
    if |dec| > precision then dec[..precision] else dec
  }

  /** The digits that reach the parser's integer. */
  ghost function Units(n: Numeral, precision: nat): nat
    requires n.Valid()
  {
    var cut := Cut(n.decPart, precision);
    DigitValue(n.intPart + cut) * Pow10(precision - |cut|)
  }

  lemma CombinedDigits(n: Numeral)
    requires n.Valid() && |n.decPart| <= PRECISION
    ensures var combined := n.intPart + n.decPart + Zeros(PRECISION - |n.decPart|);
            Digits(combined) && DigitValue(combined) == Units(n, PRECISION)
  {
    DigitValueConcat(n.intPart, n.decPart);
    PaddedValue(n.intPart + n.decPart, PRECISION - |n.decPart|);
  }

  /** The text of an unsigned numeral, taken apart. */
  lemma UnsignedParts(n: Numeral)
    requires n.Valid() && !n.negative
    ensures n.Text() != ""
    ensures Split(n.Text(), '.') == if n.decPart == "" then [n.intPart] else [n.intPart, n.decPart]
  {
    SplitText(n);
    assert n.Signed() == n.intPart;
  }

  lemma ParseUnsignedNumeral(n: Numeral)
    requires n.Valid() && |n.decPart| <= PRECISION && !n.negative
    ensures ParseUnsigned(n.Text()) == Some(Units(n, PRECISION))
  {
    UnsignedParts(n);
    CombinedDigits(n);
  }

  lemma ParseNumeral(n: Numeral)
    requires n.Valid() && |n.decPart| <= PRECISION
    ensures ParseDec(n.Text()) == Some(WithSign(n.negative, Units(n, PRECISION)))
  {
    var unsigned := n.(negative := false);
    ParseUnsignedNumeral(unsigned);
    TextOfSign(n);
    assert Units(unsigned, PRECISION) == Units(n, PRECISION);
  }

  lemma Prefixed(sign: string, whole: string, fraction: string)
    ensures sign + whole + "." + fraction == sign + (whole + "." + fraction)
  {}

  lemma SignedText(n: Numeral)
    ensures n.Text() == (if n.negative then "-" else "") + n.(negative := false).Text()
  {
    var sign, unsigned := if n.negative then "-" else "", n.(negative := false);
    assert unsigned.Signed() == n.intPart && n.Signed() == sign + n.intPart;
    if n.decPart != "" {
      Prefixed(sign, n.intPart, n.decPart);
    }
  }

  lemma UnsignedStart(n: Numeral)
    requires n.Valid() && !n.negative
    ensures n.Text() != "" && n.Text()[0] == n.intPart[0] != '-'
  {
    assert IsDigit(n.intPart[0]) && n.Signed() == n.intPart;
  }

  lemma AfterSign(text: string)
    ensures ("-" + text)[1..] == text && "" + text == text
  {}

  /** The first character tells the sign, and what follows it is the unsigned numeral. */
  lemma TextOfSign(n: Numeral)
    requires n.Valid()
    ensures n.Text() != "" && (n.Text()[0] == '-' <==> n.negative)
    ensures n.(negative := false).Text() == if n.negative then n.Text()[1..] else n.Text()
  {
    var unsigned := n.(negative := false);
    SignedText(n);
    UnsignedStart(unsigned);
    AfterSign(unsigned.Text());
  }

  /** The string that float64ToDec hands to the parser. */
  function Shortened(text: string): string {
    var parts := Split(text, '.');
    var decPart := if |parts| > 1 then Cut(parts[1], PRECISION) else "";
    if decPart == "" then parts[0] else parts[0] + "." + decPart
  }

  /** float64ToDec on strings; None is the panic of the parser. */
  function Convert(text: string): Option<int> { ParseDec(Shortened(text)) }

  function CutFraction(n: Numeral): Numeral { n.(decPart := Cut(n.decPart, PRECISION)) }

  lemma ShortenedText(n: Numeral)
    requires n.Valid()
    ensures Shortened(n.Text()) == CutFraction(n).Text()
  {
    SplitText(n);
    assert CutFraction(n).Signed() == n.Signed();
  }

  lemma UnitsOfCut(n: Numeral)
    requires n.Valid()
    ensures CutFraction(n).Valid() && Units(CutFraction(n), PRECISION) == Units(n, PRECISION)
  {
    assert Cut(Cut(n.decPart, PRECISION), PRECISION) == Cut(n.decPart, PRECISION);
  }

  /** The string pipeline never panics on a printed number and computes its rounding toward zero. */
  lemma ConvertNumeral(n: Numeral)
    requires n.Valid()
    ensures Convert(n.Text()) == Some(ToDec(n))
  {
    ShortenedText(n);
    UnitsOfCut(n);
    ParseNumeral(CutFraction(n));
    UnitsTruncate(n);
  }

  /** float64ToDec: split the printed price, cut the fraction to 18 digits and parse what is left. */
  method Float64ToDec(price: Numeral) returns (dec: int)
    requires price.Valid()
    ensures Convert(price.Text()) == Some(dec) && dec == ToDec(price)
  {
    var formattedPrice := price.Text();
    var parts := Split(formattedPrice, '.');
    var intPart := parts[0];
    var decPart := "";
    if |parts| > 1 {
      decPart := parts[1];
    }
    if |decPart| > PRECISION {
      decPart := decPart[..PRECISION];
    }
    if decPart == "" {
      formattedPrice := intPart;
    } else {
      formattedPrice := intPart + "." + decPart;
    }
    ConvertNumeral(price);
    return ParseDec(formattedPrice).value;
  }

  lemma SplitText(n: Numeral)
    requires n.Valid()
    ensures Split(n.Text(), '.') == if n.decPart == "" then [n.Signed()] else [n.Signed(), n.decPart]
  {
    if n.decPart == "" {
      assert n.Text() == n.Signed();
      SplitWithout(n.Signed(), '.');
    } else {
      assert n.Text() == n.Signed() + ['.'] + n.decPart;
      SplitOnce(n.Signed(), n.decPart, '.');
    }
  }

  lemma FloorUnique(y: real, k: int)
    requires k as real <= y < k as real + 1.0
    ensures y.Floor == k
  {}

  lemma UnitsOfShort(n: Numeral, rest: nat, precision: nat)
    requires n.Valid() && precision == |n.decPart| + rest
    ensures FloorAt(n.Magnitude(), Pow10(precision)) == Units(n, precision)
  {
    PowSplit(|n.decPart|, rest);
    ExactScale(DigitValue(n.intPart + n.decPart), Pow10(|n.decPart|), Pow10(rest), Pow10(precision));
  }

  lemma UnitsOfLong(n: Numeral, precision: nat)
    requires n.Valid() && |n.decPart| > precision
    ensures FloorAt(n.Magnitude(), Pow10(precision)) == Units(n, precision)
  {
    var head, tail := n.decPart[..precision], n.decPart[precision..];
    assert n.intPart + n.decPart == (n.intPart + head) + tail;
    DigitValueConcat(n.intPart + head, tail);
    DigitValueBound(tail);
    PowSplit(precision, |tail|);
    CutScale(DigitValue(n.intPart + n.decPart), DigitValue(n.intPart + head), DigitValue(tail),
             Pow10(|tail|), Pow10(|n.decPart|), Pow10(precision));
    assert Units(n, precision) == DigitValue(n.intPart + head) * Pow10(0);
  }

  /** Cutting the fraction digits is flooring the magnitude. */
  lemma UnitsFloor(n: Numeral, precision: nat)
    requires n.Valid()
    ensures FloorAt(n.Magnitude(), Pow10(precision)) == Units(n, precision)
  {
    if |n.decPart| <= precision {
      UnitsOfShort(n, precision - |n.decPart|, precision);
    } else {
      UnitsOfLong(n, precision);
    }
  }

  lemma ExactScale(all: nat, p: nat, rest: nat, scale: nat)
    requires p >= 1 && p * rest == scale
    ensures FloorAt(Ratio(all, p), scale) == all * rest
  {
    var x := all as real / p as real;
    assert scale as real == p as real * rest as real;
    assert x * p as real == all as real;
    assert x * scale as real == (x * p as real) * rest as real;
    assert all as real * rest as real == (all * rest) as real;
  }

  lemma CutScale(all: nat, head: nat, tail: nat, cut: nat, p: nat, scale: nat)
    requires cut >= 1 && scale >= 1 && p == scale * cut && all == head * cut + tail && tail < cut
    ensures FloorAt(Ratio(all, p), scale) == head
  {
    var y := all as real / p as real * scale as real;
    var c := cut as real;
    assert p as real == scale as real * c;
    assert all as real / p as real * p as real == all as real;
    assert y * c == all as real by {
      assert y * c == all as real / p as real * (scale as real * c);
    }
    assert all as real == head as real * c + tail as real;
    assert (y - head as real) * c == tail as real;
    FractionBounds(y - head as real, c, tail as real);
    FloorUnique(y, head);
  }

  lemma FractionBounds(z: real, c: real, t: real)
    requires c > 0.0 && z * c == t && 0.0 <= t < c
    ensures 0.0 <= z < 1.0
  {
    assert z < 0.0 ==> z * c < 0.0;
    assert z >= 1.0 ==> (z - 1.0) * c >= 0.0;
  }

  lemma MagnitudeNonneg(n: Numeral)
    requires n.Valid()
    ensures n.Magnitude() >= 0.0
  {}

  lemma TruncatedSigned(negative: bool, magnitude: real, scale: nat)
    requires magnitude >= 0.0
    ensures Truncated(if negative then -magnitude else magnitude, scale)
         == WithSign(negative, FloorAt(magnitude, scale))
  {
    if negative && magnitude == 0.0 {
      assert magnitude * scale as real == 0.0;
    } else if negative {
      assert -(-magnitude) == magnitude;
    }
  }

  lemma UnitsTruncate(n: Numeral)
    requires n.Valid()
    ensures ToDec(n) == WithSign(n.negative, Units(n, PRECISION))
  {
    ScaleIsPower();
    UnitsFloor(n, PRECISION);
    MagnitudeNonneg(n);
    TruncatedSigned(n.negative, n.Magnitude(), SCALE);
  }
}
