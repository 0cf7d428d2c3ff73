/** How many stray prices the consolidated value tolerates: exactly a quarter of them, if the others only agree on an
    interval, and any minority, if the others agree on a value. */
module Bands {
  import opened Sequences
  import opened Statistics
  import opened Consensus
  import opened Robustness

  // ---------- counting ----------

  lemma {:induction false} CountIfMono(xs: seq<real>, p: real -> bool, q: real -> bool)
    requires forall x :: x in xs && p(x) ==> q(x)
    ensures CountIf(xs, p) <= CountIf(xs, q)
  {
    if xs == [] {
    } else {
      CountIfMono(xs[..|xs| - 1], p, q);
      var x := xs[|xs| - 1];
      assert p(x) ==> q(x);
    }
  }

  lemma {:induction false} CountIfNegation(xs: seq<real>, p: real -> bool, q: real -> bool)
    requires forall x :: x in xs ==> p(x) == !q(x)
    ensures CountIf(xs, p) + CountIf(xs, q) == |xs|
  {
    if xs == [] {
    } else {
      CountIfNegation(xs[..|xs| - 1], p, q);
      var x := xs[|xs| - 1];
      assert p(x) == !q(x);
    }
  }

  function Dropped(p: real -> bool, m: real, v: real): real -> bool {
    x => p(x) && !Within(x, m, v)
  }

  lemma CountIfSnoc(xs: seq<real>, x: real, p: real -> bool)
    ensures CountIf(xs + [x], p) == CountIf(xs, p) + if p(x) then 1 else 0
  {
    assert (xs + [x])[..|xs|] == xs;
  }

  lemma {:induction false} CountKept(xs: seq<real>, p: real -> bool, m: real, v: real)
    ensures CountIf(xs, p) == CountIf(FlatMap(xs, KeepWithin(m, v)), p) + CountIf(xs, Dropped(p, m, v))
  {
    if xs == [] {
    } else {
      var init, x := xs[..|xs| - 1], xs[|xs| - 1];
      CountKept(init, p, m, v);
      var kept := FlatMap(init, KeepWithin(m, v));
      if Within(x, m, v) {
        CountIfSnoc(kept, x, p);
      } else {
        assert kept + [] == kept;
      }
    }
  }

  // ---------- one side of a bound ----------

  /** x lies beyond t, upwards or downwards. */
  predicate Beyond(up: bool, x: real, t: real) {
    if up then x > t else x < t
  }

  function Past(up: bool, t: real): real -> bool { x => Beyond(up, x, t) }
  function NotPast(up: bool, t: real): real -> bool { x => !Beyond(up, x, t) }

  lemma {:induction false} Extreme(up: bool, xs: seq<real>, p: real -> bool) returns (a: real)
    requires CountIf(xs, p) > 0
    ensures a in xs && p(a)
    ensures forall x :: x in xs && p(x) ==> !Beyond(up, x, a)
  {
    var init, x := xs[..|xs| - 1], xs[|xs| - 1];
    assert xs == init + [x];
    if CountIf(init, p) == 0 {
      NoneCounted(init, p);
      a := x;
    } else {
      a := Extreme(up, init, p);
      if p(x) && Beyond(up, x, a) {
        a := x;
      }
    }
  }

  lemma {:induction false} NoneCounted(xs: seq<real>, p: real -> bool)
    requires CountIf(xs, p) == 0
    ensures forall x :: x in xs ==> !p(x)
  {
    if xs == [] {
    } else {
      NoneCounted(xs[..|xs| - 1], p);
    }
  }

  /** How far x lies beyond a. */
  function Excess(up: bool, a: real): real -> real {
    x => if !Beyond(up, x, a) then 0.0 else if up then x - a else a - x
  }

  lemma SquareMirror(x: real, a: real)
    ensures Square(a - x) == Square(x - a)
  {}

  /** Cauchy-Schwarz over the prices beyond a. */
  lemma {:induction false} ExcessBound(up: bool, xs: seq<real>, a: real)
    ensures CauchySchwarz(CountIf(xs, Past(up, a)), SumOf(xs, Excess(up, a)), Q(xs, a))
    ensures (if up then S(xs, a) else -S(xs, a)) <= SumOf(xs, Excess(up, a))
  {
    if xs == [] {
    } else {
      var init, x := xs[..|xs| - 1], xs[|xs| - 1];
      ExcessBound(up, init, a);
      QNonneg(init, a);
      var k, e, q := CountIf(init, Past(up, a)), SumOf(init, Excess(up, a)), Q(init, a);
      if Beyond(up, x, a) {
        CauchyStep(k, e, q, if up then x - a else a - x);
        SquareMirror(x, a);
      } else {
        SquareNonneg(x - a);
        MulAtLeast(q + Square(x - a), q, k as real);
      }
    }
  }

  lemma SquareMono(x: real, y: real)
    requires 0.0 <= x <= y
    ensures Square(x) <= Square(y)
  {
    MulAtLeast(y, x, x);
    MulAtLeast(y, x, y);
  }

  lemma SameSide(up: bool, n: real, w: real, s: real)
    requires n > 0.0 && n * w == s && Beyond(up, w, 0.0)
    ensures Beyond(up, s, 0.0)
  {
    MulMono(n, w, 0.0);
    MulMono(n, 0.0, w);
  }

  lemma WeakerSum(up: bool, k: nat, s: real, e: real, q: real)
    requires Beyond(up, s, 0.0) && (if up then s else -s) <= e && CauchySchwarz(k, e, q)
    ensures CauchySchwarz(k, s, q)
  {
    SquareMirror(s, 0.0);
    SquareMono(if up then s else -s, e);
  }

  /** Seen from a, the distances sum up towards the mean, to no more than those beyond a. */
  lemma MeanSide(up: bool, xs: seq<real>, a: real)
    requires |xs| >= 2 && Beyond(up, Mean(xs), a)
    ensures CauchySchwarz(CountIf(xs, Past(up, a)), S(xs, a), Q(xs, a))
  {
    Moments(xs, a);
    SameSide(up, |xs| as real, Mean(xs) - a, S(xs, a));
    ExcessBound(up, xs, a);
    WeakerSum(up, CountIf(xs, Past(up, a)), S(xs, a), SumOf(xs, Excess(up, a)), Q(xs, a));
  }

  /** The prices that a discarded price leaves behind, seen from the mean, are a minority. */
  lemma OutlierSide(up: bool, xs: seq<real>, a: real)
    requires |xs| >= 2 && !Survives(xs, a) && Beyond(up, Mean(xs), a)
    ensures 2 * CountIf(xs, NotPast(up, a)) < |xs|
  {
    var k := CountIf(xs, Past(up, a));
    MeanSide(up, xs, a);
    QNonneg(xs, a);
    SurvivesIff(xs, a);
    CountIfNegation(xs, Past(up, a), NotPast(up, a));
    if 2 * k <= |xs| {
      MajorityAlgebra(|xs|, k, S(xs, a), Q(xs, a));
    }
  }

  /** A price farther out on the same side of the mean than a discarded one is discarded. */
  lemma FartherOut(up: bool, x: real, y: real, m: real, v: real)
    requires !Beyond(up, m, x) && Beyond(up, y, x) && Within(y, m, v)
    ensures Within(x, m, v)
  {
    SquareMirror(x, m);
    SquareMirror(y, m);
    SquareMono(if up then x - m else m - x, if up then y - m else m - y);
  }

  lemma HalfBeyond(up: bool, ys: seq<real>, t: real)
    requires ys != [] && Beyond(up, Median(ys), t)
    ensures 2 * CountIf(ys, Past(up, t)) >= |ys|
  {
    MedianSplits(ys);
    CountIfMono(ys, if up then AtLeast(Median(ys)) else AtMost(Median(ys)), Past(up, t));
  }

  /** If at most a quarter of the prices lies beyond t, so does not the consolidated value. */
  lemma QuarterBound(up: bool, xs: seq<real>, t: real)
    requires xs != [] && 4 * CountIf(xs, Past(up, t)) <= |xs|
    ensures !Beyond(up, Consolidated(xs), t)
  {
    if |xs| < 3 {
      NoneCounted(xs, Past(up, t));
      assert xs[0] in xs && xs[|xs| - 1] in xs;
    } else {
      FilterNeverStarves(xs);
      if Beyond(up, Consolidated(xs), t) {
        HalfBeyond(up, Survivors(xs), t);
        TooManyDropped(up, xs, t);
      }
    }
  }

  lemma TooManyDropped(up: bool, xs: seq<real>, t: real)
    requires |xs| >= 3 && 4 * CountIf(xs, Past(up, t)) <= |xs|
    ensures 2 * CountIf(Survivors(xs), Past(up, t)) < |Survivors(xs)|
  {
    var m, v, ys := Mean(xs), Variance(xs), Survivors(xs);
    FilterNeverStarves(xs);
    CountKept(xs, Past(up, t), m, v);
    CountKept(xs, NotPast(up, t), m, v);
    CountIfNegation(xs, Past(up, t), NotPast(up, t));
    CountIfNegation(ys, Past(up, t), NotPast(up, t));
    var dropped := Dropped(NotPast(up, t), m, v);
    if 2 * CountIf(ys, Past(up, t)) >= |ys| {
      var a := Extreme(up, xs, dropped);
      var y := Extreme(up, ys, Past(up, t));
      KeptAreWithin(xs, m, v);
      if !Beyond(up, m, a) {
        FartherOut(up, a, y, m, v);
      }
      OutlierSide(up, xs, a);
      CountIfMono(xs, dropped, NotPast(up, a));
    }
  }

  function Outside(lo: real, hi: real): real -> bool { x => x < lo || x > hi }

  /** If at most a quarter of the prices lies outside an interval, the consolidated value lies inside. */
  lemma QuarterBand(xs: seq<real>, lo: real, hi: real)
    requires xs != [] && 4 * CountIf(xs, Outside(lo, hi)) <= |xs|
    ensures lo <= Consolidated(xs) <= hi
  {
    CountIfMono(xs, Past(true, hi), Outside(lo, hi));
    CountIfMono(xs, Past(false, lo), Outside(lo, hi));
    QuarterBound(true, xs, hi);
    QuarterBound(false, xs, lo);
  }

  // ---------- more than a quarter is too many ----------

  function Copies(k: nat, x: real): seq<real> { seq(k, _ => x) }

  lemma CopiesStep(k: nat, x: real)
    requires k > 0
    ensures Copies(k, x) == Copies(k - 1, x) + [x]
  {}

  lemma {:induction false} CountCopies(xs: seq<real>, k: nat, x: real, p: real -> bool)
    ensures CountIf(xs + Copies(k, x), p) == CountIf(xs, p) + if p(x) then k else 0
  {
    if k == 0 {
      assert xs + Copies(0, x) == xs;
    } else {
      CountCopies(xs, k - 1, x, p);
      CopiesStep(k, x);
      assert xs + Copies(k, x) == xs + Copies(k - 1, x) + [x];
      CountIfSnoc(xs + Copies(k - 1, x), x, p);
    }
  }

  lemma AppendCopies(xs: seq<real>, k: nat, x: real)
    requires k > 0
    ensures xs + Copies(k, x) == (xs + Copies(k - 1, x)) + [x]
  {
    CopiesStep(k, x);
  }

  lemma {:induction false} SumCopies(xs: seq<real>, k: nat, x: real, f: real -> real)
    ensures SumOf(xs + Copies(k, x), f) == SumOf(xs, f) + Repeated(k, f(x))
  {
    if k == 0 {
      assert xs + Copies(0, x) == xs;
    } else {
      SumCopies(xs, k - 1, x, f);
      AppendCopies(xs, k, x);
      SumOfSnoc(xs + Copies(k - 1, x), x, f);
    }
  }

  lemma {:induction false} MultisetCopies(k: nat, x: real)
    ensures multiset(Copies(k, x)) == multiset{}[x := k]
  {
    if k == 0 {
    } else {
      MultisetCopies(k - 1, x);
      CopiesStep(k, x);
    }
  }

  function Blocks(i: nat, x: real, j: nat, y: real, k: nat, z: real): (xs: seq<real>)
    ensures |xs| == i + j + k
  {
    Copies(i, x) + Copies(j, y) + Copies(k, z)
  }

  lemma CountBlocks(i: nat, x: real, j: nat, y: real, k: nat, z: real, p: real -> bool)
    ensures CountIf(Blocks(i, x, j, y, k, z), p)
         == (if p(x) then i else 0) + (if p(y) then j else 0) + if p(z) then k else 0
  {
    CountCopies([], i, x, p);
    assert [] + Copies(i, x) == Copies(i, x);
    CountCopies(Copies(i, x), j, y, p);
    CountCopies(Copies(i, x) + Copies(j, y), k, z, p);
  }

  lemma SumBlocks(i: nat, x: real, j: nat, y: real, k: nat, z: real, f: real -> real)
    ensures SumOf(Blocks(i, x, j, y, k, z), f) == Repeated(i, f(x)) + Repeated(j, f(y)) + Repeated(k, f(z))
  {
    SumCopies([], i, x, f);
    assert [] + Copies(i, x) == Copies(i, x);
    SumCopies(Copies(i, x), j, y, f);
    SumCopies(Copies(i, x) + Copies(j, y), k, z, f);
  }

  lemma MultisetBlocks(i: nat, x: real, j: nat, y: real, k: nat, z: real, p: real)
    ensures Count(Blocks(i, x, j, y, k, z), p)
         == (if p == x then i else 0) + (if p == y then j else 0) + if p == z then k else 0
  {
    MultisetCopies(i, x);
    MultisetCopies(j, y);
    MultisetCopies(k, z);
  }

  lemma BlockElements(i: nat, x: real, j: nat, y: real, k: nat, z: real)
    ensures forall p :: p in Blocks(i, x, j, y, k, z) ==> p == x || p == y || p == z
  {}

  /** Half of the prices, or more of them, move the result away from the value of the others. */
  lemma HalfMoves(n: nat, j: nat, v: real, x: real)
    requires 0 < n <= 2 * j && j <= n && v != x
    ensures Consolidated(Blocks(0, v, n - j, v, j, x)) == if 2 * j > n then x else (v + x) / 2.0
  {
    var xs := Blocks(0, v, n - j, v, j, x);
    MultisetBlocks(0, v, n - j, v, j, x, v);
    MultisetBlocks(0, v, n - j, v, j, x, x);
    if 2 * j > n {
      StrictMajorityWins(xs, x);
    } else {
      BlockElements(0, v, n - j, v, j, x);
      TwoCampOutcome(xs, v, x);
    }
  }

  // With a prices at -1, j at 0 and j slightly above 0, where the last are more than a quarter of all n and less
  // than half of them, the filter drops those at -1.

  lemma DropsLow(n: real, j: real, e: real, s: real, q: real)
    requires n >= 3.0 && 4.0 * j >= n + 1.0 && e > 0.0 && n * e == 0.5
    requires s == j * (2.0 + e) && q == j * (1.0 + Square(1.0 + e))
    ensures !DistanceTest(n, s, q)
  {
    LowMargin(n, j, e);
    GroupFails(n, j, 2.0 + e, 1.0 + Square(1.0 + e), s, q);
  }

  lemma LowMargin(n: real, j: real, e: real)
    requires n >= 3.0 && 4.0 * j >= n + 1.0 && e > 0.0 && n * e == 0.5
    ensures n * n * (1.0 + Square(1.0 + e)) < (2.0 * n - 1.0) * j * Square(2.0 + e)
  {
    LowFactor(n, j);
    LowTerms(n, e, Square(2.0 + e), 1.0 + Square(1.0 + e));
    LowGap(n, j, Square(2.0 + e), 1.0 + Square(1.0 + e));
  }

  lemma GroupFails(n: real, j: real, d: real, far: real, s: real, q: real)
    requires j > 0.0 && s == j * d && q == j * far
    requires n * n * far < (2.0 * n - 1.0) * j * Square(d)
    ensures !DistanceTest(n, s, q)
  {
    LowScale(n, j, d, Square(d), far, s, q);
    Magnify(j, n * n * far, (2.0 * n - 1.0) * j * Square(d), n * n * q, (2.0 * n - 1.0) * Square(s));
  }

  lemma LowGap(n: real, j: real, g: real, far: real)
    requires (2.0 * n - 1.0) * j >= n * n / 2.0 + (n - 1.0) / 4.0
    requires g >= 0.0 && n * n * far < (n * n / 2.0 + (n - 1.0) / 4.0) * g
    ensures n * n * far < (2.0 * n - 1.0) * j * g
  {
    MulAtLeast((2.0 * n - 1.0) * j, n * n / 2.0 + (n - 1.0) / 4.0, g);
  }

  lemma Magnify(j: real, x: real, y: real, u: real, w: real)
    requires j > 0.0 && x < y && u == j * x && w == j * y
    ensures u < w
  {
    MulMono(j, y, x);
  }

  lemma LowFactor(n: real, j: real)
    requires n >= 3.0 && 4.0 * j >= n + 1.0
    ensures (2.0 * n - 1.0) * j >= n * n / 2.0 + (n - 1.0) / 4.0
  {
    var k := 2.0 * n - 1.0;
    MulMono(k, (n + 1.0) / 4.0, j);
    assert k * ((n + 1.0) / 4.0) == n * n / 2.0 + (n - 1.0) / 4.0;
  }

  lemma LowTerms(n: real, e: real, g: real, far: real)
    requires n >= 3.0 && e > 0.0 && n * e == 0.5 && g == Square(2.0 + e) && far == 1.0 + Square(1.0 + e)
    ensures g >= 0.0 && n * n * far < (n * n / 2.0 + (n - 1.0) / 4.0) * g
  {
    var half, w := n * n / 2.0, (n - 1.0) / 4.0;
    SquareMono(2.0, 2.0 + e);
    MulAtLeast(w, 0.5, g);
    SquareScale(n, e);
    assert Square(n) == n * n && Square(n * e) == 0.25 && Square(2.0) == 4.0;
    assert Square(1.0 + e) == 1.0 + 2.0 * e + Square(e) && g == 4.0 + 4.0 * e + Square(e);
    assert far == g / 2.0 + Square(e) / 2.0;
    assert n * n * far == half * g + n * n * Square(e) / 2.0 by { Distribute(n * n, g / 2.0, Square(e) / 2.0); }
    assert (half + w) * g == half * g + w * g;
  }

  lemma Distribute(c: real, x: real, y: real)
    ensures c * (x + y) == c * x + c * y
  {}

  lemma LowScale(n: real, j: real, d: real, g: real, far: real, s: real, q: real)
    requires g == Square(d) && s == j * d && q == j * far
    ensures (2.0 * n - 1.0) * Square(s) == j * ((2.0 * n - 1.0) * j * g)
    ensures n * n * q == j * (n * n * far)
  {
    SquareScale(j, d);
    Regrouped(2.0 * n - 1.0, j, g);
    Swapped(n * n, j, far);
  }

  lemma Regrouped(k: real, j: real, g: real)
    ensures k * (Square(j) * g) == j * (k * j * g)
  {}

  lemma Swapped(c: real, j: real, x: real)
    ensures c * (j * x) == j * (c * x)
  {}

  lemma KeepsHigh(n: real, a: real, j: real, e: real, s: real, q: real)
    requires 0.0 <= 2.0 * a <= n - 1.0 && 0.0 <= 2.0 * j <= n && n >= 3.0 && e > 0.0 && n * e == 0.5
    requires s == -(a * (1.0 + e)) - j * e && q == a * Square(1.0 + e) + j * Square(e)
    ensures DistanceTest(n, s, q)
  {
    var u := 1.0 + e;
    HighHalf(n, a, j, u, e, a * u, j * e, a * Square(u), j * Square(e), s, q);
    HalfTest(n, s, q);
  }

  lemma HighHalf(n: real, a: real, j: real, u: real, e: real, x: real, y: real, p: real, r: real, s: real, q: real)
    requires 0.0 <= 2.0 * a <= n - 1.0 && 0.0 <= 2.0 * j <= n && e > 0.0 && n * e == 0.5 && u == 1.0 + e
    requires x == a * u && y == j * e && p == a * Square(u) && r == j * Square(e)
    requires s == -x - y && q == p + r
    ensures 2.0 * Square(s) <= n * q
  {
    HighTerms(n, a, j, u, e, x, y, p, r);
    HighSum(n, x, y, p, r, s, q);
  }

  lemma HighTerms(n: real, a: real, j: real, u: real, e: real, x: real, y: real, p: real, r: real)
    requires 0.0 <= 2.0 * a <= n - 1.0 && 0.0 <= 2.0 * j <= n && e > 0.0 && n * e == 0.5 && u == 1.0 + e
    requires x == a * u && y == j * e && p == a * Square(u) && r == j * Square(e)
    ensures 2.0 * Square(x) <= (n - 1.0) * p && 2.0 * Square(y) <= n * r && 4.0 * x * y <= p
  {
    HighTerm(n - 1.0, a, u, x, p);
    HighTerm(n, j, e, y, r);
    HighCross(n, a, j, u, e, x, y, p);
  }

  lemma HalfTest(n: real, s: real, q: real)
    requires n >= 1.0 && 2.0 * Square(s) <= n * q
    ensures DistanceTest(n, s, q)
  {
    SquareNonneg(s);
    MulMono(n, 2.0 * Square(s), n * q);
  }

  lemma HighTerm(n: real, k: real, d: real, x: real, p: real)
    requires 0.0 <= 2.0 * k <= n && x == k * d && p == k * Square(d)
    ensures 2.0 * Square(x) <= n * p
  {
    SquareNonneg(d);
    ProductNonneg(k, Square(d));
    MulAtLeast(n, 2.0 * k, p);
    SquareScale(k, d);
  }

  lemma ProductNonneg(x: real, y: real)
    requires x >= 0.0
    ensures y >= 0.0 ==> x * y >= 0.0
  {}

  lemma HighCross(n: real, a: real, j: real, u: real, e: real, x: real, y: real, p: real)
    requires 0.0 <= 2.0 * j <= n && a >= 0.0 && e > 0.0 && n * e == 0.5 && u == 1.0 + e
    requires x == a * u && y == j * e && p == a * Square(u)
    ensures 4.0 * x * y <= p
  {
    MulAtLeast(n, 2.0 * j, e);
    ProductNonneg(a, u);
    MulAtLeast(u, 4.0 * y, x);
    assert 4.0 * x * y == 4.0 * y * x && p == u * x;
  }

  lemma HighSum(n: real, x: real, y: real, p: real, r: real, s: real, q: real)
    requires s == -x - y && q == p + r && 2.0 * Square(x) <= (n - 1.0) * p
    requires 2.0 * Square(y) <= n * r && 4.0 * x * y <= p
    ensures 2.0 * Square(s) <= n * q
  {
    assert Square(s) == Square(x) + 2.0 * x * y + Square(y);
  }

  /** With a prices at -1, j at 0 and j slightly above 0, where each j is more than a quarter of all prices, the
      filter drops those at -1 and no others. */
  lemma ThreeGroups(a: nat, j: nat, e: real)
    requires 0 < a < 2 * j && e > 0.0 && (a + 2 * j) as real * e == 0.5
    ensures Consolidated(Blocks(a, -1.0, j, 0.0, j, e)) == e / 2.0
  {
    var xs := Blocks(a, -1.0, j, 0.0, j, e);
    LowFails(a, j, e);
    SurvivesIff(xs, -1.0);
    ZeroKept(a, j, e);
    HighPasses(a, j, e);
    SurvivesIff(xs, e);
    BlockElements(a, -1.0, j, 0.0, j, e);
    var ys := Survivors(xs);
    MultisetBlocks(a, -1.0, j, 0.0, j, e, 0.0);
    MultisetBlocks(a, -1.0, j, 0.0, j, e, e);
    SurvivorMultiplicity(xs, 0.0);
    SurvivorMultiplicity(xs, e);
    KeptAreWithin(xs, Mean(xs), Variance(xs));
    CampCounts(ys, 0.0, e);
    TiedMedian(ys, 0.0, e);
  }

  lemma GroupSums(a: nat, j: nat, e: real, p: real)
    ensures S(Blocks(a, -1.0, j, 0.0, j, e), p) == Repeated(a, -1.0 - p) + Repeated(j, 0.0 - p) + Repeated(j, e - p)
    ensures Q(Blocks(a, -1.0, j, 0.0, j, e), p)
         == Repeated(a, Square(-1.0 - p)) + Repeated(j, Square(0.0 - p)) + Repeated(j, Square(e - p))
  {
    SumBlocks(a, -1.0, j, 0.0, j, e, DistanceTo(p));
    SumBlocks(a, -1.0, j, 0.0, j, e, SquaredDistanceTo(p));
  }

  lemma LowSums(a: nat, j: nat, e: real)
    ensures S(Blocks(a, -1.0, j, 0.0, j, e), -1.0) == j as real * (2.0 + e)
    ensures Q(Blocks(a, -1.0, j, 0.0, j, e), -1.0) == j as real * (1.0 + Square(1.0 + e))
  {
    GroupSums(a, j, e, -1.0);
    RepeatedIsProduct(a, 0.0);
    RepeatedIsProduct(j, 1.0);
    RepeatedIsProduct(j, 1.0 + e);
    RepeatedIsProduct(j, Square(1.0 + e));
    assert Square(0.0) == 0.0 && Square(1.0) == 1.0;
  }

  lemma Negated(x: real, y: real)
    ensures x * -y == -(x * y)
  {}

  lemma HighFirstSum(a: nat, j: nat, e: real)
    ensures S(Blocks(a, -1.0, j, 0.0, j, e), e) == -(a as real * (1.0 + e)) - j as real * e
  {
    GroupSums(a, j, e, e);
    RepeatedIsProduct(a, -(1.0 + e));
    Negated(a as real, 1.0 + e);
    RepeatedIsProduct(j, -e);
    Negated(j as real, e);
    RepeatedIsProduct(j, 0.0);
  }

  lemma HighSecondSum(a: nat, j: nat, e: real)
    ensures Q(Blocks(a, -1.0, j, 0.0, j, e), e) == a as real * Square(1.0 + e) + j as real * Square(e)
  {
    GroupSums(a, j, e, e);
    RepeatedIsProduct(a, Square(1.0 + e));
    RepeatedIsProduct(j, Square(e));
    RepeatedIsProduct(j, 0.0);
    SquareMirror(1.0 + e, 0.0);
    SquareMirror(e, 0.0);
    assert Square(0.0) == 0.0;
  }

  lemma LowFails(a: nat, j: nat, e: real)
    requires 0 < a < 2 * j && e > 0.0 && (a + 2 * j) as real * e == 0.5
    ensures var xs := Blocks(a, -1.0, j, 0.0, j, e);
            !DistanceTest((a + 2 * j) as real, S(xs, -1.0), Q(xs, -1.0))
  {
    var xs := Blocks(a, -1.0, j, 0.0, j, e);
    LowSums(a, j, e);
    DropsLow((a + 2 * j) as real, j as real, e, S(xs, -1.0), Q(xs, -1.0));
  }

  lemma HighPasses(a: nat, j: nat, e: real)
    requires 0 < a < 2 * j && e > 0.0 && (a + 2 * j) as real * e == 0.5
    ensures var xs := Blocks(a, -1.0, j, 0.0, j, e);
            DistanceTest((a + 2 * j) as real, S(xs, e), Q(xs, e))
  {
    var xs := Blocks(a, -1.0, j, 0.0, j, e);
    HighFirstSum(a, j, e);
    HighSecondSum(a, j, e);
    KeepsHigh((a + 2 * j) as real, a as real, j as real, e, S(xs, e), Q(xs, e));
  }

  lemma ZeroKept(a: nat, j: nat, e: real)
    requires 0 < a < 2 * j && e > 0.0
    ensures Survives(Blocks(a, -1.0, j, 0.0, j, e), 0.0)
  {
    var xs := Blocks(a, -1.0, j, 0.0, j, e);
    CountBlocks(a, -1.0, j, 0.0, j, e, NotPast(false, 0.0));
    CountBlocks(a, -1.0, j, 0.0, j, e, NotPast(true, 0.0));
    VarianceNonneg(xs);
    if !Survives(xs, 0.0) {
      OutlierSide(Mean(xs) > 0.0, xs, 0.0);
    }
  }

  /** Prices in the units in which the interval ends at 0 and is 1 wide. */
  lemma StrayGroup(n: nat, j: nat) returns (a: nat, e: real)
    requires n < 4 * j && j <= n
    ensures a + j <= n && e > 0.0
    ensures Consolidated(Blocks(a, -1.0, n - a - j, 0.0, j, e)) > 0.0
  {
    if 2 * j >= n {
      a, e := 0, 1.0;
      HalfMoves(n, j, 0.0, 1.0);
      assert Copies(0, -1.0) == Copies(0, 0.0);
    } else {
      a, e := n - 2 * j, 0.5 / n as real;
      DivMul(0.5, n as real);
      ThreeGroups(a, j, e);
    }
  }

  lemma AffineBlocks(i: nat, x: real, j: nat, y: real, k: nat, z: real, c: real, d: real)
    ensures Affine(Blocks(i, x, j, y, k, z), c, d)
         == Blocks(i, Convert(x, c, d), j, Convert(y, c, d), k, Convert(z, c, d))
  {}

  /** Any number of prices above a quarter can sit outside an interval and take the result along. */
  lemma StrayPrices(n: nat, j: nat, lo: real, hi: real) returns (xs: seq<real>)
    requires n < 4 * j && j <= n && lo < hi
    ensures |xs| == n && CountIf(xs, Outside(lo, hi)) == j == CountIf(xs, Past(true, hi))
    ensures Consolidated(xs) > hi
  {
    var a, e := StrayGroup(n, j);
    var base, c := Blocks(a, -1.0, n - a - j, 0.0, j, e), hi - lo;
    xs := Affine(base, c, hi);
    AffineEquivariant(base, c, hi);
    IntervalUnits(lo, hi, Consolidated(base));
    StrayCounts(a, n - a - j, j, lo, hi, e);
  }

  lemma StrayCounts(i: nat, k: nat, j: nat, lo: real, hi: real, e: real)
    requires lo < hi && e > 0.0
    ensures var xs := Affine(Blocks(i, -1.0, k, 0.0, j, e), hi - lo, hi);
            CountIf(xs, Outside(lo, hi)) == j == CountIf(xs, Past(true, hi))
  {
    IntervalUnits(lo, hi, e);
    AffineBlocks(i, -1.0, k, 0.0, j, e, hi - lo, hi);
    var top := Convert(e, hi - lo, hi);
    CountBlocks(i, lo, k, hi, j, top, Outside(lo, hi));
    CountBlocks(i, lo, k, hi, j, top, Past(true, hi));
  }

  lemma IntervalUnits(lo: real, hi: real, x: real)
    requires lo < hi
    ensures Convert(-1.0, hi - lo, hi) == lo && Convert(0.0, hi - lo, hi) == hi
    ensures x > 0.0 ==> Convert(x, hi - lo, hi) > hi
  {
    ConvertMono(x, 0.0, hi - lo, hi);
  }

  // ---------- the exact tolerance ----------

  /** Any n prices of which j lie outside the interval have their consolidated value inside. */
  ghost predicate BandHolds(n: nat, j: nat, lo: real, hi: real)
    requires n > 0
  {
    forall xs: seq<real> :: |xs| == n && CountIf(xs, Outside(lo, hi)) == j ==> lo <= Consolidated(xs) <= hi
  }

  /** Any n prices of which j lie above hi have their consolidated value at or below hi. */
  ghost predicate CeilingHolds(n: nat, j: nat, hi: real)
    requires n > 0
  {
    forall xs: seq<real> :: |xs| == n && CountIf(xs, Past(true, hi)) == j ==> Consolidated(xs) <= hi
  }

  /** Any n prices of which j differ from v have v as their consolidated value. */
  ghost predicate ValueHolds(n: nat, j: nat, v: real)
    requires n > 0
  {
    forall xs: seq<real> :: |xs| == n && Count(xs, v) == n - j ==> Consolidated(xs) == v
  }

  /** A proper interval is kept exactly up to a quarter of stray prices. */
  lemma BandTolerance(n: nat, j: nat, lo: real, hi: real)
    requires 0 < n && j <= n && lo < hi
    ensures BandHolds(n, j, lo, hi) <==> 4 * j <= n
  {
    if 4 * j <= n {
      forall xs: seq<real> | |xs| == n && CountIf(xs, Outside(lo, hi)) == j
        ensures lo <= Consolidated(xs) <= hi
      {
        QuarterBand(xs, lo, hi);
      }
    } else {
      var xs := StrayPrices(n, j, lo, hi);
    }
  }

  /** So is an upper bound alone. */
  lemma CeilingTolerance(n: nat, j: nat, hi: real)
    requires 0 < n && j <= n
    ensures CeilingHolds(n, j, hi) <==> 4 * j <= n
  {
    if 4 * j <= n {
      forall xs: seq<real> | |xs| == n && CountIf(xs, Past(true, hi)) == j
        ensures Consolidated(xs) <= hi
      {
        QuarterBound(true, xs, hi);
      }
    } else {
      var xs := StrayPrices(n, j, hi - 1.0, hi);
    }
  }

  /** A single value is kept exactly up to a minority of stray prices. */
  lemma ValueTolerance(n: nat, j: nat, v: real)
    requires 0 < n && j <= n
    ensures ValueHolds(n, j, v) <==> 2 * j < n
  {
    if 2 * j < n {
      forall xs: seq<real> | |xs| == n && Count(xs, v) == n - j
        ensures Consolidated(xs) == v
      {
        StrictMajorityWins(xs, v);
      }
    } else {
      var x := v + 1.0;
      HalfMoves(n, j, v, x);
      MultisetBlocks(0, v, n - j, v, j, x, v);
      assert Consolidated(Blocks(0, v, n - j, v, j, x)) != v;
    }
  }
}
