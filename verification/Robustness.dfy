/** Laws of the consolidated value beyond consensus: two camps of sources, change of units, location. */
module Robustness {
  import opened Sequences
  import opened Statistics
  import opened Consensus

  // ---------- two camps ----------

  ghost predicate TwoCamps(xs: seq<real>, v: real, x: real) {
    v != x && forall p :: p in xs ==> p == v || p == x
  }

  lemma CampInit(xs: seq<real>, v: real, x: real)
    requires TwoCamps(xs, v, x) && xs != []
    ensures TwoCamps(xs[..|xs| - 1], v, x) && (xs[|xs| - 1] == v || xs[|xs| - 1] == x)
    ensures Count(xs, v) == Count(xs[..|xs| - 1], v) + if xs[|xs| - 1] == v then 1 else 0
    ensures Count(xs, x) == Count(xs[..|xs| - 1], x) + if xs[|xs| - 1] == x then 1 else 0
  {
    var init, p := xs[..|xs| - 1], xs[|xs| - 1];
    assert xs == init + [p];
    assert p in xs;
    forall y | y in init ensures y == v || y == x { assert y in xs; }
  }

  lemma {:induction false} CampCounts(xs: seq<real>, v: real, x: real)
    requires TwoCamps(xs, v, x)
    ensures Count(xs, v) + Count(xs, x) == |xs|
  {
    if xs == [] {
    } else {
      CampInit(xs, v, x);
      CampCounts(xs[..|xs| - 1], v, x);
    }
  }

  lemma AddOne(c: real, d: real)
    ensures (c + 1.0) * d == c * d + d
  {}

  /** A sum of k equal terms. */
  function Repeated(k: nat, y: real): real {
    if k == 0 then 0.0 else Repeated(k - 1, y) + y
  }

  lemma {:induction false} RepeatedIsProduct(k: nat, y: real)
    ensures Repeated(k, y) == k as real * y
  {
    if k == 0 {
    } else {
      RepeatedIsProduct(k - 1, y);
      AddOne((k - 1) as real, y);
    }
  }

  lemma {:induction false} CampSum(xs: seq<real>, v: real, x: real, f: real -> real)
    requires TwoCamps(xs, v, x) && f(x) == 0.0
    ensures SumOf(xs, f) == Repeated(Count(xs, v), f(v))
  {
    if xs == [] {
    } else {
      CampInit(xs, v, x);
      CampSum(xs[..|xs| - 1], v, x, f);
    }
  }

  lemma CampSums(xs: seq<real>, v: real, x: real)
    requires TwoCamps(xs, v, x)
    ensures S(xs, x) == Count(xs, v) as real * (v - x)
    ensures Q(xs, x) == Count(xs, v) as real * Square(v - x)
  {
    ZeroDistance(0.0, 0.0, x - x);
    CampSum(xs, v, x, DistanceTo(x));
    CampSum(xs, v, x, SquaredDistanceTo(x));
    RepeatedIsProduct(Count(xs, v), v - x);
    RepeatedIsProduct(Count(xs, v), Square(v - x));
  }

  /** In a two-camp vote a camp is discarded exactly when the other camp holds a strict majority. */
  lemma CampSurvivesIff(xs: seq<real>, v: real, x: real)
    requires |xs| >= 2 && TwoCamps(xs, v, x) && Count(xs, v) > 0
    ensures Survives(xs, x) <==> 2 * Count(xs, v) <= |xs|
  {
    SurvivesIff(xs, x);
    CampDistanceTest(xs, v, x);
  }

  lemma CampDistanceTest(xs: seq<real>, v: real, x: real)
    requires |xs| >= 2 && TwoCamps(xs, v, x) && Count(xs, v) > 0
    ensures DistanceTest(|xs| as real, S(xs, x), Q(xs, x)) <==> 2 * Count(xs, v) <= |xs|
  {
    CampSums(xs, v, x);
    CampTest(|xs|, Count(xs, v), v - x, S(xs, x), Q(xs, x));
  }

  lemma CampTest(n: nat, c: nat, d: real, s: real, q: real)
    requires n >= 2 && c > 0 && d != 0.0 && s == c as real * d && q == c as real * Square(d)
    ensures DistanceTest(n as real, s, q) <==> 2 * c <= n
  {
    CampAlgebra(n as real, c as real, d, s, q);
    CampArithmetic(n, c);
    CampArithmeticReal(n, c);
  }

  lemma RealProduct(i: int, j: int)
    ensures (i * j) as real == i as real * j as real
  {}

  lemma CampArithmeticReal(n: nat, c: nat)
    ensures (2.0 * n as real - 1.0) * c as real <= n as real * n as real <==> (2 * n - 1) * c <= n * n
  {
    RealProduct(2 * n - 1, c);
    RealProduct(n, n);
  }

  lemma CampAlgebra(n: real, c: real, d: real, s: real, q: real)
    requires c > 0.0 && d != 0.0 && s == c * d && q == c * Square(d)
    ensures DistanceTest(n, s, q) <==> (2.0 * n - 1.0) * c <= n * n
  {
    var g, k, m := c * Square(d), 2.0 * n - 1.0, n * n;
    PositiveSquare(d);
    MulPositive(c, Square(d));
    SquareScale(c, d);
    Regroup(c, Square(d), k);
    assert m * q == g * m;
    MulMono(g, k * c, m);
  }

  lemma Regroup(c: real, e: real, k: real)
    ensures k * (Square(c) * e) == (c * e) * (k * c)
  {
    assert Square(c) * e == c * (c * e);
  }

  lemma MulAtMostInt(k: nat, x: int, y: int)
    requires x <= y
    ensures k * x <= k * y
  {}

  lemma CampArithmetic(n: nat, c: nat)
    requires n >= 2
    ensures (2 * n - 1) * c <= n * n <==> 2 * c <= n
  {
    var k, square := 2 * n - 1, n * n;
    assert 2 * (k * c) == k * (2 * c);
    if 2 * c <= n {
      MulAtMostInt(k, 2 * c, n);
      assert k * n == 2 * square - n;
    } else {
      MulAtMostInt(k, n + 1, 2 * c);
      assert k * (n + 1) == 2 * square + n - 1;
    }
  }

  lemma TiedBelow(t: seq<real>, lo: real, hi: real)
    requires Sorted(t) && lo < hi && t != [] && (forall p :: p in t ==> p == lo || p == hi)
    requires 2 * Count(t, lo) == |t|
    ensures t[|t| / 2 - 1] == lo
  {
    var c := |t| / 2;
    assert t[c - 1] in t;
    if t[c - 1] > lo {
      CountZero(t[c - 1..], lo);
      CountSplit(t, c - 1, lo);
    }
  }

  lemma TiedAbove(t: seq<real>, lo: real, hi: real)
    requires Sorted(t) && lo < hi && t != [] && (forall p :: p in t ==> p == lo || p == hi)
    requires 2 * Count(t, hi) == |t|
    ensures t[|t| / 2] == hi
  {
    var c := |t| / 2;
    assert t[c] in t;
    if t[c] < hi {
      CountZero(t[..c + 1], hi);
      CountSplit(t, c + 1, hi);
    }
  }

  /** A tie of two camps sits on both sides of the middle of the sorted slice. */
  lemma TiedMiddle(t: seq<real>, lo: real, hi: real)
    requires Sorted(t) && lo < hi && t != [] && (forall p :: p in t ==> p == lo || p == hi)
    requires 2 * Count(t, lo) == |t| == 2 * Count(t, hi)
    ensures Middle(t) == (lo + hi) / 2.0
  {
    TiedBelow(t, lo, hi);
    TiedAbove(t, lo, hi);
  }

  /** The whole outcome of a two-camp vote: the majority's value, or the midpoint of a tie. */
  lemma TwoCampOutcome(xs: seq<real>, v: real, x: real)
    requires |xs| >= 2 && TwoCamps(xs, v, x)
    ensures Consolidated(xs) == if 2 * Count(xs, v) > |xs| then v
                                else if 2 * Count(xs, v) < |xs| then x
                                else (v + x) / 2.0
  {
    CampCounts(xs, v, x);
    if 2 * Count(xs, v) > |xs| {
      StrictMajorityWins(xs, v);
    } else if 2 * Count(xs, v) < |xs| {
      StrictMajorityWins(xs, x);
    } else {
      TiedOutcome(xs, v, x);
    }
  }

  /** In a tie nobody is discarded. */
  lemma TiedSurvivors(xs: seq<real>, v: real, x: real)
    requires |xs| >= 2 && TwoCamps(xs, v, x) && 2 * Count(xs, v) == |xs|
    ensures multiset(Survivors(xs)) == multiset(xs)
  {
    CampCounts(xs, v, x);
    CampSurvivesIff(xs, v, x);
    CampSurvivesIff(xs, x, v);
    forall p ensures multiset(Survivors(xs))[p] == multiset(xs)[p] {
      SurvivorMultiplicity(xs, p);
      if p != v && p != x { CountZero(xs, p); }
    }
  }

  lemma TiedOutcome(xs: seq<real>, v: real, x: real)
    requires |xs| >= 2 && TwoCamps(xs, v, x) && 2 * Count(xs, v) == |xs|
    ensures Consolidated(xs) == (v + x) / 2.0
  {
    CampCounts(xs, v, x);
    if |xs| == 2 {
      assert xs == [xs[0], xs[1]] && xs[0] in xs && xs[1] in xs;
      assert multiset(xs) == multiset{xs[0], xs[1]};
    } else {
      TiedSurvivors(xs, v, x);
      PermutationLength(xs, Survivors(xs));
      SortPermutation(Survivors(xs), xs);
      TiedMedian(xs, v, x);
    }
  }

  lemma SamePrices(xs: seq<real>, ys: seq<real>)
    requires multiset(xs) == multiset(ys)
    ensures forall p :: p in ys ==> p in xs
  {
    forall p | p in ys ensures p in xs {
      assert p in multiset(ys);
      assert p in multiset(xs);
    }
  }

  lemma TiedMedian(xs: seq<real>, v: real, x: real)
    requires xs != [] && TwoCamps(xs, v, x) && 2 * Count(xs, v) == |xs|
    ensures Median(xs) == (v + x) / 2.0
  {
    CampCounts(xs, v, x);
    SortSorts(xs);
    var t := Sort(xs);
    SamePrices(xs, t);
    assert Count(t, v) == Count(xs, v) && Count(t, x) == Count(xs, x);
    if v < x { TiedMiddle(t, v, x); } else { TiedMiddle(t, x, v); }
  }

  /** A single dissenting source among three or more is the one, and the only one, that the filter discards. */
  lemma LoneRogueDiscarded(xs: seq<real>, v: real, x: real)
    requires |xs| >= 3 && TwoCamps(xs, v, x) && Count(xs, x) == 1
    ensures multiset(Survivors(xs)) == multiset(xs)[x := 0]
    ensures |Survivors(xs)| == |xs| - 1 && Consolidated(xs) == v
  {
    CampCounts(xs, v, x);
    CampSurvivesIff(xs, v, x);
    CampSurvivesIff(xs, x, v);
    TwoCampOutcome(xs, v, x);
    var m := multiset(xs)[x := 0];
    forall p ensures multiset(Survivors(xs))[p] == m[p] {
      SurvivorMultiplicity(xs, p);
      if p != v && p != x { CountZero(xs, p); }
    }
    assert multiset(Survivors(xs)) == m;
    assert |m| == |multiset(xs)| - 1;
  }

  // ---------- change of units ----------

  function Convert(x: real, c: real, d: real): real { c * x + d }

  function Affine(xs: seq<real>, c: real, d: real): (ys: seq<real>)
    ensures |ys| == |xs| && forall i :: 0 <= i < |xs| ==> ys[i] == Convert(xs[i], c, d)
  {
    seq(|xs|, i requires 0 <= i < |xs| => Convert(xs[i], c, d))
  }

  lemma AffineConcat(xs: seq<real>, ys: seq<real>, c: real, d: real)
    ensures Affine(xs + ys, c, d) == Affine(xs, c, d) + Affine(ys, c, d)
  {}

  lemma AffineSplit(xs: seq<real>, c: real, d: real)
    requires xs != []
    ensures Affine(xs, c, d) == Affine(xs[..|xs| - 1], c, d) + [Convert(xs[|xs| - 1], c, d)]
    ensures Affine(xs, c, d)[..|xs| - 1] == Affine(xs[..|xs| - 1], c, d)
  {}

  lemma ConvertMono(x: real, y: real, c: real, d: real)
    requires c > 0.0
    ensures x <= y <==> Convert(x, c, d) <= Convert(y, c, d)
  {
    MulMono(c, x, y);
  }

  lemma PositiveSquare(x: real)
    requires x != 0.0
    ensures Square(x) > 0.0
  {
    var y := if x > 0.0 then x else -x;
    calc {
      Square(x);
    ==
      y * y;
    > { MulPositive(y, y); }
      0.0;
    }
  }

  lemma MulPositive(x: real, y: real)
    requires x > 0.0 && y > 0.0
    ensures x * y > 0.0
  {}

  lemma SquareScale(c: real, x: real)
    ensures Square(c * x) == Square(c) * Square(x)
  {
    assert (c * x) * (c * x) == (c * c) * (x * x);
  }

  lemma ConvertDistance(x: real, m: real, c: real, d: real)
    ensures Convert(x, c, d) - Convert(m, c, d) == c * (x - m)
    ensures Square(Convert(x, c, d) - Convert(m, c, d)) == Square(c) * Square(x - m)
  {
    assert (c * x + d) - (c * m + d) == c * (x - m);
    SquareScale(c, x - m);
  }

  lemma {:induction false} AffineSums(xs: seq<real>, c: real, d: real, m: real)
    ensures S(Affine(xs, c, d), Convert(m, c, d)) == c * S(xs, m)
    ensures Q(Affine(xs, c, d), Convert(m, c, d)) == Square(c) * Q(xs, m)
  {
    if xs == [] {
    } else {
      var init, x := xs[..|xs| - 1], xs[|xs| - 1];
      AffineSums(init, c, d, m);
      AffineSplit(xs, c, d);
      ConvertDistance(x, m, c, d);
      var s, q, e := S(init, m), Q(init, m), Square(x - m);
      assert c * (s + (x - m)) == c * s + c * (x - m);
      assert Square(c) * (q + e) == Square(c) * q + Square(c) * e;
    }
  }

  lemma AffineMean(xs: seq<real>, c: real, d: real)
    requires |xs| >= 2
    ensures Mean(Affine(xs, c, d)) == Convert(Mean(xs), c, d)
  {
    var n, m, ys := |xs| as real, Mean(xs), Affine(xs, c, d);
    AffineSums(xs, c, d, m);
    Moments(xs, m);
    Moments(ys, Convert(m, c, d));
    assert n * (Mean(ys) - Convert(m, c, d)) == 0.0;
  }

  lemma AffineVariance(xs: seq<real>, c: real, d: real)
    requires |xs| >= 2
    ensures Variance(Affine(xs, c, d)) == Square(c) * Variance(xs)
  {
    AffineMean(xs, c, d);
    var m, ys := Mean(xs), Affine(xs, c, d);
    AffineSums(xs, c, d, m);
    assert Variance(ys) == Q(ys, Convert(m, c, d)) / (|xs| - 1) as real;
    MulDiv(Square(c), Q(xs, m), Q(ys, Convert(m, c, d)), (|xs| - 1) as real);
  }

  lemma MulDiv(x: real, y: real, z: real, k: real)
    requires k != 0.0 && z == x * y
    ensures z / k == x * (y / k)
  {}

  lemma WithinAffine(x: real, m: real, v: real, c: real, d: real)
    requires c > 0.0
    ensures Within(Convert(x, c, d), Convert(m, c, d), Square(c) * v) <==> Within(x, m, v)
  {
    ConvertDistance(x, m, c, d);
    PositiveSquare(c);
    MulMono(Square(c), Square(x - m), v);
  }

  lemma {:induction false} KeptAffine(xs: seq<real>, m: real, v: real, c: real, d: real)
    requires c > 0.0
    ensures FlatMap(Affine(xs, c, d), KeepWithin(Convert(m, c, d), Square(c) * v))
         == Affine(FlatMap(xs, KeepWithin(m, v)), c, d)
  {
    if xs == [] {
    } else {
      var init, x := xs[..|xs| - 1], xs[|xs| - 1];
      KeptAffine(init, m, v, c, d);
      AffineSplit(xs, c, d);
      WithinAffine(x, m, v, c, d);
      AffineConcat(FlatMap(init, KeepWithin(m, v)), KeepWithin(m, v)(x), c, d);
    }
  }

  lemma {:induction false} InsertAffine(s: seq<real>, x: real, c: real, d: real)
    requires c > 0.0
    ensures Insert(Affine(s, c, d), Convert(x, c, d)) == Affine(Insert(s, x), c, d)
  {
    if s == [] {
    } else {
      var init, y := s[..|s| - 1], s[|s| - 1];
      ConvertMono(y, x, c, d);
      AffineSplit(s, c, d);
      if y <= x {
        AffineConcat(s, [x], c, d);
      } else {
        InsertAffine(init, x, c, d);
        AffineConcat(Insert(init, x), [y], c, d);
      }
    }
  }

  lemma {:induction false} SortAffine(xs: seq<real>, c: real, d: real)
    requires c > 0.0
    ensures Sort(Affine(xs, c, d)) == Affine(Sort(xs), c, d)
  {
    if xs == [] {
    } else {
      SortAffine(xs[..|xs| - 1], c, d);
      AffineSplit(xs, c, d);
      InsertAffine(Sort(xs[..|xs| - 1]), xs[|xs| - 1], c, d);
    }
  }

  lemma AverageAffine(x: real, y: real, c: real, d: real)
    ensures (Convert(x, c, d) + Convert(y, c, d)) / 2.0 == Convert((x + y) / 2.0, c, d)
  {}

  lemma AffineSurvivors(xs: seq<real>, c: real, d: real)
    requires |xs| >= 2 && c > 0.0
    ensures Survivors(Affine(xs, c, d)) == Affine(Survivors(xs), c, d)
  {
    AffineMean(xs, c, d);
    AffineVariance(xs, c, d);
    KeptAffine(xs, Mean(xs), Variance(xs), c, d);
  }

  lemma SurvivesAffine(xs: seq<real>, x: real, c: real, d: real)
    requires |xs| >= 2 && c > 0.0
    ensures Survives(Affine(xs, c, d), Convert(x, c, d)) <==> Survives(xs, x)
  {
    AffineMean(xs, c, d);
    AffineVariance(xs, c, d);
    WithinAffine(x, Mean(xs), Variance(xs), c, d);
  }

  lemma AffineMedian(ys: seq<real>, c: real, d: real)
    requires ys != [] && c > 0.0
    ensures Median(Affine(ys, c, d)) == Convert(Median(ys), c, d)
  {
    SortSorts(ys);
    SortAffine(ys, c, d);
    AffineMiddle(Sort(ys), c, d);
  }

  lemma AffineMiddle(t: seq<real>, c: real, d: real)
    requires t != []
    ensures Middle(Affine(t, c, d)) == Convert(Middle(t), c, d)
  {
    if |t| % 2 == 0 {
      AverageAffine(t[|t| / 2 - 1], t[|t| / 2], c, d);
    }
  }

  /** Quoting every price in other units keeps the same survivors, in place, and only converts the result. */
  lemma AffineEquivariant(xs: seq<real>, c: real, d: real)
    requires xs != [] && c > 0.0
    ensures |xs| >= 2 ==> forall i :: 0 <= i < |xs| ==>
              (Survives(Affine(xs, c, d), Affine(xs, c, d)[i]) <==> Survives(xs, xs[i]))
    ensures |xs| >= 2 ==> Survivors(Affine(xs, c, d)) == Affine(Survivors(xs), c, d)
    ensures Consolidated(Affine(xs, c, d)) == Convert(Consolidated(xs), c, d)
  {
    if |xs| >= 2 {
      AffineSurvivors(xs, c, d);
      forall i | 0 <= i < |xs|
        ensures Survives(Affine(xs, c, d), Affine(xs, c, d)[i]) <==> Survives(xs, xs[i])
      {
        SurvivesAffine(xs, xs[i], c, d);
      }
      if |xs| == 2 {
        AverageAffine(xs[0], xs[1], c, d);
      } else {
        FilterNeverStarves(xs);
        AffineMedian(Survivors(xs), c, d);
      }
    }
  }

  // ---------- location ----------

  function AtMost(r: real): real -> bool { x => x <= r }
  function AtLeast(r: real): real -> bool { x => x >= r }

  function CountIf(xs: seq<real>, p: real -> bool): nat {
    if xs == [] then 0 else CountIf(xs[..|xs| - 1], p) + if p(xs[|xs| - 1]) then 1 else 0
  }

  lemma {:induction false} CountIfInsert(s: seq<real>, x: real, p: real -> bool)
    ensures CountIf(Insert(s, x), p) == CountIf(s, p) + if p(x) then 1 else 0
  {
    if s == [] || s[|s| - 1] <= x {
      assert (s + [x])[..|s|] == s;
    } else {
      CountIfInsert(s[..|s| - 1], x, p);
      var t := Insert(s[..|s| - 1], x);
      assert (t + [s[|s| - 1]])[..|t|] == t;
    }
  }

  lemma {:induction false} CountIfSort(xs: seq<real>, p: real -> bool)
    ensures CountIf(Sort(xs), p) == CountIf(xs, p)
  {
    if xs == [] {
    } else {
      CountIfSort(xs[..|xs| - 1], p);
      CountIfInsert(Sort(xs[..|xs| - 1]), xs[|xs| - 1], p);
    }
  }

  lemma {:induction false} CountIfFrom(t: seq<real>, lo: nat, hi: nat, p: real -> bool)
    requires lo <= hi <= |t| && forall k :: lo <= k < hi ==> p(t[k])
    ensures CountIf(t, p) >= hi - lo
  {
    if t != [] && lo < hi {
      var last := |t| - 1;
      CountIfFrom(t[..last], lo, if hi > last then last else hi, p);
    }
  }

  /** The median has at least half of the values on each side. */
  lemma MedianSplits(ys: seq<real>)
    requires ys != []
    ensures 2 * CountIf(ys, AtMost(Median(ys))) >= |ys|
    ensures 2 * CountIf(ys, AtLeast(Median(ys))) >= |ys|
  {
    SortSorts(ys);
    var t, r := Sort(ys), Median(ys);
    MiddleBetween(t);
    CountIfFrom(t, 0, (|t| - 1) / 2 + 1, AtMost(r));
    CountIfFrom(t, |t| / 2, |t|, AtLeast(r));
    CountIfSort(ys, AtMost(r));
    CountIfSort(ys, AtLeast(r));
  }

  lemma MiddleBetween(t: seq<real>)
    requires Sorted(t) && t != []
    ensures var lo, hi := (|t| - 1) / 2, |t| / 2;
            t[lo] <= Middle(t) <= t[hi] && (t[lo] + t[hi]) / 2.0 == Middle(t)
  {
    assert |t| % 2 == 1 ==> (|t| - 1) / 2 == |t| / 2;
  }

  lemma AverageWithin(x: real, y: real, m: real, v: real)
    requires Within(x, m, v) && Within(y, m, v)
    ensures Within((x + y) / 2.0, m, v)
  {
    var a, b := x - m, y - m;
    assert (x + y) / 2.0 - m == (a + b) / 2.0;
    SquareNonneg(a - b);
    assert Square(a - b) == a * a - 2.0 * a * b + b * b;
    assert 4.0 * Square((a + b) / 2.0) == a * a + 2.0 * a * b + b * b;
  }

  /** The median of a list lies between two of its elements and, with them, inside any one-sigma band. */
  lemma MedianAmong(ys: seq<real>, m: real, v: real) returns (lo: real, hi: real)
    requires ys != [] && forall y :: y in ys ==> Within(y, m, v)
    ensures lo in ys && hi in ys && lo <= Median(ys) <= hi && Within(Median(ys), m, v)
  {
    SortSorts(ys);
    var t := Sort(ys);
    MiddleBetween(t);
    SamePrices(ys, t);
    lo, hi := t[(|t| - 1) / 2], t[|t| / 2];
    assert lo in t && hi in t;
    AverageWithin(lo, hi, m, v);
  }

  /** The consolidated value stays among the reported prices, within one standard deviation of their mean, and
      splits the surviving prices in half. */
  lemma RobustLocation(xs: seq<real>) returns (lo: real, hi: real)
    requires xs != []
    ensures lo in xs && hi in xs && lo <= Consolidated(xs) <= hi
    ensures |xs| >= 3 ==> Survives(xs, Consolidated(xs))
    ensures |xs| >= 3 ==> 2 * CountIf(Survivors(xs), AtMost(Consolidated(xs))) >= |Survivors(xs)|
    ensures |xs| >= 3 ==> 2 * CountIf(Survivors(xs), AtLeast(Consolidated(xs))) >= |Survivors(xs)|
  {
    if |xs| == 1 {
      lo, hi := xs[0], xs[0];
    } else if |xs| == 2 {
      lo, hi := if xs[0] <= xs[1] then xs[0] else xs[1], if xs[0] <= xs[1] then xs[1] else xs[0];
    } else {
      var ys := Survivors(xs);
      FilterNeverStarves(xs);
      KeptAreWithin(xs, Mean(xs), Variance(xs));
      MedianSplits(ys);
      lo, hi := MedianAmong(ys, Mean(xs), Variance(xs));
    }
  }
}
