/** Mean, sample variance, the one-sigma filter and the median, over exact reals.
    The filter is specified by comparing squares, so no square root is needed to say what survives. */
module Statistics {
  import opened Sequences

  function Itself(): real -> real { x => x }
  function DistanceTo(m: real): real -> real { x => x - m }
  function Square(x: real): real { x * x }
  function SquaredDistanceTo(m: real): real -> real { x => Square(x - m) }

  function Mean(xs: seq<real>): real
    requires xs != []
  {
    SumOf(xs, Itself()) / |xs| as real
  }

  function Variance(xs: seq<real>): real
    requires |xs| >= 2
  {
    SumOf(xs, SquaredDistanceTo(Mean(xs))) / (|xs| - 1) as real
  }

  predicate Within(x: real, mean: real, variance: real) {
    Square(x - mean) <= variance
  }

  function KeepWithin(mean: real, variance: real): real -> seq<real> {
    x => if Within(x, mean, variance) then [x] else []
  }

  predicate Survives(xs: seq<real>, x: real)
    requires |xs| >= 2
  {
    Within(x, Mean(xs), Variance(xs))
  }

  function Survivors(xs: seq<real>): seq<real>
    requires |xs| >= 2
  {
    FlatMap(xs, KeepWithin(Mean(xs), Variance(xs)))
  }

  /** The median of an already sorted slice. */
  function Middle(t: seq<real>): real
    requires t != []
  {
    if |t| % 2 == 1 then t[|t| / 2] else (t[|t| / 2 - 1] + t[|t| / 2]) / 2.0
  }

  function Median(xs: seq<real>): real
    requires xs != []
  {
    SortSorts(xs);
    Middle(Sort(xs))
  }

  // ---------- sums of distances ----------

  ghost function S(xs: seq<real>, a: real): real { SumOf(xs, DistanceTo(a)) }
  ghost function Q(xs: seq<real>, a: real): real { SumOf(xs, SquaredDistanceTo(a)) }

  lemma SquareNonneg(x: real)
    ensures Square(x) >= 0.0
  {}

  lemma MulMono(c: real, x: real, y: real)
    requires c > 0.0
    ensures x <= y <==> c * x <= c * y
  {
    if x > y {
      assert c * (x - y) > 0.0;
    } else {
      assert c * (y - x) >= 0.0;
    }
  }

  lemma MulAtLeast(x: real, y: real, c: real)
    requires c >= 0.0
    ensures x >= y ==> x * c >= y * c
  {
    assert x >= y ==> (x - y) * c >= 0.0;
  }

  lemma DivMul(x: real, y: real)
    requires y != 0.0
    ensures x / y * y == x && y * (x / y) == x
  {}

  lemma {:induction false} QNonneg(xs: seq<real>, a: real)
    ensures Q(xs, a) >= 0.0
  {
    if xs == [] {
    } else {
      QNonneg(xs[..|xs| - 1], a);
      SquareNonneg(xs[|xs| - 1] - a);
    }
  }

  lemma {:induction false} SumFromDistances(xs: seq<real>, a: real)
    ensures S(xs, a) == SumOf(xs, Itself()) - |xs| as real * a
  {
    if xs == [] {
    } else {
      SumFromDistances(xs[..|xs| - 1], a);
      assert |xs| as real * a == (|xs| - 1) as real * a + a;
    }
  }

  lemma SquareShift(x: real, a: real, b: real)
    ensures Square(x - b) == Square(x - a) - 2.0 * (b - a) * (x - a) + Square(b - a)
  {
    var u, w := x - a, b - a;
    assert x - b == u - w;
    assert (u - w) * (u - w) == u * u - 2.0 * w * u + w * w;
  }

  lemma {:induction false} Shift(xs: seq<real>, a: real, b: real)
    ensures Q(xs, b) == Q(xs, a) - 2.0 * (b - a) * S(xs, a) + |xs| as real * Square(b - a)
  {
    if xs == [] {
    } else {
      var init, x := xs[..|xs| - 1], xs[|xs| - 1];
      Shift(init, a, b);
      SquareShift(x, a, b);
      var w, s, q := b - a, S(init, a), Square(b - a);
      assert 2.0 * w * (s + (x - a)) == 2.0 * w * s + 2.0 * w * (x - a);
      assert |xs| as real * q == |init| as real * q + q;
    }
  }

  /** The mean and the variance, cleared of divisions and taken about an arbitrary point a. */
  lemma Moments(xs: seq<real>, a: real)
    requires |xs| >= 2
    ensures var n := |xs| as real;
            && n * (Mean(xs) - a) == S(xs, a)
            && n * (n - 1.0) * Variance(xs) == n * Q(xs, a) - Square(S(xs, a))
  {
    var n, m := |xs| as real, Mean(xs);
    SumFromDistances(xs, a);
    DivMul(SumOf(xs, Itself()), n);
    var w, s := m - a, S(xs, a);
    assert n * w == s by { assert n * (m - a) == n * m - n * a; }
    Shift(xs, a, m);
    DivMul(Q(xs, m), n - 1.0);
    assert (n - 1.0) * Variance(xs) == Q(xs, m);
    calc {
      n * (n - 1.0) * Variance(xs);
      n * ((n - 1.0) * Variance(xs));
      n * (Q(xs, a) - 2.0 * w * s + n * (w * w));
      n * Q(xs, a) - 2.0 * (n * w) * s + (n * w) * (n * w);
      n * Q(xs, a) - s * s;
    }
  }

  /** n numbers whose distances to a point sum up to s, and whose squared distances sum up to q. */
  ghost predicate DistanceTest(n: real, s: real, q: real) {
    (2.0 * n - 1.0) * Square(s) <= n * n * q
  }

  /** Which prices pass the filter, without mean, variance or root: with S and Q the sum of the distances to the
      price and of their squares, exactly those with (2n - 1) S^2 <= n^2 Q. */
  lemma SurvivesIff(xs: seq<real>, a: real)
    requires |xs| >= 2
    ensures Survives(xs, a) <==> DistanceTest(|xs| as real, S(xs, a), Q(xs, a))
  {
    var n, w, v, s, q := |xs| as real, Mean(xs) - a, Variance(xs), S(xs, a), Q(xs, a);
    Moments(xs, a);
    assert Square(a - Mean(xs)) == w * w;
    var c := n * n * (n - 1.0);
    assert c > 0.0 by { assert n * n > 0.0; }
    MulMono(c, w * w, v);
    assert c * (w * w) == (n - 1.0) * Square(s) by {
      assert c * (w * w) == (n - 1.0) * ((n * w) * (n * w));
    }
    assert c * v == n * n * q - n * Square(s) by {
      assert c * v == n * (n * (n - 1.0) * v);
      assert n * (n * q - s * s) == n * n * q - n * (s * s);
    }
    assert (2.0 * n - 1.0) * Square(s) == (n - 1.0) * Square(s) + n * Square(s);
  }

  // ---------- what the filter keeps ----------

  lemma {:induction false} KeptMultiplicity(xs: seq<real>, m: real, v: real, x: real)
    ensures multiset(FlatMap(xs, KeepWithin(m, v)))[x] == if Within(x, m, v) then multiset(xs)[x] else 0
  {
    if xs == [] {
    } else {
      KeptMultiplicity(xs[..|xs| - 1], m, v, x);
      MultisetInit(xs);
    }
  }

  /** Exactly the prices within one standard deviation survive, each as often as it was reported. */
  lemma SurvivorMultiplicity(xs: seq<real>, x: real)
    requires |xs| >= 2
    ensures multiset(Survivors(xs))[x] == if Survives(xs, x) then multiset(xs)[x] else 0
  {
    KeptMultiplicity(xs, Mean(xs), Variance(xs), x);
  }

  lemma {:induction false} KeptBound(xs: seq<real>, m: real, v: real)
    requires v >= 0.0
    ensures var kept := FlatMap(xs, KeepWithin(m, v));
            && |kept| <= |xs|
            && Q(xs, m) >= (|xs| - |kept|) as real * v
            && (|kept| < |xs| ==> Q(xs, m) > (|xs| - |kept|) as real * v)
  {
    if xs == [] {
    } else {
      var init, x := xs[..|xs| - 1], xs[|xs| - 1];
      KeptBound(init, m, v);
      SquareNonneg(x - m);
      var k := |init| - |FlatMap(init, KeepWithin(m, v))|;
      assert (k + 1) as real * v == k as real * v + v;
    }
  }

  lemma VarianceNonneg(xs: seq<real>)
    requires |xs| >= 2
    ensures Variance(xs) >= 0.0
  {
    QNonneg(xs, Mean(xs));
  }

  /** The filter never starves: whatever the prices, at least two of them survive. */
  lemma FilterNeverStarves(xs: seq<real>)
    requires |xs| >= 2
    ensures 2 <= |Survivors(xs)| <= |xs|
  {
    var n, v := |xs| as real, Variance(xs);
    VarianceNonneg(xs);
    KeptBound(xs, Mean(xs), v);
    DivMul(Q(xs, Mean(xs)), n - 1.0);
    MulAtLeast((|xs| - |Survivors(xs)|) as real, n - 1.0, v);
  }

  lemma {:induction false} KeptAreWithin(xs: seq<real>, m: real, v: real)
    ensures forall x :: x in FlatMap(xs, KeepWithin(m, v)) ==> x in xs && Within(x, m, v)
  {
    if xs == [] {
    } else {
      KeptAreWithin(xs[..|xs| - 1], m, v);
    }
  }
}
