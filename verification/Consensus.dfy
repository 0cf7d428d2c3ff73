/** The consolidated value of a list of prices, and what it guarantees. */
module Consensus {
  import opened Sequences
  import opened Statistics

  const NO_PRICE: real := -1.0

  /** The value computeConsolidatedPrice returns for at least one price. */
  function Consolidated(xs: seq<real>): real
    requires xs != []
  {
    if |xs| == 1 then xs[0]
    else if |xs| == 2 then (xs[0] + xs[1]) / 2.0
    else
      var cleaned := Survivors(xs);
      if cleaned == [] then NO_PRICE else Median(cleaned)
  }

  function Count(xs: seq<real>, v: real): nat { multiset(xs)[v] }

  lemma CountAtMostLength(xs: seq<real>, v: real)
    ensures Count(xs, v) <= |xs|
    ensures Count(xs, v) == |xs| ==> forall x :: x in xs ==> x == v
  {
    assert |multiset(xs)| == |xs|;
    forall i | 0 <= i < |xs|
      ensures Count(xs, v) == |xs| ==> xs[i] == v
    {
      MultisetWithout(xs, i);
      assert |multiset(Without(xs, i))| == |xs| - 1;
    }
  }

  lemma CountSplit(xs: seq<real>, k: nat, v: real)
    requires k <= |xs|
    ensures Count(xs, v) == Count(xs[..k], v) + Count(xs[k..], v)
    ensures Count(xs[..k], v) <= k && Count(xs[k..], v) <= |xs| - k
  {
    assert xs == xs[..k] + xs[k..];
    CountAtMostLength(xs[..k], v);
    CountAtMostLength(xs[k..], v);
  }

  lemma CountInit(xs: seq<real>, v: real)
    requires xs != []
    ensures Count(xs, v) == Count(xs[..|xs| - 1], v) + if xs[|xs| - 1] == v then 1 else 0
  {
    assert xs == xs[..|xs| - 1] + [xs[|xs| - 1]];
  }

  lemma CountZero(xs: seq<real>, v: real)
    requires v !in xs
    ensures Count(xs, v) == 0
  {
    assert v !in multiset(xs);
  }

  lemma SumOfTwo(xs: seq<real>, f: real -> real)
    requires |xs| == 2
    ensures SumOf(xs, f) == f(xs[0]) + f(xs[1])
  {
    assert xs == [] + [xs[0]] + [xs[1]];
    SumOfSnoc([], xs[0], f);
    SumOfSnoc([xs[0]], xs[1], f);
  }

  // ---------- order independence ----------

  /** Mean, variance, filter, sort and median do not depend on the order of the prices. */
  lemma OrderIndependent(xs: seq<real>, ys: seq<real>)
    requires xs != [] && multiset(xs) == multiset(ys)
    ensures |xs| == |ys| && Consolidated(xs) == Consolidated(ys)
    ensures |xs| >= 2 ==> multiset(Survivors(xs)) == multiset(Survivors(ys))
  {
    PermutationLength(xs, ys);
    if |xs| == 1 {
      assert xs[0] in multiset(ys);
    } else {
      SumOfPermutation(xs, ys, Itself());
      SumOfPermutation(xs, ys, SquaredDistanceTo(Mean(xs)));
      FlatMapPermutation(xs, ys, KeepWithin(Mean(xs), Variance(xs)));
      PermutationLength(Survivors(xs), Survivors(ys));
      if |xs| == 2 {
        SumOfTwo(xs, Itself());
        SumOfTwo(ys, Itself());
      } else {
        SortPermutation(Survivors(xs), Survivors(ys));
      }
    }
  }

  // ---------- strict majority ----------

  ghost predicate CauchySchwarz(k: nat, s: real, q: real) {
    Square(s) <= k as real * q
  }

  ghost function Dissenters(xs: seq<real>, v: real): nat {
    CountAtMostLength(xs, v);
    |xs| - Count(xs, v)
  }

  /** Cauchy-Schwarz over the prices that differ from v. */
  lemma {:induction false} FewDistances(xs: seq<real>, v: real)
    ensures CauchySchwarz(Dissenters(xs, v), S(xs, v), Q(xs, v))
  {
    if xs == [] {
    } else {
      var init, x := xs[..|xs| - 1], xs[|xs| - 1];
      FewDistances(init, v);
      CountInit(xs, v);
      QNonneg(init, v);
      var k := Dissenters(init, v);
      if x == v {
        ZeroDistance(S(init, v), Q(init, v), x - v);
      } else {
        CauchyStep(k, S(init, v), Q(init, v), x - v);
      }
    }
  }

  lemma ZeroDistance(s: real, q: real, d: real)
    requires d == 0.0
    ensures s + d == s && q + Square(d) == q
  {}

  lemma CauchyStep(n: nat, s: real, q: real, d: real)
    requires q >= 0.0 && CauchySchwarz(n, s, q)
    ensures CauchySchwarz(n + 1, s + d, q + Square(d))
  {
    var k := n as real;
    assert Square(s + d) == Square(s) + 2.0 * s * d + Square(d);
    assert (k + 1.0) * (q + Square(d)) == k * q + q + k * Square(d) + Square(d);
    if n == 0 {
      assert s != 0.0 ==> s * s > 0.0;
    } else {
      CrossTerm(k, s, q, d);
    }
  }

  lemma CrossTerm(k: real, s: real, q: real, d: real)
    requires k > 0.0 && Square(s) <= k * q
    ensures k * Square(d) - 2.0 * s * d + q >= 0.0
  {
    var gap := k * Square(d) - 2.0 * s * d + q;
    SquareNonneg(k * d - s);
    assert Square(k * d - s) == k * k * Square(d) - 2.0 * k * s * d + Square(s);
    assert k * gap == k * k * Square(d) - 2.0 * k * s * d + k * q;
    MulMono(k, 0.0, gap);
  }

  /** A price that at least half of the sources report is never an outlier. */
  lemma MajoritySurvives(xs: seq<real>, v: real)
    requires |xs| >= 2 && 2 * Count(xs, v) >= |xs|
    ensures Survives(xs, v)
  {
    FewDistances(xs, v);
    QNonneg(xs, v);
    SurvivesIff(xs, v);
    MajorityAlgebra(|xs|, Dissenters(xs, v), S(xs, v), Q(xs, v));
  }

  lemma MajorityAlgebra(n: nat, k: nat, s: real, q: real)
    requires n >= 1 && 2 * k <= n && q >= 0.0 && CauchySchwarz(k, s, q)
    ensures DistanceTest(n as real, s, q)
  {
    MajorityFactor(n as real, k as real, Square(s), q);
  }

  lemma MajorityFactor(n: real, k: real, s: real, q: real)
    requires n >= 1.0 && 2.0 * k <= n && q >= 0.0 && s <= k * q
    ensures (2.0 * n - 1.0) * s <= n * n * q
  {
    var w := 2.0 * n - 1.0;
    MulMono(w, s, k * q);
    MulMono(w, k, n / 2.0);
    assert w * (n / 2.0) == n * n - n / 2.0;
    MulAtLeast(n * n, w * k, q);
    calc {
      w * s;
    <=
      w * (k * q);
    ==
      (w * k) * q;
    <=
      n * n * q;
    }
  }

  /** More than half of a sorted slice equal to v fills the middle. */
  lemma MajorityMiddle(t: seq<real>, v: real)
    requires Sorted(t) && 2 * Count(t, v) > |t|
    ensures t != [] && Middle(t) == v
  {
    CountAtMostLength(t, v);
    var mid := |t| / 2;
    MajoritySlot(t, v, mid);
    if |t| % 2 == 0 {
      MajoritySlot(t, v, mid - 1);
    }
  }

  lemma MajoritySlot(t: seq<real>, v: real, i: nat)
    requires Sorted(t) && i < |t|
    requires 2 * Count(t, v) > |t| && |t| - 1 <= 2 * i + 1 <= |t| + 1
    ensures t[i] == v
  {
    if t[i] < v {
      CountZero(t[..i + 1], v);
      CountSplit(t, i + 1, v);
    } else if t[i] > v {
      CountZero(t[i..], v);
      CountSplit(t, i, v);
    }
  }

  /** Consensus: a value reported by more than half of the sources is the consolidated value, whatever the others
      report. */
  lemma StrictMajorityWins(xs: seq<real>, v: real)
    requires 2 * Count(xs, v) > |xs|
    ensures xs != [] && Consolidated(xs) == v
  {
    CountAtMostLength(xs, v);
    if |xs| == 1 {
      assert xs[0] == v;
    } else if |xs| == 2 {
      assert xs[0] in xs && xs[1] in xs;
    } else {
      MajoritySurvives(xs, v);
      SurvivorMultiplicity(xs, v);
      FilterNeverStarves(xs);
      SortSorts(Survivors(xs));
      MajorityMiddle(Sort(Survivors(xs)), v);
    }
  }

  /** Equality of the majority matters: a majority inside [0, 1] does not keep the result inside [0, 1]. */
  lemma MajorityRangeIsNotEnough()
    ensures Consolidated([0.0, 1.0, 1.5]) == 1.25
  {
    var xs := [0.0, 1.0, 1.5];
    assert xs[..2] == [0.0, 1.0] && [0.0, 1.0][..1] == [0.0];
    assert SumOf(xs, Itself()) == 2.5;
    var m := Mean(xs);
    assert 6.0 * m == 5.0;
    var v := Variance(xs);
    assert SumOf(xs, SquaredDistanceTo(m)) == Square(0.0 - m) + Square(1.0 - m) + Square(1.5 - m);
    assert Square(0.0 - m) == m * m && Square(1.0 - m) == 1.0 - 2.0 * m + m * m
        && Square(1.5 - m) == 2.25 - 3.0 * m + m * m && 36.0 * (m * m) == 25.0;
    assert 12.0 * v == 7.0;
    assert FlatMap([0.0], KeepWithin(m, v)) == [];
    assert FlatMap([0.0, 1.0], KeepWithin(m, v)) == [1.0];
    assert Survivors(xs) == [1.0, 1.5];
    assert [1.0, 1.5][..1] == [1.0];
    assert Sort([1.0]) == [1.0];
    assert Sort([1.0, 1.5]) == [1.0, 1.5];
  }
}
