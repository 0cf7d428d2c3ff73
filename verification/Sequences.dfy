/** Sequence functions that the loops of the price feeder compute, with the laws the proofs need:
    a sum, an order-preserving flat map, and a sort. All recursions follow the loops, which extend a prefix. */
module Sequences {

  function SumOf<T>(xs: seq<T>, f: T -> real): real {
    if xs == [] then 0.0 else SumOf(xs[..|xs| - 1], f) + f(xs[|xs| - 1])
  }

  function FlatMap<A, B>(xs: seq<A>, f: A -> seq<B>): seq<B> {
    if xs == [] then [] else FlatMap(xs[..|xs| - 1], f) + f(xs[|xs| - 1])
  }

  lemma FlatMapSnoc<A, B>(xs: seq<A>, x: A, f: A -> seq<B>)
    ensures FlatMap(xs + [x], f) == FlatMap(xs, f) + f(x)
  {
    assert (xs + [x])[..|xs|] == xs;
  }

  lemma SumOfSnoc<T>(xs: seq<T>, x: T, f: T -> real)
    ensures SumOf(xs + [x], f) == SumOf(xs, f) + f(x)
  {
    assert (xs + [x])[..|xs|] == xs;
  }

  function Without<T>(xs: seq<T>, i: nat): seq<T>
    requires i < |xs|
  {
    xs[..i] + xs[i + 1..]
  }

  lemma MultisetWithout<T>(xs: seq<T>, i: nat)
    requires i < |xs|
    ensures multiset(xs) == multiset(Without(xs, i)) + multiset{xs[i]}
  {
    assert xs == xs[..i] + [xs[i]] + xs[i + 1..];
  }

  lemma {:induction false} SumOfWithout<T>(xs: seq<T>, i: nat, f: T -> real)
    requires i < |xs|
    ensures SumOf(xs, f) == SumOf(Without(xs, i), f) + f(xs[i])
  {
    var last := |xs| - 1;
    if i < last {
      SumOfWithout(xs[..last], i, f);
      assert Without(xs, i) == Without(xs[..last], i) + [xs[last]];
      SumOfSnoc(Without(xs[..last], i), xs[last], f);
    } else {
      assert Without(xs, i) == xs[..last];
    }
  }

  lemma {:induction false} FlatMapWithout<A, B>(xs: seq<A>, i: nat, f: A -> seq<B>)
    requires i < |xs|
    ensures multiset(FlatMap(xs, f)) == multiset(FlatMap(Without(xs, i), f)) + multiset(f(xs[i]))
  {
    var last := |xs| - 1;
    if i < last {
      FlatMapWithout(xs[..last], i, f);
      assert Without(xs, i) == Without(xs[..last], i) + [xs[last]];
      FlatMapSnoc(Without(xs[..last], i), xs[last], f);
    } else {
      assert Without(xs, i) == xs[..last];
    }
  }

  /** An element of one of two permutations sits somewhere in the other, and what is left are permutations again. */
  lemma MatchingIndex<T>(xs: seq<T>, ys: seq<T>) returns (i: nat)
    requires xs != [] && multiset(xs) == multiset(ys)
    ensures i < |ys| && ys[i] == xs[|xs| - 1]
    ensures multiset(xs[..|xs| - 1]) == multiset(Without(ys, i))
  {
    var x := xs[|xs| - 1];
    assert x in multiset(ys);
    i :| 0 <= i < |ys| && ys[i] == x;
    MultisetWithout(ys, i);
    MultisetWithout(xs, |xs| - 1);
    assert Without(xs, |xs| - 1) == xs[..|xs| - 1];
    assert multiset(xs[..|xs| - 1]) == multiset(xs) - multiset{x};
  }

  lemma EmptyPermutation<T>(ys: seq<T>)
    requires multiset(ys) == multiset{}
    ensures ys == []
  {
    assert |multiset(ys)| == |ys|;
  }

  lemma {:induction false} SumOfPermutation<T>(xs: seq<T>, ys: seq<T>, f: T -> real)
    requires multiset(xs) == multiset(ys)
    ensures SumOf(xs, f) == SumOf(ys, f)
  {
    if xs == [] {
      EmptyPermutation(ys);
    } else {
      var i := MatchingIndex(xs, ys);
      SumOfPermutation(xs[..|xs| - 1], Without(ys, i), f);
      SumOfWithout(ys, i, f);
    }
  }

  lemma {:induction false} FlatMapPermutation<A, B>(xs: seq<A>, ys: seq<A>, f: A -> seq<B>)
    requires multiset(xs) == multiset(ys)
    ensures multiset(FlatMap(xs, f)) == multiset(FlatMap(ys, f))
  {
    if xs == [] {
      EmptyPermutation(ys);
    } else {
      var i := MatchingIndex(xs, ys);
      FlatMapPermutation(xs[..|xs| - 1], Without(ys, i), f);
      FlatMapWithout(ys, i, f);
    }
  }

  lemma PermutationLength<T>(xs: seq<T>, ys: seq<T>)
    requires multiset(xs) == multiset(ys)
    ensures |xs| == |ys|
  {
    assert |multiset(xs)| == |xs| && |multiset(ys)| == |ys|;
  }

  // ---------- sorting ----------

  ghost predicate Sorted(s: seq<real>) {
    forall i, j :: 0 <= i <= j < |s| ==> s[i] <= s[j]
  }

  /** Puts x behind the elements that do not exceed it. */
  function Insert(s: seq<real>, x: real): seq<real> {
    if s == [] || s[|s| - 1] <= x then s + [x] else Insert(s[..|s| - 1], x) + [s[|s| - 1]]
  }

  function Sort(xs: seq<real>): seq<real> {
    if xs == [] then [] else Insert(Sort(xs[..|xs| - 1]), xs[|xs| - 1])
  }

  lemma {:induction false} InsertAt(s: seq<real>, x: real, j: nat)
    requires j <= |s| && (j > 0 ==> s[j - 1] <= x)
    requires forall k :: j <= k < |s| ==> s[k] > x
    ensures Insert(s, x) == s[..j] + [x] + s[j..]
  {
    if j < |s| {
      var init := s[..|s| - 1];
      InsertAt(init, x, j);
      assert init[..j] == s[..j] && s[j..] == init[j..] + [s[|s| - 1]];
    }
  }

  /** The place where Insert puts x. */
  lemma {:induction false} Place(s: seq<real>, x: real) returns (j: nat)
    requires Sorted(s)
    ensures j <= |s|
    ensures forall k :: 0 <= k < j ==> s[k] <= x
    ensures forall k :: j <= k < |s| ==> s[k] > x
  {
    j := |s|;
    while j > 0 && s[j - 1] > x
      invariant j <= |s|
      invariant forall k :: j <= k < |s| ==> s[k] > x
    {
      j := j - 1;
    }
  }

  lemma Inserted(s: seq<real>, x: real, j: nat)
    requires Sorted(s) && j <= |s|
    requires (forall k :: 0 <= k < j ==> s[k] <= x) && (forall k :: j <= k < |s| ==> s[k] > x)
    ensures Sorted(s[..j] + [x] + s[j..])
  {}

  lemma InsertedMultiset(s: seq<real>, x: real, j: nat)
    requires j <= |s|
    ensures multiset(s[..j] + [x] + s[j..]) == multiset(s) + multiset{x}
  {
    assert s == s[..j] + s[j..];
  }

  lemma InsertSorted(s: seq<real>, x: real)
    requires Sorted(s)
    ensures Sorted(Insert(s, x)) && multiset(Insert(s, x)) == multiset(s) + multiset{x}
  {
    var j := Place(s, x);
    InsertAt(s, x, j);
    Inserted(s, x, j);
    InsertedMultiset(s, x, j);
  }

  lemma MultisetInit<T>(s: seq<T>)
    requires s != []
    ensures s[|s| - 1] in multiset(s)
    ensures multiset(s) == multiset(s[..|s| - 1]) + multiset{s[|s| - 1]}
  {
    assert s == s[..|s| - 1] + [s[|s| - 1]];
  }

  lemma {:induction false} SortSorts(xs: seq<real>)
    ensures Sorted(Sort(xs)) && multiset(Sort(xs)) == multiset(xs) && |Sort(xs)| == |xs|
  {
    if xs == [] {
    } else {
      SortSorts(xs[..|xs| - 1]);
      InsertSorted(Sort(xs[..|xs| - 1]), xs[|xs| - 1]);
      MultisetInit(xs);
      PermutationLength(Sort(xs), xs);
    }
  }

  lemma LastIsGreatest(s: seq<real>, x: real)
    requires Sorted(s) && s != [] && x in multiset(s)
    ensures x <= s[|s| - 1]
  {
    var k :| 0 <= k < |s| && s[k] == x;
  }

  lemma SameInit<T>(s: seq<T>, t: seq<T>)
    requires |s| == |t| > 0 && s[..|s| - 1] == t[..|t| - 1] && s[|s| - 1] == t[|t| - 1]
    ensures s == t
  {
    assert s == s[..|s| - 1] + [s[|s| - 1]];
  }

  lemma MultisetCancel<T>(a: multiset<T>, b: multiset<T>, x: T)
    requires a + multiset{x} == b + multiset{x}
    ensures a == b
  {
    assert a == a + multiset{x} - multiset{x};
    assert b == b + multiset{x} - multiset{x};
  }

  lemma SameLast(s: seq<real>, t: seq<real>)
    requires Sorted(s) && Sorted(t) && |s| == |t| > 0 && multiset(s) == multiset(t)
    ensures s[|s| - 1] == t[|t| - 1]
    ensures multiset(s[..|s| - 1]) == multiset(t[..|t| - 1])
  {
    MultisetInit(s);
    MultisetInit(t);
    LastIsGreatest(t, s[|s| - 1]);
    LastIsGreatest(s, t[|t| - 1]);
    MultisetCancel(multiset(s[..|s| - 1]), multiset(t[..|t| - 1]), s[|s| - 1]);
  }

  lemma {:induction false} SortedUnique(s: seq<real>, t: seq<real>)
    requires Sorted(s) && Sorted(t) && multiset(s) == multiset(t)
    ensures s == t
  {
    PermutationLength(s, t);
    if s == [] {
    } else {
      SameLast(s, t);
      SortedUnique(s[..|s| - 1], t[..|t| - 1]);
      SameInit(s, t);
    }
  }

  lemma SortPermutation(xs: seq<real>, ys: seq<real>)
    requires multiset(xs) == multiset(ys)
    ensures Sort(xs) == Sort(ys)
  {
    SortSorts(xs);
    SortSorts(ys);
    SortedUnique(Sort(xs), Sort(ys));
  }

  lemma SameFrom<T>(was: seq<T>, now: seq<T>, i: nat)
    requires i <= |was| == |now| && forall k :: i <= k < |was| ==> now[k] == was[k]
    ensures now[i..] == was[i..]
  {}

  lemma ShiftedBy<T>(was: seq<T>, now: seq<T>, j: nat, i: nat)
    requires j <= i < |was| == |now| && now[j] == was[i]
    requires forall k :: 0 <= k < j ==> now[k] == was[k]
    requires forall k :: j < k <= i ==> now[k] == was[k - 1]
    ensures now[..i + 1] == was[..i][..j] + [was[i]] + was[..i][j..]
  {}

  /** What it means for the element at i to have moved down to j. */
  lemma Shifted(was: seq<real>, now: seq<real>, j: nat, i: nat)
    requires j <= i < |was| == |now| && now[j] == was[i]
    requires forall k :: 0 <= k < j || i < k < |was| ==> now[k] == was[k]
    requires forall k :: j < k <= i ==> now[k] == was[k - 1] && now[k] > was[i]
    requires j > 0 ==> was[j - 1] <= was[i]
    ensures now[..i + 1] == Insert(was[..i], was[i]) && now[i + 1..] == was[i + 1..]
  {
    assert forall k :: j <= k < i ==> was[..i][k] == now[k + 1];
    InsertAt(was[..i], was[i], j);
    ShiftedBy(was, now, j, i);
    SameFrom(was, now, i + 1);
  }

  /** Moves a[i] down into the sorted prefix before it. */
  method InsertInPlace(a: array<real>, i: nat)
    requires i < a.Length
    modifies a
    ensures a[..i + 1] == Insert(old(a[..i]), old(a[i]))
    ensures a[i + 1..] == old(a[i + 1..])
  {
    ghost var was := a[..];
    var x := a[i];
    var j := i;
    while j > 0 && a[j - 1] > x
      invariant 0 <= j <= i
      invariant forall k :: 0 <= k < j || i < k < a.Length ==> a[k] == was[k]
      invariant a[j] == x
      invariant forall k :: j < k <= i ==> a[k] == was[k - 1]
      invariant forall k :: j < k <= i ==> a[k] > x
    {
      a[j - 1], a[j] := a[j], a[j - 1];
      j := j - 1;
    }
    Shifted(was, a[..], j, i);
    assert a[..][..i + 1] == a[..i + 1] && a[..][i + 1..] == a[i + 1..];
  }

  /** The in-place sort of the price slice. */
  method SortFloats(a: array<real>)
    modifies a
    ensures a[..] == Sort(old(a[..]))
  {
    ghost var was := a[..];
    for i := 0 to a.Length
      invariant a[..i] == Sort(was[..i])
      invariant a[i..] == was[i..]
    {
      assert a[i] == a[i..][0] == was[i];
      assert a[i + 1..] == a[i..][1..] == was[i + 1..];
      assert was[..i + 1][..i] == was[..i];
      SortSorts(was[..i]);
      InsertInPlace(a, i);
    }
    assert a[..] == a[..a.Length] && was == was[..a.Length];
  }
}
