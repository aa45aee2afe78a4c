/** Concatenating a per-element sequence over a list, what survives reordering the list, and
    small facts about slices and pairs. */
module Sequences {

  function Gather<S, T>(f: S -> seq<T>, xs: seq<S>): seq<T>
  {
    if xs == [] then [] else Gather(f, xs[..|xs| - 1]) + f(xs[|xs| - 1])
  }

  lemma {:induction false} GatherConcat<S, T>(f: S -> seq<T>, a: seq<S>, b: seq<S>)
    ensures Gather(f, a + b) == Gather(f, a) + Gather(f, b)
    decreases |b|
  {
    if b == [] {
      assert a + b == a;
    } else {
      var n := |b| - 1;
      GatherConcat(f, a, b[..n]);
      assert (a + b)[..|a + b| - 1] == a + b[..n];
    }
  }

  lemma GatherOne<S, T>(f: S -> seq<T>, x: S)
    ensures Gather(f, [x]) == f(x)
  {
    assert [x][..0] == [];
  }

  lemma GatherSnoc<S, T>(f: S -> seq<T>, xs: seq<S>, x: S)
    ensures Gather(f, xs + [x]) == Gather(f, xs) + f(x)
  {
    assert (xs + [x])[..|xs|] == xs;
  }

  lemma {:induction false} GatherHas<S, T>(f: S -> seq<T>, xs: seq<S>, i: nat, y: T)
    requires i < |xs| && y in f(xs[i])
    ensures y in Gather(f, xs)
  {
    var n := |xs| - 1;
    if i < n { GatherHas(f, xs[..n], i, y); }
  }

  lemma GatherExtract<S, T>(f: S -> seq<T>, xs: seq<S>, k: nat)
    requires k < |xs|
    ensures multiset(Gather(f, xs)) == multiset(Gather(f, xs[..k] + xs[k + 1..])) + multiset(f(xs[k]))
  {
    assert xs == xs[..k] + ([xs[k]] + xs[k + 1..]);
    GatherConcat(f, xs[..k], [xs[k]] + xs[k + 1..]);
    GatherConcat(f, [xs[k]], xs[k + 1..]);
    GatherConcat(f, xs[..k], xs[k + 1..]);
    GatherOne(f, xs[k]);
  }

  function Without<T>(s: seq<T>, k: nat): seq<T>
    requires k < |s|
  {
    s[..k] + s[k + 1..]
  }

  lemma WithoutMultiset<T>(s: seq<T>, k: nat)
    requires k < |s|
    ensures multiset(Without(s, k)) == multiset(s) - multiset{s[k]}
  {
    assert s == s[..k] + [s[k]] + s[k + 1..];
    assert multiset(s) == multiset(Without(s, k)) + multiset{s[k]};
  }

  /** Reordering the list reorders the result. */
  lemma {:induction false} GatherReordered<S, T>(f: S -> seq<T>, a: seq<S>, b: seq<S>)
    requires multiset(a) == multiset(b)
    ensures multiset(Gather(f, a)) == multiset(Gather(f, b))
    decreases |a|
  {
    if a == [] {
      assert |multiset(b)| == 0;
    } else {
      var x, n := a[|a| - 1], |a| - 1;
      assert x in multiset(b);
      var k :| 0 <= k < |b| && b[k] == x;
      assert a[..n] == Without(a, n);
      WithoutMultiset(a, n);
      WithoutMultiset(b, k);
      GatherReordered(f, a[..n], Without(b, k));
      GatherExtract(f, b, k);
    }
  }

  lemma PlaceOf<T>(s: seq<T>, x: T) returns (i: nat)
    requires x in multiset(s)
    ensures i < |s| && s[i] == x
  {
    i :| i < |s| && s[i] == x;
  }

  /** Two positions of one listing have two different positions in any other listing of
      the same elements. */
  lemma TwoPlaces<T>(a: seq<T>, b: seq<T>, i: nat, j: nat) returns (p: nat, q: nat)
    requires multiset(a) == multiset(b) && i < j < |b|
    ensures p < |a| && q < |a| && p != q && a[p] == b[i] && a[q] == b[j]
  {
    p := PlaceOf(a, b[i]);
    SameWithout(a, b, p, i);
    assert Without(b, i)[j - 1] == b[j];
    var k := PlaceOf(Without(a, p), b[j]);
    q := if k < p then k else k + 1;
  }

  lemma SameWithout<T>(a: seq<T>, b: seq<T>, p: nat, i: nat)
    requires multiset(a) == multiset(b) && p < |a| && i < |b| && a[p] == b[i]
    ensures multiset(Without(a, p)) == multiset(Without(b, i))
  {
    WithoutMultiset(a, p);
    WithoutMultiset(b, i);
  }

  function Members<T(==)>(s: seq<T>): set<T> { set x <- s }

  lemma MembersSnoc<T>(s: seq<T>, x: T)
    ensures Members(s + [x]) == Members(s) + {x}
  {
  }

  predicate Distinct<T(==)>(s: seq<T>) { forall i, j :: 0 <= i < j < |s| ==> s[i] != s[j] }

  lemma DistinctSnoc<T>(s: seq<T>, x: T)
    ensures Distinct(s + [x]) <==> Distinct(s) && x !in s
  {
    var t := s + [x];
    assert forall i :: 0 <= i < |s| ==> t[i] == s[i];
    assert t[|s|] == x;
  }

  lemma DistinctParts<T>(a: seq<T>, b: seq<T>)
    requires Distinct(a + b)
    ensures Distinct(a) && Distinct(b) && forall x :: x in a ==> x !in b
  {
    var t := a + b;
    assert forall i :: 0 <= i < |a| ==> t[i] == a[i];
    assert forall i :: 0 <= i < |b| ==> t[|a| + i] == b[i];
  }

  predicate Each<T>(p: T -> bool, s: seq<T>) { forall i :: 0 <= i < |s| ==> p(s[i]) }

  lemma EachConcat<T>(p: T -> bool, a: seq<T>, b: seq<T>)
    ensures Each(p, a + b) <==> Each(p, a) && Each(p, b)
  {
    var c := a + b;
    assert forall i :: 0 <= i < |a| ==> c[i] == a[i];
    assert forall i :: 0 <= i < |b| ==> c[|a| + i] == b[i];
  }

  /** A property holds of everything gathered exactly when it holds of each element's part. */
  lemma {:induction false} EachGather<S, T>(p: T -> bool, f: S -> seq<T>, xs: seq<S>)
    ensures Each(p, Gather(f, xs)) <==> forall i :: 0 <= i < |xs| ==> Each(p, f(xs[i]))
  {
    if xs != [] {
      var n := |xs| - 1;
      EachGather(p, f, xs[..n]);
      EachConcat(p, Gather(f, xs[..n]), f(xs[n]));
      assert forall i :: 0 <= i < n ==> xs[i] == xs[..n][i];
    }
  }

  predicate Pairwise<S, T>(r: (S, T) -> bool, a: seq<S>, b: seq<T>)
  {
    |a| == |b| && forall i :: 0 <= i < |a| ==> r(a[i], b[i])
  }

  lemma PairwiseConcat<S, T>(r: (S, T) -> bool, a: seq<S>, b: seq<T>, c: seq<S>, d: seq<T>)
    requires Pairwise(r, a, b) && Pairwise(r, c, d)
    ensures Pairwise(r, a + c, b + d)
  {
  }

  lemma PairwiseInit<S, T>(r: (S, T) -> bool, a: seq<S>, b: seq<T>)
    requires Pairwise(r, a, b) && a != []
    ensures Pairwise(r, a[..|a| - 1], b[..|b| - 1]) && r(a[|a| - 1], b[|b| - 1])
  {
  }

  lemma PairwiseSnoc<S, T>(r: (S, T) -> bool, a: seq<S>, b: seq<T>, x: S, y: T)
    requires Pairwise(r, a, b) && r(x, y)
    ensures Pairwise(r, a + [x], b + [y])
  {
  }

  lemma PairwiseTail<S, T>(r: (S, T) -> bool, a: seq<S>, b: seq<T>)
    requires Pairwise(r, a, b) && a != []
    ensures Pairwise(r, a[1..], b[1..])
  {
  }

  lemma Associative<T>(a: seq<T>, b: seq<T>, c: seq<T>)
    ensures a + (b + c) == a + b + c
  {
  }

  lemma SliceOfDrop<T>(s: seq<T>, k: nat, i: nat, j: nat)
    requires i <= j <= |s| - k
    ensures s[k..][i..j] == s[i + k..j + k]
  {
  }

  lemma TakeSnoc<T>(s: seq<T>, n: nat)
    requires 0 < n <= |s|
    ensures s[..n] == s[..n - 1] + [s[n - 1]]
  {
  }

  lemma TakeOfTake<T>(s: seq<T>, n: nat, i: nat)
    requires i <= n <= |s|
    ensures s[..n][..i] == s[..i]
  {
  }

  lemma TakeBefore<T>(s: seq<T>, x: T)
    ensures |s + [x]| == |s| + 1 && (s + [x])[..|s|] == s && (s + [x])[|s|] == x
  {
  }

  lemma TakePair<T>(x: T, y: T)
    ensures [x, y][..1] == [x] && [x][..0] == []
  {
  }

  lemma TakeAll<T>(s: seq<T>)
    ensures s[..|s|] == s
  {
  }
}
