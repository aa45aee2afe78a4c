/** What unwrapping WithDefaults means, said without unwrapping: an option list is a tree, and
    the explicit and the wrapped options are its leaves, by their paths and in path order. */
module OptionPaths {
  import opened Options
  import opened Sequences

  type Path = seq<nat>

  /** The option at a path: an index into the list, then into what WithDefaults wraps there, and
      so on; Nil where the path leads nowhere. */
  function At(opts: seq<Option>, p: Path): Option
    decreases |p|
  {
    if p == [] || p[0] >= |opts| then Nil
    else if |p| == 1 then opts[p[0]]
    else if opts[p[0]].Defaults? then At(opts[p[0]].opts, p[1..])
    else Nil
  }

  predicate LeafAt(opts: seq<Option>, p: Path) { IsLeaf(At(opts, p)) }

  /** p comes before q, and neither lies within the other. */
  predicate Earlier(p: Path, q: Path)
  {
    p != [] && q != [] && (p[0] < q[0] || (p[0] == q[0] && Earlier(p[1..], q[1..])))
  }

  predicate InOrder(ps: seq<Path>) { forall i, j :: 0 <= i < j < |ps| ==> Earlier(ps[i], ps[j]) }

  predicate Names(opts: seq<Option>, ps: seq<Path>, xs: seq<Option>)
  {
    |ps| == |xs| && forall i :: 0 <= i < |ps| ==> At(opts, ps[i]) == xs[i]
  }

  /** A leaf among the options from lo up to hi, at a path of the kind asked for. */
  predicate Wanted(opts: seq<Option>, lo: nat, hi: nat, kind: Path -> bool, p: Path)
  {
    p != [] && lo <= p[0] < hi && LeafAt(opts, p) && kind(p)
  }

  /** xs are the leaves wanted, each once for each of its paths, in path order. */
  ghost predicate Lists(opts: seq<Option>, lo: nat, hi: nat, kind: Path -> bool, ps: seq<Path>, xs: seq<Option>)
  {
    && InOrder(ps) && Names(opts, ps, xs)
    && forall p :: p in ps <==> Wanted(opts, lo, hi, kind, p)
  }

  function Any(): Path -> bool { (p: Path) => true }
  function TopLevel(): Path -> bool { (p: Path) => |p| == 1 }
  function Nested(): Path -> bool { (p: Path) => |p| > 1 }

  // ----- one option after another -----

  lemma Extended(opts: seq<Option>, n: nat, kind: Path -> bool, ps: seq<Path>, xs: seq<Option>,
                 qs: seq<Path>, ys: seq<Option>)
    requires Lists(opts, 0, n, kind, ps, xs) && Lists(opts, n, n + 1, kind, qs, ys)
    ensures Lists(opts, 0, n + 1, kind, ps + qs, xs + ys)
  {
    var all := ps + qs;
    forall p ensures p in all <==> Wanted(opts, 0, n + 1, kind, p) {
      assert p in all <==> p in ps || p in qs;
    }
    forall i, j | 0 <= i < j < |all| ensures Earlier(all[i], all[j]) {
      if i < |ps| <= j {
        assert ps[i] in ps && qs[j - |ps|] in qs;
        assert Wanted(opts, 0, n, kind, ps[i]) && Wanted(opts, n, n + 1, kind, qs[j - |ps|]);
      }
    }
  }

  /** An option that wraps nothing has no path but its own. */
  lemma OnlyItself(opts: seq<Option>, n: nat, p: Path)
    requires n < |opts| && !opts[n].Defaults?
    ensures p != [] && p[0] == n && LeafAt(opts, p) ==> p == [n] && IsLeaf(opts[n])
  {
  }

  lemma NothingAt(opts: seq<Option>, n: nat, kind: Path -> bool)
    requires n < |opts| && !opts[n].Defaults? && (IsLeaf(opts[n]) ==> !kind([n]))
    ensures Lists(opts, n, n + 1, kind, [], [])
  {
    var none: seq<Path> := [];
    forall p ensures p in none <==> Wanted(opts, n, n + 1, kind, p) { OnlyItself(opts, n, p); }
  }

  lemma OneAt(opts: seq<Option>, n: nat, kind: Path -> bool)
    requires n < |opts| && IsLeaf(opts[n]) && kind([n])
    ensures Lists(opts, n, n + 1, kind, [[n]], [opts[n]])
  {
    forall p ensures p in [[n]] <==> Wanted(opts, n, n + 1, kind, p) {
      if Wanted(opts, n, n + 1, kind, p) { assert p == [n]; }
    }
  }

  lemma NoneAtTop(opts: seq<Option>, n: nat)
    requires n < |opts| && !IsLeaf(opts[n])
    ensures Lists(opts, n, n + 1, TopLevel(), [], [])
  {
  }

  function Prefixed(n: nat, qs: seq<Path>): (ps: seq<Path>)
    ensures |ps| == |qs| && forall i :: 0 <= i < |qs| ==> ps[i] == [n] + qs[i]
  {
    seq(|qs|, i requires 0 <= i < |qs| => [n] + qs[i])
  }

  /** What the option at n wraps, seen from outside. */
  lemma Outside(opts: seq<Option>, n: nat, q: Path)
    requires n < |opts| && opts[n].Defaults? && q != []
    ensures At(opts, [n] + q) == At(opts[n].opts, q)
  {
    assert ([n] + q)[1..] == q;
  }

  lemma PrefixedInOrder(n: nat, qs: seq<Path>)
    requires InOrder(qs)
    ensures InOrder(Prefixed(n, qs))
  {
    var ps := Prefixed(n, qs);
    forall i, j | 0 <= i < j < |ps| ensures Earlier(ps[i], ps[j]) {
      assert ps[i][1..] == qs[i] && ps[j][1..] == qs[j];
    }
  }

  lemma WrappedAt(opts: seq<Option>, n: nat, kind: Path -> bool, qs: seq<Path>, ys: seq<Option>)
    requires n < |opts| && opts[n].Defaults? && forall q: Path :: q != [] ==> kind([n] + q)
    requires Lists(opts[n].opts, 0, |opts[n].opts|, Any(), qs, ys)
    ensures Lists(opts, n, n + 1, kind, Prefixed(n, qs), ys)
  {
    var ps, inner := Prefixed(n, qs), opts[n].opts;
    PrefixedInOrder(n, qs);
    forall i | 0 <= i < |qs| ensures At(opts, ps[i]) == ys[i] {
      assert qs[i] in qs && Wanted(inner, 0, |inner|, Any(), qs[i]);
      Outside(opts, n, qs[i]);
    }
    forall p ensures p in ps <==> Wanted(opts, n, n + 1, kind, p) { PrefixedWanted(opts, n, kind, qs, p); }
  }

  lemma PrefixedWanted(opts: seq<Option>, n: nat, kind: Path -> bool, qs: seq<Path>, p: Path)
    requires n < |opts| && opts[n].Defaults? && forall q: Path :: q != [] ==> kind([n] + q)
    requires forall q :: q in qs <==> Wanted(opts[n].opts, 0, |opts[n].opts|, Any(), q)
    ensures p in Prefixed(n, qs) <==> Wanted(opts, n, n + 1, kind, p)
  {
    var ps, inner := Prefixed(n, qs), opts[n].opts;
    if p in ps {
      var i :| 0 <= i < |ps| && ps[i] == p;
      assert qs[i] in qs;
      Outside(opts, n, qs[i]);
    }
    if Wanted(opts, n, n + 1, kind, p) {
      assert |p| > 1 && p == [n] + p[1..];
      Outside(opts, n, p[1..]);
      LeafIsInside(inner, p[1..]);
      assert Wanted(inner, 0, |inner|, Any(), p[1..]);
      assert p[1..] in qs;
      var i :| 0 <= i < |qs| && qs[i] == p[1..];
      assert ps[i] == p;
    }
  }

  lemma LeafIsInside(opts: seq<Option>, p: Path)
    requires LeafAt(opts, p)
    ensures p != [] && p[0] < |opts|
  {
  }

  // ----- the whole list -----

  /** Unwrapping lists every leaf, at any depth. */
  lemma {:induction false} FlattenLists(opts: seq<Option>, n: nat) returns (ps: seq<Path>)
    requires n <= |opts|
    ensures Lists(opts, 0, n, Any(), ps, Flatten(opts[..n]))
    decreases opts, n
  {
    if n == 0 {
      ps := [];
    } else {
      var k := n - 1;
      var before := FlattenLists(opts, k);
      var here, found := FlattenAt(opts, k);
      Extended(opts, k, Any(), before, Flatten(opts[..k]), here, found);
      TakeOfTake(opts, n, k);
      ps := before + here;
    }
  }

  lemma FlattenAt(opts: seq<Option>, k: nat) returns (ps: seq<Path>, xs: seq<Option>)
    requires k < |opts|
    ensures Lists(opts, k, k + 1, Any(), ps, xs) && Flatten(opts[..k + 1]) == Flatten(opts[..k]) + xs
    decreases opts, k, 0
  {
    TakeOfTake(opts, k + 1, k);
    match opts[k] {
      case Nil =>
        ps, xs := [], [];
        NothingAt(opts, k, Any());
      case Defaults(inner) =>
        var qs := FlattenLists(inner, |inner|);
        TakeAll(inner);
        ps, xs := Prefixed(k, qs), Flatten(inner);
        WrappedAt(opts, k, Any(), qs, Flatten(inner));
      case _ =>
        ps, xs := [[k]], [opts[k]];
        OneAt(opts, k, Any());
    }
  }

  lemma {:induction false} ExplicitUpTo(opts: seq<Option>, n: nat) returns (ps: seq<Path>)
    requires n <= |opts|
    ensures Lists(opts, 0, n, TopLevel(), ps, Explicit(opts[..n]))
    decreases n
  {
    if n == 0 {
      ps := [];
    } else {
      var k := n - 1;
      var before := ExplicitUpTo(opts, k);
      TakeSnoc(opts, n);
      GatherSnoc(ExplicitPart, opts[..k], opts[k]);
      if IsLeaf(opts[k]) {
        OneAt(opts, k, TopLevel());
        ps := before + [[k]];
        Extended(opts, k, TopLevel(), before, Explicit(opts[..k]), [[k]], [opts[k]]);
      } else {
        NoneAtTop(opts, k);
        ps := before + [];
        Extended(opts, k, TopLevel(), before, Explicit(opts[..k]), [], []);
      }
    }
  }

  lemma {:induction false} WrappedUpTo(opts: seq<Option>, n: nat) returns (ps: seq<Path>)
    requires n <= |opts|
    ensures Lists(opts, 0, n, Nested(), ps, Wrapped(opts[..n]))
    decreases n
  {
    if n == 0 {
      ps := [];
    } else {
      var k := n - 1;
      var before := WrappedUpTo(opts, k);
      TakeSnoc(opts, n);
      GatherSnoc(WrappedPart, opts[..k], opts[k]);
      var here: seq<Path> := [];
      if opts[k].Defaults? {
        var inner := opts[k].opts;
        var qs := FlattenLists(inner, |inner|);
        TakeAll(inner);
        here := Prefixed(k, qs);
        WrappedAt(opts, k, Nested(), qs, Flatten(inner));
      } else {
        NothingAt(opts, k, Nested());
      }
      Extended(opts, k, Nested(), before, Wrapped(opts[..k]), here, WrappedPart(opts[k]));
      ps := before + here;
    }
  }

  /** For every option list: the explicit options are the leaves at the top level, the wrapped
      ones those inside a WithDefaults at any depth, each as often as it is written, in the order
      of their paths. */
  lemma SplitByPath(opts: seq<Option>) returns (explicit: seq<Path>, wrapped: seq<Path>)
    ensures Lists(opts, 0, |opts|, TopLevel(), explicit, Explicit(opts))
    ensures Lists(opts, 0, |opts|, Nested(), wrapped, Wrapped(opts))
  {
    explicit := ExplicitUpTo(opts, |opts|);
    wrapped := WrappedUpTo(opts, |opts|);
    TakeAll(opts);
  }

  /** Wrapping a WithDefaults once more changes nothing. */
  lemma NestingIsTransparent(a: seq<Option>, xs: seq<Option>, b: seq<Option>)
    ensures Outcome(a + [Defaults([Defaults(xs)])] + b) == Outcome(a + [Defaults(xs)] + b)
  {
    var once, twice := Defaults(xs), Defaults([Defaults(xs)]);
    assert [once][..0] == [];
    assert Flatten([once]) == Flatten(xs);
    SplitsAlike(ExplicitPart, a, once, twice, b);
    SplitsAlike(WrappedPart, a, once, twice, b);
  }

  lemma SplitsAlike(part: Option -> seq<Option>, a: seq<Option>, o: Option, o': Option, b: seq<Option>)
    requires part(o) == part(o')
    ensures Gather(part, a + [o] + b) == Gather(part, a + [o'] + b)
  {
    GatherConcat(part, a + [o], b);
    GatherConcat(part, a + [o'], b);
    GatherSnoc(part, a, o);
    GatherSnoc(part, a, o');
  }
}
