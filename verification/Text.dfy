/** Strings: lexicographic order, sorting, joining, and splitting on white space. */
module Text {
  import opened Sequences

  /** Go's string order, on code points. */
  predicate Leq(a: string, b: string)
  {
    a == [] || (b != [] && (a[0] < b[0] || (a[0] == b[0] && Leq(a[1..], b[1..]))))
  }

  lemma {:induction false} LeqTotal(a: string, b: string)
    ensures Leq(a, b) || Leq(b, a)
  {
    if a != [] && b != [] { LeqTotal(a[1..], b[1..]); }
  }

  lemma {:induction false} LeqAntisymmetric(a: string, b: string)
    requires Leq(a, b) && Leq(b, a)
    ensures a == b
  {
    if a != [] {
      LeqAntisymmetric(a[1..], b[1..]);
      assert a == [a[0]] + a[1..] && b == [b[0]] + b[1..];
    }
  }

  lemma {:induction false} LeqTransitive(a: string, b: string, c: string)
    requires Leq(a, b) && Leq(b, c)
    ensures Leq(a, c)
  {
    if a != [] && a[0] == b[0] && b[0] == c[0] { LeqTransitive(a[1..], b[1..], c[1..]); }
  }

  /** a and b agree up to k, and there a has the smaller character. */
  predicate SmallerAt(a: string, b: string, k: nat)
  {
    k < |a| && k < |b| && a[..k] == b[..k] && a[k] < b[k]
  }

  lemma SmallerBehind(a: string, b: string, k: nat)
    requires a != [] && b != [] && a[0] == b[0]
    ensures SmallerAt(a[1..], b[1..], k) <==> SmallerAt(a, b, k + 1)
  {
    if k < |a| - 1 && k < |b| - 1 {
      assert a[..k + 1] == [a[0]] + a[1..][..k];
      assert b[..k + 1] == [b[0]] + b[1..][..k];
    }
  }

  /** The order is that of a dictionary: a prefix goes first, else the first difference decides. */
  lemma {:induction false} LeqIsDictionaryOrder(a: string, b: string)
    ensures Leq(a, b) <==> a <= b || exists k: nat :: SmallerAt(a, b, k)
  {
    if a == [] || b == [] {
    } else if a[0] != b[0] {
      assert SmallerAt(a, b, 0) <==> a[0] < b[0];
    } else {
      LeqIsDictionaryOrder(a[1..], b[1..]);
      assert a == [a[0]] + a[1..] && b == [b[0]] + b[1..];
      if k: nat :| SmallerAt(a[1..], b[1..], k) { SmallerBehind(a, b, k); }
      if k: nat :| SmallerAt(a, b, k) { SmallerBehind(a, b, k - 1); }
      assert a <= b <==> a[1..] <= b[1..];
    }
  }

  ghost predicate Sorted(s: seq<string>)
  {
    forall i, j :: 0 <= i < j < |s| ==> Leq(s[i], s[j])
  }

  function Insert(x: string, s: seq<string>): seq<string>
  {
    if s == [] then [x] else if Leq(x, s[0]) then [x] + s else [s[0]] + Insert(x, s[1..])
  }

  function Sort(s: seq<string>): seq<string>
  {
    if s == [] then [] else Insert(s[|s| - 1], Sort(s[..|s| - 1]))
  }

  lemma {:induction false} InsertKeeps(x: string, s: seq<string>)
    ensures multiset(Insert(x, s)) == multiset(s) + multiset{x}
  {
    if s != [] {
      assert s == [s[0]] + s[1..];
      InsertKeeps(x, s[1..]);
    }
  }

  lemma {:induction false} InsertSorts(x: string, s: seq<string>)
    requires Sorted(s)
    ensures Sorted(Insert(x, s))
  {
    if s != [] {
      if Leq(x, s[0]) {
        forall j | 0 <= j < |s| ensures Leq(x, s[j]) { if j > 0 { LeqTransitive(x, s[0], s[j]); } }
      } else {
        LeqTotal(x, s[0]);
        var rest := Insert(x, s[1..]);
        InsertSorts(x, s[1..]);
        InsertKeeps(x, s[1..]);
        forall j | 0 <= j < |rest| ensures Leq(s[0], rest[j]) {
          assert rest[j] in multiset(rest);
          assert rest[j] == x || rest[j] in s[1..];
        }
      }
    }
  }

  lemma {:induction false} SortSorts(s: seq<string>)
    ensures Sorted(Sort(s)) && multiset(Sort(s)) == multiset(s)
  {
    if s != [] {
      var n := |s| - 1;
      SortSorts(s[..n]);
      InsertSorts(s[n], Sort(s[..n]));
      InsertKeeps(s[n], Sort(s[..n]));
      assert s == s[..n] + [s[n]];
    }
  }

  /** Sorting leaves nothing to choose: a multiset has one sorted listing. */
  lemma {:induction false} SortedIsUnique(a: seq<string>, b: seq<string>)
    requires Sorted(a) && Sorted(b) && multiset(a) == multiset(b)
    ensures a == b
  {
    if a == [] {
      assert |multiset(b)| == 0;
    } else {
      assert a == [a[0]] + a[1..];
      assert a[0] in multiset(b);
      assert |multiset(b)| > 0;
      assert b == [b[0]] + b[1..];
      assert b[0] in multiset(a);
      HeadIsLeast(a, b[0]);
      HeadIsLeast(b, a[0]);
      LeqAntisymmetric(a[0], b[0]);
      assert multiset(a[1..]) == multiset(a) - multiset{a[0]};
      assert multiset(b[1..]) == multiset(b) - multiset{b[0]};
      SortedIsUnique(a[1..], b[1..]);
    }
  }

  lemma HeadIsLeast(s: seq<string>, x: string)
    requires Sorted(s) && x in s
    ensures Leq(s[0], x)
  {
    var k :| 0 <= k < |s| && s[k] == x;
    if k == 0 { LeqTotal(x, x); }
  }

  /** The sorted listing of a set, whatever order its elements are met in. */
  ghost function SortedElements(s: set<string>): (r: seq<string>)
    ensures Sorted(r) && multiset(r) == multiset(s)
  {
    if s == {} then [] else
    var x :| x in s;
    assert multiset(s) == multiset(s - {x}) + multiset{x};
    InsertKeeps(x, SortedElements(s - {x}));
    InsertSorts(x, SortedElements(s - {x}));
    Insert(x, SortedElements(s - {x}))
  }

  function Join(tokens: seq<string>, sep: string): string
  {
    if tokens == [] then ""
    else if |tokens| == 1 then tokens[0]
    else tokens[0] + sep + Join(tokens[1..], sep)
  }

  // ----- white space -----

  /** unicode.IsSpace. */
  predicate IsSpace(c: char)
  {
    var x := c as int;
    0x09 <= x <= 0x0D || x == 0x20 || x == 0x85 || x == 0xA0 || x == 0x1680 || 0x2000 <= x <= 0x200A
    || x == 0x2028 || x == 0x2029 || x == 0x202F || x == 0x205F || x == 0x3000
  }

  predicate NoSpaceIn(s: string, i: nat, j: nat)
    requires j <= |s|
  {
    forall x :: i <= x < j ==> !IsSpace(s[x])
  }

  predicate IsToken(s: string) { s != [] && NoSpaceIn(s, 0, |s|) }

  /** The length of the run of non-space characters s starts with. */
  function RunLength(s: string): (n: nat)
    ensures n <= |s| && NoSpaceIn(s, 0, n)
    ensures n < |s| ==> IsSpace(s[n])
  {
    if s == [] || IsSpace(s[0]) then 0 else 1 + RunLength(s[1..])
  }

  /** strings.Fields. */
  function Fields(s: string): (r: seq<string>)
    ensures forall i :: 0 <= i < |r| ==> IsToken(r[i])
    decreases |s|
  {
    if s == [] then []
    else if IsSpace(s[0]) then Fields(s[1..])
    else [s[..RunLength(s)]] + Fields(s[RunLength(s)..])
  }

  lemma {:induction false} RunLengthOfToken(t: string, rest: string)
    requires NoSpaceIn(t, 0, |t|) && (rest == [] || IsSpace(rest[0]))
    ensures RunLength(t + rest) == |t|
  {
    if t == [] {
      assert t + rest == rest;
    } else {
      assert (t + rest)[1..] == t[1..] + rest;
      RunLengthOfToken(t[1..], rest);
    }
  }

  /** Joining tokens with a space and splitting again gives the tokens back. */
  lemma {:induction false} FieldsOfJoin(tokens: seq<string>)
    requires forall i :: 0 <= i < |tokens| ==> IsToken(tokens[i])
    ensures Fields(Join(tokens, " ")) == tokens
  {
    if tokens != [] {
      var t, more := tokens[0], tokens[1..];
      var tail := if more == [] then "" else " " + Join(more, " ");
      assert Join(tokens, " ") == t + tail by {
        if more == [] { assert t + tail == t; } else { assert t + " " + Join(more, " ") == t + tail; }
      }
      RunLengthOfToken(t, tail);
      assert (t + tail)[..|t|] == t && (t + tail)[|t|..] == tail;
      FieldsOfJoin(more);
      if more != [] { assert tail[1..] == Join(more, " "); }
      assert tokens == [t] + more;
    }
  }

  /** s[i..j] is a whole run of non-space characters: nothing on either side extends it. */
  predicate MaximalRun(s: string, i: nat, j: nat)
  {
    && i < j <= |s| && NoSpaceIn(s, i, j)
    && (i == 0 || IsSpace(s[i - 1]))
    && (j == |s| || IsSpace(s[j]))
  }

  /** Where Fields continues: past one space, or past the first run. */
  function Cut(s: string): (k: nat)
    requires s != []
    ensures 0 < k <= |s|
  {
    if IsSpace(s[0]) then 1 else RunLength(s)
  }

  lemma RunsAfterCut(s: string, i: nat, j: nat)
    requires s != [] && i <= j <= |s| - Cut(s)
    ensures MaximalRun(s[Cut(s)..], i, j) <==> MaximalRun(s, i + Cut(s), j + Cut(s))
  {
    var k, rest := Cut(s), s[Cut(s)..];
    assert forall x :: 0 <= x < |rest| ==> rest[x] == s[x + k];
    if MaximalRun(s, i + k, j + k) {
      forall x | i <= x < j ensures !IsSpace(rest[x]) { assert !IsSpace(s[x + k]); }
    }
    if MaximalRun(rest, i, j) {
      forall x | i + k <= x < j + k ensures !IsSpace(s[x]) { assert !IsSpace(rest[x - k]); }
      assert i == 0 ==> !IsSpace(rest[0]);
    }
  }

  lemma RunsBeforeCut(s: string, i: nat, j: nat)
    requires s != [] && MaximalRun(s, i, j) && i < Cut(s)
    ensures !IsSpace(s[0]) && i == 0 && j == Cut(s)
  {
    assert !IsSpace(s[i]);
  }

  lemma FieldsCut(s: string)
    requires s != []
    ensures Fields(s) == (if IsSpace(s[0]) then [] else [s[..Cut(s)]]) + Fields(s[Cut(s)..])
    ensures !IsSpace(s[0]) ==> MaximalRun(s, 0, Cut(s))
  {
  }

  lemma FieldsMembers(s: string, t: string)
    requires s != []
    ensures t in Fields(s) <==> t in Fields(s[Cut(s)..]) || (!IsSpace(s[0]) && t == s[..Cut(s)])
  {
    FieldsCut(s);
  }

  lemma {:induction false} FieldIsRun(s: string, t: string) returns (i: nat, j: nat)
    requires t in Fields(s)
    ensures MaximalRun(s, i, j) && s[i..j] == t
    decreases |s|
  {
    var k := Cut(s);
    FieldsMembers(s, t);
    if t in Fields(s[k..]) {
      var i', j' := FieldIsRun(s[k..], t);
      RunsAfterCut(s, i', j');
      i, j := i' + k, j' + k;
      SliceOfDrop(s, k, i', j');
    } else {
      FieldsCut(s);
      i, j := 0, k;
    }
  }

  lemma {:induction false} RunIsField(s: string, i: nat, j: nat)
    requires MaximalRun(s, i, j)
    ensures s[i..j] in Fields(s)
    decreases |s|
  {
    var k := Cut(s);
    FieldsMembers(s, s[i..j]);
    if i < k {
      RunsBeforeCut(s, i, j);
    } else {
      RunsAfterCut(s, i - k, j - k);
      RunIsField(s[k..], i - k, j - k);
      SliceOfDrop(s, k, i - k, j - k);
    }
  }

  /** Fields lists exactly the maximal runs of non-space characters. */
  lemma FieldsAreMaximalRuns(s: string, t: string)
    ensures t in Fields(s) <==> exists i: nat, j: nat :: MaximalRun(s, i, j) && s[i..j] == t
  {
    if t in Fields(s) { var i, j := FieldIsRun(s, t); }
    forall i: nat, j: nat | MaximalRun(s, i, j) && s[i..j] == t ensures t in Fields(s) { RunIsField(s, i, j); }
  }
}
