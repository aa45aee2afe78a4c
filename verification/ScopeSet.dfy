/** The public scope-set helper: parse a scope string into a set, print a set as the
    sorted, space-delimited wire form. */
module ScopeSet {
  import opened Text

  ghost function Tokens(raw: string): set<string> { set t | t in Fields(raw) }

  /** The wire form of a set: its tokens in order, one space apart. */
  ghost function Printed(scopes: set<string>): string { Join(SortedElements(scopes), " ") }

  method ParseScopeSet(raw: string) returns (scopes: set<string>)
    ensures forall t :: t in scopes <==> exists i: nat, j: nat :: MaximalRun(raw, i, j) && raw[i..j] == t
    ensures scopes == Tokens(raw)
  {
    scopes := {};
    var fields := Fields(raw);
    for i := 0 to |fields|
      invariant scopes == set t | t in fields[..i]
    {
      scopes := scopes + {fields[i]};
      assert fields[..i + 1] == fields[..i] + [fields[i]];
    }
    assert fields[..|fields|] == fields;
    forall t ensures t in scopes <==> exists i: nat, j: nat :: MaximalRun(raw, i, j) && raw[i..j] == t {
      FieldsAreMaximalRuns(raw, t);
    }
  }

  /** Collects the set in whatever order its elements are met, then sorts. */
  method String(scopes: set<string>) returns (s: string)
    ensures s == Printed(scopes)
  {
    if |scopes| == 0 {
      assert multiset(SortedElements(scopes)) == multiset{};
      return "";
    }
    var tokens: seq<string>, left := [], scopes;
    while left != {}
      invariant left <= scopes && multiset(tokens) == multiset(scopes - left)
    {
      var t :| t in left;
      tokens, left := tokens + [t], left - {t};
      assert scopes - left == (scopes - left - {t}) + {t};
    }
    assert scopes - left == scopes;
    SortSorts(tokens);
    tokens := Sort(tokens);
    SortedIsUnique(tokens, SortedElements(scopes));
    s := Join(tokens, " ");
  }

  /** Parsing undoes printing exactly for sets of non-empty, white-space-free tokens. */
  lemma ParseUndoesString(scopes: set<string>)
    ensures Tokens(Printed(scopes)) == scopes <==> forall t :: t in scopes ==> IsToken(t)
  {
    var tokens := SortedElements(scopes);
    forall t ensures t in tokens <==> t in scopes {
      assert t in tokens <==> t in multiset(tokens);
    }
    if forall t :: t in scopes ==> IsToken(t) {
      FieldsOfJoin(tokens);
    }
    assert forall t :: t in Tokens(Printed(scopes)) ==> IsToken(t);
  }

  /** Printing what was parsed is a normal form: two scope strings print alike exactly when
      they carry the same tokens, however ordered, repeated or spaced, and the normal form
      is its own. */
  lemma PrintedIsCanonical(x: string, y: string)
    ensures Printed(Tokens(x)) == Printed(Tokens(y)) <==> Tokens(x) == Tokens(y)
    ensures Printed(Tokens(Printed(Tokens(x)))) == Printed(Tokens(x))
  {
    ParseUndoesString(Tokens(x));
    ParseUndoesString(Tokens(y));
  }
}
