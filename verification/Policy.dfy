/** Policy derived from the declared profiles: intersections of their allow-lists and the
    requirements they switch on. The per-profile tables are parameters. */
module Policy {
  import opened Maybes

  /** What a profile allows, or None where it does not constrain. */
  type Table = string -> Maybe<seq<string>>

  // ----- the intersection over constraining profiles -----

  function Common(a: seq<string>, b: seq<string>): (r: seq<string>)
    ensures forall x :: x in r <==> x in a && x in b
  {
    if a == [] then []
    else
      assert forall x :: x in a <==> x in a[..|a| - 1] || x == a[|a| - 1];
      Common(a[..|a| - 1], b) + (if a[|a| - 1] in b then [a[|a| - 1]] else [])
  }

  method IntersectStrings(a: seq<string>, b: seq<string>) returns (r: seq<string>)
    ensures r == Common(a, b)
  {
    r := [];
    for i := 0 to |a|
      invariant r == Common(a[..i], b)
    {
      assert a[..i + 1][..i] == a[..i];
      for j := 0 to |b|
        invariant a[i] !in b[..j] && r == Common(a[..i], b)
      {
        if a[i] == b[j] {
          r := r + [a[i]];
          break;
        }
      }
    }
    assert a[..|a|] == a;
  }

  /** x is allowed by every profile that constrains. */
  predicate AllowedByAll(profiles: seq<string>, list: Table, x: string)
  {
    forall i :: 0 <= i < |profiles| && list(profiles[i]).Some? ==> x in list(profiles[i]).value
  }

  predicate Constrained(profiles: seq<string>, list: Table)
  {
    exists i :: 0 <= i < |profiles| && list(profiles[i]).Some?
  }

  /** Absent exactly when no profile constrains; otherwise exactly what all of those allow. */
  ghost predicate IsIntersection(profiles: seq<string>, list: Table, r: Maybe<seq<string>>)
  {
    && (r.Some? <==> Constrained(profiles, list))
    && (r.Some? ==> forall x :: x in r.value <==> AllowedByAll(profiles, list, x))
  }

  method ProfileIntersection(profiles: seq<string>, list: Table) returns (r: Maybe<seq<string>>)
    ensures IsIntersection(profiles, list, r)
  {
    var allowed: seq<string>, first := [], true;
    for i := 0 to |profiles|
      invariant IsIntersection(profiles[..i], list, if first then None else Some(allowed))
    {
      var values := list(profiles[i]);
      IntersectionSnoc(profiles[..i], profiles[i], list);
      assert profiles[..i + 1] == profiles[..i] + [profiles[i]];
      if values.None? { continue; }
      if first {
        allowed, first := values.value, false;
        continue;
      }
      allowed := IntersectStrings(allowed, values.value);
    }
    assert profiles[..|profiles|] == profiles;
    r := if first then None else Some(allowed);
  }

  lemma IntersectionSnoc(profiles: seq<string>, p: string, list: Table)
    ensures Constrained(profiles + [p], list) <==> Constrained(profiles, list) || list(p).Some?
    ensures forall x :: AllowedByAll(profiles + [p], list, x) <==>
                        AllowedByAll(profiles, list, x) && (list(p).Some? ==> x in list(p).value)
    ensures !Constrained(profiles, list) ==> forall x :: AllowedByAll(profiles, list, x)
  {
    var all := profiles + [p];
    assert forall i :: 0 <= i < |profiles| ==> all[i] == profiles[i];
    assert all[|profiles|] == p;
    if i :| 0 <= i < |profiles| && list(profiles[i]).Some? { assert list(all[i]).Some?; }
    forall x ensures AllowedByAll(all, list, x) ==> AllowedByAll(profiles, list, x) {
      if AllowedByAll(all, list, x) {
        forall i | 0 <= i < |profiles| && list(profiles[i]).Some? ensures x in list(profiles[i]).value {
          assert list(all[i]).Some?;
        }
      }
    }
  }

  /** The order of the profiles does not matter, and declaring one more never allows more. */
  lemma IntersectionIsSymmetricAndShrinks(a: seq<string>, b: seq<string>, p: string, list: Table,
                                          ra: Maybe<seq<string>>, rb: Maybe<seq<string>>, rp: Maybe<seq<string>>)
    requires multiset(a) == multiset(b)
    requires IsIntersection(a, list, ra) && IsIntersection(b, list, rb) && IsIntersection(a + [p], list, rp)
    ensures ra.Some? <==> rb.Some?
    ensures ra.Some? ==> forall x :: x in ra.value <==> x in rb.value
    ensures ra.Some? ==> rp.Some? && forall x :: x in rp.value ==> x in ra.value
  {
    SameMembers(a, b, list);
    SameMembers(b, a, list);
    IntersectionSnoc(a, p, list);
  }

  lemma SameMembers(a: seq<string>, b: seq<string>, list: Table)
    requires multiset(a) == multiset(b)
    ensures Constrained(a, list) ==> Constrained(b, list)
    ensures forall x :: AllowedByAll(b, list, x) ==> AllowedByAll(a, list, x)
  {
    forall i | 0 <= i < |a| ensures exists j :: 0 <= j < |b| && b[j] == a[i] { assert a[i] in multiset(b); }
  }

  predicate IsMtls(m: string) { m == "tls_client_auth" || m == "self_signed_tls_client_auth" }

  function WithoutMtls(names: seq<string>): (r: seq<string>)
    ensures forall x :: x in r <==> x in names && !IsMtls(x)
  {
    if names == [] then []
    else
      var n := |names| - 1;
      assert forall x :: x in names <==> x in names[..n] || x == names[n];
      WithoutMtls(names[..n]) + (if IsMtls(names[n]) then [] else [names[n]])
  }

  function FilteredTable(list: Table): Table
  {
    p => if list(p).Some? then Some(WithoutMtls(list(p).value)) else None
  }

  /** Dropping the mTLS methods after intersecting is intersecting the filtered lists. */
  lemma FilterCommutes(profiles: seq<string>, list: Table, r: Maybe<seq<string>>)
    requires IsIntersection(profiles, list, r)
    ensures IsIntersection(profiles, FilteredTable(list), if r.Some? then Some(WithoutMtls(r.value)) else None)
  {
    if i :| 0 <= i < |profiles| && list(profiles[i]).Some? {
      assert FilteredTable(list)(profiles[i]).Some?;
      forall x
        ensures AllowedByAll(profiles, FilteredTable(list), x) <==> AllowedByAll(profiles, list, x) && !IsMtls(x)
      {
        if AllowedByAll(profiles, FilteredTable(list), x) {
          forall j | 0 <= j < |profiles| && list(profiles[j]).Some? ensures x in list(profiles[j]).value {
            assert FilteredTable(list)(profiles[j]).Some?;
          }
        }
      }
    }
  }

  /** A requirement any profile makes stays on when another profile is declared. */
  lemma RequirementsOnlyGrow(profiles: seq<string>, p: string, requires_: string -> bool)
    ensures (exists i :: 0 <= i < |profiles + [p]| && requires_((profiles + [p])[i])) <==>
            (exists i :: 0 <= i < |profiles| && requires_(profiles[i])) || requires_(p)
  {
    var all := profiles + [p];
    if i :| 0 <= i < |profiles| && requires_(profiles[i]) { assert requires_(all[i]); }
    if requires_(p) { assert requires_(all[|profiles|]); }
  }
}
