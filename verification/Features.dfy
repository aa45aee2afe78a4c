/** Which features and grants end up enabled: declared ones, those a declared profile
    requires, one default per unmet either-or group, and the late-resolved grant set. */
module Features {
  import opened Sequences

  /** The per-profile tables, which profiles and flags exist. */
  datatype Tables = Tables(
    known: string -> bool, valid: string -> bool,
    required: string -> seq<string>, groups: string -> seq<seq<string>>)

  /** One WithProfile or WithFeature call. */
  datatype Call = Profile(name: string) | Feature(flag: string)

  function Enable(features: seq<string>, f: string): (r: seq<string>)
    ensures forall x :: x in r <==> x in features || x == f
    ensures Distinct(features) ==> Distinct(r)
    ensures features <= r
  {
    if f in features then features else features + [f]
  }

  // ----- declaring -----

  /** f is asked for, by name or by a profile that requires it. */
  ghost predicate Wanted(t: Tables, calls: seq<Call>, f: string)
  {
    Feature(f) in calls || (exists p :: Profile(p) in calls && f in t.required(p) && t.valid(f))
  }

  function ProfileOf(c: Call): seq<string> { if c.Profile? then [c.name] else [] }

  function Profiles(calls: seq<Call>): seq<string> { Gather(ProfileOf, calls) }

  /** Every call names something known, and no profile is declared twice. */
  ghost predicate Declarable(t: Tables, calls: seq<Call>)
  {
    && (forall p :: Profile(p) in calls ==> t.known(p))
    && (forall f :: Feature(f) in calls ==> t.valid(f))
    && Distinct(Profiles(calls))
  }

  /** c may follow the calls. */
  predicate Admits(t: Tables, profiles: seq<string>, c: Call)
  {
    match c
    case Profile(p) => t.known(p) && p !in profiles
    case Feature(f) => t.valid(f)
  }

  class FeatureConfig {
    const t: Tables
    var profiles: seq<string>
    var features: seq<string>

    constructor (tables: Tables)
      ensures t == tables && profiles == [] && features == []
    {
      t, profiles, features := tables, [], [];
    }

    /** WithFeature: enabling a flag twice is not an error. */
    method WithFeature(f: string) returns (ok: bool)
      modifies this`features
      ensures ok == t.valid(f)
      ensures features == if ok then Enable(old(features), f) else old(features)
    {
      if !t.valid(f) { return false; }
      if f in features { return true; }
      features := features + [f];
      return true;
    }

    /** WithProfile: a repeated profile is an error, a feature it shares with others is not. */
    method WithProfile(p: string) returns (ok: bool)
      modifies this`profiles, this`features
      ensures ok <==> t.known(p) && p !in old(profiles)
      ensures ok ==> profiles == old(profiles) + [p] && old(features) <= features
      ensures ok ==> forall x :: x in features <==> x in old(features) || (x in t.required(p) && t.valid(x))
      ensures Distinct(old(features)) ==> Distinct(features)
    {
      if !t.known(p) || p in profiles { return false; }
      profiles := profiles + [p];
      var req := t.required(p);
      for i := 0 to |req|
        invariant profiles == old(profiles) + [p] && old(features) <= features
        invariant forall x :: x in features <==> x in old(features) || (x in req[..i] && t.valid(x))
        invariant Distinct(old(features)) ==> Distinct(features)
      {
        assert forall x :: x in req[..i + 1] <==> x in req[..i] || x == req[i];
        if !t.valid(req[i]) { continue; }
        if req[i] in features { continue; }
        features := Enable(features, req[i]);
      }
      assert req[..|req|] == req;
      return true;
    }

    /** All declarations, in any order and mixture: the features are what was wanted. */
    method Declare(calls: seq<Call>) returns (ok: bool)
      requires profiles == [] && features == []
      modifies this`profiles, this`features
      ensures ok <==> Declarable(t, calls)
      ensures ok ==> profiles == Profiles(calls) && Distinct(features)
                     && forall f :: f in features <==> Wanted(t, calls, f)
    {
      for i := 0 to |calls|
        invariant Declarable(t, calls[..i]) && profiles == Profiles(calls[..i]) && Distinct(features)
        invariant forall f :: f in features <==> Wanted(t, calls[..i], f)
      {
        assert calls[..i + 1] == calls[..i] + [calls[i]];
        match calls[i] {
          case Profile(p) => ok := WithProfile(p);
          case Feature(f) => ok := WithFeature(f);
        }
        DeclarableSnoc(t, calls[..i], calls[i]);
        assert ok <==> Declarable(t, calls[..i + 1]);
        if !ok {
          NotDeclarable(t, calls, i + 1);
          return;
        }
      }
      assert calls[..|calls|] == calls;
      ok := true;
    }

    /** One either-or group: nothing if some member is on, else its first member if valid. */
    method FillAnyOfDefault(group: seq<string>)
      modifies this`features
      ensures features == Fill(t, old(features), group)
    {
      if |group| == 0 { return; }
      for i := 0 to |group|
        invariant forall j :: 0 <= j < i ==> group[j] !in features
      {
        if group[i] in features { return; }
      }
      if !t.valid(group[0]) { return; }
      features := features + [group[0]];
    }

    method FillGroups(groups: seq<seq<string>>)
      modifies this`features
      ensures features == FillAll(t, old(features), groups)
    {
      for i := 0 to |groups|
        invariant features == FillAll(t, old(features), groups[..i])
      {
        assert groups[..i + 1][..i] == groups[..i];
        FillAnyOfDefault(groups[i]);
      }
      assert groups[..|groups|] == groups;
    }

    method ApplyProfileAnyOfDefaults()
      modifies this`features
      ensures features == FillAll(t, old(features), Gather(t.groups, profiles))
    {
      for i := 0 to |profiles|
        invariant features == FillAll(t, old(features), Gather(t.groups, profiles[..i]))
      {
        assert profiles[..i + 1][..i] == profiles[..i];
        FillAllConcat(t, old(features), Gather(t.groups, profiles[..i]), t.groups(profiles[i]));
        FillGroups(t.groups(profiles[i]));
      }
      assert profiles[..|profiles|] == profiles;
    }
  }

  lemma DeclarableSnoc(t: Tables, calls: seq<Call>, c: Call)
    ensures Declarable(t, calls + [c]) <==>
            Declarable(t, calls) && Admits(t, Profiles(calls), c)
    ensures forall f :: Wanted(t, calls + [c], f) <==>
                        Wanted(t, calls, f) || c == Feature(f) || (c.Profile? && f in t.required(c.name) && t.valid(f))
    ensures Profiles(calls + [c]) == Profiles(calls) + ProfileOf(c)
  {
    var all := calls + [c];
    assert forall x :: x in all <==> x in calls || x == c;
    assert all[..|calls|] == calls;
    var ps, qs := Profiles(calls), Profiles(all);
    assert c.Profile? ==> qs == ps + [c.name];
    assert Distinct(qs) ==> Distinct(ps) by {
      assert forall i :: 0 <= i < |ps| ==> qs[i] == ps[i];
    }
    if c.Profile? && c.name in ps {
      var k :| 0 <= k < |ps| && ps[k] == c.name;
      assert qs[k] == qs[|ps|];
    }
    forall f ensures Wanted(t, all, f) <==>
                     Wanted(t, calls, f) || c == Feature(f) || (c.Profile? && f in t.required(c.name) && t.valid(f)) {
      if p :| Profile(p) in calls && f in t.required(p) && t.valid(f) { assert Profile(p) in all; }
      if c.Profile? { assert Profile(c.name) in all; }
    }
  }

  lemma {:induction false} NotDeclarable(t: Tables, calls: seq<Call>, i: nat)
    requires i <= |calls| && !Declarable(t, calls[..i])
    ensures !Declarable(t, calls)
    decreases |calls|
  {
    if i == |calls| {
      assert calls[..i] == calls;
    } else {
      var n := |calls| - 1;
      assert calls[..n][..i] == calls[..i];
      NotDeclarable(t, calls[..n], i);
      assert calls == calls[..n] + [calls[n]];
      DeclarableSnoc(t, calls[..n], calls[n]);
    }
  }

  // ----- either-or groups -----

  predicate Met(features: seq<string>, group: seq<string>) { exists i :: 0 <= i < |group| && group[i] in features }

  function Fill(t: Tables, features: seq<string>, group: seq<string>): seq<string>
  {
    if group == [] || Met(features, group) || !t.valid(group[0]) then features else features + [group[0]]
  }

  function FillAll(t: Tables, features: seq<string>, groups: seq<seq<string>>): seq<string>
  {
    if groups == [] then features
    else Fill(t, FillAll(t, features, groups[..|groups| - 1]), groups[|groups| - 1])
  }

  lemma {:induction false} FillAllConcat(t: Tables, features: seq<string>, a: seq<seq<string>>, b: seq<seq<string>>)
    ensures FillAll(t, features, a + b) == FillAll(t, FillAll(t, features, a), b)
    decreases |b|
  {
    if b == [] {
      assert a + b == a;
    } else {
      var n := |b| - 1;
      assert (a + b)[..|a| + n] == a + b[..n];
      FillAllConcat(t, features, a, b[..n]);
    }
  }

  predicate Fillable(t: Tables, group: seq<string>) { group != [] && t.valid(group[0]) }

  predicate Open(t: Tables, features: seq<string>, group: seq<string>) { Fillable(t, group) && !Met(features, group) }

  /** x is the default of a group none of whose members was enabled. */
  ghost predicate DefaultOfUnmet(t: Tables, features: seq<string>, groups: seq<seq<string>>, x: string)
  {
    exists g :: g in groups && Open(t, features, g) && x == g[0]
  }

  /** The defaults keep the features duplicate-free, meet every group that has a valid
      default, and add only defaults of groups that were unmet. */
  lemma {:induction false} FillMeets(t: Tables, features: seq<string>, groups: seq<seq<string>>)
    requires Distinct(features)
    ensures var r := FillAll(t, features, groups);
            && features <= r && Distinct(r)
            && (forall k :: 0 <= k < |groups| && Fillable(t, groups[k]) ==> Met(r, groups[k]))
            && (forall x :: x in r && x !in features ==> DefaultOfUnmet(t, features, groups, x))
  {
    if groups != [] {
      var n := |groups| - 1;
      var init, g := groups[..n], groups[n];
      FillMeets(t, features, init);
      var before, r := FillAll(t, features, init), FillAll(t, features, groups);
      if Fillable(t, g) && !Met(before, g) { assert g[0] in r; }
      forall k | 0 <= k < |groups| && Fillable(t, groups[k]) ensures Met(r, groups[k]) {
        if k < n {
          assert groups[k] == init[k];
          var i :| 0 <= i < |groups[k]| && groups[k][i] in before;
        }
      }
      forall x | x in r && x !in features ensures DefaultOfUnmet(t, features, groups, x) {
        if x in before {
          var h :| h in init && Open(t, features, h) && x == h[0];
          assert h in groups;
        } else {
          assert g in groups && x == g[0];
        }
      }
    }
  }

  predicate SameFlags(a: seq<string>, b: seq<string>)
  {
    (forall x :: x in a ==> x in b) && (forall x :: x in b ==> x in a)
  }

  /** The default of g belongs to h without being its default. */
  predicate Conflict(g: seq<string>, h: seq<string>) { g != [] && h != [] && g[0] in h && g[0] != h[0] }

  /** No two unmet groups conflict. */
  ghost predicate NoConflict(t: Tables, features: seq<string>, groups: seq<seq<string>>)
  {
    forall g, h :: g in groups && h in groups && Open(t, features, g) && Open(t, features, h) ==> !Conflict(g, h)
  }

  lemma DefaultIsFilled(t: Tables, features: seq<string>, groups: seq<seq<string>>, g: seq<string>, r: seq<string>)
    requires NoConflict(t, features, groups) && g in groups && Open(t, features, g) && Met(r, g)
    requires forall x :: x in r && x !in features ==> DefaultOfUnmet(t, features, groups, x)
    ensures g[0] in r
  {
    var i :| 0 <= i < |g| && g[i] in r;
    var x := g[i];
    assert x !in features && x in g;
    var h :| h in groups && Open(t, features, h) && x == h[0];
    assert !Conflict(h, g);
  }

  /** Without a conflict the flags are the enabled ones and every unmet group's default. */
  lemma FillIsExact(t: Tables, features: seq<string>, groups: seq<seq<string>>)
    requires Distinct(features) && NoConflict(t, features, groups)
    ensures forall x :: x in FillAll(t, features, groups) <==> x in features || DefaultOfUnmet(t, features, groups, x)
  {
    FillMeets(t, features, groups);
    forall x | DefaultOfUnmet(t, features, groups, x) ensures x in FillAll(t, features, groups) {
      var g :| g in groups && Open(t, features, g) && x == g[0];
      DefaultIsFilled(t, features, groups, g, FillAll(t, features, groups));
    }
  }

  /** All the groups of the table are one and the same. */
  ghost predicate Coinciding(t: Tables)
  {
    forall p, q, g, h :: g in t.groups(p) && h in t.groups(q) ==> g == h
  }

  /** profile.RequiredAnyOf: the FAPI profiles ask for one of two sender constraints, the
      others for nothing. */
  function RequiredAnyOf(fapi: string -> bool): string -> seq<seq<string>>
  {
    p => if fapi(p) then [["dpop", "mtls"]] else []
  }

  lemma SourceGroupsCoincide(t: Tables, fapi: string -> bool)
    requires t.groups == RequiredAnyOf(fapi)
    ensures Coinciding(t)
  {
  }

  lemma {:induction false} GatheredFrom(t: Tables, profiles: seq<string>, g: seq<string>)
    requires g in Gather(t.groups, profiles)
    ensures exists p :: g in t.groups(p)
  {
    var n := |profiles| - 1;
    if g !in t.groups(profiles[n]) { GatheredFrom(t, profiles[..n], g); }
  }

  /** The order in which options are written does not matter: for any table whose groups
      coincide, two orders of the same calls end with the same flags. */
  lemma OptionOrderDoesNotMatter(t: Tables, a: seq<Call>, b: seq<Call>, fa: seq<string>, fb: seq<string>)
    requires Coinciding(t) && multiset(a) == multiset(b) && Distinct(fa) && Distinct(fb)
    requires forall f :: f in fa <==> Wanted(t, a, f)
    requires forall f :: f in fb <==> Wanted(t, b, f)
    ensures SameFlags(FillAll(t, fa, Gather(t.groups, Profiles(a))), FillAll(t, fb, Gather(t.groups, Profiles(b))))
  {
    var groups := Gather(t.groups, Profiles(a));
    forall g, h | g in groups && h in groups ensures g == h {
      GatheredFrom(t, Profiles(a), g);
      GatheredFrom(t, Profiles(a), h);
    }
    OrderWithoutConflict(t, a, b, fa, fb);
  }

  /** For any other table: two orders of the same calls end with the same flags whenever no
      two unmet groups conflict. */
  lemma OrderWithoutConflict(t: Tables, a: seq<Call>, b: seq<Call>, fa: seq<string>, fb: seq<string>)
    requires multiset(a) == multiset(b) && Distinct(fa) && Distinct(fb)
    requires forall f :: f in fa <==> Wanted(t, a, f)
    requires forall f :: f in fb <==> Wanted(t, b, f)
    requires NoConflict(t, fa, Gather(t.groups, Profiles(a)))
    ensures SameFlags(FillAll(t, fa, Gather(t.groups, Profiles(a))), FillAll(t, fb, Gather(t.groups, Profiles(b))))
  {
    var ga, gb := Gather(t.groups, Profiles(a)), Gather(t.groups, Profiles(b));
    SameWanted(t, a, b);
    SameWanted(t, b, a);
    GatherReordered(ProfileOf, a, b);
    GatherReordered(t.groups, Profiles(a), Profiles(b));
    SameDefaults(t, fa, fb, ga, gb);
    SameDefaults(t, fb, fa, gb, ga);
    FillIsExact(t, fa, ga);
    FillIsExact(t, fb, gb);
  }

  lemma SameWanted(t: Tables, a: seq<Call>, b: seq<Call>)
    requires multiset(a) == multiset(b)
    ensures forall f :: Wanted(t, a, f) ==> Wanted(t, b, f)
  {
    assert forall c :: c in a ==> c in multiset(b);
  }

  lemma OpenBySet(t: Tables, a: seq<string>, b: seq<string>)
    requires SameFlags(a, b)
    ensures forall g :: Open(t, a, g) <==> Open(t, b, g)
  {
  }

  lemma SameDefaults(t: Tables, fa: seq<string>, fb: seq<string>, ga: seq<seq<string>>, gb: seq<seq<string>>)
    requires SameFlags(fa, fb) && multiset(ga) == multiset(gb)
    ensures forall x :: DefaultOfUnmet(t, fa, ga, x) ==> DefaultOfUnmet(t, fb, gb, x)
    ensures NoConflict(t, fa, ga) ==> NoConflict(t, fb, gb)
  {
    OpenBySet(t, fa, fb);
    assert forall g :: g in ga ==> g in multiset(gb);
    assert forall g :: g in gb ==> g in multiset(ga);
  }

  /** Two unmet groups of an arbitrary table: filling them in either order gives the same
      flags exactly when they do not conflict. */
  lemma SwappedGroups(t: Tables, features: seq<string>, g: seq<string>, h: seq<string>)
    requires Open(t, features, g) && Open(t, features, h)
    ensures SameFlags(FillAll(t, features, [g, h]), FillAll(t, features, [h, g])) <==>
            !Conflict(g, h) && !Conflict(h, g)
  {
    TwoGroups(t, features, g, h);
    TwoGroups(t, features, h, g);
    var gh, hg := FillAll(t, features, [g, h]), FillAll(t, features, [h, g]);
    assert g[0] in g && h[0] in h && g[0] !in features && h[0] !in features;
    assert g[0] in gh && h[0] in hg;
    assert h[0] in gh <==> g[0] !in h || h[0] == g[0];
    assert g[0] in hg <==> h[0] !in g || h[0] == g[0];
  }

  lemma TwoGroups(t: Tables, features: seq<string>, g: seq<string>, h: seq<string>)
    requires Open(t, features, g) && Open(t, features, h)
    ensures FillAll(t, features, [g, h]) == if g[0] in h then features + [g[0]] else features + [g[0]] + [h[0]]
  {
    assert [g, h][..1] == [g] && [g][..0] == [];
    assert FillAll(t, features, [g]) == features + [g[0]];
    var one := features + [g[0]];
    if g[0] in h {
      var i :| 0 <= i < |h| && h[i] == g[0];
      assert h[i] in one;
    } else {
      assert forall i :: 0 <= i < |h| ==> h[i] !in features && h[i] != g[0];
    }
  }

  // ----- grants -----

  const AuthorizationCode := "authorization_code"
  const RefreshToken := "refresh_token"

  /** resolveGrants: the WithGrants list or the default pair, then each opt-in once. */
  method ResolveGrants(grantsSet: bool, grants: seq<string>, optIns: seq<(bool, string)>) returns (r: seq<string>)
    requires grantsSet ==> Distinct(grants)
    ensures Distinct(r)
    ensures var base := if grantsSet then grants else [AuthorizationCode, RefreshToken];
            base <= r && forall g :: g in r <==> g in base || (true, g) in optIns
  {
    r := if grantsSet then grants else [AuthorizationCode, RefreshToken];
    ghost var base := r;
    for i := 0 to |optIns|
      invariant Distinct(r) && base <= r
      invariant forall g :: g in r <==> g in base || (true, g) in optIns[..i]
    {
      assert forall x :: x in optIns[..i + 1] <==> x in optIns[..i] || x == optIns[i];
      var (enabled, g) := optIns[i];
      if !enabled || g in r { continue; }
      r := Enable(r, g);
    }
    assert optIns[..|optIns|] == optIns;
  }
}
