/** Authentication context classes: the ladder of levels, the policy that resolves and judges
    requested values, the validator of a custom table, session reuse, and the resource server. */
module Acr {
  import opened Maybes

  /** A custom table from acr value to the level that satisfies it. */
  type Levels = map<string, int>

  // ----- canonical URIs -----

  function AcrUri(level: int): string
  {
    match level
    case 1 => "urn:mace:incommon:iap:bronze"
    case 2 => "urn:mace:incommon:iap:silver"
    case 3 => "http://idmanagement.gov/ns/assurance/loa/4"
    case _ => ""
  }

  function FromUri(uri: string): int
  {
    if uri == AcrUri(1) then 1 else if uri == AcrUri(2) then 2 else if uri == AcrUri(3) then 3 else 0
  }

  lemma UrisDiffer()
    ensures AcrUri(1) != AcrUri(2) && AcrUri(1) != AcrUri(3) && AcrUri(2) != AcrUri(3)
    ensures AcrUri(1) != "" && AcrUri(2) != "" && AcrUri(3) != ""
  {
    assert |AcrUri(1)| == 28 && |AcrUri(3)| == 42;
    assert AcrUri(1)[22] != AcrUri(2)[22];
  }

  /** A recorded URI gives back the level it was written for exactly on the four real levels. */
  lemma UriRoundTrip(level: int)
    ensures FromUri(AcrUri(level)) == level <==> 0 <= level <= 3
    ensures 0 <= FromUri(AcrUri(level)) <= 3
  {
    UrisDiffer();
  }

  // ----- the policy -----

  /** The level a value names, 0 when it names none. */
  function Level(m: Levels, acr: string): int
  {
    if acr == "" then 0
    else
      var level := if acr in m then m[acr] else FromUri(acr);
      if 1 <= level <= 3 then level else 0
  }

  predicate Satisfies(m: Levels, acr: string, reached: int) { 0 < Level(m, acr) <= reached }

  function Resolve(m: Levels, wanted: seq<string>, reached: int): Maybe<string>
  {
    if wanted == [] then
      (if AcrUri(reached) == "" then None else Some(AcrUri(reached)))
    else
      FirstSatisfied(m, wanted, reached)
  }

  function FirstSatisfied(m: Levels, wanted: seq<string>, reached: int): Maybe<string>
  {
    if wanted == [] then None
    else if Satisfies(m, wanted[0], reached) then Some(wanted[0])
    else FirstSatisfied(m, wanted[1..], reached)
  }

  /** The answer is the earliest requested value the ceremony satisfies; there is none
      exactly when no value is satisfied. */
  lemma {:induction false} ResolveIsFirst(m: Levels, wanted: seq<string>, reached: int)
    ensures var r := FirstSatisfied(m, wanted, reached);
            && (r.None? <==> forall i :: 0 <= i < |wanted| ==> !Satisfies(m, wanted[i], reached))
            && (r.Some? ==> exists k :: 0 <= k < |wanted| && wanted[k] == r.value && Satisfies(m, wanted[k], reached)
                                        && forall i :: 0 <= i < k ==> !Satisfies(m, wanted[i], reached))
  {
    if wanted != [] && !Satisfies(m, wanted[0], reached) {
      var rest := wanted[1..];
      ResolveIsFirst(m, rest, reached);
      assert forall i :: 1 <= i < |wanted| ==> wanted[i] == rest[i - 1];
      var r := FirstSatisfied(m, rest, reached);
      if r.Some? {
        var k :| 0 <= k < |rest| && rest[k] == r.value && Satisfies(m, rest[k], reached)
                 && forall i :: 0 <= i < k ==> !Satisfies(m, rest[i], reached);
        assert wanted[k + 1] == r.value;
      } else {
        forall i | 0 <= i < |wanted| ensures !Satisfies(m, wanted[i], reached) {
          if i > 0 { assert !Satisfies(m, rest[i - 1], reached); }
        }
      }
    }
  }

  /** A stronger ceremony still resolves a request, to the same value or an earlier one. */
  lemma ResolveImproves(m: Levels, wanted: seq<string>, weak: int, strong: int)
    requires weak <= strong && FirstSatisfied(m, wanted, weak).Some?
    ensures FirstSatisfied(m, wanted, strong).Some?
    ensures exists i, j :: 0 <= i <= j < |wanted| && wanted[i] == FirstSatisfied(m, wanted, strong).value
                           && wanted[j] == FirstSatisfied(m, wanted, weak).value
  {
    ResolveIsFirst(m, wanted, weak);
    ResolveIsFirst(m, wanted, strong);
    var w, s := FirstSatisfied(m, wanted, weak), FirstSatisfied(m, wanted, strong);
    var j :| 0 <= j < |wanted| && wanted[j] == w.value && Satisfies(m, wanted[j], weak);
    assert Satisfies(m, wanted[j], strong);
    var i :| 0 <= i < |wanted| && wanted[i] == s.value && forall k :: 0 <= k < i ==> !Satisfies(m, wanted[k], strong);
    assert i <= j;
  }

  // ----- the validator -----

  predicate WellFormed(m: Levels) { forall k :: k in m ==> k != "" && 1 <= m[k] <= 3 }

  predicate KeepsCanonical(m: Levels) { forall k :: k in m && FromUri(k) != 0 ==> m[k] == FromUri(k) }

  /** validateBuiltinACRPolicy accepts the table and the advertised values. */
  predicate Accepted(m: Levels, advertised: seq<string>)
  {
    WellFormed(m) && KeepsCanonical(m) && forall i :: 0 <= i < |advertised| ==> Level(m, advertised[i]) != 0
  }

  /** A well-formed table judges every canonical URI at every level as the default policy does
      exactly when it leaves those URIs at their own level. */
  lemma AgreesWithDefault(m: Levels)
    requires WellFormed(m)
    ensures KeepsCanonical(m) <==>
            forall uri, reached :: FromUri(uri) != 0 ==>
              (Satisfies(m, uri, reached) <==> Satisfies(map[], uri, reached))
  {
    UrisDiffer();
    if k :| k in m && FromUri(k) != 0 && m[k] != FromUri(k) {
      var low := if m[k] < FromUri(k) then m[k] else FromUri(k);
      assert Satisfies(m, k, low) != Satisfies(map[], k, low);
    }
  }

  /** Every advertised value is satisfied by the strongest ceremony, and only such values are
      accepted for advertisement. */
  lemma AdvertisedIsReachable(m: Levels, advertised: seq<string>)
    requires WellFormed(m) && KeepsCanonical(m)
    ensures Accepted(m, advertised) <==> forall i :: 0 <= i < |advertised| ==> Satisfies(m, advertised[i], 3)
  {
    if !Accepted(m, advertised) {
      var i :| 0 <= i < |advertised| && Level(m, advertised[i]) == 0;
      assert !Satisfies(m, advertised[i], 3);
    }
  }

  // ----- session reuse -----

  /** What an established session satisfies: its level is read back from its canonical acr. */
  predicate SessionSatisfies(m: Levels, acr: string, recorded: string) { Satisfies(m, acr, FromUri(recorded)) }

  /** A session recorded at a level satisfies, under every table, exactly what a fresh ceremony
      at that level does: this needs the level to be no higher than the ladder. */
  lemma SessionJudgedAsFresh(level: int)
    ensures (forall m, acr :: SessionSatisfies(m, acr, AcrUri(level)) <==> Satisfies(m, acr, level)) <==> level <= 3
  {
    UriRoundTrip(level);
    UrisDiffer();
    if level > 3 {
      assert !SessionSatisfies(map[], AcrUri(1), AcrUri(level)) && Satisfies(map[], AcrUri(1), level);
    }
  }

  // ----- the resource server -----

  /** acrLevel: the lowest level at which the table considers the value met. */
  method AcrLevel(m: Levels, acr: string) returns (level: int)
    ensures level == Level(m, acr)
  {
    if acr == "" { return 0; }
    for l := 1 to 4
      invariant Level(m, acr) == 0 || l <= Level(m, acr)
    {
      if Satisfies(m, acr, l) { return l; }
    }
    return 0;
  }

  /** RequireACR on a token's acr. */
  method CheckAcr(m: Levels, required: string, token: string) returns (ok: bool)
    ensures ok <==> 0 < Level(m, required) <= Level(m, token)
  {
    var got := AcrLevel(m, token);
    ok := got != 0 && Satisfies(m, required, got);
  }

  /** End to end, for a table the provider accepted: the acr it writes into a token never
      makes the resource server accept more than the ceremony reached; when the client
      requested nothing, it accepts exactly that. */
  lemma TokenNeverOverstates(m: Levels, wanted: seq<string>, reached: int, required: string)
    requires Accepted(m, []) && 0 <= reached <= 3 && Resolve(m, wanted, reached).Some?
    ensures var token := Resolve(m, wanted, reached).value;
            && (0 < Level(m, required) <= Level(m, token) ==> Satisfies(m, required, reached))
            && (wanted == [] ==> Satisfies(m, required, reached) ==> 0 < Level(m, required) <= Level(m, token))
  {
    UriRoundTrip(reached);
    ResolveIsFirst(m, wanted, reached);
  }

  /** A table that moves a canonical URI would make the token overstate the ceremony. */
  lemma MovedUriOverstates()
    ensures var m := map[AcrUri(1) := 3];
            && WellFormed(m) && !KeepsCanonical(m) && Resolve(m, [], 1) == Some(AcrUri(1))
            && !Satisfies(m, AcrUri(2), 1) && 0 < Level(m, AcrUri(2)) <= Level(m, AcrUri(1))
  {
    UrisDiffer();
    assert AcrUri(1) in map[AcrUri(1) := 3] && FromUri(AcrUri(1)) == 1;
  }
}
