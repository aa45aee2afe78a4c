/** Locale bundles: every (tag, key) is claimed once, a key supplied inside WithDefaults
    gives way to the same key outside it, and the accepted bundles are merged over the
    seed catalogue. */
module LocaleBundles {
  import opened Options
  import opened Sequences
  import opened Text

  datatype Bundle = Bundle(tag: string, messages: map<string, string>)

  /** One WithLocaleBundle call; the zero LocaleBundle carries nothing. */
  datatype Call = ZeroBundle | With(bundle: Bundle)

  /** The claim a key makes, spelled as the option spells it. */
  function Slot(tag: string, key: string): string { "WithLocaleBundle (" + tag + " " + key + ")" }

  // ----- the claim names -----

  predicate NoBlank(s: string) { ' ' !in s }

  lemma {:induction false} FirstBlankSplits(t1: string, k1: string, t2: string, k2: string)
    requires NoBlank(t1) && NoBlank(t2) && t1 + " " + k1 == t2 + " " + k2
    ensures t1 == t2 && k1 == k2
  {
    var whole := t1 + " " + k1;
    assert whole[|t1|] == ' ' && whole[|t2|] == ' ';
    assert forall i :: 0 <= i < |t1| ==> whole[i] == t1[i];
    assert forall i :: 0 <= i < |t2| ==> whole[i] == t2[i];
    assert t1 == whole[..|t1|] && t2 == whole[..|t2|];
    assert k1 == whole[|t1| + 1..] && k2 == whole[|t2| + 1..];
  }

  lemma SlotBody(tag: string, key: string)
    ensures var s := Slot(tag, key); |s| >= 19 && s[18..|s| - 1] == tag + " " + key
  {
    var s := Slot(tag, key);
    assert s == "WithLocaleBundle (" + (tag + " " + key) + ")";
  }

  /** Claim names tell apart any two keys of tags without a blank, and any two keys of one tag. */
  lemma SlotInjective(t1: string, k1: string, t2: string, k2: string)
    requires (NoBlank(t1) && NoBlank(t2)) || t1 == t2
    requires Slot(t1, k1) == Slot(t2, k2)
    ensures t1 == t2 && k1 == k2
  {
    SlotBody(t1, k1);
    SlotBody(t2, k2);
    if t1 == t2 {
      assert (t1 + " " + k1)[|t1| + 1..] == k1 && (t2 + " " + k2)[|t1| + 1..] == k2;
    } else {
      FirstBlankSplits(t1, k1, t2, k2);
    }
  }

  /** A blank inside a tag, which tag parsing keeps, makes two different keys claim one name. */
  lemma BlankTagsCollide()
    ensures Slot("en us", "x") == Slot("en", "us x")
  {
    assert "en us" + " " + "x" == "en" + " " + "us x";
    assert Slot("en us", "x") == "WithLocaleBundle (" + ("en us" + " " + "x") + ")";
    assert Slot("en", "us x") == "WithLocaleBundle (" + ("en" + " " + "us x") + ")";
  }

  // ----- one call -----

  datatype Locales = Locales(claimed: map<string, Claim>, bundles: seq<Bundle>)

  datatype Attempt = Refused | Accepted(st: Locales)

  const NoLocales := Locales(map[], [])

  /** Some key of b is taken, and not by an explicit call a default may give way to. */
  predicate TakenKey(claimed: map<string, Claim>, b: Bundle, fallback: bool, key: string)
  {
    && key in b.messages && Slot(b.tag, key) in claimed
    && !(fallback && !claimed[Slot(b.tag, key)].fallback)
  }

  ghost predicate Repeats(claimed: map<string, Claim>, b: Bundle, fallback: bool)
  {
    exists key :: TakenKey(claimed, b, fallback, key)
  }

  /** b without the keys that gave way. */
  function Kept(claimed: map<string, Claim>, b: Bundle): Bundle
  {
    Bundle(b.tag, map key | key in b.messages && Slot(b.tag, key) !in claimed :: b.messages[key])
  }

  ghost function Claiming(claimed: map<string, Claim>, b: Bundle, fallback: bool): (r: map<string, Claim>)
    ensures forall slot :: slot in r <==> slot in claimed || exists key :: key in b.messages && slot == Slot(b.tag, key)
    ensures forall slot :: slot in claimed ==> r[slot] == claimed[slot]
    ensures forall slot :: slot in r && slot !in claimed ==> r[slot] == Claim(slot, fallback)
  {
    (map slot | slot in set key | key in b.messages :: Slot(b.tag, key) :: Claim(slot, fallback)) + claimed
  }

  ghost function CallStep(st: Locales, call: Call, fallback: bool): Attempt
  {
    if call.ZeroBundle? || Repeats(st.claimed, call.bundle, fallback) then Refused
    else Accepted(Locales(Claiming(st.claimed, call.bundle, fallback),
                          st.bundles + [Kept(st.claimed, call.bundle)]))
  }

  ghost function CallRun(st: Locales, calls: seq<Call>, fallback: bool): Attempt
  {
    if calls == [] then Accepted(st)
    else
      var before := CallRun(st, calls[..|calls| - 1], fallback);
      if before.Refused? then Refused else CallStep(before.st, calls[|calls| - 1], fallback)
  }

  // ----- which calls are accepted, and what they leave -----

  predicate Supplies(calls: seq<Call>, i: nat, tag: string, key: string)
  {
    i < |calls| && calls[i].With? && calls[i].bundle.tag == tag && key in calls[i].bundle.messages
  }

  ghost predicate Supplied(calls: seq<Call>, tag: string, key: string)
  {
    exists i: nat :: Supplies(calls, i, tag, key)
  }

  ghost predicate SlotOf(calls: seq<Call>, slot: string)
  {
    exists i: nat, tag, key :: Supplies(calls, i, tag, key) && slot == Slot(tag, key)
  }

  predicate PlainTags(calls: seq<Call>)
  {
    forall i :: 0 <= i < |calls| && calls[i].With? ==> NoBlank(calls[i].bundle.tag)
  }

  /** Calls i and j both make the claim slot. */
  predicate BothClaim(calls: seq<Call>, i: nat, t1: string, k1: string, j: nat, t2: string, k2: string)
  {
    i < j && Supplies(calls, i, t1, k1) && Supplies(calls, j, t2, k2) && Slot(t1, k1) == Slot(t2, k2)
  }

  /** No call is empty, and no two calls make one claim that is still open. */
  ghost predicate OncePerName(calls: seq<Call>, claimed: map<string, Claim>)
  {
    && (forall i :: 0 <= i < |calls| ==> calls[i].With?)
    && (forall i: nat, j: nat, t1, k1, t2, k2 :: BothClaim(calls, i, t1, k1, j, t2, k2) ==> Slot(t1, k1) in claimed)
  }

  function KeptLayers(claimed: map<string, Claim>, calls: seq<Call>): seq<Bundle>
    requires forall i :: 0 <= i < |calls| ==> calls[i].With?
  {
    seq(|calls|, i requires 0 <= i < |calls| => Kept(claimed, calls[i].bundle))
  }

  /** The claim table after calls, started from base. */
  ghost predicate LeavesClaims(base: map<string, Claim>, calls: seq<Call>, fallback: bool, claimed: map<string, Claim>)
  {
    && (forall slot :: slot in base ==> slot in claimed && claimed[slot] == base[slot])
    && (forall slot :: slot in claimed && slot !in base ==> claimed[slot].fallback == fallback)
    && (forall slot :: slot in claimed <==> slot in base || SlotOf(calls, slot))
  }

  /** The claim table and the bundle list after calls, started from base. */
  ghost predicate Leaves(base: Locales, calls: seq<Call>, fallback: bool, st: Locales)
  {
    && LeavesClaims(base.claimed, calls, fallback, st.claimed)
    && (forall i :: 0 <= i < |calls| ==> calls[i].With?)
    && st.bundles == base.bundles + KeptLayers(base.claimed, calls)
  }

  ghost predicate Begins(claimed: map<string, Claim>, fallback: bool)
  {
    forall slot :: slot in claimed ==> fallback && !claimed[slot].fallback
  }

  lemma SuppliesSnoc(calls: seq<Call>, call: Call, i: nat, tag: string, key: string)
    ensures Supplies(calls + [call], i, tag, key) <==>
            Supplies(calls, i, tag, key) || (i == |calls| && Supplies([call], 0, tag, key))
  {
  }

  /** A call is refused only for a claim an earlier call of the same phase already made. */
  lemma RefusalNamesARepeat(base: Locales, calls: seq<Call>, fallback: bool, st: Locales, call: Call, key: string)
    requires Begins(base.claimed, fallback) && Leaves(base, calls, fallback, st)
    requires call.With? && TakenKey(st.claimed, call.bundle, fallback, key)
    ensures !OncePerName(calls + [call], base.claimed)
  {
    var tag := call.bundle.tag;
    assert Slot(tag, key) !in base.claimed;
    var i: nat, t, k :| Supplies(calls, i, t, k) && Slot(tag, key) == Slot(t, k);
    SuppliesSnoc(calls, call, i, t, k);
    SuppliesSnoc(calls, call, |calls|, tag, key);
    assert BothClaim(calls + [call], i, t, k, |calls|, tag, key);
  }

  lemma AcceptanceMeansOnce(base: Locales, calls: seq<Call>, fallback: bool, st: Locales, call: Call)
    requires Begins(base.claimed, fallback)
    requires OncePerName(calls, base.claimed) && Leaves(base, calls, fallback, st)
    requires CallStep(st, call, fallback).Accepted?
    ensures OncePerName(calls + [call], base.claimed)
  {
    var all := calls + [call];
    forall i: nat, j: nat, t1, k1, t2, k2 | BothClaim(all, i, t1, k1, j, t2, k2) ensures Slot(t1, k1) in base.claimed {
      SuppliesSnoc(calls, call, i, t1, k1);
      SuppliesSnoc(calls, call, j, t2, k2);
      if j < |calls| {
        assert BothClaim(calls, i, t1, k1, j, t2, k2);
      } else {
        assert SlotOf(calls, Slot(t2, k2));
        assert !TakenKey(st.claimed, call.bundle, fallback, k2);
      }
    }
  }

  lemma OncePerNamePrefix(calls: seq<Call>, call: Call, claimed: map<string, Claim>)
    requires OncePerName(calls + [call], claimed)
    ensures OncePerName(calls, claimed)
  {
    var all := calls + [call];
    assert forall i :: 0 <= i < |calls| ==> all[i] == calls[i];
    forall i: nat, j: nat, t1, k1, t2, k2 | BothClaim(calls, i, t1, k1, j, t2, k2) ensures Slot(t1, k1) in claimed {
      assert BothClaim(all, i, t1, k1, j, t2, k2);
    }
  }

  lemma SlotsSnoc(calls: seq<Call>, call: Call, slot: string)
    requires call.With?
    ensures SlotOf(calls + [call], slot) <==>
            SlotOf(calls, slot) || exists key :: key in call.bundle.messages && slot == Slot(call.bundle.tag, key)
  {
    var all, b := calls + [call], call.bundle;
    if i: nat, tag, key :| Supplies(all, i, tag, key) && slot == Slot(tag, key) {
      SuppliesSnoc(calls, call, i, tag, key);
    }
    if i: nat, tag, key :| Supplies(calls, i, tag, key) && slot == Slot(tag, key) {
      SuppliesSnoc(calls, call, i, tag, key);
    }
    if key :| key in b.messages && slot == Slot(b.tag, key) {
      SuppliesSnoc(calls, call, |calls|, b.tag, key);
    }
  }

  lemma ClaimsSnoc(base: map<string, Claim>, calls: seq<Call>, fallback: bool, claimed: map<string, Claim>, call: Call)
    requires LeavesClaims(base, calls, fallback, claimed) && call.With?
    ensures LeavesClaims(base, calls + [call], fallback, Claiming(claimed, call.bundle, fallback))
  {
    var next := Claiming(claimed, call.bundle, fallback);
    forall slot ensures slot in next <==> slot in base || SlotOf(calls + [call], slot) { SlotsSnoc(calls, call, slot); }
  }

  lemma KeptBySame(base: map<string, Claim>, claimed: map<string, Claim>, b: Bundle, fallback: bool)
    requires Begins(base, fallback) && !Repeats(claimed, b, fallback)
    requires forall slot :: slot in base ==> slot in claimed
    requires forall slot :: slot in claimed && slot !in base ==> claimed[slot].fallback == fallback
    ensures Kept(claimed, b) == Kept(base, b)
  {
    forall key | key in b.messages ensures Slot(b.tag, key) in claimed <==> Slot(b.tag, key) in base {
      assert !TakenKey(claimed, b, fallback, key);
    }
  }

  lemma LeavesSnoc(base: Locales, calls: seq<Call>, fallback: bool, st: Locales, call: Call)
    requires Begins(base.claimed, fallback) && Leaves(base, calls, fallback, st)
    requires CallStep(st, call, fallback).Accepted?
    ensures Leaves(base, calls + [call], fallback, CallStep(st, call, fallback).st)
  {
    ClaimsSnoc(base.claimed, calls, fallback, st.claimed, call);
    KeptBySame(base.claimed, st.claimed, call.bundle, fallback);
    LayersSnoc(base.claimed, calls, call);
  }

  lemma LayersSnoc(claimed: map<string, Claim>, calls: seq<Call>, call: Call)
    requires call.With? && forall i :: 0 <= i < |calls| ==> calls[i].With?
    ensures KeptLayers(claimed, calls + [call]) == KeptLayers(claimed, calls) + [Kept(claimed, call.bundle)]
  {
  }

  lemma {:induction false} CallRunMeets(base: Locales, calls: seq<Call>, fallback: bool)
    requires Begins(base.claimed, fallback)
    ensures var r := CallRun(base, calls, fallback);
            && (r.Accepted? <==> OncePerName(calls, base.claimed))
            && (r.Accepted? ==> Leaves(base, calls, fallback, r.st))
  {
    if calls != [] {
      var init, last := calls[..|calls| - 1], calls[|calls| - 1];
      assert calls == init + [last];
      CallRunMeets(base, init, fallback);
      var before := CallRun(base, init, fallback);
      if before.Accepted? {
        if CallStep(before.st, last, fallback).Accepted? {
          AcceptanceMeansOnce(base, init, fallback, before.st, last);
          LeavesSnoc(base, init, fallback, before.st, last);
        } else if last.With? {
          var key :| TakenKey(before.st.claimed, last.bundle, fallback, key);
          RefusalNamesARepeat(base, init, fallback, before.st, last, key);
        }
      } else if OncePerName(calls, base.claimed) {
        OncePerNamePrefix(init, last, base.claimed);
      }
    }
  }

  // ----- the merged catalogue -----

  datatype Message = Missing | Found(value: string)

  predicate Has(b: Bundle, tag: string, key: string) { b.tag == tag && key in b.messages }

  /** What layering the bundles left to right, each over the ones before it, shows. */
  function Lookup(layers: seq<Bundle>, tag: string, key: string): Message
  {
    if layers == [] then Missing
    else if Has(layers[|layers| - 1], tag, key) then Found(layers[|layers| - 1].messages[key])
    else Lookup(layers[..|layers| - 1], tag, key)
  }

  lemma {:induction false} LookupUnder(base: seq<Bundle>, layers: seq<Bundle>, tag: string, key: string)
    requires forall i :: 0 <= i < |layers| ==> !Has(layers[i], tag, key)
    ensures Lookup(base + layers, tag, key) == Lookup(base, tag, key)
  {
    if layers == [] {
      assert base + layers == base;
    } else {
      var n := |layers| - 1;
      assert (base + layers)[..|base + layers| - 1] == base + layers[..n];
      LookupUnder(base, layers[..n], tag, key);
    }
  }

  lemma LookupOnly(base: seq<Bundle>, layers: seq<Bundle>, i: nat, tag: string, key: string)
    requires i < |layers| && Has(layers[i], tag, key)
    requires forall j :: i < j < |layers| ==> !Has(layers[j], tag, key)
    ensures Lookup(base + layers, tag, key) == Found(layers[i].messages[key])
  {
    var low := base + layers[..i + 1];
    assert base + layers == low + layers[i + 1..];
    LookupUnder(low, layers[i + 1..], tag, key);
    assert low[|low| - 1] == layers[i];
  }

  /** Explicit calls first, then the wrapped ones. */
  ghost function Configured(explicit: seq<Call>, wrapped: seq<Call>): Attempt
  {
    var first := CallRun(NoLocales, explicit, false);
    if first.Refused? then Refused else CallRun(first.st, wrapped, true)
  }

  ghost predicate NoKeyTwice(explicit: seq<Call>, wrapped: seq<Call>)
  {
    && (forall i :: 0 <= i < |explicit| ==> explicit[i].With?)
    && (forall i :: 0 <= i < |wrapped| ==> wrapped[i].With?)
    && (forall i: nat, j: nat, tag, key ::
          i < j && Supplies(explicit, i, tag, key) ==> !Supplies(explicit, j, tag, key))
    && (forall i: nat, j: nat, tag, key ::
          i < j && Supplies(wrapped, i, tag, key) && Supplies(wrapped, j, tag, key) ==> Supplied(explicit, tag, key))
  }

  ghost predicate NoNameTwice(explicit: seq<Call>, wrapped: seq<Call>)
  {
    && (forall i :: 0 <= i < |explicit| ==> explicit[i].With?)
    && (forall i :: 0 <= i < |wrapped| ==> wrapped[i].With?)
    && (forall i: nat, j: nat, t1, k1, t2, k2 :: !BothClaim(explicit, i, t1, k1, j, t2, k2))
    && (forall i: nat, j: nat, t1, k1, t2, k2 ::
          BothClaim(wrapped, i, t1, k1, j, t2, k2) ==> SlotOf(explicit, Slot(t1, k1)))
  }

  /** For every tag: construction fails exactly on an empty bundle or a claim name made twice. */
  lemma VerdictByName(explicit: seq<Call>, wrapped: seq<Call>)
    ensures Configured(explicit, wrapped).Accepted? <==> NoNameTwice(explicit, wrapped)
  {
    CallRunMeets(NoLocales, explicit, false);
    var first := CallRun(NoLocales, explicit, false);
    if first.Accepted? { CallRunMeets(first.st, wrapped, true); }
  }

  ghost predicate AnySupplies(explicit: seq<Call>, wrapped: seq<Call>, tag: string, key: string)
  {
    Supplied(explicit, tag, key) || Supplied(wrapped, tag, key)
  }

  /** No two different supplied keys make one claim name. */
  ghost predicate CollisionFree(explicit: seq<Call>, wrapped: seq<Call>)
  {
    forall t1, k1, t2, k2 ::
      AnySupplies(explicit, wrapped, t1, k1) && AnySupplies(explicit, wrapped, t2, k2) && Slot(t1, k1) == Slot(t2, k2)
      ==> t1 == t2 && k1 == k2
  }

  /** Tags without a blank never collide. */
  lemma PlainTagsNeverCollide(explicit: seq<Call>, wrapped: seq<Call>)
    requires PlainTags(explicit) && PlainTags(wrapped)
    ensures CollisionFree(explicit, wrapped)
  {
    forall t1, k1, t2, k2 | AnySupplies(explicit, wrapped, t1, k1) && AnySupplies(explicit, wrapped, t2, k2)
                            && Slot(t1, k1) == Slot(t2, k2)
      ensures t1 == t2 && k1 == k2
    {
      SlotInjective(t1, k1, t2, k2);
    }
  }

  /** Where no claim names collide, it fails exactly on an empty bundle or a key supplied twice. */
  lemma VerdictByKey(explicit: seq<Call>, wrapped: seq<Call>)
    requires CollisionFree(explicit, wrapped)
    ensures Configured(explicit, wrapped).Accepted? <==> NoKeyTwice(explicit, wrapped)
  {
    VerdictByName(explicit, wrapped);
    if NoKeyTwice(explicit, wrapped) { KeysOnceNamesOnce(explicit, wrapped); }
    if NoNameTwice(explicit, wrapped) { NamesOnceKeysOnce(explicit, wrapped); }
  }

  lemma KeysOnceNamesOnce(explicit: seq<Call>, wrapped: seq<Call>)
    requires CollisionFree(explicit, wrapped) && NoKeyTwice(explicit, wrapped)
    ensures NoNameTwice(explicit, wrapped)
  {
    forall i: nat, j: nat, t1, k1, t2, k2 ensures !BothClaim(explicit, i, t1, k1, j, t2, k2) {
      assert Supplies(explicit, i, t1, k1) && Supplies(explicit, j, t2, k2) ==>
               AnySupplies(explicit, wrapped, t1, k1) && AnySupplies(explicit, wrapped, t2, k2);
    }
    forall i: nat, j: nat, t1, k1, t2, k2 | BothClaim(wrapped, i, t1, k1, j, t2, k2)
      ensures SlotOf(explicit, Slot(t1, k1))
    {
      assert AnySupplies(explicit, wrapped, t1, k1) && AnySupplies(explicit, wrapped, t2, k2);
      var n: nat :| Supplies(explicit, n, t1, k1);
    }
  }

  lemma NamesOnceKeysOnce(explicit: seq<Call>, wrapped: seq<Call>)
    requires CollisionFree(explicit, wrapped) && NoNameTwice(explicit, wrapped)
    ensures NoKeyTwice(explicit, wrapped)
  {
    forall i: nat, j: nat, tag, key | i < j && Supplies(explicit, i, tag, key)
      ensures !Supplies(explicit, j, tag, key)
    {
      assert !BothClaim(explicit, i, tag, key, j, tag, key);
    }
    forall i: nat, j: nat, tag, key | i < j && Supplies(wrapped, i, tag, key) && Supplies(wrapped, j, tag, key)
      ensures Supplied(explicit, tag, key)
    {
      assert BothClaim(wrapped, i, tag, key, j, tag, key);
      var n: nat, t, k :| Supplies(explicit, n, t, k) && Slot(tag, key) == Slot(t, k);
      assert AnySupplies(explicit, wrapped, tag, key) && AnySupplies(explicit, wrapped, t, k);
    }
  }

  const blankA := With(Bundle("en us", map["x" := "1"]))
  const blankB := With(Bundle("en", map["us x" := "2"]))

  lemma OneCall(st: Locales, call: Call, fallback: bool)
    ensures CallRun(st, [call], fallback) == CallStep(st, call, fallback)
  {
    assert [call][..0] == [];
  }

  /** With a blank in a tag, two different keys are refused as one supplied twice. */
  lemma BlankTagsRefuseDifferentKeys()
    ensures NoKeyTwice([blankA, blankB], []) && Configured([blankA, blankB], []).Refused?
  {
    var both := [blankA, blankB];
    BlankTagsCollide();
    VerdictByName(both, []);
    assert Supplies(both, 0, "en us", "x") && Supplies(both, 1, "en", "us x");
    assert BothClaim(both, 0, "en us", "x", 1, "en", "us x");
  }

  /** And a default key nobody overrode is dropped. */
  lemma BlankTagsDropADefault()
    ensures NoKeyTwice([blankA], [blankB]) && Configured([blankA], [blankB]).Accepted?
    ensures Lookup(Configured([blankA], [blankB]).st.bundles, "en", "us x") == Missing
  {
    BlankTagsCollide();
    ConfiguredOneEach(blankA, blankB);
    BlankMiddle();
    var mid := CallStep(NoLocales, blankA, false).st;
    DroppedFrom(Kept(map[], blankA.bundle), Kept(mid.claimed, blankB.bundle));
  }

  lemma ConfiguredOneEach(x: Call, y: Call)
    requires CallStep(NoLocales, x, false).Accepted?
    ensures Configured([x], [y]) == CallStep(CallStep(NoLocales, x, false).st, y, true)
  {
    OneCall(NoLocales, x, false);
    OneCall(CallStep(NoLocales, x, false).st, y, true);
  }

  lemma BlankMiddle()
    ensures CallStep(NoLocales, blankA, false).Accepted?
    ensures var mid := CallStep(NoLocales, blankA, false).st;
            && mid.bundles == [Kept(map[], blankA.bundle)] && Slot("en", "us x") in mid.claimed
            && CallStep(mid, blankB, true).Accepted?
            && CallStep(mid, blankB, true).st.bundles == [Kept(map[], blankA.bundle), Kept(mid.claimed, blankB.bundle)]
  {
    BlankTagsCollide();
    assert "x" in blankA.bundle.messages;
  }

  lemma DroppedFrom(a: Bundle, b: Bundle)
    requires a.tag == "en us" && "us x" !in b.messages
    ensures Lookup([a, b], "en", "us x") == Missing
  {
    assert !Has(a, "en", "us x") && !Has(b, "en", "us x");
    assert [a, b][..1] == [a] && [a][..0] == [];
    assert Lookup([a], "en", "us x") == Lookup([], "en", "us x");
  }

  ghost predicate ShowsFirstOf(shown: Message, explicit: seq<Call>, wrapped: seq<Call>,
                               seed: Message, tag: string, key: string)
  {
    && (forall i: nat :: Supplies(explicit, i, tag, key) ==> shown == Found(explicit[i].bundle.messages[key]))
    && (!Supplied(explicit, tag, key) ==>
          forall i: nat :: Supplies(wrapped, i, tag, key) ==> shown == Found(wrapped[i].bundle.messages[key]))
    && (!Supplied(explicit, tag, key) && !Supplied(wrapped, tag, key) ==> shown == seed)
  }

  ghost function Layers(explicit: seq<Call>, wrapped: seq<Call>, claimed: map<string, Claim>): (r: seq<Bundle>)
    requires forall i :: 0 <= i < |explicit| ==> explicit[i].With?
    requires forall i :: 0 <= i < |wrapped| ==> wrapped[i].With?
    ensures |r| == |explicit| + |wrapped|
    ensures forall i :: 0 <= i < |explicit| ==> r[i] == Kept(map[], explicit[i].bundle)
    ensures forall i :: |explicit| <= i < |r| ==> r[i] == Kept(claimed, wrapped[i - |explicit|].bundle)
  {
    KeptLayers(map[], explicit) + KeptLayers(claimed, wrapped)
  }

  /** What an accepted configuration shows, for every tag: the explicit message; else the
      wrapped one, if no explicit call makes its claim name; else the seed's. */
  ghost predicate ShowsByName(shown: Message, explicit: seq<Call>, wrapped: seq<Call>,
                              seed: Message, tag: string, key: string)
  {
    && (forall i: nat :: Supplies(explicit, i, tag, key) ==> shown == Found(explicit[i].bundle.messages[key]))
    && (!SlotOf(explicit, Slot(tag, key)) ==>
          forall i: nat :: Supplies(wrapped, i, tag, key) ==> shown == Found(wrapped[i].bundle.messages[key]))
    && (!Supplied(explicit, tag, key) && (SlotOf(explicit, Slot(tag, key)) || !Supplied(wrapped, tag, key)) ==>
          shown == seed)
  }

  ghost predicate ClaimsOf(explicit: seq<Call>, claimed: map<string, Claim>)
  {
    forall slot :: slot in claimed <==> SlotOf(explicit, slot)
  }

  lemma LayerHas(explicit: seq<Call>, wrapped: seq<Call>, claimed: map<string, Claim>, tag: string, key: string, i: nat)
    requires NoNameTwice(explicit, wrapped) && i < |explicit| + |wrapped|
    ensures Has(Layers(explicit, wrapped, claimed)[i], tag, key) <==>
            if i < |explicit| then Supplies(explicit, i, tag, key)
            else Supplies(wrapped, i - |explicit|, tag, key) && Slot(tag, key) !in claimed
  {
  }

  lemma ShowsExplicit(seeds: seq<Bundle>, explicit: seq<Call>, wrapped: seq<Call>, claimed: map<string, Claim>,
                      tag: string, key: string, i: nat)
    requires NoNameTwice(explicit, wrapped) && ClaimsOf(explicit, claimed) && Supplies(explicit, i, tag, key)
    ensures Lookup(seeds + Layers(explicit, wrapped, claimed), tag, key) == Found(explicit[i].bundle.messages[key])
  {
    var layers := Layers(explicit, wrapped, claimed);
    assert SlotOf(explicit, Slot(tag, key));
    forall j: nat | i <= j < |layers| ensures Has(layers[j], tag, key) <==> j == i {
      LayerHas(explicit, wrapped, claimed, tag, key, j);
      assert !BothClaim(explicit, i, tag, key, j, tag, key);
    }
    LookupOnly(seeds, layers, i, tag, key);
  }

  lemma ShowsWrapped(seeds: seq<Bundle>, explicit: seq<Call>, wrapped: seq<Call>, claimed: map<string, Claim>,
                     tag: string, key: string, i: nat)
    requires NoNameTwice(explicit, wrapped) && ClaimsOf(explicit, claimed) && Supplies(wrapped, i, tag, key)
    requires !SlotOf(explicit, Slot(tag, key))
    ensures Lookup(seeds + Layers(explicit, wrapped, claimed), tag, key) == Found(wrapped[i].bundle.messages[key])
  {
    var layers, n := Layers(explicit, wrapped, claimed), |explicit| + i;
    forall j: nat | n <= j < |layers| ensures Has(layers[j], tag, key) <==> j == n {
      LayerHas(explicit, wrapped, claimed, tag, key, j);
      assert !BothClaim(wrapped, i, tag, key, j - |explicit|, tag, key);
    }
    LookupOnly(seeds, layers, n, tag, key);
  }

  lemma ShowsSeed(seeds: seq<Bundle>, explicit: seq<Call>, wrapped: seq<Call>, claimed: map<string, Claim>,
                  tag: string, key: string)
    requires NoNameTwice(explicit, wrapped) && ClaimsOf(explicit, claimed)
    requires !Supplied(explicit, tag, key) && (SlotOf(explicit, Slot(tag, key)) || !Supplied(wrapped, tag, key))
    ensures Lookup(seeds + Layers(explicit, wrapped, claimed), tag, key) == Lookup(seeds, tag, key)
  {
    var layers := Layers(explicit, wrapped, claimed);
    forall j: nat | j < |layers| ensures !Has(layers[j], tag, key) {
      LayerHas(explicit, wrapped, claimed, tag, key, j);
    }
    LookupUnder(seeds, layers, tag, key);
  }

  lemma AcceptedLayers(explicit: seq<Call>, wrapped: seq<Call>) returns (claimed: map<string, Claim>)
    requires Configured(explicit, wrapped).Accepted?
    ensures NoNameTwice(explicit, wrapped) && ClaimsOf(explicit, claimed)
    ensures Configured(explicit, wrapped).st.bundles == Layers(explicit, wrapped, claimed)
  {
    VerdictByName(explicit, wrapped);
    CallRunMeets(NoLocales, explicit, false);
    var mid := CallRun(NoLocales, explicit, false).st;
    CallRunMeets(mid, wrapped, true);
    claimed := mid.claimed;
  }

  /** The messages of every accepted configuration, whatever its tags. */
  lemma CatalogueMeets(seeds: seq<Bundle>, explicit: seq<Call>, wrapped: seq<Call>, tag: string, key: string)
    requires Configured(explicit, wrapped).Accepted?
    ensures ShowsByName(Lookup(seeds + Configured(explicit, wrapped).st.bundles, tag, key),
                        explicit, wrapped, Lookup(seeds, tag, key), tag, key)
  {
    var claimed := AcceptedLayers(explicit, wrapped);
    forall i: nat | Supplies(explicit, i, tag, key) { ShowsExplicit(seeds, explicit, wrapped, claimed, tag, key, i); }
    if !SlotOf(explicit, Slot(tag, key)) {
      forall i: nat | Supplies(wrapped, i, tag, key) { ShowsWrapped(seeds, explicit, wrapped, claimed, tag, key, i); }
    }
    if !Supplied(explicit, tag, key) && (SlotOf(explicit, Slot(tag, key)) || !Supplied(wrapped, tag, key)) {
      ShowsSeed(seeds, explicit, wrapped, claimed, tag, key);
    }
  }

  /** No seed key is ever lost: whatever is configured, it still has a message. */
  lemma NoSeedKeyIsLost(seeds: seq<Bundle>, explicit: seq<Call>, wrapped: seq<Call>, tag: string, key: string)
    requires Configured(explicit, wrapped).Accepted? && Lookup(seeds, tag, key).Found?
    ensures Lookup(seeds + Configured(explicit, wrapped).st.bundles, tag, key).Found?
  {
    CatalogueMeets(seeds, explicit, wrapped, tag, key);
  }

  // ----- exactly when the promise per key holds -----

  /** The configuration is accepted and shows, over any seeds, the explicit message, else the
      wrapped one, else the seed's. */
  ghost predicate KeptPerKey(explicit: seq<Call>, wrapped: seq<Call>)
  {
    && Configured(explicit, wrapped).Accepted?
    && forall seeds, tag, key ::
         ShowsFirstOf(Lookup(seeds + Configured(explicit, wrapped).st.bundles, tag, key),
                      explicit, wrapped, Lookup(seeds, tag, key), tag, key)
  }

  lemma ByNameIsByKey(shown: Message, explicit: seq<Call>, wrapped: seq<Call>, seed: Message, tag: string, key: string)
    requires CollisionFree(explicit, wrapped) && ShowsByName(shown, explicit, wrapped, seed, tag, key)
    ensures ShowsFirstOf(shown, explicit, wrapped, seed, tag, key)
  {
    if SlotOf(explicit, Slot(tag, key)) && Supplied(wrapped, tag, key) {
      var i: nat, t, k :| Supplies(explicit, i, t, k) && Slot(tag, key) == Slot(t, k);
      assert AnySupplies(explicit, wrapped, tag, key) && AnySupplies(explicit, wrapped, t, k);
    }
  }

  /** Two explicit keys that make one claim name are refused. */
  lemma ExplicitCollision(explicit: seq<Call>, wrapped: seq<Call>, t1: string, k1: string, t2: string, k2: string)
    requires Supplied(explicit, t1, k1) && Supplied(explicit, t2, k2)
    requires Slot(t1, k1) == Slot(t2, k2) && !(t1 == t2 && k1 == k2)
    ensures Configured(explicit, wrapped).Refused?
  {
    var i: nat :| Supplies(explicit, i, t1, k1);
    var j: nat :| Supplies(explicit, j, t2, k2);
    if t1 == t2 { SlotInjective(t1, k1, t2, k2); }
    assert BothClaim(explicit, i, t1, k1, j, t2, k2) || BothClaim(explicit, j, t2, k2, i, t1, k1);
    VerdictByName(explicit, wrapped);
  }

  /** A wrapped key whose claim name an explicit call makes for another key is not shown. */
  lemma DroppedKey(explicit: seq<Call>, wrapped: seq<Call>, tag: string, key: string)
    requires Configured(explicit, wrapped).Accepted? && Supplied(wrapped, tag, key)
    requires !Supplied(explicit, tag, key) && SlotOf(explicit, Slot(tag, key))
    ensures !KeptPerKey(explicit, wrapped)
  {
    CatalogueMeets([], explicit, wrapped, tag, key);
    var shown := Lookup([] + Configured(explicit, wrapped).st.bundles, tag, key);
    assert shown == Missing;
    assert !ShowsFirstOf(shown, explicit, wrapped, Lookup([], tag, key), tag, key);
  }

  lemma CollisionBreaks(explicit: seq<Call>, wrapped: seq<Call>, t1: string, k1: string, t2: string, k2: string)
    requires AnySupplies(explicit, wrapped, t1, k1) && AnySupplies(explicit, wrapped, t2, k2)
    requires Slot(t1, k1) == Slot(t2, k2) && !(t1 == t2 && k1 == k2)
    ensures !KeptPerKey(explicit, wrapped)
  {
    var e1, e2 := Supplied(explicit, t1, k1), Supplied(explicit, t2, k2);
    if Configured(explicit, wrapped).Accepted? {
      if e1 && e2 {
        ExplicitCollision(explicit, wrapped, t1, k1, t2, k2);
      } else if e1 {
        DroppedKey(explicit, wrapped, t2, k2);
      } else if e2 {
        DroppedKey(explicit, wrapped, t1, k1);
      } else {
        WrappedCollision(explicit, wrapped, t1, k1, t2, k2);
        DroppedKey(explicit, wrapped, t1, k1);
      }
    }
  }

  lemma WrappedCollision(explicit: seq<Call>, wrapped: seq<Call>, t1: string, k1: string, t2: string, k2: string)
    requires Configured(explicit, wrapped).Accepted? && Supplied(wrapped, t1, k1) && Supplied(wrapped, t2, k2)
    requires Slot(t1, k1) == Slot(t2, k2) && !(t1 == t2 && k1 == k2)
    ensures SlotOf(explicit, Slot(t1, k1))
  {
    var i: nat :| Supplies(wrapped, i, t1, k1);
    var j: nat :| Supplies(wrapped, j, t2, k2);
    if t1 == t2 { SlotInjective(t1, k1, t2, k2); }
    assert BothClaim(wrapped, i, t1, k1, j, t2, k2) || BothClaim(wrapped, j, t2, k2, i, t1, k1);
    VerdictByName(explicit, wrapped);
  }

  /** Where no key is supplied twice, the promise per key holds exactly when no two different
      supplied keys make one claim name. */
  lemma PromisePerKey(explicit: seq<Call>, wrapped: seq<Call>)
    requires NoKeyTwice(explicit, wrapped)
    ensures KeptPerKey(explicit, wrapped) <==> CollisionFree(explicit, wrapped)
  {
    if CollisionFree(explicit, wrapped) {
      VerdictByKey(explicit, wrapped);
      forall seeds, tag, key
        ensures ShowsFirstOf(Lookup(seeds + Configured(explicit, wrapped).st.bundles, tag, key),
                             explicit, wrapped, Lookup(seeds, tag, key), tag, key)
      {
        CatalogueMeets(seeds, explicit, wrapped, tag, key);
        ByNameIsByKey(Lookup(seeds + Configured(explicit, wrapped).st.bundles, tag, key),
                      explicit, wrapped, Lookup(seeds, tag, key), tag, key);
      }
    } else {
      var t1, k1, t2, k2 :| AnySupplies(explicit, wrapped, t1, k1) && AnySupplies(explicit, wrapped, t2, k2)
                            && Slot(t1, k1) == Slot(t2, k2) && !(t1 == t2 && k1 == k2);
      CollisionBreaks(explicit, wrapped, t1, k1, t2, k2);
    }
  }

  // ----- call order -----

  lemma SuppliedReordered(a: seq<Call>, b: seq<Call>, i: nat, tag: string, key: string) returns (j: nat)
    requires multiset(a) == multiset(b) && Supplies(a, i, tag, key)
    ensures Supplies(b, j, tag, key) && b[j] == a[i]
  {
    assert a[i] in multiset(b);
    j :| j < |b| && b[j] == a[i];
  }

  lemma SlotReordered(a: seq<Call>, b: seq<Call>, slot: string)
    requires multiset(a) == multiset(b)
    ensures SlotOf(a, slot) ==> SlotOf(b, slot)
  {
    if i: nat, tag, key :| Supplies(a, i, tag, key) && slot == Slot(tag, key) {
      var j := SuppliedReordered(a, b, i, tag, key);
    }
  }

  lemma BothClaimReordered(a: seq<Call>, b: seq<Call>, i: nat, t1: string, k1: string, j: nat, t2: string, k2: string)
    requires multiset(a) == multiset(b) && BothClaim(b, i, t1, k1, j, t2, k2)
    ensures exists p: nat, q: nat :: BothClaim(a, p, t1, k1, q, t2, k2) || BothClaim(a, p, t2, k2, q, t1, k1)
  {
    var p, q := TwoPlaces(a, b, i, j);
    if p < q {
      assert BothClaim(a, p, t1, k1, q, t2, k2);
    } else {
      assert BothClaim(a, q, t2, k2, p, t1, k1);
    }
  }

  lemma NoNameTwiceReordered(e1: seq<Call>, w1: seq<Call>, e2: seq<Call>, w2: seq<Call>)
    requires multiset(e1) == multiset(e2) && multiset(w1) == multiset(w2) && NoNameTwice(e1, w1)
    ensures NoNameTwice(e2, w2)
  {
    forall i | 0 <= i < |e2| ensures e2[i].With? { assert e2[i] in multiset(e1); }
    forall i | 0 <= i < |w2| ensures w2[i].With? { assert w2[i] in multiset(w1); }
    forall i: nat, j: nat, t1, k1, t2, k2 ensures !BothClaim(e2, i, t1, k1, j, t2, k2) {
      if BothClaim(e2, i, t1, k1, j, t2, k2) { BothClaimReordered(e1, e2, i, t1, k1, j, t2, k2); }
    }
    forall i: nat, j: nat, t1, k1, t2, k2 | BothClaim(w2, i, t1, k1, j, t2, k2) ensures SlotOf(e2, Slot(t1, k1)) {
      BothClaimReordered(w1, w2, i, t1, k1, j, t2, k2);
      SlotReordered(e1, e2, Slot(t1, k1));
    }
  }

  /** Whatever the order of the calls, the verdict and every message are the same. */
  lemma CallOrderDoesNotMatter(seeds: seq<Bundle>, e1: seq<Call>, w1: seq<Call>, e2: seq<Call>, w2: seq<Call>)
    requires multiset(e1) == multiset(e2) && multiset(w1) == multiset(w2)
    ensures Configured(e1, w1).Accepted? <==> Configured(e2, w2).Accepted?
    ensures Configured(e1, w1).Accepted? ==>
              forall tag, key :: Lookup(seeds + Configured(e1, w1).st.bundles, tag, key)
                                 == Lookup(seeds + Configured(e2, w2).st.bundles, tag, key)
  {
    VerdictByName(e1, w1);
    VerdictByName(e2, w2);
    if NoNameTwice(e1, w1) { NoNameTwiceReordered(e1, w1, e2, w2); }
    if NoNameTwice(e2, w2) { NoNameTwiceReordered(e2, w2, e1, w1); }
    if Configured(e1, w1).Accepted? {
      forall tag, key
        ensures Lookup(seeds + Configured(e1, w1).st.bundles, tag, key)
                == Lookup(seeds + Configured(e2, w2).st.bundles, tag, key)
      {
        CatalogueMeets(seeds, e1, w1, tag, key);
        CatalogueMeets(seeds, e2, w2, tag, key);
        SameSource(e1, w1, e2, w2, Lookup(seeds, tag, key), tag, key,
                   Lookup(seeds + Configured(e1, w1).st.bundles, tag, key),
                   Lookup(seeds + Configured(e2, w2).st.bundles, tag, key));
      }
    }
  }

  lemma SameSource(e1: seq<Call>, w1: seq<Call>, e2: seq<Call>, w2: seq<Call>, seed: Message,
                   tag: string, key: string, m1: Message, m2: Message)
    requires multiset(e1) == multiset(e2) && multiset(w1) == multiset(w2)
    requires ShowsByName(m1, e1, w1, seed, tag, key) && ShowsByName(m2, e2, w2, seed, tag, key)
    ensures m1 == m2
  {
    SlotReordered(e1, e2, Slot(tag, key));
    SlotReordered(e2, e1, Slot(tag, key));
    if i: nat :| Supplies(e1, i, tag, key) {
      var j := SuppliedReordered(e1, e2, i, tag, key);
    } else if i: nat :| Supplies(e2, i, tag, key) {
      var j := SuppliedReordered(e2, e1, i, tag, key);
    } else if i: nat :| Supplies(w1, i, tag, key) {
      var j := SuppliedReordered(w1, w2, i, tag, key);
    } else if i: nat :| Supplies(w2, i, tag, key) {
      var j := SuppliedReordered(w2, w1, i, tag, key);
    }
  }

  // ----- the imperative code -----

  /** The keys of a bundle, sorted, as the claim loop walks them. */
  method SortedKeys(messages: map<string, string>) returns (keys: seq<string>)
    ensures Sorted(keys) && multiset(keys) == multiset(messages.Keys)
  {
    keys := [];
    var left := messages.Keys;
    while left != {}
      invariant left <= messages.Keys && multiset(keys) == multiset(messages.Keys - left)
    {
      var k :| k in left;
      keys, left := keys + [k], left - {k};
      assert messages.Keys - left == (messages.Keys - left - {k}) + {k};
    }
    assert messages.Keys - left == messages.Keys;
    SortSorts(keys);
    keys := Sort(keys);
  }

  class LocaleConfig {
    var claimed: map<string, Claim>
    var localeBundles: seq<Bundle>
    var applyingDefaults: bool

    ghost function Abs(): Locales
      reads this
    {
      Locales(claimed, localeBundles)
    }

    constructor ()
      ensures Abs() == NoLocales && !applyingDefaults
    {
      claimed, localeBundles, applyingDefaults := map[], [], false;
    }

    /** Claims key by key, drops the keys that gave way, and appends what is left. */
    method WithLocaleBundle(call: Call) returns (v: Verdict)
      modifies this`claimed, this`localeBundles
      ensures v == Fine <==> CallStep(old(Abs()), call, applyingDefaults).Accepted?
      ensures v == Fine ==> Abs() == CallStep(old(Abs()), call, applyingDefaults).st
      ensures v != ShadowedDefault
    {
      if call.ZeroBundle? { return Rejected("WithLocaleBundle"); }
      var b := call.bundle;
      var shadowed;
      v, shadowed := ClaimKeys(b);
      if v != Fine { return; }
      var kept := Bundle(b.tag, map k | k in b.messages && k !in shadowed :: b.messages[k]);
      assert kept == Kept(old(claimed), b);
      localeBundles := localeBundles + [kept];
    }

    method ClaimKeys(b: Bundle) returns (v: Verdict, shadowed: set<string>)
      modifies this`claimed
      ensures v == Fine <==> !Repeats(old(claimed), b, applyingDefaults)
      ensures v == Fine ==> claimed == Claiming(old(claimed), b, applyingDefaults)
                            && shadowed == GaveWay(old(claimed), b.tag, b.messages.Keys)
      ensures v != ShadowedDefault
    {
      var keys := SortedKeys(b.messages);
      KeysOnce(keys, b.messages.Keys);
      shadowed := {};
      for i := 0 to |keys|
        invariant Partly(old(claimed), claimed, b, applyingDefaults, keys[..i])
        invariant shadowed == GaveWay(old(claimed), b.tag, Members(keys[..i]))
      {
        assert keys[i] in keys;
        TakeSnoc(keys, i + 1);
        MembersSnoc(keys[..i], keys[i]);
        v := ClaimKey(b, keys[i], old(claimed), keys[..i]);
        if v != Fine && v != ShadowedDefault { return; }
        if v == ShadowedDefault { shadowed := shadowed + {keys[i]}; }
      }
      TakeAll(keys);
      PartlyIsClaiming(old(claimed), claimed, b, applyingDefaults, keys);
      v := Fine;
    }

    method ClaimKey(b: Bundle, key: string, ghost before: map<string, Claim>, ghost done: seq<string>)
      returns (v: Verdict)
      requires Partly(before, claimed, b, applyingDefaults, done) && key in b.messages && key !in done
      modifies this`claimed
      ensures v == ShadowedDefault || v == Fine ==> Partly(before, claimed, b, applyingDefaults, done + [key])
      ensures v == ShadowedDefault ==> Slot(b.tag, key) in before
      ensures v == Fine ==> Slot(b.tag, key) !in before
      ensures v != ShadowedDefault && v != Fine ==> Repeats(before, b, applyingDefaults)
    {
      PartlyClaimed(before, claimed, b, applyingDefaults, done, key);
      ghost var sofar := claimed;
      v := ClaimName(Slot(b.tag, key));
      if v == Fine || v == ShadowedDefault {
        PartlySnoc(before, sofar, b, applyingDefaults, done, key);
      } else {
        assert TakenKey(before, b, applyingDefaults, key);
      }
    }

    /** claimOnce: the option's name is its slot. */
    method ClaimName(slot: string) returns (v: Verdict)
      modifies this`claimed
      ensures v == ClaimVerdict(old(claimed), slot, slot, applyingDefaults)
      ensures claimed == if v == Fine then old(claimed)[slot := Claim(slot, applyingDefaults)] else old(claimed)
    {
      v := ClaimVerdict(claimed, slot, slot, applyingDefaults);
      if v == Fine { claimed := claimed[slot := Claim(slot, applyingDefaults)]; }
    }
  }

  lemma PartlySnoc(before: map<string, Claim>, now: map<string, Claim>, b: Bundle, fallback: bool,
                   done: seq<string>, key: string)
    requires Partly(before, now, b, fallback, done) && key in b.messages && !TakenKey(before, b, fallback, key)
    requires Slot(b.tag, key) in now <==> Slot(b.tag, key) in before
    ensures var slot := Slot(b.tag, key);
            Partly(before, if slot in before then now else now[slot := Claim(slot, fallback)],
                   b, fallback, done + [key])
  {
    var slot := Slot(b.tag, key);
    var next := if slot in before then now else now[slot := Claim(slot, fallback)];
    forall s ensures s in next <==> s in before || exists k :: k in done + [key] && s == Slot(b.tag, k) {
      if s == slot { assert key in done + [key]; }
      if k :| k in done && s == Slot(b.tag, k) { assert k in done + [key]; }
    }
  }

  /** The keys whose claim an explicit call had already made. */
  function GaveWay(before: map<string, Claim>, tag: string, keys: set<string>): set<string>
  {
    set k | k in keys && Slot(tag, k) in before
  }

  lemma PartlyIsClaiming(before: map<string, Claim>, now: map<string, Claim>, b: Bundle,
                         fallback: bool, keys: seq<string>)
    requires Partly(before, now, b, fallback, keys) && Members(keys) == b.messages.Keys
    ensures now == Claiming(before, b, fallback) && !Repeats(before, b, fallback)
  {
    assert forall k :: k in b.messages <==> k in keys by { assert forall k :: k in keys <==> k in Members(keys); }
    NowIsClaiming(before, now, b, fallback, keys);
  }

  lemma NowIsClaiming(before: map<string, Claim>, now: map<string, Claim>, b: Bundle, fallback: bool, keys: seq<string>)
    requires Partly(before, now, b, fallback, keys) && forall k :: k in b.messages <==> k in keys
    ensures now == Claiming(before, b, fallback)
  {
    var all := Claiming(before, b, fallback);
    assert now.Keys == all.Keys;
  }

  /** The claim table after the keys done so far. */
  ghost predicate Partly(before: map<string, Claim>, now: map<string, Claim>, b: Bundle,
                         fallback: bool, done: seq<string>)
  {
    && (forall k :: k in done ==> !TakenKey(before, b, fallback, k))
    && (forall slot :: slot in now <==> slot in before || exists k :: k in done && slot == Slot(b.tag, k))
    && (forall slot :: slot in before ==> now[slot] == before[slot])
    && (forall slot :: slot in now && slot !in before ==> now[slot] == Claim(slot, fallback))
  }

  /** A listing of a set meets each element once. */
  lemma KeysOnce(keys: seq<string>, all: set<string>)
    requires multiset(keys) == multiset(all)
    ensures Members(keys) == all && forall i :: 0 <= i < |keys| ==> keys[i] !in keys[..i]
  {
    assert forall k :: k in keys <==> k in multiset(keys);
    forall i | 0 <= i < |keys| ensures keys[i] !in keys[..i] {
      assert keys == keys[..i] + [keys[i]] + keys[i + 1..];
      assert multiset(keys)[keys[i]] >= multiset(keys[..i])[keys[i]] + 1;
    }
  }

  lemma PartlyClaimed(before: map<string, Claim>, now: map<string, Claim>, b: Bundle, fallback: bool,
                      done: seq<string>, key: string)
    requires Partly(before, now, b, fallback, done) && key !in done
    ensures Slot(b.tag, key) in now <==> Slot(b.tag, key) in before
  {
    if k :| k in done && Slot(b.tag, key) == Slot(b.tag, k) {
      SlotInjective(b.tag, key, b.tag, k);
    }
  }

  predicate DistinctTags(bundles: seq<Bundle>)
  {
    forall i, j :: 0 <= i < j < |bundles| ==> bundles[i].tag != bundles[j].tag
  }

  /** Layers the accepted bundles over the seeds, one map entry per tag, in first-seen order. */
  method BuildLocaleResolver(seeds: seq<Bundle>, overlays: seq<Bundle>)
    returns (catalogue: map<string, map<string, string>>, order: seq<string>)
    requires DistinctTags(seeds)
    ensures forall tag, key :: (tag in catalogue && key in catalogue[tag])
                               <==> Lookup(seeds + overlays, tag, key).Found?
    ensures forall tag, key :: tag in catalogue && key in catalogue[tag]
                               ==> Lookup(seeds + overlays, tag, key) == Found(catalogue[tag][key])
    ensures multiset(order) == multiset(catalogue.Keys)
  {
    catalogue, order := LoadSeeds(seeds);
    assert seeds + overlays[..0] == seeds;
    for i := 0 to |overlays|
      invariant Shows(catalogue, seeds + overlays[..i]) && multiset(order) == multiset(catalogue.Keys)
    {
      var b := overlays[i];
      assert seeds + overlays[..i + 1] == (seeds + overlays[..i]) + [b];
      if b.tag in catalogue {
        ShowsMerged(catalogue, seeds + overlays[..i], b);
        catalogue := catalogue[b.tag := catalogue[b.tag] + b.messages];
      } else {
        ShowsNew(catalogue, seeds + overlays[..i], b);
        catalogue, order := catalogue[b.tag := b.messages], order + [b.tag];
      }
    }
    assert overlays[..|overlays|] == overlays;
  }

  method LoadSeeds(seeds: seq<Bundle>) returns (catalogue: map<string, map<string, string>>, order: seq<string>)
    requires DistinctTags(seeds)
    ensures Shows(catalogue, seeds) && multiset(order) == multiset(catalogue.Keys)
  {
    catalogue, order := map[], [];
    for i := 0 to |seeds|
      invariant forall j :: i <= j < |seeds| ==> seeds[j].tag !in catalogue
      invariant Shows(catalogue, seeds[..i]) && multiset(order) == multiset(catalogue.Keys)
    {
      ShowsNew(catalogue, seeds[..i], seeds[i]);
      assert seeds[..i + 1] == seeds[..i] + [seeds[i]];
      catalogue, order := catalogue[seeds[i].tag := seeds[i].messages], order + [seeds[i].tag];
    }
    assert seeds[..|seeds|] == seeds;
  }

  ghost predicate Shows(catalogue: map<string, map<string, string>>, layers: seq<Bundle>)
  {
    && (forall tag, key :: (tag in catalogue && key in catalogue[tag]) <==> Lookup(layers, tag, key).Found?)
    && (forall tag, key :: tag in catalogue && key in catalogue[tag]
                           ==> Lookup(layers, tag, key) == Found(catalogue[tag][key]))
  }

  lemma LookupSnoc(layers: seq<Bundle>, b: Bundle, tag: string, key: string)
    ensures Lookup(layers + [b], tag, key) ==
            if Has(b, tag, key) then Found(b.messages[key]) else Lookup(layers, tag, key)
  {
    assert (layers + [b])[..|layers|] == layers;
  }

  lemma ShowsNew(catalogue: map<string, map<string, string>>, layers: seq<Bundle>, b: Bundle)
    requires Shows(catalogue, layers) && b.tag !in catalogue
    ensures Shows(catalogue[b.tag := b.messages], layers + [b])
    ensures multiset(catalogue[b.tag := b.messages].Keys) == multiset(catalogue.Keys) + multiset{b.tag}
  {
    assert catalogue[b.tag := b.messages].Keys == catalogue.Keys + {b.tag};
    forall tag, key { LookupSnoc(layers, b, tag, key); }
  }

  lemma ShowsMerged(catalogue: map<string, map<string, string>>, layers: seq<Bundle>, b: Bundle)
    requires Shows(catalogue, layers) && b.tag in catalogue
    ensures Shows(catalogue[b.tag := catalogue[b.tag] + b.messages], layers + [b])
    ensures catalogue[b.tag := catalogue[b.tag] + b.messages].Keys == catalogue.Keys
  {
    forall tag, key { LookupSnoc(layers, b, tag, key); }
  }
}
