/** The projection keeps what a step is: in an accepted flow every step keeps its kind, factor,
    strength, lockout counter and what it does when nobody is enrolled. */
module LoginMeaning {
  import opened Sequences
  import Text
  import opened LoginCompile
  import opened LoginFlow

  // ----- step by step -----

  predicate IsCaptcha(s: PublicStep) { s.Builtin? && s.which == CaptchaCheck }

  function FactorName(s: PublicStep): string
  {
    if s.Builtin? then BuiltinKind(s.which) else if s.External? then s.factor else ""
  }

  predicate VerifiesUser(s: PublicStep) { s.Builtin? && s.which == Passkey && s.verifyUser }

  /** The step claims AAL3. */
  predicate IsStrong(s: PublicStep) { s.External? && s.strong }

  /** t is what s compiles to: same kind and nature, same answer where nobody is enrolled, the
      counter attached exactly when s feeds it, and the discoverable ceremony exactly for a
      passkey where no subject is bound. */
  predicate Same(s: PublicStep, t: Step, primary: bool, store: bool)
  {
    && t.Kind() == Kind(s) && (t.Choice? <==> s.OneOf?) && s != NilStep
    && (t.Choice? ==> (t.skip <==> s.policy == Skip))
    && (t.Single? ==>
          && t.leaf.captcha == IsCaptcha(s) && t.leaf.verifyUser == VerifiesUser(s)
          && t.leaf.auth.factor == FactorName(s) && t.leaf.auth.strong == IsStrong(s)
          && t.leaf.auth.counted == (CountsFailures(s) && store)
          && t.leaf.auth.discoverable == (primary && s.Builtin? && s.which == Passkey))
  }

  function Becomes(primary: bool, store: bool): (PublicStep, Decl) -> bool
  {
    (s: PublicStep, d: Decl) => Same(s, d.step, primary, store)
  }

  lemma LeafSame(s: PublicStep, primary: bool, store: bool)
    requires !s.OneOf? && Projected(s, primary, store).Some?
    ensures Same(s, Single(LeafOf(Projected(s, primary, store).value)), primary, store)
    ensures Projected(s, primary, store).value.oneOf.None?
  {
  }

  /** One more inner step. */
  lemma InnerSnoc(rest: seq<SpecStep>, last: SpecStep, kind: string)
    ensures InnerShaped(rest + [last]) ==> InnerShaped(rest) && InnerShape(last)
    ensures InnerDecls(kind, LeavesOf(rest + [last])) ==
            InnerDecls(kind, LeavesOf(rest)) + [Decl(Single(LeafOf(last)), kind, true)]
  {
    var inner := rest + [last];
    assert inner[..|rest|] == rest;
    var leaves := LeavesOf(inner);
    assert leaves == LeavesOf(rest) + [LeafOf(last)];
    assert leaves[..|leaves| - 1] == LeavesOf(rest);
  }

  lemma OneMoreSame(ps: seq<PublicStep>, rest: seq<SpecStep>, p: PublicStep, last: SpecStep,
                    primary: bool, store: bool, kind: string)
    requires Pairwise(Becomes(primary, store), ps, InnerDecls(kind, LeavesOf(rest)))
    requires Becomes(primary, store)(p, Decl(Single(LeafOf(last)), kind, true))
    ensures Pairwise(Becomes(primary, store), ps + [p], InnerDecls(kind, LeavesOf(rest + [last])))
  {
    InnerSnoc(rest, last, kind);
    PairwiseConcat(Becomes(primary, store), ps, InnerDecls(kind, LeavesOf(rest)),
                   [p], [Decl(Single(LeafOf(last)), kind, true)]);
  }

  lemma InnerUnfolds(s: PublicStep, n: nat, primary: bool, store: bool)
    requires s.OneOf? && 0 < n <= |s.steps| && ProjectedInner(s, n, primary, store).Some?
    ensures ProjectedInner(s, n - 1, primary, store).Some? && Projected(s.steps[n - 1], primary, store).Some?
    ensures ProjectedInner(s, n, primary, store).value
            == ProjectedInner(s, n - 1, primary, store).value + [Projected(s.steps[n - 1], primary, store).value]
  {
  }

  lemma {:induction false} InnerSame(s: PublicStep, n: nat, primary: bool, store: bool, kind: string)
    requires s.OneOf? && n <= |s.steps| && ProjectedInner(s, n, primary, store).Some?
    requires InnerShaped(ProjectedInner(s, n, primary, store).value)
    ensures Pairwise(Becomes(primary, store), s.steps[..n],
                     InnerDecls(kind, LeavesOf(ProjectedInner(s, n, primary, store).value)))
    decreases n
  {
    if n > 0 {
      InnerUnfolds(s, n, primary, store);
      var p := s.steps[n - 1];
      var rest, last := ProjectedInner(s, n - 1, primary, store).value, Projected(p, primary, store).value;
      InnerSnoc(rest, last, kind);
      InnerSame(s, n - 1, primary, store, kind);
      MemberSame(p, primary, store, kind);
      OneMoreSame(s.steps[..n - 1], rest, p, last, primary, store, kind);
      TakeSnoc(s.steps, n);
    }
  }

  lemma MemberSame(p: PublicStep, primary: bool, store: bool, kind: string)
    requires Projected(p, primary, store).Some? && InnerShape(Projected(p, primary, store).value)
    ensures Becomes(primary, store)(p, Decl(Single(LeafOf(Projected(p, primary, store).value)), kind, true))
  {
    NotNested(p, primary, store);
    LeafSame(p, primary, store);
  }

  lemma NotNested(s: PublicStep, primary: bool, store: bool)
    requires Projected(s, primary, store).Some? && Projected(s, primary, store).value.oneOf.None?
    ensures !s.OneOf?
  {
  }

  /** A step and its inner steps compile one by one, in order. */
  lemma StepSame(s: PublicStep, primary: bool, store: bool)
    requires Projected(s, primary, store).Some? && StepShape(Projected(s, primary, store).value)
    ensures Pairwise(Becomes(primary, store), Placed(s), Decls(StepOf(Projected(s, primary, store).value)))
  {
    var t := Projected(s, primary, store).value;
    if s.OneOf? {
      MembersSame(s, primary, store);
      HeadSame(s, primary, store);
      PairwiseConcat(Becomes(primary, store), [s], [Decl(StepOf(t), "", true)],
                     s.steps, InnerDecls(t.kind, LeavesOf(t.oneOf.value)));
    } else {
      LeafSame(s, primary, store);
    }
  }

  lemma HeadSame(s: PublicStep, primary: bool, store: bool)
    requires s.OneOf? && Projected(s, primary, store).Some?
    ensures Same(s, StepOf(Projected(s, primary, store).value), primary, store)
  {
  }

  /** The members of a one-of step, in order. */
  lemma MembersSame(s: PublicStep, primary: bool, store: bool)
    requires s.OneOf? && Projected(s, primary, store).Some? && StepShape(Projected(s, primary, store).value)
    ensures var t := Projected(s, primary, store).value;
            t.oneOf.Some? && Pairwise(Becomes(primary, store), s.steps, InnerDecls(t.kind, LeavesOf(t.oneOf.value)))
  {
    InnerSame(s, |s.steps|, primary, store, Projected(s, primary, store).value.kind);
    TakeAll(s.steps);
  }

  lemma RulesUnfold(rules: seq<PublicStep>, store: bool)
    requires rules != [] && ProjectedRules(rules, store).Some?
    ensures var n := |rules| - 1;
            && ProjectedRules(rules[..n], store).Some? && Projected(rules[n], false, store).Some?
            && ProjectedRules(rules, store).value
               == ProjectedRules(rules[..n], store).value + [Projected(rules[n], false, store).value]
  {
  }

  lemma ShapedSnoc(rest: seq<SpecStep>, last: SpecStep)
    ensures Shaped(rest + [last]) ==> Shaped(rest) && StepShape(last)
    ensures StepsOf(rest + [last]) == StepsOf(rest) + [StepOf(last)]
  {
    assert (rest + [last])[..|rest|] == rest;
  }

  lemma {:induction false} RulesSame(rules: seq<PublicStep>, store: bool)
    requires ProjectedRules(rules, store).Some? && Shaped(ProjectedRules(rules, store).value)
    ensures Pairwise(Becomes(false, store), Gather(Placed, rules),
                     Gather(Decls, StepsOf(ProjectedRules(rules, store).value)))
  {
    if rules != [] {
      var n := |rules| - 1;
      RulesUnfold(rules, store);
      var rest, last := ProjectedRules(rules[..n], store).value, Projected(rules[n], false, store).value;
      ShapedSnoc(rest, last);
      RulesSame(rules[..n], store);
      StepSame(rules[n], false, store);
      GatherSnoc(Decls, StepsOf(rest), StepOf(last));
      PairwiseConcat(Becomes(false, store), Gather(Placed, rules[..n]), Gather(Decls, StepsOf(rest)),
                     Placed(rules[n]), Decls(StepOf(last)));
    }
  }

  /** Rule i compiles to the projection of rule i. */
  lemma {:induction false} RuleAt(rules: seq<PublicStep>, store: bool, i: nat)
    requires ProjectedRules(rules, store).Some? && Shaped(ProjectedRules(rules, store).value) && i < |rules|
    ensures |StepsOf(ProjectedRules(rules, store).value)| == |rules|
    ensures Projected(rules[i], false, store).Some? && StepShape(Projected(rules[i], false, store).value)
    ensures StepsOf(ProjectedRules(rules, store).value)[i] == StepOf(Projected(rules[i], false, store).value)
  {
    var n := |rules| - 1;
    RulesUnfold(rules, store);
    var rest, last := ProjectedRules(rules[..n], store).value, Projected(rules[n], false, store).value;
    ShapedSnoc(rest, last);
    if n > 0 {
      RuleAt(rules[..n], store, if i < n then i else 0);
    } else {
      assert rules[..n] == [];
    }
  }

  /** Every step the flow declares, Registration after Primary. */
  function RegistrationSteps(flow: Flow): seq<PublicStep>
  {
    if flow.registration == NilStep then [] else [flow.registration]
  }

  /** Every step has a shape the compiler takes. */
  predicate WellShaped(s: Spec) { StepShape(s.primary) && RegistrationShape(s.registration) && Shaped(s.rules) }

  lemma RegistrationSame(flow: Flow, store: bool)
    requires SpecOf(flow, store).Some? && WellShaped(SpecOf(flow, store).value)
    ensures Pairwise(Becomes(true, store), RegistrationSteps(flow),
                     RegistrationDecls(RegistrationOf(SpecOf(flow, store).value.registration)))
  {
    if flow.registration != NilStep {
      NotNested(flow.registration, true, store);
      LeafSame(flow.registration, true, store);
    }
  }

  // ----- kinds and counters of an accepted flow -----

  function DeclaredSteps(flow: Flow): seq<PublicStep>
  {
    Placed(flow.primary) + RegistrationSteps(flow) + Gather(Placed, flow.rules)
  }

  /** In every accepted flow no two declared steps share a kind, one-of members and
      Registration included, and external steps bear dotted kinds, never a built-in one. */
  lemma KindsAreDistinct(flow: Flow, store: bool)
    requires Accepted(flow, store)
    ensures forall i, j :: 0 <= i < j < |DeclaredSteps(flow)| ==>
              Kind(DeclaredSteps(flow)[i]) != Kind(DeclaredSteps(flow)[j])
    ensures forall i :: 0 <= i < |DeclaredSteps(flow)| && DeclaredSteps(flow)[i].External? ==>
              !IsBuiltin(DeclaredSteps(flow)[i].tag) && '.' in DeclaredSteps(flow)[i].tag
  {
    var spec := SpecOf(flow, store).value;
    var ps, ds := DeclaredSteps(flow), SpecDecls(spec);
    DeclaredKinds(flow, store);
    forall i, j | 0 <= i < j < |ps| ensures Kind(ps[i]) != Kind(ps[j]) {
      assert Alike()(ps[i], ds[i]) && Alike()(ps[j], ds[j]);
      assert Kinds(ds)[i] != Kinds(ds)[j];
    }
    ExternalsAreNotBuiltin(flow);
  }

  /** What choosing and beginning a step depend on, wherever it stands. */
  predicate SameKindOf(s: PublicStep, t: Step)
  {
    && t.Kind() == Kind(s) && t.Captcha() == IsCaptcha(s) && (t.Choice? <==> s.OneOf?)
    && (t.Choice? ==> (t.skip <==> s.policy == Skip))
    && (t.Single? ==> t.leaf.auth.factor == FactorName(s) && t.leaf.auth.strong == IsStrong(s))
  }

  function Alike(): (PublicStep, Decl) -> bool { (s: PublicStep, d: Decl) => SameKindOf(s, d.step) }

  lemma SameIsAlike(s: PublicStep, t: Step, primary: bool, store: bool)
    requires Same(s, t, primary, store)
    ensures SameKindOf(s, t)
  {
  }

  lemma Weaken(primary: bool, store: bool, ps: seq<PublicStep>, ds: seq<Decl>)
    requires Pairwise(Becomes(primary, store), ps, ds)
    ensures Pairwise(Alike(), ps, ds)
  {
    forall i | 0 <= i < |ps| ensures Alike()(ps[i], ds[i]) {
      assert Becomes(primary, store)(ps[i], ds[i]);
      SameIsAlike(ps[i], ds[i].step, primary, store);
    }
  }

  lemma DeclaredKinds(flow: Flow, store: bool)
    requires SpecOf(flow, store).Some? && WellShaped(SpecOf(flow, store).value)
    ensures Pairwise(Alike(), DeclaredSteps(flow), SpecDecls(SpecOf(flow, store).value))
  {
    var spec := SpecOf(flow, store).value;
    var dp, dr := Decls(StepOf(spec.primary)), RegistrationDecls(RegistrationOf(spec.registration));
    var dt := Gather(Decls, StepsOf(spec.rules));
    StepSame(flow.primary, true, store);
    RegistrationSame(flow, store);
    RulesSame(flow.rules, store);
    Weaken(true, store, Placed(flow.primary), dp);
    Weaken(true, store, RegistrationSteps(flow), dr);
    Weaken(false, store, Gather(Placed, flow.rules), dt);
    PairwiseConcat(Alike(), Placed(flow.primary), dp, RegistrationSteps(flow), dr);
    PairwiseConcat(Alike(), Placed(flow.primary) + RegistrationSteps(flow), dp + dr, Gather(Placed, flow.rules), dt);
  }

  /** An external step's kind is dotted and none of the six the library uses. */
  function Unreserved(): PublicStep -> bool
  {
    (s: PublicStep) => s.External? ==> !IsBuiltin(s.tag) && '.' in s.tag
  }

  lemma PlacedUnreserved(s: PublicStep)
    requires DependenciesOk(s) && ExternalKindOk(s)
    ensures Each(Unreserved(), Placed(s))
  {
    if s.OneOf? {
      assert Each(Unreserved(), s.steps);
      EachConcat(Unreserved(), [s], s.steps);
    }
  }

  lemma ExternalsAreNotBuiltin(flow: Flow)
    requires Validated(flow)
    ensures Each(Unreserved(), DeclaredSteps(flow))
  {
    PlacedUnreserved(flow.primary);
    forall i | 0 <= i < |flow.rules| ensures Each(Unreserved(), Placed(flow.rules[i])) {
      PlacedUnreserved(flow.rules[i]);
    }
    EachGather(Unreserved(), Placed, flow.rules);
    EachConcat(Unreserved(), Placed(flow.primary), RegistrationSteps(flow));
    EachConcat(Unreserved(), Placed(flow.primary) + RegistrationSteps(flow), Gather(Placed, flow.rules));
  }

  predicate Counter(d: Decl) { d.step.Single? && d.step.leaf.auth.counted }

  function CountsAgree(): (PublicStep, Decl) -> bool { (s: PublicStep, d: Decl) => Counter(d) == CountsFailures(s) }

  /** In every accepted flow the counter is attached to exactly the declared steps that feed
      it, wherever they stand, and never to Registration. */
  lemma CounterFollowsTheStep(flow: Flow, store: bool)
    requires Accepted(flow, store)
    ensures Pairwise(CountsAgree(), DeclaredSteps(flow), SpecDecls(SpecOf(flow, store).value))
    ensures !CountsFailures(flow.registration)
  {
    var spec := SpecOf(flow, store).value;
    var dp, dr := Decls(StepOf(spec.primary)), RegistrationDecls(RegistrationOf(spec.registration));
    var dt := Gather(Decls, StepsOf(spec.rules));
    StepSame(flow.primary, true, store);
    RegistrationSame(flow, store);
    RulesSame(flow.rules, store);
    EnumerationCovers(flow, store);
    CountsMatch(Placed(flow.primary), dp, true, store);
    CountsMatch(RegistrationSteps(flow), dr, true, store);
    CountsMatch(Gather(Placed, flow.rules), dt, false, store);
    PairwiseConcat(CountsAgree(), Placed(flow.primary), dp, RegistrationSteps(flow), dr);
    PairwiseConcat(CountsAgree(), Placed(flow.primary) + RegistrationSteps(flow), dp + dr,
                   Gather(Placed, flow.rules), dt);
  }

  function CountsOnlyWith(store: bool): PublicStep -> bool { s => CountsFailures(s) ==> store }

  lemma CountsMatch(ps: seq<PublicStep>, ds: seq<Decl>, primary: bool, store: bool)
    requires Pairwise(Becomes(primary, store), ps, ds) && Each(CountsOnlyWith(store), ps)
    ensures Pairwise(CountsAgree(), ps, ds)
  {
    forall i | 0 <= i < |ds| ensures CountsAgree()(ps[i], ds[i]) {
      assert Becomes(primary, store)(ps[i], ds[i]) && CountsOnlyWith(store)(ps[i]);
    }
  }

  /** The enumeration the lockout check walks covers every step but Registration. */
  lemma EnumerationCovers(flow: Flow, store: bool)
    requires Validated(flow) && LockoutOk(flow, store)
    ensures Each(CountsOnlyWith(store), Placed(flow.primary)) && Each(CountsOnlyWith(store), Gather(Placed, flow.rules))
    ensures Each(CountsOnlyWith(store), RegistrationSteps(flow))
  {
    assert Each(CountsOnlyWith(store), FlowSteps(flow));
    GatherConcat(Placed, [flow.primary], flow.rules);
    GatherOne(Placed, flow.primary);
    EachConcat(CountsOnlyWith(store), Placed(flow.primary), Gather(Placed, flow.rules));
  }

  // ----- what may stand where -----

  /** A step that can name the user who arrives: a password, a passkey that verifies the user, or
      an external step without a counter. */
  predicate NamesTheUser(s: PublicStep)
  {
    match s
    case Builtin(b, _, _, verifyUser) => b == Password || (b == Passkey && verifyUser)
    case External(_, _, _, _, count) => !count
    case _ => false
  }

  lemma {:induction false} InnerAreSingle(s: PublicStep, n: nat, primary: bool, store: bool, i: nat)
    requires s.OneOf? && n <= |s.steps| && ProjectedInner(s, n, primary, store).Some? && i < n
    requires InnerShaped(ProjectedInner(s, n, primary, store).value)
    ensures Projected(s.steps[i], primary, store).Some? && InnerShape(Projected(s.steps[i], primary, store).value)
    decreases n
  {
    InnerUnfolds(s, n, primary, store);
    InnerSnoc(ProjectedInner(s, n - 1, primary, store).value, Projected(s.steps[n - 1], primary, store).value, "");
    if i < n - 1 { InnerAreSingle(s, n - 1, primary, store, i); }
  }

  lemma MemberNamesTheUser(s: PublicStep, store: bool)
    requires Projected(s, true, store).Some? && InnerShape(Projected(s, true, store).value) && PrimaryCapable(s, true)
    ensures NamesTheUser(s)
  {
    NotNested(s, true, store);
  }

  /** In every accepted flow Primary is a step that names the user, or a one-of step of such
      steps that is never passed over: no totp, e-mail or recovery code, no captcha, no passkey
      without user verification stands there. */
  lemma PrimaryNamesTheUser(flow: Flow, store: bool)
    requires Accepted(flow, store)
    ensures if flow.primary.OneOf? then
              && flow.primary.policy == Deny && flow.primary.steps != []
              && forall i :: 0 <= i < |flow.primary.steps| ==> NamesTheUser(flow.primary.steps[i])
            else NamesTheUser(flow.primary)
  {
    var s := flow.primary;
    if s.OneOf? {
      forall i | 0 <= i < |s.steps| ensures NamesTheUser(s.steps[i]) {
        InnerAreSingle(s, |s.steps|, true, store, i);
        MemberNamesTheUser(s.steps[i], store);
      }
    }
  }

  /** Registration, where there is one, is an external step without a counter. */
  lemma RegistrationIsExternal(flow: Flow, store: bool)
    requires Accepted(flow, store) && flow.registration != NilStep
    ensures flow.registration.External? && !flow.registration.count
  {
  }

  // ----- the kind of a one-of step -----

  function MemberKinds(steps: seq<PublicStep>): seq<string>
  {
    seq(|steps|, i requires 0 <= i < |steps| => Kind(steps[i]))
  }

  function KindAlone(): PublicStep -> seq<string> { (s: PublicStep) => [Kind(s)] }

  lemma {:induction false} MemberKindsGather(steps: seq<PublicStep>)
    ensures Gather(KindAlone(), steps) == MemberKinds(steps)
  {
    if steps != [] {
      var n := |steps| - 1;
      MemberKindsGather(steps[..n]);
      assert MemberKinds(steps) == MemberKinds(steps[..n]) + [Kind(steps[n])];
    }
  }

  /** The kind of a one-of step does not depend on the order its members are written in: it lists
      their kinds in sorted order. */
  lemma OneOfKindIgnoresOrder(a: seq<PublicStep>, b: seq<PublicStep>, p: int, q: int)
    requires multiset(a) == multiset(b)
    ensures Kind(OneOf(a, p)) == Kind(OneOf(b, q))
    ensures exists ks :: Text.Sorted(ks) && multiset(ks) == multiset(MemberKinds(a))
                         && Kind(OneOf(a, p)) == "one_of(" + Text.Join(ks, ",") + ")"
  {
    MemberKindsGather(a);
    MemberKindsGather(b);
    GatherReordered(KindAlone(), a, b);
    Text.SortSorts(MemberKinds(a));
    Text.SortSorts(MemberKinds(b));
    Text.SortedIsUnique(Text.Sort(MemberKinds(a)), Text.Sort(MemberKinds(b)));
    OneOfKind(a, p);
    OneOfKind(b, q);
  }

  lemma OneOfKind(steps: seq<PublicStep>, p: int)
    ensures Kind(OneOf(steps, p)) == "one_of(" + Text.Join(Text.Sort(MemberKinds(steps)), ",") + ")"
  {
    var kinds := seq(|steps|, i requires 0 <= i < |steps| => Kind(steps[i]));
    assert kinds == MemberKinds(steps);
  }
}
