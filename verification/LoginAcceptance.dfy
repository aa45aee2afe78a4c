/** Which public flows are accepted, read off the flow alone: no check refuses more, and none
    lets more through. */
module LoginAcceptance {
  import opened Sequences
  import opened LoginCompile
  import opened LoginFlow
  import opened LoginMeaning

  /** A single step that can be built: its dependencies are there and, if it is the embedder's own,
      its kind is dotted, so that no built-in step bears it. */
  predicate Usable(s: PublicStep)
  {
    match s
    case Builtin(_, deps, builds, _) => deps && builds
    case External(tag, wired, _, _, _) => wired && '.' in tag
    case _ => false
  }

  predicate Asks(s: PublicStep) { Usable(s) && !IsCaptcha(s) }

  /** What a rule may run: a usable step, or a choice among usable steps other than captchas. */
  predicate FitsRule(s: PublicStep)
  {
    if s.OneOf? then
      (s.policy == Deny || s.policy == Skip) && s.steps != [] && forall i :: 0 <= i < |s.steps| ==> Asks(s.steps[i])
    else Usable(s)
  }

  /** What may stand first: a usable step that names the user, or a choice among such steps that
      is never passed over. */
  predicate FitsPrimary(s: PublicStep)
  {
    if s.OneOf? then
      s.policy == Deny && s.steps != []
      && forall i :: 0 <= i < |s.steps| ==> Asks(s.steps[i]) && NamesTheUser(s.steps[i])
    else Usable(s) && NamesTheUser(s)
  }

  predicate FitsRegistration(s: PublicStep) { s == NilStep || (s.External? && Usable(s) && !s.count) }

  ghost predicate StepsFit(flow: Flow)
  {
    && FitsPrimary(flow.primary) && FitsRegistration(flow.registration)
    && forall i :: 0 <= i < |flow.rules| ==> FitsRule(flow.rules[i])
  }

  ghost predicate KindsDiffer(ps: seq<PublicStep>)
  {
    forall i, j :: 0 <= i < j < |ps| ==> Kind(ps[i]) != Kind(ps[j])
  }

  /** Whether a guessed answer to the step is to be counted against the user. */
  ghost predicate CountersHaveAStore(ps: seq<PublicStep>, store: bool)
  {
    store || forall i :: 0 <= i < |ps| ==> !CountsFailures(ps[i])
  }

  // ----- dotted kinds -----

  lemma DottedIsNotBuiltin(tag: string)
    requires '.' in tag
    ensures !IsBuiltin(tag) && tag != ""
  {
  }

  lemma ExternalKinds(s: PublicStep)
    requires s.External?
    ensures s.wired && ExternalKindOk(s) <==> Usable(s)
  {
    if '.' in s.tag { DottedIsNotBuiltin(s.tag); }
  }

  // ----- single steps -----

  lemma SingleProjects(s: PublicStep, primary: bool, store: bool)
    requires !s.OneOf?
    ensures Usable(s) <==> DependenciesOk(s) && ExternalKindOk(s) && Projected(s, primary, store).Some?
    ensures Usable(s) ==> StepShape(Projected(s, primary, store).value)
    ensures Usable(s) ==> Projected(s, primary, store).value.captcha == IsCaptcha(s)
  {
    if s.External? { ExternalKinds(s); }
  }

  lemma MemberProjects(s: PublicStep, primary: bool, store: bool)
    ensures Asks(s) <==> && DependenciesOk(s) && ExternalKindOk(s) && Projected(s, primary, store).Some?
                         && InnerShape(Projected(s, primary, store).value)
  {
    if s.OneOf? {
      if Projected(s, primary, store).Some? && InnerShape(Projected(s, primary, store).value) {
        NotNested(s, primary, store);
      }
    } else {
      SingleProjects(s, primary, store);
    }
  }

  // ----- one-of steps -----

  /** The first n members ask. */
  predicate MembersAsk(s: PublicStep, n: nat)
    requires s.OneOf? && n <= |s.steps|
  {
    forall i :: 0 <= i < n ==> Asks(s.steps[i])
  }

  /** Projecting the members and shaping them, in one go. */
  predicate MembersProject(s: PublicStep, n: nat, primary: bool, store: bool)
    requires s.OneOf? && n <= |s.steps|
  {
    ProjectedInner(s, n, primary, store).Some? && InnerShaped(ProjectedInner(s, n, primary, store).value)
  }

  lemma {:induction false} AskingMembersProject(s: PublicStep, n: nat, primary: bool, store: bool)
    requires s.OneOf? && n <= |s.steps| && MembersAsk(s, n)
    ensures MembersProject(s, n, primary, store) && |ProjectedInner(s, n, primary, store).value| == n
    decreases n
  {
    if n > 0 {
      AskingMembersProject(s, n - 1, primary, store);
      MemberProjects(s.steps[n - 1], primary, store);
      var rest := ProjectedInner(s, n - 1, primary, store).value;
      TakeBefore(rest, Projected(s.steps[n - 1], primary, store).value);
    }
  }

  lemma ProjectedMembersAsk(s: PublicStep, primary: bool, store: bool)
    requires s.OneOf? && DependenciesOk(s) && MembersProject(s, |s.steps|, primary, store)
    ensures MembersAsk(s, |s.steps|)
  {
    forall i | 0 <= i < |s.steps| ensures Asks(s.steps[i]) {
      InnerAreSingle(s, |s.steps|, primary, store, i);
      MemberProjects(s.steps[i], primary, store);
    }
  }

  lemma AskingMembersDepend(s: PublicStep)
    requires s.OneOf? && s.steps != [] && MembersAsk(s, |s.steps|)
    ensures DependenciesOk(s)
  {
    forall i | 0 <= i < |s.steps| ensures DependenciesOk(s.steps[i]) && ExternalKindOk(s.steps[i]) {
      assert Asks(s.steps[i]);
      MemberProjects(s.steps[i], true, true);
    }
  }

  lemma KindIsNotEmpty(s: PublicStep)
    requires s.OneOf?
    ensures Kind(s) != ""
  {
  }

  // ----- one step where it stands -----

  /** The checks and the compiler take the step as a rule. */
  predicate Taken(s: PublicStep, primary: bool, store: bool)
  {
    && DependenciesOk(s) && ExternalKindOk(s)
    && Projected(s, primary, store).Some? && StepShape(Projected(s, primary, store).value)
  }

  lemma FittingIsTaken(s: PublicStep, primary: bool, store: bool)
    requires FitsRule(s)
    ensures Taken(s, primary, store)
  {
    if s.OneOf? {
      assert MembersAsk(s, |s.steps|);
      AskingMembersProject(s, |s.steps|, primary, store);
      AskingMembersDepend(s);
      KindIsNotEmpty(s);
    } else {
      SingleProjects(s, primary, store);
    }
  }

  lemma TakenFits(s: PublicStep, primary: bool, store: bool)
    requires Taken(s, primary, store)
    ensures FitsRule(s)
  {
    if s.OneOf? {
      ProjectedMembersAsk(s, primary, store);
    } else {
      SingleProjects(s, primary, store);
    }
  }

  lemma PrimaryFits(s: PublicStep, store: bool)
    ensures FitsPrimary(s) <==>
            PrimaryPositionOk(s) && Taken(s, true, store) && !Projected(s, true, store).value.captcha
  {
    if FitsPrimary(s) {
      FittingIsTaken(s, true, store);
      if !s.OneOf? { SingleProjects(s, true, store); }
    }
    if PrimaryPositionOk(s) && Taken(s, true, store) && !Projected(s, true, store).value.captcha {
      TakenFits(s, true, store);
      if s.OneOf? {
        forall i | 0 <= i < |s.steps| ensures NamesTheUser(s.steps[i]) { assert Asks(s.steps[i]); }
      } else {
        SingleProjects(s, true, store);
      }
    }
  }

  lemma RegistrationFits(s: PublicStep, store: bool)
    ensures FitsRegistration(s) <==>
            && RegistrationOk(s) && ExternalKindOk(s)
            && (s != NilStep ==>
                  Projected(s, true, store).Some? && RegistrationShape(Projected(s, true, store).value))
  {
    if s.External? { SingleProjects(s, true, store); }
  }

  // ----- the rules -----

  lemma {:induction false} FittingRulesProject(rules: seq<PublicStep>, store: bool)
    requires forall i :: 0 <= i < |rules| ==> FitsRule(rules[i])
    ensures ProjectedRules(rules, store).Some? && Shaped(ProjectedRules(rules, store).value)
  {
    if rules != [] {
      var n := |rules| - 1;
      FittingRulesProject(rules[..n], store);
      FittingIsTaken(rules[n], false, store);
      TakeBefore(ProjectedRules(rules[..n], store).value, Projected(rules[n], false, store).value);
    }
  }

  lemma AcceptedRulesFit(flow: Flow, store: bool)
    requires Validated(flow)
    requires ProjectedRules(flow.rules, store).Some? && Shaped(ProjectedRules(flow.rules, store).value)
    ensures forall i :: 0 <= i < |flow.rules| ==> FitsRule(flow.rules[i])
  {
    forall i | 0 <= i < |flow.rules| ensures FitsRule(flow.rules[i]) {
      RuleAt(flow.rules, store, i);
      TakenFits(flow.rules[i], false, store);
    }
  }

  // ----- the kinds -----

  lemma DistinctDeclarations(flow: Flow, store: bool)
    requires SpecOf(flow, store).Some? && WellShaped(SpecOf(flow, store).value)
    ensures KindsDiffer(DeclaredSteps(flow)) <==> Distinct(Kinds(SpecDecls(SpecOf(flow, store).value)))
  {
    var ps, ds := DeclaredSteps(flow), SpecDecls(SpecOf(flow, store).value);
    DeclaredKinds(flow, store);
    forall i | 0 <= i < |ps| ensures Kind(ps[i]) == Kinds(ds)[i] { assert Alike()(ps[i], ds[i]); }
  }

  lemma DifferAcross(a: seq<PublicStep>, b: seq<PublicStep>)
    requires KindsDiffer(a + b)
    ensures KindsDiffer(a) && KindsDiffer(b)
    ensures forall s, t :: s in a && t in b ==> Kind(s) != Kind(t)
  {
    var all := a + b;
    assert all[..|a|] == a && all[|a|..] == b;
    forall i, j | 0 <= i < |a| && 0 <= j < |b| ensures Kind(a[i]) != Kind(b[j]) {
      assert all[i] == a[i] && all[|a| + j] == b[j];
    }
  }

  lemma HeadIsPlaced(s: PublicStep)
    requires s != NilStep
    ensures s in Placed(s)
  {
    assert Placed(s)[0] == s;
  }

  lemma {:induction false} RulesDiffer(rules: seq<PublicStep>)
    requires NilStep !in rules && KindsDiffer(Gather(Placed, rules))
    ensures KindsDiffer(rules)
    ensures forall s :: s in rules ==> s in Gather(Placed, rules)
  {
    if rules != [] {
      var n := |rules| - 1;
      TakeAll(rules);
      TakeSnoc(rules, |rules|);
      GatherSnoc(Placed, rules[..n], rules[n]);
      DifferAcross(Gather(Placed, rules[..n]), Placed(rules[n]));
      HeadIsPlaced(rules[n]);
      RulesDiffer(rules[..n]);
    }
  }

  lemma RegistrationDiffers(flow: Flow)
    requires flow.registration != NilStep && KindsDiffer(DeclaredSteps(flow))
    ensures Each(Differs(Kind(flow.registration)), FlowSteps(flow))
    ensures forall s :: s in Gather(Placed, flow.rules) ==> Kind(s) != Kind(flow.registration)
  {
    var k, a, b := Kind(flow.registration), Placed(flow.primary), Gather(Placed, flow.rules);
    var r := RegistrationSteps(flow);
    DifferAcross(a + r, b);
    DifferAcross(a, r);
    assert flow.registration in r && flow.registration in a + r;
    FlowStepsAre(flow);
    assert Each(Differs(k), a) && Each(Differs(k), b);
    EachConcat(Differs(k), a, b);
  }

  lemma FlowStepsAre(flow: Flow)
    ensures FlowSteps(flow) == Placed(flow.primary) + Gather(Placed, flow.rules)
  {
    GatherConcat(Placed, [flow.primary], flow.rules);
    GatherOne(Placed, flow.primary);
  }

  lemma DistinctKindsPass(flow: Flow)
    requires StepsFit(flow) && KindsDiffer(DeclaredSteps(flow))
    ensures RuleKindsOk(flow.rules, Kind(flow.registration))
    ensures flow.registration.External? ==> Each(Differs(flow.registration.tag), FlowSteps(flow))
  {
    var a := Placed(flow.primary) + RegistrationSteps(flow);
    DifferAcross(a, Gather(Placed, flow.rules));
    RulesDiffer(flow.rules);
    if flow.registration != NilStep { RegistrationDiffers(flow); }
  }

  // ----- the counter's store -----

  lemma StoreFor(flow: Flow, store: bool)
    requires FitsRegistration(flow.registration)
    ensures LockoutOk(flow, store) <==> CountersHaveAStore(DeclaredSteps(flow), store)
  {
    FlowStepsAre(flow);
    var a, r, b := Placed(flow.primary), RegistrationSteps(flow), Gather(Placed, flow.rules);
    var p := CountsOnlyWith(store);
    EachConcat(p, a, b);
    EachConcat(p, a + r, b);
    EachConcat(p, a, r);
    assert Each(p, r);
    assert LockoutOk(flow, store) <==> Each(p, FlowSteps(flow));
    assert CountersHaveAStore(DeclaredSteps(flow), store) <==> Each(p, DeclaredSteps(flow));
  }

  // ----- the whole flow -----

  /** A flow is accepted if and only if: Primary names the user; every rule is a usable step, or a
      choice among usable steps that are neither captchas nor choices; Registration, where there is
      one, is an external step without a counter; all kinds differ, members included; and a step
      that counts failures has a store to count in. */
  lemma AcceptedIffFits(flow: Flow, store: bool)
    ensures Accepted(flow, store) <==>
            && StepsFit(flow) && KindsDiffer(DeclaredSteps(flow))
            && CountersHaveAStore(DeclaredSteps(flow), store)
  {
    if Accepted(flow, store) { AcceptedFits(flow, store); }
    if && StepsFit(flow) && KindsDiffer(DeclaredSteps(flow))
       && CountersHaveAStore(DeclaredSteps(flow), store) { FittingIsAccepted(flow, store); }
  }

  lemma AcceptedFits(flow: Flow, store: bool)
    requires Accepted(flow, store)
    ensures StepsFit(flow) && KindsDiffer(DeclaredSteps(flow)) && CountersHaveAStore(DeclaredSteps(flow), store)
  {
    PrimaryFits(flow.primary, store);
    RegistrationFits(flow.registration, store);
    AcceptedRulesFit(flow, store);
    DistinctDeclarations(flow, store);
    StoreFor(flow, store);
  }

  lemma FittingIsValidated(flow: Flow)
    requires StepsFit(flow) && KindsDiffer(DeclaredSteps(flow))
    ensures Validated(flow)
  {
    PrimaryFits(flow.primary, true);
    RegistrationFits(flow.registration, true);
    DistinctKindsPass(flow);
    forall i | 0 <= i < |flow.rules| ensures DependenciesOk(flow.rules[i]) && ExternalKindOk(flow.rules[i]) {
      FittingIsTaken(flow.rules[i], false, true);
    }
  }

  lemma FittingIsShaped(flow: Flow, store: bool)
    requires StepsFit(flow)
    ensures SpecOf(flow, store).Some? && WellShaped(SpecOf(flow, store).value)
    ensures !SpecOf(flow, store).value.primary.captcha
  {
    PrimaryFits(flow.primary, store);
    RegistrationFits(flow.registration, store);
    FittingRulesProject(flow.rules, store);
  }

  lemma FittingIsAccepted(flow: Flow, store: bool)
    requires StepsFit(flow) && KindsDiffer(DeclaredSteps(flow)) && CountersHaveAStore(DeclaredSteps(flow), store)
    ensures Accepted(flow, store)
  {
    FittingIsValidated(flow);
    FittingIsShaped(flow, store);
    DistinctDeclarations(flow, store);
    StoreFor(flow, store);
  }
}
