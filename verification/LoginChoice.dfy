/** The next action of a login, read off the public flow, and the proof that the compiled
    flow's action is the same in every state, for every predicate and decider. */
module LoginChoice {
  import opened Maybes
  import opened Sequences
  import opened LoginCompile
  import opened LoginLookup
  import opened LoginFlow
  import opened LoginMeaning
  import opened LoginRun

  // ----- what the embedder supplies -----

  datatype Verdict = AllowIt | PassIt | DenyIt | RequireIt(kind: string)

  /** A decision as a decider may return it: by value, by pointer, none, or of an unknown type. */
  datatype PublicDecision = Value(verdict: Verdict) | Pointer(verdict: Verdict) | NoDecision | Unrecognised

  /** One predicate per rule, None where the rule has none; an answer of None is a panic. */
  datatype Policy = Policy(whens: seq<Maybe<Context -> Maybe<bool>>>, decider: Maybe<Context -> Maybe<PublicDecision>>)

  /** deciderAdapter.Decide. */
  function Translate(d: PublicDecision): Decision
  {
    match Dereferenced(d)
    case Value(AllowIt) => Allow
    case Value(PassIt) => Pass
    case Value(DenyIt) => Forbid
    case Value(RequireIt(kind)) => if kind == "" then Pass else Require(kind)
    case _ => Forbid
  }

  /** derefDecision. */
  function Dereferenced(d: PublicDecision): PublicDecision { if d.Pointer? then Value(d.verdict) else d }

  /** The predicates and the decider as the projection hands them on. */
  function Adapted(p: Policy, e: Env): Env
  {
    e.(when := (i: nat, ctx: Context) =>
           if i < |p.whens| && p.whens[i].Some? then p.whens[i].value(ctx) else Some(true),
       decider := if p.decider.None? then None else Some((ctx: Context) => TranslateAnswer(p.decider.value(ctx))))
  }

  function TranslateAnswer(a: Maybe<PublicDecision>): Maybe<Decision>
  {
    if a.None? then None else Some(Translate(a.value))
  }

  // ----- the action the public flow describes -----

  datatype PublicAction = RunKind(kind: string) | GrantLogin | RefuseLogin(error: Error)

  predicate MemberShown(e: Entry, s: PublicStep) { !IsCaptcha(s) && (FactorName(s), VerifiesUser(s)) in e.shown }

  /** The session shows that the step, or one member of a one-of step, was done. */
  predicate StepShown(e: Entry, s: PublicStep)
  {
    if s.OneOf? then exists i :: 0 <= i < |s.steps| && MemberShown(e, s.steps[i]) else MemberShown(e, s)
  }

  predicate StandsFor(flow: Flow, e: Entry, kind: string)
  {
    || kind == Kind(flow.primary)
    || exists i :: 0 <= i < |flow.rules| && Kind(flow.rules[i]) == kind && StepShown(e, flow.rules[i])
  }

  /** A step of this kind needs no run now. */
  predicate IsDone(flow: Flow, st: State, kind: string, captcha: bool)
  {
    if captcha then kind in st.completed && st.failures == 0
    else kind in st.completed || (StandsIn(st) && StandsFor(flow, st.entry.value, kind)) || kind in st.skipped
  }

  /** A rule without a predicate always applies; one that panics does too. */
  predicate Applies(p: Policy, ctx: Context, i: nat)
    requires i < |p.whens|
  {
    p.whens[i].None? || p.whens[i].value(ctx) != Some(false)
  }

  /** The kind of the first due rule among the captcha rules, or among the others. */
  function FirstDue(flow: Flow, p: Policy, ctx: Context, st: State, captcha: bool, i: nat): Maybe<string>
    requires |p.whens| == |flow.rules| && i <= |flow.rules|
    decreases |flow.rules| - i
  {
    if i == |flow.rules| then None
    else if IsCaptcha(flow.rules[i]) == captcha && !IsDone(flow, st, Kind(flow.rules[i]), captcha)
            && Applies(p, ctx, i) then
      Some(Kind(flow.rules[i]))
    else FirstDue(flow, p, ctx, st, captcha, i + 1)
  }

  /** A due captcha goes before a factor step. */
  function AfterCaptcha(flow: Flow, p: Policy, ctx: Context, st: State, kind: string, captcha: bool): PublicAction
    requires |p.whens| == |flow.rules|
  {
    var due := FirstDue(flow, p, ctx, st, true, 0);
    RunKind(if !captcha && due.Some? then due.value else kind)
  }

  function WithKind(steps: seq<PublicStep>, kind: string): Maybe<PublicStep>
  {
    if steps == [] then None else if Kind(steps[0]) == kind then Some(steps[0]) else WithKind(steps[1..], kind)
  }

  function WithFactor(steps: seq<PublicStep>, factor: string): Maybe<PublicStep>
  {
    if steps == [] then None
    else if !steps[0].OneOf? && !IsCaptcha(steps[0]) && factor != "" && FactorName(steps[0]) == factor then
      Some(steps[0])
    else WithFactor(steps[1..], factor)
  }

  /** The first demanded factor that a step not yet completed offers. */
  function StepUp(flow: Flow, st: State, wanted: seq<string>): Maybe<string>
  {
    if wanted == [] then None
    else
      var s := WithFactor(FlowSteps(flow), wanted[0]);
      if s.Some? && Kind(s.value) !in st.completed then Some(Kind(s.value)) else StepUp(flow, st, wanted[1..])
  }

  function GrantAction(flow: Flow, p: Policy, ctx: Context, st: State): PublicAction
    requires |p.whens| == |flow.rules|
  {
    if RiskMet(st) then GrantLogin
    else
      var kind := StepUp(flow, st, st.risk.value);
      if kind.None? then RefuseLogin(NoEligible) else AfterCaptcha(flow, p, ctx, st, kind.value, false)
  }

  function RuleAction(flow: Flow, p: Policy, ctx: Context, st: State): PublicAction
    requires |p.whens| == |flow.rules|
  {
    var captcha, factor := FirstDue(flow, p, ctx, st, true, 0), FirstDue(flow, p, ctx, st, false, 0);
    if captcha.Some? then RunKind(captcha.value)
    else if factor.Some? then RunKind(factor.value)
    else GrantAction(flow, p, ctx, st)
  }

  function RequireAction(flow: Flow, p: Policy, ctx: Context, st: State, kind: string): PublicAction
    requires |p.whens| == |flow.rules|
  {
    var s := WithKind(DeclaredSteps(flow), kind);
    if (flow.registration != NilStep && kind == Kind(flow.registration)) || s.None? then RefuseLogin(Invalid)
    else if IsDone(flow, st, kind, IsCaptcha(s.value)) then RuleAction(flow, p, ctx, st)
    else AfterCaptcha(flow, p, ctx, st, kind, IsCaptcha(s.value))
  }

  function VerdictAction(flow: Flow, p: Policy, ctx: Context, st: State, v: Verdict): PublicAction
    requires |p.whens| == |flow.rules|
  {
    match v
    case AllowIt => GrantAction(flow, p, ctx, st)
    case DenyIt => RefuseLogin(Denied)
    case PassIt => RuleAction(flow, p, ctx, st)
    case RequireIt(kind) =>
      if kind == "" then RuleAction(flow, p, ctx, st) else RequireAction(flow, p, ctx, st, kind)
  }

  /** No decider passes; a pointer means its value; no verdict at all denies. */
  function DeciderAction(flow: Flow, p: Policy, ctx: Context, st: State): PublicAction
    requires |p.whens| == |flow.rules|
  {
    if p.decider.None? then RuleAction(flow, p, ctx, st)
    else
      match p.decider.value(ctx)
      case Some(Value(v)) => VerdictAction(flow, p, ctx, st, v)
      case Some(Pointer(v)) => VerdictAction(flow, p, ctx, st, v)
      case _ => RefuseLogin(Denied)
  }

  function NextAction(flow: Flow, p: Policy, ctx: Context, st: State): PublicAction
    requires |p.whens| == |flow.rules|
  {
    if st.registration && flow.registration == NilStep then RefuseLogin(Invalid)
    else if st.registration && Kind(flow.registration) !in st.completed then
      AfterCaptcha(flow, p, ctx, st, Kind(flow.registration), false)
    else if !st.registration && (st.subject == "" || (st.reauth && Kind(flow.primary) !in st.completed)) then
      AfterCaptcha(flow, p, ctx, st, Kind(flow.primary), false)
    else DeciderAction(flow, p, ctx, st)
  }

  function View(a: Action): PublicAction
  {
    match a
    case Run(s) => RunKind(s.Kind())
    case Grant => GrantLogin
    case Refuse(error) => RefuseLogin(error)
  }

  // ----- the compiled flow agrees -----

  /** The flow was accepted and c is its compiled form. */
  ghost predicate CompilesTo(flow: Flow, store: bool, c: Compiled)
  {
    Accepted(flow, store) && c == CompiledOf(SpecOf(flow, store).value)
  }

  lemma {:induction false} InheritedMeans(primary: Step, rules: seq<Step>, e: Entry, kind: string)
    ensures kind in Inherited(primary, rules, e) <==>
            kind == primary.Kind() || exists i :: 0 <= i < |rules| && rules[i].Kind() == kind && Shown(e, rules[i])
  {
    if rules != [] {
      var n := |rules| - 1;
      InheritedMeans(primary, rules[..n], e, kind);
      assert forall i :: 0 <= i < n ==> rules[..n][i] == rules[i];
    }
  }

  lemma {:induction false} MissingMeans(a: seq<string>, b: seq<string>, x: string)
    ensures x in Missing(a, b) <==> x in a && x !in b
  {
    if a != [] {
      MissingMeans(a[..|a| - 1], b, x);
      assert a == a[..|a| - 1] + [a[|a| - 1]];
    }
  }

  lemma CompletedMeans(c: Compiled, st: State, kind: string)
    ensures kind in CompletedKinds(c, st) <==>
            kind in st.completed || (StandsIn(st) && kind in Inherited(c.primary, c.rules, st.entry.value))
  {
    if StandsIn(st) { MissingMeans(Inherited(c.primary, c.rules, st.entry.value), st.completed, kind); }
  }

  /** In every accepted flow Primary and Registration are compiled for the position where no
      subject is bound yet, and the rules for where one is: step by step, members included. */
  lemma PositionsAreKept(flow: Flow, store: bool, c: Compiled)
    requires CompilesTo(flow, store, c)
    ensures Pairwise(Becomes(true, store), Placed(flow.primary), Decls(c.primary))
    ensures Pairwise(Becomes(true, store), RegistrationSteps(flow), RegistrationDecls(c.registration))
    ensures Pairwise(Becomes(false, store), Gather(Placed, flow.rules), Gather(Decls, c.rules))
  {
    StepSame(flow.primary, true, store);
    RegistrationSame(flow, store);
    RulesSame(flow.rules, store);
  }

  lemma PrimaryAlike(flow: Flow, store: bool, c: Compiled)
    requires CompilesTo(flow, store, c)
    ensures c.primary.Kind() == Kind(flow.primary) && !c.primary.Captcha()
  {
    StepSame(flow.primary, true, store);
    assert Becomes(true, store)(Placed(flow.primary)[0], Decls(c.primary)[0]);
  }

  lemma RegistrationAlike(flow: Flow, store: bool, c: Compiled)
    requires CompilesTo(flow, store, c)
    ensures c.registration.Some? <==> flow.registration != NilStep
    ensures c.registration.Some? ==>
              c.registration.value.kind == Kind(flow.registration) && !c.registration.value.captcha
  {
    RegistrationSame(flow, store);
    if flow.registration != NilStep {
      assert Becomes(true, store)(RegistrationSteps(flow)[0], RegistrationDecls(c.registration)[0]);
    }
  }

  lemma RuleAlike(flow: Flow, store: bool, c: Compiled, i: nat)
    requires CompilesTo(flow, store, c) && i < |flow.rules|
    ensures |c.rules| == |flow.rules|
    ensures c.rules[i].Kind() == Kind(flow.rules[i]) && c.rules[i].Captcha() == IsCaptcha(flow.rules[i])
    ensures forall e :: Shown(e, c.rules[i]) == StepShown(e, flow.rules[i])
  {
    RuleAt(flow.rules, store, i);
    StepSame(flow.rules[i], false, store);
    var s, t := flow.rules[i], c.rules[i];
    assert Becomes(false, store)(Placed(s)[0], Decls(t)[0]);
    if t.Choice? { forall e ensures Shown(e, t) == StepShown(e, s) { MembersShown(s, t, e, store); } }
  }

  lemma {:induction false} InnerAt(parent: string, inner: seq<Leaf>, i: nat)
    requires i < |inner|
    ensures |InnerDecls(parent, inner)| == |inner|
    ensures InnerDecls(parent, inner)[i] == Decl(Single(inner[i]), parent, true)
  {
    var n := |inner| - 1;
    if n > 0 { InnerAt(parent, inner[..n], if i < n then i else 0); }
  }

  lemma MembersShown(s: PublicStep, t: Step, e: Entry, store: bool)
    requires s.OneOf? && t.Choice? && Pairwise(Becomes(false, store), Placed(s), Decls(t)) && t.inner != []
    ensures Shown(e, t) == StepShown(e, s)
  {
    InnerAt(t.name, t.inner, 0);
    assert |t.inner| == |s.steps|;
    forall i | 0 <= i < |t.inner| ensures LeafShown(e, t.inner[i]) == MemberShown(e, s.steps[i]) {
      InnerAt(t.name, t.inner, i);
      assert Becomes(false, store)(Placed(s)[i + 1], Decls(t)[i + 1]);
    }
    if leaf :| leaf in t.inner && LeafShown(e, leaf) {
      var i :| 0 <= i < |t.inner| && t.inner[i] == leaf;
      assert MemberShown(e, s.steps[i]);
    }
    if i :| 0 <= i < |s.steps| && MemberShown(e, s.steps[i]) {
      assert t.inner[i] in t.inner && LeafShown(e, t.inner[i]);
    }
  }

  lemma StandsForAlike(flow: Flow, store: bool, c: Compiled, e: Entry, kind: string)
    requires CompilesTo(flow, store, c)
    ensures kind in Inherited(c.primary, c.rules, e) <==> StandsFor(flow, e, kind)
  {
    PrimaryAlike(flow, store, c);
    InheritedMeans(c.primary, c.rules, e, kind);
    RulesLength(flow, store, c);
    forall i | 0 <= i < |flow.rules|
      ensures c.rules[i].Kind() == Kind(flow.rules[i]) && Shown(e, c.rules[i]) == StepShown(e, flow.rules[i])
    {
      RuleAlike(flow, store, c, i);
    }
  }

  lemma RulesLength(flow: Flow, store: bool, c: Compiled)
    requires CompilesTo(flow, store, c)
    ensures |c.rules| == |flow.rules|
  {
    if flow.rules != [] { RuleAlike(flow, store, c, 0); }
  }

  lemma SettledAlike(flow: Flow, store: bool, c: Compiled, st: State, t: Step)
    requires CompilesTo(flow, store, c)
    ensures Settled(c, st, t) == IsDone(flow, st, t.Kind(), t.Captcha())
  {
    CompletedMeans(c, st, t.Kind());
    if StandsIn(st) { StandsForAlike(flow, store, c, st.entry.value, t.Kind()); }
  }

  /** a answers for p: its predicates match where p's apply, and its decider translates p's. */
  ghost predicate AnswersFor(a: Env, p: Policy)
  {
    && (forall i: nat, ctx :: i < |p.whens| ==> (a.when(i, ctx) != Some(false) <==> Applies(p, ctx, i)))
    && (a.decider.None? <==> p.decider.None?)
    && (p.decider.Some? ==> forall ctx :: a.decider.value(ctx) == TranslateAnswer(p.decider.value(ctx)))
  }

  lemma AdaptedAnswers(p: Policy, e: Env)
    ensures AnswersFor(Adapted(p, e), p)
  {
  }

  /** Rule i reads the same compiled and as written. */
  ghost predicate DueAlike(flow: Flow, c: Compiled, p: Policy, a: Env, st: State, i: nat)
    requires |p.whens| == |flow.rules| == |c.rules| && i < |flow.rules|
  {
    && c.rules[i].Kind() == Kind(flow.rules[i]) && c.rules[i].Captcha() == IsCaptcha(flow.rules[i])
    && Settled(c, st, c.rules[i]) == IsDone(flow, st, Kind(flow.rules[i]), IsCaptcha(flow.rules[i]))
    && Matches(c, a, st, i) == Applies(p, ContextOf(c, st), i)
  }

  lemma {:induction false} ScanAlike(flow: Flow, c: Compiled, p: Policy, a: Env, st: State, captcha: bool, i: nat)
    requires |p.whens| == |flow.rules| == |c.rules| && i <= |flow.rules|
    requires forall j: nat :: j < |flow.rules| ==> DueAlike(flow, c, p, a, st, j)
    ensures var r, q := FirstRule(c, a, st, captcha, i), FirstDue(flow, p, ContextOf(c, st), st, captcha, i);
            && (r.Some? <==> q.Some?) && (r.Some? ==> r.value.Kind() == q.value)
    decreases |flow.rules| - i
  {
    if i < |flow.rules| {
      assert DueAlike(flow, c, p, a, st, i);
      ScanAlike(flow, c, p, a, st, captcha, i + 1);
    }
  }

  lemma RuleDueAlike(flow: Flow, store: bool, c: Compiled, p: Policy, a: Env, st: State, i: nat)
    requires CompilesTo(flow, store, c) && |p.whens| == |flow.rules| == |c.rules|
    requires AnswersFor(a, p) && i < |flow.rules|
    ensures DueAlike(flow, c, p, a, st, i)
  {
    RuleAlike(flow, store, c, i);
    SettledAlike(flow, store, c, st, c.rules[i]);
  }

  lemma FirstAlike(flow: Flow, store: bool, c: Compiled, p: Policy, a: Env, st: State, captcha: bool)
    requires CompilesTo(flow, store, c) && |p.whens| == |flow.rules| && AnswersFor(a, p)
    ensures var r, q := FirstRule(c, a, st, captcha, 0), FirstDue(flow, p, ContextOf(c, st), st, captcha, 0);
            && (r.Some? <==> q.Some?) && (r.Some? ==> r.value.Kind() == q.value)
  {
    RulesLength(flow, store, c);
    forall j: nat | j < |flow.rules| ensures DueAlike(flow, c, p, a, st, j) {
      RuleDueAlike(flow, store, c, p, a, st, j);
    }
    ScanAlike(flow, c, p, a, st, captcha, 0);
  }

  lemma CaptchaFirstAlike(flow: Flow, store: bool, c: Compiled, p: Policy, a: Env, st: State, t: Step)
    requires CompilesTo(flow, store, c) && |p.whens| == |flow.rules| && AnswersFor(a, p)
    ensures View(Run(CaptchaFirst(c, a, st, t))) ==
            AfterCaptcha(flow, p, ContextOf(c, st), st, t.Kind(), t.Captcha())
  {
    FirstAlike(flow, store, c, p, a, st, true);
  }

  // ----- lookups -----

  lemma {:induction false} ScanKind(ps: seq<PublicStep>, ds: seq<Decl>, kind: string)
    requires Pairwise(Alike(), ps, ds)
    ensures var q, r := WithKind(ps, kind), First(ds, Named(kind));
            && (q.Some? <==> r.Some?) && (q.Some? ==> Kind(q.value) == kind && SameKindOf(q.value, r.value))
  {
    if ps != [] {
      assert Alike()(ps[0], ds[0]);
      PairwiseTail(Alike(), ps, ds);
      ScanKind(ps[1..], ds[1..], kind);
    }
  }

  function IsIndexed(): Decl -> bool { (d: Decl) => d.indexed }

  lemma {:induction false} ScanFactor(ps: seq<PublicStep>, ds: seq<Decl>, factor: string)
    requires Pairwise(Alike(), ps, ds) && Each(IsIndexed(), ds)
    ensures var q, r := WithFactor(ps, factor), First(ds, Offers(factor));
            && (q.Some? <==> r.Some?) && (q.Some? ==> r.value.Kind() == Kind(q.value))
  {
    if ps != [] {
      assert Alike()(ps[0], ds[0]) && IsIndexed()(ds[0]);
      PairwiseTail(Alike(), ps, ds);
      assert Each(IsIndexed(), ds[1..]);
      ScanFactor(ps[1..], ds[1..], factor);
    }
  }

  lemma {:induction false} FirstConcat(a: seq<Decl>, b: seq<Decl>, p: Decl -> bool)
    ensures First(a + b, p) == if First(a, p).Some? then First(a, p) else First(b, p)
  {
    if a == [] {
      assert a + b == b;
    } else {
      assert (a + b)[1..] == a[1..] + b;
      FirstConcat(a[1..], b, p);
    }
  }

  lemma {:induction false} InnerIndexed(parent: string, inner: seq<Leaf>)
    ensures Each(IsIndexed(), InnerDecls(parent, inner))
  {
    if inner != [] {
      var n := |inner| - 1;
      InnerIndexed(parent, inner[..n]);
      EachConcat(IsIndexed(), InnerDecls(parent, inner[..n]), [Decl(Single(inner[n]), parent, true)]);
    }
  }

  lemma StepIndexed(s: Step)
    ensures Each(IsIndexed(), Decls(s))
  {
    if s.Choice? {
      InnerIndexed(s.name, s.inner);
      EachConcat(IsIndexed(), [Decl(s, "", true)], InnerDecls(s.name, s.inner));
    }
  }

  lemma RulesIndexed(rules: seq<Step>)
    ensures Each(IsIndexed(), Gather(Decls, rules))
  {
    forall i | 0 <= i < |rules| ensures Each(IsIndexed(), Decls(rules[i])) { StepIndexed(rules[i]); }
    EachGather(IsIndexed(), Decls, rules);
  }

  /** A factor is found at the first step of the public flow that offers it. */
  lemma FactorAlike(flow: Flow, store: bool, c: Compiled, factor: string)
    requires CompilesTo(flow, store, c)
    ensures var q := WithFactor(FlowSteps(flow), factor);
            && (q.Some? <==> factor in c.byFactor) && (q.Some? ==> c.byFactor[factor].kind == Kind(q.value))
  {
    var a, r, b := Decls(c.primary), RegistrationDecls(c.registration), Gather(Decls, c.rules);
    ByFactorIsScan(a + r + b, factor);
    FirstConcat(a + r, b, Offers(factor));
    FirstConcat(a, r, Offers(factor));
    FirstConcat(a, b, Offers(factor));
    assert First(r, Offers(factor)).None? by { if r != [] { assert r[1..] == []; } }
    FlowAlike(flow, store, c);
    StepIndexed(c.primary);
    RulesIndexed(c.rules);
    EachConcat(IsIndexed(), a, b);
    ScanFactor(FlowSteps(flow), a + b, factor);
  }

  lemma FlowAlike(flow: Flow, store: bool, c: Compiled)
    requires CompilesTo(flow, store, c)
    ensures Pairwise(Alike(), FlowSteps(flow), Decls(c.primary) + Gather(Decls, c.rules))
  {
    StepSame(flow.primary, true, store);
    RulesSame(flow.rules, store);
    Weaken(true, store, Placed(flow.primary), Decls(c.primary));
    Weaken(false, store, Gather(Placed, flow.rules), Gather(Decls, c.rules));
    GatherConcat(Placed, [flow.primary], flow.rules);
    GatherOne(Placed, flow.primary);
    PairwiseConcat(Alike(), Placed(flow.primary), Decls(c.primary), Gather(Placed, flow.rules), Gather(Decls, c.rules));
  }

  lemma {:induction false} StepUpAlike(flow: Flow, store: bool, c: Compiled, st: State, wanted: seq<string>)
    requires CompilesTo(flow, store, c)
    ensures var r, q := Eligible(c, st, wanted), StepUp(flow, st, wanted);
            && (r.Some? <==> q.Some?) && (r.Some? ==> r.value.kind == q.value)
  {
    if wanted != [] {
      FactorAlike(flow, store, c, wanted[0]);
      StepUpAlike(flow, store, c, st, wanted[1..]);
    }
  }

  lemma KindAlike(flow: Flow, store: bool, c: Compiled, kind: string)
    requires CompilesTo(flow, store, c)
    ensures var q := WithKind(DeclaredSteps(flow), kind);
            && (q.Some? <==> kind in c.byKind)
            && (q.Some? ==> Kind(q.value) == kind && SameKindOf(q.value, c.byKind[kind]))
  {
    var ds := SpecDecls(SpecOf(flow, store).value);
    DeclaredKinds(flow, store);
    KindsIndexed(ds);
    ByKindIsScan(ds, kind);
    ScanKind(DeclaredSteps(flow), ds, kind);
  }

  // ----- the theorem -----

  lemma GrantAlike(flow: Flow, store: bool, c: Compiled, p: Policy, a: Env, st: State)
    requires CompilesTo(flow, store, c) && |p.whens| == |flow.rules| && AnswersFor(a, p)
    ensures View(Granting(c, a, st)) == GrantAction(flow, p, ContextOf(c, st), st)
  {
    if !RiskMet(st) {
      StepUpAlike(flow, store, c, st, st.risk.value);
      EligibleIsFactor(flow, store, c, st, st.risk.value);
      var leaf := Eligible(c, st, st.risk.value);
      if leaf.Some? { CaptchaFirstAlike(flow, store, c, p, a, st, Single(leaf.value)); }
    }
  }

  lemma {:induction false} EligibleIsFactor(flow: Flow, store: bool, c: Compiled, st: State, wanted: seq<string>)
    requires CompilesTo(flow, store, c)
    ensures Eligible(c, st, wanted).Some? ==> !Eligible(c, st, wanted).value.captcha
  {
    CompiledIsCoherent(SpecOf(flow, store).value);
    if wanted != [] { EligibleIsFactor(flow, store, c, st, wanted[1..]); }
  }

  lemma RulesAlike(flow: Flow, store: bool, c: Compiled, p: Policy, a: Env, st: State)
    requires CompilesTo(flow, store, c) && |p.whens| == |flow.rules| && AnswersFor(a, p)
    ensures View(ByRules(c, a, st)) == RuleAction(flow, p, ContextOf(c, st), st)
  {
    FirstAlike(flow, store, c, p, a, st, true);
    FirstAlike(flow, store, c, p, a, st, false);
    GrantAlike(flow, store, c, p, a, st);
  }

  lemma RequireAlike(flow: Flow, store: bool, c: Compiled, p: Policy, a: Env, st: State, kind: string)
    requires CompilesTo(flow, store, c) && |p.whens| == |flow.rules| && AnswersFor(a, p)
    requires a.decider.Some? && a.decider.value(ContextOf(c, st)) == Some(Require(kind))
    ensures View(Decided(c, a, st)) == RequireAction(flow, p, ContextOf(c, st), st, kind)
  {
    RegistrationAlike(flow, store, c);
    KindAlike(flow, store, c, kind);
    RequiredBy(c, a, st, kind);
    if kind in c.byKind {
      SettledAlike(flow, store, c, st, c.byKind[kind]);
      RulesAlike(flow, store, c, p, a, st);
      CaptchaFirstAlike(flow, store, c, p, a, st, c.byKind[kind]);
    }
  }

  lemma RequiredBy(c: Compiled, a: Env, st: State, kind: string)
    requires a.decider.Some? && a.decider.value(ContextOf(c, st)) == Some(Require(kind))
    ensures Decided(c, a, st) ==
            if IsRegistration(c, kind) || kind !in c.byKind then Refuse(Invalid)
            else if Settled(c, st, c.byKind[kind]) then ByRules(c, a, st)
            else Run(CaptchaFirst(c, a, st, c.byKind[kind]))
  {
  }

  /** A decision other than Require settles where the choice is made. */
  lemma DecidedBy(c: Compiled, a: Env, st: State)
    requires a.decider.Some?
    ensures var d := a.decider.value(ContextOf(c, st));
            && (d == Some(Allow) ==> Decided(c, a, st) == Granting(c, a, st))
            && (d == Some(Pass) ==> Decided(c, a, st) == ByRules(c, a, st))
            && (d == None || d == Some(Forbid) ==> Decided(c, a, st) == Refuse(Denied))
  {
  }

  lemma VerdictAlike(flow: Flow, store: bool, c: Compiled, p: Policy, a: Env, st: State, v: Verdict)
    requires CompilesTo(flow, store, c) && |p.whens| == |flow.rules| && AnswersFor(a, p)
    requires a.decider.Some? && a.decider.value(ContextOf(c, st)) == Some(Translate(Value(v)))
    ensures View(Decided(c, a, st)) == VerdictAction(flow, p, ContextOf(c, st), st, v)
  {
    DecidedBy(c, a, st);
    match v {
      case AllowIt => GrantAlike(flow, store, c, p, a, st);
      case DenyIt =>
      case PassIt => RulesAlike(flow, store, c, p, a, st);
      case RequireIt(kind) =>
        if kind == "" { RulesAlike(flow, store, c, p, a, st); } else { RequireAlike(flow, store, c, p, a, st, kind); }
    }
  }

  /** The verdict behind a decider's answer, None when there is none. */
  function VerdictOf(answer: Maybe<PublicDecision>): Maybe<Verdict>
  {
    if answer.Some? && (answer.value.Value? || answer.value.Pointer?) then Some(answer.value.verdict) else None
  }

  lemma TranslatedVerdict(answer: Maybe<PublicDecision>)
    ensures VerdictOf(answer).Some? ==> TranslateAnswer(answer) == Some(Translate(Value(VerdictOf(answer).value)))
    ensures VerdictOf(answer).None? ==> TranslateAnswer(answer) == None || TranslateAnswer(answer) == Some(Forbid)
  {
  }

  lemma ActionByVerdict(flow: Flow, p: Policy, ctx: Context, st: State)
    requires |p.whens| == |flow.rules| && p.decider.Some?
    ensures var v := VerdictOf(p.decider.value(ctx));
            DeciderAction(flow, p, ctx, st) ==
            if v.Some? then VerdictAction(flow, p, ctx, st, v.value) else RefuseLogin(Denied)
  {
  }

  lemma DeciderAlike(flow: Flow, store: bool, c: Compiled, p: Policy, a: Env, st: State)
    requires CompilesTo(flow, store, c) && |p.whens| == |flow.rules| && AnswersFor(a, p)
    ensures View(Decided(c, a, st)) == DeciderAction(flow, p, ContextOf(c, st), st)
  {
    if p.decider.None? {
      RulesAlike(flow, store, c, p, a, st);
    } else {
      var ctx := ContextOf(c, st);
      var answer := p.decider.value(ctx);
      assert a.decider.value(ctx) == TranslateAnswer(answer);
      TranslatedVerdict(answer);
      ActionByVerdict(flow, p, ctx, st);
      if VerdictOf(answer).Some? {
        VerdictAlike(flow, store, c, p, a, st, VerdictOf(answer).value);
      } else {
        DecidedBy(c, a, st);
      }
    }
  }

  lemma ChoiceAlike(flow: Flow, store: bool, c: Compiled, p: Policy, a: Env, st: State)
    requires CompilesTo(flow, store, c) && |p.whens| == |flow.rules| && AnswersFor(a, p)
    ensures View(Choose(c, a, st)) == NextAction(flow, p, ContextOf(c, st), st)
  {
    RegistrationAlike(flow, store, c);
    PrimaryAlike(flow, store, c);
    if BindDue(c, st) {
      CaptchaFirstAlike(flow, store, c, p, a, st, BindStep(c, st));
    } else {
      DeciderAlike(flow, store, c, p, a, st);
    }
  }

  /** For every accepted flow, every predicate and decider, and every state: the compiled flow
      takes the action the public flow describes. */
  lemma ProjectionPreservesMeaning(flow: Flow, store: bool, c: Compiled, p: Policy, e: Env, st: State)
    requires CompilesTo(flow, store, c) && |p.whens| == |flow.rules|
    ensures View(Choose(c, Adapted(p, e), st)) == NextAction(flow, p, ContextOf(c, st), st)
  {
    AdaptedAnswers(p, e);
    ChoiceAlike(flow, store, c, p, Adapted(p, e), st);
  }

  // ----- the order in which rules fire -----

  /** The first due rule of either group, in declaration order. */
  function FirstDeclared(flow: Flow, p: Policy, ctx: Context, st: State, i: nat): Maybe<PublicStep>
    requires |p.whens| == |flow.rules| && i <= |flow.rules|
    decreases |flow.rules| - i
  {
    if i == |flow.rules| then None
    else if !IsDone(flow, st, Kind(flow.rules[i]), IsCaptcha(flow.rules[i])) && Applies(p, ctx, i) then
      Some(flow.rules[i])
    else FirstDeclared(flow, p, ctx, st, i + 1)
  }

  lemma {:induction false} FirstOfEither(flow: Flow, p: Policy, ctx: Context, st: State, i: nat)
    requires |p.whens| == |flow.rules| && i <= |flow.rules|
    ensures var s := FirstDeclared(flow, p, ctx, st, i);
            && (s.None? ==> FirstDue(flow, p, ctx, st, true, i).None? && FirstDue(flow, p, ctx, st, false, i).None?)
            && (s.Some? ==> FirstDue(flow, p, ctx, st, IsCaptcha(s.value), i) == Some(Kind(s.value)))
    decreases |flow.rules| - i
  {
    if i < |flow.rules| { FirstOfEither(flow, p, ctx, st, i + 1); }
  }

  /** A password, then a totp rule written before a captcha rule, neither with a predicate. */
  const Queue: Flow :=
    Flow(Builtin(Password, true, true, false), NilStep,
         [Builtin(Totp, true, true, false), Builtin(CaptchaCheck, true, true, false)])

  /** The flow is accepted; where both rules are due the totp rule comes first and the captcha
      runs. */
  lemma CaptchaJumpsTheQueue(ctx: Context, st: State)
    requires st.entry.None? && "totp" !in st.completed && "totp" !in st.skipped && "captcha" !in st.completed
    ensures var p := Policy([None, None], None);
            && Accepted(Queue, true)
            && FirstDeclared(Queue, p, ctx, st, 0) == Some(Queue.rules[0])
            && RuleAction(Queue, p, ctx, st) == RunKind("captcha")
  {
    var p := Policy([None, None], None);
    QueueIsAccepted();
    assert Kind(Queue.rules[0]) == "totp" && Kind(Queue.rules[1]) == "captcha";
    assert FirstDue(Queue, p, ctx, st, true, 1) == Some("captcha");
  }

  lemma QueueIsAccepted()
    ensures Accepted(Queue, true)
  {
    var p, t, k := Queue.primary, Queue.rules[0], Queue.rules[1];
    assert Queue.rules == [t, k];
    TwoRules(t, k, true);
    var p', t', k' := Projected(p, true, true).value, Projected(t, false, true).value, Projected(k, false, true).value;
    assert p'.kind == "password" && t'.kind == "totp" && k'.kind == "captcha";
    ThreeStepsCompile(p', t', k');
  }

  lemma TwoRules(a: PublicStep, b: PublicStep, store: bool)
    requires Projected(a, false, store).Some? && Projected(b, false, store).Some?
    ensures ProjectedRules([a, b], store) == Some([Projected(a, false, store).value, Projected(b, false, store).value])
  {
    var p, q := Projected(a, false, store).value, Projected(b, false, store).value;
    TakePair(a, b);
    var none: seq<SpecStep> := [];
    assert none + [p] == [p] && [p] + [q] == [p, q];
    assert ProjectedRules([], store) == Some(none);
    assert ProjectedRules([a], store) == Some(none + [p]);
  }

  predicate Plain(s: SpecStep) { s.auth.Some? && s.oneOf.None? && s.policy == Deny && s.kind != "" }

  lemma ThreeStepsCompile(p: SpecStep, t: SpecStep, k: SpecStep)
    requires Plain(p) && Plain(t) && Plain(k) && !p.captcha
    requires p.kind != t.kind && p.kind != k.kind && t.kind != k.kind
    ensures Compiles(Spec(p, NoStep, [t, k]))
  {
    TakePair(t, k);
    assert Shaped([]) && Shaped([t]);
    ThreeDecls(p, t, k);
    var ds := SpecDecls(Spec(p, NoStep, [t, k]));
    assert Kinds(ds) == [p.kind, t.kind, k.kind];
  }

  lemma ThreeDecls(p: SpecStep, t: SpecStep, k: SpecStep)
    requires Plain(p) && Plain(t) && Plain(k)
    ensures SpecDecls(Spec(p, NoStep, [t, k])) ==
            [Decl(StepOf(p), "", true), Decl(StepOf(t), "", true), Decl(StepOf(k), "", true)]
  {
    TakePair(t, k);
    assert StepsOf([]) == [];
    assert StepsOf([t]) == [StepOf(t)];
    assert StepsOf([t, k]) == [StepOf(t)] + [StepOf(k)];
    GatherSnoc(Decls, [StepOf(t)], StepOf(k));
    GatherOne(Decls, StepOf(t));
  }

  /** Rules fire in declaration order except that a due captcha goes first: the rule pass runs
      the first due rule exactly when that rule is a captcha, or no other-kinded captcha is due. */
  lemma DeclarationOrder(flow: Flow, p: Policy, ctx: Context, st: State)
    requires |p.whens| == |flow.rules| && FirstDeclared(flow, p, ctx, st, 0).Some?
    ensures var s, captcha := FirstDeclared(flow, p, ctx, st, 0).value, FirstDue(flow, p, ctx, st, true, 0);
            RuleAction(flow, p, ctx, st) == RunKind(Kind(s)) <==>
            IsCaptcha(s) || captcha.None? || captcha.value == Kind(s)
  {
    FirstOfEither(flow, p, ctx, st, 0);
  }
}
