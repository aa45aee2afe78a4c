/** What happens when the chosen step begins, read off the public flow: which member is asked
    for, which members are offered, when a one-of step is passed over and when it is refused;
    and the proof that the compiled flow does exactly that. */
module LoginOffer {
  import opened Maybes
  import opened Sequences
  import opened LoginCompile
  import opened LoginLookup
  import opened LoginFlow
  import opened LoginMeaning
  import opened LoginRun
  import opened LoginChoice
  import opened LoginSafety

  // ----- the beginning the public flow describes -----

  /** Ask: begin this step as it stands. AskAlone: the one member left of a one-of step.
      ChooseAmong: let the user choose. */
  datatype Offer =
    | Ask(member: PublicStep)
    | AskAlone(member: PublicStep)
    | ChooseAmong(members: seq<PublicStep>)
    | PassOver
    | Decline(error: Error)

  /** The members the subject is enrolled in, in the order written; None when a probe fails. */
  function EnrolledMembers(e: Env, subject: string, steps: seq<PublicStep>): Maybe<seq<PublicStep>>
  {
    if steps == [] then Some([])
    else
      var rest, last := EnrolledMembers(e, subject, steps[..|steps| - 1]), steps[|steps| - 1];
      if rest.None? || e.probe(Kind(last), subject) == Unreachable then None
      else if e.probe(Kind(last), subject) == Enrolled then Some(rest.value + [last]) else rest
  }

  /** Primary has no subject to ask about, so all its members are candidates; elsewhere those
      the subject is enrolled in are. With none, the step's own policy decides. */
  function OfferOf(flow: Flow, e: Env, st: State, s: PublicStep): Offer
  {
    if !s.OneOf? then Ask(s)
    else
      var settled := if st.pending == Kind(s) && |st.offered| == 1 then WithKind(s.steps, st.offered[0]) else None;
      var candidates :=
        if Kind(s) == Kind(flow.primary) then Some(s.steps) else EnrolledMembers(e, st.subject, s.steps);
      if settled.Some? then Ask(settled.value)
      else if candidates.None? then Decline(Broken)
      else if candidates.value == [] then (if s.policy == Skip then PassOver else Decline(Unenrolled))
      else if |candidates.value| == 1 then AskAlone(candidates.value[0])
      else ChooseAmong(candidates.value)
  }

  function NamesOf(steps: seq<PublicStep>): seq<string>
  {
    if steps == [] then [] else NamesOf(steps[..|steps| - 1]) + [Kind(steps[|steps| - 1])]
  }

  /** leaf is what the public step compiles to: its kind, factor, captcha and AAL3 marks. */
  predicate Stands(m: PublicStep, leaf: Leaf) { SameKindOf(m, Single(leaf)) }

  /** Turn t is the offer made for the step of that kind. */
  ghost predicate BegunAs(c: Compiled, e: Env, st: State, kind: string, offer: Offer, t: Turn)
  {
    match offer
    case Ask(m) => exists leaf :: Stands(m, leaf) && t == BeginLeaf(c, e, st, leaf)
    case AskAlone(m) =>
      exists leaf :: Stands(m, leaf) && t == BeginLeaf(c, e, st.(pending := kind, offered := [Kind(m)]), leaf)
    case ChooseAmong(ms) =>
      t == Stop(st.(active := kind, pending := kind, offered := NamesOf(ms)), Prompted(kind))
    case PassOver => t == Again(st.(skipped := st.skipped + [kind]))
    case Decline(error) => t == Stop(st, Refused(error))
  }

  // ----- members, one by one -----

  function StandsFunction(): (PublicStep, Leaf) -> bool { (m: PublicStep, leaf: Leaf) => Stands(m, leaf) }

  lemma MembersStand(ps: seq<PublicStep>, parent: string, inner: seq<Leaf>)
    requires Pairwise(Alike(), ps, InnerDecls(parent, inner))
    ensures Pairwise(StandsFunction(), ps, inner)
  {
    if inner != [] { InnerAt(parent, inner, 0); }
    forall i | 0 <= i < |ps| ensures StandsFunction()(ps[i], inner[i]) {
      InnerAt(parent, inner, i);
      assert Alike()(ps[i], InnerDecls(parent, inner)[i]);
    }
  }

  lemma {:induction false} EnrolledAlike(e: Env, subject: string, ps: seq<PublicStep>, inner: seq<Leaf>)
    requires Pairwise(StandsFunction(), ps, inner)
    ensures var q, r := EnrolledMembers(e, subject, ps), EnrolledIn(e, subject, inner);
            && (q.Some? <==> r.Some?) && (q.Some? ==> Pairwise(StandsFunction(), q.value, r.value))
  {
    if ps != [] {
      var n := |ps| - 1;
      PairwiseInit(StandsFunction(), ps, inner);
      EnrolledAlike(e, subject, ps[..n], inner[..n]);
      var q, r := EnrolledMembers(e, subject, ps[..n]), EnrolledIn(e, subject, inner[..n]);
      assert inner[n].kind == Kind(ps[n]);
      if q.Some? { PairwiseSnoc(StandsFunction(), q.value, r.value, ps[n], inner[n]); }
    }
  }

  lemma {:induction false} NamedAlike(ps: seq<PublicStep>, inner: seq<Leaf>, kind: string)
    requires Pairwise(StandsFunction(), ps, inner)
    ensures var q, r := WithKind(ps, kind), InnerNamed(inner, kind);
            && (q.Some? <==> r.Some?) && (q.Some? ==> Stands(q.value, r.value))
  {
    if ps != [] {
      assert StandsFunction()(ps[0], inner[0]);
      PairwiseTail(StandsFunction(), ps, inner);
      NamedAlike(ps[1..], inner[1..], kind);
    }
  }

  lemma {:induction false} NamesAlike(ps: seq<PublicStep>, inner: seq<Leaf>)
    requires Pairwise(StandsFunction(), ps, inner)
    ensures NamesOf(ps) == KindsOf(inner)
  {
    if ps != [] {
      PairwiseInit(StandsFunction(), ps, inner);
      NamesAlike(ps[..|ps| - 1], inner[..|inner| - 1]);
    }
  }

  // ----- the compiled step -----

  /** t is the compiled form of s, member by member. */
  ghost predicate CompiledForm(s: PublicStep, t: Step)
  {
    SameKindOf(s, t) && (t.Choice? ==> Pairwise(StandsFunction(), s.steps, t.inner))
  }

  lemma FreshAlike(flow: Flow, c: Compiled, e: Env, st: State, s: PublicStep, t: Step)
    requires CompiledForm(s, t) && t.Choice? && c.primary.Kind() == Kind(flow.primary)
    requires !(st.pending == t.name && |st.offered| == 1 && InnerNamed(t.inner, st.offered[0]).Some?)
    ensures BegunAs(c, e, st, t.Kind(), OfferOf(flow, e, st, s), BeginChoice(c, e, st, t))
  {
    if st.pending == t.name && |st.offered| == 1 { NamedAlike(s.steps, t.inner, st.offered[0]); }
    EnrolledAlike(e, st.subject, s.steps, t.inner);
    var q := if Kind(s) == Kind(flow.primary) then Some(s.steps) else EnrolledMembers(e, st.subject, s.steps);
    var r := if t.name == c.primary.Kind() then Some(t.inner) else EnrolledIn(e, st.subject, t.inner);
    if q.Some? {
      assert Pairwise(StandsFunction(), q.value, r.value);
      NamesAlike(q.value, r.value);
      if |q.value| == 1 { assert StandsFunction()(q.value[0], r.value[0]); }
    }
  }

  lemma BeginAlike(flow: Flow, c: Compiled, e: Env, st: State, s: PublicStep, t: Step)
    requires CompiledForm(s, t) && c.primary.Kind() == Kind(flow.primary)
    ensures BegunAs(c, e, st, t.Kind(), OfferOf(flow, e, st, s), BeginStep(c, e, st, t))
  {
    if t.Single? {
      assert Stands(s, t.leaf);
    } else if st.pending == t.name && |st.offered| == 1 && InnerNamed(t.inner, st.offered[0]).Some? {
      NamedAlike(s.steps, t.inner, st.offered[0]);
      assert Stands(WithKind(s.steps, st.offered[0]).value, InnerNamed(t.inner, st.offered[0]).value);
    } else {
      FreshAlike(flow, c, e, st, s, t);
    }
  }

  // ----- where a compiled step comes from -----

  lemma PlacedIn(steps: seq<PublicStep>, i: nat)
    requires i < |steps| && steps[i] != NilStep
    ensures steps[i] in Gather(Placed, steps)
  {
    assert Placed(steps[i])[0] == steps[i];
    GatherHas(Placed, steps, i, steps[i]);
  }

  lemma OneOfFrom(s: PublicStep, t: Step, primary: bool, store: bool)
    requires Projected(s, primary, store).Some? && StepShape(Projected(s, primary, store).value)
    requires t == StepOf(Projected(s, primary, store).value) && t.Choice?
    ensures s.OneOf? && CompiledForm(s, t)
  {
    StepSame(s, primary, store);
    assert Becomes(primary, store)(Placed(s)[0], Decls(t)[0]);
    SameIsAlike(s, t, primary, store);
    MembersSame(s, primary, store);
    Weaken(primary, store, s.steps, InnerDecls(t.name, t.inner));
    MembersStand(s.steps, t.name, t.inner);
  }

  /** Every step a compiled flow knows is the compiled form of a declared step. */
  lemma Origin(flow: Flow, store: bool, c: Compiled, t: Step) returns (s: PublicStep)
    requires CompilesTo(flow, store, c) && Known(c, t)
    ensures s in DeclaredSteps(flow) && CompiledForm(s, t)
  {
    if t.Choice? {
      s := ChoiceOrigin(flow, store, c, t);
    } else {
      s := LeafOrigin(flow, store, c, t);
    }
  }

  lemma LeafOrigin(flow: Flow, store: bool, c: Compiled, t: Step) returns (s: PublicStep)
    requires CompilesTo(flow, store, c) && Known(c, t) && t.Single?
    ensures s in DeclaredSteps(flow) && SameKindOf(s, t)
  {
    var ds := SpecDecls(SpecOf(flow, store).value);
    DeclaredKinds(flow, store);
    var d := ByKindSource(ds, t.Kind());
    var i :| 0 <= i < |ds| && ds[i] == d;
    s := DeclaredSteps(flow)[i];
    assert Alike()(s, ds[i]);
  }

  lemma ChoiceOrigin(flow: Flow, store: bool, c: Compiled, t: Step) returns (s: PublicStep)
    requires CompilesTo(flow, store, c) && Known(c, t) && t.Choice?
    ensures s in DeclaredSteps(flow) && CompiledForm(s, t)
  {
    var spec := SpecOf(flow, store).value;
    CompiledIsIndexed(spec);
    ChoicesAreTopLevel(c, SpecDecls(spec), t.Kind());
    if t == c.primary {
      s := flow.primary;
      OneOfFrom(s, t, true, store);
      assert Placed(s)[0] == s;
    } else {
      var i :| 0 <= i < |c.rules| && c.rules[i] == t;
      RulesLength(flow, store, c);
      RuleAt(flow.rules, store, i);
      s := flow.rules[i];
      OneOfFrom(s, t, false, store);
      PlacedIn(flow.rules, i);
    }
  }

  // ----- the chosen step -----

  lemma RuleIsKnown(c: Compiled, e: Env, st: State, captcha: bool)
    requires Coherent(c) && FirstRule(c, e, st, captcha, 0).Some?
    ensures Known(c, FirstRule(c, e, st, captcha, 0).value)
  {
    FirstRuleMeans(c, e, st, captcha, 0);
    var j :| 0 <= j < |c.rules| && c.rules[j] == FirstRule(c, e, st, captcha, 0).value;
    assert TopLevel(c, c.rules[j]);
  }

  lemma CaptchaFirstIsKnown(c: Compiled, e: Env, st: State, s: Step)
    requires Coherent(c) && Known(c, s)
    ensures Known(c, CaptchaFirst(c, e, st, s))
  {
    if FirstRule(c, e, st, true, 0).Some? { RuleIsKnown(c, e, st, true); }
  }

  lemma GrantingIsKnown(c: Compiled, e: Env, st: State)
    requires Coherent(c) && Granting(c, e, st).Run?
    ensures Known(c, Granting(c, e, st).step)
  {
    EligibleMeans(c, st, st.risk.value);
    CaptchaFirstIsKnown(c, e, st, Single(Eligible(c, st, st.risk.value).value));
  }

  lemma RulesAreKnown(c: Compiled, e: Env, st: State)
    requires Coherent(c) && ByRules(c, e, st).Run?
    ensures Known(c, ByRules(c, e, st).step)
  {
    if FirstRule(c, e, st, true, 0).Some? {
      RuleIsKnown(c, e, st, true);
    } else if FirstRule(c, e, st, false, 0).Some? {
      RuleIsKnown(c, e, st, false);
    } else {
      GrantingIsKnown(c, e, st);
    }
  }

  lemma DecidedIsKnown(c: Compiled, e: Env, st: State)
    requires Coherent(c) && Decided(c, e, st).Run?
    ensures Known(c, Decided(c, e, st).step)
  {
    if Decided(c, e, st) == ByRules(c, e, st) {
      RulesAreKnown(c, e, st);
    } else if Decided(c, e, st) == Granting(c, e, st) {
      GrantingIsKnown(c, e, st);
    } else {
      var kind := e.decider.value(ContextOf(c, st)).value.kind;
      assert c.byKind[kind].Kind() == kind;
      CaptchaFirstIsKnown(c, e, st, c.byKind[kind]);
    }
  }

  lemma ChosenIsKnown(c: Compiled, e: Env, st: State)
    requires Coherent(c) && Choose(c, e, st).Run?
    ensures Known(c, Choose(c, e, st).step)
  {
    assert TopLevel(c, c.primary);
    assert c.registration.Some? ==> TopLevel(c, Single(c.registration.value));
    if BindDue(c, st) {
      CaptchaFirstIsKnown(c, e, st, BindStep(c, st));
    } else {
      DecidedIsKnown(c, e, st);
    }
  }

  /** The step of that kind begins as the public flow says. */
  ghost predicate BeginsAsWritten(flow: Flow, c: Compiled, e: Env, st: State, kind: string, t: Turn)
  {
    exists s :: s in DeclaredSteps(flow) && Kind(s) == kind && BegunAs(c, e, st, kind, OfferOf(flow, e, st, s), t)
  }

  lemma ChosenBegins(flow: Flow, store: bool, c: Compiled, e: Env, st: State)
    requires CompilesTo(flow, store, c) && Choose(c, e, st).Run?
    ensures BeginsAsWritten(flow, c, e, st, Choose(c, e, st).step.Kind(), Act(c, e, st))
  {
    var t := Choose(c, e, st).step;
    CompiledIsCoherent(SpecOf(flow, store).value);
    ChosenIsKnown(c, e, st);
    PrimaryAlike(flow, store, c);
    var s := Origin(flow, store, c, t);
    BeginAlike(flow, c, e, st, s, t);
  }

  /** Turn t is what the public flow describes for this state: it grants, refuses, or begins the
      step of the described kind by asking for, offering, passing over or refusing exactly what
      that step says. */
  ghost predicate ActsAsWritten(flow: Flow, c: Compiled, p: Policy, a: Env, st: State, t: Turn)
    requires |p.whens| == |flow.rules|
  {
    match NextAction(flow, p, ContextOf(c, st), st)
    case GrantLogin => t == Stop(st.(granted := true, active := ""), Granted)
    case RefuseLogin(error) => t == Stop(st, Refused(error))
    case RunKind(kind) => BeginsAsWritten(flow, c, a, st, kind, t)
  }

  lemma ActPreservesMeaning(flow: Flow, store: bool, c: Compiled, p: Policy, e: Env, st: State)
    requires CompilesTo(flow, store, c) && |p.whens| == |flow.rules|
    ensures ActsAsWritten(flow, c, p, Adapted(p, e), st, Act(c, Adapted(p, e), st))
  {
    var a := Adapted(p, e);
    ProjectionPreservesMeaning(flow, store, c, p, e, st);
    ActByChoice(c, a, st);
    if Choose(c, a, st).Run? { ChosenBegins(flow, store, c, a, st); }
  }

  /** The assessor is asked until it has answered once: what it demands is noted before anything
      else, its refusal ends the attempt, its failure stops it. */
  ghost predicate PassAsWritten(flow: Flow, c: Compiled, p: Policy, a: Env, st: State, t: Turn)
    requires |p.whens| == |flow.rules|
  {
    if a.assessor.None? || st.risk.Some? then ActsAsWritten(flow, c, p, a, st, t)
    else
      match a.assessor.value(ContextOf(c, st))
      case Fine => ActsAsWritten(flow, c, p, a, st.(risk := Some([])), t)
      case Demands(factors) => ActsAsWritten(flow, c, p, a, st.(risk := Some(factors)), t)
      case Refuses => t == Stop(st, Refused(Denied))
      case Breaks => t == Stop(st, Refused(Broken))
  }

  /** For every accepted flow, every predicate, decider, assessor, probe and state, one pass does
      what the public flow describes. */
  lemma PassPreservesMeaning(flow: Flow, store: bool, c: Compiled, p: Policy, e: Env, st: State)
    requires CompilesTo(flow, store, c) && |p.whens| == |flow.rules|
    ensures PassAsWritten(flow, c, p, Adapted(p, e), st, PassOnce(c, Adapted(p, e), st))
  {
    var a := Adapted(p, e);
    PassByAssessment(c, a, st);
    ActPreservesMeaning(flow, store, c, p, e, Assessed(a, st, Assess(c, a, st)));
  }

  lemma PassByAssessment(c: Compiled, a: Env, st: State)
    ensures PassOnce(c, a, st) ==
            if a.assessor.None? || st.risk.Some? then Act(c, a, st)
            else match a.assessor.value(ContextOf(c, st))
              case Fine => Act(c, a, st.(risk := Some([])))
              case Demands(factors) => Act(c, a, st.(risk := Some(factors)))
              case Refuses => Stop(st, Refused(Denied))
              case Breaks => Stop(st, Refused(Broken))
  {
  }

  // ----- submissions -----

  /** A refused answer is counted; a captcha has a limit. A factor step is asked again on the
      spot unless a captcha has become due. */
  function RejectedAsWritten(flow: Flow, p: Policy, c: Compiled, st: State, s: PublicStep, reprompt: bool): Turn
    requires |p.whens| == |flow.rules|
  {
    if IsCaptcha(s) then
      var st1 := st.(captchaFailures := st.captchaFailures + 1);
      if st1.captchaFailures >= CaptchaMaxFailures then Stop(st1, Refused(Exhausted)) else Again(st1.(active := ""))
    else
      var st1 := st.(failures := st.failures + 1);
      if reprompt && FirstDue(flow, p, ContextOf(c, st1), st1, true, 0).None? then Stop(st1, Prompted(Kind(s)))
      else Again(st1.(active := ""))
  }

  /** What a submission to step s does: a one-of step takes a choice among the members it
      offered and begins that one; any other step takes the authenticator's answer. */
  ghost predicate TakenAsWritten(
      flow: Flow, c: Compiled, p: Policy, a: Env, st: State, s: PublicStep, choice: string, cont: Continue, t: Turn)
    requires |p.whens| == |flow.rules|
  {
    if s.OneOf? then
      var m := WithKind(s.steps, choice);
      if st.pending != Kind(s) || choice == "" || choice !in st.offered || m.None? then t == Stop(st, Refused(BadRef))
      else exists leaf :: Stands(m.value, leaf) && t == BeginLeaf(c, a, st.(active := "", offered := [choice]), leaf)
    else
      match cont
      case Rejected(reprompt) => t == RejectedAsWritten(flow, p, c, st, s, reprompt)
      case Errors => t == Stop(st, Refused(Broken))
      case More => t == Stop(st, Prompted(Kind(s)))
      case Empty => t == Stop(st, Refused(Invalid))
      case Completed(res) => exists leaf :: Stands(s, leaf) && t == Complete(c, st, leaf, res)
  }

  lemma RejectAlike(flow: Flow, store: bool, c: Compiled, p: Policy, a: Env, st: State, s: PublicStep, leaf: Leaf,
                    reprompt: bool)
    requires CompilesTo(flow, store, c) && |p.whens| == |flow.rules| && AnswersFor(a, p) && Stands(s, leaf)
    ensures Reject(c, a, st, leaf, reprompt) == RejectedAsWritten(flow, p, c, st, s, reprompt)
  {
    FirstAlike(flow, store, c, p, a, st.(failures := st.failures + 1), true);
    RejectFrom(flow, c, p, a, st, s, leaf, reprompt);
  }

  lemma RejectFrom(flow: Flow, c: Compiled, p: Policy, a: Env, st: State, s: PublicStep, leaf: Leaf, reprompt: bool)
    requires |p.whens| == |flow.rules| && Stands(s, leaf)
    requires var st1 := st.(failures := st.failures + 1);
             FirstRule(c, a, st1, true, 0).None? <==> FirstDue(flow, p, ContextOf(c, st1), st1, true, 0).None?
    ensures Reject(c, a, st, leaf, reprompt) == RejectedAsWritten(flow, p, c, st, s, reprompt)
  {
  }

  lemma ChoiceTaken(flow: Flow, c: Compiled, p: Policy, a: Env, st: State, s: PublicStep, t: Step, choice: string,
                    cont: Continue)
    requires |p.whens| == |flow.rules| && CompiledForm(s, t) && t.Choice?
    ensures TakenAsWritten(flow, c, p, a, st, s, choice, cont, SubmitChoice(c, a, st, t, choice))
  {
    NamedAlike(s.steps, t.inner, choice);
    var m, leaf := WithKind(s.steps, choice), InnerNamed(t.inner, choice);
    if m.Some? { assert Stands(m.value, leaf.value); }
  }

  lemma AnswerTaken(flow: Flow, store: bool, c: Compiled, p: Policy, a: Env, st: State, s: PublicStep, leaf: Leaf,
                    choice: string, cont: Continue)
    requires CompilesTo(flow, store, c) && |p.whens| == |flow.rules| && AnswersFor(a, p) && Stands(s, leaf)
    requires Known(c, Single(leaf)) && st.active == leaf.kind != ""
    ensures TakenAsWritten(flow, c, p, a, st, s, choice, cont, Submit(c, a, st, leaf.kind, choice, cont))
  {
    if cont.Rejected? { RejectAlike(flow, store, c, p, a, st, s, leaf, cont.reprompt); }
  }

  /** For every accepted flow, policy and state, a submission to the active step does what the
      public step of that kind says; any other is refused. */
  lemma SubmissionPreservesMeaning(
      flow: Flow, store: bool, c: Compiled, p: Policy, e: Env, st: State, kind: string, choice: string, cont: Continue)
    requires CompilesTo(flow, store, c) && |p.whens| == |flow.rules|
    ensures var t := Submit(c, Adapted(p, e), st, kind, choice, cont);
            if st.active == "" || st.active != kind || WithKind(DeclaredSteps(flow), kind).None? then
              t == Stop(st, Refused(BadRef))
            else
              exists s :: s in DeclaredSteps(flow) && Kind(s) == kind
                          && TakenAsWritten(flow, c, p, Adapted(p, e), st, s, choice, cont, t)
  {
    var a := Adapted(p, e);
    AdaptedAnswers(p, e);
    KindAlike(flow, store, c, kind);
    if st.active != "" && st.active == kind && kind in c.byKind {
      var t := c.byKind[kind];
      var s := Origin(flow, store, c, t);
      if t.Choice? {
        ChoiceTaken(flow, c, p, a, st, s, t, choice, cont);
      } else {
        AnswerTaken(flow, store, c, p, a, st, s, t.leaf, choice, cont);
      }
    }
  }
}
