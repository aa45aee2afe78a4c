/** What a granted login guarantees, read off the public flow: the grant theorem of whole logins
    carried back through the projection. */
module LoginGrant {
  import opened Maybes
  import opened LoginCompile
  import opened LoginLookup
  import opened LoginFlow
  import opened LoginMeaning
  import opened LoginRun
  import opened LoginChoice
  import opened LoginSafety
  import opened LoginHistory

  /** The step was completed, or the session stands in for it, or it is a one-of step written
      to be passed over and was. */
  predicate IsDischarged(flow: Flow, st: State, s: PublicStep)
  {
    if IsCaptcha(s) then Kind(s) in st.completed && st.failures == 0
    else || Kind(s) in st.completed
         || (StandsIn(st) && StandsFor(flow, st.entry.value, Kind(s)))
         || (s.OneOf? && s.policy == Skip && Kind(s) != Kind(flow.primary) && Kind(s) in st.skipped)
  }

  /** Every rule is done or does not apply. */
  ghost predicate RulesAreDone(flow: Flow, p: Policy, ctx: Context, st: State)
    requires |p.whens| == |flow.rules|
  {
    forall i :: 0 <= i < |flow.rules| ==> IsDischarged(flow, st, flow.rules[i]) || !Applies(p, ctx, i)
  }

  /** The step of that kind is declared, is not Registration, and needs no run. */
  predicate RequirementIsDone(flow: Flow, st: State, kind: string)
  {
    var s := WithKind(DeclaredSteps(flow), kind);
    && (flow.registration != NilStep ==> kind != Kind(flow.registration))
    && s.Some? && IsDischarged(flow, st, s.value)
  }

  ghost predicate VerdictClears(flow: Flow, p: Policy, ctx: Context, st: State, v: Verdict)
    requires |p.whens| == |flow.rules|
  {
    match v
    case AllowIt => true
    case DenyIt => false
    case PassIt => RulesAreDone(flow, p, ctx, st)
    case RequireIt(kind) => (kind != "" ==> RequirementIsDone(flow, st, kind)) && RulesAreDone(flow, p, ctx, st)
  }

  /** The decider allowed the login, or did not object and no rule is open. */
  ghost predicate ClearedAsWritten(flow: Flow, p: Policy, ctx: Context, st: State)
    requires |p.whens| == |flow.rules|
  {
    if p.decider.None? then RulesAreDone(flow, p, ctx, st)
    else
      var v := VerdictOf(p.decider.value(ctx));
      v.Some? && VerdictClears(flow, p, ctx, st, v.value)
  }

  ghost predicate EarnedAsWritten(flow: Flow, p: Policy, ctx: Context, st: State)
    requires |p.whens| == |flow.rules|
  {
    && st.subject != "" && RiskMet(st)
    && (st.registration ==> flow.registration != NilStep && Kind(flow.registration) in st.completed)
    && (!st.registration && st.reauth ==> Kind(flow.primary) in st.completed)
    && ClearedAsWritten(flow, p, ctx, st)
  }

  lemma DischargedAlike(flow: Flow, store: bool, c: Compiled, st: State, s: PublicStep, t: Step)
    requires CompilesTo(flow, store, c) && SameKindOf(s, t)
    ensures Discharged(c, st, t) <==> IsDischarged(flow, st, s)
  {
    PrimaryAlike(flow, store, c);
    CompletedMeans(c, st, t.Kind());
    if StandsIn(st) { StandsForAlike(flow, store, c, st.entry.value, t.Kind()); }
  }

  lemma RuleIsSame(flow: Flow, store: bool, c: Compiled, i: nat)
    requires CompilesTo(flow, store, c) && i < |flow.rules|
    ensures |c.rules| == |flow.rules| && SameKindOf(flow.rules[i], c.rules[i])
  {
    RuleAt(flow.rules, store, i);
    StepSame(flow.rules[i], false, store);
    assert Becomes(false, store)(Placed(flow.rules[i])[0], Decls(c.rules[i])[0]);
    SameIsAlike(flow.rules[i], c.rules[i], false, store);
  }

  /** Rule i is open alike, compiled and as written. */
  ghost predicate OpenAlike(flow: Flow, c: Compiled, p: Policy, a: Env, st: State, i: nat)
    requires |p.whens| == |flow.rules| == |c.rules| && i < |flow.rules|
  {
    && (Discharged(c, st, c.rules[i]) <==> IsDischarged(flow, st, flow.rules[i]))
    && (Matches(c, a, st, i) <==> Applies(p, ContextOf(c, st), i))
  }

  lemma RulesDoneAlike(flow: Flow, store: bool, c: Compiled, p: Policy, a: Env, st: State)
    requires CompilesTo(flow, store, c) && |p.whens| == |flow.rules| && AnswersFor(a, p)
    ensures RulesDone(c, a, st) <==> RulesAreDone(flow, p, ContextOf(c, st), st)
  {
    RulesLength(flow, store, c);
    forall i: nat | i < |flow.rules| ensures OpenAlike(flow, c, p, a, st, i) {
      RuleIsSame(flow, store, c, i);
      DischargedAlike(flow, store, c, st, flow.rules[i], c.rules[i]);
    }
    DoneAlike(flow, c, p, a, st);
  }

  lemma DoneAlike(flow: Flow, c: Compiled, p: Policy, a: Env, st: State)
    requires |p.whens| == |flow.rules| == |c.rules|
    requires forall i: nat :: i < |flow.rules| ==> OpenAlike(flow, c, p, a, st, i)
    ensures RulesDone(c, a, st) <==> RulesAreDone(flow, p, ContextOf(c, st), st)
  {
    forall i: nat | i < |flow.rules|
      ensures (Discharged(c, st, c.rules[i]) || !Matches(c, a, st, i)) <==>
              (IsDischarged(flow, st, flow.rules[i]) || !Applies(p, ContextOf(c, st), i))
    {
      assert OpenAlike(flow, c, p, a, st, i);
    }
  }

  /** The same of the compiled flow. */
  predicate RequirementSettled(c: Compiled, st: State, kind: string)
  {
    !IsRegistration(c, kind) && kind in c.byKind && Discharged(c, st, c.byKind[kind])
  }

  lemma RequirementAlike(flow: Flow, store: bool, c: Compiled, st: State, kind: string)
    requires CompilesTo(flow, store, c)
    ensures RequirementIsDone(flow, st, kind) <==> RequirementSettled(c, st, kind)
  {
    RegistrationAlike(flow, store, c);
    KindAlike(flow, store, c, kind);
    if kind in c.byKind {
      DischargedAlike(flow, store, c, st, WithKind(DeclaredSteps(flow), kind).value, c.byKind[kind]);
    }
  }

  lemma ClearedBy(c: Compiled, a: Env, st: State, d: Decision)
    requires a.decider.Some? && a.decider.value(ContextOf(c, st)) == Some(d)
    ensures Cleared(c, a, st) <==>
            d.Allow? || (!d.Forbid? && RulesDone(c, a, st) && (d.Require? ==> RequirementSettled(c, st, d.kind)))
  {
  }

  lemma VerdictAlikeClears(flow: Flow, c: Compiled, p: Policy, a: Env, st: State, v: Verdict)
    requires |p.whens| == |flow.rules|
    requires RulesDone(c, a, st) <==> RulesAreDone(flow, p, ContextOf(c, st), st)
    requires v.RequireIt? ==> (RequirementIsDone(flow, st, v.kind) <==> RequirementSettled(c, st, v.kind))
    requires a.decider.Some? && a.decider.value(ContextOf(c, st)) == Some(Translate(Value(v)))
    ensures Cleared(c, a, st) <==> VerdictClears(flow, p, ContextOf(c, st), st, v)
  {
    ClearedBy(c, a, st, Translate(Value(v)));
  }

  lemma ClearedAlike(flow: Flow, store: bool, c: Compiled, p: Policy, a: Env, st: State)
    requires CompilesTo(flow, store, c) && |p.whens| == |flow.rules| && AnswersFor(a, p)
    ensures Cleared(c, a, st) <==> ClearedAsWritten(flow, p, ContextOf(c, st), st)
  {
    RulesDoneAlike(flow, store, c, p, a, st);
    if p.decider.Some? {
      var answer := p.decider.value(ContextOf(c, st));
      assert a.decider.value(ContextOf(c, st)) == TranslateAnswer(answer);
      TranslatedVerdict(answer);
      var v := VerdictOf(answer);
      if v.Some? {
        if v.value.RequireIt? { RequirementAlike(flow, store, c, st, v.value.kind); }
        VerdictAlikeClears(flow, c, p, a, st, v.value);
      }
    }
  }

  lemma EarnedAlike(flow: Flow, store: bool, c: Compiled, p: Policy, a: Env, st: State)
    requires CompilesTo(flow, store, c) && |p.whens| == |flow.rules| && AnswersFor(a, p)
    ensures Earned(c, a, st) <==> EarnedAsWritten(flow, p, ContextOf(c, st), st)
  {
    PrimaryAlike(flow, store, c);
    RegistrationAlike(flow, store, c);
    ClearedAlike(flow, store, c, p, a, st);
  }

  /** Whenever an event of a login over an accepted public flow grants it, what that flow asks
      for was done, judged by the predicates and the decider the granting pass consulted. */
  lemma GrantIsEarnedAsWritten(
      flow: Flow, store: bool, c: Compiled, events: seq<Event>, ev: Event, st: State, p: Policy)
    requires CompilesTo(flow, store, c) && Initial(st) && |p.whens| == |flow.rules|
    requires !Login(SpecOf(flow, store).value, events, st).granted
    requires Login(SpecOf(flow, store).value, events + [ev], st).granted
    requires AnswersFor(ev.answers(EndPass(c, ev, Login(SpecOf(flow, store).value, events, st))), p)
    ensures var r := Login(SpecOf(flow, store).value, events + [ev], st);
            EarnedAsWritten(flow, p, ContextOf(c, r), r)
  {
    var spec := SpecOf(flow, store).value;
    var k := EndPass(c, ev, Login(spec, events, st));
    EveryGrantIsEarned(spec, events, ev, st);
    EarnedAlike(flow, store, c, p, ev.answers(k), Login(spec, events + [ev], st));
  }
}
