/** Whole logins: any sequence of ticks and submissions, under any embedder answers, from any
    starting chain. */
module LoginHistory {
  import opened Maybes
  import opened Sequences
  import opened LoginCompile
  import opened LoginLookup
  import opened LoginRun
  import opened LoginSafety

  /** answers(i) is what the embedder and the stores answer in pass i of the event; a
      submission itself is answered by answers(0). */
  datatype Event =
    | Tick(answers: nat -> Env)
    | Submission(answers: nat -> Env, kind: string, choice: string, cont: Continue)

  // ----- submissions -----

  /** A submission that a factor step turned down. */
  predicate Rejection(ev: Event) { ev.Submission? && ev.cont.Rejected? }

  function Charge(ev: Event): nat { if Rejection(ev) then 1 else 0 }

  ghost predicate SubmitOk(c: Compiled, st: State, next: State, charge: nat)
  {
    && Inv(c, next) && Keeps(st, next)
    && Work(next) + Uncompleted(c, next) + Failing(next) <= Work(st) + Uncompleted(c, st) + Failing(st) + charge
  }

  /** Only the failure counts and the cursor change. */
  predicate SameButCounts(st: State, next: State)
  {
    next == st.(active := next.active, failures := next.failures, captchaFailures := next.captchaFailures)
  }

  lemma CountsKeep(c: Compiled, st: State, next: State, leaf: Leaf)
    requires Inv(c, st) && Runnable(c, st, Single(leaf)) && SameButCounts(st, next)
    requires next.active == "" || next.active == leaf.kind
    requires if leaf.captcha then next.failures == st.failures else next.failures == st.failures + 1
    ensures SubmitOk(c, st, next, 1)
  {
    assert Runnable(c, next, Single(leaf));
    assert ActiveOk(c, next);
  }

  lemma RejectShape(c: Compiled, e: Env, st: State, leaf: Leaf, reprompt: bool)
    requires st.active == leaf.kind
    ensures var next := Reject(c, e, st, leaf, reprompt).state;
            && SameButCounts(st, next) && (next.active == "" || next.active == leaf.kind)
            && (if leaf.captcha then next.failures == st.failures else next.failures == st.failures + 1)
  {
  }

  lemma SubmitChoiceKeeps(c: Compiled, e: Env, st: State, s: Step, choice: string)
    requires Coherent(c) && Inv(c, st) && Runnable(c, st, s) && s.Choice?
    ensures TurnOk(c, st, SubmitChoice(c, e, st, s, choice))
  {
    var inner := InnerNamed(s.inner, choice);
    if st.pending != s.name || choice == "" || choice !in st.offered || inner.None? {
      StayOk(c, st, Refused(BadRef));
    } else {
      OfferedTurn(c, e, st, st.(active := "", offered := [choice]), s, inner.value);
    }
  }

  /** A result is at hand: the active step was completed, or the member chosen completes when it
      begins. */
  predicate ResultGiven(c: Compiled, e: Env, st: State, kind: string, choice: string, cont: Continue)
  {
    && kind == st.active && kind in c.byKind
    && if c.byKind[kind].Choice? then e.begin(choice, StepSubject(c, st, choice)).Done? else cont.Completed?
  }

  lemma LeafNeedsResult(c: Compiled, e: Env, st: State, leaf: Leaf)
    ensures var next := BeginLeaf(c, e, st, leaf).state;
            && next.skipped == st.skipped
            && (next.completed == st.completed || e.begin(leaf.kind, StepSubject(c, st, leaf.kind)).Done?)
  {
  }

  /** Without a result a submission completes nothing, and none passes a step over. */
  ghost predicate NeedsResult(c: Compiled, e: Env, st: State, kind: string, choice: string, cont: Continue, next: State)
  {
    next.skipped == st.skipped && (next.completed == st.completed || ResultGiven(c, e, st, kind, choice, cont))
  }

  lemma ChoiceNeedsResult(c: Compiled, e: Env, st: State, kind: string, choice: string, cont: Continue)
    requires st.active == kind && kind in c.byKind && c.byKind[kind].Choice?
    ensures NeedsResult(c, e, st, kind, choice, cont, SubmitChoice(c, e, st, c.byKind[kind], choice).state)
  {
    var inner := InnerNamed(c.byKind[kind].inner, choice);
    if inner.Some? { LeafNeedsResult(c, e, st.(active := "", offered := [choice]), inner.value); }
  }

  lemma SubmitNeedsResult(c: Compiled, e: Env, st: State, kind: string, choice: string, cont: Continue)
    ensures NeedsResult(c, e, st, kind, choice, cont, Submit(c, e, st, kind, choice, cont).state)
  {
    if st.active == kind && kind in c.byKind {
      if c.byKind[kind].Choice? {
        ChoiceNeedsResult(c, e, st, kind, choice, cont);
      } else if cont.Rejected? && st.active != "" {
        assert Reject(c, e, st, c.byKind[kind].leaf, cont.reprompt).state.completed == st.completed;
      }
    }
  }

  lemma SubmitKeeps(c: Compiled, e: Env, st: State, kind: string, choice: string, cont: Continue)
    requires Coherent(c) && Inv(c, st)
    ensures NeedsResult(c, e, st, kind, choice, cont, Submit(c, e, st, kind, choice, cont).state)
    ensures SubmitOk(c, st, Submit(c, e, st, kind, choice, cont).state, if cont.Rejected? then 1 else 0)
  {
    SubmitNeedsResult(c, e, st, kind, choice, cont);
    if st.active == "" || st.active != kind || kind !in c.byKind {
      StayOk(c, st, Refused(BadRef));
    } else {
      ActiveIsRunnable(c, st);
      if c.byKind[kind].Choice? {
        SubmitChoiceKeeps(c, e, st, c.byKind[kind], choice);
      } else {
        SubmitLeafKeeps(c, e, st, c.byKind[kind].leaf, choice, cont);
      }
    }
  }

  lemma ActiveIsRunnable(c: Compiled, st: State)
    requires Coherent(c) && Inv(c, st) && st.active != ""
    ensures st.active in c.byKind && c.byKind[st.active].Kind() == st.active && Runnable(c, st, c.byKind[st.active])
  {
  }

  lemma SubmitLeafKeeps(c: Compiled, e: Env, st: State, leaf: Leaf, choice: string, cont: Continue)
    requires Coherent(c) && Inv(c, st) && Runnable(c, st, Single(leaf)) && st.active == leaf.kind != ""
    ensures SubmitOk(c, st, Submit(c, e, st, leaf.kind, choice, cont).state, if cont.Rejected? then 1 else 0)
  {
    match cont {
      case Rejected(reprompt) =>
        RejectShape(c, e, st, leaf, reprompt);
        CountsKeep(c, st, Reject(c, e, st, leaf, reprompt).state, leaf);
      case Completed(res) => CompleteOk(c, st, leaf, res);
      case Errors => StayOk(c, st, Refused(Broken));
      case More => StayOk(c, st, Prompted(leaf.kind));
      case Empty => StayOk(c, st, Refused(Invalid));
    }
  }

  // ----- one event -----

  /** A granted chain has left the login flow; later events do not return to it. */
  function Next(c: Compiled, ev: Event, st: State): (r: Outcome)
    requires Coherent(c) && Inv(c, st)
    ensures SubmitOk(c, st, r.state, Charge(ev))
  {
    if st.granted then Outcome(st, Granted)
    else if ev.Tick? then Advance(c, ev.answers, 0, st)
    else
      SubmitKeeps(c, ev.answers(0), st, ev.kind, ev.choice, ev.cont);
      var t := Submit(c, ev.answers(0), st, ev.kind, ev.choice, ev.cont);
      if t.Stop? then Outcome(t.state, t.reply)
      else
        var r := Advance(c, ev.answers, 1, t.state);
        KeepsTwice(st, t.state, r.state);
        r
  }

  // ----- whole runs -----

  function Rejections(events: seq<Event>): nat
  {
    if events == [] then 0 else Rejections(events[..|events| - 1]) + Charge(events[|events| - 1])
  }

  function After(c: Compiled, events: seq<Event>, st: State): (r: State)
    requires Coherent(c) && Inv(c, st)
    ensures SubmitOk(c, st, r, Rejections(events))
  {
    if events == [] then st
    else
      var before := After(c, events[..|events| - 1], st);
      var r := Next(c, events[|events| - 1], before).state;
      KeepsTwice(st, before, r);
      r
  }

  lemma {:induction false} PrefixKeeps(c: Compiled, events: seq<Event>, i: nat, st: State)
    requires Coherent(c) && Inv(c, st) && i <= |events|
    ensures Keeps(After(c, events[..i], st), After(c, events, st))
  {
    if i == |events| {
      assert events[..i] == events;
    } else {
      var init := events[..|events| - 1];
      assert init[..i] == events[..i];
      PrefixKeeps(c, init, i, st);
      KeepsTwice(After(c, events[..i], st), After(c, init, st), After(c, events, st));
    }
  }

  /** A login: an accepted flow, a starting chain, and the events so far. */
  function Login(s: Spec, events: seq<Event>, st: State): (r: State)
    requires Compiles(s) && Initial(st)
    ensures Coherent(CompiledOf(s)) && Inv(CompiledOf(s), st) && r == After(CompiledOf(s), events, st)
  {
    CompiledIsCoherent(s);
    InitialHolds(CompiledOf(s), st);
    After(CompiledOf(s), events, st)
  }

  /** In every login: completed kinds are declared and pairwise distinct; an inner step brings
      its one-of step; each recorded factor is that of one completed step, so no factor step
      counts twice; and a kind once completed stays so. */
  lemma EachKindCompletesOnce(s: Spec, events: seq<Event>, i: nat, st: State)
    requires Compiles(s) && Initial(st) && i <= |events|
    ensures var c, early, late := CompiledOf(s), Login(s, events[..i], st), Login(s, events, st);
            && KindsOk(c, late.completed, late.registration) && FactorsOk(c, late.factors, late.completed)
            && early.completed <= late.completed && early.factors <= late.factors
            && |late.completed| <= |c.byKind|
  {
    var c, late := CompiledOf(s), Login(s, events, st);
    PrefixKeeps(c, events, i, st);
    DistinctWithin(late.completed, c.byKind.Keys);
  }

  lemma {:induction false} DistinctWithin(ks: seq<string>, all: set<string>)
    requires Distinct(ks) && forall k :: k in ks ==> k in all
    ensures |ks| <= |all|
  {
    if ks != [] {
      var n := |ks| - 1;
      assert ks == ks[..n] + [ks[n]];
      DistinctParts(ks[..n], [ks[n]]);
      DistinctWithin(ks[..n], all - {ks[n]});
    }
  }

  /** The steps recorded, captchas included, number at most the declared kinds plus the
      submissions turned down: without a failure a chain cannot go on for ever. */
  lemma RecordedStepsAreBounded(s: Spec, events: seq<Event>, st: State)
    requires Compiles(s) && Initial(st)
    ensures Work(Login(s, events, st)) <= |CompiledOf(s).byKind| + Rejections(events)
  {
    var c := CompiledOf(s);
    assert Members(st.completed) == {};
    assert c.byKind.Keys - {} == c.byKind.Keys;
  }

  /** Once a factor was recorded, or the chooser or the entry session bound the subject, no
      later event moves the login to another account. */
  lemma SubjectIsFixed(s: Spec, events: seq<Event>, i: nat, st: State)
    requires Compiles(s) && Initial(st) && i <= |events| && Bound(Login(s, events[..i], st))
    ensures Login(s, events, st).subject == Login(s, events[..i], st).subject
  {
    assert Login(s, events, st) == After(CompiledOf(s), events, st);
    PrefixKeeps(CompiledOf(s), events, i, st);
  }

  /** Registration never runs in a login: it is neither completed nor prompted for. */
  lemma RegistrationStaysOut(s: Spec, events: seq<Event>, st: State)
    requires Compiles(s) && Initial(st) && !st.registration && CompiledOf(s).registration.Some?
    ensures CompiledOf(s).registration.value.kind !in Login(s, events, st).completed
    ensures CompiledOf(s).registration.value.kind != Login(s, events, st).active
  {
    var c, r := CompiledOf(s), Login(s, events, st);
    var k := c.registration.value.kind;
    assert TopLevel(c, Single(c.registration.value)) && k != "";
    assert IsRegistration(c, k);
  }

  /** A kind completes once, but a captcha may have to be solved again: where every captcha
      rule that applies was solved before, one runs now exactly when a credential has failed
      since. */
  lemma CaptchaRearms(c: Compiled, e: Env, st: State, i: nat)
    requires i < |c.rules| && c.rules[i].Captcha() && Matches(c, e, st, i)
    requires forall j :: 0 <= j < |c.rules| && c.rules[j].Captcha() && Matches(c, e, st, j) ==>
               c.rules[j].Kind() in st.completed
    ensures FirstRule(c, e, st, true, 0).Some? <==> st.failures > 0
  {
    FirstRuleMeans(c, e, st, true, 0);
  }

  /** A flow with one captcha rule that always applies: solved before, it is asked for again
      after one failed credential, and not without one. */
  lemma SolvedCaptchaIsAskedAgain(c: Compiled, e: Env, st: State, captcha: Leaf)
    requires captcha.captcha && c.rules == [Single(captcha)] && captcha.kind in st.completed
    requires forall ctx :: e.when(0, ctx) == Some(true)
    ensures FirstRule(c, e, st.(failures := 1), true, 0) == Some(Single(captcha))
    ensures FirstRule(c, e, st.(failures := 0), true, 0) == None
  {
    CaptchaRearms(c, e, st.(failures := 1), 0);
    CaptchaRearms(c, e, st.(failures := 0), 0);
  }

  // ----- what a grant guarantees -----

  /** The step needs no run, and for a reason: it was completed, or the session stands in for
      it, or it is a one-of step written to be passed over and was. */
  predicate Discharged(c: Compiled, st: State, s: Step)
  {
    if s.Captcha() then s.Kind() in st.completed && st.failures == 0
    else || s.Kind() in CompletedKinds(c, st)
         || (s.Choice? && s.skip && s.Kind() != c.primary.Kind() && s.Kind() in st.skipped)
  }

  lemma SettledIsDischarged(c: Compiled, st: State, s: Step)
    requires Inv(c, st) && Known(c, s)
    ensures Settled(c, st, s) <==> Discharged(c, st, s)
  {
  }

  /** No rule that applies is left open. */
  ghost predicate RulesDone(c: Compiled, e: Env, st: State)
  {
    forall i :: 0 <= i < |c.rules| ==> Discharged(c, st, c.rules[i]) || !Matches(c, e, st, i)
  }

  /** The decider lets the grant through: it allows it; or there is none, it passes, or it
      requires a step that is done, and then no applicable rule is open. A denial and a panic
      never do. */
  ghost predicate Cleared(c: Compiled, e: Env, st: State)
  {
    if e.decider.None? then RulesDone(c, e, st)
    else
      match e.decider.value(ContextOf(c, st))
      case None => false
      case Some(Forbid) => false
      case Some(Allow) => true
      case Some(Pass) => RulesDone(c, e, st)
      case Some(Require(kind)) =>
        !IsRegistration(c, kind) && kind in c.byKind && Discharged(c, st, c.byKind[kind]) && RulesDone(c, e, st)
  }

  /** A login may be granted in this state: the subject is bound, by Registration in a
      registration chain and by a fresh Primary where one was demanded; the risk demand is
      met by a recorded factor; and the decider and the rules let it through. */
  ghost predicate Earned(c: Compiled, e: Env, st: State)
  {
    && st.subject != ""
    && (st.registration ==> c.registration.Some? && c.registration.value.kind in st.completed)
    && (!st.registration && st.reauth ==> c.primary.Kind() in st.completed)
    && RiskMet(st)
    && Cleared(c, e, st)
  }

  lemma GrantIsEarned(c: Compiled, e: Env, st: State)
    requires Coherent(c) && Inv(c, st) && Choose(c, e, st) == Grant
    ensures Earned(c, e, st)
  {
    BoundAfterBinding(c, st);
    DecidedToGrant(c, e, st);
  }

  lemma DecidedToGrant(c: Compiled, e: Env, st: State)
    requires Coherent(c) && Inv(c, st) && Decided(c, e, st) == Grant
    ensures RiskMet(st) && Cleared(c, e, st)
  {
    if ByRules(c, e, st) == Grant { RulesToGrant(c, e, st); }
    if e.decider.Some? && e.decider.value(ContextOf(c, st)).Some? {
      var d := e.decider.value(ContextOf(c, st)).value;
      if d.Require? && d.kind in c.byKind { RequiredIsDischarged(c, st, d.kind); }
    }
  }

  lemma RequiredIsDischarged(c: Compiled, st: State, kind: string)
    requires Coherent(c) && Inv(c, st) && kind in c.byKind
    ensures Settled(c, st, c.byKind[kind]) <==> Discharged(c, st, c.byKind[kind])
  {
    assert c.byKind[kind].Kind() == kind;
    SettledIsDischarged(c, st, c.byKind[kind]);
  }

  lemma RulesToGrant(c: Compiled, e: Env, st: State)
    requires Coherent(c) && Inv(c, st) && ByRules(c, e, st) == Grant
    ensures RiskMet(st) && RulesDone(c, e, st)
  {
    FirstRuleMeans(c, e, st, true, 0);
    FirstRuleMeans(c, e, st, false, 0);
    forall i | 0 <= i < |c.rules| ensures Discharged(c, st, c.rules[i]) || !Matches(c, e, st, i) {
      assert TopLevel(c, c.rules[i]);
      SettledIsDischarged(c, st, c.rules[i]);
    }
  }

  lemma SameEarned(c: Compiled, e: Env, st: State, next: State)
    requires Earned(c, e, st) && next == st.(granted := true, active := "")
    ensures Earned(c, e, next)
  {
    assert ContextOf(c, next) == ContextOf(c, st);
    forall s ensures Discharged(c, next, s) == Discharged(c, st, s) {}
    assert RulesDone(c, e, st) ==> RulesDone(c, e, next);
  }

  lemma {:induction false} AdvanceEarns(c: Compiled, answers: nat -> Env, i: nat, st: State)
    requires Coherent(c) && Inv(c, st) && !st.granted && Advance(c, answers, i, st).state.granted
    ensures Earned(c, answers(LastPass(c, answers, i, st)), Advance(c, answers, i, st).state)
    ensures Advance(c, answers, i, st).reply == Granted
    decreases Uncompleted(c, st) + Failing(st) + Unskipped(c, st)
  {
    var e := answers(i);
    PassOk(c, e, st);
    var t := PassOnce(c, e, st);
    if t.Again? {
      AdvanceEarns(c, answers, i + 1, t.state);
    } else {
      var a := Assess(c, e, st);
      var st1 := Assessed(e, st, a);
      AssessedOk(c, e, st, a);
      GrantedByChoice(c, e, st1, t);
    }
  }

  lemma GrantedByChoice(c: Compiled, e: Env, st: State, t: Turn)
    requires Coherent(c) && Inv(c, st) && !st.granted && t == Act(c, e, st) && t.Stop? && t.state.granted
    ensures Earned(c, e, t.state) && t.reply == Granted
  {
    if Choose(c, e, st).Run? {
      BeginStops(c, e, st, Choose(c, e, st).step);
    } else {
      GrantIsEarned(c, e, st);
      SameEarned(c, e, st, t.state);
    }
  }

  lemma LeafDoesNotGrant(c: Compiled, e: Env, st: State, leaf: Leaf)
    ensures BeginLeaf(c, e, st, leaf).state.granted == st.granted
  {
  }

  lemma BeginStops(c: Compiled, e: Env, st: State, s: Step)
    ensures BeginStep(c, e, st, s).state.granted == st.granted
  {
    if s.Single? {
      LeafDoesNotGrant(c, e, st, s.leaf);
    } else {
      ChoiceDoesNotGrant(c, e, st, s);
    }
  }

  lemma ChoiceDoesNotGrant(c: Compiled, e: Env, st: State, s: Step)
    requires s.Choice?
    ensures BeginChoice(c, e, st, s).state.granted == st.granted
  {
    var candidates := Candidates(c, e, st, s);
    if |st.offered| == 1 && InnerNamed(s.inner, st.offered[0]).Some? {
      LeafDoesNotGrant(c, e, st, InnerNamed(s.inner, st.offered[0]).value);
    }
    if candidates.Some? && |candidates.value| == 1 {
      var leaf := candidates.value[0];
      LeafDoesNotGrant(c, e, st.(pending := s.name, offered := [leaf.kind]), leaf);
    }
  }

  /** The state in which pass k of an event begins; None when the event does not get there. */
  function PassStarts(c: Compiled, ev: Event, st: State, k: nat): Maybe<State>
  {
    if st.granted then None
    else if ev.Tick? then BeforePass(c, ev.answers, 0, st, k)
    else
      var t := Submit(c, ev.answers(0), st, ev.kind, ev.choice, ev.cont);
      if t.Stop? || k == 0 then None else BeforePass(c, ev.answers, 1, t.state, k)
  }

  /** The pass in which the event ends, if it gets to one. */
  function EndPass(c: Compiled, ev: Event, st: State): nat
    requires Coherent(c) && Inv(c, st)
  {
    if ev.Tick? then LastPass(c, ev.answers, 0, st)
    else
      SubmitKeeps(c, ev.answers(0), st, ev.kind, ev.choice, ev.cont);
      var t := Submit(c, ev.answers(0), st, ev.kind, ev.choice, ev.cont);
      if t.Stop? then 0 else LastPass(c, ev.answers, 1, t.state)
  }

  /** Pass k of the event is run, grants, and the grant is earned by what it was answered. */
  ghost predicate EarnedInPass(c: Compiled, ev: Event, st: State, k: nat, granted: State)
  {
    && StopsIn(c, ev.answers, PassStarts(c, ev, st, k), k, Outcome(granted, Granted))
    && Earned(c, ev.answers(k), granted)
  }

  lemma LoopEarns(c: Compiled, answers: nat -> Env, i: nat, st: State)
    requires Coherent(c) && Inv(c, st) && !st.granted && Advance(c, answers, i, st).state.granted
    ensures var k, r := LastPass(c, answers, i, st), Advance(c, answers, i, st).state;
            && StopsIn(c, answers, BeforePass(c, answers, i, st, k), k, Outcome(r, Granted))
            && Earned(c, answers(k), r)
  {
    LastPassStops(c, answers, i, st);
    AdvanceEarns(c, answers, i, st);
  }

  lemma NextEarns(c: Compiled, ev: Event, st: State)
    requires Coherent(c) && Inv(c, st) && !st.granted && Next(c, ev, st).state.granted
    ensures EarnedInPass(c, ev, st, EndPass(c, ev, st), Next(c, ev, st).state)
  {
    if ev.Tick? {
      LoopEarns(c, ev.answers, 0, st);
    } else {
      SubmissionEarns(c, ev, st);
    }
  }

  /** A submission whose turn goes on is that turn followed by passes from the first on. */
  lemma SubmissionGoesOn(c: Compiled, ev: Event, st: State, t: Turn)
    requires Coherent(c) && Inv(c, st) && !st.granted && ev.Submission?
    requires t == Submit(c, ev.answers(0), st, ev.kind, ev.choice, ev.cont) && Inv(c, t.state)
    ensures t.Stop? ==> Next(c, ev, st) == Outcome(t.state, t.reply)
    ensures t.Again? ==> Next(c, ev, st) == Advance(c, ev.answers, 1, t.state)
  {
  }

  lemma SubmissionEnds(c: Compiled, ev: Event, st: State, t: Turn)
    requires Coherent(c) && Inv(c, st) && !st.granted && ev.Submission?
    requires t == Submit(c, ev.answers(0), st, ev.kind, ev.choice, ev.cont) && Inv(c, t.state) && t.Again?
    ensures var k := LastPass(c, ev.answers, 1, t.state);
            && EndPass(c, ev, st) == k
            && PassStarts(c, ev, st, k) == BeforePass(c, ev.answers, 1, t.state, k)
  {
  }

  lemma SubmissionEarns(c: Compiled, ev: Event, st: State)
    requires Coherent(c) && Inv(c, st) && !st.granted && ev.Submission? && Next(c, ev, st).state.granted
    ensures EarnedInPass(c, ev, st, EndPass(c, ev, st), Next(c, ev, st).state)
  {
    var t := Submit(c, ev.answers(0), st, ev.kind, ev.choice, ev.cont);
    SubmitKeeps(c, ev.answers(0), st, ev.kind, ev.choice, ev.cont);
    SubmitDoesNotGrant(c, ev.answers(0), st, ev.kind, ev.choice, ev.cont);
    SubmissionGoesOn(c, ev, st, t);
    SubmissionEnds(c, ev, st, t);
    LoopEarns(c, ev.answers, 1, t.state);
  }

  /** A chain that an event moves to granted earned it: the pass in which the event ended
      granted, judged by the answers of that pass. */
  lemma EveryGrantIsEarned(s: Spec, events: seq<Event>, ev: Event, st: State)
    requires Compiles(s) && Initial(st)
    requires !Login(s, events, st).granted && Login(s, events + [ev], st).granted
    ensures var c, before := CompiledOf(s), Login(s, events, st);
            EarnedInPass(c, ev, before, EndPass(c, ev, before), Login(s, events + [ev], st))
  {
    assert (events + [ev])[..|events|] == events;
    NextEarns(CompiledOf(s), ev, Login(s, events, st));
  }

  lemma SubmitDoesNotGrant(c: Compiled, e: Env, st: State, kind: string, choice: string, cont: Continue)
    ensures Submit(c, e, st, kind, choice, cont).state.granted == st.granted
  {
    if kind in c.byKind && c.byKind[kind].Choice? {
      var inner := InnerNamed(c.byKind[kind].inner, choice);
      if inner.Some? { LeafDoesNotGrant(c, e, st.(active := "", offered := [choice]), inner.value); }
    }
  }

  // ----- what the risk assessor demanded -----

  lemma PassIsAct(c: Compiled, e: Env, st: State, a: Assessment)
    requires Assess(c, e, st) == a && !a.Breaks? && !a.Refuses?
    ensures PassOnce(c, e, st) == Act(c, e, Assessed(e, st, a))
  {
  }

  lemma AdvanceRecordsDemand(c: Compiled, answers: nat -> Env, k: nat, st: State, wanted: seq<string>)
    requires Coherent(c) && Inv(c, st) && Asks(c, answers(k), st, wanted)
    ensures Advance(c, answers, k, st).state.risk == Some(wanted)
  {
    var e, st1 := answers(k), st.(risk := Some(wanted));
    AssessedOk(c, e, st, Demands(wanted));
    PassIsAct(c, e, st, Demands(wanted));
    ActOk(c, e, st1);
    PassOk(c, e, st);
    AdvanceFrom(c, answers, k, st, PassOnce(c, e, st));
  }

  lemma AdvanceFrom(c: Compiled, answers: nat -> Env, i: nat, st: State, t: Turn)
    requires Coherent(c) && Inv(c, st) && t == PassOnce(c, answers(i), st) && Inv(c, t.state)
    ensures Keeps(t.state, Advance(c, answers, i, st).state)
  {
    PassOk(c, answers(i), st);
  }

  lemma NextMeets(c: Compiled, ev: Event, st: State)
    requires Coherent(c) && Inv(c, st) && (st.granted ==> RiskMet(st))
    ensures Next(c, ev, st).state.granted ==> RiskMet(Next(c, ev, st).state)
  {
    if !st.granted && Next(c, ev, st).state.granted { NextEarns(c, ev, st); }
  }

  lemma {:induction false} GrantedIsMet(c: Compiled, events: seq<Event>, st: State)
    requires Coherent(c) && Inv(c, st) && !st.granted
    ensures After(c, events, st).granted ==> RiskMet(After(c, events, st))
  {
    if events != [] {
      var n := |events| - 1;
      GrantedIsMet(c, events[..n], st);
      NextMeets(c, events[n], After(c, events[..n], st));
    }
  }

  lemma DemandStands(first: State, last: State, wanted: seq<string>)
    requires Keeps(first, last) && first.risk == Some(wanted) && wanted != [] && RiskMet(last)
    ensures HasOneOf(last, wanted)
  {
  }

  /** A pass that begins in st consults the assessor, which demands one of wanted. */
  predicate Asks(c: Compiled, e: Env, st: State, wanted: seq<string>)
  {
    st.risk.None? && e.assessor.Some? && e.assessor.value(ContextOf(c, st)) == Demands(wanted)
  }

  /** In pass k of the event the assessor is consulted and demands one of wanted. */
  predicate DemandedAt(c: Compiled, ev: Event, st: State, k: nat, wanted: seq<string>)
  {
    PassStarts(c, ev, st, k).Some? && Asks(c, ev.answers(k), PassStarts(c, ev, st, k).value, wanted)
  }

  predicate HasOneOf(st: State, wanted: seq<string>) { exists f :: f in st.factors && f in wanted }

  lemma NextRecordsDemand(c: Compiled, ev: Event, st: State, k: nat, wanted: seq<string>)
    requires Coherent(c) && Inv(c, st) && DemandedAt(c, ev, st, k, wanted)
    ensures Next(c, ev, st).state.risk == Some(wanted)
  {
    var i, st1 := 0, st;
    if !ev.Tick? {
      SubmitKeeps(c, ev.answers(0), st, ev.kind, ev.choice, ev.cont);
      i, st1 := 1, Submit(c, ev.answers(0), st, ev.kind, ev.choice, ev.cont).state;
    }
    AdvanceFromPass(c, ev.answers, i, st1, k);
    AdvanceRecordsDemand(c, ev.answers, k, BeforePass(c, ev.answers, i, st1, k).value, wanted);
  }

  /** What the assessor demanded in any pass of any event stands to the end: a login is granted
      only with one of those factors recorded, whatever rules and decider say, and however
      the assessor would answer later. */
  lemma DemandIsMet(s: Spec, events: seq<Event>, n: nat, k: nat, st: State, wanted: seq<string>)
    requires Compiles(s) && Initial(st) && n < |events| && wanted != []
    requires DemandedAt(CompiledOf(s), events[n], Login(s, events[..n], st), k, wanted)
    ensures Login(s, events, st).granted ==> HasOneOf(Login(s, events, st), wanted)
  {
    var c := CompiledOf(s);
    if Login(s, events, st).granted {
      NextRecordsDemand(c, events[n], Login(s, events[..n], st), k, wanted);
      AfterSnoc(c, events, n, st);
      StandingDemand(c, events, n + 1, st, wanted);
    }
  }

  lemma AfterSnoc(c: Compiled, events: seq<Event>, n: nat, st: State)
    requires Coherent(c) && Inv(c, st) && n < |events|
    ensures After(c, events[..n + 1], st) == Next(c, events[n], After(c, events[..n], st)).state
  {
    TakeOfTake(events, n + 1, n);
    LastEvent(c, events[..n + 1], st);
  }

  lemma LastEvent(c: Compiled, events: seq<Event>, st: State)
    requires Coherent(c) && Inv(c, st) && events != []
    ensures var n := |events| - 1; After(c, events, st) == Next(c, events[n], After(c, events[..n], st)).state
  {
  }

  lemma StandingDemand(c: Compiled, events: seq<Event>, i: nat, st: State, wanted: seq<string>)
    requires Coherent(c) && Inv(c, st) && !st.granted && i <= |events| && wanted != []
    requires After(c, events[..i], st).risk == Some(wanted) && After(c, events, st).granted
    ensures HasOneOf(After(c, events, st), wanted)
  {
    PrefixKeeps(c, events, i, st);
    GrantedIsMet(c, events, st);
    DemandStands(After(c, events[..i], st), After(c, events, st), wanted);
  }
}
