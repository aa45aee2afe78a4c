/** Serving a request from an existing session: the check that decides whether the login flow
    would demand a step agrees with what the chain started from that session then does. */
module LoginReuse {
  import opened Maybes
  import opened LoginCompile
  import opened LoginLookup
  import opened LoginRun
  import opened LoginSafety

  /** A one-of step the subject has none of the factors of, and that may be passed over. */
  predicate SkipsUnenrolled(e: Env, subject: string, s: Step)
  {
    s.Choice? && s.skip && EnrolledIn(e, subject, s.inner) == Some([])
  }

  /** A factor step that is open and will not be passed over. */
  predicate Open(c: Compiled, e: Env, st: State, s: Step)
  {
    !s.Captcha() && !Settled(c, st, s) && !SkipsUnenrolled(e, st.subject, s)
  }

  ghost predicate RuleDemands(c: Compiled, e: Env, st: State)
  {
    exists i :: 0 <= i < |c.rules| && Matches(c, e, st, i) && Open(c, e, st, c.rules[i])
  }

  /** The flow would refuse the request or demand a factor step for it. */
  ghost predicate Demanded(c: Compiled, e: Env, st: State)
  {
    if e.decider.None? then RuleDemands(c, e, st)
    else
      match e.decider.value(ContextOf(c, st))
      case None => true
      case Some(Forbid) => true
      case Some(Allow) => false
      case Some(Pass) => RuleDemands(c, e, st)
      case Some(Require(kind)) =>
        IsRegistration(c, kind) || kind !in c.byKind || Open(c, e, st, c.byKind[kind]) || RuleDemands(c, e, st)
  }

  /** LoginFlowRequiresStep. */
  method LoginFlowRequiresStep(c: Compiled, e: Env, st: State) returns (r: bool)
    ensures r == Demanded(c, e, st)
  {
    if e.decider.Some? {
      match e.decider.value(ContextOf(c, st)) {
        case None => return true;
        case Some(Allow) => return false;
        case Some(Forbid) => return true;
        case Some(Pass) =>
        case Some(Require(kind)) =>
          if IsRegistration(c, kind) || kind !in c.byKind { return true; }
          if Open(c, e, st, c.byKind[kind]) { return true; }
      }
    }
    for i := 0 to |c.rules|
      invariant forall j :: 0 <= j < i ==> !(Matches(c, e, st, j) && Open(c, e, st, c.rules[j]))
    {
      if c.rules[i].Captcha() || Settled(c, st, c.rules[i]) { continue; }
      if !Matches(c, e, st, i) { continue; }
      if SkipsUnenrolled(e, st.subject, c.rules[i]) { continue; }
      return true;
    }
    r := false;
  }

  /** A chain that runs on the session's authentication: subject known, no fresh Primary and no
      registration demanded, nothing asked by risk, no one-of step under way. */
  predicate OnSession(c: Compiled, e: Env, st: State)
  {
    && st.subject != "" && !st.reauth && !st.registration && !st.granted && st.pending == ""
    && (e.assessor.None? || st.risk.Some?) && RiskMet(st)
    && !(c.primary.Choice? && c.primary.skip)
  }

  /** A captcha always asks the user. */
  ghost predicate CaptchasAsk(c: Compiled, e: Env)
  {
    forall k, subject :: k in c.byKind && c.byKind[k].Captcha() ==> e.begin(k, subject) == Prompt
  }

  /** No step completes without asking the user. */
  ghost predicate StepsAsk(e: Env) { forall k, subject :: !e.begin(k, subject).Done? }

  /** The embedder answers every pass of the event as it answered the check. */
  function Steady(e: Env): nat -> Env { (i: nat) => e }

  function Skipping(st: State, s: Step): State
    requires s.Choice?
  {
    st.(skipped := st.skipped + [s.name])
  }

  lemma SessionPass(c: Compiled, e: Env, st: State)
    requires OnSession(c, e, st)
    ensures PassOnce(c, e, st) == Act(c, e, st) && Choose(c, e, st) == Decided(c, e, st)
    ensures Granting(c, e, st) == Grant
  {
  }

  lemma SkippingIsBegun(c: Compiled, e: Env, st: State, s: Step)
    requires Coherent(c) && OnSession(c, e, st) && Known(c, s) && SkipsUnenrolled(e, st.subject, s)
    ensures BeginStep(c, e, st, s) == Again(Skipping(st, s)) && s.name != c.primary.Kind()
  {
    assert c.byKind[s.name].Kind() == s.name && s.name != "";
    assert TopLevel(c, c.primary);
  }

  lemma SkippingSettles(c: Compiled, e: Env, st: State, s: Step, t: Step)
    requires s.Choice?
    ensures ContextOf(c, Skipping(st, s)) == ContextOf(c, st)
    ensures Settled(c, Skipping(st, s), t) <==> Settled(c, st, t) || (!t.Captcha() && t.Kind() == s.name)
  {
  }

  // ----- nothing demanded: no factor is asked for -----

  /** Passing a step over demands nothing new. */
  lemma StillNotDemanded(c: Compiled, e: Env, st: State, s: Step)
    requires s.Choice? && !Demanded(c, e, st)
    ensures !Demanded(c, e, Skipping(st, s))
  {
    var next := Skipping(st, s);
    forall i | 0 <= i < |c.rules| ensures Matches(c, e, next, i) && Open(c, e, next, c.rules[i]) ==>
                                          Matches(c, e, st, i) && Open(c, e, st, c.rules[i]) {
      SkippingSettles(c, e, st, s, c.rules[i]);
    }
    assert ContextOf(c, next) == ContextOf(c, st) by { SkippingSettles(c, e, st, s, s); }
    forall k | k in c.byKind ensures Open(c, e, next, c.byKind[k]) ==> Open(c, e, st, c.byKind[k]) {
      SkippingSettles(c, e, st, s, c.byKind[k]);
    }
  }

  /** What the chain chooses: to grant, a captcha, or a step to pass over. */
  lemma ChoosesNoFactor(c: Compiled, e: Env, st: State)
    requires Coherent(c) && OnSession(c, e, st) && !Demanded(c, e, st)
    ensures var a := Decided(c, e, st);
            a == Grant || (a.Run? && Known(c, a.step) && (a.step.Captcha() || SkipsUnenrolled(e, st.subject, a.step)))
  {
    SessionPass(c, e, st);
    FirstRuleMeans(c, e, st, true, 0);
    FirstRuleMeans(c, e, st, false, 0);
    assert forall j :: 0 <= j < |c.rules| ==> TopLevel(c, c.rules[j]);
    if e.decider.Some? {
      var answer := e.decider.value(ContextOf(c, st));
      if answer.Some? && answer.value.Require? { assert c.byKind[answer.value.kind].Kind() == answer.value.kind; }
    }
  }

  /** When the check demands nothing, the chain grants, after at most a captcha: it never asks
      for a factor and never refuses. */
  lemma {:induction false} NotDemandedIsServed(c: Compiled, e: Env, i: nat, st: State)
    requires Coherent(c) && Inv(c, st) && OnSession(c, e, st) && CaptchasAsk(c, e) && !Demanded(c, e, st)
    ensures var r := Advance(c, Steady(e), i, st).reply;
            r == Granted || (r.Prompted? && r.kind in c.byKind && c.byKind[r.kind].Captcha())
    decreases Uncompleted(c, st) + Failing(st) + Unskipped(c, st)
  {
    SessionPass(c, e, st);
    ChoosesNoFactor(c, e, st);
    PassOk(c, e, st);
    var a := Decided(c, e, st);
    if a.Run? && a.step.Captcha() {
      assert e.begin(a.step.Kind(), StepSubject(c, st, a.step.Kind())) == Prompt;
    } else if a.Run? {
      SkippingIsBegun(c, e, st, a.step);
      StillNotDemanded(c, e, st, a.step);
      NotDemandedIsServed(c, e, i + 1, Skipping(st, a.step));
    }
  }

  // ----- something demanded: no silent grant -----

  lemma OpenStaysOpen(c: Compiled, e: Env, st: State, s: Step, t: Step)
    requires Known(c, s) && Known(c, t) && s.Choice? && SkipsUnenrolled(e, st.subject, s) && Open(c, e, st, t)
    ensures Open(c, e, Skipping(st, s), t)
  {
    SkippingSettles(c, e, st, s, t);
  }

  lemma StillDemanded(c: Compiled, e: Env, st: State, s: Step)
    requires Coherent(c) && Known(c, s) && SkipsUnenrolled(e, st.subject, s) && Demanded(c, e, st)
    ensures Demanded(c, e, Skipping(st, s))
  {
    var next := Skipping(st, s);
    SkippingSettles(c, e, st, s, s);
    if RuleDemands(c, e, st) {
      var i :| 0 <= i < |c.rules| && Matches(c, e, st, i) && Open(c, e, st, c.rules[i]);
      assert TopLevel(c, c.rules[i]);
      OpenStaysOpen(c, e, st, s, c.rules[i]);
      assert Matches(c, e, next, i);
    }
    if e.decider.Some? {
      var answer := e.decider.value(ContextOf(c, st));
      if answer.Some? && answer.value.Require? && answer.value.kind in c.byKind
         && Open(c, e, st, c.byKind[answer.value.kind])
      {
        assert c.byKind[answer.value.kind].Kind() == answer.value.kind;
        OpenStaysOpen(c, e, st, s, c.byKind[answer.value.kind]);
      }
    }
  }

  lemma DemandedDoesNotGrant(c: Compiled, e: Env, st: State)
    requires OnSession(c, e, st) && Demanded(c, e, st)
    ensures Decided(c, e, st) != Grant
  {
    FirstRuleMeans(c, e, st, false, 0);
  }

  /** Without an immediate completion, beginning a step ends the event or passes the step over. */
  lemma BeginAsks(c: Compiled, e: Env, st: State, s: Step)
    requires Coherent(c) && OnSession(c, e, st) && StepsAsk(e) && Startable(c, st, s)
    ensures var t := BeginStep(c, e, st, s);
            (t.Stop? && t.reply != Granted) || (SkipsUnenrolled(e, st.subject, s) && t == Again(Skipping(st, s)))
  {
    assert s.Choice? ==> c.byKind[s.name].Kind() == s.name && s.inner != [] && s.name != "";
  }

  /** A step that is recorded is work. */
  lemma LeafTakesWork(c: Compiled, e: Env, st: State, leaf: Leaf)
    ensures var t := BeginLeaf(c, e, st, leaf);
            if t.Stop? then t.reply != Granted else Work(t.state) == Work(st) + 1
  {
  }

  /** Beginning a step ends the event without a grant, passes the step over, or records one. */
  lemma BeginTakesWork(c: Compiled, e: Env, st: State, s: Step)
    requires Coherent(c) && OnSession(c, e, st) && Startable(c, st, s)
    ensures var t := BeginStep(c, e, st, s);
            || (t.Stop? && t.reply != Granted)
            || (SkipsUnenrolled(e, st.subject, s) && t == Again(Skipping(st, s)))
            || (t.Again? && Work(t.state) == Work(st) + 1)
  {
    if s.Single? {
      LeafTakesWork(c, e, st, s.leaf);
    } else {
      ChoiceIsNamed(c, s);
      var candidates := Candidates(c, e, st, s);
      if candidates.Some? && |candidates.value| == 1 {
        var leaf := candidates.value[0];
        LeafTakesWork(c, e, st.(pending := s.name, offered := [leaf.kind]), leaf);
      }
    }
  }

  lemma AdvanceKeepsWork(c: Compiled, answers: nat -> Env, i: nat, st: State)
    requires Coherent(c) && Inv(c, st)
    ensures Work(Advance(c, answers, i, st).state) >= Work(st)
  {
  }

  /** When the check demands a step, the chain grants in that event only if some step was
      recorded in it, be it one that completes without asking the user. */
  lemma {:induction false} DemandedTakesAStep(c: Compiled, e: Env, i: nat, st: State)
    requires Coherent(c) && Inv(c, st) && OnSession(c, e, st) && Demanded(c, e, st)
    ensures var r := Advance(c, Steady(e), i, st); r.reply == Granted ==> Work(r.state) > Work(st)
    decreases Uncompleted(c, st) + Failing(st) + Unskipped(c, st)
  {
    SessionPass(c, e, st);
    DemandedDoesNotGrant(c, e, st);
    OnePass(c, Steady(e), i, st);
    var a, t := Decided(c, e, st), PassOnce(c, e, st);
    if a.Run? && t.Again? {
      DecidedIsStartable(c, e, st);
      BeginTakesWork(c, e, st, a.step);
      if Work(t.state) > Work(st) {
        AdvanceKeepsWork(c, Steady(e), i + 1, t.state);
      } else {
        StillDemanded(c, e, st, a.step);
        DemandedTakesAStep(c, e, i + 1, t.state);
      }
    } else if a.Run? {
      DecidedIsStartable(c, e, st);
      BeginTakesWork(c, e, st, a.step);
    }
  }

  /** So where steps begin by asking, the chain does not grant before the user was asked. */
  lemma {:induction false} DemandedIsNotGranted(c: Compiled, e: Env, i: nat, st: State)
    requires Coherent(c) && Inv(c, st) && OnSession(c, e, st) && StepsAsk(e) && Demanded(c, e, st)
    ensures Advance(c, Steady(e), i, st).reply != Granted
    decreases Uncompleted(c, st) + Failing(st) + Unskipped(c, st)
  {
    SessionPass(c, e, st);
    DemandedDoesNotGrant(c, e, st);
    PassOk(c, e, st);
    var a := Decided(c, e, st);
    if a.Run? {
      DecidedIsStartable(c, e, st);
      BeginAsks(c, e, st, a.step);
      if BeginStep(c, e, st, a.step).Again? {
        StillDemanded(c, e, st, a.step);
        DemandedIsNotGranted(c, e, i + 1, Skipping(st, a.step));
      }
    }
  }
}
