/** Where the records of a login come from: every completed step was answered with a result,
    every mark of a verified user is that of such a result, and every step passed over was one
    that nobody was enrolled in, in a pass or submission of the login at hand. */
module LoginCauses {
  import opened Maybes
  import opened Sequences
  import opened LoginCompile
  import opened LoginLookup
  import opened LoginRun
  import opened LoginSafety
  import opened LoginHistory
  import LoginChoice

  // ----- one turn -----

  /** What one turn does to the records of a chain. */
  datatype Change = Unchanged | Recorded(leaf: Leaf, result: Result) | PassedOver(step: Step) | TurnedDown

  predicate SameRecords(st: State, next: State)
  {
    && next.completed == st.completed && next.skipped == st.skipped
    && next.factors == st.factors && next.verified == st.verified && next.subject == st.subject
    && next.failures == st.failures && next.solved == st.solved
  }

  /** From st to next the records change by ch and by nothing else. */
  predicate Changes(c: Compiled, st: State, next: State, ch: Change)
  {
    match ch
    case Unchanged => SameRecords(st, next)
    case Recorded(leaf, res) =>
      && Known(c, Single(leaf)) && (leaf.captcha || Guard(c, st, leaf, res).None?)
      && next.completed == WithKinds(c, st.completed, leaf.kind) && next.skipped == st.skipped
      && next.factors == st.factors + (if leaf.captcha then [] else [leaf.auth.factor])
      && next.verified == st.verified + (if leaf.captcha then [] else [res.verified])
      && next.subject == (if leaf.captcha || res.subject == "" then st.subject else res.subject)
      && (if leaf.captcha then next.failures == 0 && next.solved == st.solved + 1
          else next.failures == st.failures && next.solved == st.solved)
    case PassedOver(s) =>
      && Known(c, s) && SameRecords(st.(skipped := st.skipped + [s.Kind()]), next)
    case TurnedDown => SameRecords(st.(failures := st.failures + 1), next)
  }

  /** Why a pass may do so: the step's own beginning returned that result; or the step is a
      one-of step written to be passed over, and the probes found nobody enrolled. */
  predicate Because(c: Compiled, e: Env, st: State, ch: Change)
  {
    match ch
    case Unchanged => true
    case Recorded(leaf, res) => e.begin(leaf.kind, StepSubject(c, st, leaf.kind)) == Done(res)
    case PassedOver(s) => Skippable(c, s.Kind()) && s.Choice? && EnrolledIn(e, st.subject, s.inner) == Some([])
    case TurnedDown => false
  }

  /** Why a submission may: the active step was answered with that result, or the member chosen
      among those offered returned it at once; or the active credential was turned down. */
  predicate Submitted(c: Compiled, ev: Event, st: State, ch: Change)
    requires ev.Submission?
  {
    match ch
    case Unchanged => true
    case PassedOver(_) => false
    case TurnedDown =>
      && ev.kind == st.active && ev.kind in c.byKind && ev.cont.Rejected?
      && c.byKind[ev.kind].Single? && !c.byKind[ev.kind].leaf.captcha
    case Recorded(leaf, res) =>
      && ev.kind == st.active && ev.kind in c.byKind
      && if c.byKind[ev.kind].Choice? then
           && leaf in c.byKind[ev.kind].inner && leaf.kind == ev.choice && ev.choice in st.offered
           && Because(c, ev.answers(0), st, ch)
         else c.byKind[ev.kind].leaf == leaf && ev.cont == Completed(res)
  }

  lemma CompleteBy(c: Compiled, st: State, next: State, leaf: Leaf, res: Result) returns (ch: Change)
    requires Known(c, Single(leaf)) && SameButOffer(st, next)
    ensures Changes(c, st, Complete(c, next, leaf, res).state, ch) && ch in {Unchanged, Recorded(leaf, res)}
  {
    if leaf.captcha || Guard(c, next, leaf, res).None? {
      ch := Recorded(leaf, res);
      RecordedLists(c, next, leaf, res);
    } else {
      ch := Unchanged;
    }
  }

  lemma LeafBy(c: Compiled, e: Env, st: State, next: State, leaf: Leaf) returns (ch: Change)
    requires Known(c, Single(leaf)) && SameButOffer(st, next)
    ensures Changes(c, st, BeginLeaf(c, e, next, leaf).state, ch) && Because(c, e, st, ch)
    ensures ch.Recorded? ==> ch.leaf == leaf
    ensures ch.Unchanged? || ch.Recorded?
  {
    var b := e.begin(leaf.kind, StepSubject(c, next, leaf.kind));
    if b.Done? {
      ch := CompleteBy(c, st, next, leaf, b.result);
    } else {
      ch := Unchanged;
    }
  }

  lemma AmongBy(c: Compiled, e: Env, st: State, s: Step) returns (ch: Change)
    requires Coherent(c) && Known(c, s) && s.Choice?
    ensures Changes(c, st, BeginAmong(c, e, st, s, Candidates(c, e, st, s)).state, ch) && Because(c, e, st, ch)
  {
    var candidates := Candidates(c, e, st, s);
    ChoiceIsNamed(c, s);
    if candidates.Some? && |candidates.value| == 1 {
      var leaf := candidates.value[0];
      assert leaf in candidates.value && InnerOf(c, s.name, leaf);
      ch := LeafBy(c, e, st, st.(pending := s.name, offered := [leaf.kind]), leaf);
    } else if candidates == Some([]) && s.skip {
      ch := PassedOver(s);
    } else {
      ch := Unchanged;
    }
  }

  lemma StepBy(c: Compiled, e: Env, st: State, s: Step) returns (ch: Change)
    requires Coherent(c) && Known(c, s)
    ensures Changes(c, st, BeginStep(c, e, st, s).state, ch) && Because(c, e, st, ch)
  {
    if s.Single? {
      ch := LeafBy(c, e, st, st, s.leaf);
    } else {
      var settled := if st.pending == s.name && |st.offered| == 1 then InnerNamed(s.inner, st.offered[0]) else None;
      if settled.Some? {
        assert InnerOf(c, s.name, settled.value);
        ch := LeafBy(c, e, st, st, settled.value);
      } else {
        ch := AmongBy(c, e, st, s);
      }
    }
  }

  lemma ActBy(c: Compiled, e: Env, st: State) returns (ch: Change)
    requires Coherent(c) && Inv(c, st)
    ensures Changes(c, st, Act(c, e, st).state, ch) && Because(c, e, st, ch)
  {
    ActByChoice(c, e, st);
    if Choose(c, e, st).Run? {
      ChosenIsStartable(c, e, st);
      ch := StepBy(c, e, st, Choose(c, e, st).step);
    } else {
      ch := Unchanged;
    }
  }

  lemma RiskAside(c: Compiled, e: Env, st: State, risk: Maybe<seq<string>>, next: State, ch: Change)
    requires Changes(c, st.(risk := risk), next, ch) && Because(c, e, st.(risk := risk), ch)
    ensures Changes(c, st, next, ch) && Because(c, e, st, ch)
  {
  }

  lemma PassBy(c: Compiled, e: Env, st: State) returns (ch: Change)
    requires Coherent(c) && Inv(c, st)
    ensures Changes(c, st, PassOnce(c, e, st).state, ch) && Because(c, e, st, ch)
  {
    var a := Assess(c, e, st);
    if a.Breaks? || a.Refuses? {
      ch := Unchanged;
    } else {
      var st1 := Assessed(e, st, a);
      AssessedOk(c, e, st, a);
      ch := ActBy(c, e, st1);
      RiskAside(c, e, st, st1.risk, Act(c, e, st1).state, ch);
    }
  }

  lemma ChoiceBy(c: Compiled, ev: Event, st: State) returns (ch: Change)
    requires Coherent(c) && ev.Submission? && ev.kind == st.active && ev.kind in c.byKind && c.byKind[ev.kind].Choice?
    ensures Changes(c, st, SubmitChoice(c, ev.answers(0), st, c.byKind[ev.kind], ev.choice).state, ch)
    ensures Submitted(c, ev, st, ch)
  {
    var s := c.byKind[ev.kind];
    var inner := InnerNamed(s.inner, ev.choice);
    ch := Unchanged;
    if st.pending == s.name && ev.choice != "" && ev.choice in st.offered && inner.Some? {
      assert InnerOf(c, ev.kind, inner.value);
      ch := LeafBy(c, ev.answers(0), st, st.(active := "", offered := [ev.choice]), inner.value);
    }
  }

  function TurnOf(c: Compiled, ev: Event, st: State): Turn
    requires ev.Submission?
  {
    Submit(c, ev.answers(0), st, ev.kind, ev.choice, ev.cont)
  }

  /** Only a result completes a step: whatever is submitted, in any state, the records change by
      nothing or by the step that was answered, and no step is passed over. */
  lemma SubmitBy(c: Compiled, ev: Event, st: State) returns (ch: Change)
    requires Coherent(c) && ev.Submission?
    ensures Changes(c, st, TurnOf(c, ev, st).state, ch) && Submitted(c, ev, st, ch)
    ensures Submitted(c, ev, st, TurnedDown) ==> ch == TurnedDown
  {
    ch := Unchanged;
    if st.active != "" && st.active == ev.kind && ev.kind in c.byKind {
      assert c.byKind[ev.kind].Kind() == ev.kind;
      if c.byKind[ev.kind].Choice? {
        ch := ChoiceBy(c, ev, st);
      } else if ev.cont.Completed? {
        ch := CompleteBy(c, st, st, c.byKind[ev.kind].leaf, ev.cont.result);
      } else if ev.cont.Rejected? {
        RejectShape(c, ev.answers(0), st, c.byKind[ev.kind].leaf, ev.cont.reprompt);
        ch := if c.byKind[ev.kind].leaf.captcha then Unchanged else TurnedDown;
      }
    }
  }

  // ----- what accounts for the records -----

  /** Completing leaf completes kind k: its own, or that of its one-of step. */
  predicate Completes(c: Compiled, leaf: Leaf, k: string)
  {
    leaf.kind == k || (leaf.kind in c.parentOf && c.parentOf[leaf.kind] == k)
  }

  /** Some change of those that happened completed kind k. */
  ghost predicate Answered(happened: Change -> bool, c: Compiled, k: string)
  {
    exists leaf, res :: happened(Recorded(leaf, res)) && Completes(c, leaf, k)
  }

  /** Some change of those that happened recorded this factor with this mark; a step that claims
      AAL3 has it only with the user verified. */
  ghost predicate Proved(happened: Change -> bool, factor: string, verified: bool)
  {
    exists leaf, res ::
      && happened(Recorded(leaf, res)) && !leaf.captcha
      && leaf.auth.factor == factor && res.verified == verified && (leaf.auth.strong ==> res.verified)
  }

  ghost predicate WasPassedOver(happened: Change -> bool, k: string)
  {
    exists s: Step :: happened(PassedOver(s)) && s.Kind() == k
  }

  /** The subject is the one the chain started with, or one that a result named. */
  ghost predicate SubjectNamed(happened: Change -> bool, start: string, subject: string)
  {
    subject == start || exists leaf, res :: happened(Recorded(leaf, res)) && !leaf.captcha && res.subject == subject
  }

  ghost predicate Proofs(happened: Change -> bool, factors: seq<string>, verified: seq<bool>)
  {
    |factors| == |verified| && forall j :: 0 <= j < |factors| ==> Proved(happened, factors[j], verified[j])
  }

  /** Every record is accounted for by a change that happened. */
  ghost predicate Justified(happened: Change -> bool, c: Compiled, start: string, st: State)
  {
    && (forall k :: k in st.completed ==> Answered(happened, c, k))
    && (forall k :: k in st.skipped ==> WasPassedOver(happened, k))
    && Proofs(happened, st.factors, st.verified)
    && SubjectNamed(happened, start, st.subject)
  }

  lemma ProofsSnoc(happened: Change -> bool, factors: seq<string>, verified: seq<bool>, leaf: Leaf, res: Result)
    requires Proofs(happened, factors, verified) && happened(Recorded(leaf, res)) && !leaf.captcha
    requires leaf.auth.strong ==> res.verified
    ensures Proofs(happened, factors + [leaf.auth.factor], verified + [res.verified])
  {
    assert Proved(happened, leaf.auth.factor, res.verified);
  }

  lemma KindsAnswered(happened: Change -> bool, c: Compiled, done: seq<string>, leaf: Leaf, res: Result)
    requires forall k :: k in done ==> Answered(happened, c, k)
    requires happened(Recorded(leaf, res))
    ensures forall k :: k in WithKinds(c, done, leaf.kind) ==> Answered(happened, c, k)
  {
    WithKindsExtends(c, done, leaf.kind);
    forall k | k in WithKinds(c, done, leaf.kind) ensures Answered(happened, c, k) {
      if k !in done { assert Completes(c, leaf, k); }
    }
  }

  lemma RecordJustified(happened: Change -> bool, c: Compiled, start: string, st: State, next: State,
                        leaf: Leaf, res: Result)
    requires Justified(happened, c, start, st) && Changes(c, st, next, Recorded(leaf, res))
    requires happened(Recorded(leaf, res))
    ensures Justified(happened, c, start, next)
  {
    KindsAnswered(happened, c, st.completed, leaf, res);
    if leaf.captcha {
      assert next.factors == st.factors && next.verified == st.verified;
    } else {
      ProofsSnoc(happened, st.factors, st.verified, leaf, res);
    }
  }

  lemma ChangeJustified(happened: Change -> bool, c: Compiled, start: string, st: State, next: State, ch: Change)
    requires Justified(happened, c, start, st) && Changes(c, st, next, ch) && happened(ch)
    ensures Justified(happened, c, start, next)
  {
    match ch {
      case Unchanged =>
      case TurnedDown =>
      case Recorded(leaf, res) => RecordJustified(happened, c, start, st, next, leaf, res);
      case PassedOver(s) =>
        forall k | k in next.skipped ensures WasPassedOver(happened, k) {
          if k !in st.skipped { assert k == s.Kind(); }
        }
    }
  }

  // ----- passes, events, logins -----

  /** ch is what pass k does when it begins in b, and is done for cause. */
  predicate PassDoes(c: Compiled, e: Env, b: Maybe<State>, ch: Change)
  {
    b.Some? && Changes(c, b.value, PassOnce(c, e, b.value).state, ch) && Because(c, e, b.value, ch)
  }

  /** What any pass from the i-th on does has happened. */
  ghost predicate PassesHappen(happened: Change -> bool, c: Compiled, answers: nat -> Env, i: nat, st: State)
  {
    forall k: nat, ch :: i <= k && PassDoes(c, answers(k), BeforePass(c, answers, i, st, k), ch) ==> happened(ch)
  }

  lemma FewerPasses(happened: Change -> bool, c: Compiled, answers: nat -> Env, i: nat, st: State)
    requires PassesHappen(happened, c, answers, i, st) && PassOnce(c, answers(i), st).Again?
    ensures PassesHappen(happened, c, answers, i + 1, PassOnce(c, answers(i), st).state)
  {
    var next := PassOnce(c, answers(i), st).state;
    forall k: nat, ch | i + 1 <= k && PassDoes(c, answers(k), BeforePass(c, answers, i + 1, next, k), ch)
      ensures happened(ch)
    {
      assert BeforePass(c, answers, i, st, k) == BeforePass(c, answers, i + 1, next, k);
    }
  }

  lemma PassJustified(happened: Change -> bool, c: Compiled, start: string, answers: nat -> Env, i: nat, st: State)
    requires Coherent(c) && Inv(c, st) && Justified(happened, c, start, st) && PassesHappen(happened, c, answers, i, st)
    ensures Justified(happened, c, start, PassOnce(c, answers(i), st).state)
  {
    var ch := PassBy(c, answers(i), st);
    assert PassDoes(c, answers(i), BeforePass(c, answers, i, st, i), ch);
    ChangeJustified(happened, c, start, st, PassOnce(c, answers(i), st).state, ch);
  }

  lemma {:induction false} AdvanceJustified(
      happened: Change -> bool, c: Compiled, start: string, answers: nat -> Env, i: nat, st: State)
    requires Coherent(c) && Inv(c, st) && Justified(happened, c, start, st) && PassesHappen(happened, c, answers, i, st)
    ensures Justified(happened, c, start, Advance(c, answers, i, st).state)
    decreases Uncompleted(c, st) + Failing(st) + Unskipped(c, st)
  {
    OnePass(c, answers, i, st);
    PassJustified(happened, c, start, answers, i, st);
    if PassOnce(c, answers(i), st).Again? {
      FewerPasses(happened, c, answers, i, st);
      AdvanceJustified(happened, c, start, answers, i + 1, PassOnce(c, answers(i), st).state);
    }
  }

  predicate SubmissionDoes(c: Compiled, ev: Event, st: State, ch: Change)
    requires ev.Submission?
  {
    Changes(c, st, TurnOf(c, ev, st).state, ch) && Submitted(c, ev, st, ch)
  }

  /** The event does ch: the submission itself, or one of the passes it runs. */
  ghost predicate Causes(c: Compiled, ev: Event, st: State, ch: Change)
  {
    || (ev.Submission? && !st.granted && SubmissionDoes(c, ev, st, ch))
    || exists k: nat :: PassDoes(c, ev.answers(k), PassStarts(c, ev, st, k), ch)
  }

  lemma TickJustified(happened: Change -> bool, c: Compiled, start: string, ev: Event, st: State)
    requires Coherent(c) && Inv(c, st) && Justified(happened, c, start, st) && !st.granted && ev.Tick?
    requires forall ch :: Causes(c, ev, st, ch) ==> happened(ch)
    ensures Justified(happened, c, start, Next(c, ev, st).state)
  {
    forall k: nat, ch | PassDoes(c, ev.answers(k), BeforePass(c, ev.answers, 0, st, k), ch) ensures happened(ch) {
      assert PassStarts(c, ev, st, k) == BeforePass(c, ev.answers, 0, st, k);
      assert Causes(c, ev, st, ch);
    }
    AdvanceJustified(happened, c, start, ev.answers, 0, st);
  }

  lemma SubmissionJustified(happened: Change -> bool, c: Compiled, start: string, ev: Event, st: State)
    requires Coherent(c) && Inv(c, st) && Justified(happened, c, start, st) && !st.granted && ev.Submission?
    requires forall ch :: Causes(c, ev, st, ch) ==> happened(ch)
    ensures Justified(happened, c, start, Next(c, ev, st).state)
  {
    var t := TurnOf(c, ev, st);
    var ch := SubmitBy(c, ev, st);
    assert Causes(c, ev, st, ch);
    ChangeJustified(happened, c, start, st, t.state, ch);
    SubmitKeeps(c, ev.answers(0), st, ev.kind, ev.choice, ev.cont);
    SubmissionGoesOn(c, ev, st, t);
    if t.Again? {
      LaterPasses(happened, c, ev, st, t);
      AdvanceJustified(happened, c, start, ev.answers, 1, t.state);
    }
  }

  lemma LaterPasses(happened: Change -> bool, c: Compiled, ev: Event, st: State, t: Turn)
    requires ev.Submission? && !st.granted && t == TurnOf(c, ev, st) && t.Again?
    requires forall ch :: Causes(c, ev, st, ch) ==> happened(ch)
    ensures PassesHappen(happened, c, ev.answers, 1, t.state)
  {
    forall k: nat, ch | 1 <= k && PassDoes(c, ev.answers(k), BeforePass(c, ev.answers, 1, t.state, k), ch)
      ensures happened(ch)
    {
      assert PassStarts(c, ev, st, k) == BeforePass(c, ev.answers, 1, t.state, k);
      assert Causes(c, ev, st, ch);
    }
  }

  /** Some event of the run does ch, from the state it finds. */
  ghost function Happened(c: Compiled, events: seq<Event>, st: State): Change -> bool
    requires Coherent(c) && Inv(c, st)
  {
    ch => exists n: nat :: n < |events| && Causes(c, events[n], After(c, events[..n], st), ch)
  }

  lemma NextJustified(happened: Change -> bool, c: Compiled, start: string, ev: Event, st: State)
    requires Coherent(c) && Inv(c, st) && Justified(happened, c, start, st)
    requires forall ch :: Causes(c, ev, st, ch) ==> happened(ch)
    ensures Justified(happened, c, start, Next(c, ev, st).state)
  {
    if !st.granted {
      if ev.Tick? {
        TickJustified(happened, c, start, ev, st);
      } else {
        SubmissionJustified(happened, c, start, ev, st);
      }
    }
  }

  /** Whatever an event of the run does has happened. */
  ghost predicate EventsHappen(happened: Change -> bool, c: Compiled, events: seq<Event>, st: State)
    requires Coherent(c) && Inv(c, st)
  {
    forall n: nat, ch :: n < |events| && Causes(c, events[n], After(c, events[..n], st), ch) ==> happened(ch)
  }

  lemma {:induction false} AfterJustified(
      happened: Change -> bool, c: Compiled, start: string, events: seq<Event>, n: nat, st: State)
    requires Coherent(c) && Inv(c, st) && Initial(st) && start == st.subject && n <= |events|
    requires EventsHappen(happened, c, events, st)
    ensures Justified(happened, c, start, After(c, events[..n], st))
    decreases n
  {
    if n == 0 {
      StartIsJustified(happened, c, start, events[..0], st);
    } else {
      AfterJustified(happened, c, start, events, n - 1, st);
      NextJustified(happened, c, start, events[n - 1], After(c, events[..n - 1], st));
      AfterSnoc(c, events, n - 1, st);
    }
  }

  lemma StartIsJustified(happened: Change -> bool, c: Compiled, start: string, events: seq<Event>, st: State)
    requires Coherent(c) && Inv(c, st) && Initial(st) && start == st.subject && events == []
    ensures Justified(happened, c, start, After(c, events, st))
  {
  }

  /** In every login each record has its cause in an event of that login. A completed kind, or a
      member of that one-of step, was answered with a result: by a submission to the active step,
      or at once when a pass or a choice began it. Each factor and its mark are those of such a
      result, and the subject is the one the chain started with or one a result named. A kind
      passed over is a one-of step written so, other than Primary, and the probes of the pass
      that did it found nobody enrolled. */
  lemma EveryRecordHasItsCause(s: Spec, events: seq<Event>, st: State)
    requires Compiles(s) && Initial(st)
    ensures var c := CompiledOf(s);
            Coherent(c) && Inv(c, st) && Justified(Happened(c, events, st), c, st.subject, Login(s, events, st))
  {
    var c := CompiledOf(s);
    var r := Login(s, events, st);
    assert EventsHappen(Happened(c, events, st), c, events, st);
    AfterJustified(Happened(c, events, st), c, st.subject, events, |events|, st);
    TakeAll(events);
  }

  /** In every login each factor recorded for a step that claims AAL3 came from a result that
      had verified the user; the marks are listed in step with the factors, and each is that of
      a result some event of the login gave. */
  lemma StrongFactorsAreVerified(s: Spec, events: seq<Event>, st: State)
    requires Compiles(s) && Initial(st)
    ensures var c, r := CompiledOf(s), Login(s, events, st);
            && Gather(FactorOf(c), r.completed) == r.factors
            && Pairwise(Backed(), Gather(MarkOf(c), r.completed), r.verified)
            && Coherent(c) && Inv(c, st) && Proofs(Happened(c, events, st), r.factors, r.verified)
  {
    assert Inv(CompiledOf(s), Login(s, events, st));
    EveryRecordHasItsCause(s, events, st);
  }

  // ----- what a grant rests on -----

  /** The step was answered in this login, or the entry session stands in for it, or a pass found
      nobody enrolled in it. */
  ghost predicate Accounted(happened: Change -> bool, c: Compiled, st: State, s: Step)
  {
    || Answered(happened, c, s.Kind())
    || (!s.Captcha() && StandsIn(st) && s.Kind() in Inherited(c.primary, c.rules, st.entry.value))
    || (s.Choice? && s.skip && WasPassedOver(happened, s.Kind()))
  }

  lemma DischargedIsAccounted(happened: Change -> bool, c: Compiled, start: string, st: State, s: Step)
    requires Justified(happened, c, start, st) && Discharged(c, st, s)
    ensures Accounted(happened, c, st, s)
  {
    LoginChoice.CompletedMeans(c, st, s.Kind());
  }

  predicate Allows(c: Compiled, e: Env, st: State)
  {
    e.decider.Some? && e.decider.value(ContextOf(c, st)) == Some(Allow)
  }

  lemma ClearedIsAccounted(happened: Change -> bool, c: Compiled, start: string, e: Env, st: State)
    requires Justified(happened, c, start, st) && Cleared(c, e, st) && !Allows(c, e, st)
    ensures forall i :: 0 <= i < |c.rules| ==> Accounted(happened, c, st, c.rules[i]) || !Matches(c, e, st, i)
  {
    forall i | 0 <= i < |c.rules| && Matches(c, e, st, i) ensures Accounted(happened, c, st, c.rules[i]) {
      DischargedIsAccounted(happened, c, start, st, c.rules[i]);
    }
  }

  /** A login granted without the decider's Allow leaves no applicable rule unaccounted for: each
      was answered with a result in an event of this login, is stood in for by the session, or is
      a one-of step written to be passed over that a pass found nobody enrolled in. */
  lemma GrantRestsOnAnswers(s: Spec, events: seq<Event>, ev: Event, st: State)
    requires Compiles(s) && Initial(st)
    requires !Login(s, events, st).granted && Login(s, events + [ev], st).granted
    ensures var c, all, r := CompiledOf(s), events + [ev], Login(s, events + [ev], st);
            var e := ev.answers(EndPass(c, ev, Login(s, events, st)));
            && Coherent(c) && Inv(c, st)
            && (Allows(c, e, r) || forall i :: 0 <= i < |c.rules| ==>
                  Accounted(Happened(c, all, st), c, r, c.rules[i]) || !Matches(c, e, r, i))
  {
    var c, all, r := CompiledOf(s), events + [ev], Login(s, events + [ev], st);
    var e := ev.answers(EndPass(c, ev, Login(s, events, st)));
    EveryGrantIsEarned(s, events, ev, st);
    EveryRecordHasItsCause(s, all, st);
    if !Allows(c, e, r) { ClearedIsAccounted(Happened(c, all, st), c, st.subject, e, r); }
  }
}
