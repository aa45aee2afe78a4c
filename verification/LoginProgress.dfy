/** Nobody is kept out: where no decider and no assessor objects, the probes find the user
    enrolled and every step asks, a user who answers each prompt correctly is granted the login
    after a bounded number of events. */
module LoginProgress {
  import opened Maybes
  import opened Sequences
  import opened LoginCompile
  import opened LoginLookup
  import opened LoginRun
  import opened LoginSafety
  import opened LoginHistory

  /** Every step asks, everybody is enrolled, and neither decider nor assessor takes part. */
  ghost predicate Welcoming(e: Env)
  {
    && e.decider.None? && e.assessor.None?
    && (forall kind, subject :: e.begin(kind, subject) == Prompt)
    && (forall kind, subject :: e.probe(kind, subject) == Enrolled)
  }

  /** A choice is being asked for, and its first offer can be taken. */
  predicate Offering(c: Compiled, st: State)
  {
    && st.pending == st.active && st.offered != [] && st.offered[0] != ""
    && st.active in c.byKind && c.byKind[st.active].Choice?
    && InnerNamed(c.byKind[st.active].inner, st.offered[0]).Some?
  }

  predicate Choosing(c: Compiled, st: State) { st.active in c.byKind && c.byKind[st.active].Choice? }

  /** The chain may end with this subject: it is bound to nobody else, no factor is demanded, a
      registration has its step, and a choice that is asked for can be made. */
  ghost predicate OpenTo(c: Compiled, st: State, subject: string)
  {
    && Inv(c, st) && subject != "" && (Bound(st) ==> st.subject == subject)
    && (st.risk.None? || st.risk.value == []) && (st.registration ==> c.registration.Some?)
    && (st.active != "" && Choosing(c, st) ==> Offering(c, st))
  }

  /** What the user does next: call, choose the first offer, or answer correctly. */
  function Answer(c: Compiled, answers: nat -> Env, st: State, subject: string): Event
  {
    if st.active == "" then Tick(answers)
    else Submission(answers, st.active, if st.offered == [] then "" else st.offered[0],
                    Completed(Result(subject, true)))
  }

  // ----- one pass -----

  lemma {:induction false} EverybodyEnrolled(e: Env, subject: string, inner: seq<Leaf>)
    requires Welcoming(e)
    ensures EnrolledIn(e, subject, inner) == Some(inner)
  {
    if inner != [] {
      EverybodyEnrolled(e, subject, inner[..|inner| - 1]);
      assert inner == inner[..|inner| - 1] + [inner[|inner| - 1]];
    }
  }

  lemma {:induction false} FirstIsNamed(inner: seq<Leaf>)
    requires inner != []
    ensures KindsOf(inner) != [] && KindsOf(inner)[0] == inner[0].kind
    ensures InnerNamed(inner, inner[0].kind).Some?
  {
    if |inner| > 1 { FirstIsNamed(inner[..|inner| - 1]); }
  }

  /** Asked and waiting: nothing but the cursor moved. */
  ghost predicate Waits(c: Compiled, st: State, t: Turn)
  {
    && t.Stop? && SameButOffer(st, t.state) && t.state.active != "" && !t.state.granted
    && (Choosing(c, t.state) ==> Offering(c, t.state))
  }

  lemma LeafWaits(c: Compiled, e: Env, st: State, next: State, leaf: Leaf)
    requires Coherent(c) && Welcoming(e) && Known(c, Single(leaf)) && SameButOffer(st, next) && !st.granted
    ensures Waits(c, st, BeginLeaf(c, e, next, leaf))
  {
    assert c.byKind[leaf.kind].Kind() == leaf.kind;
  }

  lemma AmongWaits(c: Compiled, e: Env, st: State, s: Step)
    requires Coherent(c) && Welcoming(e) && Known(c, s) && s.Choice? && !st.granted
    ensures Waits(c, st, BeginAmong(c, e, st, s, Candidates(c, e, st, s)))
  {
    EverybodyEnrolled(e, st.subject, s.inner);
    ChoiceIsNamed(c, s);
    assert Candidates(c, e, st, s) == Some(s.inner);
    assert InnerOf(c, s.name, s.inner[0]);
    if |s.inner| == 1 {
      LeafWaits(c, e, st, st.(pending := s.name, offered := [s.inner[0].kind]), s.inner[0]);
    } else {
      FirstIsNamed(s.inner);
      assert c.byKind[s.inner[0].kind].Kind() == s.inner[0].kind;
    }
  }

  lemma StepWaits(c: Compiled, e: Env, st: State, s: Step)
    requires Coherent(c) && Welcoming(e) && Known(c, s) && !st.granted
    ensures Waits(c, st, BeginStep(c, e, st, s))
  {
    if s.Single? {
      LeafWaits(c, e, st, st, s.leaf);
    } else {
      var settled := if st.pending == s.name && |st.offered| == 1 then InnerNamed(s.inner, st.offered[0]) else None;
      if settled.Some? {
        assert InnerOf(c, s.name, settled.value);
        LeafWaits(c, e, st, st, settled.value);
      } else {
        AmongWaits(c, e, st, s);
      }
    }
  }

  lemma NoRefusal(c: Compiled, e: Env, st: State)
    requires Welcoming(e) && (st.risk.None? || st.risk.value == []) && (st.registration ==> c.registration.Some?)
    ensures !Choose(c, e, st).Refuse?
  {
  }

  /** A pass grants, or asks and waits. */
  lemma PassWelcomes(c: Compiled, e: Env, st: State, subject: string)
    requires Coherent(c) && Welcoming(e) && OpenTo(c, st, subject) && !st.granted
    ensures var t := PassOnce(c, e, st);
            t == Stop(st.(granted := true, active := ""), Granted) || Waits(c, st, t)
  {
    NoRefusal(c, e, st);
    ActByChoice(c, e, st);
    if Choose(c, e, st).Run? {
      ChosenIsStartable(c, e, st);
      StepWaits(c, e, st, Choose(c, e, st).step);
    }
  }

  lemma WaitingIsOpen(c: Compiled, st: State, t: Turn, subject: string)
    requires OpenTo(c, st, subject) && Waits(c, st, t) && Inv(c, t.state)
    ensures OpenTo(c, t.state, subject)
  {
  }

  /** The event's passes end granted, or open and waiting, with the records as they were. */
  ghost predicate Served(c: Compiled, st: State, r: State, subject: string)
  {
    r.granted || (OpenTo(c, r, subject) && SameButOffer(st, r) && r.active != "" && !r.granted)
  }

  lemma AdvanceServes(c: Compiled, answers: nat -> Env, i: nat, st: State, subject: string)
    requires Coherent(c) && Welcoming(answers(i)) && OpenTo(c, st, subject) && !st.granted
    ensures Served(c, st, Advance(c, answers, i, st).state, subject)
  {
    PassWelcomes(c, answers(i), st, subject);
    OnePass(c, answers, i, st);
    var t := PassOnce(c, answers(i), st);
    if Waits(c, st, t) { WaitingIsOpen(c, st, t, subject); }
  }

  // ----- one answer -----

  /** How many answers may still be needed. */
  function Distance(c: Compiled, st: State): nat
  {
    2 * (Uncompleted(c, st) + Failing(st) + Unskipped(c, st)) + if Choosing(c, st) then 1 else 0
  }

  lemma GoodResultIsTaken(c: Compiled, st: State, leaf: Leaf, subject: string)
    requires OpenTo(c, st, subject)
    ensures Complete(c, st, leaf, Result(subject, true)) == Again(Record(c, st, leaf, Result(subject, true)))
  {
  }

  lemma RecordedIsOpen(c: Compiled, st: State, leaf: Leaf, subject: string)
    requires Coherent(c) && OpenTo(c, st, subject) && !st.granted && Runnable(c, st, Single(leaf))
    ensures var next := Record(c, st, leaf, Result(subject, true));
            && OpenTo(c, next, subject) && !next.granted && Progress(c, st, next)
  {
    GoodResultIsTaken(c, st, leaf, subject);
    RecordHolds(c, st, leaf, Result(subject, true));
    NextSubject(c, st, leaf, subject);
  }

  lemma NextSubject(c: Compiled, st: State, leaf: Leaf, subject: string)
    requires OpenTo(c, st, subject) && !st.granted
    ensures var next := Record(c, st, leaf, Result(subject, true));
            && (Bound(next) ==> next.subject == subject) && next.active == "" && next.risk == st.risk
            && next.registration == st.registration && !next.granted
  {
  }

  lemma LeafTurn(c: Compiled, ev: Event, st: State, leaf: Leaf, subject: string)
    requires OpenTo(c, st, subject) && st.active != "" && st.active in c.byKind && c.byKind[st.active] == Single(leaf)
    requires ev == Answer(c, ev.answers, st, subject)
    ensures Submit(c, ev.answers(0), st, ev.kind, ev.choice, ev.cont) ==
            Again(Record(c, st, leaf, Result(subject, true)))
  {
    GoodResultIsTaken(c, st, leaf, subject);
  }

  lemma LeafAnswered(c: Compiled, ev: Event, st: State, subject: string)
    requires Coherent(c) && OpenTo(c, st, subject) && !st.granted && st.active != "" && !Choosing(c, st)
    requires ev == Answer(c, ev.answers, st, subject) && Welcoming(ev.answers(1))
    ensures Helped(c, st, Next(c, ev, st).state, subject)
  {
    ActiveIsRunnable(c, st);
    var leaf := c.byKind[st.active].leaf;
    var next := Record(c, st, leaf, Result(subject, true));
    LeafTurn(c, ev, st, leaf, subject);
    RecordedIsOpen(c, st, leaf, subject);
    GoesOnFrom(c, ev, st, next, subject);
  }

  lemma GoesOnFrom(c: Compiled, ev: Event, st: State, next: State, subject: string)
    requires Coherent(c) && Inv(c, st) && !st.granted && ev.Submission? && Welcoming(ev.answers(1))
    requires Submit(c, ev.answers(0), st, ev.kind, ev.choice, ev.cont) == Again(next)
    requires OpenTo(c, next, subject) && !next.granted && Progress(c, st, next)
    ensures Helped(c, st, Next(c, ev, st).state, subject)
  {
    SubmissionGoesOn(c, ev, st, Again(next));
    AdvanceServes(c, ev.answers, 1, next, subject);
    Closer(c, st, next, Next(c, ev, st).state, subject);
  }

  /** Granted, or open, asking, and closer to the end. */
  ghost predicate Helped(c: Compiled, st: State, r: State, subject: string)
  {
    r.granted || (OpenTo(c, r, subject) && r.active != "" && Distance(c, r) < Distance(c, st))
  }

  lemma Closer(c: Compiled, st: State, next: State, r: State, subject: string)
    requires Progress(c, st, next) && Served(c, next, r, subject)
    ensures Helped(c, st, r, subject)
  {
  }

  lemma ChoiceAnswered(c: Compiled, ev: Event, st: State, subject: string)
    requires Coherent(c) && OpenTo(c, st, subject) && !st.granted && st.active != "" && Choosing(c, st)
    requires ev == Answer(c, ev.answers, st, subject) && Welcoming(ev.answers(0))
    ensures var r := Next(c, ev, st).state;
            OpenTo(c, r, subject) && r.active != "" && Distance(c, r) < Distance(c, st)
  {
    ActiveIsRunnable(c, st);
    var s := c.byKind[st.active];
    var leaf := InnerNamed(s.inner, st.offered[0]).value;
    assert InnerOf(c, st.active, leaf);
    assert s.name == st.active;
    var next := st.(active := "", offered := [st.offered[0]]);
    LeafWaits(c, ev.answers(0), st, next, leaf);
    var t := Submit(c, ev.answers(0), st, ev.kind, ev.choice, ev.cont);
    assert t == BeginLeaf(c, ev.answers(0), next, leaf);
    SubmitKeeps(c, ev.answers(0), st, ev.kind, ev.choice, ev.cont);
    SubmissionGoesOn(c, ev, st, t);
    WaitingIsOpen(c, st, t, subject);
    assert !Choosing(c, t.state);
  }

  /** Each answer grants, or leaves the chain open, asking, and closer to its end. */
  lemma AnswerHelps(c: Compiled, ev: Event, st: State, subject: string)
    requires Coherent(c) && OpenTo(c, st, subject) && !st.granted && st.active != ""
    requires ev == Answer(c, ev.answers, st, subject) && Welcoming(ev.answers(0)) && Welcoming(ev.answers(1))
    ensures Helped(c, st, Next(c, ev, st).state, subject)
  {
    if Choosing(c, st) { ChoiceAnswered(c, ev, st, subject); } else { LeafAnswered(c, ev, st, subject); }
  }

  lemma CallHelps(c: Compiled, ev: Event, st: State, subject: string)
    requires Coherent(c) && OpenTo(c, st, subject) && !st.granted && st.active == ""
    requires ev == Answer(c, ev.answers, st, subject) && Welcoming(ev.answers(0))
    ensures Served(c, st, Next(c, ev, st).state, subject)
  {
    AdvanceServes(c, ev.answers, 0, st, subject);
  }

  // ----- the whole login -----

  /** The first n things the user does, each in the state it finds. */
  function UserDoes(c: Compiled, answers: nat -> Env, st: State, subject: string, n: nat): (events: seq<Event>)
    requires Coherent(c) && Inv(c, st)
    ensures |events| == n
  {
    if n == 0 then []
    else
      var before := UserDoes(c, answers, st, subject, n - 1);
      before + [Answer(c, answers, After(c, before, st), subject)]
  }

  lemma OneMore(c: Compiled, events: seq<Event>, ev: Event, st: State, now: State)
    requires Coherent(c) && Inv(c, st) && now == After(c, events, st)
    ensures After(c, events + [ev], st) == Next(c, ev, now).state
  {
    var all := events + [ev];
    TakeBefore(events, ev);
    LastEvent(c, all, st);
  }

  /** Where the user stands after n answers: in, or asked once more. */
  ghost predicate Asked(c: Compiled, st: State, subject: string)
  {
    st.granted || (OpenTo(c, st, subject) && st.active != "")
  }

  lemma AskedAgain(c: Compiled, answers: nat -> Env, st: State, subject: string, n: nat, now: State, next: State)
    requires Coherent(c) && Inv(c, st) && now == After(c, UserDoes(c, answers, st, subject, n), st)
    requires next == After(c, UserDoes(c, answers, st, subject, n + 1), st)
    requires Asked(c, now, subject) && !now.granted && forall k: nat :: Welcoming(answers(k))
    ensures Helped(c, now, next, subject)
  {
    var ev := Answer(c, answers, now, subject);
    OneMore(c, UserDoes(c, answers, st, subject, n), ev, st, now);
    AnswerHelps(c, ev, now, subject);
  }

  lemma {:induction false} AnswersLeadIn(
      c: Compiled, answers: nat -> Env, st: State, subject: string, n: nat, now: State) returns (last: nat)
    requires Coherent(c) && Inv(c, st) && now == After(c, UserDoes(c, answers, st, subject, n), st)
    requires Asked(c, now, subject) && forall k: nat :: Welcoming(answers(k))
    ensures last <= n + Distance(c, now) + 1
    ensures After(c, UserDoes(c, answers, st, subject, last), st).granted
    decreases Distance(c, now)
  {
    if now.granted {
      last := n;
    } else {
      var next := After(c, UserDoes(c, answers, st, subject, n + 1), st);
      AskedAgain(c, answers, st, subject, n, now, next);
      if next.granted {
        last := n + 1;
      } else {
        last := AnswersLeadIn(c, answers, st, subject, n + 1, next);
      }
    }
  }

  /** For every accepted flow and every chain that may end with this subject: where nobody objects,
      a user who answers each prompt correctly is granted the login, and soon. */
  lemma UserGetsIn(s: Spec, answers: nat -> Env, st: State, subject: string) returns (n: nat)
    requires Compiles(s) && Initial(st) && OpenTo(CompiledOf(s), st, subject)
    requires forall k: nat :: Welcoming(answers(k))
    ensures Coherent(CompiledOf(s)) && n <= 4 * |CompiledOf(s).byKind| + 3
    ensures Login(s, UserDoes(CompiledOf(s), answers, st, subject, n), st).granted
  {
    CompiledIsCoherent(s);
    n := CoherentLetsIn(CompiledOf(s), answers, st, subject);
    var r := Login(s, UserDoes(CompiledOf(s), answers, st, subject, n), st);
  }

  lemma FirstCall(c: Compiled, answers: nat -> Env, st: State, subject: string, now: State)
    requires Coherent(c) && Initial(st) && OpenTo(c, st, subject) && Welcoming(answers(0))
    requires now == After(c, UserDoes(c, answers, st, subject, 1), st)
    ensures Served(c, st, now, subject)
  {
    var ev := Answer(c, answers, st, subject);
    OneMore(c, [], ev, st, st);
    assert UserDoes(c, answers, st, subject, 1) == [] + [ev];
    CallHelps(c, ev, st, subject);
  }

  lemma CoherentLetsIn(c: Compiled, answers: nat -> Env, st: State, subject: string) returns (n: nat)
    requires Coherent(c) && Initial(st) && OpenTo(c, st, subject)
    requires forall k: nat :: Welcoming(answers(k))
    ensures n <= 4 * |c.byKind| + 3
    ensures After(c, UserDoes(c, answers, st, subject, n), st).granted
  {
    var now := After(c, UserDoes(c, answers, st, subject, 1), st);
    FirstCall(c, answers, st, subject, now);
    StartDistance(c, st, now, subject);
    if now.granted {
      n := 1;
    } else {
      n := AnswersLeadIn(c, answers, st, subject, 1, now);
    }
  }

  lemma StartDistance(c: Compiled, st: State, r: State, subject: string)
    requires Initial(st) && Served(c, st, r, subject)
    ensures !r.granted ==> Distance(c, r) <= 4 * |c.byKind| + 1
  {
    if !r.granted {
      assert r.completed == [] && r.skipped == [] && r.failures == 0;
      AllLeft(c);
    }
  }

  lemma AllLeft(c: Compiled)
    ensures Left(c, []) == |c.byKind|
  {
    assert c.byKind.Keys - {} == c.byKind.Keys;
  }
}
