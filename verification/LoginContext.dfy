/** What rule predicates, the decider and the assessor are shown, said without the state: the
    credentials turned down since the last captcha, and the steps, factors and subject that the
    results given so far account for. */
module LoginContext {
  import opened Maybes
  import opened Sequences
  import opened LoginCompile
  import opened LoginLookup
  import opened LoginRun
  import opened LoginSafety
  import opened LoginHistory
  import opened LoginCauses
  import LoginChoice

  // ----- passes, one after another -----

  lemma {:induction false} NextBegun(turn: (nat, State) -> Turn, i: nat, st: State, k: nat)
    requires i <= k
    ensures var b := Begun(turn, i, st, k);
            Begun(turn, i, st, k + 1) ==
            if b.None? || turn(k, b.value).Stop? then None else Some(turn(k, b.value).state)
    decreases k - i
  {
    if i < k {
      var t := turn(i, st);
      if t.Again? { NextBegun(turn, i + 1, t.state, k); }
    }
  }

  /** Every pass up to one that is begun is begun. */
  lemma {:induction false} BegunBefore(turn: (nat, State) -> Turn, i: nat, st: State, j: nat, k: nat)
    requires i <= j <= k && Begun(turn, i, st, k).Some?
    ensures Begun(turn, i, st, j).Some?
    decreases k
  {
    if j < k {
      NextBegun(turn, i, st, k - 1);
      BegunBefore(turn, i, st, j, k - 1);
    }
  }

  ghost predicate Preserves(turn: (nat, State) -> Turn, ok: State -> bool)
  {
    forall n: nat, s :: ok(s) ==> ok(turn(n, s).state)
  }

  ghost predicate Relates(turn: (nat, State) -> Turn, ok: State -> bool, rel: (State, State) -> bool)
  {
    && (forall n: nat, s :: ok(s) ==> rel(s, turn(n, s).state))
    && (forall s :: rel(s, s)) && (forall x, y, z :: rel(x, y) && rel(y, z) ==> rel(x, z))
  }

  lemma {:induction false} BegunSatisfies(turn: (nat, State) -> Turn, ok: State -> bool, i: nat, st: State, k: nat)
    requires Preserves(turn, ok) && ok(st) && i <= k && Begun(turn, i, st, k).Some?
    ensures ok(Begun(turn, i, st, k).value)
    decreases k
  {
    if i < k {
      NextBegun(turn, i, st, k - 1);
      BegunSatisfies(turn, ok, i, st, k - 1);
    }
  }

  lemma {:induction false} BegunRelates(
      turn: (nat, State) -> Turn, ok: State -> bool, rel: (State, State) -> bool, i: nat, st: State, j: nat, k: nat)
    requires Preserves(turn, ok) && Relates(turn, ok, rel) && ok(st) && i <= j <= k && Begun(turn, i, st, k).Some?
    ensures Begun(turn, i, st, j).Some? && rel(Begun(turn, i, st, j).value, Begun(turn, i, st, k).value)
    decreases k
  {
    BegunBefore(turn, i, st, j, k);
    if j < k {
      NextBegun(turn, i, st, k - 1);
      BegunRelates(turn, ok, rel, i, st, j, k - 1);
      BegunSatisfies(turn, ok, i, st, k - 1);
    }
  }

  // The invariant and what every turn keeps are such.

  ghost function Fit(c: Compiled): State -> bool { (s: State) => Inv(c, s) }

  ghost function Kept(): (State, State) -> bool { (a: State, b: State) => Keeps(a, b) }

  lemma PassesPreserve(c: Compiled, answers: nat -> Env)
    requires Coherent(c)
    ensures Preserves(Passes(c, answers), Fit(c))
  {
    forall n: nat, s | Fit(c)(s) ensures Fit(c)(Passes(c, answers)(n, s).state) { PassOk(c, answers(n), s); }
  }

  lemma PassesRelate(c: Compiled, answers: nat -> Env)
    requires Coherent(c)
    ensures Relates(Passes(c, answers), Fit(c), Kept())
  {
    forall n: nat, s | Fit(c)(s) ensures Kept()(s, Passes(c, answers)(n, s).state) { PassOk(c, answers(n), s); }
    forall x, y, z | Kept()(x, y) && Kept()(y, z) ensures Kept()(x, z) { KeepsTwice(x, y, z); }
  }

  /** What a pass finds is kept until any later pass begins. */
  lemma KeptUntil(c: Compiled, answers: nat -> Env, i: nat, st: State, j: nat, k: nat)
    requires Coherent(c) && Inv(c, st) && i <= j <= k && Begun(Passes(c, answers), i, st, k).Some?
    ensures var turn := Passes(c, answers);
            && Begun(turn, i, st, j).Some? && Inv(c, Begun(turn, i, st, j).value)
            && Keeps(Begun(turn, i, st, j).value, Begun(turn, i, st, k).value)
  {
    var turn := Passes(c, answers);
    PassesPreserve(c, answers);
    PassesRelate(c, answers);
    BegunRelates(turn, Fit(c), Kept(), i, st, j, k);
    BegunSatisfies(turn, Fit(c), i, st, j);
    assert Fit(c)(Begun(turn, i, st, j).value) && Kept()(Begun(turn, i, st, j).value, Begun(turn, i, st, k).value);
  }

  // ----- failures -----

  /** A captcha was solved. */
  predicate Solves(ch: Change) { ch.Recorded? && ch.leaf.captcha }

  ghost predicate SolvesIn(c: Compiled, e: Env, b: Maybe<State>) { exists ch :: Solves(ch) && PassDoes(c, e, b, ch) }

  lemma PassFailures(c: Compiled, e: Env, st: State)
    requires Coherent(c) && Inv(c, st)
    ensures PassOnce(c, e, st).state.failures == if SolvesIn(c, e, Some(st)) then 0 else st.failures
  {
    var ch := PassBy(c, e, st);
    assert PassDoes(c, e, Some(st), ch);
    if other :| Solves(other) && PassDoes(c, e, Some(st), other) { assert Solves(ch); }
  }

  ghost function SolvingPasses(c: Compiled, answers: nat -> Env): (nat, State) -> bool
  {
    (n: nat, s: State) => SolvesIn(c, answers(n), Some(s))
  }

  function FailuresOf(): State -> nat { (s: State) => s.failures }

  /** A turn that solves resets the count, any other leaves it. */
  ghost predicate Resets(
      turn: (nat, State) -> Turn, ok: State -> bool, count: State -> nat, solves: (nat, State) -> bool)
  {
    forall n: nat, s :: ok(s) ==> count(turn(n, s).state) == if solves(n, s) then 0 else count(s)
  }

  lemma PassesReset(c: Compiled, answers: nat -> Env)
    requires Coherent(c)
    ensures Resets(Passes(c, answers), Fit(c), FailuresOf(), SolvingPasses(c, answers))
  {
    forall n: nat, s | Fit(c)(s)
      ensures FailuresOf()(Passes(c, answers)(n, s).state) ==
              if SolvingPasses(c, answers)(n, s) then 0 else FailuresOf()(s)
    {
      PassFailures(c, answers(n), s);
    }
  }

  /** Pass j is begun and solves a captcha. */
  ghost predicate SolvesAt(turn: (nat, State) -> Turn, solves: (nat, State) -> bool, i: nat, st: State, j: nat)
  {
    i <= j && Begun(turn, i, st, j).Some? && solves(j, Begun(turn, i, st, j).value)
  }

  ghost predicate SolvedFrom(turn: (nat, State) -> Turn, solves: (nat, State) -> bool, i: nat, st: State, k: nat)
  {
    exists j: nat :: j < k && SolvesAt(turn, solves, i, st, j)
  }

  lemma {:induction false} BegunCounts(turn: (nat, State) -> Turn, ok: State -> bool, count: State -> nat,
                                       solves: (nat, State) -> bool, i: nat, st: State, k: nat)
    requires Preserves(turn, ok) && Resets(turn, ok, count, solves) && ok(st)
    requires i <= k && Begun(turn, i, st, k).Some?
    ensures count(Begun(turn, i, st, k).value) == if SolvedFrom(turn, solves, i, st, k) then 0 else count(st)
    decreases k
  {
    if i < k {
      NextBegun(turn, i, st, k - 1);
      BegunCounts(turn, ok, count, solves, i, st, k - 1);
      TurnCounts(turn, ok, count, solves, i, st, k - 1);
    } else {
      NoneSolved(turn, solves, i, st);
    }
  }

  lemma NoneSolved(turn: (nat, State) -> Turn, solves: (nat, State) -> bool, i: nat, st: State)
    ensures !SolvedFrom(turn, solves, i, st, i)
  {
  }

  lemma TurnCounts(turn: (nat, State) -> Turn, ok: State -> bool, count: State -> nat,
                   solves: (nat, State) -> bool, i: nat, st: State, k: nat)
    requires Preserves(turn, ok) && Resets(turn, ok, count, solves) && ok(st)
    requires i <= k && Begun(turn, i, st, k).Some?
    requires count(Begun(turn, i, st, k).value) == if SolvedFrom(turn, solves, i, st, k) then 0 else count(st)
    ensures count(turn(k, Begun(turn, i, st, k).value).state) ==
            if SolvedFrom(turn, solves, i, st, k + 1) then 0 else count(st)
  {
    var b := Begun(turn, i, st, k).value;
    BegunSatisfies(turn, ok, i, st, k);
    assert SolvesAt(turn, solves, i, st, k) <==> solves(k, b);
  }

  lemma LoopFailures(c: Compiled, answers: nat -> Env, i: nat, st: State, k: nat)
    requires Coherent(c) && Inv(c, st) && i <= k && Begun(Passes(c, answers), i, st, k).Some?
    ensures var turn, solves := Passes(c, answers), SolvingPasses(c, answers);
            var b, solved := Begun(turn, i, st, k).value, SolvedFrom(turn, solves, i, st, k);
            b.failures == if solved then 0 else st.failures
    ensures var turn, solves := Passes(c, answers), SolvingPasses(c, answers);
            var b, solved := Begun(turn, i, st, k).value, SolvedFrom(turn, solves, i, st, k + 1);
            turn(k, b).state.failures == if solved then 0 else st.failures
  {
    var turn, solves := Passes(c, answers), SolvingPasses(c, answers);
    PassesPreserve(c, answers);
    PassesReset(c, answers);
    assert Fit(c)(st);
    BegunCounts(turn, Fit(c), FailuresOf(), solves, i, st, k);
    TurnCounts(turn, Fit(c), FailuresOf(), solves, i, st, k);
  }

  /** Some pass of the loop solves a captcha. */
  ghost predicate LoopSolves(c: Compiled, answers: nat -> Env, i: nat, st: State)
    requires Coherent(c) && Inv(c, st)
  {
    SolvedFrom(Passes(c, answers), SolvingPasses(c, answers), i, st, LastPass(c, answers, i, st) + 1)
  }

  /** The turn with which the loop stops counts like any other. */
  lemma AdvanceFailures(c: Compiled, answers: nat -> Env, i: nat, st: State)
    requires Coherent(c) && Inv(c, st)
    ensures Advance(c, answers, i, st).state.failures == if LoopSolves(c, answers, i, st) then 0 else st.failures
  {
    LastPassStops(c, answers, i, st);
    LoopFailures(c, answers, i, st, LastPass(c, answers, i, st));
  }

  // ----- events -----

  /** A credential, no captcha, is submitted and turned down. */
  predicate Rejects(c: Compiled, ev: Event, st: State)
  {
    ev.Submission? && !st.granted && Submitted(c, ev, st, TurnedDown)
  }

  function Charged(c: Compiled, ev: Event, st: State): nat { if Rejects(c, ev, st) then 1 else 0 }

  /** What the event does before its passes, and what a pass before the k-th does. */
  ghost predicate Earlier(c: Compiled, ev: Event, st: State, k: nat, ch: Change)
  {
    || (ev.Submission? && !st.granted && SubmissionDoes(c, ev, st, ch))
    || exists j: nat :: j < k && PassDoes(c, ev.answers(j), PassStarts(c, ev, st, j), ch)
  }

  ghost predicate SolvedEarlier(c: Compiled, ev: Event, st: State, k: nat)
  {
    exists ch :: Solves(ch) && Earlier(c, ev, st, k, ch)
  }

  ghost predicate SolvedBySubmission(c: Compiled, ev: Event, st: State)
  {
    ev.Submission? && exists ch :: Solves(ch) && SubmissionDoes(c, ev, st, ch)
  }

  lemma SubmissionFailures(c: Compiled, ev: Event, st: State)
    requires Coherent(c) && ev.Submission? && !st.granted
    ensures TurnOf(c, ev, st).state.failures ==
            if SolvedBySubmission(c, ev, st) then 0 else st.failures + Charged(c, ev, st)
  {
    var ch := SubmitBy(c, ev, st);
    assert SubmissionDoes(c, ev, st, ch);
    if other :| Solves(other) && SubmissionDoes(c, ev, st, other) { assert Solves(ch); }
  }

  /** An event's passes: from which number and which state they start. */
  function FirstPass(ev: Event): nat { if ev.Tick? then 0 else 1 }

  function Entering(c: Compiled, ev: Event, st: State): State
  {
    if ev.Tick? then st else TurnOf(c, ev, st).state
  }

  /** The event gets to its passes. */
  predicate GoesOn(c: Compiled, ev: Event, st: State) { !st.granted && (ev.Submission? ==> TurnOf(c, ev, st).Again?) }

  lemma StartsAsBegun(c: Compiled, ev: Event, st: State, k: nat)
    ensures PassStarts(c, ev, st, k) ==
            if GoesOn(c, ev, st) && FirstPass(ev) <= k then
              Begun(Passes(c, ev.answers), FirstPass(ev), Entering(c, ev, st), k)
            else None
  {
  }

  lemma EarlierPass(c: Compiled, ev: Event, st: State, j: nat)
    requires GoesOn(c, ev, st)
    ensures SolvesIn(c, ev.answers(j), PassStarts(c, ev, st, j)) <==>
            SolvesAt(Passes(c, ev.answers), SolvingPasses(c, ev.answers), FirstPass(ev), Entering(c, ev, st), j)
  {
    StartsAsBegun(c, ev, st, j);
    var b := PassStarts(c, ev, st, j);
    if b.Some? { assert b == Some(b.value); }
  }

  lemma SolvedEarlierIs(c: Compiled, ev: Event, st: State, k: nat)
    requires GoesOn(c, ev, st)
    ensures SolvedEarlier(c, ev, st, k) <==>
            || SolvedBySubmission(c, ev, st)
            || SolvedFrom(Passes(c, ev.answers), SolvingPasses(c, ev.answers), FirstPass(ev), Entering(c, ev, st), k)
  {
    var turn, solves := Passes(c, ev.answers), SolvingPasses(c, ev.answers);
    if SolvedEarlier(c, ev, st, k) && !SolvedBySubmission(c, ev, st) {
      var ch :| Solves(ch) && Earlier(c, ev, st, k, ch);
      var j: nat :| j < k && PassDoes(c, ev.answers(j), PassStarts(c, ev, st, j), ch);
      EarlierPass(c, ev, st, j);
    }
    if j: nat :| j < k && SolvesAt(turn, solves, FirstPass(ev), Entering(c, ev, st), j) {
      EarlierPass(c, ev, st, j);
      var ch :| Solves(ch) && PassDoes(c, ev.answers(j), PassStarts(c, ev, st, j), ch);
      assert Earlier(c, ev, st, k, ch);
    }
    if ev.Submission? {
      if ch :| Solves(ch) && SubmissionDoes(c, ev, st, ch) { assert Earlier(c, ev, st, k, ch); }
    }
  }

  lemma EnteringIsOk(c: Compiled, ev: Event, st: State)
    requires Coherent(c) && Inv(c, st) && !st.granted
    ensures Inv(c, Entering(c, ev, st)) && Keeps(st, Entering(c, ev, st))
    ensures Entering(c, ev, st).failures ==
            if SolvedBySubmission(c, ev, st) then 0 else st.failures + Charged(c, ev, st)
  {
    if ev.Submission? {
      SubmitKeeps(c, ev.answers(0), st, ev.kind, ev.choice, ev.cont);
      SubmissionFailures(c, ev, st);
    }
  }

  /** The failures a pass of the event finds: none once a captcha was solved in it, else those
      from before and the credential the event itself turned down. */
  lemma FailuresInEvent(c: Compiled, ev: Event, st: State, k: nat)
    requires Coherent(c) && Inv(c, st) && PassStarts(c, ev, st, k).Some?
    ensures PassStarts(c, ev, st, k).value.failures ==
            if SolvedEarlier(c, ev, st, k) then 0 else st.failures + Charged(c, ev, st)
  {
    StartsAsBegun(c, ev, st, k);
    EnteringIsOk(c, ev, st);
    SolvedEarlierIs(c, ev, st, k);
    LoopFailures(c, ev.answers, FirstPass(ev), Entering(c, ev, st), k);
  }

  /** The event solves a captcha. */
  ghost predicate SolvesCaptcha(c: Compiled, ev: Event, st: State) { exists ch :: Solves(ch) && Causes(c, ev, st, ch) }

  lemma StoppedIsLast(turn: (nat, State) -> Turn, i: nat, st: State, last: nat, k: nat)
    requires i <= last < k && Begun(turn, i, st, last).Some? && turn(last, Begun(turn, i, st, last).value).Stop?
    ensures Begun(turn, i, st, k).None?
  {
    NextBegun(turn, i, st, last);
    if Begun(turn, i, st, k).Some? { BegunBefore(turn, i, st, last + 1, k); }
  }

  lemma LastStops(c: Compiled, answers: nat -> Env, i: nat, st: State)
    requires Coherent(c) && Inv(c, st)
    ensures var turn, last := Passes(c, answers), LastPass(c, answers, i, st);
            Begun(turn, i, st, last).Some? && turn(last, Begun(turn, i, st, last).value).Stop?
  {
    LastPassStops(c, answers, i, st);
  }

  lemma LastIsLast(c: Compiled, answers: nat -> Env, i: nat, st: State, k: nat)
    requires Coherent(c) && Inv(c, st) && k > LastPass(c, answers, i, st)
    ensures Begun(Passes(c, answers), i, st, k).None?
  {
    LastStops(c, answers, i, st);
    StoppedIsLast(Passes(c, answers), i, st, LastPass(c, answers, i, st), k);
  }

  lemma EarlierIsAll(c: Compiled, ev: Event, st: State, k: nat)
    requires forall j: nat :: j >= k ==> PassStarts(c, ev, st, j).None?
    ensures SolvesCaptcha(c, ev, st) <==> SolvedEarlier(c, ev, st, k)
  {
    if ch :| Solves(ch) && Causes(c, ev, st, ch) { assert Earlier(c, ev, st, k, ch); }
    if ch :| Solves(ch) && Earlier(c, ev, st, k, ch) { assert Causes(c, ev, st, ch); }
  }

  lemma EndIsEnd(c: Compiled, ev: Event, st: State)
    requires Coherent(c) && Inv(c, st) && GoesOn(c, ev, st) && Inv(c, Entering(c, ev, st))
    ensures var i, st1 := FirstPass(ev), Entering(c, ev, st);
            forall j: nat :: j >= LastPass(c, ev.answers, i, st1) + 1 ==> PassStarts(c, ev, st, j).None?
  {
    var i, st1 := FirstPass(ev), Entering(c, ev, st);
    forall j: nat | j >= LastPass(c, ev.answers, i, st1) + 1 ensures PassStarts(c, ev, st, j).None? {
      StartsAsBegun(c, ev, st, j);
      LastIsLast(c, ev.answers, i, st1, j);
    }
  }

  lemma NextIsLoop(c: Compiled, ev: Event, st: State)
    requires Coherent(c) && Inv(c, st) && !st.granted && Inv(c, Entering(c, ev, st))
    ensures Next(c, ev, st).state ==
            if GoesOn(c, ev, st) then Advance(c, ev.answers, FirstPass(ev), Entering(c, ev, st)).state
            else Entering(c, ev, st)
  {
    if ev.Submission? { SubmissionGoesOn(c, ev, st, TurnOf(c, ev, st)); }
  }

  lemma SolvedInLoop(c: Compiled, ev: Event, st: State, st1: State)
    requires Coherent(c) && Inv(c, st) && GoesOn(c, ev, st) && Inv(c, st1) && st1 == Entering(c, ev, st)
    ensures SolvesCaptcha(c, ev, st) <==> SolvedBySubmission(c, ev, st) || LoopSolves(c, ev.answers, FirstPass(ev), st1)
  {
    var k := LastPass(c, ev.answers, FirstPass(ev), st1) + 1;
    SolvedEarlierIs(c, ev, st, k);
    EndIsEnd(c, ev, st);
    EarlierIsAll(c, ev, st, k);
  }

  lemma LoopEnds(c: Compiled, ev: Event, st: State, st1: State)
    requires Coherent(c) && Inv(c, st) && GoesOn(c, ev, st) && Inv(c, st1) && st1 == Entering(c, ev, st)
    ensures Next(c, ev, st).state.failures == if LoopSolves(c, ev.answers, FirstPass(ev), st1) then 0 else st1.failures
  {
    var r := Next(c, ev, st).state;
    NextIsLoop(c, ev, st);
    AdvanceFailures(c, ev.answers, FirstPass(ev), st1);
  }

  lemma FailuresAfterLoop(c: Compiled, ev: Event, st: State, st1: State)
    requires Coherent(c) && Inv(c, st) && GoesOn(c, ev, st) && Inv(c, st1) && st1 == Entering(c, ev, st)
    requires st1.failures == if SolvedBySubmission(c, ev, st) then 0 else st.failures + Charged(c, ev, st)
    ensures Next(c, ev, st).state.failures ==
            if SolvesCaptcha(c, ev, st) then 0 else st.failures + Charged(c, ev, st)
  {
    LoopEnds(c, ev, st, st1);
    SolvedInLoop(c, ev, st, st1);
  }

  /** What an event makes of the failures. */
  lemma FailuresAfterEvent(c: Compiled, ev: Event, st: State)
    requires Coherent(c) && Inv(c, st)
    ensures Next(c, ev, st).state.failures ==
            if SolvesCaptcha(c, ev, st) then 0 else st.failures + Charged(c, ev, st)
  {
    if st.granted {
      GrantedDoesNothing(c, ev, st);
    } else if GoesOn(c, ev, st) {
      EnteringIsOk(c, ev, st);
      FailuresAfterLoop(c, ev, st, Entering(c, ev, st));
    } else {
      EnteringIsOk(c, ev, st);
      NextIsLoop(c, ev, st);
      NoPasses(c, ev, st);
    }
  }

  lemma GrantedDoesNothing(c: Compiled, ev: Event, st: State)
    requires Coherent(c) && Inv(c, st) && st.granted
    ensures Next(c, ev, st).state == st && !SolvesCaptcha(c, ev, st)
  {
    forall k: nat ensures PassStarts(c, ev, st, k).None? {}
  }

  lemma NoPasses(c: Compiled, ev: Event, st: State)
    requires !st.granted && !GoesOn(c, ev, st)
    ensures SolvesCaptcha(c, ev, st) <==> SolvedBySubmission(c, ev, st)
  {
    forall k: nat ensures PassStarts(c, ev, st, k).None? { StartsAsBegun(c, ev, st, k); }
    if ch :| Solves(ch) && SubmissionDoes(c, ev, st, ch) { assert Causes(c, ev, st, ch); }
  }

  // ----- whole logins -----

  /** The credentials turned down since the last captcha was solved. */
  ghost function FailuresSince(c: Compiled, events: seq<Event>, st: State): nat
    requires Coherent(c) && Inv(c, st)
  {
    if events == [] then 0
    else
      var n := |events| - 1;
      var before := After(c, events[..n], st);
      if SolvesCaptcha(c, events[n], before) then 0
      else FailuresSince(c, events[..n], st) + Charged(c, events[n], before)
  }

  lemma {:induction false} FailuresAreCounted(c: Compiled, events: seq<Event>, st: State)
    requires Coherent(c) && Inv(c, st) && Initial(st)
    ensures After(c, events, st).failures == FailuresSince(c, events, st)
  {
    if events != [] {
      var n := |events| - 1;
      FailuresAreCounted(c, events[..n], st);
      LastEvent(c, events, st);
      FailuresAfterEvent(c, events[n], After(c, events[..n], st));
    }
  }

  // ----- the records a pass finds -----

  /** What happened in the login so far: in its events, and in this event before pass k. */
  ghost function SoFar(c: Compiled, events: seq<Event>, ev: Event, k: nat, st: State): Change -> bool
    requires Coherent(c) && Inv(c, st)
  {
    ch => Happened(c, events, st)(ch) || Earlier(c, ev, After(c, events, st), k, ch)
  }

  ghost predicate PassesHappened(
      happened: Change -> bool, c: Compiled, answers: nat -> Env, i: nat, st: State, k: nat)
  {
    forall j: nat, ch :: i <= j < k && PassDoes(c, answers(j), Begun(Passes(c, answers), i, st, j), ch) ==> happened(ch)
  }

  /** Pass j hands a property on. */
  ghost predicate HandsOn(turn: (nat, State) -> Turn, p: State -> bool, i: nat, st: State, j: nat)
    requires i <= j
  {
    var b := Begun(turn, i, st, j);
    b.Some? && p(b.value) ==> p(turn(j, b.value).state)
  }

  lemma {:induction false} BegunInherits(turn: (nat, State) -> Turn, p: State -> bool, i: nat, st: State, k: nat)
    requires p(st) && i <= k && Begun(turn, i, st, k).Some?
    requires forall j: nat :: i <= j < k ==> HandsOn(turn, p, i, st, j)
    ensures p(Begun(turn, i, st, k).value)
    decreases k
  {
    if i < k {
      NextBegun(turn, i, st, k - 1);
      BegunInherits(turn, p, i, st, k - 1);
      assert HandsOn(turn, p, i, st, k - 1);
    }
  }

  ghost function Sourced(happened: Change -> bool, c: Compiled, start: string): State -> bool
  {
    (s: State) => Inv(c, s) && Justified(happened, c, start, s)
  }

  lemma BegunJustified(
      happened: Change -> bool, c: Compiled, start: string, answers: nat -> Env, i: nat, st: State, k: nat)
    requires Coherent(c) && Inv(c, st) && Justified(happened, c, start, st) && i <= k
    requires Begun(Passes(c, answers), i, st, k).Some? && PassesHappened(happened, c, answers, i, st, k)
    ensures Justified(happened, c, start, Begun(Passes(c, answers), i, st, k).value)
  {
    var turn, p := Passes(c, answers), Sourced(happened, c, start);
    forall j: nat | i <= j < k ensures HandsOn(turn, p, i, st, j) {
      PassHandsOn(happened, c, start, answers, i, st, j, k);
    }
    assert p(st);
    BegunInherits(turn, p, i, st, k);
    assert p(Begun(turn, i, st, k).value);
  }

  lemma PassHandsOn(
      happened: Change -> bool, c: Compiled, start: string, answers: nat -> Env, i: nat, st: State, j: nat, k: nat)
    requires Coherent(c) && i <= j < k && PassesHappened(happened, c, answers, i, st, k)
    ensures HandsOn(Passes(c, answers), Sourced(happened, c, start), i, st, j)
  {
    var b := Begun(Passes(c, answers), i, st, j);
    if b.Some? && Inv(c, b.value) && Justified(happened, c, start, b.value) {
      PassOk(c, answers(j), b.value);
      OnePassJustified(happened, c, start, answers(j), b.value);
    }
  }

  lemma OnePassJustified(happened: Change -> bool, c: Compiled, start: string, e: Env, b: State)
    requires Coherent(c) && Inv(c, b) && Justified(happened, c, start, b)
    requires forall ch :: PassDoes(c, e, Some(b), ch) ==> happened(ch)
    ensures Justified(happened, c, start, PassOnce(c, e, b).state)
  {
    var ch := PassBy(c, e, b);
    assert PassDoes(c, e, Some(b), ch);
    ChangeJustified(happened, c, start, b, PassOnce(c, e, b).state, ch);
  }

  lemma EnteringJustified(happened: Change -> bool, c: Compiled, start: string, ev: Event, st: State)
    requires Coherent(c) && Inv(c, st) && !st.granted && Justified(happened, c, start, st)
    requires forall ch :: Earlier(c, ev, st, 0, ch) ==> happened(ch)
    ensures Justified(happened, c, start, Entering(c, ev, st))
  {
    if ev.Submission? {
      var ch := SubmitBy(c, ev, st);
      assert SubmissionDoes(c, ev, st, ch) && Earlier(c, ev, st, 0, ch);
      ChangeJustified(happened, c, start, st, TurnOf(c, ev, st).state, ch);
    }
  }

  lemma PassesEarlier(happened: Change -> bool, c: Compiled, ev: Event, st: State, k: nat)
    requires GoesOn(c, ev, st) && forall ch :: Earlier(c, ev, st, k, ch) ==> happened(ch)
    ensures PassesHappened(happened, c, ev.answers, FirstPass(ev), Entering(c, ev, st), k)
    ensures forall ch :: Earlier(c, ev, st, 0, ch) ==> happened(ch)
  {
    forall j: nat, ch | FirstPass(ev) <= j < k
        && PassDoes(c, ev.answers(j), Begun(Passes(c, ev.answers), FirstPass(ev), Entering(c, ev, st), j), ch)
      ensures happened(ch)
    {
      StartsAsBegun(c, ev, st, j);
      assert Earlier(c, ev, st, k, ch);
    }
    forall ch | Earlier(c, ev, st, 0, ch) ensures happened(ch) { assert Earlier(c, ev, st, k, ch); }
  }

  lemma PassFindsJustified(happened: Change -> bool, c: Compiled, start: string, ev: Event, st: State, k: nat)
    requires Coherent(c) && Inv(c, st) && Justified(happened, c, start, st) && PassStarts(c, ev, st, k).Some?
    requires forall ch :: Earlier(c, ev, st, k, ch) ==> happened(ch)
    ensures Justified(happened, c, start, PassStarts(c, ev, st, k).value)
  {
    StartsAsBegun(c, ev, st, k);
    PassesEarlier(happened, c, ev, st, k);
    EnteringIsOk(c, ev, st);
    EnteringJustified(happened, c, start, ev, st);
    BegunJustified(happened, c, start, ev.answers, FirstPass(ev), Entering(c, ev, st), k);
  }

  // ----- and nothing that happened is missing from them -----

  /** The records show that this result was given for this step. */
  predicate Shows(c: Compiled, st: State, leaf: Leaf, res: Result)
  {
    && leaf.kind in st.completed && (leaf.kind in c.parentOf ==> c.parentOf[leaf.kind] in st.completed)
    && (!leaf.captcha ==> leaf.auth.factor in st.factors && (res.subject != "" ==> st.subject == res.subject))
  }

  lemma RecordShows(c: Compiled, st: State, next: State, leaf: Leaf, res: Result)
    requires Changes(c, st, next, Recorded(leaf, res))
    ensures Shows(c, next, leaf, res)
  {
    WithKindsExtends(c, st.completed, leaf.kind);
    if !leaf.captcha { assert next.factors[|st.factors|] == leaf.auth.factor; }
  }

  lemma ShownStays(c: Compiled, st: State, next: State, leaf: Leaf, res: Result)
    requires Shows(c, st, leaf, res) && Keeps(st, next)
    ensures Shows(c, next, leaf, res)
  {
    assert forall x :: x in st.completed ==> x in next.completed;
    assert forall x :: x in st.factors ==> x in next.factors;
    if !leaf.captcha { assert Bound(st); }
  }

  lemma EarlierShows(c: Compiled, ev: Event, st: State, k: nat, leaf: Leaf, res: Result)
    requires Coherent(c) && Inv(c, st) && PassStarts(c, ev, st, k).Some?
    requires Earlier(c, ev, st, k, Recorded(leaf, res))
    ensures Shows(c, PassStarts(c, ev, st, k).value, leaf, res)
  {
    StartsAsBegun(c, ev, st, k);
    EnteringIsOk(c, ev, st);
    if ev.Submission? && SubmissionDoes(c, ev, st, Recorded(leaf, res)) {
      RecordShows(c, st, Entering(c, ev, st), leaf, res);
      ShownUntil(c, ev.answers, FirstPass(ev), Entering(c, ev, st), FirstPass(ev), k, leaf, res);
    } else {
      var j: nat :| j < k && PassDoes(c, ev.answers(j), PassStarts(c, ev, st, j), Recorded(leaf, res));
      StartsAsBegun(c, ev, st, j);
      PassShows(c, ev.answers, FirstPass(ev), Entering(c, ev, st), j, k, leaf, res);
    }
  }

  lemma ShownUntil(c: Compiled, answers: nat -> Env, i: nat, st: State, j: nat, k: nat, leaf: Leaf, res: Result)
    requires Coherent(c) && Inv(c, st) && i <= j <= k && Begun(Passes(c, answers), i, st, k).Some?
    requires Begun(Passes(c, answers), i, st, j).Some? ==>
               Shows(c, Begun(Passes(c, answers), i, st, j).value, leaf, res)
    ensures Shows(c, Begun(Passes(c, answers), i, st, k).value, leaf, res)
  {
    KeptUntil(c, answers, i, st, j, k);
    ShownStays(c, Begun(Passes(c, answers), i, st, j).value, Begun(Passes(c, answers), i, st, k).value, leaf, res);
  }

  /** What a turn establishes for good still holds when a later pass begins. */
  lemma TurnLasts(turn: (nat, State) -> Turn, ok: State -> bool, rel: (State, State) -> bool, p: State -> bool,
                  i: nat, st: State, j: nat, k: nat)
    requires Preserves(turn, ok) && Relates(turn, ok, rel) && ok(st) && i <= j < k
    requires Begun(turn, i, st, k).Some? && Begun(turn, i, st, j).Some? && p(turn(j, Begun(turn, i, st, j).value).state)
    requires forall x, y :: p(x) && rel(x, y) ==> p(y)
    ensures p(Begun(turn, i, st, k).value)
  {
    NextBegun(turn, i, st, j);
    BegunRelates(turn, ok, rel, i, st, j + 1, k);
  }

  function Showing(c: Compiled, leaf: Leaf, res: Result): State -> bool { (s: State) => Shows(c, s, leaf, res) }

  lemma ShowingLasts(c: Compiled, leaf: Leaf, res: Result)
    ensures forall x, y :: Showing(c, leaf, res)(x) && Kept()(x, y) ==> Showing(c, leaf, res)(y)
  {
    forall x, y | Showing(c, leaf, res)(x) && Kept()(x, y) ensures Showing(c, leaf, res)(y) {
      ShownStays(c, x, y, leaf, res);
    }
  }

  lemma PassShowsNext(c: Compiled, e: Env, b: Maybe<State>, leaf: Leaf, res: Result)
    requires PassDoes(c, e, b, Recorded(leaf, res))
    ensures b.Some? && Showing(c, leaf, res)(PassOnce(c, e, b.value).state)
  {
    RecordShows(c, b.value, PassOnce(c, e, b.value).state, leaf, res);
  }

  lemma PassShows(c: Compiled, answers: nat -> Env, i: nat, st: State, j: nat, k: nat, leaf: Leaf, res: Result)
    requires Coherent(c) && Inv(c, st) && i <= j < k && Begun(Passes(c, answers), i, st, k).Some?
    requires PassDoes(c, answers(j), Begun(Passes(c, answers), i, st, j), Recorded(leaf, res))
    ensures Shows(c, Begun(Passes(c, answers), i, st, k).value, leaf, res)
  {
    var turn := Passes(c, answers);
    PassShowsNext(c, answers(j), Begun(turn, i, st, j), leaf, res);
    PassesPreserve(c, answers);
    PassesRelate(c, answers);
    ShowingLasts(c, leaf, res);
    assert Fit(c)(st);
    TurnLasts(turn, Fit(c), Kept(), Showing(c, leaf, res), i, st, j, k);
    assert Showing(c, leaf, res)(Begun(turn, i, st, k).value);
  }

  lemma LoopShows(c: Compiled, answers: nat -> Env, i: nat, st: State, k: nat, leaf: Leaf, res: Result)
    requires Coherent(c) && Inv(c, st) && i <= k
    requires PassDoes(c, answers(k), BeforePass(c, answers, i, st, k), Recorded(leaf, res))
    ensures Shows(c, Advance(c, answers, i, st).state, leaf, res)
  {
    var b := BeforePass(c, answers, i, st, k).value;
    AdvanceFromPass(c, answers, i, st, k);
    var t := PassOnce(c, answers(k), b);
    PassOk(c, answers(k), b);
    AdvanceFrom(c, answers, k, b, t);
    RecordShows(c, b, t.state, leaf, res);
    ShownStays(c, t.state, Advance(c, answers, i, st).state, leaf, res);
  }

  lemma EventShows(c: Compiled, ev: Event, st: State, leaf: Leaf, res: Result)
    requires Coherent(c) && Inv(c, st) && Causes(c, ev, st, Recorded(leaf, res))
    ensures Shows(c, Next(c, ev, st).state, leaf, res)
  {
    if st.granted { GrantedCausesNothing(c, ev, st, Recorded(leaf, res)); }
    EnteringIsOk(c, ev, st);
    NextIsLoop(c, ev, st);
    if ev.Submission? && SubmissionDoes(c, ev, st, Recorded(leaf, res)) {
      RecordShows(c, st, Entering(c, ev, st), leaf, res);
      if GoesOn(c, ev, st) {
        ShownStays(c, Entering(c, ev, st), Advance(c, ev.answers, FirstPass(ev), Entering(c, ev, st)).state, leaf, res);
      }
    } else {
      var k: nat :| PassDoes(c, ev.answers(k), PassStarts(c, ev, st, k), Recorded(leaf, res));
      StartsAsBegun(c, ev, st, k);
      LoopShows(c, ev.answers, FirstPass(ev), Entering(c, ev, st), k, leaf, res);
    }
  }

  lemma GrantedCausesNothing(c: Compiled, ev: Event, st: State, ch: Change)
    requires st.granted
    ensures !Causes(c, ev, st, ch)
  {
    forall k: nat ensures PassStarts(c, ev, st, k).None? {}
  }

  lemma ShownAfter(c: Compiled, events: seq<Event>, n: nat, st: State, before: State, leaf: Leaf, res: Result)
    requires Coherent(c) && Inv(c, st) && n < |events| && before == After(c, events[..n], st)
    requires Causes(c, events[n], before, Recorded(leaf, res))
    ensures Shows(c, After(c, events[..n + 1], st), leaf, res)
  {
    EventShows(c, events[n], before, leaf, res);
    AfterSnoc(c, events, n, st);
  }

  lemma ShownAtTheEnd(c: Compiled, events: seq<Event>, n: nat, st: State, leaf: Leaf, res: Result)
    requires Coherent(c) && Inv(c, st) && n <= |events| && Shows(c, After(c, events[..n], st), leaf, res)
    ensures Shows(c, After(c, events, st), leaf, res)
  {
    PrefixKeeps(c, events, n, st);
    ShownStays(c, After(c, events[..n], st), After(c, events, st), leaf, res);
  }

  lemma HappenedAt(c: Compiled, events: seq<Event>, st: State, ch: Change) returns (n: nat)
    requires Coherent(c) && Inv(c, st) && Happened(c, events, st)(ch)
    ensures n < |events| && Causes(c, events[n], After(c, events[..n], st), ch)
  {
    n :| n < |events| && Causes(c, events[n], After(c, events[..n], st), ch);
  }

  lemma LoginShows(c: Compiled, events: seq<Event>, st: State, leaf: Leaf, res: Result)
    requires Coherent(c) && Inv(c, st) && Happened(c, events, st)(Recorded(leaf, res))
    ensures Shows(c, After(c, events, st), leaf, res)
  {
    var n := HappenedAt(c, events, st, Recorded(leaf, res));
    ShownAfter(c, events, n, st, After(c, events[..n], st), leaf, res);
    ShownAtTheEnd(c, events, n + 1, st, leaf, res);
  }

  // ----- the context -----

  /** Some result given so far offered this factor. */
  ghost predicate FactorGiven(happened: Change -> bool, factor: string)
  {
    exists leaf, res :: happened(Recorded(leaf, res)) && !leaf.captcha && leaf.auth.factor == factor
  }

  /** The session stands in for this kind: Primary's, or that of a rule its methods show. */
  predicate StandsInFor(c: Compiled, e: Entry, kind: string)
  {
    kind == c.primary.Kind() || exists i :: 0 <= i < |c.rules| && c.rules[i].Kind() == kind && Shown(e, c.rules[i])
  }

  /** The session the chain started with, where it is good for this subject. */
  function Standing(start: State, subject: string): Maybe<Entry>
  {
    if start.entry.Some? && !start.reauth && subject != "" && start.entry.value.subject == subject then start.entry
    else None
  }

  /** The context tells what happened, no more and no less. */
  ghost predicate Tells(happened: Change -> bool, c: Compiled, start: State, ctx: Context)
  {
    && (forall kind :: kind in ctx.kinds <==>
          Answered(happened, c, kind) || (ctx.inherited.Some? && StandsInFor(c, ctx.inherited.value, kind)))
    && (forall f :: f in ctx.factors <==> FactorGiven(happened, f))
    && SubjectNamed(happened, start.subject, ctx.subject)
    && (forall leaf, res :: happened(Recorded(leaf, res)) && !leaf.captcha && res.subject != "" ==>
          ctx.subject == res.subject)
    && ctx.inherited == Standing(start, ctx.subject)
  }

  ghost predicate AllShown(happened: Change -> bool, c: Compiled, b: State)
  {
    forall leaf, res :: happened(Recorded(leaf, res)) ==> Shows(c, b, leaf, res)
  }

  lemma KindsAreExact(happened: Change -> bool, c: Compiled, start: string, b: State, kind: string)
    requires Justified(happened, c, start, b) && AllShown(happened, c, b)
    ensures kind in b.completed <==> Answered(happened, c, kind)
  {
    if Answered(happened, c, kind) {
      var leaf, res :| happened(Recorded(leaf, res)) && Completes(c, leaf, kind);
      assert Shows(c, b, leaf, res);
    }
  }

  lemma FactorsAreExact(happened: Change -> bool, c: Compiled, start: string, b: State, f: string)
    requires Justified(happened, c, start, b) && AllShown(happened, c, b)
    ensures f in b.factors <==> FactorGiven(happened, f)
  {
    if f in b.factors {
      var j :| 0 <= j < |b.factors| && b.factors[j] == f;
      assert Proved(happened, b.factors[j], b.verified[j]);
    }
    if FactorGiven(happened, f) {
      var leaf, res :| happened(Recorded(leaf, res)) && !leaf.captcha && leaf.auth.factor == f;
      assert Shows(c, b, leaf, res);
    }
  }

  lemma KindTold(happened: Change -> bool, c: Compiled, start: State, b: State, ctx: Context, kind: string)
    requires Justified(happened, c, start.subject, b) && AllShown(happened, c, b) && ctx == ContextOf(c, b)
    ensures kind in ctx.kinds <==>
            Answered(happened, c, kind) || (ctx.inherited.Some? && StandsInFor(c, ctx.inherited.value, kind))
  {
    KindsAreExact(happened, c, start.subject, b, kind);
    LoginChoice.CompletedMeans(c, b, kind);
    if StandsIn(b) { LoginChoice.InheritedMeans(c.primary, c.rules, b.entry.value, kind); }
  }

  lemma SubjectTold(happened: Change -> bool, c: Compiled, b: State, ctx: Context, leaf: Leaf, res: Result)
    requires AllShown(happened, c, b) && ctx == ContextOf(c, b)
    requires happened(Recorded(leaf, res)) && !leaf.captcha && res.subject != ""
    ensures ctx.subject == res.subject
  {
    assert Shows(c, b, leaf, res);
  }

  lemma InheritedTold(happened: Change -> bool, c: Compiled, start: State, b: State, ctx: Context)
    requires Justified(happened, c, start.subject, b) && ctx == ContextOf(c, b)
    requires b.entry == start.entry && b.reauth == start.reauth
    ensures SubjectNamed(happened, start.subject, ctx.subject) && ctx.inherited == Standing(start, ctx.subject)
  {
  }

  lemma ContextTells(happened: Change -> bool, c: Compiled, start: State, b: State, ctx: Context)
    requires Justified(happened, c, start.subject, b) && AllShown(happened, c, b) && ctx == ContextOf(c, b)
    requires b.entry == start.entry && b.reauth == start.reauth
    ensures Tells(happened, c, start, ctx)
  {
    forall kind
      ensures kind in ctx.kinds <==>
              Answered(happened, c, kind) || (ctx.inherited.Some? && StandsInFor(c, ctx.inherited.value, kind))
    {
      KindTold(happened, c, start, b, ctx, kind);
    }
    forall f ensures f in ctx.factors <==> FactorGiven(happened, f) {
      FactorsAreExact(happened, c, start.subject, b, f);
    }
    forall leaf, res | happened(Recorded(leaf, res)) && !leaf.captcha && res.subject != ""
      ensures ctx.subject == res.subject
    {
      SubjectTold(happened, c, b, ctx, leaf, res);
    }
    InheritedTold(happened, c, start, b, ctx);
  }

  lemma PassIsKept(c: Compiled, ev: Event, st: State, k: nat)
    requires Coherent(c) && Inv(c, st) && PassStarts(c, ev, st, k).Some?
    ensures Keeps(st, PassStarts(c, ev, st, k).value)
  {
    StartsAsBegun(c, ev, st, k);
    EnteringIsOk(c, ev, st);
    KeptUntil(c, ev.answers, FirstPass(ev), Entering(c, ev, st), FirstPass(ev), k);
    KeepsTwice(st, Entering(c, ev, st), PassStarts(c, ev, st, k).value);
  }

  lemma SoFarIsShown(c: Compiled, events: seq<Event>, ev: Event, k: nat, st: State)
    requires Coherent(c) && Inv(c, st) && PassStarts(c, ev, After(c, events, st), k).Some?
    ensures AllShown(SoFar(c, events, ev, k, st), c, PassStarts(c, ev, After(c, events, st), k).value)
  {
    var before, b := After(c, events, st), PassStarts(c, ev, After(c, events, st), k).value;
    PassIsKept(c, ev, before, k);
    forall leaf, res | SoFar(c, events, ev, k, st)(Recorded(leaf, res)) ensures Shows(c, b, leaf, res) {
      if Happened(c, events, st)(Recorded(leaf, res)) {
        LoginShows(c, events, st, leaf, res);
        ShownStays(c, before, b, leaf, res);
      } else {
        EarlierShows(c, ev, before, k, leaf, res);
      }
    }
  }

  lemma SoFarJustifies(c: Compiled, events: seq<Event>, ev: Event, k: nat, st: State)
    requires Coherent(c) && Inv(c, st) && Initial(st) && PassStarts(c, ev, After(c, events, st), k).Some?
    ensures Justified(SoFar(c, events, ev, k, st), c, st.subject, PassStarts(c, ev, After(c, events, st), k).value)
  {
    var happened := SoFar(c, events, ev, k, st);
    assert EventsHappen(happened, c, events, st) by { EventsAreSoFar(c, events, ev, k, st); }
    AfterJustified(happened, c, st.subject, events, |events|, st);
    TakeAll(events);
    PassFindsJustified(happened, c, st.subject, ev, After(c, events, st), k);
  }

  lemma EventsAreSoFar(c: Compiled, events: seq<Event>, ev: Event, k: nat, st: State)
    requires Coherent(c) && Inv(c, st)
    ensures EventsHappen(SoFar(c, events, ev, k, st), c, events, st)
  {
    forall n: nat, ch | n < |events| && Causes(c, events[n], After(c, events[..n], st), ch)
      ensures SoFar(c, events, ev, k, st)(ch)
    {
      assert Happened(c, events, st)(ch);
    }
  }

  /** The failures pass k of this event finds, by what happened. */
  ghost function FailuresShown(c: Compiled, events: seq<Event>, ev: Event, k: nat, st: State): nat
    requires Coherent(c) && Inv(c, st)
  {
    var before := After(c, events, st);
    if SolvedEarlier(c, ev, before, k) then 0 else FailuresSince(c, events, st) + Charged(c, ev, before)
  }

  lemma PassFailuresShown(c: Compiled, events: seq<Event>, ev: Event, k: nat, st: State, b: State)
    requires Coherent(c) && Inv(c, st) && Initial(st) && PassStarts(c, ev, After(c, events, st), k) == Some(b)
    ensures b.failures == FailuresShown(c, events, ev, k, st)
  {
    FailuresInEvent(c, ev, After(c, events, st), k);
    FailuresAreCounted(c, events, st);
  }

  lemma PassTells(c: Compiled, events: seq<Event>, ev: Event, k: nat, st: State, b: State)
    requires Coherent(c) && Inv(c, st) && Initial(st) && PassStarts(c, ev, After(c, events, st), k) == Some(b)
    ensures Tells(SoFar(c, events, ev, k, st), c, st, ContextOf(c, b))
  {
    SoFarJustifies(c, events, ev, k, st);
    SoFarIsShown(c, events, ev, k, st);
    PassIsKept(c, ev, After(c, events, st), k);
    ContextTells(SoFar(c, events, ev, k, st), c, st, b, ContextOf(c, b));
  }

  /** Over every login, what a pass shows to predicates, decider and assessor: as failures the
      credentials turned down since the last captcha was solved; as kinds those answered with a
      result and those the session stands in for; as factors those of the results; as subject the
      one a result named, else the one the chain started with. */
  lemma ContextIsWhatHappened(s: Spec, events: seq<Event>, ev: Event, k: nat, st: State, b: State)
    requires Compiles(s) && Initial(st) && PassStarts(CompiledOf(s), ev, Login(s, events, st), k) == Some(b)
    ensures var c := CompiledOf(s);
            && Coherent(c) && Inv(c, st) && Tells(SoFar(c, events, ev, k, st), c, st, ContextOf(c, b))
            && ContextOf(c, b).failures == FailuresShown(c, events, ev, k, st) && ContextOf(c, b).risk == b.risk
  {
    var c := CompiledOf(s);
    PassTells(c, events, ev, k, st, b);
    PassFailuresShown(c, events, ev, k, st, b);
  }

  // ----- a captcha after so many failures -----

  /** Rule i is the only captcha rule, and applies from n failures on. */
  ghost predicate Threshold(c: Compiled, e: Env, i: nat, n: nat)
  {
    && i < |c.rules| && c.rules[i].Captcha() && n > 0
    && (forall j :: 0 <= j < |c.rules| && j != i ==> !c.rules[j].Captcha())
    && forall ctx: Context :: e.when(i, ctx) == Some(ctx.failures >= n)
  }

  lemma ThresholdDue(c: Compiled, e: Env, st: State, i: nat, n: nat)
    requires Threshold(c, e, i, n)
    ensures FirstRule(c, e, st, true, 0) == if st.failures >= n then Some(c.rules[i]) else None
  {
    FirstRuleMeans(c, e, st, true, 0);
    assert Matches(c, e, st, i) <==> st.failures >= n;
  }

  lemma NoCaptchaChosen(c: Compiled, e: Env, st: State)
    requires Coherent(c) && e.decider.None? && FirstRule(c, e, st, true, 0).None? && Choose(c, e, st).Run?
    ensures !Choose(c, e, st).step.Captcha()
  {
    FirstRuleMeans(c, e, st, false, 0);
    if st.risk.Some? { EligibleMeans(c, st, st.risk.value); }
  }

  lemma ThresholdChooses(c: Compiled, e: Env, st: State, i: nat, n: nat)
    requires Coherent(c) && Threshold(c, e, i, n) && e.decider.None? && !(st.registration && c.registration.None?)
    ensures Choose(c, e, st) == Run(c.rules[i]) <==> st.failures >= n
  {
    ThresholdDue(c, e, st, i, n);
    if st.failures < n && Choose(c, e, st).Run? { NoCaptchaChosen(c, e, st); }
  }

  lemma ThresholdPass(c: Compiled, e: Env, b: State, i: nat, n: nat)
    requires Coherent(c) && Threshold(c, e, i, n) && e.decider.None? && e.assessor.None?
    requires !(b.registration && c.registration.None?)
    ensures PassOnce(c, e, b) == Act(c, e, b) && (Choose(c, e, b) == Run(c.rules[i]) <==> b.failures >= n)
  {
    ThresholdChooses(c, e, b, i, n);
  }

  /** With such a rule and no decider, a pass of any login runs the captcha exactly when at least
      n credentials were turned down since the last one was solved. */
  lemma CaptchaAfterFailures(
      s: Spec, events: seq<Event>, ev: Event, k: nat, st: State, b: State, i: nat, n: nat)
    requires Compiles(s) && Initial(st) && PassStarts(CompiledOf(s), ev, Login(s, events, st), k) == Some(b)
    requires Threshold(CompiledOf(s), ev.answers(k), i, n) && ev.answers(k).decider.None?
    requires ev.answers(k).assessor.None? && !(st.registration && CompiledOf(s).registration.None?)
    ensures var c, e := CompiledOf(s), ev.answers(k);
            && Coherent(c) && Inv(c, st) && PassOnce(c, e, b) == Act(c, e, b)
            && (Choose(c, e, b) == Run(c.rules[i]) <==> FailuresShown(c, events, ev, k, st) >= n)
  {
    var c := CompiledOf(s);
    PassFailuresShown(c, events, ev, k, st, b);
    ChainIsFixed(c, events, ev, k, st, b);
    ThresholdPass(c, ev.answers(k), b, i, n);
  }

  lemma ChainIsFixed(c: Compiled, events: seq<Event>, ev: Event, k: nat, st: State, b: State)
    requires Coherent(c) && Inv(c, st) && PassStarts(c, ev, After(c, events, st), k) == Some(b)
    ensures b.registration == st.registration
  {
    PassIsKept(c, ev, After(c, events, st), k);
  }
}
