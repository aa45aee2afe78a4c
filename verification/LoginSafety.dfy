/** What every event of a login keeps, for every embedder and every sequence of events: the
    record of completed steps, the bound subject, termination of the pass loop, and what a
    grant guarantees. */
module LoginSafety {
  import opened Maybes
  import opened Sequences
  import opened LoginCompile
  import opened LoginLookup
  import opened LoginRun

  // ----- the invariant -----

  /** The factor a completed kind contributed: one for a factor step, none for a captcha or a
      one-of step. */
  function FactorOf(c: Compiled): string -> seq<string>
  {
    k =>
      if k in c.byKind && c.byKind[k].Single? && !c.byKind[k].leaf.captcha then [c.byKind[k].leaf.auth.factor] else []
  }

  /** Completed kinds are declared, distinct, and closed under "inner step to one-of step";
      Registration is among them only in a registration chain. */
  ghost predicate KindsOk(c: Compiled, completed: seq<string>, registration: bool)
  {
    && Distinct(completed)
    && (forall k :: k in completed ==> k in c.byKind)
    && (forall k :: k in completed && k in c.parentOf ==> c.parentOf[k] in completed)
    && (forall k :: k in completed && IsRegistration(c, k) ==> registration)
  }

  /** Each recorded factor comes from one completed step, in order. */
  ghost predicate FactorsOk(c: Compiled, factors: seq<string>, completed: seq<string>)
  {
    factors == Gather(FactorOf(c), completed)
  }

  /** Whether a completed kind claims AAL3, for the kinds that contribute a factor. */
  function MarkOf(c: Compiled): string -> seq<bool>
  {
    k =>
      if k in c.byKind && c.byKind[k].Single? && !c.byKind[k].leaf.captcha then [c.byKind[k].leaf.auth.strong] else []
  }

  function Backed(): (bool, bool) -> bool { (strong: bool, verified: bool) => strong ==> verified }

  /** Each factor of a step that claims AAL3 came from a result that verified the user. */
  ghost predicate ProofsOk(c: Compiled, verified: seq<bool>, completed: seq<string>)
  {
    Pairwise(Backed(), Gather(MarkOf(c), completed), verified)
  }

  /** A completed step that binds the subject left it bound, and so did any factor. */
  ghost predicate SubjectOk(c: Compiled, subject: string, factors: seq<string>, completed: seq<string>)
  {
    && (forall k :: k in completed && k in c.binders ==> subject != "")
    && (factors != [] ==> subject != "")
  }

  /** A step that may be passed over: a one-of step written so, other than Primary. */
  predicate Skippable(c: Compiled, k: string)
  {
    k in c.byKind && c.byKind[k].Choice? && c.byKind[k].skip && k != c.primary.Kind()
  }

  predicate SkippedOk(c: Compiled, skipped: seq<string>) { forall k :: k in skipped ==> Skippable(c, k) }

  /** s may run: it is declared and not yet done (a captcha: not settled), Registration only in
      a registration chain, and any step that does not bind the subject only after it is bound. */
  predicate CanRun(c: Compiled, subject: string, registration: bool, failures: nat, completed: seq<string>, s: Step)
  {
    && Known(c, s)
    && (if s.Captcha() then !(s.Kind() in completed && failures == 0) else s.Kind() !in completed)
    && (IsRegistration(c, s.Kind()) ==> registration)
    && (s.Captcha() || s.Kind() in c.binders || subject != "")
  }

  predicate Runnable(c: Compiled, st: State, s: Step)
  {
    CanRun(c, st.subject, st.registration, st.failures, st.completed, s)
  }

  predicate ActiveOk(c: Compiled, st: State)
  {
    st.active != "" ==> st.active in c.byKind && Runnable(c, st, c.byKind[st.active])
  }

  /** What the records of a chain satisfy, whatever it is prompting for. */
  ghost predicate Ledger(c: Compiled, subject: string, registration: bool, factors: seq<string>, verified: seq<bool>,
                         completed: seq<string>, skipped: seq<string>)
  {
    && KindsOk(c, completed, registration) && FactorsOk(c, factors, completed) && ProofsOk(c, verified, completed)
    && SubjectOk(c, subject, factors, completed) && SkippedOk(c, skipped)
  }

  ghost predicate Inv(c: Compiled, st: State)
  {
    Ledger(c, st.subject, st.registration, st.factors, st.verified, st.completed, st.skipped) && ActiveOk(c, st)
  }

  /** A chain as it starts: nothing has run, whoever the request or the chooser named. */
  ghost predicate Initial(st: State)
  {
    && st.factors == [] && st.completed == [] && st.skipped == []
    && st.active == "" && st.pending == "" && st.offered == []
    && st.failures == 0 && st.captchaFailures == 0 && st.risk.None?
    && !st.granted && st.solved == 0 && st.verified == []
  }

  lemma InitialHolds(c: Compiled, st: State)
    requires Initial(st)
    ensures Inv(c, st)
  {
  }

  // ----- how far a chain is from its end -----

  /** How many declared kinds a list leaves out. */
  function Left(c: Compiled, done: seq<string>): nat { |c.byKind.Keys - Members(done)| }

  function Uncompleted(c: Compiled, st: State): nat { Left(c, st.completed) }

  function Unskipped(c: Compiled, st: State): nat { Left(c, st.skipped) }

  function Failing(st: State): nat { if st.failures > 0 then 1 else 0 }

  /** Steps recorded so far. */
  function Work(st: State): nat { |st.factors| + st.solved }

  lemma Shrinks(u: set<string>, s: seq<string>, k: string)
    requires k in u && k !in s
    ensures |u - Members(s + [k])| == |u - Members(s)| - 1
  {
    MembersSnoc(s, k);
    assert u - Members(s) == (u - Members(s + [k])) + {k};
  }

  // ----- what one event may change -----

  /** From st to next only progress is made: the records grow, the request stays the same, a
      bound subject stays bound to the same account, and risk demands are fixed once known. */
  ghost predicate Keeps(st: State, next: State)
  {
    && st.completed <= next.completed && st.factors <= next.factors && st.skipped <= next.skipped
    && st.solved <= next.solved
    && st.registration == next.registration && st.reauth == next.reauth
    && st.chooser == next.chooser && st.entry == next.entry
    && (st.subject != "" ==> next.subject != "")
    && (Bound(st) ==> next.subject == st.subject)
    && (st.risk.Some? ==> next.risk == st.risk)
  }

  lemma KeepsBound(st: State, next: State)
    requires Keeps(st, next) && Bound(st)
    ensures Bound(next)
  {
    if st.factors != [] { assert next.factors[0] == st.factors[0]; }
  }

  lemma KeepsTwice(a: State, b: State, d: State)
    requires Keeps(a, b) && Keeps(b, d)
    ensures Keeps(a, d)
  {
    if Bound(a) { KeepsBound(a, b); }
  }

  // ----- recording -----

  /** What is known of a declared kind and of the one-of step it belongs to. */
  predicate ParentOk(c: Compiled, k: string)
  {
    && k in c.byKind && (k in c.binders ==> !c.byKind[k].Captcha())
    && (k in c.parentOf ==>
          var p := c.parentOf[k];
          && p in c.byKind && c.byKind[p].Choice? && p !in c.parentOf && !IsRegistration(c, p)
          && !c.byKind[k].Captcha() && (p in c.binders ==> k in c.binders))
  }

  lemma ParentIsOk(c: Compiled, k: string)
    requires Coherent(c) && k in c.byKind
    ensures ParentOk(c, k)
  {
    assert TopLevel(c, c.primary);
    assert c.registration.Some? ==> TopLevel(c, Single(c.registration.value));
    if k in c.parentOf {
      var p := c.parentOf[k];
      assert InnerOf(c, p, c.byKind[k].leaf);
      assert c.byKind[p].Kind() == p;
      assert c.byKind[p].Choice? && p !in c.parentOf;
      assert p in c.binders <==> p == c.primary.Kind();
    }
  }

  /** next lists done, then a and b where they are new. */
  ghost predicate Extends(done: seq<string>, next: seq<string>, a: string, b: string)
  {
    && done <= next && (Distinct(done) ==> Distinct(next))
    && a in next && b in next && forall x :: x in next ==> x in done || x == a || x == b
  }

  lemma AppendExtends(done: seq<string>, k: string)
    ensures Extends(done, Append(done, k), k, k)
  {
    if k !in done { DistinctSnoc(done, k); }
  }

  lemma AppendCounts(c: Compiled, done: seq<string>, k: string)
    requires k in c.byKind
    ensures Left(c, Append(done, k)) == Left(c, done) - if k in done then 0 else 1
  {
    if k !in done { Shrinks(c.byKind.Keys, done, k); }
  }

  lemma AppendGathers<T>(f: string -> seq<T>, done: seq<string>, k: string)
    ensures Gather(f, Append(done, k)) == Gather(f, done) + if k in done then [] else f(k)
  {
    if k !in done { GatherSnoc(f, done, k); }
  }

  lemma WithKindsExtends(c: Compiled, done: seq<string>, k: string)
    ensures Extends(done, WithKinds(c, done, k), k, if k in c.parentOf then c.parentOf[k] else k)
  {
    var one := Append(done, k);
    AppendExtends(done, k);
    if k in c.parentOf { AppendExtends(one, c.parentOf[k]); }
  }

  lemma WithKindsCounts(c: Compiled, done: seq<string>, k: string)
    requires ParentOk(c, k)
    ensures Left(c, WithKinds(c, done, k)) <= Left(c, done) - if k in done then 0 else 1
  {
    AppendCounts(c, done, k);
    if k in c.parentOf { AppendCounts(c, Append(done, k), c.parentOf[k]); }
  }

  /** A completion contributes what its own kind does; the one-of step adds nothing. */
  lemma WithKindsGathers<T>(c: Compiled, f: string -> seq<T>, done: seq<string>, k: string)
    requires k in c.parentOf ==> f(c.parentOf[k]) == []
    ensures Gather(f, WithKinds(c, done, k)) == Gather(f, done) + if k in done then [] else f(k)
  {
    AppendGathers(f, done, k);
    if k in c.parentOf { AppendGathers(f, Append(done, k), c.parentOf[k]); }
  }

  lemma KindsStayOk(c: Compiled, completed: seq<string>, registration: bool, k: string)
    requires KindsOk(c, completed, registration) && ParentOk(c, k) && (IsRegistration(c, k) ==> registration)
    ensures KindsOk(c, WithKinds(c, completed, k), registration)
  {
    WithKindsExtends(c, completed, k);
  }

  lemma SubjectStaysOk(c: Compiled, st: State, leaf: Leaf, res: Result)
    requires SubjectOk(c, st.subject, st.factors, st.completed)
    requires ParentOk(c, leaf.kind) && Runnable(c, st, Single(leaf))
    requires leaf.captcha || Guard(c, st, leaf, res).None?
    ensures var next := Record(c, st, leaf, res); SubjectOk(c, next.subject, next.factors, next.completed)
  {
    WithKindsExtends(c, st.completed, leaf.kind);
    var next := Record(c, st, leaf, res);
    forall k | k in next.completed && k in c.binders ensures next.subject != "" {
      if k !in st.completed { assert leaf.kind in c.binders; }
    }
  }

  lemma RecordKeeps(c: Compiled, st: State, leaf: Leaf, res: Result)
    requires leaf.captcha || Guard(c, st, leaf, res).None?
    ensures Keeps(st, Record(c, st, leaf, res))
  {
    WithKindsExtends(c, st.completed, leaf.kind);
  }

  lemma RecordedFactors(c: Compiled, st: State, leaf: Leaf, res: Result)
    requires FactorsOk(c, st.factors, st.completed) && ParentOk(c, leaf.kind) && Runnable(c, st, Single(leaf))
    ensures FactorsOk(c, Record(c, st, leaf, res).factors, Record(c, st, leaf, res).completed)
  {
    RecordedLists(c, st, leaf, res);
    WithKindsGathers(c, FactorOf(c), st.completed, leaf.kind);
  }

  lemma RecordedLists(c: Compiled, st: State, leaf: Leaf, res: Result)
    ensures var next := Record(c, st, leaf, res);
            && next.completed == WithKinds(c, st.completed, leaf.kind)
            && next.factors == (if leaf.captcha then st.factors else st.factors + [leaf.auth.factor])
            && next.verified == (if leaf.captcha then st.verified else st.verified + [res.verified])
  {
  }

  lemma CompletedMarks(c: Compiled, done: seq<string>, leaf: Leaf)
    requires ParentOk(c, leaf.kind) && c.byKind[leaf.kind] == Single(leaf) && (leaf.captcha || leaf.kind !in done)
    ensures Gather(MarkOf(c), WithKinds(c, done, leaf.kind))
            == Gather(MarkOf(c), done) + if leaf.captcha then [] else [leaf.auth.strong]
  {
    WithKindsGathers(c, MarkOf(c), done, leaf.kind);
  }

  lemma MarksStayBacked(c: Compiled, verified: seq<bool>, done: seq<string>, leaf: Leaf, proof: bool)
    requires ParentOk(c, leaf.kind) && c.byKind[leaf.kind] == Single(leaf) && (leaf.captcha || leaf.kind !in done)
    requires ProofsOk(c, verified, done) && (leaf.auth.strong ==> proof)
    ensures ProofsOk(c, if leaf.captcha then verified else verified + [proof], WithKinds(c, done, leaf.kind))
  {
    CompletedMarks(c, done, leaf);
    if leaf.captcha {
      assert Gather(MarkOf(c), done) + [] == Gather(MarkOf(c), done);
    } else {
      PairwiseSnoc(Backed(), Gather(MarkOf(c), done), verified, leaf.auth.strong, proof);
    }
  }

  lemma RecordedProofs(c: Compiled, st: State, leaf: Leaf, res: Result)
    requires ProofsOk(c, st.verified, st.completed) && ParentOk(c, leaf.kind) && Runnable(c, st, Single(leaf))
    requires leaf.captcha || Guard(c, st, leaf, res).None?
    ensures ProofsOk(c, Record(c, st, leaf, res).verified, Record(c, st, leaf, res).completed)
  {
    RecordedLists(c, st, leaf, res);
    MarksStayBacked(c, st.verified, st.completed, leaf, leaf.captcha || res.verified);
  }

  lemma RecordProgress(c: Compiled, st: State, leaf: Leaf, res: Result)
    requires ParentOk(c, leaf.kind) && Runnable(c, st, Single(leaf))
    ensures Progress(c, st, Record(c, st, leaf, res))
    ensures Work(Record(c, st, leaf, res)) == Work(st) + 1
  {
    WithKindsCounts(c, st.completed, leaf.kind);
  }

  /** Recording a runnable step keeps the invariant, makes progress, and pays for itself: the
      step recorded is taken from what was left to complete or from the failure that re-armed
      a captcha. */
  lemma RecordHolds(c: Compiled, st: State, leaf: Leaf, res: Result)
    requires Coherent(c) && Inv(c, st) && Runnable(c, st, Single(leaf))
    requires leaf.captcha || Guard(c, st, leaf, res).None?
    ensures Inv(c, Record(c, st, leaf, res)) && Keeps(st, Record(c, st, leaf, res))
    ensures Progress(c, st, Record(c, st, leaf, res))
    ensures Work(Record(c, st, leaf, res)) == Work(st) + 1
  {
    var next := Record(c, st, leaf, res);
    ParentIsOk(c, leaf.kind);
    KindsStayOk(c, st.completed, st.registration, leaf.kind);
    SubjectStaysOk(c, st, leaf, res);
    RecordKeeps(c, st, leaf, res);
    RecordedFactors(c, st, leaf, res);
    RecordedProofs(c, st, leaf, res);
    RecordProgress(c, st, leaf, res);
  }

  /** next is closer to the end of the chain than st. */
  predicate Progress(c: Compiled, st: State, next: State)
  {
    && Unskipped(c, next) <= Unskipped(c, st)
    && Uncompleted(c, next) + Failing(next) + Unskipped(c, next) < Uncompleted(c, st) + Failing(st) + Unskipped(c, st)
    && Work(next) + Uncompleted(c, next) + Failing(next) <= Work(st) + Uncompleted(c, st) + Failing(st)
    && next.granted == st.granted
  }

  // ----- choosing -----

  lemma {:induction false} FirstRuleMeans(c: Compiled, e: Env, st: State, captcha: bool, i: nat)
    requires i <= |c.rules|
    ensures var r := FirstRule(c, e, st, captcha, i);
            && (r.Some? ==> exists j :: i <= j < |c.rules| && r.value == c.rules[j] && r.value.Captcha() == captcha
                                        && !Settled(c, st, r.value) && Matches(c, e, st, j))
            && (r.None? ==> forall j :: i <= j < |c.rules| && c.rules[j].Captcha() == captcha ==>
                                          Settled(c, st, c.rules[j]) || !Matches(c, e, st, j))
    decreases |c.rules| - i
  {
    if i < |c.rules| { FirstRuleMeans(c, e, st, captcha, i + 1); }
  }

  /** s may begin: it may run, and it was not passed over. */
  ghost predicate Startable(c: Compiled, st: State, s: Step)
  {
    Runnable(c, st, s) && (s.Choice? && s.name != c.primary.Kind() ==> s.name !in st.skipped)
  }

  lemma RuleStartable(c: Compiled, e: Env, st: State, captcha: bool)
    requires Coherent(c) && FirstRule(c, e, st, captcha, 0).Some? && (captcha || st.subject != "")
    ensures Startable(c, st, FirstRule(c, e, st, captcha, 0).value)
  {
    FirstRuleMeans(c, e, st, captcha, 0);
    var s := FirstRule(c, e, st, captcha, 0).value;
    var j :| 0 <= j < |c.rules| && s == c.rules[j] && s.Captcha() == captcha && !Settled(c, st, s);
    assert TopLevel(c, c.rules[j]);
  }

  lemma CaptchaFirstStartable(c: Compiled, e: Env, st: State, s: Step)
    requires Coherent(c) && Startable(c, st, s)
    ensures Startable(c, st, CaptchaFirst(c, e, st, s))
  {
    if FirstRule(c, e, st, true, 0).Some? { RuleStartable(c, e, st, true); }
  }

  lemma BoundAfterBinding(c: Compiled, st: State)
    requires Coherent(c) && SubjectOk(c, st.subject, st.factors, st.completed)
    requires !BindDue(c, st) && !(st.registration && c.registration.None?)
    ensures st.subject != ""
  {
    if st.registration { assert IsRegistration(c, c.registration.value.kind); }
  }

  lemma BindStartable(c: Compiled, st: State)
    requires Coherent(c) && SubjectOk(c, st.subject, st.factors, st.completed) && BindDue(c, st)
    ensures Startable(c, st, BindStep(c, st))
  {
    assert TopLevel(c, c.primary);
    assert c.primary.Kind() in c.binders;
    if st.registration {
      assert IsRegistration(c, c.registration.value.kind);
      assert TopLevel(c, Single(c.registration.value));
    }
  }

  lemma {:induction false} EligibleMeans(c: Compiled, st: State, wanted: seq<string>)
    ensures var r := Eligible(c, st, wanted);
            r.Some? ==> r.value.kind !in st.completed && exists f :: f in c.byFactor && c.byFactor[f] == r.value
  {
    if wanted != [] { EligibleMeans(c, st, wanted[1..]); }
  }

  lemma GrantingStartable(c: Compiled, e: Env, st: State)
    requires Coherent(c) && st.subject != "" && Granting(c, e, st).Run?
    ensures Startable(c, st, Granting(c, e, st).step)
  {
    EligibleMeans(c, st, st.risk.value);
    var leaf := Eligible(c, st, st.risk.value).value;
    CaptchaFirstStartable(c, e, st, Single(leaf));
  }

  lemma RulesStartable(c: Compiled, e: Env, st: State)
    requires Coherent(c) && st.subject != "" && ByRules(c, e, st).Run?
    ensures Startable(c, st, ByRules(c, e, st).step)
  {
    if FirstRule(c, e, st, true, 0).Some? {
      RuleStartable(c, e, st, true);
    } else if FirstRule(c, e, st, false, 0).Some? {
      RuleStartable(c, e, st, false);
    } else {
      GrantingStartable(c, e, st);
    }
  }

  lemma RequiredStartable(c: Compiled, st: State, kind: string)
    requires Coherent(c) && st.subject != "" && !IsRegistration(c, kind) && kind in c.byKind
    requires !Settled(c, st, c.byKind[kind])
    ensures Startable(c, st, c.byKind[kind])
  {
    assert c.byKind[kind].Kind() == kind;
  }

  /** Whatever the embedder answers, the step chosen may begin. */
  lemma ChosenIsStartable(c: Compiled, e: Env, st: State)
    requires Coherent(c) && Inv(c, st) && Choose(c, e, st).Run?
    ensures Startable(c, st, Choose(c, e, st).step)
  {
    if BindDue(c, st) {
      BindStartable(c, st);
      CaptchaFirstStartable(c, e, st, BindStep(c, st));
    } else {
      BoundAfterBinding(c, st);
      DecidedIsStartable(c, e, st);
    }
  }

  lemma DecidedIsStartable(c: Compiled, e: Env, st: State)
    requires Coherent(c) && st.subject != "" && Decided(c, e, st).Run?
    ensures Startable(c, st, Decided(c, e, st).step)
  {
    if Decided(c, e, st) == ByRules(c, e, st) {
      RulesStartable(c, e, st);
    } else if Decided(c, e, st) == Granting(c, e, st) {
      GrantingStartable(c, e, st);
    } else {
      var kind := e.decider.value(ContextOf(c, st)).value.kind;
      RequiredStartable(c, st, kind);
      CaptchaFirstStartable(c, e, st, c.byKind[kind]);
    }
  }

  /** Which subject a factor step is handed: one that binds no subject always gets the bound
      one; one that binds it gets none unless the chain bound it itself, so a session's subject
      is withheld, and else that subject; Registration never gets any. */
  lemma HandedSubject(c: Compiled, st: State, leaf: Leaf)
    requires Coherent(c) && Startable(c, st, Single(leaf)) && !leaf.captcha
    ensures leaf.kind !in c.binders ==> StepSubject(c, st, leaf.kind) == st.subject != ""
    ensures leaf.kind in c.binders && !st.chooser && st.factors == [] ==> StepSubject(c, st, leaf.kind) == ""
    ensures leaf.kind in c.binders && !IsRegistration(c, leaf.kind) && (st.chooser || st.factors != []) ==>
              StepSubject(c, st, leaf.kind) == st.subject
    ensures IsRegistration(c, leaf.kind) ==> st.registration && StepSubject(c, st, leaf.kind) == ""
  {
  }

  // ----- one turn -----

  /** The steps recorded are paid for by steps no longer open. */
  predicate Paid(c: Compiled, st: State, next: State)
  {
    Work(next) + Uncompleted(c, next) + Failing(next) <= Work(st) + Uncompleted(c, st) + Failing(st)
  }

  ghost predicate TurnOk(c: Compiled, st: State, t: Turn)
  {
    && Inv(c, t.state) && Keeps(st, t.state) && Paid(c, st, t.state)
    && (t.Again? ==> Progress(c, st, t.state))
    && (t.Stop? && t.reply != Granted ==> t.state.granted == st.granted)
  }

  lemma InnerRunnable(c: Compiled, st: State, s: Step, leaf: Leaf)
    requires Coherent(c) && KindsOk(c, st.completed, st.registration)
    requires Runnable(c, st, s) && s.Choice? && leaf in s.inner
    ensures Runnable(c, st, Single(leaf))
  {
    assert InnerOf(c, s.name, leaf);
    assert c.parentOf[leaf.kind] == s.name;
  }

  lemma CompleteOk(c: Compiled, st: State, leaf: Leaf, res: Result)
    requires Coherent(c) && Inv(c, st) && Runnable(c, st, Single(leaf))
    ensures TurnOk(c, st, Complete(c, st, leaf, res))
  {
    if leaf.captcha || Guard(c, st, leaf, res).None? {
      RecordHolds(c, st, leaf, res);
    } else {
      StayOk(c, st, Refused(Guard(c, st, leaf, res).value));
    }
  }

  /** Moving the cursor of a prompt changes nothing else. */
  predicate SameButOffer(st: State, next: State)
  {
    next == st.(active := next.active, pending := next.pending, offered := next.offered)
  }

  lemma CursorOk(c: Compiled, st: State, next: State)
    requires Inv(c, st) && SameButOffer(st, next) && ActiveOk(c, next)
    ensures Inv(c, next) && Keeps(st, next) && Paid(c, st, next)
  {
  }

  lemma BeginLeafOk(c: Compiled, e: Env, st: State, leaf: Leaf)
    requires Coherent(c) && Inv(c, st) && Runnable(c, st, Single(leaf))
    ensures TurnOk(c, st, BeginLeaf(c, e, st, leaf))
  {
    match e.begin(leaf.kind, StepSubject(c, st, leaf.kind)) {
      case Done(res) => CompleteOk(c, st, leaf, res);
      case Prompt =>
        var next := st.(active := leaf.kind);
        assert Runnable(c, next, Single(leaf));
        CursorOk(c, st, next);
      case Nothing => StayOk(c, st, Refused(Invalid));
      case Fails => StayOk(c, st, Refused(Broken));
    }
  }

  lemma OfferedTurn(c: Compiled, e: Env, st: State, next: State, s: Step, leaf: Leaf)
    requires Coherent(c) && Inv(c, st) && Runnable(c, st, s) && s.Choice? && leaf in s.inner
    requires SameButOffer(st, next) && (next.active == "" || next.active == st.active)
    ensures TurnOk(c, st, BeginLeaf(c, e, next, leaf))
  {
    InnerRunnable(c, st, s, leaf);
    assert ActiveOk(c, next);
    CursorOk(c, st, next);
    BeginLeafOk(c, e, next, leaf);
    TurnAfterCursor(c, st, next, BeginLeaf(c, e, next, leaf));
  }

  lemma TurnAfterCursor(c: Compiled, st: State, next: State, t: Turn)
    requires SameButOffer(st, next) && Keeps(st, next) && TurnOk(c, next, t)
    ensures TurnOk(c, st, t)
  {
    KeepsTwice(st, next, t.state);
  }

  /** A turn that stops where it stands. */
  lemma StayOk(c: Compiled, st: State, reply: Reply)
    requires Inv(c, st)
    ensures TurnOk(c, st, Stop(st, reply))
  {
  }

  lemma SkipInv(c: Compiled, st: State, kind: string)
    requires Inv(c, st) && Skippable(c, kind)
    ensures Inv(c, st.(skipped := st.skipped + [kind])) && Keeps(st, st.(skipped := st.skipped + [kind]))
  {
    var next := st.(skipped := st.skipped + [kind]);
    assert SkippedOk(c, next.skipped);
    assert ActiveOk(c, next);
  }

  lemma SkipOk(c: Compiled, st: State, s: Step)
    requires Inv(c, st) && Startable(c, st, s) && s.Choice? && s.skip && s.name != c.primary.Kind()
    ensures TurnOk(c, st, Again(st.(skipped := st.skipped + [s.name])))
  {
    SkipInv(c, st, s.name);
    Shrinks(c.byKind.Keys, st.skipped, s.name);
  }

  lemma PromptOk(c: Compiled, st: State, s: Step, offered: seq<string>)
    requires Inv(c, st) && Runnable(c, st, s) && s.Kind() != ""
    ensures TurnOk(c, st, Stop(st.(active := s.Kind(), pending := s.Kind(), offered := offered), Prompted(s.Kind())))
  {
    var next := st.(active := s.Kind(), pending := s.Kind(), offered := offered);
    assert Runnable(c, next, s);
    CursorOk(c, st, next);
  }

  lemma BeginAmongOk(c: Compiled, e: Env, st: State, s: Step, candidates: Maybe<seq<Leaf>>)
    requires Coherent(c) && Inv(c, st) && Startable(c, st, s) && s.Choice? && s.name != ""
    requires candidates.Some? ==> forall leaf :: leaf in candidates.value ==> leaf in s.inner
    requires candidates == Some([]) ==> s.name != c.primary.Kind()
    ensures TurnOk(c, st, BeginAmong(c, e, st, s, candidates))
  {
    if candidates.None? {
      StayOk(c, st, Refused(Broken));
    } else if candidates.value == [] {
      if s.skip { SkipOk(c, st, s); } else { StayOk(c, st, Refused(Unenrolled)); }
    } else if |candidates.value| == 1 {
      var leaf := candidates.value[0];
      assert leaf in candidates.value;
      OfferedTurn(c, e, st, st.(pending := s.name, offered := [leaf.kind]), s, leaf);
    } else {
      PromptOk(c, st, s, KindsOf(candidates.value));
    }
  }

  lemma BeginStepOk(c: Compiled, e: Env, st: State, s: Step)
    requires Coherent(c) && Inv(c, st) && Startable(c, st, s)
    ensures TurnOk(c, st, BeginStep(c, e, st, s))
  {
    if s.Single? {
      BeginLeafOk(c, e, st, s.leaf);
    } else {
      var settled := if st.pending == s.name && |st.offered| == 1 then InnerNamed(s.inner, st.offered[0]) else None;
      if settled.Some? {
        OfferedTurn(c, e, st, st, s, settled.value);
      } else {
        ChoiceIsNamed(c, s);
        BeginAmongOk(c, e, st, s, Candidates(c, e, st, s));
      }
    }
  }

  lemma ChoiceIsNamed(c: Compiled, s: Step)
    requires Coherent(c) && Known(c, s) && s.Choice?
    ensures s.name != "" && s.inner != []
  {
    assert c.byKind[s.name].Kind() == s.name;
  }

  lemma OnlyRisk(c: Compiled, st: State, next: State)
    requires Inv(c, st) && next == st.(risk := next.risk) && (st.risk.Some? ==> next.risk == st.risk)
    ensures Inv(c, next) && Keeps(st, next) && Paid(c, st, next)
  {
  }

  lemma AssessedOk(c: Compiled, e: Env, st: State, a: Assessment)
    requires Inv(c, st)
    ensures Inv(c, Assessed(e, st, a)) && Keeps(st, Assessed(e, st, a)) && Paid(c, st, Assessed(e, st, a))
    ensures Assessed(e, st, a) == st.(risk := Assessed(e, st, a).risk)
  {
    OnlyRisk(c, st, Assessed(e, st, a));
  }

  lemma GrantOk(c: Compiled, st: State)
    requires Inv(c, st)
    ensures TurnOk(c, st, Stop(st.(granted := true, active := ""), Granted))
  {
  }

  lemma ActByChoice(c: Compiled, e: Env, st: State)
    ensures Choose(c, e, st) == Grant ==> Act(c, e, st) == Stop(st.(granted := true, active := ""), Granted)
    ensures Choose(c, e, st).Refuse? ==> Act(c, e, st) == Stop(st, Refused(Choose(c, e, st).error))
    ensures Choose(c, e, st).Run? ==> Act(c, e, st) == BeginStep(c, e, st, Choose(c, e, st).step)
  {
  }

  lemma ActOk(c: Compiled, e: Env, st: State)
    requires Coherent(c) && Inv(c, st)
    ensures TurnOk(c, st, Act(c, e, st))
  {
    var a := Choose(c, e, st);
    ActByChoice(c, e, st);
    match a {
      case Run(s) =>
        ChosenIsStartable(c, e, st);
        BeginStepOk(c, e, st, s);
      case Grant => GrantOk(c, st);
      case Refuse(error) => StayOk(c, st, Refused(error));
    }
  }

  lemma TurnFrom(c: Compiled, st: State, st1: State, t: Turn)
    requires Keeps(st, st1) && Paid(c, st, st1) && st1 == st.(risk := st1.risk) && TurnOk(c, st1, t)
    ensures TurnOk(c, st, t)
  {
    KeepsTwice(st, st1, t.state);
  }

  lemma PassOk(c: Compiled, e: Env, st: State)
    requires Coherent(c) && Inv(c, st)
    ensures TurnOk(c, st, PassOnce(c, e, st))
  {
    var a := Assess(c, e, st);
    if a.Breaks? {
      StayOk(c, st, Refused(Broken));
    } else if a.Refuses? {
      StayOk(c, st, Refused(Denied));
    } else {
      ActFrom(c, e, st, a);
    }
  }

  lemma ActFrom(c: Compiled, e: Env, st: State, a: Assessment)
    requires Coherent(c) && Inv(c, st)
    ensures TurnOk(c, st, Act(c, e, Assessed(e, st, a)))
  {
    var st1 := Assessed(e, st, a);
    AssessedOk(c, e, st, a);
    ActOk(c, e, st1);
    TurnFrom(c, st, st1, Act(c, e, st1));
  }

  // ----- passes until the chain stops -----

  datatype Outcome = Outcome(state: State, reply: Reply)

  /** The pass loop terminates: every turn that goes on completes a step, passes one over, or
      uses up the failure that re-armed a captcha. Pass i is answered by answers(i), so embedder
      code may answer two passes of one event differently. */
  function Advance(c: Compiled, answers: nat -> Env, i: nat, st: State): (r: Outcome)
    requires Coherent(c) && Inv(c, st)
    ensures Inv(c, r.state) && Keeps(st, r.state) && Paid(c, st, r.state)
    decreases Uncompleted(c, st) + Failing(st) + Unskipped(c, st)
  {
    PassOk(c, answers(i), st);
    var t := PassOnce(c, answers(i), st);
    if t.Stop? then Outcome(t.state, t.reply)
    else
      var r := Advance(c, answers, i + 1, t.state);
      KeepsTwice(st, t.state, r.state);
      r
  }

  /** The state in which pass k begins, when the passes start with pass i and pass n, begun in s,
      makes turn(n, s); None when they have stopped before. */
  function Begun(turn: (nat, State) -> Turn, i: nat, st: State, k: nat): Maybe<State>
    requires i <= k
    decreases k - i
  {
    if i == k then Some(st)
    else
      var t := turn(i, st);
      if t.Stop? then None else Begun(turn, i + 1, t.state, k)
  }

  function Passes(c: Compiled, answers: nat -> Env): (nat, State) -> Turn
  {
    (n: nat, s: State) => PassOnce(c, answers(n), s)
  }

  function BeforePass(c: Compiled, answers: nat -> Env, i: nat, st: State, k: nat): Maybe<State>
    requires i <= k
  {
    Begun(Passes(c, answers), i, st, k)
  }

  /** The pass in which the loop stops. */
  function LastPass(c: Compiled, answers: nat -> Env, i: nat, st: State): (k: nat)
    requires Coherent(c) && Inv(c, st)
    ensures i <= k
    decreases Uncompleted(c, st) + Failing(st) + Unskipped(c, st)
  {
    PassOk(c, answers(i), st);
    var t := PassOnce(c, answers(i), st);
    if t.Stop? then i else LastPass(c, answers, i + 1, t.state)
  }

  /** Pass k, begun in b, stops with that outcome. */
  predicate StopsIn(c: Compiled, answers: nat -> Env, b: Maybe<State>, k: nat, r: Outcome)
  {
    b.Some? && PassOnce(c, answers(k), b.value) == Stop(r.state, r.reply)
  }

  /** One pass of the loop: it stops there, or the rest of the loop begins where it ended. */
  lemma OnePass(c: Compiled, answers: nat -> Env, i: nat, st: State)
    requires Coherent(c) && Inv(c, st)
    ensures var t := PassOnce(c, answers(i), st);
            && Inv(c, t.state)
            && (t.Stop? ==> LastPass(c, answers, i, st) == i
                            && Advance(c, answers, i, st) == Outcome(t.state, t.reply))
            && (t.Again? ==> Progress(c, st, t.state)
                             && LastPass(c, answers, i, st) == LastPass(c, answers, i + 1, t.state)
                             && Advance(c, answers, i, st) == Advance(c, answers, i + 1, t.state))
  {
    PassOk(c, answers(i), st);
  }

  /** The last pass is one that is run, and its turn is what the loop ends with. */
  lemma {:induction false} LastPassStops(c: Compiled, answers: nat -> Env, i: nat, st: State)
    requires Coherent(c) && Inv(c, st)
    ensures var k := LastPass(c, answers, i, st);
            StopsIn(c, answers, BeforePass(c, answers, i, st, k), k, Advance(c, answers, i, st))
    decreases Uncompleted(c, st) + Failing(st) + Unskipped(c, st)
  {
    OnePass(c, answers, i, st);
    var t := PassOnce(c, answers(i), st);
    if t.Again? { LastPassStops(c, answers, i + 1, t.state); }
  }

  /** The loop may be entered at any pass it reaches. */
  lemma {:induction false} AdvanceFromPass(c: Compiled, answers: nat -> Env, i: nat, st: State, k: nat)
    requires Coherent(c) && Inv(c, st) && i <= k && BeforePass(c, answers, i, st, k).Some?
    ensures var b := BeforePass(c, answers, i, st, k).value;
            Inv(c, b) && Advance(c, answers, k, b) == Advance(c, answers, i, st)
    decreases k - i
  {
    if i < k {
      PassOk(c, answers(i), st);
      AdvanceFromPass(c, answers, i + 1, PassOnce(c, answers(i), st).state, k);
    }
  }
}
