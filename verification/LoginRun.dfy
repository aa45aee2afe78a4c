/** The orchestrator's pass loop over a compiled login flow: choosing the next step, beginning
    it, recording its completion, and handling submissions, as functions from state to state. */
module LoginRun {
  import opened Maybes
  import opened LoginCompile
  import opened LoginLookup

  /** The session a chain started from: its subject, and the (factor, verification demanded)
      pairs its recorded methods stand in for. */
  datatype Entry = Entry(subject: string, shown: set<(string, bool)>)

  /** The persisted state of one attempt. Two fields are history only: solved counts the captchas
      solved, and verified says of each recorded factor whether its result had verified the user. */
  datatype State = State(
    subject: string, chooser: bool, reauth: bool, registration: bool, entry: Maybe<Entry>,
    factors: seq<string>, completed: seq<string>, skipped: seq<string>,
    active: string, pending: string, offered: seq<string>,
    failures: nat, captchaFailures: nat, risk: Maybe<seq<string>>, granted: bool, solved: nat, verified: seq<bool>)

  /** What rule predicates, the decider and the assessor see. */
  datatype Context = Context(
    subject: string, failures: nat, factors: seq<string>, kinds: seq<string>,
    inherited: Maybe<Entry>, risk: Maybe<seq<string>>)

  datatype Decision = Allow | Pass | Require(kind: string) | Forbid
  datatype Assessment = Fine | Demands(factors: seq<string>) | Refuses | Breaks
  datatype Probe = Enrolled | NotEnrolled | Unreachable
  datatype Result = Result(subject: string, verified: bool)
  datatype Begin = Prompt | Done(result: Result) | Nothing | Fails

  /** The embedder's code and the stores, during one pass. An answer of None is a panic. */
  datatype Env = Env(
    when: (nat, Context) -> Maybe<bool>, decider: Maybe<Context -> Maybe<Decision>>,
    assessor: Maybe<Context -> Assessment>, probe: (string, string) -> Probe, begin: (string, string) -> Begin)

  datatype Error = Invalid | Denied | NoEligible | Unenrolled | Broken | Mismatch | Exhausted | BadRef
  datatype Reply = Prompted(kind: string) | Granted | Refused(error: Error)
  datatype Action = Run(step: Step) | Grant | Refuse(error: Error)
  datatype Turn = Stop(state: State, reply: Reply) | Again(state: State)

  const CaptchaMaxFailures := 5

  // ----- the context of a pass -----

  predicate StandsIn(st: State)
  {
    st.entry.Some? && !st.reauth && st.entry.value.subject != "" && st.entry.value.subject == st.subject
  }

  predicate LeafShown(e: Entry, leaf: Leaf) { !leaf.captcha && (leaf.auth.factor, leaf.verifyUser) in e.shown }

  predicate Shown(e: Entry, s: Step)
  {
    if s.Single? then LeafShown(e, s.leaf) else exists leaf :: leaf in s.inner && LeafShown(e, leaf)
  }

  /** The kinds the session stands in for: Primary's, and each rule step its methods show. */
  function Inherited(primary: Step, rules: seq<Step>, e: Entry): seq<string>
  {
    if rules == [] then [primary.Kind()]
    else
      var kinds, r := Inherited(primary, rules[..|rules| - 1], e), rules[|rules| - 1];
      if r.Kind() in kinds || !Shown(e, r) then kinds else kinds + [r.Kind()]
  }

  function Missing(a: seq<string>, b: seq<string>): seq<string>
  {
    if a == [] then [] else Missing(a[..|a| - 1], b) + (if a[|a| - 1] in b then [] else [a[|a| - 1]])
  }

  function CompletedKinds(c: Compiled, st: State): seq<string>
  {
    (if StandsIn(st) then Missing(Inherited(c.primary, c.rules, st.entry.value), st.completed) else []) + st.completed
  }

  function ContextOf(c: Compiled, st: State): Context
  {
    Context(st.subject, st.failures, st.factors, CompletedKinds(c, st),
            if StandsIn(st) then st.entry else None, st.risk)
  }

  // ----- choosing the next step -----

  predicate Settled(c: Compiled, st: State, s: Step)
  {
    if s.Captcha() then s.Kind() in st.completed && st.failures == 0
    else s.Kind() in CompletedKinds(c, st) || s.Kind() in st.skipped
  }

  /** A predicate that cannot be evaluated counts as a match. */
  predicate Matches(c: Compiled, e: Env, st: State, i: nat) { e.when(i, ContextOf(c, st)) != Some(false) }

  /** The first due rule of a group, from position i on. */
  function FirstRule(c: Compiled, e: Env, st: State, captcha: bool, i: nat): Maybe<Step>
    requires i <= |c.rules|
    decreases |c.rules| - i
  {
    if i == |c.rules| then None
    else if c.rules[i].Captcha() == captcha && !Settled(c, st, c.rules[i]) && Matches(c, e, st, i) then Some(c.rules[i])
    else FirstRule(c, e, st, captcha, i + 1)
  }

  predicate BindDue(c: Compiled, st: State)
  {
    if st.registration then c.registration.Some? && c.registration.value.kind !in st.completed
    else st.subject == "" || (st.reauth && c.primary.Kind() !in st.completed)
  }

  function BindStep(c: Compiled, st: State): Step
    requires BindDue(c, st)
  {
    if st.registration then Single(c.registration.value) else c.primary
  }

  /** A due captcha interposes before a factor step. */
  function CaptchaFirst(c: Compiled, e: Env, st: State, s: Step): Step
  {
    var due := FirstRule(c, e, st, true, 0);
    if !s.Captcha() && due.Some? then due.value else s
  }

  predicate RiskMet(st: State)
  {
    st.risk.None? || st.risk.value == [] || exists f :: f in st.factors && f in st.risk.value
  }

  function Eligible(c: Compiled, st: State, wanted: seq<string>): Maybe<Leaf>
  {
    if wanted == [] then None
    else if wanted[0] in c.byFactor && c.byFactor[wanted[0]].kind !in st.completed then Some(c.byFactor[wanted[0]])
    else Eligible(c, st, wanted[1..])
  }

  function Granting(c: Compiled, e: Env, st: State): Action
  {
    if RiskMet(st) then Grant
    else
      var leaf := Eligible(c, st, st.risk.value);
      if leaf.None? then Refuse(NoEligible) else Run(CaptchaFirst(c, e, st, Single(leaf.value)))
  }

  function ByRules(c: Compiled, e: Env, st: State): Action
  {
    var captcha := FirstRule(c, e, st, true, 0);
    var factor := FirstRule(c, e, st, false, 0);
    if captcha.Some? then Run(captcha.value) else if factor.Some? then Run(factor.value) else Granting(c, e, st)
  }

  function Decided(c: Compiled, e: Env, st: State): Action
  {
    if e.decider.None? then ByRules(c, e, st)
    else
      match e.decider.value(ContextOf(c, st))
      case None => Refuse(Denied)
      case Some(Forbid) => Refuse(Denied)
      case Some(Allow) => Granting(c, e, st)
      case Some(Pass) => ByRules(c, e, st)
      case Some(Require(kind)) =>
        if IsRegistration(c, kind) || kind !in c.byKind then Refuse(Invalid)
        else if Settled(c, st, c.byKind[kind]) then ByRules(c, e, st)
        else Run(CaptchaFirst(c, e, st, c.byKind[kind]))
  }

  function Choose(c: Compiled, e: Env, st: State): Action
  {
    if st.registration && c.registration.None? then Refuse(Invalid)
    else if BindDue(c, st) then Run(CaptchaFirst(c, e, st, BindStep(c, st)))
    else Decided(c, e, st)
  }

  // ----- beginning and recording a step -----

  function StepSubject(c: Compiled, st: State, kind: string): string
  {
    if IsRegistration(c, kind) then ""
    else if st.chooser || st.factors != [] then st.subject
    else if kind in c.binders then ""
    else st.subject
  }

  predicate Bound(st: State) { st.factors != [] || st.chooser || StandsIn(st) }

  /** The checks a factor result must pass before it is recorded. */
  function Guard(c: Compiled, st: State, leaf: Leaf, res: Result): Maybe<Error>
  {
    if leaf.auth.strong && !res.verified then Some(Invalid)
    else if Bound(st) && res.subject != "" && res.subject != st.subject then Some(Mismatch)
    else if leaf.kind in c.binders && res.subject == ""
            && (IsRegistration(c, leaf.kind) || st.subject == "") then Some(Invalid)
    else None
  }

  function Append(kinds: seq<string>, k: string): seq<string> { if k in kinds then kinds else kinds + [k] }

  function WithKinds(c: Compiled, completed: seq<string>, kind: string): seq<string>
  {
    var done := Append(completed, kind);
    if kind in c.parentOf then Append(done, c.parentOf[kind]) else done
  }

  function Record(c: Compiled, st: State, leaf: Leaf, res: Result): State
  {
    var st1 := if leaf.captcha then st.(captchaFailures := 0, failures := 0, solved := st.solved + 1)
               else st.(factors := st.factors + [leaf.auth.factor], verified := st.verified + [res.verified],
                        subject := if res.subject != "" then res.subject else st.subject);
    var st2 := st1.(completed := WithKinds(c, st.completed, leaf.kind), active := "");
    if leaf.kind in c.parentOf && st.pending == c.parentOf[leaf.kind] then st2.(pending := "", offered := []) else st2
  }

  function Complete(c: Compiled, st: State, leaf: Leaf, res: Result): Turn
  {
    if leaf.captcha || Guard(c, st, leaf, res).None? then Again(Record(c, st, leaf, res))
    else Stop(st, Refused(Guard(c, st, leaf, res).value))
  }

  function BeginLeaf(c: Compiled, e: Env, st: State, leaf: Leaf): Turn
  {
    match e.begin(leaf.kind, StepSubject(c, st, leaf.kind))
    case Prompt => Stop(st.(active := leaf.kind), Prompted(leaf.kind))
    case Done(res) => Complete(c, st, leaf, res)
    case Nothing => Stop(st, Refused(Invalid))
    case Fails => Stop(st, Refused(Broken))
  }

  /** The inner steps the subject is enrolled in; None when a probe fails. */
  function EnrolledIn(e: Env, subject: string, inner: seq<Leaf>): (r: Maybe<seq<Leaf>>)
    ensures r.Some? ==> forall leaf :: leaf in r.value ==> leaf in inner
  {
    if inner == [] then Some([])
    else
      var rest := EnrolledIn(e, subject, inner[..|inner| - 1]);
      var last := inner[|inner| - 1];
      if rest.None? || e.probe(last.kind, subject) == Unreachable then None
      else if e.probe(last.kind, subject) == Enrolled then Some(rest.value + [last]) else rest
  }

  function InnerNamed(inner: seq<Leaf>, kind: string): (r: Maybe<Leaf>)
    ensures r.Some? ==> r.value in inner && r.value.kind == kind
  {
    if inner == [] then None else if inner[0].kind == kind then Some(inner[0]) else InnerNamed(inner[1..], kind)
  }

  function KindsOf(leaves: seq<Leaf>): seq<string>
  {
    if leaves == [] then [] else KindsOf(leaves[..|leaves| - 1]) + [leaves[|leaves| - 1].kind]
  }

  /** The members of a one-of step that may run: all at Primary, elsewhere the enrolled ones. */
  function Candidates(c: Compiled, e: Env, st: State, s: Step): Maybe<seq<Leaf>>
    requires s.Choice?
  {
    if s.name == c.primary.Kind() then Some(s.inner) else EnrolledIn(e, st.subject, s.inner)
  }

  function BeginAmong(c: Compiled, e: Env, st: State, s: Step, candidates: Maybe<seq<Leaf>>): Turn
    requires s.Choice?
  {
    if candidates.None? then Stop(st, Refused(Broken))
    else if candidates.value == [] then
      (if s.skip then Again(st.(skipped := st.skipped + [s.name])) else Stop(st, Refused(Unenrolled)))
    else if |candidates.value| == 1 then
      BeginLeaf(c, e, st.(pending := s.name, offered := [candidates.value[0].kind]), candidates.value[0])
    else
      Stop(st.(active := s.name, pending := s.name, offered := KindsOf(candidates.value)), Prompted(s.name))
  }

  /** A member settled on earlier is resumed without probing again. */
  function BeginChoice(c: Compiled, e: Env, st: State, s: Step): Turn
    requires s.Choice?
  {
    var settled := if st.pending == s.name && |st.offered| == 1 then InnerNamed(s.inner, st.offered[0]) else None;
    if settled.Some? then BeginLeaf(c, e, st, settled.value)
    else BeginAmong(c, e, st, s, Candidates(c, e, st, s))
  }

  function BeginStep(c: Compiled, e: Env, st: State, s: Step): Turn
  {
    if s.Single? then BeginLeaf(c, e, st, s.leaf) else BeginChoice(c, e, st, s)
  }

  // ----- one pass, and passes until the chain stops -----

  /** The assessor is consulted until it has answered once. */
  function Assess(c: Compiled, e: Env, st: State): Assessment
  {
    if e.assessor.None? || st.risk.Some? then Fine else e.assessor.value(ContextOf(c, st))
  }

  function Assessed(e: Env, st: State, a: Assessment): State
  {
    if e.assessor.None? || st.risk.Some? then st
    else if a.Demands? then st.(risk := Some(a.factors)) else if a.Fine? then st.(risk := Some([])) else st
  }

  function Act(c: Compiled, e: Env, st: State): Turn
  {
    match Choose(c, e, st)
    case Refuse(error) => Stop(st, Refused(error))
    case Grant => Stop(st.(granted := true, active := ""), Granted)
    case Run(s) => BeginStep(c, e, st, s)
  }

  function PassOnce(c: Compiled, e: Env, st: State): Turn
  {
    var a := Assess(c, e, st);
    if a.Breaks? then Stop(st, Refused(Broken))
    else if a.Refuses? then Stop(st, Refused(Denied))
    else Act(c, e, Assessed(e, st, a))
  }

  // ----- submissions -----

  datatype Continue = Rejected(reprompt: bool) | Errors | More | Empty | Completed(result: Result)

  function Reject(c: Compiled, e: Env, st: State, leaf: Leaf, reprompt: bool): Turn
  {
    if leaf.captcha && st.captchaFailures + 1 >= CaptchaMaxFailures then
      Stop(st.(captchaFailures := st.captchaFailures + 1), Refused(Exhausted))
    else
      var st1 :=
        if leaf.captcha then st.(captchaFailures := st.captchaFailures + 1) else st.(failures := st.failures + 1);
      if reprompt && !leaf.captcha && FirstRule(c, e, st1, true, 0).None? then Stop(st1, Prompted(leaf.kind))
      else Again(st1.(active := ""))
  }

  function SubmitChoice(c: Compiled, e: Env, st: State, s: Step, choice: string): Turn
    requires s.Choice?
  {
    var inner := InnerNamed(s.inner, choice);
    if st.pending != s.name || choice == "" || choice !in st.offered || inner.None? then Stop(st, Refused(BadRef))
    else BeginLeaf(c, e, st.(active := "", offered := [choice]), inner.value)
  }

  function Submit(c: Compiled, e: Env, st: State, kind: string, choice: string, cont: Continue): Turn
  {
    if st.active == "" || st.active != kind || kind !in c.byKind then Stop(st, Refused(BadRef))
    else if c.byKind[kind].Choice? then SubmitChoice(c, e, st, c.byKind[kind], choice)
    else
      var leaf := c.byKind[kind].leaf;
      match cont
      case Rejected(reprompt) => Reject(c, e, st, leaf, reprompt)
      case Errors => Stop(st, Refused(Broken))
      case More => Stop(st, Prompted(kind))
      case Empty => Stop(st, Refused(Invalid))
      case Completed(res) => Complete(c, st, leaf, res)
  }
}
