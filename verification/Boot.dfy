/** op.New as a sequence of fallible stages over a persistent store: the subject-mode gate,
    the commit of its two markers, and what every failure, retry and later boot finds. */
module Boot {
  import opened Maybes
  import Engine = Options

  const Public := "public"
  const Pairwise := "pairwise"
  const Custom := "custom"
  const OpInitMarker := "v1"

  /** What one construction is asked for: the options, and what they settle. source names the
      subject option that was used; secret holds the client seeds that carry a plaintext. */
  datatype Config = Config(
    opts: seq<Engine.Option>, secret: set<string>,
    source: string, salt: string, issuer: string, metrics: bool, seeds: map<string, string>)

  /** Everything that outlives a construction: the metadata rows, whether a grant was ever
      stored, the static clients, the metrics registry and the audit stream. */
  datatype World = World(
    metadata: bool, grantStore: bool,
    mode: Maybe<string>, init: Maybe<string>, grants: nat,
    clients: map<string, string>, registry: set<string>, startups: nat)

  datatype Stage = Options | Validate | ProxyTrust | Schema | Gate | Metrics | Keys | Encryption
                 | SharedSignals | Locales | Router | Seed | Commit

  datatype Result = Built | Failed(at: Stage)

  /** A write that reports an error may or may not have reached the row. */
  datatype Write = Applied | Lost | Torn

  /** What the environment does to one construction: stages that fail for reasons of their
      own, and the answers of the store. */
  datatype Faults = Faults(
    stages: set<Stage>,
    modeRead: bool, initRead: bool, grantRead: bool, modeWrite: Write, initWrite: Write)

  function Mode(c: Config): string
  {
    if c.source == "WithPairwiseSubject" then Pairwise
    else if c.source == "WithSubjectGenerator" then Custom
    else Public
  }

  // ----- the gate -----

  datatype Plan = WriteNothing | WriteSentinel | WriteBoth

  datatype Verdict = Refuse | Pass(plan: Plan)

  function GateVerdict(w: World, c: Config, f: Faults): Verdict
  {
    if !w.metadata then Pass(WriteNothing)
    else if !f.modeRead then Refuse
    else if w.mode.Some? then if w.mode.value == Mode(c) then Pass(WriteSentinel) else Refuse
    else if AbsentMarkerRefuses(w, c, f) then Refuse
    else Pass(WriteBoth)
  }

  /** No mode row: a used store, by its sentinel or by a grant, may only go on as public. */
  predicate AbsentMarkerRefuses(w: World, c: Config, f: Faults)
  {
    || !f.initRead
    || (w.init == Some(OpInitMarker) && Mode(c) != Public)
    || (w.grantStore && !f.grantRead)
    || (w.grantStore && w.grants > 0 && Mode(c) != Public)
  }

  datatype Written = Written(w: World, ok: bool)

  function WriteInit(w: World, f: Faults): Written
  {
    Written(if f.initWrite == Lost then w else w.(init := Some(OpInitMarker)), f.initWrite == Applied)
  }

  function CommitPlan(w: World, plan: Plan, mode: string, f: Faults): Written
  {
    match plan
    case WriteNothing => Written(w, true)
    case WriteSentinel => WriteInit(w, f)
    case WriteBoth =>
      if f.modeWrite == Lost then Written(w, false)
      else if f.modeWrite == Torn then Written(w.(mode := Some(mode)), false)
      else WriteInit(w.(mode := Some(mode)), f)
  }

  // ----- the options -----

  const StaticClients := "WithStaticClients"

  predicate Refused(opts: seq<Engine.Option>) { Engine.Outcome(opts).verdict != Engine.Fine }

  predicate CarriesSecret(x: (string, seq<string>), secret: set<string>)
  {
    x.0 == StaticClients && exists seed :: seed in x.1 && seed in secret
  }

  /** The options applied before newConfig ended left a plaintext in the config record. */
  predicate Retains(opts: seq<Engine.Option>, secret: set<string>)
  {
    exists x :: x in Engine.Outcome(opts).st.additions && CarriesSecret(x, secret)
  }

  // ----- the stages -----

  /** The static-client batch is applied whole or not at all; equal records are no-ops. */
  predicate SeedConflicts(clients: map<string, string>, seeds: map<string, string>)
  {
    exists id :: id in seeds && id in clients && clients[id] != seeds[id]
  }

  datatype Attempt = Attempt(w: World, result: Result, registered: bool, held: bool)

  const BeforeGate := [Validate, ProxyTrust, Schema]
  const AfterMetrics := [Keys, Encryption, SharedSignals, Locales, Router]

  function FirstFailure(stages: seq<Stage>, f: Faults): Result
  {
    if stages == [] then Built
    else if stages[0] in f.stages then Failed(stages[0])
    else FirstFailure(stages[1..], f)
  }

  /** The body of New, before its deferred clean-up runs. */
  function Body(w: World, c: Config, f: Faults): Attempt
  {
    if Refused(c.opts) then Attempt(w, Failed(Options), false, Retains(c.opts, c.secret))
    else
      var early := FirstFailure(BeforeGate, f);
      var gate := GateVerdict(w, c, f);
      if early != Built then Attempt(w, early, false, Retains(c.opts, c.secret))
      else if gate.Refuse? then Attempt(w, Failed(Gate), false, Retains(c.opts, c.secret))
      else if c.metrics && (c.issuer in w.registry || Metrics in f.stages) then
        Attempt(w, Failed(Metrics), false, Retains(c.opts, c.secret))
      else LateBody(if c.metrics then w.(registry := w.registry + {c.issuer}) else w, c, f, gate.plan)
  }

  function LateBody(w: World, c: Config, f: Faults, plan: Plan): Attempt
  {
    var late := FirstFailure(AfterMetrics, f);
    if late != Built then Attempt(w, late, c.metrics, Retains(c.opts, c.secret))
    else if Seed in f.stages || SeedConflicts(w.clients, c.seeds) then
      Attempt(w, Failed(Seed), c.metrics, Retains(c.opts, c.secret))
    else
      var done := CommitPlan(w.(clients := w.clients + c.seeds), plan, Mode(c), f);
      if !done.ok then Attempt(done.w, Failed(Commit), c.metrics, Retains(c.opts, c.secret))
      else Attempt(done.w.(startups := done.w.startups + 1), Built, c.metrics, Retains(c.opts, c.secret))
  }

  /** New: the body, then the deferred calls. The one that clears the secrets is registered
      only once the options have been applied. */
  function Boot(w: World, c: Config, f: Faults): Attempt
  {
    var b := Body(w, c, f);
    Attempt(if b.registered && b.result != Built then b.w.(registry := b.w.registry - {c.issuer}) else b.w,
            b.result, b.registered && b.result == Built,
            b.held && b.result == Failed(Options))
  }

  // ----- failures and retries -----

  lemma {:induction false} FirstFailureIsListed(stages: seq<Stage>, f: Faults)
    ensures FirstFailure(stages, f).Failed? ==> FirstFailure(stages, f).at in stages
    ensures FirstFailure(stages, f).Built? <==> forall i :: 0 <= i < |stages| ==> stages[i] !in f.stages
  {
    if stages != [] && stages[0] !in f.stages {
      FirstFailureIsListed(stages[1..], f);
      assert forall i :: 0 < i < |stages| ==> stages[i] == stages[1..][i - 1];
    }
  }

  lemma CommitTouchesMarkersOnly(w: World, plan: Plan, mode: string, f: Faults)
    ensures var r := CommitPlan(w, plan, mode, f).w; r.(mode := w.mode, init := w.init) == w
  {
  }

  lemma LateFlags(w: World, c: Config, f: Faults, plan: Plan)
    ensures LateBody(w, c, f, plan).registered == c.metrics && LateBody(w, c, f, plan).held == Retains(c.opts, c.secret)
  {
  }

  lemma LateFailure(w: World, c: Config, f: Faults, plan: Plan)
    requires LateBody(w, c, f, plan).result.Failed?
    ensures var b := LateBody(w, c, f, plan);
            && b.registered == c.metrics && b.held == Retains(c.opts, c.secret)
            && b.result.at in AfterMetrics + [Seed, Commit]
            && (b.result != Failed(Commit) ==> b.w == w)
            && (b.result == Failed(Commit) ==>
                  b.w.(mode := w.mode, init := w.init) == w.(clients := w.clients + c.seeds))
  {
    FirstFailureIsListed(AfterMetrics, f);
    CommitTouchesMarkersOnly(w.(clients := w.clients + c.seeds), plan, Mode(c), f);
  }

  /** A failed construction before the commit leaves the world exactly as it found it; a
      failed commit leaves the registry and the audit stream alone. Plaintext secrets
      survive only a failure of the options themselves. */
  lemma FailureLeavesNoTrace(w: World, c: Config, f: Faults)
    requires Boot(w, c, f).result.Failed?
    ensures var b := Boot(w, c, f);
            && (b.result != Failed(Commit) ==> b.w == w)
            && (b.result == Failed(Commit) ==>
                  b.w.(mode := w.mode, init := w.init) == w.(clients := w.clients + c.seeds))
            && (b.held <==> b.result == Failed(Options) && Retains(c.opts, c.secret))
  {
    FirstFailureIsListed(BeforeGate, f);
    var gate := GateVerdict(w, c, f);
    var during := if c.metrics then w.(registry := w.registry + {c.issuer}) else w;
    assert c.issuer !in w.registry ==> w.registry + {c.issuer} - {c.issuer} == w.registry;
    if gate.Pass? && Body(w, c, f) == LateBody(during, c, f, gate.plan) {
      LateFailure(during, c, f, gate.plan);
    }
  }

  /** In the order newConfig applies them, option k hands over a seed with a plaintext, and none
      before it is refused. */
  predicate SecretAt(opts: seq<Engine.Option>, secret: set<string>, k: nat)
  {
    var explicit, wrapped := Engine.Explicit(opts), Engine.Wrapped(opts);
    && k < |explicit| + |wrapped| && Engine.UpTo(explicit, wrapped, k).verdict == Engine.Fine
    && var o := (explicit + wrapped)[k];
       o.Additive? && o.accepted && CarriesSecret((o.list, o.items), secret)
  }

  lemma SecretIsAddition(opts: seq<Engine.Option>, secret: set<string>, k: nat, x: (string, seq<string>))
    requires CarriesSecret(x, secret) && Engine.AdditionAt(Engine.Explicit(opts), Engine.Wrapped(opts), k, x)
    ensures SecretAt(opts, secret, k)
  {
  }

  lemma RetainsIff(opts: seq<Engine.Option>, secret: set<string>)
    ensures Retains(opts, secret) <==> exists k: nat :: SecretAt(opts, secret, k)
  {
    var E, W := Engine.Explicit(opts), Engine.Wrapped(opts);
    if Retains(opts, secret) {
      var x :| x in Engine.Outcome(opts).st.additions && CarriesSecret(x, secret);
      Engine.TakenIn(opts, x);
      var k: nat :| Engine.AdditionAt(E, W, k, x);
      SecretIsAddition(opts, secret, k, x);
    }
    if k: nat :| SecretAt(opts, secret, k) {
      var x := ((E + W)[k].list, (E + W)[k].items);
      Engine.TakenIn(opts, x);
      assert Engine.AdditionAt(E, W, k, x);
    }
  }

  lemma HeldIff(w: World, c: Config, f: Faults)
    ensures Boot(w, c, f).held <==> Refused(c.opts) && Retains(c.opts, c.secret)
  {
    FirstFailureIsListed(BeforeGate, f);
    FirstFailureIsListed(AfterMetrics, f);
  }

  /** Whatever the world and the faults, construction leaves plaintext secrets uncleared exactly
      when newConfig refuses the options, and takes in one that hands over a secret before it
      comes to the one it refuses. */
  lemma SecretsOutliveARefusal(w: World, c: Config, f: Faults)
    ensures Boot(w, c, f).held <==> Refused(c.opts) && exists k: nat :: SecretAt(c.opts, c.secret, k)
  {
    HeldIff(w, c, f);
    RetainsIff(c.opts, c.secret);
  }

  /** A confidential client, then a setting its own check refuses. */
  lemma RefusedSettingKeepsSecret(w: World, c: Config, f: Faults, seed: string, s: Engine.Setting)
    requires c.opts == [Engine.Additive(StaticClients, [seed], true), Engine.Single(s)]
    requires seed in c.secret && !s.valid
    ensures Boot(w, c, f).result == Failed(Options) && Boot(w, c, f).held
  {
    Engine.AddThenRefuse(StaticClients, [seed], s);
    assert CarriesSecret((StaticClients, [seed]), c.secret) by { assert [seed][0] == seed; }
    HeldIff(w, c, f);
  }

  lemma CommitWrites(w: World, plan: Plan, mode: string, f: Faults)
    requires CommitPlan(w, plan, mode, f).ok
    ensures var r := CommitPlan(w, plan, mode, f).w;
            && (plan == WriteNothing ==> r == w)
            && (plan == WriteSentinel ==> r == w.(init := Some(OpInitMarker)))
            && (plan == WriteBoth ==> r == w.(mode := Some(mode), init := Some(OpInitMarker)))
  {
  }

  lemma LateSuccess(w: World, c: Config, f: Faults, plan: Plan)
    requires LateBody(w, c, f, plan).result.Built?
    ensures var done := CommitPlan(w.(clients := w.clients + c.seeds), plan, Mode(c), f);
            done.ok && LateBody(w, c, f, plan) ==
                       Attempt(done.w.(startups := done.w.startups + 1), Built, c.metrics, Retains(c.opts, c.secret))
  {
  }

  /** What the gate lets through: any mode without a metadata store, the recorded mode, or
      any mode of which no record stands. */
  lemma GatePlans(w: World, c: Config, f: Faults)
    requires GateVerdict(w, c, f).Pass?
    ensures var plan := GateVerdict(w, c, f).plan;
            && (plan == WriteNothing <==> !w.metadata)
            && (plan == WriteSentinel ==> w.mode == Some(Mode(c)))
  {
  }

  lemma SuccessIsLate(w: World, c: Config, f: Faults)
    requires CouldBoot(w, c, f)
    ensures var during := if c.metrics then w.(registry := w.registry + {c.issuer}) else w;
            && GateVerdict(w, c, f).Pass? && LateBody(during, c, f, GateVerdict(w, c, f).plan).result.Built?
            && Boot(w, c, f).w == LateBody(during, c, f, GateVerdict(w, c, f).plan).w && !Boot(w, c, f).held
  {
  }

  /** An accepted construction pins its mode and the sentinel, and is announced once. */
  lemma SuccessPinsTheMode(w: World, c: Config, f: Faults)
    requires CouldBoot(w, c, f)
    ensures var b := Boot(w, c, f);
            && (w.metadata ==> b.w.mode == Some(Mode(c)) && b.w.init == Some(OpInitMarker))
            && b.w.startups == w.startups + 1 && !b.held
            && b.w.registry == w.registry + (if c.metrics then {c.issuer} else {})
            && b.w.clients == w.clients + c.seeds && b.w.grants == w.grants
            && b.w.metadata == w.metadata && b.w.grantStore == w.grantStore
  {
    var during := if c.metrics then w.(registry := w.registry + {c.issuer}) else w;
    var plan := GateVerdict(w, c, f).plan;
    SuccessIsLate(w, c, f);
    GatePlans(w, c, f);
    LateSuccess(during, c, f, plan);
    CommitWrites(during.(clients := during.clients + c.seeds), plan, Mode(c), f);
  }

  predicate CouldBoot(w: World, c: Config, f: Faults) { Boot(w, c, f).result.Built? }

  predicate CommitSucceeds(plan: Plan, f: Faults)
  {
    && (plan != WriteNothing ==> f.initWrite == Applied)
    && (plan == WriteBoth ==> f.modeWrite == Applied)
  }

  /** When the gate lets a construction through, said row by row: without a metadata store; in the
      recorded mode, whatever the sentinel and the grants; or on a store without a mode row in
      public mode, or in any mode where nothing shows that the store was used. Each row and the
      grants are read only where they are needed. */
  predicate GateOpen(w: World, c: Config, f: Faults)
  {
    || !w.metadata
    || (f.modeRead && w.mode == Some(Mode(c)))
    || (&& f.modeRead && w.mode == None && f.initRead && (w.grantStore ==> f.grantRead)
        && (Mode(c) == Public || (w.init != Some(OpInitMarker) && !(w.grantStore && w.grants > 0))))
  }

  lemma GatePassesIffOpen(w: World, c: Config, f: Faults)
    ensures GateVerdict(w, c, f).Pass? <==> GateOpen(w, c, f)
    ensures w.metadata && f.modeRead && w.mode == Some(Mode(c)) ==> GateVerdict(w, c, f) == Pass(WriteSentinel)
  {
  }

  const Fallible := {Validate, ProxyTrust, Schema, Keys, Encryption, SharedSignals, Locales, Router, Seed}

  /** All a construction needs, in one place. */
  predicate Clears(w: World, c: Config, f: Faults)
  {
    && !Refused(c.opts) && Seed !in f.stages
    && FirstFailure(BeforeGate, f).Built? && FirstFailure(AfterMetrics, f).Built?
    && GateVerdict(w, c, f).Pass? && CommitSucceeds(GateVerdict(w, c, f).plan, f)
    && (c.metrics ==> c.issuer !in w.registry && Metrics !in f.stages)
    && !SeedConflicts(w.clients, c.seeds)
  }

  lemma BootsIffClears(w: World, c: Config, f: Faults)
    ensures CouldBoot(w, c, f) <==> Clears(w, c, f)
  {
  }

  predicate SeedsAgree(clients: map<string, string>, seeds: map<string, string>)
  {
    forall id :: id in seeds && id in clients ==> clients[id] == seeds[id]
  }

  /** What a construction needs besides an open gate: admissible options, every stage, a free
      metrics registration and no conflicting seed. */
  predicate Prepared(w: World, c: Config, f: Faults)
  {
    && !Refused(c.opts) && (forall s :: s in Fallible ==> s !in f.stages)
    && (c.metrics ==> c.issuer !in w.registry && Metrics !in f.stages)
    && SeedsAgree(w.clients, c.seeds)
  }

  lemma StagesClear(f: Faults)
    ensures FirstFailure(BeforeGate, f).Built? && FirstFailure(AfterMetrics, f).Built? && Seed !in f.stages <==>
            forall s :: s in Fallible ==> s !in f.stages
  {
    FirstFailureIsListed(BeforeGate, f);
    FirstFailureIsListed(AfterMetrics, f);
    assert forall s :: s in Fallible <==> s in BeforeGate || s in AfterMetrics || s == Seed;
  }

  lemma ClearsIffPrepared(w: World, c: Config, f: Faults)
    ensures Clears(w, c, f) <==>
            Prepared(w, c, f) && GateVerdict(w, c, f).Pass? && CommitSucceeds(GateVerdict(w, c, f).plan, f)
  {
    StagesClear(f);
    assert SeedConflicts(w.clients, c.seeds) <==> !SeedsAgree(w.clients, c.seeds);
  }

  lemma CommitIsWritten(w: World, c: Config, f: Faults)
    requires GateVerdict(w, c, f).Pass?
    ensures CommitSucceeds(GateVerdict(w, c, f).plan, f) <==>
            (w.metadata ==> f.initWrite == Applied && (w.mode == None ==> f.modeWrite == Applied))
  {
  }

  /** A construction succeeds exactly when it is prepared, the gate is open, and the marker writes
      that are due arrive. */
  lemma BootsIffInOrder(w: World, c: Config, f: Faults)
    ensures CouldBoot(w, c, f) <==>
            && Prepared(w, c, f) && GateOpen(w, c, f)
            && (w.metadata ==> f.initWrite == Applied && (w.mode == None ==> f.modeWrite == Applied))
  {
    BootsIffClears(w, c, f);
    ClearsIffPrepared(w, c, f);
    GatePassesIffOpen(w, c, f);
    if GateVerdict(w, c, f).Pass? { CommitIsWritten(w, c, f); }
  }

  /** So the recorded mode boots whenever it is prepared and the mode row can be read and the
      sentinel written; grants and the sentinel's value play no part. */
  predicate Ready(w: World, c: Config, f: Faults) { Prepared(w, c, f) && f.modeRead && f.initWrite == Applied }

  lemma RecordedModeBoots(w: World, c: Config, f: Faults)
    requires w.metadata && w.mode == Some(Mode(c))
    ensures CouldBoot(w, c, f) <==> Ready(w, c, f)
  {
    BootsIffInOrder(w, c, f);
  }

  /** A retry with the same configuration is never refused because of an earlier failure,
      whichever stage failed and whatever the store answers the second time. */
  lemma RetryIsNotRefused(w: World, c: Config, f: Faults, again: Faults)
    requires Boot(w, c, f).result.Failed? && CouldBoot(w, c, again)
    ensures CouldBoot(Boot(w, c, f).w, c, again)
  {
    FailureLeavesNoTrace(w, c, f);
    var w' := Boot(w, c, f).w;
    BootsIffClears(w, c, again);
    BootsIffClears(w', c, again);
    assert !SeedConflicts(w.clients + c.seeds, c.seeds);
    if w' != w { MarkersAfterFailedCommit(w, c, f); }
  }

  lemma FailedWrites(w: World, plan: Plan, mode: string, f: Faults)
    requires !CommitPlan(w, plan, mode, f).ok
    ensures var r := CommitPlan(w, plan, mode, f).w;
            && plan != WriteNothing
            && r.mode == (if plan == WriteBoth && f.modeWrite != Lost then Some(mode) else w.mode)
            && (r.init == w.init || (r.init == Some(OpInitMarker) && (plan == WriteBoth ==> r.mode == Some(mode))))
  {
  }

  lemma FailedCommitIsLate(w: World, c: Config, f: Faults)
    requires Boot(w, c, f).result == Failed(Commit)
    ensures var during := if c.metrics then w.(registry := w.registry + {c.issuer}) else w;
            && GateVerdict(w, c, f).Pass?
            && var done := CommitPlan(during.(clients := w.clients + c.seeds), GateVerdict(w, c, f).plan, Mode(c), f);
               !done.ok && Boot(w, c, f).w.mode == done.w.mode && Boot(w, c, f).w.init == done.w.init
  {
    FirstFailureIsListed(BeforeGate, f);
    FirstFailureIsListed(AfterMetrics, f);
  }

  /** What a failed commit can have written: nothing, or this construction's own mode,
      and the sentinel only where the mode row is set. */
  lemma MarkersAfterFailedCommit(w: World, c: Config, f: Faults)
    requires Boot(w, c, f).result == Failed(Commit)
    ensures var w' := Boot(w, c, f).w;
            && w.metadata
            && w'.mode == (if w.mode == None && f.modeWrite != Lost then Some(Mode(c)) else w.mode)
            && (w.mode == None || w.mode == Some(Mode(c)))
            && (w'.init == w.init || (w'.init == Some(OpInitMarker) && w'.mode == Some(Mode(c))))
  {
    var during := if c.metrics then w.(registry := w.registry + {c.issuer}) else w;
    FailedCommitIsLate(w, c, f);
    GatePlans(w, c, f);
    FailedWrites(during.(clients := w.clients + c.seeds), GateVerdict(w, c, f).plan, Mode(c), f);
  }

  /** A retry in another mode is refused exactly when the failing stage was the commit and
      its mode write reached the row, although no Provider ever served that mode. */
  lemma CorrectedRetry(w: World, c: Config, c2: Config, f: Faults, again: Faults)
    requires w.metadata && w.mode == None && Boot(w, c, f).result.Failed?
    requires Mode(c2) != Mode(c) && CouldBoot(w, c2, again)
    requires !SeedConflicts(w.clients + c.seeds, c2.seeds)
    ensures CouldBoot(Boot(w, c, f).w, c2, again) <==>
            !(Boot(w, c, f).result == Failed(Commit) && f.modeWrite != Lost)
  {
    FailureLeavesNoTrace(w, c, f);
    BootsIffClears(w, c2, again);
    BootsIffClears(Boot(w, c, f).w, c2, again);
    if Boot(w, c, f).result == Failed(Commit) { MarkersAfterFailedCommit(w, c, f); }
  }

  /** A fresh store on which a pairwise boot dies between its two writes: the public boot that
      would have succeeded before is refused after, though no provider ever served pairwise. */
  lemma PartialCommitPins(w: World, salt: string)
    requires w.metadata && w.mode == None && w.init == None && w.grants == 0
    ensures var pairwise := Config([], {}, "WithPairwiseSubject", salt, "", false, map[]);
            var public, torn := Config([], {}, "", "", "", false, map[]), Healthy.(initWrite := Lost);
            && Boot(w, pairwise, torn).result == Failed(Commit) && CouldBoot(w, public, Healthy)
            && !CouldBoot(Boot(w, pairwise, torn).w, public, Healthy)
  {
    var pairwise := Config([], {}, "WithPairwiseSubject", salt, "", false, map[]);
    var public, torn := Config([], {}, "", "", "", false, map[]), Healthy.(initWrite := Lost);
    BootsIffClears(w, public, Healthy);
    BootsIffClears(w, pairwise, torn);
    assert Boot(w, pairwise, torn).result == Failed(Commit);
    CorrectedRetry(w, pairwise, public, torn, Healthy);
  }

  // ----- every run -----

  /** What happens to a store, one thing at a time: boots do not overlap. */
  datatype Event =
    | Start(c: Config, f: Faults)
    | IssueGrant
    | DropGrant
    | NewProcess          // a fresh metrics registry
    | WipeMode
    | WipeInit

  function After(w: World, e: Event): World
  {
    match e
    case Start(c, f) => Boot(w, c, f).w
    case IssueGrant => w.(grants := w.grants + 1)
    case DropGrant => w.(grants := if w.grants == 0 then 0 else w.grants - 1)
    case NewProcess => w.(registry := {})
    case WipeMode => w.(mode := None)
    case WipeInit => w.(init := None)
  }

  /** ws[k + 1] is what event k makes of ws[k]. */
  predicate Moves(ws: seq<World>, run: seq<Event>, k: nat)
  {
    k < |run| && k + 1 < |ws| && ws[k + 1] == After(ws[k], run[k])
  }

  /** ws are the worlds a run goes through, before each event and after the last. */
  ghost predicate History(ws: seq<World>, run: seq<Event>)
  {
    |ws| == |run| + 1 && forall k: nat :: k < |run| ==> Moves(ws, run, k)
  }

  /** Every run from every world has a history. */
  function Worlds(w: World, run: seq<Event>): (ws: seq<World>)
    ensures History(ws, run) && ws[0] == w
  {
    if run == [] then [w]
    else
      var n := |run| - 1;
      var before := Worlds(w, run[..n]);
      var ws := before + [After(before[n], run[n])];
      assert forall k: nat :: k < n ==> Moves(before, run[..n], k);
      assert forall k: nat :: k < n ==> Moves(ws, run, k) by {
        forall k: nat | k < n ensures Moves(ws, run, k) { assert Moves(before, run[..n], k); }
      }
      ws
  }

  /** The construction at event i succeeds, in that mode. */
  predicate BootsAt(ws: seq<World>, run: seq<Event>, i: nat, mode: string)
  {
    i < |run| && i < |ws| && run[i].Start? && CouldBoot(ws[i], run[i].c, run[i].f) && Mode(run[i].c) == mode
  }

  /** A set mode row only ever admits its own mode, and no construction rewrites it. */
  lemma RowAdmitsOnlyItsMode(w: World, c: Config, f: Faults)
    requires w.metadata && w.mode.Some?
    ensures Boot(w, c, f).w.mode == w.mode && Boot(w, c, f).w.metadata
    ensures CouldBoot(w, c, f) ==> Some(Mode(c)) == w.mode
  {
    if CouldBoot(w, c, f) {
      SuccessPinsTheMode(w, c, f);
      BootsIffClears(w, c, f);
    } else {
      FailureLeavesNoTrace(w, c, f);
      if Boot(w, c, f).result == Failed(Commit) { MarkersAfterFailedCommit(w, c, f); }
    }
  }

  lemma RowStep(w: World, e: Event)
    requires w.metadata && w.mode.Some? && !e.WipeMode?
    ensures After(w, e).metadata && After(w, e).mode == w.mode
  {
    if e.Start? { RowAdmitsOnlyItsMode(w, e.c, e.f); }
  }

  lemma RowMoves(ws: seq<World>, run: seq<Event>, k: nat)
    requires History(ws, run) && k < |run| && ws[k].metadata && ws[k].mode.Some? && !run[k].WipeMode?
    ensures ws[k + 1].metadata && ws[k + 1].mode == ws[k].mode
  {
    assert Moves(ws, run, k);
    RowStep(ws[k], run[k]);
  }

  lemma {:induction false} RowSticks(ws: seq<World>, run: seq<Event>, i: nat, j: nat)
    requires History(ws, run) && i <= j <= |run| && ws[i].metadata && ws[i].mode.Some?
    requires forall k :: i <= k < j ==> !run[k].WipeMode?
    ensures ws[j].metadata && ws[j].mode == ws[i].mode
    decreases j
  {
    if i < j {
      RowSticks(ws, run, i, j - 1);
      RowMoves(ws, run, j - 1);
    }
  }

  lemma RowAdmitsAt(ws: seq<World>, run: seq<Event>, j: nat, mode: string)
    requires BootsAt(ws, run, j, mode) && ws[j].metadata && ws[j].mode.Some?
    ensures ws[j].mode == Some(mode)
  {
    RowAdmitsOnlyItsMode(ws[j], run[j].c, run[j].f);
  }

  /** Once a boot has committed a mode, even in a commit that died between its two writes,
      every later successful boot uses that mode, through any faults, grants and retries. */
  lemma CommittedModeIsFinal(ws: seq<World>, run: seq<Event>, i: nat, j: nat, mode: string)
    requires History(ws, run) && ws[0].metadata && i < j < |run| && run[i].Start?
    requires ws[i + 1].mode == Some(Mode(run[i].c))
    requires forall k :: i < k < j ==> !run[k].WipeMode?
    requires BootsAt(ws, run, j, mode)
    ensures mode == Mode(run[i].c)
  {
    ShapeIsFixed(ws, run, i + 1);
    RowSticks(ws, run, i + 1, j);
    RowAdmitsAt(ws, run, j, mode);
  }

  /** And that mode goes on booting: after a successful boot, as long as the row is not wiped, a
      later start in the same mode succeeds exactly when it is ready, through any grants, faults
      and failed starts of other modes. */
  lemma SameModeRestarts(ws: seq<World>, run: seq<Event>, i: nat, j: nat, mode: string)
    requires History(ws, run) && ws[0].metadata && i < j < |run| && BootsAt(ws, run, i, mode)
    requires forall k :: i < k < j ==> !run[k].WipeMode?
    requires run[j].Start? && Mode(run[j].c) == mode
    ensures CouldBoot(ws[j], run[j].c, run[j].f) <==> Ready(ws[j], run[j].c, run[j].f)
  {
    ShapeIsFixed(ws, run, i);
    ShapeIsFixed(ws, run, i + 1);
    BootCommits(ws, run, i, mode);
    RowSticks(ws, run, i + 1, j);
    RecordedModeBoots(ws[j], run[j].c, run[j].f);
  }

  lemma ShapeStep(w: World, e: Event)
    ensures After(w, e).metadata == w.metadata && After(w, e).grantStore == w.grantStore
  {
    if e.Start? {
      if CouldBoot(w, e.c, e.f) { SuccessPinsTheMode(w, e.c, e.f); } else { FailureLeavesNoTrace(w, e.c, e.f); }
    }
  }

  lemma ShapeMoves(ws: seq<World>, run: seq<Event>, k: nat)
    requires History(ws, run) && k < |run|
    ensures ws[k + 1].metadata == ws[k].metadata && ws[k + 1].grantStore == ws[k].grantStore
  {
    assert Moves(ws, run, k);
    ShapeStep(ws[k], run[k]);
  }

  lemma {:induction false} ShapeIsFixed(ws: seq<World>, run: seq<Event>, i: nat)
    requires History(ws, run) && i <= |run|
    ensures ws[i].metadata == ws[0].metadata && ws[i].grantStore == ws[0].grantStore
  {
    if i > 0 {
      ShapeIsFixed(ws, run, i - 1);
      ShapeMoves(ws, run, i - 1);
    }
  }

  lemma BootCommits(ws: seq<World>, run: seq<Event>, i: nat, mode: string)
    requires History(ws, run) && i < |run| && BootsAt(ws, run, i, mode) && ws[i].metadata
    ensures ws[i + 1].mode == Some(mode)
  {
    assert Moves(ws, run, i);
    SuccessPinsTheMode(ws[i], run[i].c, run[i].f);
  }

  /** Two successful boots, no wipe between them: the same mode. */
  lemma SuccessfulBootsAgree(ws: seq<World>, run: seq<Event>, i: nat, j: nat, m1: string, m2: string)
    requires History(ws, run) && ws[0].metadata && i < j && BootsAt(ws, run, i, m1) && BootsAt(ws, run, j, m2)
    requires forall k :: i < k < j ==> !run[k].WipeMode?
    ensures m1 == m2
  {
    ShapeIsFixed(ws, run, i);
    BootCommits(ws, run, i, m1);
    CommittedModeIsFinal(ws, run, i, j, m2);
  }

  // ----- the wiped row -----

  /** The store shows it was used: the sentinel, or a grant. */
  predicate Evidence(w: World) { w.init == Some(OpInitMarker) || (w.grantStore && w.grants > 0) }

  /** Used, and its mode row is gone or already public. */
  predicate Tainted(w: World)
  {
    w.metadata && Evidence(w) && (w.mode == None || w.mode == Some(Public))
  }

  lemma TaintedBoot(w: World, c: Config, f: Faults)
    requires Tainted(w)
    ensures Tainted(Boot(w, c, f).w)
    ensures CouldBoot(w, c, f) ==> Mode(c) == Public
  {
    BootsIffClears(w, c, f);
    if CouldBoot(w, c, f) {
      SuccessPinsTheMode(w, c, f);
    } else {
      FailureLeavesNoTrace(w, c, f);
      if Boot(w, c, f).result == Failed(Commit) {
        MarkersAfterFailedCommit(w, c, f);
        GatePassed(w, c, f);
      }
    }
  }

  lemma GatePassed(w: World, c: Config, f: Faults)
    requires Boot(w, c, f).result == Failed(Commit)
    ensures GateVerdict(w, c, f).Pass?
  {
    FirstFailureIsListed(BeforeGate, f);
  }

  lemma TaintStep(w: World, e: Event)
    requires Tainted(w) && Evidence(After(w, e))
    ensures Tainted(After(w, e))
  {
    if e.Start? { TaintedBoot(w, e.c, e.f); }
  }

  lemma TaintMoves(ws: seq<World>, run: seq<Event>, k: nat)
    requires History(ws, run) && k < |run| && Tainted(ws[k]) && Evidence(ws[k + 1])
    ensures Tainted(ws[k + 1])
  {
    assert Moves(ws, run, k);
    TaintStep(ws[k], run[k]);
  }

  lemma {:induction false} TaintSticks(ws: seq<World>, run: seq<Event>, i: nat, j: nat)
    requires History(ws, run) && i <= j <= |run| && Tainted(ws[i])
    requires forall k :: i <= k <= j ==> Evidence(ws[k])
    ensures Tainted(ws[j])
    decreases j
  {
    if i < j {
      TaintSticks(ws, run, i, j - 1);
      TaintMoves(ws, run, j - 1);
    }
  }

  lemma WipeTaints(ws: seq<World>, run: seq<Event>, i: nat)
    requires History(ws, run) && i < |run| && run[i].WipeMode? && ws[i].metadata && Evidence(ws[i + 1])
    ensures Tainted(ws[i + 1])
  {
    assert Moves(ws, run, i);
  }

  lemma TaintedAt(ws: seq<World>, run: seq<Event>, j: nat, mode: string)
    requires BootsAt(ws, run, j, mode) && Tainted(ws[j])
    ensures mode == Public
  {
    TaintedBoot(ws[j], run[j].c, run[j].f);
  }

  /** After the mode row is wiped while the sentinel or a grant survives, no pairwise or
      custom boot ever succeeds again, as long as some such evidence survives. */
  lemma NoSwitchAfterWipe(ws: seq<World>, run: seq<Event>, i: nat, j: nat, mode: string)
    requires History(ws, run) && ws[0].metadata && i < j && BootsAt(ws, run, j, mode) && run[i].WipeMode?
    requires forall k :: i < k <= j ==> Evidence(ws[k])
    ensures mode == Public
  {
    ShapeIsFixed(ws, run, i);
    WipeTaints(ws, run, i);
    TaintSticks(ws, run, i + 1, j);
    TaintedAt(ws, run, j, mode);
  }

  /** So neither of the two options that choose another mode lets a boot succeed then. */
  lemma NoOtherSubjectAfterWipe(ws: seq<World>, run: seq<Event>, i: nat, j: nat)
    requires History(ws, run) && ws[0].metadata && i < j < |run| && run[j].Start? && run[i].WipeMode?
    requires forall k :: i < k <= j ==> Evidence(ws[k])
    requires run[j].c.source == "WithPairwiseSubject" || run[j].c.source == "WithSubjectGenerator"
    ensures !CouldBoot(ws[j], run[j].c, run[j].f)
  {
    if CouldBoot(ws[j], run[j].c, run[j].f) { NoSwitchAfterWipe(ws, run, i, j, Mode(run[j].c)); }
  }

  /** The rows the options write: a pairwise boot leaves "pairwise", a custom one "custom", any
      other "public". */
  lemma RowNamesTheOption(w: World, c: Config, f: Faults)
    requires w.metadata && CouldBoot(w, c, f)
    ensures c.source == "WithPairwiseSubject" ==> Boot(w, c, f).w.mode == Some("pairwise")
    ensures c.source == "WithSubjectGenerator" ==> Boot(w, c, f).w.mode == Some("custom")
    ensures c.source != "WithPairwiseSubject" && c.source != "WithSubjectGenerator" ==>
              Boot(w, c, f).w.mode == Some("public")
  {
    SuccessPinsTheMode(w, c, f);
  }

  /** Only WipeInit and DropGrant can remove the evidence. */
  lemma EvidencePersists(w: World, e: Event)
    requires Evidence(w) && !e.WipeInit? && !e.DropGrant?
    ensures Evidence(After(w, e))
  {
    if e.Start? {
      if CouldBoot(w, e.c, e.f) { SuccessPinsTheMode(w, e.c, e.f); } else {
        FailureLeavesNoTrace(w, e.c, e.f);
        if Boot(w, e.c, e.f).result == Failed(Commit) { MarkersAfterFailedCommit(w, e.c, e.f); }
      }
    }
  }

  const Healthy := Faults({}, true, true, true, Applied, Applied)

  /** But the wipe does re-key: a store that served a mode and is then wiped of its mode row
      boots again in public mode only, whatever the faults; so it keeps the mode it served
      exactly when that mode was public. */
  lemma WipeKeepsOnlyPublic(w: World, c: Config, f: Faults)
    requires w.metadata && CouldBoot(w, c, f)
    ensures var wiped := After(Boot(w, c, f).w, WipeMode);
            && (forall n, g :: CouldBoot(wiped, n, g) ==> Mode(n) == Public)
            && ((forall n, g :: CouldBoot(wiped, n, g) ==> Mode(n) == Mode(c)) <==> Mode(c) == Public)
  {
    SuccessPinsTheMode(w, c, f);
    var wiped := After(Boot(w, c, f).w, WipeMode);
    forall n, g | CouldBoot(wiped, n, g) ensures Mode(n) == Public { TaintedBoot(wiped, n, g); }
    var public := Config([], {}, "", "", "", false, map[]);
    BootsIffClears(wiped, public, Healthy);
    assert CouldBoot(wiped, public, Healthy);
  }

  // ----- what the gate does not see -----

  /** The salt plays no part: a boot with another salt is the same boot, in every world and
      under all faults. */
  lemma SaltIsNotPinned(w: World, c: Config, f: Faults, salt: string)
    ensures Boot(w, c.(salt := salt), f) == Boot(w, c, f)
  {
    var other := c.(salt := salt);
    assert GateVerdict(w, other, f) == GateVerdict(w, c, f);
    if GateVerdict(w, c, f).Pass? {
      var during := if c.metrics then w.(registry := w.registry + {c.issuer}) else w;
      LateIgnoresSalt(during, c, f, GateVerdict(w, c, f).plan, salt);
    }
  }

  lemma LateIgnoresSalt(w: World, c: Config, f: Faults, plan: Plan, salt: string)
    ensures LateBody(w, c.(salt := salt), f, plan) == LateBody(w, c, f, plan)
  {
  }

  /** A foreign value in the sentinel row is read as no sentinel, in every world and under all
      faults; only the library's own value restricts, and on a store without a mode row exactly
      to the boots that would succeed in public mode. */
  lemma ForeignSentinelIsIgnored(w: World, c: Config, f: Faults, value: string)
    ensures value != OpInitMarker ==>
              Boot(w.(init := Some(value)), c, f).result == Boot(w.(init := None), c, f).result
    ensures value == OpInitMarker && w.metadata && w.mode == None ==>
              (CouldBoot(w.(init := Some(value)), c, f) <==>
               CouldBoot(w.(init := None), c, f) && Mode(c) == Public)
  {
    BootsIffClears(w.(init := Some(value)), c, f);
    BootsIffClears(w.(init := None), c, f);
  }

  /** Overlapping boots, both past the gate before either commits, can hold different modes
      exactly on a store that shows no use. */
  lemma OverlapNeedsAnUnusedStore(w: World, c1: Config, c2: Config)
    requires w.metadata && Mode(c1) != Mode(c2)
    ensures GateVerdict(w, c1, Healthy).Pass? && GateVerdict(w, c2, Healthy).Pass? <==>
            w.mode == None && !Evidence(w)
  {
  }

  /** Without a metadata store nothing is pinned. */
  lemma NoMetadataNoGate(w: World, c: Config, f: Faults)
    requires !w.metadata
    ensures GateVerdict(w, c, f) == Pass(WriteNothing)
    ensures Boot(w, c, f).w.mode == w.mode && Boot(w, c, f).w.init == w.init
  {
    if CouldBoot(w, c, f) { BootsIffClears(w, c, f); } else {
      FailureLeavesNoTrace(w, c, f);
      if Boot(w, c, f).result == Failed(Commit) { MarkersAfterFailedCommit(w, c, f); }
    }
  }

  // ----- the imperative constructor -----

  /** The process and the stores it is built over. */
  class Deployment {
    const metadata: bool
    const grantStore: bool
    var mode: Maybe<string>
    var init: Maybe<string>
    var grants: nat
    var clients: map<string, string>
    var registry: set<string>
    var startups: nat
    var secretsHeld: bool
    var collector: bool
    var metricsCommitted: bool

    ghost function Abs(): World
      reads this
    {
      World(metadata, grantStore, mode, init, grants, clients, registry, startups)
    }

    /** Reads only: the rows are looked at in order, and each read may fail. */
    method CheckSubjectModeGate(c: Config, f: Faults) returns (v: Verdict)
      ensures v == GateVerdict(Abs(), c, f)
    {
      var current := Mode(c);
      if !metadata { return Pass(WriteNothing); }
      if !f.modeRead { return Refuse; }
      if mode.Some? {
        if mode.value == current { return Pass(WriteSentinel); }
        return Refuse;
      }
      if !f.initRead { return Refuse; }
      var priorInit := init == Some(OpInitMarker);
      if priorInit && current != Public { return Refuse; }
      var hasGrants := false;
      if grantStore {
        if !f.grantRead { return Refuse; }
        hasGrants := grants > 0;
      }
      if hasGrants && current != Public { return Refuse; }
      return Pass(WriteBoth);
    }

    method CommitSubjectMode(plan: Plan, current: string, f: Faults) returns (ok: bool)
      modifies this`mode, this`init
      ensures Written(Abs(), ok) == CommitPlan(old(Abs()), plan, current, f)
    {
      if plan == WriteNothing { return true; }
      if plan == WriteBoth {
        if f.modeWrite != Lost { mode := Some(current); }
        if f.modeWrite != Applied { return false; }
      }
      if f.initWrite != Lost { init := Some(OpInitMarker); }
      return f.initWrite == Applied;
    }

    method RunStages(stages: seq<Stage>, f: Faults) returns (r: Result)
      ensures r == FirstFailure(stages, f)
    {
      for i := 0 to |stages|
        invariant FirstFailure(stages, f) == FirstFailure(stages[i..], f)
      {
        if stages[i] in f.stages { return Failed(stages[i]); }
        assert stages[i..][1..] == stages[i + 1..];
      }
      return Built;
    }

    /** New without its deferred calls. */
    method Construct(c: Config, f: Faults) returns (r: Result)
      modifies this
      ensures Attempt(Abs(), r, collector, secretsHeld) == Body(old(Abs()), c, f)
      ensures metricsCommitted <==> r == Built
    {
      metricsCommitted, collector := false, false;
      secretsHeld := Retains(c.opts, c.secret);
      if Refused(c.opts) { return Failed(Options); }
      r := RunStages(BeforeGate, f);
      if r != Built { return; }
      var gate := CheckSubjectModeGate(c, f);
      if gate.Refuse? { return Failed(Gate); }
      if c.metrics {
        if c.issuer in registry || Metrics in f.stages { return Failed(Metrics); }
        registry, collector := registry + {c.issuer}, true;
      }
      LateFlags(Abs(), c, f, gate.plan);
      r := ConstructLate(c, f, gate.plan);
    }

    method ConstructLate(c: Config, f: Faults, plan: Plan) returns (r: Result)
      requires !metricsCommitted
      modifies this`clients, this`mode, this`init, this`startups, this`metricsCommitted
      ensures Abs() == LateBody(old(Abs()), c, f, plan).w && r == LateBody(old(Abs()), c, f, plan).result
      ensures metricsCommitted <==> r == Built
    {
      r := RunStages(AfterMetrics, f);
      if r != Built { return; }
      if Seed in f.stages || SeedConflicts(clients, c.seeds) { return Failed(Seed); }
      clients := clients + c.seeds;
      var ok := CommitSubjectMode(plan, Mode(c), f);
      if !ok { return Failed(Commit); }
      startups := startups + 1;
      metricsCommitted := true;
      return Built;
    }

    /** New: whatever the body did, the deferred calls undo the registration of a failed
        construction and clear the secrets of one whose options were applied. */
    method New(c: Config, f: Faults) returns (r: Result)
      modifies this
      ensures Abs() == Boot(old(Abs()), c, f).w && r == Boot(old(Abs()), c, f).result
      ensures secretsHeld == Boot(old(Abs()), c, f).held
      ensures r.Failed? ==> registry == old(registry) && startups == old(startups)
      ensures r.Failed? && r.at != Commit ==> Abs() == old(Abs())
    {
      ghost var w := Abs();
      r := Construct(c, f);
      if collector && !metricsCommitted { registry := registry - {c.issuer}; }
      if r != Failed(Options) { secretsHeld := false; }
      if r.Failed? { FailureLeavesNoTrace(w, c, f); }
    }
  }
}
