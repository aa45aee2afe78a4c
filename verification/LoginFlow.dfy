/** The public login flow: its steps, the checks made of them, and their projection onto what
    the compiler consumes. */
module LoginFlow {
  import opened Maybes
  import opened Sequences
  import Text
  import opened LoginCompile

  datatype BuiltinStep = Password | Passkey | Totp | EmailOtp | RecoveryCode | CaptchaCheck

  /** A step as the embedder writes it. deps: its own dependencies are present; builds: its
      builder accepts its fields; wired: the wrapped authenticator is present. Foreign is a
      step type the library does not know. */
  datatype PublicStep =
    | NilStep
    | Builtin(which: BuiltinStep, deps: bool, builds: bool, verifyUser: bool)
    | External(tag: string, wired: bool, factor: string, strong: bool, count: bool)
    | OneOf(steps: seq<PublicStep>, policy: int)
    | Foreign(name: string)

  /** NilStep as registration: the flow declares none. */
  datatype Flow = Flow(primary: PublicStep, registration: PublicStep, rules: seq<PublicStep>)

  function BuiltinKind(b: BuiltinStep): string
  {
    match b
    case Password => "password"
    case Passkey => "passkey"
    case Totp => "totp"
    case EmailOtp => "email_otp"
    case RecoveryCode => "recovery_code"
    case CaptchaCheck => "captcha"
  }

  predicate IsBuiltin(kind: string)
  {
    kind in ["password", "passkey", "totp", "email_otp", "captcha", "recovery_code"]
  }

  predicate IsUserDefined(kind: string) { kind != "" && !IsBuiltin(kind) && '.' in kind }

  function Kind(s: PublicStep): string
  {
    match s
    case NilStep => ""
    case Builtin(which, _, _, _) => BuiltinKind(which)
    case External(tag, _, _, _, _) => tag
    case Foreign(name) => name
    case OneOf(steps, _) =>
      var kinds := seq(|steps|, i requires 0 <= i < |steps| => Kind(steps[i]));
      "one_of(" + Text.Join(Text.Sort(kinds), ",") + ")"
  }

  // ----- the checks -----

  predicate ExternalKindOk(s: PublicStep)
  {
    s.External? ==> s.wired && s.tag != "" && !IsBuiltin(s.tag) && IsUserDefined(s.tag)
  }

  predicate PrimaryCapable(s: PublicStep, inOneOf: bool)
  {
    match s
    case Builtin(Password, _, _, _) => true
    case Builtin(Passkey, _, _, verifyUser) => verifyUser
    case External(_, _, _, _, count) => !count
    case Builtin(CaptchaCheck, _, _, _) => !inOneOf
    case Builtin(_, _, _, _) => false
    case _ => !inOneOf
  }

  predicate PrimaryPositionOk(s: PublicStep)
  {
    if s.OneOf? then
      s.policy != Skip && forall i :: 0 <= i < |s.steps| && s.steps[i] != NilStep ==> PrimaryCapable(s.steps[i], true)
    else PrimaryCapable(s, false)
  }

  predicate DependenciesOk(s: PublicStep)
  {
    match s
    case NilStep => false
    case Builtin(_, deps, _, _) => deps
    case External(_, wired, _, _, _) => wired
    case OneOf(steps, _) =>
      steps != [] && forall i :: 0 <= i < |steps| ==> DependenciesOk(steps[i]) && ExternalKindOk(steps[i])
    case Foreign(_) => true
  }

  predicate RegistrationOk(s: PublicStep) { s == NilStep || (DependenciesOk(s) && s.External? && !s.count) }

  /** The step, and after a one-of step its members. */
  function Placed(s: PublicStep): seq<PublicStep>
  {
    if s == NilStep then [] else if s.OneOf? then [s] + s.steps else [s]
  }

  /** loginFlowSteps: every step a login can run, in declaration order. */
  function FlowSteps(flow: Flow): seq<PublicStep> { Gather(Placed, [flow.primary] + flow.rules) }

  method LoginFlowSteps(flow: Flow) returns (r: seq<PublicStep>)
    ensures r == FlowSteps(flow)
  {
    var placed := [flow.primary] + flow.rules;
    r := [];
    for i := 0 to |placed|
      invariant r == Gather(Placed, placed[..i])
    {
      assert placed[..i + 1][..i] == placed[..i];
      if placed[i] == NilStep { continue; }
      r := r + [placed[i]];
      if placed[i].OneOf? { r := r + placed[i].steps; }
    }
    assert placed[..|placed|] == placed;
  }

  function Differs(kind: string): PublicStep -> bool { s => s == NilStep || Kind(s) != kind }

  /** checkRegistrationKindUnique: no step of the flow, nor an inner one, bears the kind. */
  method RegistrationKindUnique(flow: Flow, kind: string) returns (ok: bool)
    ensures ok == Each(Differs(kind), FlowSteps(flow))
  {
    var placed, differs := [flow.primary] + flow.rules, Differs(kind);
    EachGather(differs, Placed, placed);
    for i := 0 to |placed|
      invariant forall j :: 0 <= j < i ==> Each(differs, Placed(placed[j]))
    {
      ok := DiffersAt(placed[i], kind);
      if !ok { return; }
    }
    ok := true;
  }

  method DiffersAt(s: PublicStep, kind: string) returns (ok: bool)
    ensures ok == Each(Differs(kind), Placed(s))
  {
    var differs := Differs(kind);
    if !differs(s) {
      assert Placed(s)[0] == s;
      return false;
    }
    if !s.OneOf? { return true; }
    assert Each(differs, [s]);
    EachConcat(differs, [s], s.steps);
    for j := 0 to |s.steps|
      invariant forall k :: 0 <= k < j ==> differs(s.steps[k])
    {
      if !differs(s.steps[j]) { return false; }
    }
    ok := true;
  }

  /** validateLoginFlowKinds. */
  ghost predicate KindsValid(flow: Flow)
  {
    && ExternalKindOk(flow.primary)
    && (forall i :: 0 <= i < |flow.rules| ==> ExternalKindOk(flow.rules[i]))
    && ExternalKindOk(flow.registration)
    && (flow.registration.External? ==> Each(Differs(flow.registration.tag), FlowSteps(flow)))
  }

  /** No rule is missing, names the registration kind, or repeats an earlier rule's kind. */
  predicate RuleKindsOk(rules: seq<PublicStep>, registration: string)
  {
    && NilStep !in rules
    && (registration != "" ==> forall i :: 0 <= i < |rules| ==> Kind(rules[i]) != registration)
    && (forall i, j :: 0 <= i < j < |rules| ==> Kind(rules[i]) != Kind(rules[j]))
  }

  /** checkLoginFlowRuleKinds, with its set of kinds seen. */
  method CheckRuleKinds(flow: Flow) returns (ok: bool)
    ensures ok <==> RuleKindsOk(flow.rules, Kind(flow.registration))
  {
    var seen: set<string>, registration := {}, Kind(flow.registration);
    var rules := flow.rules;
    for i := 0 to |rules|
      invariant RuleKindsOk(rules[..i], registration)
      invariant forall k :: k in seen <==> exists j :: 0 <= j < i && Kind(rules[j]) == k
    {
      if rules[i] == NilStep { return false; }
      var k := Kind(rules[i]);
      if registration != "" && k == registration { return false; }
      if k in seen { return false; }
      seen := seen + {k};
    }
    assert rules[..|rules|] == rules;
    ok := true;
  }

  /** WithLoginFlow and config.validate accept the flow. */
  ghost predicate Validated(flow: Flow)
  {
    && flow.primary != NilStep && RuleKindsOk(flow.rules, Kind(flow.registration))
    && PrimaryPositionOk(flow.primary) && DependenciesOk(flow.primary)
    && RegistrationOk(flow.registration)
    && (forall i :: 0 <= i < |flow.rules| ==> DependenciesOk(flow.rules[i]))
    && KindsValid(flow)
  }

  // ----- the lockout counter -----

  predicate CountsFailures(s: PublicStep)
  {
    match s
    case Builtin(b, _, _, _) => b == Password || b == Totp || b == EmailOtp || b == RecoveryCode
    case External(_, _, _, _, count) => count
    case _ => false
  }

  /** validateLockoutStore: a store resolves, or no step would use it. */
  predicate LockoutOk(flow: Flow, store: bool)
  {
    store || forall i :: 0 <= i < |FlowSteps(flow)| ==> !CountsFailures(FlowSteps(flow)[i])
  }

  // ----- projection -----

  /** The authenticator a built-in step builds; only guessable secrets carry the counter. */
  function BuiltinAuth(b: BuiltinStep, store: bool, discoverable: bool): Auth
  {
    Auth(BuiltinKind(b), store && b != Passkey && b != CaptchaCheck, discoverable, false)
  }

  /** What a step becomes; primary says that no subject is bound yet where it stands. */
  function Projected(s: PublicStep, primary: bool, store: bool): Maybe<SpecStep>
    decreases s
  {
    match s
    case NilStep => None
    case Foreign(_) => None
    case External(tag, wired, factor, strong, count) =>
      if !wired then None
      else Some(SpecStep(tag, Some(Auth(factor, count && store, false, strong)), false, None, 0, false))
    case Builtin(b, _, builds, verifyUser) =>
      if !builds then None
      else Some(SpecStep(BuiltinKind(b), Some(BuiltinAuth(b, store, b == Passkey && primary)), b == CaptchaCheck, None,
                         0, b == Passkey && verifyUser))
    case OneOf(_, policy) =>
      var inner := ProjectedInner(s, |s.steps|, primary, store);
      if inner.None? then None else Some(SpecStep(Kind(s), None, false, Some(inner.value), policy, false))
  }

  function ProjectedInner(s: PublicStep, n: nat, primary: bool, store: bool): Maybe<seq<SpecStep>>
    requires s.OneOf? && n <= |s.steps|
    decreases s, n
  {
    if n == 0 then Some([])
    else
      var rest, last := ProjectedInner(s, n - 1, primary, store), Projected(s.steps[n - 1], primary, store);
      if rest.None? || last.None? then None else Some(rest.value + [last.value])
  }

  /** projectStepAt and projectOneOfStep. */
  method ProjectStepAt(s: PublicStep, primary: bool, store: bool) returns (r: Maybe<SpecStep>)
    ensures r == Projected(s, primary, store)
    decreases s
  {
    match s
    case NilStep => r := None;
    case External(tag, wired, factor, strong, count) =>
      if !wired { return None; }
      var counted := if count then store else false;
      r := Some(SpecStep(tag, Some(Auth(factor, counted, false, strong)), false, None, 0, false));
    case OneOf(_, _) => r := ProjectOneOf(s, primary, store);
    case Builtin(Passkey, _, builds, verifyUser) =>
      if !builds { return None; }
      r := Some(SpecStep(BuiltinKind(Passkey),
                         Some(Auth(BuiltinKind(Passkey), false, primary, false)), false, None, 0, verifyUser));
    case Builtin(CaptchaCheck, _, builds, _) =>
      if !builds { return None; }
      r := Some(SpecStep(BuiltinKind(CaptchaCheck),
                         Some(Auth(BuiltinKind(CaptchaCheck), false, false, false)), true, None, 0, false));
    case Builtin(b, _, builds, _) =>
      if !builds { return None; }
      r := Some(SpecStep(BuiltinKind(b), Some(Auth(BuiltinKind(b), store, false, false)), false, None, 0, false));
    case Foreign(_) => r := None;
  }

  method ProjectOneOf(s: PublicStep, primary: bool, store: bool) returns (r: Maybe<SpecStep>)
    requires s.OneOf?
    ensures r == Projected(s, primary, store)
    decreases s, 0
  {
    var inner: seq<SpecStep> := [];
    for i := 0 to |s.steps|
      invariant ProjectedInner(s, i, primary, store) == Some(inner)
    {
      var step := ProjectStepAt(s.steps[i], primary, store);
      if step.None? {
        InnerFails(s, i + 1, |s.steps|, primary, store);
        return None;
      }
      inner := inner + [step.value];
    }
    r := Some(SpecStep(Kind(s), None, false, Some(inner), s.policy, false));
  }

  lemma {:induction false} InnerFails(s: PublicStep, i: nat, n: nat, primary: bool, store: bool)
    requires s.OneOf? && i <= n <= |s.steps| && ProjectedInner(s, i, primary, store).None?
    ensures ProjectedInner(s, n, primary, store).None?
    decreases n
  {
    if i < n { InnerFails(s, i, n - 1, primary, store); }
  }

  function ProjectedRules(rules: seq<PublicStep>, store: bool): Maybe<seq<SpecStep>>
  {
    if rules == [] then Some([])
    else
      var n := |rules| - 1;
      var rest, last := ProjectedRules(rules[..n], store), Projected(rules[n], false, store);
      if rest.None? || last.None? then None else Some(rest.value + [last.value])
  }

  /** The flow as the compiler receives it. */
  function SpecOf(flow: Flow, store: bool): Maybe<Spec>
  {
    var primary, rules := Projected(flow.primary, true, store), ProjectedRules(flow.rules, store);
    var registration :=
      if flow.registration == NilStep then Some(NoStep) else Projected(flow.registration, true, store);
    if primary.None? || rules.None? || registration.None? then None
    else Some(Spec(primary.value, registration.value, rules.value))
  }

  /** The flow is validated, projects, has its lockout store, and compiles. */
  ghost predicate Accepted(flow: Flow, store: bool)
  {
    Validated(flow) && SpecOf(flow, store).Some? && LockoutOk(flow, store) && Compiles(SpecOf(flow, store).value)
  }

  method ProjectRules(rules: seq<PublicStep>, store: bool) returns (r: Maybe<seq<SpecStep>>)
    ensures r == ProjectedRules(rules, store)
  {
    var out: seq<SpecStep> := [];
    for i := 0 to |rules|
      invariant ProjectedRules(rules[..i], store) == Some(out)
    {
      var then_ := ProjectStepAt(rules[i], false, store);
      assert rules[..i + 1][..i] == rules[..i];
      if then_.None? {
        RulesFail(rules, i + 1, store);
        return None;
      }
      out := out + [then_.value];
    }
    assert rules[..|rules|] == rules;
    r := Some(out);
  }

  /** validateLockoutStore. */
  method CheckLockoutStore(flow: Flow, store: bool) returns (ok: bool)
    ensures ok == LockoutOk(flow, store)
  {
    if store { return true; }
    var steps := LoginFlowSteps(flow);
    for i := 0 to |steps|
      invariant forall j :: 0 <= j < i ==> !CountsFailures(steps[j])
    {
      if CountsFailures(steps[i]) { return false; }
    }
    ok := true;
  }

  /** compileLoginFlow. */
  method CompileFlow(flow: Flow, store: bool) returns (r: Maybe<Compiled>)
    ensures r.Some? <==> SpecOf(flow, store).Some? && LockoutOk(flow, store) && Compiles(SpecOf(flow, store).value)
    ensures r.Some? ==> r.value == CompiledOf(SpecOf(flow, store).value)
  {
    var primary := ProjectStepAt(flow.primary, true, store);
    if primary.None? { return None; }
    var rules := ProjectRules(flow.rules, store);
    if rules.None? { return None; }
    var registration := Some(NoStep);
    if flow.registration != NilStep {
      registration := ProjectStepAt(flow.registration, true, store);
      if registration.None? { return None; }
    }
    var ok := CheckLockoutStore(flow, store);
    if !ok { return None; }
    r := CompileLoginFlow(Spec(primary.value, registration.value, rules.value));
  }

  lemma {:induction false} RulesFail(rules: seq<PublicStep>, i: nat, store: bool)
    requires i <= |rules| && ProjectedRules(rules[..i], store).None?
    ensures ProjectedRules(rules, store).None?
  {
    if i == |rules| {
      assert rules[..i] == rules;
    } else {
      var init := rules[..|rules| - 1];
      assert init[..i] == rules[..i];
      RulesFail(init, i, store);
    }
  }
}
