/** The login-flow compiler: it indexes every declared step by kind, by factor and by the
    one-of step it belongs to, and refuses flows in which two steps share a kind. */
module LoginCompile {
  import opened Maybes
  import opened Sequences

  /** An authenticator as the compiler sees it: its factor type, whether its failures feed the
      lockout counter, whether it runs without a known user, and whether it claims AAL3. */
  datatype Auth = Auth(factor: string, counted: bool, discoverable: bool, strong: bool)

  /** A step handed to the compiler; oneOf is None unless the step is a one-of step. */
  datatype SpecStep = SpecStep(
    kind: string, auth: Maybe<Auth>, captcha: bool, oneOf: Maybe<seq<SpecStep>>, policy: int, verifyUser: bool)

  const NoStep := SpecStep("", None, false, None, 0, false)

  const Deny := 0
  const Skip := 1

  datatype Spec = Spec(primary: SpecStep, registration: SpecStep, rules: seq<SpecStep>)

  datatype Leaf = Leaf(kind: string, auth: Auth, captcha: bool, verifyUser: bool)

  datatype Step = Single(leaf: Leaf) | Choice(name: string, inner: seq<Leaf>, skip: bool) {
    function Kind(): string { if Single? then leaf.kind else name }
    predicate Captcha() { Single? && leaf.captcha }
  }

  datatype Compiled = Compiled(
    primary: Step, registration: Maybe<Leaf>, rules: seq<Step>,
    byKind: map<string, Step>, byFactor: map<string, Leaf>, parentOf: map<string, string>, binders: set<string>)

  // ----- what a flow declares -----

  /** One declared step, the one-of step it belongs to, and whether risk may call for it. */
  datatype Decl = Decl(step: Step, parent: string, indexed: bool)

  function LeafOf(s: SpecStep): Leaf
  {
    Leaf(s.kind, if s.auth.Some? then s.auth.value else Auth("", false, false, false), s.captcha, s.verifyUser)
  }

  function LeavesOf(steps: seq<SpecStep>): seq<Leaf>
  {
    if steps == [] then [] else LeavesOf(steps[..|steps| - 1]) + [LeafOf(steps[|steps| - 1])]
  }

  function StepOf(s: SpecStep): Step
  {
    if s.oneOf.None? then Single(LeafOf(s)) else Choice(s.kind, LeavesOf(s.oneOf.value), s.policy == Skip)
  }

  function StepsOf(steps: seq<SpecStep>): seq<Step>
  {
    if steps == [] then [] else StepsOf(steps[..|steps| - 1]) + [StepOf(steps[|steps| - 1])]
  }

  function InnerDecls(parent: string, inner: seq<Leaf>): seq<Decl>
  {
    if inner == [] then []
    else InnerDecls(parent, inner[..|inner| - 1]) + [Decl(Single(inner[|inner| - 1]), parent, true)]
  }

  function Decls(s: Step): seq<Decl>
  {
    [Decl(s, "", true)] + if s.Single? then [] else InnerDecls(s.name, s.inner)
  }

  function RegistrationDecls(r: Maybe<Leaf>): seq<Decl> { if r.Some? then [Decl(Single(r.value), "", false)] else [] }

  function FlowDecls(primary: Step, registration: Maybe<Leaf>, rules: seq<Step>): seq<Decl>
  {
    Decls(primary) + RegistrationDecls(registration) + Gather(Decls, rules)
  }

  /** No registration step is declared. */
  predicate Absent(s: SpecStep) { s.auth.None? && s.oneOf.None? && s.kind == "" && !s.captcha }

  function RegistrationOf(s: SpecStep): Maybe<Leaf> { if Absent(s) then None else Some(LeafOf(s)) }

  function SpecDecls(s: Spec): seq<Decl>
  {
    FlowDecls(StepOf(s.primary), RegistrationOf(s.registration), StepsOf(s.rules))
  }

  function Kinds(ds: seq<Decl>): (r: seq<string>)
    ensures |r| == |ds| && forall i :: 0 <= i < |r| ==> r[i] == ds[i].step.Kind()
  {
    seq(|ds|, i requires 0 <= i < |ds| => ds[i].step.Kind())
  }

  // ----- the indexes as folds over the declarations -----

  function ByKind(ds: seq<Decl>): map<string, Step>
  {
    if ds == [] then map[]
    else
      var n := |ds| - 1;
      ByKind(ds[..n])[ds[n].step.Kind() := ds[n].step]
  }

  /** No declaration repeats the kind of an earlier one. */
  predicate Fresh(ds: seq<Decl>)
  {
    ds == [] || (Fresh(ds[..|ds| - 1]) && ds[|ds| - 1].step.Kind() !in ByKind(ds[..|ds| - 1]))
  }

  function IndexFactor(m: map<string, Leaf>, leaf: Leaf): map<string, Leaf>
  {
    if leaf.captcha || leaf.auth.factor == "" || leaf.auth.factor in m then m else m[leaf.auth.factor := leaf]
  }

  function ByFactor(ds: seq<Decl>): map<string, Leaf>
  {
    if ds == [] then map[]
    else
      var n, m := |ds| - 1, ByFactor(ds[..|ds| - 1]);
      if ds[n].indexed && ds[n].step.Single? then IndexFactor(m, ds[n].step.leaf) else m
  }

  function ParentOf(ds: seq<Decl>): map<string, string>
  {
    if ds == [] then map[]
    else
      var n, m := |ds| - 1, ParentOf(ds[..|ds| - 1]);
      if ds[n].parent == "" then m else m[ds[n].step.Kind() := ds[n].parent]
  }

  lemma IndexSnoc(ds: seq<Decl>, d: Decl)
    ensures ByKind(ds + [d]) == ByKind(ds)[d.step.Kind() := d.step]
    ensures ByFactor(ds + [d]) ==
            if d.indexed && d.step.Single? then IndexFactor(ByFactor(ds), d.step.leaf) else ByFactor(ds)
    ensures ParentOf(ds + [d]) == if d.parent == "" then ParentOf(ds) else ParentOf(ds)[d.step.Kind() := d.parent]
    ensures Fresh(ds + [d]) <==> Fresh(ds) && d.step.Kind() !in ByKind(ds)
  {
    assert (ds + [d])[..|ds|] == ds;
  }

  lemma {:induction false} FreshPrefix(a: seq<Decl>, b: seq<Decl>)
    ensures Fresh(a + b) ==> Fresh(a)
    decreases |b|
  {
    if b == [] {
      assert a + b == a;
    } else {
      var n := |b| - 1;
      assert a + b == (a + b[..n]) + [b[n]];
      IndexSnoc(a + b[..n], b[n]);
      FreshPrefix(a, b[..n]);
    }
  }

  lemma {:induction false} KindsIndexed(ds: seq<Decl>)
    ensures forall k :: k in ByKind(ds) <==> k in Kinds(ds)
    ensures Fresh(ds) <==> Distinct(Kinds(ds))
  {
    if ds != [] {
      var n := |ds| - 1;
      KindsIndexed(ds[..n]);
      assert Kinds(ds) == Kinds(ds[..n]) + [ds[n].step.Kind()];
      DistinctSnoc(Kinds(ds[..n]), ds[n].step.Kind());
    }
  }

  // ----- what the compiler accepts -----

  predicate InnerShape(s: SpecStep) { s.oneOf.None? && !s.captcha && s.auth.Some? && s.kind != "" }

  predicate InnerShaped(steps: seq<SpecStep>)
  {
    steps == [] || (InnerShaped(steps[..|steps| - 1]) && InnerShape(steps[|steps| - 1]))
  }

  predicate StepShape(s: SpecStep)
  {
    && (s.policy == Deny || s.policy == Skip)
    && (s.auth.Some? || s.oneOf.Some?)
    && s.kind != ""
    && (s.oneOf.Some? ==>
          s.auth.None? && !s.captcha && s.oneOf.value != [] && InnerShaped(s.oneOf.value))
  }

  predicate Shaped(steps: seq<SpecStep>)
  {
    steps == [] || (Shaped(steps[..|steps| - 1]) && StepShape(steps[|steps| - 1]))
  }

  predicate RegistrationShape(s: SpecStep) { Absent(s) || InnerShape(s) }

  /** CompileLoginFlow accepts: every step is well shaped and no two share a kind. */
  predicate Compiles(s: Spec)
  {
    && StepShape(s.primary) && !s.primary.captcha
    && RegistrationShape(s.registration)
    && Shaped(s.rules)
    && Distinct(Kinds(SpecDecls(s)))
  }

  function Binders(primary: Step, registration: Maybe<Leaf>): set<string>
  {
    {primary.Kind()}
    + (if primary.Choice? then set leaf <- primary.inner :: leaf.kind else {})
    + (if registration.Some? then {registration.value.kind} else {})
  }

  /** What the compiler returns for an accepted flow. */
  function CompiledOf(s: Spec): Compiled
  {
    var primary, registration, rules := StepOf(s.primary), RegistrationOf(s.registration), StepsOf(s.rules);
    var ds := FlowDecls(primary, registration, rules);
    Compiled(primary, registration, rules, ByKind(ds), ByFactor(ds), ParentOf(ds), Binders(primary, registration))
  }

  // ----- the compiler -----

  class Compiler {
    var byKind: map<string, Step>
    var byFactor: map<string, Leaf>
    var parentOf: map<string, string>

    constructor ()
      ensures Holds([])
    {
      byKind, byFactor, parentOf := map[], map[], map[];
    }

    /** The indexes are those of the declarations seen so far, whose kinds are distinct. */
    ghost predicate Holds(ds: seq<Decl>)
      reads this
    {
      byKind == ByKind(ds) && byFactor == ByFactor(ds) && parentOf == ParentOf(ds) && Fresh(ds)
    }

    method Register(step: Step) returns (ok: bool)
      modifies this`byKind
      ensures ok == (step.Kind() !in old(byKind))
      ensures byKind == if ok then old(byKind)[step.Kind() := step] else old(byKind)
    {
      if step.Kind() in byKind { return false; }
      byKind := byKind[step.Kind() := step];
      ok := true;
    }

    method CompileLeaf(s: SpecStep, parent: string, ghost ds: seq<Decl>) returns (r: Maybe<Leaf>)
      requires Holds(ds) && s.auth.Some?
      modifies this
      ensures r.Some? <==> Fresh(ds + [Decl(Single(LeafOf(s)), parent, true)])
      ensures r.Some? ==> r.value == LeafOf(s) && Holds(ds + [Decl(Single(LeafOf(s)), parent, true)])
    {
      var leaf := LeafOf(s);
      ghost var d := Decl(Single(leaf), parent, true);
      IndexSnoc(ds, d);
      var ok := Register(Single(leaf));
      if !ok { return None; }
      byFactor := IndexFactor(byFactor, leaf);
      if parent != "" { parentOf := parentOf[leaf.kind := parent]; }
      r := Some(leaf);
    }

    method CompileInnerStep(s: SpecStep, kind: string, ghost ds: seq<Decl>) returns (r: Maybe<Leaf>)
      requires Holds(ds) && kind != ""
      modifies this
      ensures r.Some? <==> InnerShape(s) && Fresh(ds + [Decl(Single(LeafOf(s)), kind, true)])
      ensures r.Some? ==> r.value == LeafOf(s) && Holds(ds + [Decl(Single(LeafOf(s)), kind, true)])
    {
      if s.oneOf.Some? || s.captcha || s.auth.None? || s.kind == "" { return None; }
      r := CompileLeaf(s, kind, ds);
    }

    /** The inner steps of a one-of step, registered under a step whose list is not yet known. */
    method CompileInner(kind: string, steps: seq<SpecStep>, ghost ds: seq<Decl>) returns (r: Maybe<seq<Leaf>>)
      requires Holds(ds) && kind != ""
      modifies this
      ensures r.Some? <==> InnerShaped(steps) && Fresh(WithInner(ds, kind, steps))
      ensures r.Some? ==> r.value == LeavesOf(steps) && Holds(WithInner(ds, kind, steps))
    {
      var inner: seq<Leaf> := [];
      for j := 0 to |steps|
        invariant inner == LeavesOf(steps[..j]) && Holds(WithInner(ds, kind, steps[..j])) && InnerShaped(steps[..j])
      {
        InnerUpTo(ds, kind, steps, j + 1);
        assert steps[..j + 1][..j] == steps[..j];
        var leaf := CompileInnerStep(steps[j], kind, WithInner(ds, kind, steps[..j]));
        if leaf.None? { return None; }
        inner := inner + [leaf.value];
      }
      assert steps[..|steps|] == steps;
      r := Some(inner);
    }

    method CompileOneOf(s: SpecStep, ghost ds: seq<Decl>) returns (r: Maybe<Step>)
      requires Holds(ds) && s.oneOf.Some? && s.kind != ""
      modifies this
      ensures r.Some? <==> s.auth.None? && !s.captcha && s.oneOf.value != [] && InnerShaped(s.oneOf.value)
                           && Fresh(ds + Decls(StepOf(s)))
      ensures r.Some? ==> r.value == StepOf(s) && Holds(ds + Decls(StepOf(s)))
    {
      if s.auth.Some? || s.captcha || s.oneOf.value == [] { return None; }
      var hole := Choice(s.kind, [], false);
      OneOfDecls(s, ds, hole);
      IndexSnoc(ds, Decl(hole, "", true));
      var ok := Register(hole);
      if !ok { return None; }
      var inner := CompileInner(s.kind, s.oneOf.value, ds + [Decl(hole, "", true)]);
      if inner.None? { return None; }
      var step := Choice(s.kind, inner.value, s.policy == Skip);
      byKind := byKind[s.kind := step];
      r := Some(step);
    }

    method CompileStep(s: SpecStep, ghost ds: seq<Decl>) returns (r: Maybe<Step>)
      requires Holds(ds) && (s.auth.Some? || s.oneOf.Some?) && s.kind != ""
      modifies this
      ensures r.Some? <==> StepShape(s) && Fresh(ds + Decls(StepOf(s)))
      ensures r.Some? ==> r.value == StepOf(s) && Holds(ds + Decls(StepOf(s)))
    {
      if s.policy != Deny && s.policy != Skip { return None; }
      if s.oneOf.None? {
        assert Decls(StepOf(s)) == [Decl(Single(LeafOf(s)), "", true)];
        var leaf := CompileLeaf(s, "", ds);
        return if leaf.Some? then Some(Single(leaf.value)) else None;
      }
      r := CompileOneOf(s, ds);
    }

    method CompileRegistration(s: SpecStep, ghost ds: seq<Decl>) returns (ok: bool, r: Maybe<Leaf>)
      requires Holds(ds)
      modifies this
      ensures ok <==> RegistrationShape(s) && Fresh(ds + RegistrationDecls(RegistrationOf(s)))
      ensures ok ==> r == RegistrationOf(s) && Holds(ds + RegistrationDecls(r))
    {
      if Absent(s) {
        assert ds + RegistrationDecls(None) == ds;
        return true, None;
      }
      if s.oneOf.Some? || s.captcha || s.auth.None? || s.kind == "" { return false, None; }
      var leaf := LeafOf(s);
      IndexSnoc(ds, Decl(Single(leaf), "", false));
      ok := Register(Single(leaf));
      r := Some(leaf);
    }

    method CompileRule(s: SpecStep, ghost ds: seq<Decl>) returns (r: Maybe<Step>)
      requires Holds(ds)
      modifies this
      ensures r.Some? <==> StepShape(s) && Fresh(ds + Decls(StepOf(s)))
      ensures r.Some? ==> r.value == StepOf(s) && Holds(ds + Decls(StepOf(s)))
    {
      if (s.auth.None? && s.oneOf.None?) || s.kind == "" { return None; }
      r := CompileStep(s, ds);
    }

    method CompileRules(specs: seq<SpecStep>, ghost ds: seq<Decl>) returns (r: Maybe<seq<Step>>)
      requires Holds(ds)
      modifies this
      ensures r.Some? <==> Shaped(specs) && Fresh(Extended(ds, specs))
      ensures r.Some? ==> r.value == StepsOf(specs) && Holds(Extended(ds, specs))
    {
      var rules: seq<Step> := [];
      UpTo(ds, specs, |specs|);
      for i := 0 to |specs|
        invariant rules == StepsOf(specs[..i]) && Holds(Extended(ds, specs[..i])) && Shaped(specs[..i])
      {
        UpTo(ds, specs, i + 1);
        StepsSnoc(specs, i);
        assert specs[..i + 1][..i] == specs[..i];
        var then_ := CompileRule(specs[i], Extended(ds, specs[..i]));
        if then_.None? { return None; }
        rules := rules + [then_.value];
      }
      assert specs[..|specs|] == specs;
      r := Some(rules);
    }
  }

  lemma StepsSnoc(specs: seq<SpecStep>, i: nat)
    requires i < |specs|
    ensures StepsOf(specs[..i + 1]) == StepsOf(specs[..i]) + [StepOf(specs[i])]
  {
    assert specs[..i + 1][..i] == specs[..i];
  }

  /** The declarations after compiling the rules on top of ds. */
  ghost function Extended(ds: seq<Decl>, specs: seq<SpecStep>): seq<Decl>
  {
    if specs == [] then ds else Extended(ds, specs[..|specs| - 1]) + Decls(StepOf(specs[|specs| - 1]))
  }

  lemma {:induction false} ExtendedIsGather(ds: seq<Decl>, specs: seq<SpecStep>)
    ensures Extended(ds, specs) == ds + Gather(Decls, StepsOf(specs))
  {
    if specs != [] {
      var n := |specs| - 1;
      ExtendedIsGather(ds, specs[..n]);
      GatherConcat(Decls, StepsOf(specs[..n]), [StepOf(specs[n])]);
      GatherOne(Decls, StepOf(specs[n]));
    }
  }

  lemma {:induction false} UpTo(ds: seq<Decl>, specs: seq<SpecStep>, i: nat)
    requires i <= |specs|
    ensures Fresh(Extended(ds, specs)) ==> Fresh(Extended(ds, specs[..i]))
    ensures Shaped(specs) ==> Shaped(specs[..i])
  {
    if i == |specs| {
      assert specs[..i] == specs;
    } else {
      var init := specs[..|specs| - 1];
      assert init[..i] == specs[..i];
      UpTo(ds, init, i);
      FreshPrefix(Extended(ds, init), Decls(StepOf(specs[|specs| - 1])));
    }
  }

  /** CompileLoginFlow accepts exactly the well-shaped flows with distinct kinds, and its
      indexes are those of the declarations in order. */
  method CompileLoginFlow(s: Spec) returns (r: Maybe<Compiled>)
    ensures r.Some? <==> Compiles(s)
    ensures r.Some? ==> r.value == CompiledOf(s)
  {
    if s.primary.auth.None? && s.primary.oneOf.None? { return None; }
    if s.primary.captcha || s.primary.kind == "" { return None; }
    var c := new Compiler();
    ghost var primary, registration := StepOf(s.primary), RegistrationOf(s.registration);
    ghost var tail := Gather(Decls, StepsOf(s.rules));
    assert [] + Decls(primary) == Decls(primary);
    KindsIndexed(SpecDecls(s));
    ExtendedIsGather(Decls(primary) + RegistrationDecls(registration), s.rules);
    FreshPrefix(Decls(primary) + RegistrationDecls(registration), tail);
    FreshPrefix(Decls(primary), RegistrationDecls(registration));
    var p := c.CompileStep(s.primary, []);
    if p.None? { return None; }
    var ok, reg := c.CompileRegistration(s.registration, Decls(primary));
    if !ok { return None; }
    var rules := c.CompileRules(s.rules, Decls(primary) + RegistrationDecls(registration));
    if rules.None? { return None; }
    r := Some(Compiled(p.value, reg, rules.value, c.byKind, c.byFactor, c.parentOf, Binders(p.value, reg)));
  }

  /** The declarations after compiling inner steps of the one-of step kind on top of ds. */
  ghost function WithInner(ds: seq<Decl>, kind: string, steps: seq<SpecStep>): seq<Decl>
  {
    if steps == [] then ds
    else WithInner(ds, kind, steps[..|steps| - 1]) + [Decl(Single(LeafOf(steps[|steps| - 1])), kind, true)]
  }

  lemma {:induction false} WithInnerIsDecls(ds: seq<Decl>, kind: string, steps: seq<SpecStep>)
    ensures WithInner(ds, kind, steps) == ds + InnerDecls(kind, LeavesOf(steps))
  {
    if steps != [] {
      var n := |steps| - 1;
      WithInnerIsDecls(ds, kind, steps[..n]);
      var leaves := LeavesOf(steps);
      assert leaves[..|leaves| - 1] == LeavesOf(steps[..n]);
    }
  }

  lemma {:induction false} InnerUpTo(ds: seq<Decl>, kind: string, steps: seq<SpecStep>, j: nat)
    requires j <= |steps|
    ensures Fresh(WithInner(ds, kind, steps)) ==> Fresh(WithInner(ds, kind, steps[..j]))
    ensures InnerShaped(steps) ==> InnerShaped(steps[..j])
  {
    if j == |steps| {
      assert steps[..j] == steps;
    } else {
      var init := steps[..|steps| - 1];
      assert init[..j] == steps[..j];
      InnerUpTo(ds, kind, init, j);
      FreshPrefix(WithInner(ds, kind, init), [Decl(Single(LeafOf(steps[|steps| - 1])), kind, true)]);
    }
  }

  lemma OneOfDecls(s: SpecStep, ds: seq<Decl>, hole: Step)
    requires s.oneOf.Some? && hole == Choice(s.kind, [], false)
    ensures var full, part := ds + Decls(StepOf(s)), WithInner(ds + [Decl(hole, "", true)], s.kind, s.oneOf.value);
            && Fresh(full) == Fresh(part) && ByFactor(full) == ByFactor(part) && ParentOf(full) == ParentOf(part)
            && (Fresh(part) ==> ByKind(full) == ByKind(part)[s.kind := StepOf(s)] && Fresh(ds + [Decl(hole, "", true)]))
  {
    var step, d := StepOf(s), Decl(hole, "", true);
    var tail := InnerDecls(s.kind, LeavesOf(s.oneOf.value));
    WithInnerIsDecls(ds + [d], s.kind, s.oneOf.value);
    assert ds + Decls(step) == ds + [Decl(step, "", true)] + tail;
    FillHole(ds, d, Decl(step, "", true), tail);
    FreshPrefix(ds + [d], tail);
  }

  /** Putting the finished one-of step in place of its placeholder. */
  lemma {:induction false} FillHole(ds: seq<Decl>, hole: Decl, full: Decl, tail: seq<Decl>)
    requires hole.step.Choice? && full.step.Choice? && hole.step.Kind() == full.step.Kind()
    requires hole.parent == full.parent
    ensures Fresh(ds + [full] + tail) == Fresh(ds + [hole] + tail)
    ensures ByFactor(ds + [full] + tail) == ByFactor(ds + [hole] + tail)
    ensures ParentOf(ds + [full] + tail) == ParentOf(ds + [hole] + tail)
    ensures ByKind(ds + [full] + tail).Keys == ByKind(ds + [hole] + tail).Keys
    ensures full.step.Kind() in ByKind(ds + [full] + tail)
    ensures Fresh(ds + [hole] + tail) ==>
              ByKind(ds + [full] + tail) == ByKind(ds + [hole] + tail)[full.step.Kind() := full.step]
    decreases |tail|
  {
    if tail == [] {
      assert ds + [full] + tail == ds + [full] && ds + [hole] + tail == ds + [hole];
      IndexSnoc(ds, full);
      IndexSnoc(ds, hole);
    } else {
      var n := |tail| - 1;
      var a, b := ds + [full] + tail[..n], ds + [hole] + tail[..n];
      assert ds + [full] + tail == a + [tail[n]] && ds + [hole] + tail == b + [tail[n]];
      FillHole(ds, hole, full, tail[..n]);
      IndexSnoc(a, tail[n]);
      IndexSnoc(b, tail[n]);
    }
  }
}
