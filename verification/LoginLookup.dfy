/** What a compiled login flow's indexes mean: each lookup agrees with a scan of the declared
    steps, and the structure the orchestrator relies on holds of every accepted flow. */
module LoginLookup {
  import opened Maybes
  import opened Sequences
  import opened LoginCompile

  // ----- membership in the declarations -----

  lemma {:induction false} InnerMember(parent: string, inner: seq<Leaf>, d: Decl)
    ensures d in InnerDecls(parent, inner) <==>
              d.step.Single? && d.step.leaf in inner && d == Decl(d.step, parent, true)
  {
    if inner != [] {
      var n := |inner| - 1;
      InnerMember(parent, inner[..n], d);
      assert inner == inner[..n] + [inner[n]];
    }
  }

  /** d is the step itself or one of its inner steps. */
  predicate Of(s: Step, d: Decl)
  {
    d == Decl(s, "", true) || (s.Choice? && d.step.Single? && d.step.leaf in s.inner && d == Decl(d.step, s.name, true))
  }

  lemma DeclMember(s: Step, d: Decl)
    ensures d in Decls(s) <==> Of(s, d)
  {
    if s.Choice? { InnerMember(s.name, s.inner, d); }
  }

  lemma {:induction false} GatherMember(rules: seq<Step>, d: Decl)
    ensures d in Gather(Decls, rules) <==> exists r :: r in rules && Of(r, d)
  {
    if rules != [] {
      var n := |rules| - 1;
      GatherMember(rules[..n], d);
      DeclMember(rules[n], d);
      assert rules == rules[..n] + [rules[n]];
      assert forall r :: r in rules <==> r in rules[..n] || r == rules[n];
    }
  }

  /** A declared step of the flow, and where it is declared. */
  ghost predicate Declared(primary: Step, registration: Maybe<Leaf>, rules: seq<Step>, d: Decl)
  {
    || Of(primary, d)
    || (registration.Some? && d == Decl(Single(registration.value), "", false))
    || exists r :: r in rules && Of(r, d)
  }

  lemma FlowMember(primary: Step, registration: Maybe<Leaf>, rules: seq<Step>, d: Decl)
    ensures d in FlowDecls(primary, registration, rules) <==> Declared(primary, registration, rules, d)
  {
    DeclMember(primary, d);
    GatherMember(rules, d);
  }

  // ----- each index is a scan -----

  /** The first declaration that satisfies p. */
  function First(ds: seq<Decl>, p: Decl -> bool): Maybe<Step>
  {
    if ds == [] then None else if p(ds[0]) then Some(ds[0].step) else First(ds[1..], p)
  }

  lemma {:induction false} FirstSnoc(ds: seq<Decl>, d: Decl, p: Decl -> bool)
    ensures First(ds + [d], p) == if First(ds, p).Some? then First(ds, p) else if p(d) then Some(d.step) else None
  {
    if ds == [] {
      assert (ds + [d])[1..] == [];
    } else {
      assert (ds + [d])[1..] == ds[1..] + [d];
      FirstSnoc(ds[1..], d, p);
    }
  }

  function Named(kind: string): Decl -> bool { (d: Decl) => d.step.Kind() == kind }

  function Offers(factor: string): Decl -> bool
  {
    (d: Decl) =>
      d.indexed && d.step.Single? && !d.step.leaf.captcha && factor != "" && d.step.leaf.auth.factor == factor
  }

  /** Looking a kind up in the index is scanning the declarations for it. */
  lemma {:induction false} ByKindIsScan(ds: seq<Decl>, kind: string)
    requires Fresh(ds)
    ensures First(ds, Named(kind)) == if kind in ByKind(ds) then Some(ByKind(ds)[kind]) else None
  {
    if ds != [] {
      var n := |ds| - 1;
      ByKindIsScan(ds[..n], kind);
      assert ds == ds[..n] + [ds[n]];
      FirstSnoc(ds[..n], ds[n], Named(kind));
    }
  }

  /** Looking a factor up finds the first declared step that offers it. */
  lemma {:induction false} ByFactorIsScan(ds: seq<Decl>, factor: string)
    ensures First(ds, Offers(factor)) == if factor in ByFactor(ds) then Some(Single(ByFactor(ds)[factor])) else None
  {
    if ds != [] {
      var n := |ds| - 1;
      ByFactorIsScan(ds[..n], factor);
      assert ds == ds[..n] + [ds[n]];
      FirstSnoc(ds[..n], ds[n], Offers(factor));
    }
  }

  lemma {:induction false} ByKindAt(ds: seq<Decl>, d: Decl)
    requires Fresh(ds) && d in ds
    ensures d.step.Kind() in ByKind(ds) && ByKind(ds)[d.step.Kind()] == d.step
    ensures (d.step.Kind() in ParentOf(ds) <==> d.parent != "")
            && (d.parent != "" ==> ParentOf(ds)[d.step.Kind()] == d.parent)
  {
    var n := |ds| - 1;
    assert ds == ds[..n] + [ds[n]];
    ParentDomain(ds[..n]);
    if d in ds[..n] { ByKindAt(ds[..n], d); }
  }

  lemma {:induction false} ParentDomain(ds: seq<Decl>)
    ensures ParentOf(ds).Keys <= ByKind(ds).Keys
  {
    if ds != [] { ParentDomain(ds[..|ds| - 1]); }
  }

  /** Every entry of an index comes from a declaration. */
  lemma {:induction false} ByKindSource(ds: seq<Decl>, kind: string) returns (d: Decl)
    requires kind in ByKind(ds)
    ensures d in ds && d.step.Kind() == kind && ByKind(ds)[kind] == d.step
  {
    var n := |ds| - 1;
    if ds[n].step.Kind() == kind { d := ds[n]; } else { d := ByKindSource(ds[..n], kind); }
  }

  lemma {:induction false} FirstSource(ds: seq<Decl>, p: Decl -> bool) returns (d: Decl)
    requires First(ds, p).Some?
    ensures d in ds && p(d) && First(ds, p) == Some(d.step)
  {
    if p(ds[0]) { d := ds[0]; } else { d := FirstSource(ds[1..], p); }
  }

  lemma {:induction false} UniqueDecl(ds: seq<Decl>, d: Decl, e: Decl)
    requires Fresh(ds) && d in ds && e in ds && d.step.Kind() == e.step.Kind()
    ensures d == e
  {
    var n := |ds| - 1;
    assert ds == ds[..n] + [ds[n]];
    if d in ds[..n] { ByKindAt(ds[..n], d); }
    if e in ds[..n] { ByKindAt(ds[..n], e); }
    if d in ds[..n] && e in ds[..n] { UniqueDecl(ds[..n], d, e); }
  }

  // ----- the structure of a compiled flow -----

  predicate Known(c: Compiled, s: Step) { s.Kind() in c.byKind && c.byKind[s.Kind()] == s }

  predicate IsRegistration(c: Compiled, kind: string) { c.registration.Some? && c.registration.value.kind == kind }

  predicate TopLevel(c: Compiled, s: Step) { Known(c, s) && s.Kind() !in c.parentOf }

  /** Inner steps are known, are no captcha, and point back to their one-of step. */
  ghost predicate ChoicesCohere(c: Compiled)
  {
    && (forall k :: k in c.byKind ==>
          c.byKind[k].Kind() == k && k != "" && (c.byKind[k].Choice? ==> c.byKind[k].inner != []))
    && (forall k, leaf :: k in c.byKind && c.byKind[k].Choice? && leaf in c.byKind[k].inner ==> InnerOf(c, k, leaf))
    && (forall k :: k in c.parentOf ==> k in c.byKind && c.byKind[k].Single?
                                        && InnerOf(c, c.parentOf[k], c.byKind[k].leaf))
  }

  predicate InnerOf(c: Compiled, parent: string, leaf: Leaf)
  {
    && Known(c, Single(leaf)) && !leaf.captcha && !IsRegistration(c, leaf.kind)
    && leaf.kind in c.parentOf && c.parentOf[leaf.kind] == parent
    && parent in c.byKind && c.byKind[parent].Choice? && leaf in c.byKind[parent].inner
  }

  ghost predicate PositionsCohere(c: Compiled)
  {
    && TopLevel(c, c.primary) && !c.primary.Captcha() && !IsRegistration(c, c.primary.Kind())
    && (c.registration.Some? ==> TopLevel(c, Single(c.registration.value)) && !c.registration.value.captcha)
    && (forall i :: 0 <= i < |c.rules| ==> TopLevel(c, c.rules[i]) && !IsRegistration(c, c.rules[i].Kind()))
  }

  ghost predicate FactorsCohere(c: Compiled)
  {
    forall f :: f in c.byFactor ==>
      && Known(c, Single(c.byFactor[f])) && !c.byFactor[f].captcha && c.byFactor[f].auth.factor == f
      && !IsRegistration(c, c.byFactor[f].kind)
  }

  /** A kind binds the subject exactly when it is Primary, an inner step of Primary, or Registration. */
  ghost predicate BindersCohere(c: Compiled)
  {
    forall k :: k in c.binders <==>
      || k == c.primary.Kind()
      || (k in c.parentOf && c.parentOf[k] == c.primary.Kind())
      || IsRegistration(c, k)
  }

  ghost predicate Coherent(c: Compiled)
  {
    ChoicesCohere(c) && PositionsCohere(c) && FactorsCohere(c) && BindersCohere(c)
  }

  // ----- every accepted flow has it -----

  /** The steps are well shaped after compilation. */
  predicate Tidy(s: Step)
  {
    && s.Kind() != ""
    && (s.Choice? ==> s.inner != [] && forall i :: 0 <= i < |s.inner| ==> !s.inner[i].captcha && s.inner[i].kind != "")
  }

  lemma {:induction false} TidyInner(steps: seq<SpecStep>)
    requires InnerShaped(steps)
    ensures |LeavesOf(steps)| == |steps|
    ensures forall i :: 0 <= i < |LeavesOf(steps)| ==> !LeavesOf(steps)[i].captcha && LeavesOf(steps)[i].kind != ""
  {
    if steps != [] { TidyInner(steps[..|steps| - 1]); }
  }

  lemma TidyStep(s: SpecStep)
    requires StepShape(s)
    ensures Tidy(StepOf(s))
  {
    if s.oneOf.Some? { TidyInner(s.oneOf.value); }
  }

  lemma {:induction false} TidyRules(steps: seq<SpecStep>)
    requires Shaped(steps)
    ensures forall i :: 0 <= i < |StepsOf(steps)| ==> Tidy(StepsOf(steps)[i])
  {
    if steps != [] {
      TidyRules(steps[..|steps| - 1]);
      TidyStep(steps[|steps| - 1]);
    }
  }

  /** The flow is made of tidy steps whose declarations have distinct kinds, and its indexes
      are theirs. */
  ghost predicate Indexed(c: Compiled, ds: seq<Decl>)
  {
    && ds == FlowDecls(c.primary, c.registration, c.rules) && Fresh(ds)
    && c.byKind == ByKind(ds) && c.byFactor == ByFactor(ds) && c.parentOf == ParentOf(ds)
    && c.binders == Binders(c.primary, c.registration)
    && Tidy(c.primary) && !c.primary.Captcha()
    && (c.registration.Some? ==> !c.registration.value.captcha && c.registration.value.kind != "")
    && (forall i :: 0 <= i < |c.rules| ==> Tidy(c.rules[i]))
  }

  lemma CompiledIsIndexed(s: Spec)
    requires Compiles(s)
    ensures Indexed(CompiledOf(s), SpecDecls(s))
  {
    KindsIndexed(SpecDecls(s));
    TidyStep(s.primary);
    TidyRules(s.rules);
  }

  /** Any declared step is found under its kind, and knows its one-of step. */
  lemma DeclaredIsKnown(c: Compiled, ds: seq<Decl>, d: Decl)
    requires Indexed(c, ds) && Declared(c.primary, c.registration, c.rules, d)
    ensures Known(c, d.step) && d.step.Kind() != ""
    ensures (d.step.Kind() in c.parentOf <==> d.parent != "")
            && (d.parent != "" ==> c.parentOf[d.step.Kind()] == d.parent)
    ensures IsRegistration(c, d.step.Kind()) <==> !d.indexed
  {
    FlowMember(c.primary, c.registration, c.rules, d);
    ByKindAt(ds, d);
    if IsRegistration(c, d.step.Kind()) {
      var e := Decl(Single(c.registration.value), "", false);
      FlowMember(c.primary, c.registration, c.rules, e);
      UniqueDecl(ds, d, e);
    }
  }

  lemma InnerIsKnown(c: Compiled, ds: seq<Decl>, s: Step, leaf: Leaf)
    requires Indexed(c, ds) && (s == c.primary || s in c.rules) && s.Choice? && leaf in s.inner
    ensures InnerOf(c, s.name, leaf)
  {
    var d := Decl(Single(leaf), s.name, true);
    assert Of(s, d) && Of(s, Decl(s, "", true));
    assert Tidy(s);
    DeclaredIsKnown(c, ds, d);
    DeclaredIsKnown(c, ds, Decl(s, "", true));
  }

  lemma ChoicesAreTopLevel(c: Compiled, ds: seq<Decl>, kind: string)
    requires Indexed(c, ds) && kind in c.byKind
    ensures c.byKind[kind].Kind() == kind && kind != ""
    ensures c.byKind[kind].Choice? ==>
              c.byKind[kind].inner != [] && (c.byKind[kind] == c.primary || c.byKind[kind] in c.rules)
    ensures kind in c.parentOf ==> c.byKind[kind].Single? && InnerOf(c, c.parentOf[kind], c.byKind[kind].leaf)
  {
    var d := ByKindSource(ds, kind);
    FlowMember(c.primary, c.registration, c.rules, d);
    DeclaredIsKnown(c, ds, d);
    if kind in c.parentOf {
      if Of(c.primary, d) {
        InnerIsKnown(c, ds, c.primary, d.step.leaf);
      } else {
        var r :| r in c.rules && Of(r, d);
        InnerIsKnown(c, ds, r, d.step.leaf);
      }
    }
  }

  lemma ChoicesDoCohere(c: Compiled, ds: seq<Decl>)
    requires Indexed(c, ds)
    ensures ChoicesCohere(c)
  {
    ParentDomain(ds);
    forall k | k in c.byKind
      ensures c.byKind[k].Kind() == k && k != "" && (c.byKind[k].Choice? ==> c.byKind[k].inner != [])
      ensures c.byKind[k].Choice? ==> forall leaf :: leaf in c.byKind[k].inner ==> InnerOf(c, k, leaf)
      ensures k in c.parentOf ==> c.byKind[k].Single? && InnerOf(c, c.parentOf[k], c.byKind[k].leaf)
    {
      ChoicesAreTopLevel(c, ds, k);
      if c.byKind[k].Choice? {
        forall leaf | leaf in c.byKind[k].inner ensures InnerOf(c, k, leaf) { InnerIsKnown(c, ds, c.byKind[k], leaf); }
      }
    }
  }

  lemma PositionsDoCohere(c: Compiled, ds: seq<Decl>)
    requires Indexed(c, ds)
    ensures PositionsCohere(c)
  {
    DeclaredIsKnown(c, ds, Decl(c.primary, "", true));
    if c.registration.Some? { DeclaredIsKnown(c, ds, Decl(Single(c.registration.value), "", false)); }
    forall i | 0 <= i < |c.rules| ensures TopLevel(c, c.rules[i]) && !IsRegistration(c, c.rules[i].Kind()) {
      assert c.rules[i] in c.rules && Of(c.rules[i], Decl(c.rules[i], "", true));
      DeclaredIsKnown(c, ds, Decl(c.rules[i], "", true));
    }
  }

  lemma FactorsDoCohere(c: Compiled, ds: seq<Decl>)
    requires Indexed(c, ds)
    ensures FactorsCohere(c)
  {
    forall f | f in c.byFactor
      ensures Known(c, Single(c.byFactor[f])) && !c.byFactor[f].captcha && c.byFactor[f].auth.factor == f
              && !IsRegistration(c, c.byFactor[f].kind)
    {
      ByFactorIsScan(ds, f);
      var d := FirstSource(ds, Offers(f));
      FlowMember(c.primary, c.registration, c.rules, d);
      DeclaredIsKnown(c, ds, d);
    }
  }

  lemma BindersDoCohere(c: Compiled, ds: seq<Decl>)
    requires Indexed(c, ds) && ChoicesCohere(c) && PositionsCohere(c)
    ensures BindersCohere(c)
  {
    if c.primary.Choice? {
      forall leaf | leaf in c.primary.inner
        ensures leaf.kind in c.parentOf && c.parentOf[leaf.kind] == c.primary.Kind()
      {
        InnerIsKnown(c, ds, c.primary, leaf);
      }
    }
    forall k | k in c.parentOf && c.parentOf[k] == c.primary.Kind() ensures k in c.binders {
      assert InnerOf(c, c.primary.Kind(), c.byKind[k].leaf);
    }
  }

  /** Every flow the compiler accepts is coherent. */
  lemma CompiledIsCoherent(s: Spec)
    requires Compiles(s)
    ensures Coherent(CompiledOf(s))
  {
    var c, ds := CompiledOf(s), SpecDecls(s);
    CompiledIsIndexed(s);
    ChoicesDoCohere(c, ds);
    PositionsDoCohere(c, ds);
    FactorsDoCohere(c, ds);
    BindersDoCohere(c, ds);
  }
}
