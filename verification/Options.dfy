/** The option engine of op.New: options claim single-valued settings, options wrapped
    in WithDefaults are applied last and give way to explicit ones. The loops of
    newConfig are tied to a left-to-right fold, and the fold to a specification that
    only speaks about the two multisets of explicit and default effects. */
module Options {
  import opened Sequences

  /** Which option set a setting, and whether it came from WithDefaults. */
  datatype Claim = Claim(option: string, fallback: bool)

  /** One single-valued effect: the slot it claims, the option that claims it, the value
      it writes, and whether the option's own input check accepts that value. */
  datatype Setting = Setting(slot: string, option: string, value: string, valid: bool)

  /** Additive appends to a list; Unique registers one entry of a list that may not repeat. A call
      that registers several entries stands for as many Unique options in a row. */
  datatype Option =
    | Nil
    | Single(setting: Setting)
    | Multi(parts: seq<Setting>)
    | Additive(list: string, items: seq<string>, accepted: bool)
    | Unique(list: string, item: string, known: bool)
    | Flag(name: string)
    | Defaults(opts: seq<Option>)

  datatype Verdict =
    | Fine
    | ShadowedDefault
    | AtMostOnce(option: string)
    | Conflict(option: string, prior: string)
    | Rejected(what: string)

  /** The settings part of the config record. */
  datatype State = State(
    claimed: map<string, Claim>,
    settings: map<string, string>,
    additions: seq<(string, seq<string>)>,
    registered: seq<(string, string)>,
    flags: set<string>)

  const Fresh := State(map[], map[], [], [], {})

  /** The effects an option is made of, in the order it performs them. */
  datatype Atom =
    | Put(s: Setting)
    | Add(list: string, items: seq<string>, accepted: bool)
    | Register(list: string, item: string, known: bool)
    | Raise(name: string)

  predicate IsLeaf(o: Option) { !o.Nil? && !o.Defaults? }

  function Puts(parts: seq<Setting>): (atoms: seq<Atom>)
    ensures |atoms| == |parts|
    ensures forall i :: 0 <= i < |parts| ==> atoms[i] == Put(parts[i])
  {
    seq(|parts|, i requires 0 <= i < |parts| => Put(parts[i]))
  }

  function Atoms(o: Option): seq<Atom>
  {
    match o
    case Nil => []
    case Single(s) => [Put(s)]
    case Multi(parts) => Puts(parts)
    case Additive(list, items, accepted) => [Add(list, items, accepted)]
    case Unique(list, item, known) => [Register(list, item, known)]
    case Flag(name) => [Raise(name)]
    case Defaults(_) => []
  }

  // ----- one effect -----

  /** claimSlot: what claiming slot for option answers in a given claim table. */
  function ClaimVerdict(claimed: map<string, Claim>, slot: string, option: string, fallback: bool): Verdict
  {
    if slot !in claimed then Fine
    else if fallback && !claimed[slot].fallback then ShadowedDefault
    else if claimed[slot].option == option then AtMostOnce(option)
    else Conflict(option, claimed[slot].option)
  }

  datatype Step = Step(st: State, verdict: Verdict)

  function Apply1(st: State, a: Atom, fallback: bool): Step
  {
    match a
    case Put(s) =>
      var v := ClaimVerdict(st.claimed, s.slot, s.option, fallback);
      if v != Fine then Step(st, v)
      else
        var held := st.(claimed := st.claimed[s.slot := Claim(s.option, fallback)]);
        if !s.valid then Step(held, Rejected(s.option))
        else Step(held.(settings := st.settings[s.slot := s.value]), Fine)
    case Add(list, items, accepted) =>
      if !accepted then Step(st, Rejected(list))
      else Step(st.(additions := st.additions + [(list, items)]), Fine)
    case Register(list, item, known) =>
      if !known then Step(st, Rejected(list))
      else if (list, item) in st.registered then Step(st, AtMostOnce(list))
      else Step(st.(registered := st.registered + [(list, item)]), Fine)
    case Raise(name) => Step(st.(flags := st.flags + {name}), Fine)
  }

  /** Effects in sequence: a shadowed default is passed over, the first other refusal ends
      the run. */
  function Run(st: State, atoms: seq<Atom>, fallback: bool): (r: Step)
    ensures r.verdict != ShadowedDefault
  {
    if atoms == [] then Step(st, Fine)
    else
      var before := Run(st, atoms[..|atoms| - 1], fallback);
      if before.verdict != Fine then before
      else
        var now := Apply1(before.st, atoms[|atoms| - 1], fallback);
        if now.verdict == ShadowedDefault then before else now
  }

  lemma {:induction false} RunConcat(st: State, a: seq<Atom>, b: seq<Atom>, fallback: bool)
    ensures Run(st, a + b, fallback) ==
            (var mid := Run(st, a, fallback);
             if mid.verdict != Fine then mid else Run(mid.st, b, fallback))
    decreases |b|
  {
    if b == [] {
      assert a + b == a;
    } else {
      var n := |b| - 1;
      RunConcat(st, a, b[..n], fallback);
      assert (a + b)[..|a + b| - 1] == a + b[..n];
    }
  }

  // ----- options in sequence -----

  /** One option: a Single hands the shadow signal to its caller, every other option keeps
      it to itself. */
  function ApplyOption(st: State, o: Option, fallback: bool): Step
  {
    if o.Single? then Apply1(st, Put(o.setting), fallback) else Run(st, Atoms(o), fallback)
  }

  function RunOptions(st: State, opts: seq<Option>, fallback: bool): (r: Step)
    ensures r.verdict != ShadowedDefault
  {
    if opts == [] then Step(st, Fine)
    else
      var before := RunOptions(st, opts[..|opts| - 1], fallback);
      if before.verdict != Fine then before
      else
        var now := ApplyOption(before.st, opts[|opts| - 1], fallback);
        if now.verdict == ShadowedDefault then before else now
  }

  function AllAtoms(opts: seq<Option>): seq<Atom> { Gather(Atoms, opts) }

  lemma {:induction false} RunOptionsIsRun(st: State, opts: seq<Option>, fallback: bool)
    ensures RunOptions(st, opts, fallback) == Run(st, AllAtoms(opts), fallback)
  {
    if opts != [] {
      var init, last := opts[..|opts| - 1], opts[|opts| - 1];
      RunOptionsIsRun(st, init, fallback);
      RunConcat(st, AllAtoms(init), Atoms(last), fallback);
      if last.Single? {
        assert [Put(last.setting)][..0] == [];
      }
    }
  }

  // ----- unwrapping WithDefaults -----

  /** Every option wrapped in WithDefaults, at any depth, in order. */
  function Flatten(opts: seq<Option>): seq<Option>
    decreases opts
  {
    if opts == [] then []
    else
      var last := opts[|opts| - 1];
      Flatten(opts[..|opts| - 1]) +
      (match last
       case Nil => []
       case Defaults(inner) => Flatten(inner)
       case _ => [last])
  }

  function ExplicitPart(o: Option): seq<Option> { if IsLeaf(o) then [o] else [] }

  function WrappedPart(o: Option): seq<Option> { if o.Defaults? then Flatten(o.opts) else [] }

  function Explicit(opts: seq<Option>): seq<Option> { Gather(ExplicitPart, opts) }

  function Wrapped(opts: seq<Option>): seq<Option> { Gather(WrappedPart, opts) }

  /** The two phases of newConfig. */
  function Phases(explicit: seq<Option>, wrapped: seq<Option>): Step
  {
    var mid := RunOptions(Fresh, explicit, false);
    if mid.verdict != Fine then mid else RunOptions(mid.st, wrapped, true)
  }

  function Outcome(opts: seq<Option>): Step { Phases(Explicit(opts), Wrapped(opts)) }

  // ----- the specification: two multisets of effects -----

  predicate Valid(a: Atom)
  {
    match a
    case Put(s) => s.valid
    case Add(_, _, accepted) => accepted
    case Register(_, _, known) => known
    case Raise(_) => true
  }

  predicate SameSlot(a: Atom, b: Atom) { a.Put? && b.Put? && a.s.slot == b.s.slot }

  predicate SameEntry(a: Atom, b: Atom) { a.Register? && b.Register? && a.list == b.list && a.item == b.item }

  ghost predicate Claims(ms: multiset<Atom>, slot: string)
  {
    exists a :: a in ms && a.Put? && a.s.slot == slot
  }

  ghost predicate Enters(ms: multiset<Atom>, list: string, item: string)
  {
    exists a :: a in ms && a.Register? && a.list == list && a.item == item
  }

  ghost predicate EntriesOnce(ms: multiset<Atom>)
  {
    forall a, b :: a in ms && b in ms && SameEntry(a, b) ==> a == b && ms[a] == 1
  }

  /** A default effect that no explicit option displaces. */
  ghost predicate Live(explicit: multiset<Atom>, a: Atom) { !(a.Put? && Claims(explicit, a.s.slot)) }

  /** newConfig accepts exactly these: explicit effects are valid and claim no slot twice,
      the defaults that are not displaced are valid and claim no slot twice, and nothing
      enters a duplicate-free list twice, wherever it was written. */
  ghost predicate Admissible(explicit: multiset<Atom>, defaults: multiset<Atom>)
  {
    && (forall a :: a in explicit ==> Valid(a))
    && (forall a, b :: a in explicit && b in explicit && SameSlot(a, b) ==> a == b && explicit[a] == 1)
    && (forall a :: a in defaults && Live(explicit, a) ==> Valid(a))
    && (forall a, b :: a in defaults && b in defaults && Live(explicit, a) && SameSlot(a, b)
                       ==> a == b && defaults[a] == 1)
    && EntriesOnce(explicit + defaults)
  }

  /** What an accepted configuration holds: the explicit value, else the default one. */
  ghost predicate Holds(explicit: multiset<Atom>, defaults: multiset<Atom>, st: State)
  {
    && (forall slot :: slot in st.settings <==> Claims(explicit + defaults, slot))
    && (forall a :: a in explicit && a.Put? ==> a.s.slot in st.settings && st.settings[a.s.slot] == a.s.value)
    && (forall a :: a in defaults && a.Put? && Live(explicit, a)
                    ==> a.s.slot in st.settings && st.settings[a.s.slot] == a.s.value)
    && (forall list, items :: multiset(st.additions)[(list, items)]
                              == (explicit + defaults)[Add(list, items, true)])
    && (forall list, item :: (list, item) in st.registered <==> Enters(explicit + defaults, list, item))
    && (forall name :: name in st.flags <==> Raise(name) in explicit + defaults)
  }

  // ----- the fold meets the specification -----

  /** The part of Admissible one phase can see: it starts from the explicit claims (none in
      the explicit phase), and those are the slots a default gives way on. */
  ghost predicate Clean(base: State, ms: multiset<Atom>)
  {
    && (forall a :: a in ms && Free(base, a) ==> Valid(a))
    && (forall a, b :: a in ms && b in ms && Free(base, a) && SameSlot(a, b) ==> a == b && ms[a] == 1)
    && EntriesOnce(ms)
    && (forall a :: a in ms && a.Register? ==> (a.list, a.item) !in base.registered)
  }

  predicate Free(base: State, a: Atom) { !(a.Put? && a.s.slot in base.claimed) }

  ghost predicate After(base: State, ms: multiset<Atom>, fallback: bool, st: State)
  {
    && (forall slot :: slot in st.claimed <==> slot in base.claimed || Claims(ms, slot))
    && (forall slot :: slot in base.claimed ==> st.claimed[slot] == base.claimed[slot])
    && (forall slot :: slot in st.claimed && slot !in base.claimed ==> st.claimed[slot].fallback == fallback)
    && (forall list, item :: (list, item) in st.registered
                             <==> (list, item) in base.registered || Enters(ms, list, item))
  }

  ghost predicate Values(base: State, ms: multiset<Atom>, st: State)
  {
    && (forall slot :: slot in base.claimed ==> (slot in st.settings <==> slot in base.settings))
    && (forall slot :: slot in base.claimed && slot in base.settings ==> st.settings[slot] == base.settings[slot])
    && (forall slot :: slot !in base.claimed ==> (slot in st.settings <==> Claims(ms, slot)))
    && (forall a :: a in ms && a.Put? && Free(base, a)
                    ==> a.s.slot in st.settings && st.settings[a.s.slot] == a.s.value)
  }

  ghost predicate Collected(base: State, ms: multiset<Atom>, st: State)
  {
    && (forall list, items :: multiset(st.additions)[(list, items)]
                              == multiset(base.additions)[(list, items)] + ms[Add(list, items, true)])
    && (forall name :: name in st.flags <==> name in base.flags || Raise(name) in ms)
  }

  ghost predicate Starts(base: State, fallback: bool)
  {
    && (forall slot :: slot in base.claimed ==> fallback && !base.claimed[slot].fallback)
    && (forall slot :: slot in base.settings ==> slot in base.claimed)
  }

  lemma SnocMembers(ms: multiset<Atom>, a: Atom)
    ensures forall slot :: Claims(ms + multiset{a}, slot) <==> Claims(ms, slot) || (a.Put? && a.s.slot == slot)
    ensures forall list, item :: Enters(ms + multiset{a}, list, item)
                                 <==> Enters(ms, list, item) || (a.Register? && a.list == list && a.item == item)
  {
    forall slot | Claims(ms, slot) || (a.Put? && a.s.slot == slot) ensures Claims(ms + multiset{a}, slot) {
      var w := if a.Put? && a.s.slot == slot then a else var x :| x in ms && x.Put? && x.s.slot == slot; x;
      assert w in ms + multiset{a};
    }
    forall list, item | Enters(ms, list, item) || (a.Register? && a.list == list && a.item == item)
      ensures Enters(ms + multiset{a}, list, item)
    {
      var w := if a.Register? && a.list == list && a.item == item then a
               else var x :| x in ms && x.Register? && x.list == list && x.item == item; x;
      assert w in ms + multiset{a};
    }
  }

  lemma CleanPrefix(base: State, ms: multiset<Atom>, a: Atom)
    requires Clean(base, ms + multiset{a})
    ensures Clean(base, ms)
  {
    var all := ms + multiset{a};
    forall x, y | x in ms && y in ms && Free(base, x) && SameSlot(x, y) ensures x == y && ms[x] == 1 {
      assert x in all && y in all;
    }
    forall x, y | x in ms && y in ms && SameEntry(x, y) ensures x == y && ms[x] == 1 {
      assert x in all && y in all;
    }
  }

  lemma RepeatIsUnclean(base: State, ms: multiset<Atom>, a: Atom, x: Atom)
    requires x in ms && ((Free(base, a) && SameSlot(a, x)) || SameEntry(a, x))
    ensures !Clean(base, ms + multiset{a})
  {
    var all := ms + multiset{a};
    assert a in all && x in all;
    assert x == a ==> all[a] >= 2;
  }

  lemma RefusedIsUnclean(base: State, ms: multiset<Atom>, fallback: bool, st: State, a: Atom)
    requires Starts(base, fallback) && After(base, ms, fallback, st)
    requires Apply1(st, a, fallback).verdict != Fine && Apply1(st, a, fallback).verdict != ShadowedDefault
    ensures !Clean(base, ms + multiset{a})
  {
    assert a in ms + multiset{a};
    if a.Put? && a.s.slot in st.claimed {
      var x :| x in ms && x.Put? && x.s.slot == a.s.slot;
      RepeatIsUnclean(base, ms, a, x);
    } else if a.Register? && Enters(ms, a.list, a.item) {
      var x :| x in ms && x.Register? && x.list == a.list && x.item == a.item;
      RepeatIsUnclean(base, ms, a, x);
    }
  }

  lemma AcceptedIsClean(base: State, ms: multiset<Atom>, fallback: bool, st: State, a: Atom)
    requires Starts(base, fallback) && Clean(base, ms) && After(base, ms, fallback, st)
    requires Apply1(st, a, fallback).verdict == Fine || Apply1(st, a, fallback).verdict == ShadowedDefault
    ensures Clean(base, ms + multiset{a})
  {
    assert a.Put? && Free(base, a) ==> !Claims(ms, a.s.slot);
    assert a.Register? ==> !Enters(ms, a.list, a.item);
  }

  /** One more effect keeps the run clean exactly when that effect is not refused. */
  lemma CleanSnoc(base: State, ms: multiset<Atom>, fallback: bool, st: State, a: Atom)
    requires Starts(base, fallback) && Clean(base, ms) && After(base, ms, fallback, st)
    ensures var v := Apply1(st, a, fallback).verdict;
            Clean(base, ms + multiset{a}) <==> (v == Fine || v == ShadowedDefault)
  {
    var v := Apply1(st, a, fallback).verdict;
    if v == Fine || v == ShadowedDefault {
      AcceptedIsClean(base, ms, fallback, st, a);
    } else {
      RefusedIsUnclean(base, ms, fallback, st, a);
    }
  }

  /** The state after one more accepted, or passed-over, effect. */
  function Next(st: State, a: Atom, fallback: bool): State
  {
    if Apply1(st, a, fallback).verdict == ShadowedDefault then st else Apply1(st, a, fallback).st
  }

  lemma AfterSnoc(base: State, ms: multiset<Atom>, fallback: bool, st: State, a: Atom)
    requires Starts(base, fallback) && After(base, ms, fallback, st)
    requires Apply1(st, a, fallback).verdict == Fine || Apply1(st, a, fallback).verdict == ShadowedDefault
    ensures After(base, ms + multiset{a}, fallback, Next(st, a, fallback))
  {
    SnocMembers(ms, a);
  }

  lemma SettingsSnoc(base: State, ms: multiset<Atom>, fallback: bool, st: State, a: Atom, slot: string)
    requires Starts(base, fallback) && After(base, ms, fallback, st) && Values(base, ms, st)
    requires Apply1(st, a, fallback).verdict == Fine || Apply1(st, a, fallback).verdict == ShadowedDefault
    ensures var next := Next(st, a, fallback);
            && (slot in base.claimed ==> (slot in next.settings <==> slot in base.settings))
            && (slot in base.claimed && slot in base.settings ==> next.settings[slot] == base.settings[slot])
            && (slot !in base.claimed ==> (slot in next.settings <==> Claims(ms + multiset{a}, slot)))
  {
    SnocMembers(ms, a);
  }

  lemma HeldSnoc(base: State, ms: multiset<Atom>, fallback: bool, st: State, a: Atom, x: Atom)
    requires Starts(base, fallback) && After(base, ms, fallback, st) && Values(base, ms, st)
    requires Apply1(st, a, fallback).verdict == Fine || Apply1(st, a, fallback).verdict == ShadowedDefault
    requires x in ms + multiset{a} && x.Put? && Free(base, x)
    ensures var next := Next(st, a, fallback); x.s.slot in next.settings && next.settings[x.s.slot] == x.s.value
  {
    if x != a { assert x in ms && Claims(ms, x.s.slot); }
  }

  lemma ValuesSnoc(base: State, ms: multiset<Atom>, fallback: bool, st: State, a: Atom)
    requires Starts(base, fallback) && After(base, ms, fallback, st) && Values(base, ms, st)
    requires Apply1(st, a, fallback).verdict == Fine || Apply1(st, a, fallback).verdict == ShadowedDefault
    ensures Values(base, ms + multiset{a}, Next(st, a, fallback))
  {
    forall slot { SettingsSnoc(base, ms, fallback, st, a, slot); }
    forall x | x in ms + multiset{a} && x.Put? && Free(base, x)
      ensures x.s.slot in Next(st, a, fallback).settings && Next(st, a, fallback).settings[x.s.slot] == x.s.value
    {
      HeldSnoc(base, ms, fallback, st, a, x);
    }
  }

  lemma CollectedSnoc(base: State, ms: multiset<Atom>, fallback: bool, st: State, a: Atom)
    requires Collected(base, ms, st)
    requires Apply1(st, a, fallback).verdict == Fine || Apply1(st, a, fallback).verdict == ShadowedDefault
    ensures Collected(base, ms + multiset{a}, Next(st, a, fallback))
  {
  }

  lemma {:induction false} RunMeets(base: State, atoms: seq<Atom>, fallback: bool)
    requires Starts(base, fallback)
    ensures var r := Run(base, atoms, fallback);
            && (r.verdict == Fine <==> Clean(base, multiset(atoms)))
            && (r.verdict == Fine ==> After(base, multiset(atoms), fallback, r.st))
            && (r.verdict == Fine ==> Values(base, multiset(atoms), r.st) && Collected(base, multiset(atoms), r.st))
  {
    if atoms == [] {
      assert multiset(atoms) == multiset{};
    } else {
      var init, a := atoms[..|atoms| - 1], atoms[|atoms| - 1];
      assert atoms == init + [a];
      RunMeets(base, init, fallback);
      var ms := multiset(init);
      assert multiset(atoms) == ms + multiset{a};
      var before := Run(base, init, fallback);
      if before.verdict != Fine {
        if Clean(base, ms + multiset{a}) { CleanPrefix(base, ms, a); }
      } else {
        CleanSnoc(base, ms, fallback, before.st, a);
        if Clean(base, ms + multiset{a}) {
          AfterSnoc(base, ms, fallback, before.st, a);
          ValuesSnoc(base, ms, fallback, before.st, a);
          CollectedSnoc(base, ms, fallback, before.st, a);
        }
      }
    }
  }

  ghost function ExplicitEffects(opts: seq<Option>): multiset<Atom> { multiset(AllAtoms(Explicit(opts))) }

  ghost function DefaultEffects(opts: seq<Option>): multiset<Atom> { multiset(AllAtoms(Wrapped(opts))) }

  lemma AdmissibleIsTwoCleanPhases(E: multiset<Atom>, D: multiset<Atom>, mid: State)
    requires Clean(Fresh, E) ==> After(Fresh, E, false, mid)
    ensures Admissible(E, D) <==> Clean(Fresh, E) && Clean(mid, D)
  {
    if Clean(Fresh, E) {
      assert forall a :: Free(mid, a) <==> Live(E, a);
      EntriesSplit(E, D, mid);
    } else if Admissible(E, D) {
      forall a, b | a in E && b in E && SameEntry(a, b) ensures a == b && E[a] == 1 {
        assert a in E + D && b in E + D;
      }
      assert Clean(Fresh, E);
    }
  }

  lemma MetTwice(E: multiset<Atom>, D: multiset<Atom>, a: Atom)
    requires a in D && a.Register? && Enters(E, a.list, a.item)
    ensures !EntriesOnce(E + D)
  {
    var x :| x in E && x.Register? && x.list == a.list && x.item == a.item;
    assert x in E + D && a in E + D && SameEntry(x, a);
    assert x == a ==> (E + D)[a] >= 2;
  }

  lemma EntriesSplit(E: multiset<Atom>, D: multiset<Atom>, mid: State)
    requires forall list, item :: (list, item) in mid.registered <==> Enters(E, list, item)
    ensures EntriesOnce(E + D) <==>
            EntriesOnce(E) && EntriesOnce(D)
            && forall a :: a in D && a.Register? ==> (a.list, a.item) !in mid.registered
  {
    var M := E + D;
    if EntriesOnce(M) {
      forall a, b | ((a in E && b in E) || (a in D && b in D)) && SameEntry(a, b)
        ensures a == b && E[a] <= 1 && D[a] <= 1
      {
        assert a in M && b in M;
      }
      forall a | a in D && a.Register? ensures (a.list, a.item) !in mid.registered {
        if (a.list, a.item) in mid.registered { MetTwice(E, D, a); }
      }
    }
    if EntriesOnce(E) && EntriesOnce(D)
       && forall a :: a in D && a.Register? ==> (a.list, a.item) !in mid.registered {
      forall a, b | a in M && b in M && SameEntry(a, b) ensures a == b && M[a] == 1 {
        assert a in E ==> Enters(E, a.list, a.item);
        assert b in E ==> Enters(E, b.list, b.item);
      }
    }
  }

  /** newConfig, for every option list: it accepts exactly the admissible ones, an accepted
      configuration holds the explicit value of each setting, else the default one, and no
      caller ever sees the shadow signal. */
  lemma OutcomeMeets(opts: seq<Option>)
    ensures var E, D := ExplicitEffects(opts), DefaultEffects(opts);
            && (Outcome(opts).verdict == Fine <==> Admissible(E, D))
            && (Outcome(opts).verdict == Fine ==> Holds(E, D, Outcome(opts).st))
            && Outcome(opts).verdict != ShadowedDefault
  {
    var E, D := ExplicitEffects(opts), DefaultEffects(opts);
    RunOptionsIsRun(Fresh, Explicit(opts), false);
    RunMeets(Fresh, AllAtoms(Explicit(opts)), false);
    var mid := RunOptions(Fresh, Explicit(opts), false);
    AdmissibleIsTwoCleanPhases(E, D, mid.st);
    if mid.verdict == Fine {
      RunOptionsIsRun(mid.st, Wrapped(opts), true);
      RunMeets(mid.st, AllAtoms(Wrapped(opts)), true);
      if Outcome(opts).verdict == Fine { PhasesHold(E, D, mid.st, Outcome(opts).st); }
    }
  }

  lemma MembersUnion(E: multiset<Atom>, D: multiset<Atom>)
    ensures forall slot :: Claims(E + D, slot) <==> Claims(E, slot) || Claims(D, slot)
    ensures forall list, item :: Enters(E + D, list, item) <==> Enters(E, list, item) || Enters(D, list, item)
  {
    assert forall a :: a in E + D <==> a in E || a in D;
  }

  lemma PhasesHold(E: multiset<Atom>, D: multiset<Atom>, mid: State, st: State)
    requires After(Fresh, E, false, mid) && Values(Fresh, E, mid) && Collected(Fresh, E, mid)
    requires After(mid, D, true, st) && Values(mid, D, st) && Collected(mid, D, st)
    ensures Holds(E, D, st)
  {
    MembersUnion(E, D);
    assert forall a :: Free(mid, a) <==> Live(E, a);
    forall a | a in E && a.Put? ensures a.s.slot in st.settings && st.settings[a.s.slot] == a.s.value {
      assert Free(Fresh, a) && Claims(E, a.s.slot);
    }
  }

  // ----- consequences -----

  ghost predicate SameConfiguration(a: Step, b: Step)
  {
    && (a.verdict == Fine <==> b.verdict == Fine)
    && (a.verdict == Fine ==>
          && a.st.settings == b.st.settings
          && multiset(a.st.additions) == multiset(b.st.additions)
          && (forall e :: e in a.st.registered <==> e in b.st.registered)
          && a.st.flags == b.st.flags)
  }

  /** Two option lists with the same explicit options and the same wrapped ones, in any
      order, position and nesting, get the same verdict and the same configuration. */
  lemma OrderAndNestingDoNotMatter(a: seq<Option>, b: seq<Option>)
    requires multiset(Explicit(a)) == multiset(Explicit(b))
    requires multiset(Wrapped(a)) == multiset(Wrapped(b))
    ensures SameConfiguration(Outcome(a), Outcome(b))
  {
    GatherReordered(Atoms, Explicit(a), Explicit(b));
    GatherReordered(Atoms, Wrapped(a), Wrapped(b));
    OutcomeMeets(a);
    OutcomeMeets(b);
    if Outcome(a).verdict == Fine {
      SpecDeterminesState(ExplicitEffects(a), DefaultEffects(a), Outcome(a).st, Outcome(b).st);
    }
  }

  lemma SpecDeterminesState(E: multiset<Atom>, D: multiset<Atom>, s: State, t: State)
    requires Holds(E, D, s) && Holds(E, D, t)
    ensures s.settings == t.settings && multiset(s.additions) == multiset(t.additions) && s.flags == t.flags
    ensures forall e :: e in s.registered <==> e in t.registered
  {
    forall slot | slot in s.settings ensures s.settings[slot] == t.settings[slot] {
      var a :| a in E + D && a.Put? && a.s.slot == slot;
      if Claims(E, slot) {
        var x :| x in E && x.Put? && x.s.slot == slot;
      }
    }
    assert s.settings.Keys == t.settings.Keys;
    forall e: (string, seq<string>) ensures multiset(s.additions)[e] == multiset(t.additions)[e] {
      assert e == (e.0, e.1);
    }
    forall e: (string, string) ensures e in s.registered <==> e in t.registered {
      assert e == (e.0, e.1);
    }
  }

  /** Any permutation of the calls to New's options is one such case. */
  lemma PermutationsAgree(a: seq<Option>, b: seq<Option>)
    requires multiset(a) == multiset(b)
    ensures SameConfiguration(Outcome(a), Outcome(b))
  {
    GatherReordered(ExplicitPart, a, b);
    GatherReordered(WrappedPart, a, b);
    OrderAndNestingDoNotMatter(a, b);
  }

  predicate Displaced(st: State, parts: seq<Setting>)
  {
    forall i :: 0 <= i < |parts| ==> parts[i].slot in st.claimed && !st.claimed[parts[i].slot].fallback
  }

  lemma {:induction false} DisplacedPartsDoNothing(st: State, parts: seq<Setting>)
    requires Displaced(st, parts)
    ensures Run(st, Puts(parts), true) == Step(st, Fine)
  {
    if parts != [] {
      var n := |parts| - 1;
      DisplacedPartsDoNothing(st, parts[..n]);
      assert Puts(parts)[..n] == Puts(parts[..n]);
    }
  }

  /** A wrapped option whose every setting is also set explicitly changes nothing at all,
      not even when its own values would be refused: it is never validated. */
  lemma DisplacedDefaultIsInert(opts: seq<Option>, parts: seq<Setting>)
    requires forall i :: 0 <= i < |parts| ==> Claims(ExplicitEffects(opts), parts[i].slot)
    ensures Outcome(opts + [Defaults([Multi(parts)])]) == Outcome(opts)
  {
    var o := Multi(parts);
    var longer := opts + [Defaults([o])];
    GatherConcat(ExplicitPart, opts, [Defaults([o])]);
    GatherConcat(WrappedPart, opts, [Defaults([o])]);
    GatherOne(ExplicitPart, Defaults([o]));
    GatherOne(WrappedPart, Defaults([o]));
    assert [o][..0] == [];
    assert Flatten([o]) == [o];
    var mid := RunOptions(Fresh, Explicit(opts), false);
    RunOptionsIsRun(Fresh, Explicit(opts), false);
    RunMeets(Fresh, AllAtoms(Explicit(opts)), false);
    assert Explicit(longer) == Explicit(opts);
    if mid.verdict == Fine {
      RunOptionsIsRun(mid.st, Wrapped(opts), true);
      RunMeets(mid.st, AllAtoms(Wrapped(opts)), true);
      var end := RunOptions(mid.st, Wrapped(opts), true);
      assert (Wrapped(opts) + [o])[..|Wrapped(opts)|] == Wrapped(opts);
      if end.verdict == Fine { DisplacedPartsDoNothing(end.st, parts); }
    }
  }

  /** Two defaults for one setting are refused, unless an explicit option displaces both. */
  lemma RepeatedDefaultsNeedAnExplicitOne(x: Setting, y: Setting, z: Setting)
    requires x.slot == y.slot == z.slot && x.valid && y.valid && z.valid
    ensures Outcome([Defaults([Single(x), Single(y)])]).verdict != Fine
    ensures Outcome([Defaults([Single(x), Single(y)]), Single(z)]).verdict == Fine
  {
    var pair := [Single(x), Single(y)];
    FlattenPair(Single(x), Single(y));
    WrappedAlone(pair);
    WrappedBeside(pair, Single(z));
    TwoDefaults(Fresh, x, y);
    RunOneOption(Fresh, Single(z), false);
    TwoDefaults(RunOptions(Fresh, [Single(z)], false).st, x, y);
  }

  lemma WrappedAlone(inner: seq<Option>)
    ensures Explicit([Defaults(inner)]) == [] && Wrapped([Defaults(inner)]) == Flatten(inner)
  {
    GatherOne(ExplicitPart, Defaults(inner));
    GatherOne(WrappedPart, Defaults(inner));
  }

  lemma WrappedBeside(inner: seq<Option>, o: Option)
    requires IsLeaf(o)
    ensures Explicit([Defaults(inner), o]) == [o] && Wrapped([Defaults(inner), o]) == Flatten(inner)
  {
    WrappedAlone(inner);
    assert [Defaults(inner), o] == [Defaults(inner)] + [o];
    GatherSnoc(ExplicitPart, [Defaults(inner)], o);
    GatherSnoc(WrappedPart, [Defaults(inner)], o);
  }

  /** Two defaults on one slot: refused on a free slot, passed over on an explicit one. */
  lemma TwoDefaults(st: State, x: Setting, y: Setting)
    requires x.slot == y.slot && x.valid && y.valid
    requires x.slot in st.claimed ==> !st.claimed[x.slot].fallback
    ensures var r := RunOptions(st, [Single(x), Single(y)], true);
            if x.slot in st.claimed then r == Step(st, Fine) else r.verdict != Fine
  {
    assert [Single(x), Single(y)][..1] == [Single(x)];
    RunOneOption(st, Single(x), true);
  }

  lemma FlattenPair(a: Option, b: Option)
    requires IsLeaf(a) && IsLeaf(b)
    ensures Flatten([a, b]) == [a, b]
  {
    assert [a, b][..1] == [a] && [a][..0] == [];
    assert Flatten([a]) == [a];
  }

  lemma RunOne(st: State, a: Atom, fallback: bool)
    ensures Run(st, [a], fallback) == (var now := Apply1(st, a, fallback);
                                       if now.verdict == ShadowedDefault then Step(st, Fine) else now)
  {
    assert [a][..0] == [];
  }

  lemma RunOneOption(st: State, o: Option, fallback: bool)
    ensures RunOptions(st, [o], fallback) == (var now := ApplyOption(st, o, fallback);
                                              if now.verdict == ShadowedDefault then Step(st, Fine) else now)
  {
    assert [o][..0] == [];
  }

  // ----- late resolution -----

  /** applyDefaults: a setting left at its zero value takes the library's value. */
  function Filled(settings: map<string, string>, library: map<string, string>): (r: map<string, string>)
    ensures forall slot :: slot in settings && settings[slot] != "" ==> slot in r && r[slot] == settings[slot]
    ensures forall slot :: slot in library && (slot !in settings || settings[slot] == "")
                           ==> slot in r && r[slot] == library[slot]
  {
    map slot | slot in settings.Keys + library.Keys ::
      if slot in settings && (settings[slot] != "" || slot !in library) then settings[slot] else library[slot]
  }

  /** Explicit, else default, else library; but an explicit zero value displaces the
      default and then yields to the library, so the default is lost. */
  lemma ResolutionOrder(opts: seq<Option>, library: map<string, string>, slot: string)
    requires Outcome(opts).verdict == Fine && slot in library
    ensures var E, D, r := ExplicitEffects(opts), DefaultEffects(opts), Filled(Outcome(opts).st.settings, library);
            && slot in r
            && (forall a :: a in E && a.Put? && a.s.slot == slot
                            ==> r[slot] == if a.s.value == "" then library[slot] else a.s.value)
            && (!Claims(E, slot) ==>
                  forall a :: a in D && a.Put? && a.s.slot == slot
                              ==> r[slot] == if a.s.value == "" then library[slot] else a.s.value)
            && (!Claims(E, slot) && !Claims(D, slot) ==> r[slot] == library[slot])
  {
    OutcomeMeets(opts);
    MembersUnion(ExplicitEffects(opts), DefaultEffects(opts));
    var D, st := DefaultEffects(opts), Outcome(opts).st;
    forall a | a in D && a.Put? && a.s.slot == slot && !Claims(ExplicitEffects(opts), slot)
      ensures slot in st.settings && st.settings[slot] == a.s.value
    {
      assert Live(ExplicitEffects(opts), a);
    }
  }

  lemma ExplicitOverDefault(x: Setting, z: Setting)
    requires x.slot == z.slot && z.valid
    ensures Outcome([Defaults([Single(x)]), Single(z)]) == Step(Apply1(Fresh, Put(z), false).st, Fine)
  {
    WrappedBeside([Single(x)], Single(z));
    assert [Single(x)][..0] == [];
    RunOneOption(Fresh, Single(z), false);
    RunOneOption(Apply1(Fresh, Put(z), false).st, Single(x), true);
  }

  /** An explicit zero beside any default: the library's value wins and the default is lost,
      for instance a default of "5m" where the library has "15m". */
  lemma ZeroLosesTheDefault(slot: string, option: string, wrapped: string, library: string)
    ensures var r := Outcome([Defaults([Single(Setting(slot, option, wrapped, true))]),
                             Single(Setting(slot, option, "", true))]);
            r.verdict == Fine && slot in Filled(r.st.settings, map[slot := library])
            && Filled(r.st.settings, map[slot := library])[slot] == library
  {
    ExplicitOverDefault(Setting(slot, option, wrapped, true), Setting(slot, option, "", true));
  }

  // ----- what a refused configuration had taken in -----

  /** newConfig stopped before it applies option k. */
  function UpTo(explicit: seq<Option>, wrapped: seq<Option>, k: nat): Step
    requires k <= |explicit| + |wrapped|
  {
    if k < |explicit| then RunOptions(Fresh, explicit[..k], false) else Phases(explicit, wrapped[..k - |explicit|])
  }

  lemma {:induction false} PutsAddNothing(st: State, parts: seq<Setting>, fallback: bool)
    ensures Run(st, Puts(parts), fallback).st.additions == st.additions
  {
    if parts != [] {
      var n := |parts| - 1;
      assert Puts(parts)[..n] == Puts(parts[..n]);
      PutsAddNothing(st, parts[..n], fallback);
    }
  }

  function Added(o: Option): seq<(string, seq<string>)>
  {
    if o.Additive? && o.accepted then [(o.list, o.items)] else []
  }

  lemma OptionAdds(st: State, o: Option, fallback: bool)
    ensures ApplyOption(st, o, fallback).st.additions == st.additions + Added(o)
  {
    if o.Multi? { PutsAddNothing(st, o.parts, fallback); }
    if o.Additive? || o.Unique? || o.Flag? { RunOne(st, Atoms(o)[0], fallback); }
  }

  /** Option k of the list adds x, and the options before it are all taken. */
  predicate AddsAt(st: State, opts: seq<Option>, fallback: bool, k: nat, x: (string, seq<string>))
  {
    k < |opts| && x in Added(opts[k]) && RunOptions(st, opts[..k], fallback).verdict == Fine
  }

  /** One more option keeps the additions there are and makes its own. */
  lemma OneMoreAdds(st: State, opts: seq<Option>, fallback: bool, x: (string, seq<string>))
    requires opts != []
    ensures var n := |opts| - 1;
            x in RunOptions(st, opts, fallback).st.additions <==>
            x in RunOptions(st, opts[..n], fallback).st.additions || AddsAt(st, opts, fallback, n, x)
  {
    var before := RunOptions(st, opts[..|opts| - 1], fallback);
    if before.verdict == Fine { OptionAdds(before.st, opts[|opts| - 1], fallback); }
  }

  lemma AddsEarlier(st: State, opts: seq<Option>, fallback: bool, k: nat, x: (string, seq<string>))
    requires opts != [] && k < |opts| - 1
    ensures AddsAt(st, opts, fallback, k, x) <==> AddsAt(st, opts[..|opts| - 1], fallback, k, x)
  {
    TakeOfTake(opts, |opts| - 1, k);
  }

  /** What the list holds stays, and so does what any option of the run adds. */
  lemma {:induction false} RunKeeps(st: State, opts: seq<Option>, fallback: bool, x: (string, seq<string>))
    requires x in st.additions
    ensures x in RunOptions(st, opts, fallback).st.additions
  {
    if opts != [] {
      RunKeeps(st, opts[..|opts| - 1], fallback, x);
      OneMoreAdds(st, opts, fallback, x);
    }
  }

  lemma {:induction false} RunAdds(st: State, opts: seq<Option>, fallback: bool, k: nat, x: (string, seq<string>))
    requires k < |opts| && AddsAt(st, opts, fallback, k, x)
    ensures x in RunOptions(st, opts, fallback).st.additions
    decreases |opts|
  {
    OneMoreAdds(st, opts, fallback, x);
    if k < |opts| - 1 {
      AddsEarlier(st, opts, fallback, k, x);
      RunAdds(st, opts[..|opts| - 1], fallback, k, x);
    }
  }

  lemma {:induction false} AddedBy(st: State, opts: seq<Option>, fallback: bool, x: (string, seq<string>))
    returns (k: nat)
    requires x in RunOptions(st, opts, fallback).st.additions && x !in st.additions
    ensures AddsAt(st, opts, fallback, k, x)
  {
    var n := |opts| - 1;
    OneMoreAdds(st, opts, fallback, x);
    if AddsAt(st, opts, fallback, n, x) {
      k := n;
    } else {
      k := AddedBy(st, opts[..n], fallback, x);
      AddsEarlier(st, opts, fallback, k, x);
    }
  }

  /** Option k adds x, and newConfig gets that far: it refuses none of those before. */
  predicate AdditionAt(explicit: seq<Option>, wrapped: seq<Option>, k: nat, x: (string, seq<string>))
  {
    && k < |explicit| + |wrapped| && x in Added((explicit + wrapped)[k])
    && UpTo(explicit, wrapped, k).verdict == Fine
  }

  lemma AddedFirst(E: seq<Option>, W: seq<Option>, k: nat, x: (string, seq<string>))
    requires k < |E| && AdditionAt(E, W, k, x)
    ensures x in Phases(E, W).st.additions
  {
    RunAdds(Fresh, E, false, k, x);
    RunKeeps(RunOptions(Fresh, E, false).st, W, true, x);
  }

  lemma AddedSecond(E: seq<Option>, W: seq<Option>, k: nat, x: (string, seq<string>))
    requires k >= |E| && AdditionAt(E, W, k, x)
    ensures x in Phases(E, W).st.additions
  {
    RunAdds(RunOptions(Fresh, E, false).st, W, true, k - |E|, x);
  }

  lemma TakenAt(E: seq<Option>, W: seq<Option>, x: (string, seq<string>)) returns (k: nat)
    requires x in Phases(E, W).st.additions
    ensures AdditionAt(E, W, k, x)
  {
    var mid := RunOptions(Fresh, E, false);
    if x in mid.st.additions {
      k := AddedBy(Fresh, E, false, x);
    } else {
      var j := AddedBy(mid.st, W, true, x);
      k := |E| + j;
    }
  }

  /** newConfig had taken in an addition when it ended, accepted or refused, exactly when an
      option makes it and none of those applied before is refused. */
  lemma TakenIn(opts: seq<Option>, x: (string, seq<string>))
    ensures x in Outcome(opts).st.additions <==>
            exists k: nat :: AdditionAt(Explicit(opts), Wrapped(opts), k, x)
  {
    var E, W := Explicit(opts), Wrapped(opts);
    if x in Phases(E, W).st.additions { var k := TakenAt(E, W, x); }
    if k: nat :| AdditionAt(E, W, k, x) {
      if k < |E| { AddedFirst(E, W, k, x); } else { AddedSecond(E, W, k, x); }
    }
  }

  lemma AddOne(list: string, items: seq<string>)
    ensures RunOptions(Fresh, [Additive(list, items, true)], false) ==
            Step(Fresh.(additions := [(list, items)]), Fine)
  {
    var o := Additive(list, items, true);
    RunOneOption(Fresh, o, false);
    RunOne(Fresh, Atoms(o)[0], false);
    assert Fresh.additions + [(list, items)] == [(list, items)];
  }

  lemma RefusedNext(st: State, before: seq<Option>, s: Setting, mid: State)
    requires !s.valid && RunOptions(st, before, false) == Step(mid, Fine)
    ensures var r := RunOptions(st, before + [Single(s)], false);
            r.verdict != Fine && r.st.additions == mid.additions
  {
    assert (before + [Single(s)])[..|before|] == before;
  }

  /** An addition, then a setting that is refused: the addition was taken in. */
  lemma AddThenRefuse(list: string, items: seq<string>, s: Setting)
    requires !s.valid
    ensures var r := Outcome([Additive(list, items, true), Single(s)]);
            r.verdict != Fine && (list, items) in r.st.additions
  {
    var a := Additive(list, items, true);
    AddOne(list, items);
    RefusedNext(Fresh, [a], s, Fresh.(additions := [(list, items)]));
    assert [a] + [Single(s)] == [a, Single(s)];
    TwoLeaves(a, Single(s));
  }

  lemma TwoLeaves(a: Option, b: Option)
    requires IsLeaf(a) && IsLeaf(b)
    ensures Explicit([a, b]) == [a, b]
  {
    assert [a, b] == [a] + [b];
    GatherSnoc(ExplicitPart, [a], b);
    GatherOne(ExplicitPart, a);
  }

  // ----- the imperative engine -----

  /** The mutable config record: option closures write its fields and its claim table. */
  class Config {
    var claimed: map<string, Claim>
    var settings: map<string, string>
    var additions: seq<(string, seq<string>)>
    var registered: seq<(string, string)>
    var flags: set<string>
    var applyingDefaults: bool

    ghost function Abs(): State
      reads this
    {
      State(claimed, settings, additions, registered, flags)
    }

    constructor ()
      ensures Abs() == Fresh && !applyingDefaults
    {
      claimed, settings, additions, registered, flags := map[], map[], [], [], {};
      applyingDefaults := false;
    }

    method ClaimSlot(slot: string, option: string) returns (v: Verdict)
      modifies this`claimed
      ensures v == ClaimVerdict(old(claimed), slot, option, applyingDefaults)
      ensures claimed == if v == Fine then old(claimed)[slot := Claim(option, applyingDefaults)] else old(claimed)
    {
      if slot !in claimed {
        claimed := claimed[slot := Claim(option, applyingDefaults)];
        return Fine;
      }
      var prior := claimed[slot];
      if applyingDefaults && !prior.fallback {
        return ShadowedDefault;
      }
      if prior.option == option {
        return AtMostOnce(option);
      }
      return Conflict(option, prior.option);
    }

    /** Claims first and validates second, so a setting that gives way is never checked. */
    method ApplySetting(s: Setting) returns (v: Verdict)
      modifies this`claimed, this`settings
      ensures Step(Abs(), v) == Apply1(old(Abs()), Put(s), applyingDefaults)
    {
      v := ClaimSlot(s.slot, s.option);
      if v != Fine { return; }
      if !s.valid { return Rejected(s.option); }
      settings := settings[s.slot := s.value];
    }

    method ApplyParts(parts: seq<Setting>) returns (v: Verdict)
      modifies this`claimed, this`settings
      ensures Step(Abs(), v) == Run(old(Abs()), Puts(parts), applyingDefaults)
    {
      assert Puts(parts)[..|parts|] == Puts(parts);
      for i := 0 to |parts|
        invariant Run(old(Abs()), Puts(parts)[..i], applyingDefaults) == Step(Abs(), Fine)
      {
        assert Puts(parts)[..i + 1][..i] == Puts(parts)[..i];
        v := ApplySetting(parts[i]);
        if v == ShadowedDefault { continue; }
        if v != Fine {
          RunStops(old(Abs()), Puts(parts), i + 1, applyingDefaults);
          return;
        }
      }
      v := Fine;
    }

    method Apply(o: Option) returns (v: Verdict)
      modifies this`claimed, this`settings, this`additions, this`registered, this`flags
      ensures Step(Abs(), v) == ApplyOption(old(Abs()), o, applyingDefaults)
    {
      if o.Additive? || o.Unique? || o.Flag? { RunOne(Abs(), Atoms(o)[0], applyingDefaults); }
      match o
      case Nil => v := Fine;
      case Defaults(_) => v := Fine;
      case Single(s) => v := ApplySetting(s);
      case Multi(parts) => v := ApplyParts(parts);
      case Additive(list, items, accepted) =>
        if !accepted { return Rejected(list); }
        additions := additions + [(list, items)];
        v := Fine;
      case Unique(list, item, known) =>
        if !known { return Rejected(list); }
        if (list, item) in registered { return AtMostOnce(list); }
        registered := registered + [(list, item)];
        v := Fine;
      case Flag(name) =>
        flags := flags + {name};
        v := Fine;
    }

    method ApplyExplicit(opts: seq<Option>) returns (v: Verdict)
      requires !applyingDefaults
      modifies this`claimed, this`settings, this`additions, this`registered, this`flags
      ensures Step(Abs(), v) == RunOptions(old(Abs()), opts, false)
    {
      for i := 0 to |opts|
        invariant RunOptions(old(Abs()), opts[..i], false) == Step(Abs(), Fine)
      {
        assert opts[..i + 1][..i] == opts[..i];
        NoShadowAmongExplicit(Abs(), opts[i]);
        v := Apply(opts[i]);
        if v != Fine {
          RunOptionsStops(old(Abs()), opts, i + 1, false);
          return;
        }
      }
      assert opts[..|opts|] == opts;
      v := Fine;
    }

    method ApplyWrapped(opts: seq<Option>) returns (v: Verdict)
      requires applyingDefaults
      modifies this`claimed, this`settings, this`additions, this`registered, this`flags
      ensures Step(Abs(), v) == RunOptions(old(Abs()), opts, true)
    {
      for i := 0 to |opts|
        invariant RunOptions(old(Abs()), opts[..i], true) == Step(Abs(), Fine)
      {
        assert opts[..i + 1][..i] == opts[..i];
        v := Apply(opts[i]);
        if v != Fine && v != ShadowedDefault {
          RunOptionsStops(old(Abs()), opts, i + 1, true);
          return;
        }
      }
      assert opts[..|opts|] == opts;
      v := Fine;
    }
  }

  lemma {:induction false} RunStops(st: State, atoms: seq<Atom>, i: nat, fallback: bool)
    requires i <= |atoms| && Run(st, atoms[..i], fallback).verdict != Fine
    ensures Run(st, atoms, fallback) == Run(st, atoms[..i], fallback)
  {
    RunConcat(st, atoms[..i], atoms[i..], fallback);
    assert atoms == atoms[..i] + atoms[i..];
  }

  lemma RunOptionsStops(st: State, opts: seq<Option>, i: nat, fallback: bool)
    requires i <= |opts| && RunOptions(st, opts[..i], fallback).verdict != Fine
    ensures RunOptions(st, opts, fallback) == RunOptions(st, opts[..i], fallback)
  {
    RunOptionsIsRun(st, opts, fallback);
    RunOptionsIsRun(st, opts[..i], fallback);
    assert opts == opts[..i] + opts[i..];
    GatherConcat(Atoms, opts[..i], opts[i..]);
    RunConcat(st, AllAtoms(opts[..i]), AllAtoms(opts[i..]), fallback);
  }

  method FlattenDefaults(opts: seq<Option>) returns (out: seq<Option>)
    ensures out == Flatten(opts)
    decreases opts
  {
    out := [];
    for i := 0 to |opts|
      invariant out == Flatten(opts[..i])
    {
      assert opts[..i + 1][..i] == opts[..i];
      match opts[i]
      case Nil =>
      case Defaults(inner) =>
        var flat := FlattenDefaults(inner);
        out := out + flat;
      case _ => out := out + [opts[i]];
    }
    assert opts[..|opts|] == opts;
  }

  method SplitDefaults(opts: seq<Option>) returns (explicit: seq<Option>, defaults: seq<Option>)
    ensures explicit == Explicit(opts) && defaults == Wrapped(opts)
  {
    explicit, defaults := [], [];
    for i := 0 to |opts|
      invariant explicit == Explicit(opts[..i]) && defaults == Wrapped(opts[..i])
    {
      assert opts[..i + 1][..i] == opts[..i];
      match opts[i]
      case Nil =>
      case Defaults(inner) =>
        var flat := FlattenDefaults(inner);
        defaults := defaults + flat;
      case _ => explicit := explicit + [opts[i]];
    }
    assert opts[..|opts|] == opts;
  }

  /** newConfig: the two loops reach the outcome the specification names, and the caller
      gets a configuration exactly for the admissible option lists. */
  method NewConfig(opts: seq<Option>, library: map<string, string>) returns (c: Config?, v: Verdict)
    ensures v == Outcome(opts).verdict && v != ShadowedDefault
    ensures (v == Fine <==> c != null) && (v == Fine <==> Admissible(ExplicitEffects(opts), DefaultEffects(opts)))
    ensures c != null ==> fresh(c) && !c.applyingDefaults
                          && c.Abs() == Outcome(opts).st.(settings := Filled(Outcome(opts).st.settings, library))
  {
    OutcomeMeets(opts);
    var explicit, defaults := SplitDefaults(opts);
    var built := new Config();
    v := built.ApplyExplicit(explicit);
    if v != Fine { return null, v; }
    built.applyingDefaults := true;
    v := built.ApplyWrapped(defaults);
    if v != Fine { return null, v; }
    built.applyingDefaults := false;
    built.settings := Filled(built.settings, library);
    c := built;
  }

  /** The explicit loop returns any error it meets; the shadow signal is never one of them. */
  lemma NoShadowAmongExplicit(st: State, o: Option)
    ensures ApplyOption(st, o, false).verdict != ShadowedDefault
  {
  }
}
