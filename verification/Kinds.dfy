/** Tables whose fields keep one type: what that buys, and what happens without it. */
module Kinds {
  import opened Formulas
  import opened Basics
  import opened Compiler
  import opened Models
  import opened Search

  datatype Kind = BoolKind | IntKind | StrKind

  function KindOf(v: Scalar): Kind {
    match v case Bool(_) => BoolKind case Int(_) => IntKind case Str(_) => StrKind
  }

  type Kinding = map<string, Kind>

  /** A state whose fields have the declared kinds. */
  predicate Fits(fields: seq<string>, kinds: Kinding, st: State) {
    |st| == |fields| && forall i :: 0 <= i < |fields| ==> fields[i] in kinds && KindOf(st[i]) == kinds[fields[i]]
  }

  predicate RhsFits(kinds: Kinding, u: Update) {
    u.field in kinds && kinds[u.field] == if u.rhs.Lit? then KindOf(u.rhs.value) else IntKind
  }

  /** Initial values and assignments agree with one kind per field: a syntactic check. */
  predicate KeepsKinds(m: Model, kinds: Kinding) {
    && (forall st :: st in m.starts ==> Fits(m.fields, kinds, st))
    && (forall r, u :: r in m.rules && u in r.updates ==> RhsFits(kinds, u))
  }

  lemma {:induction false} RhsOfIsThere(updates: seq<Update>, f: string)
    requires RhsOf(updates, f).Some?
    ensures Update(f, RhsOf(updates, f).value) in updates
  {
    if updates[0].field != f {
      RhsOfIsThere(updates[1..], f);
    } else {
      assert updates[0] == Update(f, RhsOf(updates, f).value);
    }
  }

  lemma {:induction false} NoFaultStores(fields: seq<string>, updates: seq<Update>, st: State, u: Update)
    requires FirstFault(fields, updates, st) == None && u in updates
    ensures Stored(fields, u.rhs, st).Ok?
  {
    if updates[0] != u {
      NoFaultStores(fields, updates[1..], st, u);
    }
  }

  lemma StepFits(m: Model, kinds: Kinding, r: Rule, st: State)
    requires KeepsKinds(m, kinds) && r in m.rules && Fits(m.fields, kinds, st) && StepOf(m, r, st).Moves?
    ensures Fits(m.fields, kinds, StepOf(m, r, st).next)
  {
    var next := StepOf(m, r, st).next;
    forall i | 0 <= i < |m.fields| ensures KindOf(next[i]) == kinds[m.fields[i]] {
      var rhs := RhsOf(r.updates, m.fields[i]);
      if rhs.Some? {
        RhsOfIsThere(r.updates, m.fields[i]);
        NoFaultStores(m.fields, r.updates, st, Update(m.fields[i], rhs.value));
        assert RhsFits(kinds, Update(m.fields[i], rhs.value));
      }
    }
  }

  lemma {:induction false} RunFits(m: Model, kinds: Kinding, start: State, names: seq<string>)
    requires KeepsKinds(m, kinds) && start in m.starts && Replay(m, start, names).Some?
    ensures Fits(m.fields, kinds, Replay(m, start, names).value)
  {
    if names != [] {
      var short, name := names[..|names| - 1], names[|names| - 1];
      RunFits(m, kinds, start, short);
      NamedIsThere(m.rules, name);
      StepFits(m, kinds, RuleNamed(m.rules, name).value, Replay(m, start, short).value);
    }
  }

  lemma ReachableFits(m: Model, kinds: Kinding, st: State)
    requires KeepsKinds(m, kinds) && Reachable(m, st)
    ensures Fits(m.fields, kinds, st)
  {
    var start, names :| start in m.starts && Replay(m, start, names) == Some(st);
    RunFits(m, kinds, start, names);
  }

  lemma SameKindSameNorm(fields: seq<string>, kinds: Kinding, s: State, t: State)
    requires Fits(fields, kinds, s) && Fits(fields, kinds, t) && NormState(s) == NormState(t)
    ensures s == t
  {
    forall i | 0 <= i < |s| ensures s[i] == t[i] {
      assert NormState(s)[i] == NormState(t)[i];
    }
  }

  /** One kind per field is enough for the explorer to be exact. */
  lemma KindsTellApart(m: Model, kinds: Kinding)
    requires KeepsKinds(m, kinds)
    ensures Distinguishable(m)
  {
    forall s: State, t: State | Reachable(m, s) && Reachable(m, t) && NormState(s) == NormState(t) ensures s == t {
      ReachableFits(m, kinds, s);
      ReachableFits(m, kinds, t);
      SameKindSameNorm(m.fields, kinds, s, t);
    }
  }

  /** Two actions store the number 1 and the truth value in the same field. */
  const MIXED: Model :=
    Plan(["x", "y"], [[Bool(true), Bool(false)]],
         [Rule("Number", Not(Flag("y")), [Update("x", Lit(Int(1))), Update("y", Lit(Bool(true)))]),
          Rule("Keep", Not(Flag("y")), [Update("y", Lit(Bool(true)))])],
         [], [], Flag("y"))

  const MIXED_START: State := [Bool(true), Bool(false)]

  lemma MixedDict()
    ensures AsDict(MIXED.fields, MIXED_START) == map["x" := Bool(true), "y" := Bool(false)]
  {
    var fields, st := MIXED.fields, MIXED_START;
    assert fields[..1] == ["x"] && st[..1] == [Bool(true)] && fields[..1][..0] == [] && st[..1][..0] == [];
    assert AsDict(fields[..1], st[..1]) == map["x" := Bool(true)];
  }

  lemma MixedNumber()
    ensures StepNamed(MIXED, "Number", MIXED_START) == Some([Int(1), Bool(true)])
  {
    MixedDict();
    var updates := MIXED.rules[0].updates;
    assert updates[1..] == [Update("y", Lit(Bool(true)))];
    assert After(MIXED.fields, updates, MIXED_START) == [Int(1), Bool(true)];
  }

  lemma MixedKeep()
    ensures StepNamed(MIXED, "Keep", MIXED_START) == Some([Bool(true), Bool(true)])
  {
    MixedDict();
    var updates := MIXED.rules[1].updates;
    assert updates[1..] == [] && MIXED.rules[1..][0] == MIXED.rules[1];
    assert After(MIXED.fields, updates, MIXED_START) == [Bool(true), Bool(true)];
  }

  lemma OneStepReaches(m: Model, start: State, name: string, next: State)
    requires start in m.starts && StepNamed(m, name, start) == Some(next)
    ensures Reachable(m, next)
  {
    assert Replay(m, start, []) == Some(start);
    ReplayExtends(m, start, [], name, start, next);
  }

  /** Without one kind per field a reachable state can go unseen: True and 1 share a key. */
  lemma MixedKindsMerge()
    ensures !Distinguishable(MIXED)
  {
    var a, b := [Int(1), Bool(true)], [Bool(true), Bool(true)];
    MixedNumber();
    OneStepReaches(MIXED, MIXED_START, "Number", a);
    MixedKeep();
    OneStepReaches(MIXED, MIXED_START, "Keep", b);
    assert NormState(a) == NormState(b);
  }
}
