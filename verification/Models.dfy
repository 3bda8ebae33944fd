/** Transition systems with parsed formulas: one step as the interpreter reads it, and runs. */
module Models {
  import opened Formulas
  import opened Basics
  import opened Compiler

  /** An assignment `field := rhs`. */
  datatype Update = Update(field: string, rhs: Rhs)

  datatype Rule = Rule(name: string, guard: AST, updates: seq<Update>)

  datatype Plan = Plan(
    fields: seq<string>,
    starts: seq<State>,
    rules: seq<Rule>,
    invariants: seq<AST>,
    witnesses: seq<AST>,
    terminal: AST)

  predicate DistinctTargets(updates: seq<Update>) {
    forall i, j :: 0 <= i < j < |updates| ==> updates[i].field != updates[j].field
  }

  predicate DistinctNames(rules: seq<Rule>) {
    forall i, j :: 0 <= i < j < |rules| ==> rules[i].name != rules[j].name
  }

  /** Rule names are distinct, each rule assigns a known field at most once, starts have the right length. */
  predicate Proper(p: Plan) {
    && DistinctNames(p.rules)
    && (forall r :: r in p.rules ==> DistinctTargets(r.updates))
    && (forall r, u :: r in p.rules && u in r.updates ==> u.field in p.fields)
    && (forall st :: st in p.starts ==> |st| == |p.fields|)
  }

  type Model = p: Plan | Proper(p) witness Plan([], [], [], [], [], Flag(""))

  // ----- one step -----

  /** A formula's truth in a state, through the interpreter. */
  function Truth(fields: seq<string>, tree: AST, st: State): Result<bool> {
    if |st| == |fields| then Holds(tree, AsDict(fields, st)).out else Raise(IndexError)
  }

  /** What an assignment stores after `st`. */
  function Stored(fields: seq<string>, rhs: Rhs, st: State): Result<Scalar> {
    if |st| == |fields| then RhsValue(rhs, AsDict(fields, st)) else Raise(IndexError)
  }

  function FirstFault(fields: seq<string>, updates: seq<Update>, st: State): Option<Fault> {
    if updates == [] then None
    else
      match Stored(fields, updates[0].rhs, st)
      case Raise(f) => Some(f)
      case Ok(_) => FirstFault(fields, updates[1..], st)
  }

  /** The assignment to `field`, if there is one. */
  function RhsOf(updates: seq<Update>, field: string): Option<Rhs> {
    if updates == [] then None
    else if updates[0].field == field then Some(updates[0].rhs)
    else RhsOf(updates[1..], field)
  }

  /** Whether a name stands for its value at `i`: a repeated name stands for the last of its values. */
  predicate IsItsPlace(fields: seq<string>, i: nat)
    requires i < |fields|
  {
    fields[i] in Index(fields) && Index(fields)[fields[i]] == i
  }

  /** One field after the step: the stored value, or its old one. */
  function FieldAfter(fields: seq<string>, updates: seq<Update>, st: State, i: nat): Scalar
    requires i < |fields| == |st|
  {
    match RhsOf(updates, fields[i])
    case None => st[i]
    case Some(rhs) =>
      match Stored(fields, rhs, st)
      case Ok(v) => if IsItsPlace(fields, i) then v else st[i]
      case Raise(_) => st[i]
  }

  function After(fields: seq<string>, updates: seq<Update>, st: State): State
    requires |fields| == |st|
  {
    seq(|st|, i requires 0 <= i < |st| => FieldAfter(fields, updates, st, i))
  }

  datatype StepOutcome = Disabled | Moves(next: State) | Faults(fault: Fault)

  /** One rule in one state: all right sides read the state before the step. */
  function StepOf(m: Model, r: Rule, st: State): StepOutcome {
    match Truth(m.fields, r.guard, st)
    case Raise(f) => Faults(f)
    case Ok(false) => Disabled
    case Ok(true) =>
      match FirstFault(m.fields, r.updates, st)
      case Some(f) => Faults(f)
      case None => if |st| == |m.fields| then Moves(After(m.fields, r.updates, st)) else Faults(IndexError)
  }

  // ----- runs -----

  function RuleNamed(rules: seq<Rule>, name: string): Option<Rule> {
    if rules == [] then None
    else if rules[0].name == name then Some(rules[0])
    else RuleNamed(rules[1..], name)
  }

  function StepNamed(m: Model, name: string, st: State): Option<State> {
    match RuleNamed(m.rules, name)
    case None => None
    case Some(r) =>
      match StepOf(m, r, st)
      case Moves(next) => Some(next)
      case _ => None
  }

  /** Where a list of action names leads from `start`, if every step is enabled. */
  function Replay(m: Model, start: State, names: seq<string>): Option<State> {
    if names == [] then Some(start)
    else
      match Replay(m, start, names[..|names| - 1])
      case None => None
      case Some(mid) => StepNamed(m, names[|names| - 1], mid)
  }

  ghost predicate Reachable(m: Model, st: State) {
    exists start: State, names: seq<string> :: start in m.starts && Replay(m, start, names) == Some(st)
  }

  lemma ReplayExtends(m: Model, start: State, names: seq<string>, name: string, st: State, next: State)
    requires Replay(m, start, names) == Some(st) && StepNamed(m, name, st) == Some(next)
    ensures Replay(m, start, names + [name]) == Some(next)
  {
    assert (names + [name])[..|names|] == names;
  }

  lemma ReachableStep(m: Model, st: State, name: string, next: State)
    requires Reachable(m, st) && StepNamed(m, name, st) == Some(next)
    ensures Reachable(m, next)
  {
    var start, names :| start in m.starts && Replay(m, start, names) == Some(st);
    ReplayExtends(m, start, names, name, st, next);
  }

  lemma {:induction false} NamedByPosition(rules: seq<Rule>, k: nat)
    requires k < |rules|
    requires forall i, j :: 0 <= i < j < |rules| ==> rules[i].name != rules[j].name
    ensures RuleNamed(rules, rules[k].name) == Some(rules[k])
  {
    if k > 0 {
      NamedByPosition(rules[1..], k - 1);
    }
  }

  lemma {:induction false} NamedIsThere(rules: seq<Rule>, name: string)
    requires RuleNamed(rules, name).Some?
    ensures exists k :: 0 <= k < |rules| && rules[k] == RuleNamed(rules, name).value && rules[k].name == name
  {
    if rules[0].name != name {
      NamedIsThere(rules[1..], name);
      var k :| 0 <= k < |rules[1..]| && rules[1..][k] == RuleNamed(rules[1..], name).value && rules[1..][k].name == name;
      assert rules[k + 1] == rules[1..][k];
    }
  }

  // ----- compiled form -----

  datatype Compiled = Compiled(name: string, guard: Pred, stores: seq<(nat, Source)>)

  ghost predicate Implements(fields: seq<string>, tree: AST, p: Pred) {
    forall st: State :: |st| == |fields| ==> p(st).out == Truth(fields, tree, st)
  }

  ghost predicate ImplementsRhs(fields: seq<string>, rhs: Rhs, s: Source) {
    forall st: State :: |st| == |fields| ==> s(st) == Stored(fields, rhs, st)
  }

  ghost predicate ImplementsUpdates(fields: seq<string>, updates: seq<Update>, stores: seq<(nat, Source)>) {
    && |stores| == |updates|
    && forall i :: 0 <= i < |updates| ==>
         && updates[i].field in Index(fields) && stores[i].0 == Index(fields)[updates[i].field]
         && ImplementsRhs(fields, updates[i].rhs, stores[i].1)
  }

  ghost predicate ImplementsRule(fields: seq<string>, r: Rule, c: Compiled) {
    c.name == r.name && Implements(fields, r.guard, c.guard) && ImplementsUpdates(fields, r.updates, c.stores)
  }

  ghost predicate ImplementsRules(fields: seq<string>, rules: seq<Rule>, cs: seq<Compiled>) {
    |cs| == |rules| && forall k :: 0 <= k < |cs| ==> ImplementsRule(fields, rules[k], cs[k])
  }

  ghost predicate ImplementsAll(fields: seq<string>, trees: seq<AST>, ps: seq<Pred>) {
    |ps| == |trees| && forall i :: 0 <= i < |ps| ==> Implements(fields, trees[i], ps[i])
  }

  datatype Build = Build(rules: seq<Compiled>, invariants: seq<Pred>, witnesses: seq<Pred>, terminal: Pred)

  ghost predicate ImplementsModel(m: Model, b: Build) {
    && ImplementsRules(m.fields, m.rules, b.rules)
    && ImplementsAll(m.fields, m.invariants, b.invariants)
    && ImplementsAll(m.fields, m.witnesses, b.witnesses)
    && Implements(m.fields, m.terminal, b.terminal)
  }

  lemma {:induction false} RhsOfAppend(updates: seq<Update>, item: Update, f: string)
    requires forall i :: 0 <= i < |updates| ==> updates[i].field != item.field
    ensures RhsOf(updates + [item], f) == if f == item.field then Some(item.rhs) else RhsOf(updates, f)
  {
    if updates != [] {
      assert (updates + [item])[1..] == updates[1..] + [item];
      RhsOfAppend(updates[1..], item, f);
    }
  }

  lemma {:induction false} FirstFaultAppend(fields: seq<string>, updates: seq<Update>, rest: seq<Update>, st: State)
    ensures FirstFault(fields, updates + rest, st) ==
      if FirstFault(fields, updates, st).Some? then FirstFault(fields, updates, st) else FirstFault(fields, rest, st)
  {
    if updates == [] {
      assert updates + rest == rest;
    } else {
      assert (updates + rest)[1..] == updates[1..] + rest;
      FirstFaultAppend(fields, updates[1..], rest, st);
    }
  }

  /** Storing one more value at its position is one more assignment. */
  lemma AfterAppend(fields: seq<string>, updates: seq<Update>, item: Update, st: State, v: Scalar)
    requires |st| == |fields|
    requires item.field in Index(fields) && Stored(fields, item.rhs, st) == Ok(v)
    requires forall i :: 0 <= i < |updates| ==> updates[i].field != item.field
    ensures Index(fields)[item.field] < |st|
    ensures After(fields, updates + [item], st) == After(fields, updates, st)[Index(fields)[item.field] := v]
  {
    DictIsTuple(fields, st);
    var pos := Index(fields)[item.field];
    var after, more := After(fields, updates, st), After(fields, updates + [item], st);
    forall i | 0 <= i < |st| ensures more[i] == after[pos := v][i] {
      RhsOfAppend(updates, item, fields[i]);
      assert IsItsPlace(fields, i) && fields[i] == item.field <==> i == pos;
    }
  }

  /** One turn of the update loop: a stored value extends the step by one assignment, a fault ends it. */
  lemma StoreOne(fields: seq<string>, updates: seq<Update>, k: nat, st: State, v: Result<Scalar>, pos: nat)
    requires |st| == |fields| && DistinctTargets(updates) && k < |updates|
    requires updates[k].field in Index(fields) && FirstFault(fields, updates[..k], st) == None
    requires v == Stored(fields, updates[k].rhs, st) && pos == Index(fields)[updates[k].field]
    ensures v.Raise? ==> FirstFault(fields, updates, st) == Some(v.fault)
    ensures v.Ok? ==> FirstFault(fields, updates[..k + 1], st) == None
    ensures v.Ok? ==> pos < |st| && After(fields, updates[..k + 1], st) == After(fields, updates[..k], st)[pos := v.value]
  {
    if v.Raise? {
      StoreFault(fields, updates, k, st);
    } else {
      StoreValue(fields, updates[..k], updates[k], st, v.value, updates[..k + 1]);
    }
  }

  lemma StoreFault(fields: seq<string>, updates: seq<Update>, k: nat, st: State)
    requires k < |updates| && FirstFault(fields, updates[..k], st) == None && Stored(fields, updates[k].rhs, st).Raise?
    ensures FirstFault(fields, updates, st) == Some(Stored(fields, updates[k].rhs, st).fault)
  {
    assert updates == updates[..k] + updates[k..];
    FirstFaultAppend(fields, updates[..k], updates[k..], st);
  }

  lemma StoreValue(fields: seq<string>, updates: seq<Update>, item: Update, st: State, v: Scalar, more: seq<Update>)
    requires |st| == |fields| && FirstFault(fields, updates, st) == None
    requires item.field in Index(fields) && Stored(fields, item.rhs, st) == Ok(v)
    requires more == updates + [item] && forall i :: 0 <= i < |updates| ==> updates[i].field != item.field
    ensures FirstFault(fields, more, st) == None
    ensures Index(fields)[item.field] < |st|
    ensures After(fields, more, st) == After(fields, updates, st)[Index(fields)[item.field] := v]
  {
    FirstFaultAppend(fields, updates, [item], st);
    AfterAppend(fields, updates, item, st, v);
  }

  /** The source's update loop over a copied list is the step. */
  method TakeStep(ghost m: Model, ghost r: Rule, c: Compiled, st: State) returns (out: StepOutcome)
    requires r in m.rules && ImplementsRule(m.fields, r, c) && |st| == |m.fields|
    ensures out == StepOf(m, r, st)
  {
    var go := c.guard(st).out;
    if go.Raise? {
      return Faults(go.fault);
    }
    if !go.value {
      return Disabled;
    }
    var updated := st;
    assert After(m.fields, [], st) == st;
    for k := 0 to |c.stores|
      invariant |updated| == |st|
      invariant FirstFault(m.fields, r.updates[..k], st) == None
      invariant updated == After(m.fields, r.updates[..k], st)
    {
      var v := c.stores[k].1(st);
      StoreOne(m.fields, r.updates, k, st, v, c.stores[k].0);
      if v.Raise? {
        return Faults(v.fault);
      }
      updated := updated[c.stores[k].0 := v.value];
    }
    assert r.updates[..|r.updates|] == r.updates;
    return Moves(updated);
  }
}
