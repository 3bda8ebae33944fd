/** The checker's tables as they are written, with formulas and assignments as text. */
module Tables {
  import opened Formulas
  import opened Basics
  import opened Lexer
  import opened Parser
  import opened Compiler
  import opened Models
  import Cursor

  datatype Assign = Assign(field: string, rhs: string)

  datatype Action = Action(name: string, guard: string, assign: seq<Assign>)

  datatype Claim = Claim(name: string, formula: string, summary: string)

  datatype Table = Table(
    name: string,
    fields: seq<string>,
    defaults: Dict,
    initials: seq<Dict>,
    actions: seq<Action>,
    invariants: seq<Claim>,
    witnesses: seq<Claim>,
    terminal: string)

  predicate DictAssign(assign: seq<Assign>) {
    forall i, j :: 0 <= i < j < |assign| ==> assign[i].field != assign[j].field
  }

  /** Each assignment is a dictionary. */
  type Machine = m: Table |
    forall a :: a in m.actions ==> DictAssign(a.assign)
    witness Table("", [], map[], [], [], [], [], "")

  /** The tuple of a dictionary state. */
  function KeyOf(fields: seq<string>, state: Dict): State {
    seq(|fields|, i requires 0 <= i < |fields| => if fields[i] in state then state[fields[i]] else Bool(false))
  }

  /** Initial states: the defaults, or the defaults with each override. */
  function Starts(m: Machine): seq<State> {
    if m.initials == [] then [KeyOf(m.fields, m.defaults)]
    else seq(|m.initials|, i requires 0 <= i < |m.initials| => KeyOf(m.fields, m.defaults + m.initials[i]))
  }

  // ----- elementwise properties -----

  predicate All<A>(good: A -> bool, xs: seq<A>) {
    forall i :: 0 <= i < |xs| ==> good(xs[i])
  }

  predicate Pairs<A, B>(related: (A, B) -> bool, xs: seq<A>, ys: seq<B>) {
    |xs| == |ys| && forall i :: 0 <= i < |xs| ==> related(xs[i], ys[i])
  }

  lemma PairsGrow<A, B>(related: (A, B) -> bool, xs: seq<A>, k: nat, ys: seq<B>, y: B)
    requires k < |xs| && Pairs(related, xs[..k], ys) && related(xs[k], y)
    ensures Pairs(related, xs[..k + 1], ys + [y])
  {
    assert forall i :: 0 <= i < k ==> xs[..k + 1][i] == xs[..k][i];
  }

  // ----- which tables are accepted -----

  predicate GoodFormula(fields: seq<string>, text: string) {
    Formula(text).Ok? && Mentions(Formula(text).value) <= Index(fields).Keys
  }

  predicate GoodAssign(m: Machine, a: Assign) {
    && a.field in m.defaults && a.field in Index(m.fields)
    && ParseRhs(a.rhs).Ok?
    && CompileRhs(ParseRhs(a.rhs).value, Index(m.fields)).Ok?
  }

  predicate GoodAssigns(m: Machine, assign: seq<Assign>) {
    All(a => GoodAssign(m, a), assign)
  }

  predicate GoodAction(m: Machine, a: Action) {
    IsWord(a.name) && GoodFormula(m.fields, a.guard) && GoodAssigns(m, a.assign)
  }

  predicate GoodClaims(fields: seq<string>, claims: seq<Claim>) {
    All((c: Claim) => GoodFormula(fields, c.formula), claims)
  }

  predicate DistinctActions(actions: seq<Action>) {
    forall i, j :: 0 <= i < j < |actions| ==> actions[i].name != actions[j].name
  }

  /** A table that passes every check made before exploration. */
  predicate WellBuilt(m: Machine) {
    && DistinctActions(m.actions)
    && (forall i :: 0 <= i < |m.fields| ==> m.fields[i] in m.defaults)
    && All(a => GoodAction(m, a), m.actions)
    && GoodClaims(m.fields, m.invariants) && GoodClaims(m.fields, m.witnesses) && GoodFormula(m.fields, m.terminal)
  }

  // ----- why a table is refused -----

  /** What one entry is refused for, if it is. */
  type Blame<!A> = A -> Option<Fault>

  /** The fault of the first entry that has one. */
  function FirstOf<A>(fault: Blame<A>, xs: seq<A>): Option<Fault> {
    if xs == [] then None else Earlier(FirstOf(fault, xs[..|xs| - 1]), fault(xs[|xs| - 1]))
  }

  function Earlier(a: Option<Fault>, b: Option<Fault>): Option<Fault> {
    if a.Some? then a else b
  }

  lemma {:induction false} FirstStays<A>(fault: Blame<A>, xs: seq<A>, k: nat)
    requires k <= |xs| && FirstOf(fault, xs[..k]).Some?
    ensures FirstOf(fault, xs) == FirstOf(fault, xs[..k])
  {
    if k < |xs| {
      var front := xs[..|xs| - 1];
      assert front[..k] == xs[..k];
      FirstStays(fault, front, k);
    } else {
      assert xs[..k] == xs;
    }
  }

  lemma FirstGrows<A>(fault: Blame<A>, xs: seq<A>, k: nat)
    requires k < |xs| && FirstOf(fault, xs[..k]).None?
    ensures FirstOf(fault, xs[..k + 1]) == fault(xs[k])
    ensures fault(xs[k]).Some? ==> FirstOf(fault, xs) == fault(xs[k])
  {
    assert xs[..k + 1][..k] == xs[..k];
    if fault(xs[k]).Some? {
      FirstStays(fault, xs, k + 1);
    }
  }

  lemma {:induction false} NoFaultIsAll<A>(fault: Blame<A>, good: A -> bool, xs: seq<A>)
    requires forall x :: x in xs ==> (fault(x).None? <==> good(x))
    ensures FirstOf(fault, xs).None? <==> All(good, xs)
  {
    if xs != [] {
      var n := |xs| - 1;
      NoFaultIsAll(fault, good, xs[..n]);
      assert xs[n] in xs;
    }
  }

  function FormulaFault(fields: seq<string>, text: string): Option<Fault> {
    match Formula(text)
    case Raise(f) => Some(f)
    case Ok(tree) => match CompilePred(tree, Index(fields)) case Raise(f) => Some(f) case Ok(_) => None
  }

  function AssignFault(m: Machine, action: string): Blame<Assign> {
    (a: Assign) =>
      if a.field !in m.defaults then Some(AssignsUnknown(action, a.field))
      else if a.field !in Index(m.fields) then Some(KeyError(a.field))
      else match ParseRhs(a.rhs)
        case Raise(f) => Some(f)
        case Ok(rhs) => match CompileRhs(rhs, Index(m.fields)) case Raise(f) => Some(f) case Ok(_) => None
  }

  function ActionFault(m: Machine): Blame<Action> {
    (a: Action) =>
      if !IsWord(a.name) then Some(BadActionName(a.name))
      else Earlier(FormulaFault(m.fields, a.guard), FirstOf(AssignFault(m, a.name), a.assign))
  }

  function ClaimFault(fields: seq<string>): Blame<Claim> {
    (c: Claim) => FormulaFault(fields, c.formula)
  }

  function DefaultFault(m: Machine): Blame<string> {
    (f: string) => if f in m.defaults then None else Some(DefaultMissing(f))
  }

  function NameFault(m: Machine): Option<Fault> {
    if !DistinctActions(m.actions) then Some(DuplicateActions) else FirstOf(DefaultFault(m), m.fields)
  }

  /** The first check a table fails: names, defaults, actions in order, then the claims and the terminal formula. */
  function TableFault(m: Machine): Option<Fault> {
    Earlier(NameFault(m), Earlier(ActionsFault(m.actions, m), FormulasFault(m)))
  }

  function ActionsFault(actions: seq<Action>, m: Machine): Option<Fault> {
    FirstOf(ActionFault(m), actions)
  }

  function FormulasFault(m: Machine): Option<Fault> {
    Earlier(FirstOf(ClaimFault(m.fields), m.invariants),
            Earlier(FirstOf(ClaimFault(m.fields), m.witnesses), FormulaFault(m.fields, m.terminal)))
  }

  lemma FormulaIsGood(fields: seq<string>, text: string)
    ensures FormulaFault(fields, text).None? <==> GoodFormula(fields, text)
  {
    if Formula(text).Ok? {
      CompilesIffKnown(Formula(text).value, Index(fields));
    }
  }

  lemma ActionIsGood(m: Machine, a: Action)
    ensures ActionFault(m)(a).None? <==> GoodAction(m, a)
  {
    FormulaIsGood(m.fields, a.guard);
    NoFaultIsAll(AssignFault(m, a.name), x => GoodAssign(m, x), a.assign);
  }

  lemma ClaimsAreGood(fields: seq<string>, claims: seq<Claim>)
    ensures FirstOf(ClaimFault(fields), claims).None? <==> GoodClaims(fields, claims)
  {
    forall c | c in claims ensures ClaimFault(fields)(c).None? <==> GoodFormula(fields, c.formula) {
      FormulaIsGood(fields, c.formula);
    }
    NoFaultIsAll(ClaimFault(fields), (c: Claim) => GoodFormula(fields, c.formula), claims);
  }

  lemma NamesAreGood(m: Machine)
    ensures NameFault(m).None? <==> DistinctActions(m.actions) && forall i :: 0 <= i < |m.fields| ==> m.fields[i] in m.defaults
  {
    NoFaultIsAll(DefaultFault(m), f => f in m.defaults, m.fields);
  }

  /** A table is refused for something just when it is not well built. */
  lemma FaultlessIsWellBuilt(m: Machine)
    ensures TableFault(m).None? <==> WellBuilt(m)
  {
    NamesAreGood(m);
    forall a | a in m.actions ensures ActionFault(m)(a).None? <==> GoodAction(m, a) {
      ActionIsGood(m, a);
    }
    NoFaultIsAll(ActionFault(m), a => GoodAction(m, a), m.actions);
    ClaimsAreGood(m.fields, m.invariants);
    ClaimsAreGood(m.fields, m.witnesses);
    FormulaIsGood(m.fields, m.terminal);
  }

  // ----- reading a table into a model -----

  predicate ReadsClaim(c: Claim, tree: AST) {
    Formula(c.formula) == Ok(tree)
  }

  predicate ReadsAssign(a: Assign, u: Update) {
    u.field == a.field && ParseRhs(a.rhs) == Ok(u.rhs)
  }

  predicate ReadsAction(a: Action, r: Rule) {
    r.name == a.name && Formula(a.guard) == Ok(r.guard) && Pairs(ReadsAssign, a.assign, r.updates)
  }

  /** `p` is what the table's texts say. */
  predicate Reads(m: Machine, p: Plan) {
    && p.fields == m.fields && p.starts == Starts(m)
    && Pairs(ReadsAction, m.actions, p.rules)
    && Pairs(ReadsClaim, m.invariants, p.invariants) && Pairs(ReadsClaim, m.witnesses, p.witnesses)
    && Formula(m.terminal) == Ok(p.terminal)
  }

  function FaultOf<T>(r: Result<T>): Option<Fault> {
    if r.Raise? then Some(r.fault) else None
  }

  /** A formula text to its tree and a predicate on tuples. */
  method CompileFormula(fields: seq<string>, text: string) returns (r: Result<(AST, Pred)>)
    ensures FormulaFault(fields, text) == FaultOf(r)
    ensures r.Ok? ==> Formula(text) == Ok(r.value.0) && Implements(fields, r.value.0, r.value.1)
  {
    var tree := Cursor.ReadFormula(text);
    if tree.Raise? {
      return Raise(tree.fault);
    }
    var p := CompilePred(tree.value, Index(fields));
    if p.Raise? {
      return Raise(p.fault);
    }
    ImplementsCompiled(fields, tree.value);
    return Ok((tree.value, p.value));
  }

  lemma ImplementsCompiled(fields: seq<string>, tree: AST)
    requires CompilePred(tree, Index(fields)).Ok?
    ensures Implements(fields, tree, CompilePred(tree, Index(fields)).value)
  {
    var p := CompilePred(tree, Index(fields)).value;
    forall st: State | |st| == |fields| ensures p(st).out == Truth(fields, tree, st) {
      CompiledAgrees(tree, fields, st);
    }
  }

  lemma ImplementsCompiledRhs(fields: seq<string>, rhs: Rhs)
    requires CompileRhs(rhs, Index(fields)).Ok?
    ensures ImplementsRhs(fields, rhs, CompileRhs(rhs, Index(fields)).value)
  {
    var s := CompileRhs(rhs, Index(fields)).value;
    forall st: State | |st| == |fields| ensures s(st) == Stored(fields, rhs, st) {
      CompiledRhsAgrees(rhs, fields, st);
    }
  }

  method CompileAssign(m: Machine, action: string, item: Assign) returns (r: Result<(Update, (nat, Source))>)
    ensures AssignFault(m, action)(item) == FaultOf(r)
    ensures r.Ok? ==>
      && r.value.0.field == item.field && ParseRhs(item.rhs) == Ok(r.value.0.rhs)
      && r.value.1.0 == Index(m.fields)[item.field] && ImplementsRhs(m.fields, r.value.0.rhs, r.value.1.1)
  {
    if item.field !in m.defaults {
      return Raise(AssignsUnknown(action, item.field));
    }
    if item.field !in Index(m.fields) {
      return Raise(KeyError(item.field));
    }
    var rhs := ParseRhs(item.rhs);
    if rhs.Raise? {
      return Raise(rhs.fault);
    }
    var source := CompileRhs(rhs.value, Index(m.fields));
    if source.Raise? {
      return Raise(source.fault);
    }
    ImplementsCompiledRhs(m.fields, rhs.value);
    return Ok((Update(item.field, rhs.value), (Index(m.fields)[item.field], source.value)));
  }

  lemma UpdatesGrow(fields: seq<string>, updates: seq<Update>, stores: seq<(nat, Source)>, u: Update, s: (nat, Source))
    requires ImplementsUpdates(fields, updates, stores)
    requires u.field in Index(fields) && s.0 == Index(fields)[u.field] && ImplementsRhs(fields, u.rhs, s.1)
    ensures ImplementsUpdates(fields, updates + [u], stores + [s])
  {
  }

  lemma RulesGrow(fields: seq<string>, rules: seq<Rule>, cs: seq<Compiled>, r: Rule, c: Compiled)
    requires ImplementsRules(fields, rules, cs) && ImplementsRule(fields, r, c)
    ensures ImplementsRules(fields, rules + [r], cs + [c])
  {
  }

  method CompileAssigns(m: Machine, a: Action) returns (r: Result<(seq<Update>, seq<(nat, Source)>)>)
    ensures FirstOf(AssignFault(m, a.name), a.assign) == FaultOf(r)
    ensures r.Ok? ==> Pairs(ReadsAssign, a.assign, r.value.0) && ImplementsUpdates(m.fields, r.value.0, r.value.1)
  {
    var updates, stores := [], [];
    for k := 0 to |a.assign|
      invariant FirstOf(AssignFault(m, a.name), a.assign[..k]).None?
      invariant Pairs(ReadsAssign, a.assign[..k], updates)
      invariant ImplementsUpdates(m.fields, updates, stores)
    {
      var item := CompileAssign(m, a.name, a.assign[k]);
      FirstGrows(AssignFault(m, a.name), a.assign, k);
      if item.Raise? {
        return Raise(item.fault);
      }
      PairsGrow(ReadsAssign, a.assign, k, updates, item.value.0);
      UpdatesGrow(m.fields, updates, stores, item.value.0, item.value.1);
      updates, stores := updates + [item.value.0], stores + [item.value.1];
    }
    assert a.assign[..|a.assign|] == a.assign;
    return Ok((updates, stores));
  }

  method CompileAction(m: Machine, a: Action) returns (r: Result<(Rule, Compiled)>)
    ensures ActionFault(m)(a) == FaultOf(r)
    ensures r.Ok? ==> ReadsAction(a, r.value.0) && ImplementsRule(m.fields, r.value.0, r.value.1)
  {
    if !IsWord(a.name) {
      return Raise(BadActionName(a.name));
    }
    var guard := CompileFormula(m.fields, a.guard);
    if guard.Raise? {
      return Raise(guard.fault);
    }
    var assigns := CompileAssigns(m, a);
    if assigns.Raise? {
      return Raise(assigns.fault);
    }
    return Ok((Rule(a.name, guard.value.0, assigns.value.0), Compiled(a.name, guard.value.1, assigns.value.1)));
  }

  method CompileClaims(fields: seq<string>, claims: seq<Claim>) returns (r: Result<(seq<AST>, seq<Pred>)>)
    ensures FirstOf(ClaimFault(fields), claims) == FaultOf(r)
    ensures r.Ok? ==> Pairs(ReadsClaim, claims, r.value.0) && ImplementsAll(fields, r.value.0, r.value.1)
  {
    var trees, preds := [], [];
    for k := 0 to |claims|
      invariant FirstOf(ClaimFault(fields), claims[..k]).None?
      invariant Pairs(ReadsClaim, claims[..k], trees)
      invariant ImplementsAll(fields, trees, preds)
    {
      var p := CompileFormula(fields, claims[k].formula);
      FirstGrows(ClaimFault(fields), claims, k);
      if p.Raise? {
        return Raise(p.fault);
      }
      PairsGrow(ReadsClaim, claims, k, trees, p.value.0);
      trees, preds := trees + [p.value.0], preds + [p.value.1];
    }
    assert claims[..|claims|] == claims;
    return Ok((trees, preds));
  }

  method CompileActions(m: Machine) returns (r: Result<(seq<Rule>, seq<Compiled>)>)
    ensures ActionsFault(m.actions, m) == FaultOf(r)
    ensures r.Ok? ==> Pairs(ReadsAction, m.actions, r.value.0) && ImplementsRules(m.fields, r.value.0, r.value.1)
  {
    var rules, compiled := [], [];
    for k := 0 to |m.actions|
      invariant ActionsFault(m.actions[..k], m).None?
      invariant Pairs(ReadsAction, m.actions[..k], rules)
      invariant ImplementsRules(m.fields, rules, compiled)
    {
      var c := CompileAction(m, m.actions[k]);
      FirstGrows(ActionFault(m), m.actions, k);
      if c.Raise? {
        return Raise(c.fault);
      }
      PairsGrow(ReadsAction, m.actions, k, rules, c.value.0);
      RulesGrow(m.fields, rules, compiled, c.value.0, c.value.1);
      rules, compiled := rules + [c.value.0], compiled + [c.value.1];
    }
    assert m.actions[..|m.actions|] == m.actions;
    return Ok((rules, compiled));
  }

  method CheckNames(m: Machine) returns (r: Option<Fault>)
    ensures r == NameFault(m)
  {
    var names := {};
    for k := 0 to |m.actions|
      invariant forall i :: 0 <= i < k ==> m.actions[i].name in names
      invariant forall n :: n in names ==> exists i :: 0 <= i < k && m.actions[i].name == n
      invariant DistinctActions(m.actions[..k])
    {
      if m.actions[k].name in names {
        return Some(DuplicateActions);
      }
      names := names + {m.actions[k].name};
    }
    assert m.actions[..|m.actions|] == m.actions;
    for k := 0 to |m.fields|
      invariant FirstOf(DefaultFault(m), m.fields[..k]).None?
    {
      FirstGrows(DefaultFault(m), m.fields, k);
      if m.fields[k] !in m.defaults {
        return Some(DefaultMissing(m.fields[k]));
      }
    }
    assert m.fields[..|m.fields|] == m.fields;
    return None;
  }

  lemma PlanIsProper(m: Machine, p: Plan)
    requires WellBuilt(m) && Reads(m, p)
    ensures Proper(p)
  {
    forall r, u | r in p.rules && u in r.updates ensures u.field in p.fields {
      var k :| 0 <= k < |p.rules| && p.rules[k] == r;
      var i :| 0 <= i < |r.updates| && r.updates[i] == u;
      assert ReadsAction(m.actions[k], r);
      assert GoodAction(m, m.actions[k]) && GoodAssign(m, m.actions[k].assign[i]);
      IndexHasFields(m.fields);
    }
    forall r | r in p.rules ensures DistinctTargets(r.updates) {
      var k :| 0 <= k < |p.rules| && p.rules[k] == r;
      assert ReadsAction(m.actions[k], r) && m.actions[k] in m.actions;
    }
    forall i, j | 0 <= i < j < |p.rules| ensures p.rules[i].name != p.rules[j].name {
      assert ReadsAction(m.actions[i], p.rules[i]) && ReadsAction(m.actions[j], p.rules[j]);
    }
  }

  /** What a table claims: its invariants, its witnesses and its terminal formula, as trees and as predicates. */
  datatype Claims = Claims(
    invariants: (seq<AST>, seq<Pred>), witnesses: (seq<AST>, seq<Pred>), terminal: (AST, Pred))

  ghost predicate ReadsClaims(m: Machine, f: Claims) {
    && Pairs(ReadsClaim, m.invariants, f.invariants.0) && ImplementsAll(m.fields, f.invariants.0, f.invariants.1)
    && Pairs(ReadsClaim, m.witnesses, f.witnesses.0) && ImplementsAll(m.fields, f.witnesses.0, f.witnesses.1)
    && Formula(m.terminal) == Ok(f.terminal.0) && Implements(m.fields, f.terminal.0, f.terminal.1)
  }

  method CompileFormulas(m: Machine) returns (r: Result<Claims>)
    ensures FormulasFault(m) == FaultOf(r)
    ensures r.Ok? ==> ReadsClaims(m, r.value)
  {
    var invariants := CompileClaims(m.fields, m.invariants);
    if invariants.Raise? {
      return Raise(invariants.fault);
    }
    var witnesses := CompileClaims(m.fields, m.witnesses);
    if witnesses.Raise? {
      return Raise(witnesses.fault);
    }
    var terminal := CompileFormula(m.fields, m.terminal);
    if terminal.Raise? {
      return Raise(terminal.fault);
    }
    return Ok(Claims(invariants.value, witnesses.value, terminal.value));
  }

  function PlanOf(m: Machine, rules: seq<Rule>, f: Claims): Plan {
    Plan(m.fields, Starts(m), rules, f.invariants.0, f.witnesses.0, f.terminal.0)
  }

  function BuildOf(rules: seq<Compiled>, f: Claims): Build {
    Build(rules, f.invariants.1, f.witnesses.1, f.terminal.1)
  }

  lemma Assembles(m: Machine, rules: (seq<Rule>, seq<Compiled>), f: Claims)
    requires TableFault(m).None? && ReadsClaims(m, f)
    requires Pairs(ReadsAction, m.actions, rules.0) && ImplementsRules(m.fields, rules.0, rules.1)
    ensures var p := PlanOf(m, rules.0, f); Reads(m, p) && Proper(p) && ImplementsModel(p, BuildOf(rules.1, f))
  {
    FaultlessIsWellBuilt(m);
    PlanIsProper(m, PlanOf(m, rules.0, f));
  }

  /** Every check made on a table before exploring it, and the table compiled. */
  method BuildTable(m: Machine) returns (r: Result<(Model, Build)>)
    ensures TableFault(m) == FaultOf(r)
    ensures r.Ok? ==> Reads(m, r.value.0) && ImplementsModel(r.value.0, r.value.1)
  {
    var bad := CheckNames(m);
    if bad.Some? {
      return Raise(bad.value);
    }
    var actions := CompileActions(m);
    if actions.Raise? {
      return Raise(actions.fault);
    }
    var formulas := CompileFormulas(m);
    if formulas.Raise? {
      return Raise(formulas.fault);
    }
    Assembles(m, actions.value, formulas.value);
    var p: Model := PlanOf(m, actions.value.0, formulas.value);
    var b := BuildOf(actions.value.1, formulas.value);
    return Ok((p, b));
  }
}
