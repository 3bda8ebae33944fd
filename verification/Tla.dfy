/** The emitted TLA+ module, its classical meaning, and its agreement with the checker. */
module Tla {
  import opened Formulas
  import opened Basics
  import opened Decimal
  import opened Parser
  import opened Printing
  import opened Compiler
  import opened Models
  import opened Tables
  import opened Kinds
  import opened Behaviours
  import opened TlaGrammar
  import opened TlaValues

  // ----- the emitted module -----

  datatype Equation = Equation(variable: string, text: string)

  /** One emitted action: its guard, one primed equation per assigned variable, and UNCHANGED. */
  datatype TlaAction = TlaAction(name: string, guard: string, primed: seq<Equation>, kept: seq<string>)

  /** One emitted invariant. */
  datatype Definition = Definition(name: string, text: string)

  /** Init is a disjunction of conjunctions, Next the disjunction of the actions; the invariants are defined last. */
  datatype Module = Module(
    name: string,
    variables: seq<string>,
    init: seq<seq<Equation>>,
    next: seq<TlaAction>,
    claims: seq<Definition>)

  function ScalarText(v: Scalar): string {
    match v
    case Bool(b) => if b then "TRUE" else "FALSE"
    case Int(n) => if n >= 0 then Numeral(n) else "-" + Numeral(-n)
    case Str(s) => "\"" + s + "\""
  }

  function InitConjunct(fields: seq<string>, st: State): seq<Equation>
    requires |st| == |fields|
  {
    seq(|fields|, i requires 0 <= i < |fields| => Equation(fields[i], ScalarText(st[i])))
  }

  /** The text assigned to a field, if the action assigns it. */
  function TextOf(assign: seq<Assign>, f: string): Option<string> {
    if assign == [] then None
    else if assign[0].field == f then Some(assign[0].rhs)
    else TextOf(assign[1..], f)
  }

  function Primed(fields: seq<string>, assign: seq<Assign>): seq<Equation> {
    if fields == [] then []
    else
      var n := |fields| - 1;
      Primed(fields[..n], assign)
      + match TextOf(assign, fields[n]) case Some(rhs) => [Equation(fields[n], rhs)] case None => []
  }

  function Unchanged(fields: seq<string>, assign: seq<Assign>): seq<string> {
    if fields == [] then []
    else
      var n := |fields| - 1;
      Unchanged(fields[..n], assign) + if TextOf(assign, fields[n]).None? then [fields[n]] else []
  }

  /** The source's loop: collect the assigned fields, then list the rest as unchanged. */
  method EmitAction(fields: seq<string>, a: Action) returns (t: TlaAction)
    ensures t == TlaAction(a.name, a.guard, Primed(fields, a.assign), Unchanged(fields, a.assign))
  {
    var primed, targets := [], [];
    for i := 0 to |fields|
      invariant primed == Primed(fields[..i], a.assign)
      invariant forall f :: f in targets <==> f in fields[..i] && TextOf(a.assign, f).Some?
    {
      assert fields[..i + 1][..i] == fields[..i];
      var rhs := TextOf(a.assign, fields[i]);
      if rhs.Some? {
        primed := primed + [Equation(fields[i], rhs.value)];
        targets := targets + [fields[i]];
      }
    }
    assert fields[..|fields|] == fields;
    var rest := [];
    for i := 0 to |fields|
      invariant rest == Unchanged(fields[..i], a.assign)
    {
      assert fields[..i + 1][..i] == fields[..i] && fields[i] in fields;
      if fields[i] !in targets {
        rest := rest + [fields[i]];
      }
    }
    return TlaAction(a.name, a.guard, primed, rest);
  }

  function Emit(m: Machine): Module {
    Module(m.name, m.fields,
           seq(|Starts(m)|, i requires 0 <= i < |Starts(m)| => InitConjunct(m.fields, Starts(m)[i])),
           seq(|m.actions|, k requires 0 <= k < |m.actions| =>
             TlaAction(m.actions[k].name, m.actions[k].guard,
                       Primed(m.fields, m.actions[k].assign), Unchanged(m.fields, m.actions[k].assign))),
           seq(|m.invariants|, i requires 0 <= i < |m.invariants| =>
             Definition(m.invariants[i].name, m.invariants[i].formula)))
  }

  // ----- which modules TLA+ accepts -----

  /** What the module text itself defines, and what it extends. */
  const TAKEN: seq<string> := ["Init", "Next", "Spec", "vars", "Nat", "Int"]

  function Names(t: Module): seq<string> {
    t.variables
    + seq(|t.next|, k requires 0 <= k < |t.next| => t.next[k].name)
    + seq(|t.claims|, i requires 0 <= i < |t.claims| => t.claims[i].name)
  }

  predicate RhsReads(text: string) {
    ParseRhs(text).Ok? && Speakable(ParseRhs(text).value)
  }

  /** TLA+ can read the guard and every assigned expression. */
  predicate ActionReads(a: TlaAction) {
    Readable(a.guard) && forall e :: e in a.primed ==> RhsReads(e.text)
  }

  predicate ActionsRead(t: Module) {
    forall k :: 0 <= k < |t.next| ==> ActionReads(t.next[k])
  }

  /**
   There is a variable to declare and an action to choose, every name is one of TLA+ and defined once, and every guard,
   every assigned expression and every invariant can be read. Otherwise the module has no meaning and no behaviours.
   */
  predicate ModuleReads(t: Module) {
    && TlaName(t.name) && t.variables != [] && t.next != []
    && (forall i :: 0 <= i < |Names(t)| ==> TlaName(Names(t)[i])) && Distinct(TAKEN + Names(t))
    && ActionsRead(t) && (forall i :: 0 <= i < |t.claims| ==> Readable(t.claims[i].text))
  }

  // ----- what TLA+ makes of it -----

  /** Classical truth over typed values: no evaluation order, no exceptions. */
  predicate Valid(tree: AST, s: Dict) {
    match tree
    case Not(inner) => !Valid(inner, s)
    case Bin(And, l, r) => Valid(l, s) && Valid(r, s)
    case Bin(Or, l, r) => Valid(l, s) || Valid(r, s)
    case Bin(Implies, l, r) => Valid(l, s) ==> Valid(r, s)
    case Flag(f) => f in s && s[f] == Bool(true)
    case Cmp(Eq, f, v) => f in s && s[f] == v
    case Cmp(Ne, f, v) => f in s && s[f] != v
    case Cmp(Lt, f, v) => f in s && s[f].Int? && v.Int? && s[f].n < v.n
    case FieldCmp(Eq, l, r) => l in s && r in s && s[l] == s[r]
    case FieldCmp(Ne, l, r) => l in s && r in s && s[l] != s[r]
    case FieldCmp(Lt, l, r) => l in s && r in s && s[l].Int? && s[r].Int? && s[l].n < s[r].n
    case InSet(f, values) => f in s && s[f] in values
  }

  /** The value of an assigned expression, as TLA+ reads it. */
  ghost predicate Denotes(text: string, s: Dict, v: Scalar) {
    || TlaRhs(text, Lit(v))
    || exists f: string, add: nat :: TlaRhs(text, Plus(f, add)) && f in s && s[f].Int? && v == Int(s[f].n + add)
  }

  /** A formula as TLA+ reads it, which is not always how the checker does. */
  ghost predicate FormulaHolds(text: string, s: Dict) {
    exists tree: AST :: TlaReads(text, tree) && Valid(tree, s)
  }

  ghost predicate PrimedHold(primed: seq<Equation>, s: Dict, s': Dict) {
    forall e :: e in primed ==> e.variable in s' && Denotes(e.text, s, s'[e.variable])
  }

  ghost predicate UnchangedHold(kept: seq<string>, s: Dict, s': Dict) {
    forall f :: f in kept ==> f in s && f in s' && s'[f] == s[f]
  }

  /** An action as a relation between two states. */
  ghost predicate Relates(a: TlaAction, s: Dict, s': Dict) {
    FormulaHolds(a.guard, s) && PrimedHold(a.primed, s, s') && UnchangedHold(a.kept, s, s')
  }

  /** A scalar as written in Init, where a number may have a sign. */
  function ReadScalar(text: string): Option<Scalar> {
    if text != [] && text[0] == '-' then
      match ScalarOf(Classify(text[1..])) case Ok(Int(n)) => Some(Int(-n)) case _ => None
    else
      match ScalarOf(Classify(text)) case Ok(v) => Some(v) case Raise(_) => None
  }

  ghost predicate Satisfies(conjunct: seq<Equation>, s: Dict) {
    forall e :: e in conjunct ==> e.variable in s && ReadScalar(e.text) == Some(s[e.variable])
  }

  ghost predicate InitHolds(t: Module, s: Dict) {
    exists i :: 0 <= i < |t.init| && Satisfies(t.init[i], s)
  }

  /** [Next]_vars: an action, or no change. */
  ghost predicate NextOrStutter(t: Module, s: Dict, s': Dict) {
    s' == s || exists k :: 0 <= k < |t.next| && Relates(t.next[k], s, s')
  }

  /** A state is an assignment to exactly the module's variables. */
  ghost predicate IsState(t: Module, s: Dict) {
    forall f :: f in s <==> f in t.variables
  }

  ghost function Firsts(t: Module): iset<Dict> {
    iset s: Dict | IsState(t, s) && InitHolds(t, s)
  }

  ghost function Steps(t: Module): iset<(Dict, Dict)> {
    iset x: (Dict, Dict) | IsState(t, x.1) && NextOrStutter(t, x.0, x.1)
  }

  /** Some behaviour ends in `s`: it starts in Init and every step is an action or no change. */
  ghost predicate TlaReachable(t: Module, s: Dict) {
    ModuleReads(t) && exists run :: run in RunsTo(Firsts(t), Steps(t), s)
  }

  // ----- assignments and UNCHANGED partition the variables -----

  lemma {:induction false} PrimedIs(fields: seq<string>, assign: seq<Assign>, e: Equation)
    ensures e in Primed(fields, assign) <==> e.variable in fields && TextOf(assign, e.variable) == Some(e.text)
  {
    if fields != [] {
      var n := |fields| - 1;
      PrimedIs(fields[..n], assign, e);
      assert fields == fields[..n] + [fields[n]];
    }
  }

  lemma {:induction false} UnchangedIs(fields: seq<string>, assign: seq<Assign>, f: string)
    ensures f in Unchanged(fields, assign) <==> f in fields && TextOf(assign, f).None?
  {
    if fields != [] {
      var n := |fields| - 1;
      UnchangedIs(fields[..n], assign, f);
      assert fields == fields[..n] + [fields[n]];
    }
  }

  /** Every variable is either assigned exactly one expression or listed as unchanged, never both. */
  lemma VariablesPartition(fields: seq<string>, assign: seq<Assign>, f: string)
    requires f in fields
    ensures f in Unchanged(fields, assign) <==> !exists e :: e in Primed(fields, assign) && e.variable == f
    ensures forall e, e' :: e in Primed(fields, assign) && e' in Primed(fields, assign) && e.variable == e'.variable ==> e == e'
  {
    UnchangedIs(fields, assign, f);
    forall e ensures e in Primed(fields, assign) <==> e.variable in fields && TextOf(assign, e.variable) == Some(e.text) {
      PrimedIs(fields, assign, e);
    }
    if TextOf(assign, f).Some? {
      assert Equation(f, TextOf(assign, f).value) in Primed(fields, assign);
    }
  }

  // ----- well-kinded tables -----

  /** Flags are truth values, and comparisons stay within one kind. */
  predicate Kinded(tree: AST, kinds: Kinding) {
    match tree
    case Not(inner) => Kinded(inner, kinds)
    case Bin(_, l, r) => Kinded(l, kinds) && Kinded(r, kinds)
    case Flag(f) => f in kinds && kinds[f] == BoolKind
    case Cmp(cmp, f, v) => f in kinds && KindOf(v) == kinds[f] && (cmp == Lt ==> v.Int?)
    case FieldCmp(cmp, l, r) => l in kinds && r in kinds && kinds[l] == kinds[r] && (cmp == Lt ==> kinds[l] == IntKind)
    case InSet(f, values) => f in kinds && forall i :: 0 <= i < |values| ==> KindOf(values[i]) == kinds[f]
  }

  /** A field plus a number is a number field. */
  predicate SourceKinded(rhs: Rhs, kinds: Kinding) {
    match rhs
    case Lit(v) => Plain(v)
    case Plus(f, _) => f in kinds && kinds[f] == IntKind
  }

  predicate WellKinded(m: Model, kinds: Kinding) {
    && KeepsKinds(m, kinds) && (forall f :: f in kinds ==> f in m.fields)
    && (forall r :: r in m.rules ==> Kinded(r.guard, kinds))
    && (forall r, u :: r in m.rules && u in r.updates ==> SourceKinded(u.rhs, kinds))
    && (forall st, v :: st in m.starts && v in st ==> Plain(v))
  }

  predicate FitsDict(kinds: Kinding, s: Dict) {
    forall f :: f in kinds ==> f in s && KindOf(s[f]) == kinds[f]
  }

  lemma {:induction false} TruthIsClassical(tree: AST, kinds: Kinding, s: Dict)
    requires Kinded(tree, kinds) && FitsDict(kinds, s)
    ensures Holds(tree, s).out == Ok(Valid(tree, s))
  {
    match tree
    case Not(inner) =>
      TruthIsClassical(inner, kinds, s);
    case Bin(_, l, r) =>
      TruthIsClassical(l, kinds, s);
      TruthIsClassical(r, kinds, s);
    case InSet(f, values) =>
      assert Member(s[f], values) <==> s[f] in values;
    case _ =>
  }

  lemma TupleInDict(fields: seq<string>, st: State, i: nat)
    requires Distinct(fields) && |st| == |fields| && i < |fields|
    ensures fields[i] in AsDict(fields, st) && AsDict(fields, st)[fields[i]] == st[i] && IsItsPlace(fields, i)
  {
    DictIsTuple(fields, st);
    IndexHasFields(fields);
    assert fields[i] in fields;
    assert Index(fields)[fields[i]] == i;
  }

  lemma FitsBoth(m: Model, kinds: Kinding, st: State)
    requires Fits(m.fields, kinds, st) && forall f :: f in kinds ==> f in m.fields
    ensures FitsDict(kinds, AsDict(m.fields, st))
  {
    DictIsTuple(m.fields, st);
    IndexHasFields(m.fields);
  }

  /** A dictionary over the variables is the dictionary of a tuple. */
  lemma DictHasTuple(fields: seq<string>, s: Dict)
    requires Distinct(fields) && forall f :: f in s <==> f in fields
    ensures AsDict(fields, KeyOf(fields, s)) == s
  {
    var st := KeyOf(fields, s);
    DictIsTuple(fields, st);
    IndexHasFields(fields);
  }

  lemma SameDict(fields: seq<string>, s: State, t: State)
    requires Distinct(fields) && |s| == |t| == |fields| && AsDict(fields, s) == AsDict(fields, t)
    ensures s == t
  {
    forall i | 0 <= i < |s| ensures s[i] == t[i] {
      TupleInDict(fields, s, i);
      TupleInDict(fields, t, i);
    }
  }

  // ----- Init -----

  lemma SpelledIsRead(v: Scalar, text: string)
    requires Writable(v) && text == Spelling(ValueToken(v))
    ensures ScalarOf(Classify(text)) == Ok(v)
  {
    ValueSpells(v);
    SpellingReads(ValueToken(v));
    ValueTokenReads(v);
  }

  lemma OnlyMinusHasASign(v: Scalar)
    requires !(v.Int? && v.n < 0)
    ensures ScalarText(v) != [] && ScalarText(v)[0] != '-'
  {
    match v
    case Bool(b) =>
      assert ScalarText(v)[0] == if b then 'T' else 'F';
    case Int(n) =>
      NumeralReadsBack(n);
      assert '0' <= ScalarText(v)[0] <= '9';
    case Str(s) =>
      assert ScalarText(v)[0] == '"';
  }

  lemma UnsignedReads(text: string, v: Scalar)
    requires text != [] && text[0] != '-' && ScalarOf(Classify(text)) == Ok(v)
    ensures ReadScalar(text) == Some(v)
  {
  }

  lemma SignedReads(text: string, n: int)
    requires ScalarOf(Classify(text)) == Ok(Int(n))
    ensures ReadScalar(['-'] + text) == Some(Int(-n))
  {
    assert (['-'] + text)[1..] == text;
  }

  lemma ScalarIsSpelled(v: Scalar)
    requires Writable(v)
    ensures ScalarText(v) == Spelling(ValueToken(v))
  {
  }

  lemma UnsignedTextReads(v: Scalar, text: string)
    requires Writable(v) && text == ScalarText(v)
    ensures ReadScalar(text) == Some(v)
  {
    ScalarIsSpelled(v);
    SpelledIsRead(v, text);
    OnlyMinusHasASign(v);
    UnsignedReads(text, v);
  }

  lemma NumeralReads(n: nat, text: string)
    requires text == Numeral(n)
    ensures ScalarOf(Classify(text)) == Ok(Int(n))
  {
    assert ValueToken(Int(n)) == Word(text);
    SpelledIsRead(Int(n), text);
  }

  lemma SignedTextReads(n: int, digits: string)
    requires n >= 0 && digits == Numeral(n)
    ensures ReadScalar(['-'] + digits) == Some(Int(-n))
  {
    NumeralReads(n, digits);
    SignedReads(digits, n);
  }

  lemma ScalarTextReads(v: Scalar, text: string)
    requires Plain(v) && text == ScalarText(v)
    ensures ReadScalar(text) == Some(v)
  {
    if v.Int? && v.n < 0 {
      SignedTextReads(-v.n, Numeral(-v.n));
    } else {
      UnsignedTextReads(v, text);
    }
  }

  lemma ConjunctIsState(fields: seq<string>, start: State, st: State)
    requires Distinct(fields) && |start| == |st| == |fields| && forall v :: v in start ==> Plain(v)
    ensures Satisfies(InitConjunct(fields, start), AsDict(fields, st)) <==> st == start
  {
    var conjunct, s := InitConjunct(fields, start), AsDict(fields, st);
    forall i | 0 <= i < |fields|
      ensures fields[i] in s && s[fields[i]] == st[i] && ReadScalar(conjunct[i].text) == Some(start[i])
    {
      TupleInDict(fields, st, i);
      assert start[i] in start;
      ScalarTextReads(start[i], conjunct[i].text);
    }
    if Satisfies(conjunct, s) {
      forall i | 0 <= i < |fields| ensures st[i] == start[i] {
        assert conjunct[i] in conjunct;
      }
    }
  }

  /** Init holds exactly of the checker's initial states. */
  lemma InitAgrees(m: Machine, p: Model, kinds: Kinding, st: State)
    requires Reads(m, p) && WellKinded(p, kinds) && Distinct(m.fields) && |st| == |m.fields|
    ensures InitHolds(Emit(m), AsDict(m.fields, st)) <==> st in p.starts
  {
    var s := AsDict(m.fields, st);
    forall i | 0 <= i < |Starts(m)| ensures Satisfies(Emit(m).init[i], s) <==> st == Starts(m)[i] {
      assert Starts(m)[i] in p.starts;
      ConjunctIsState(m.fields, Starts(m)[i], st);
    }
  }

  // ----- actions -----

  lemma {:induction false} TextIsRhs(assign: seq<Assign>, updates: seq<Update>, f: string)
    requires Pairs(ReadsAssign, assign, updates)
    ensures TextOf(assign, f).Some? <==> RhsOf(updates, f).Some?
    ensures TextOf(assign, f).Some? ==> ParseRhs(TextOf(assign, f).value) == Ok(RhsOf(updates, f).value)
  {
    if assign != [] {
      assert ReadsAssign(assign[0], updates[0]);
      forall i | 0 <= i < |assign[1..]| ensures ReadsAssign(assign[1..][i], updates[1..][i]) {
        assert ReadsAssign(assign[i + 1], updates[i + 1]);
      }
      TextIsRhs(assign[1..], updates[1..], f);
    }
  }

  /** TLA+ gives an assigned expression just the value the checker stores, if it can read it. */
  lemma RhsDenotes(text: string, rhs: Rhs, kinds: Kinding, s: Dict, v: Scalar)
    requires ParseRhs(text) == Ok(rhs) && SourceKinded(rhs, kinds) && FitsDict(kinds, s)
    ensures RhsValue(rhs, s).Ok? && (Denotes(text, s, v) <==> Speakable(rhs) && v == RhsValue(rhs, s).value)
  {
    TlaRhsIsParsed(text, rhs);
    forall other | TlaRhs(text, other) ensures other == rhs {
      TlaRhsIsParsed(text, other);
    }
    if rhs.Lit? {
      assert Denotes(text, s, v) <==> TlaRhs(text, Lit(v));
    } else {
      assert Denotes(text, s, v) <==> TlaRhs(text, rhs) && v == Int(s[rhs.field].n + rhs.add);
    }
  }

  lemma {:induction false} KindedNeverFaults(fields: seq<string>, updates: seq<Update>, kinds: Kinding, st: State)
    requires |st| == |fields| && FitsDict(kinds, AsDict(fields, st))
    requires forall u :: u in updates ==> SourceKinded(u.rhs, kinds)
    ensures FirstFault(fields, updates, st) == None
  {
    if updates != [] {
      assert updates[0] in updates;
      KindedNeverFaults(fields, updates[1..], kinds, st);
    }
  }

  /** A field's equation, or its place in UNCHANGED, says what the checker stores. */
  ghost predicate FieldHolds(assign: seq<Assign>, f: string, s: Dict, s': Dict) {
    && f in s && f in s'
    && match TextOf(assign, f) case Some(text) => Denotes(text, s, s'[f]) case None => s'[f] == s[f]
  }

  predicate FieldReads(assign: seq<Assign>, f: string) {
    match TextOf(assign, f) case Some(text) => RhsReads(text) case None => true
  }

  lemma FieldAgrees(fields: seq<string>, a: Action, r: Rule, kinds: Kinding, st: State, st': State, i: nat)
    requires Distinct(fields) && |st| == |st'| == |fields| && i < |fields| && Pairs(ReadsAssign, a.assign, r.updates)
    requires FitsDict(kinds, AsDict(fields, st)) && forall u :: u in r.updates ==> SourceKinded(u.rhs, kinds)
    ensures FieldHolds(a.assign, fields[i], AsDict(fields, st), AsDict(fields, st'))
       <==> FieldReads(a.assign, fields[i]) && FieldAfter(fields, r.updates, st, i) == st'[i]
  {
    TupleInDict(fields, st, i);
    TupleInDict(fields, st', i);
    TextIsRhs(a.assign, r.updates, fields[i]);
    var text := TextOf(a.assign, fields[i]);
    if text.Some? {
      RhsOfIsThere(r.updates, fields[i]);
      RhsDenotes(text.value, RhsOf(r.updates, fields[i]).value, kinds, AsDict(fields, st), st'[i]);
    }
  }

  /** The emitted lines together are one such condition per field. */
  lemma LinesAreFields(fields: seq<string>, assign: seq<Assign>, s: Dict, s': Dict)
    requires forall f :: f in fields ==> f in s && f in s'
    ensures PrimedHold(Primed(fields, assign), s, s') && UnchangedHold(Unchanged(fields, assign), s, s')
       <==> forall f :: f in fields ==> FieldHolds(assign, f, s, s')
  {
    forall f | f in fields
      ensures match TextOf(assign, f)
              case Some(text) => Equation(f, text) in Primed(fields, assign)
              case None => f in Unchanged(fields, assign)
    {
      UnchangedIs(fields, assign, f);
      if TextOf(assign, f).Some? {
        PrimedIs(fields, assign, Equation(f, TextOf(assign, f).value));
      }
    }
    forall e | e in Primed(fields, assign) ensures e.variable in fields && TextOf(assign, e.variable) == Some(e.text) {
      PrimedIs(fields, assign, e);
    }
    forall f | f in Unchanged(fields, assign) ensures f in fields && TextOf(assign, f).None? {
      UnchangedIs(fields, assign, f);
    }
  }

  lemma ReadsByField(fields: seq<string>, assign: seq<Assign>)
    ensures (forall e :: e in Primed(fields, assign) ==> RhsReads(e.text))
       <==> forall i :: 0 <= i < |fields| ==> FieldReads(assign, fields[i])
  {
    forall e ensures e in Primed(fields, assign) <==> e.variable in fields && TextOf(assign, e.variable) == Some(e.text) {
      PrimedIs(fields, assign, e);
    }
    if forall e :: e in Primed(fields, assign) ==> RhsReads(e.text) {
      forall i | 0 <= i < |fields| ensures FieldReads(assign, fields[i]) {
        var text := TextOf(assign, fields[i]);
        assert text.Some? ==> Equation(fields[i], text.value) in Primed(fields, assign);
      }
    }
  }

  /** The equations and UNCHANGED together say, field by field, what the checker stores. */
  lemma UpdateAgrees(fields: seq<string>, a: Action, r: Rule, kinds: Kinding, st: State, st': State)
    requires Distinct(fields) && |st| == |st'| == |fields| && Pairs(ReadsAssign, a.assign, r.updates)
    requires FitsDict(kinds, AsDict(fields, st)) && forall u :: u in r.updates ==> SourceKinded(u.rhs, kinds)
    ensures var s, s' := AsDict(fields, st), AsDict(fields, st');
            PrimedHold(Primed(fields, a.assign), s, s') && UnchangedHold(Unchanged(fields, a.assign), s, s')
            <==> (forall e :: e in Primed(fields, a.assign) ==> RhsReads(e.text)) && After(fields, r.updates, st) == st'
  {
    var s, s', after := AsDict(fields, st), AsDict(fields, st'), After(fields, r.updates, st);
    forall f | f in fields ensures f in s && f in s' {
      DictIsTuple(fields, st);
      DictIsTuple(fields, st');
      IndexHasFields(fields);
    }
    LinesAreFields(fields, a.assign, s, s');
    ReadsByField(fields, a.assign);
    forall i | 0 <= i < |fields|
      ensures FieldHolds(a.assign, fields[i], s, s') <==> FieldReads(a.assign, fields[i]) && after[i] == st'[i]
    {
      FieldAgrees(fields, a, r, kinds, st, st', i);
    }
    ByPosition(fields, a.assign, s, s', after, st');
  }

  lemma ByPosition(fields: seq<string>, assign: seq<Assign>, s: Dict, s': Dict, after: State, st': State)
    requires |after| == |st'| == |fields|
    requires forall i :: 0 <= i < |fields| ==>
               (FieldHolds(assign, fields[i], s, s') <==> FieldReads(assign, fields[i]) && after[i] == st'[i])
    ensures (forall f :: f in fields ==> FieldHolds(assign, f, s, s'))
       <==> (forall i :: 0 <= i < |fields| ==> FieldReads(assign, fields[i])) && after == st'
  {
    if forall f :: f in fields ==> FieldHolds(assign, f, s, s') {
      forall i | 0 <= i < |fields| ensures FieldReads(assign, fields[i]) && after[i] == st'[i] {
        assert fields[i] in fields;
      }
    }
  }

  lemma FormulaAgrees(text: string, tree: AST, s: Dict)
    requires Formula(text) == Ok(tree)
    ensures FormulaHolds(text, s) <==> Readable(text) && Valid(tree, s)
  {
    OneTlaReading(text, tree);
    forall other: AST | TlaReads(text, other) ensures other == tree {
      TlaReadsAsParsed(text, other);
    }
  }

  /** An emitted action relates two states exactly when TLA+ reads it and the checker steps from one to the other. */
  lemma ActionAgrees(m: Machine, p: Model, kinds: Kinding, k: nat, st: State, st': State)
    requires Reads(m, p) && WellKinded(p, kinds) && Distinct(m.fields) && k < |m.actions|
    requires Fits(m.fields, kinds, st) && |st'| == |m.fields|
    ensures Relates(Emit(m).next[k], AsDict(m.fields, st), AsDict(m.fields, st'))
       <==> ActionReads(Emit(m).next[k]) && StepOf(p, p.rules[k], st) == Moves(st')
  {
    var a, r, s := m.actions[k], p.rules[k], AsDict(m.fields, st);
    assert ReadsAction(a, r) && r in p.rules;
    FitsBoth(p, kinds, st);
    FormulaAgrees(a.guard, r.guard, s);
    TruthIsClassical(r.guard, kinds, s);
    KindedNeverFaults(m.fields, r.updates, kinds, st);
    UpdateAgrees(m.fields, a, r, kinds, st, st');
  }

  // ----- the same reachable states -----

  ghost function TlaRuns(m: Machine, st: State): iset<seq<Dict>>
    requires |st| == |m.fields|
  {
    RunsTo(Firsts(Emit(m)), Steps(Emit(m)), AsDict(m.fields, st))
  }

  lemma {:induction false} RunIsBehaviour(m: Machine, p: Model, kinds: Kinding, start: State, names: seq<string>)
    returns (run: seq<Dict>)
    requires Reads(m, p) && WellKinded(p, kinds) && Distinct(m.fields) && ActionsRead(Emit(m))
    requires start in p.starts && Replay(p, start, names).Some?
    ensures |Replay(p, start, names).value| == |m.fields|
    ensures run in TlaRuns(m, Replay(p, start, names).value)
  {
    var st := Replay(p, start, names).value;
    RunFits(p, kinds, start, names);
    if names == [] {
      StartIsBehaviour(m, p, kinds, start);
      run := [AsDict(m.fields, start)];
    } else {
      var short := names[..|names| - 1];
      var mid := Replay(p, start, short).value;
      RunFits(p, kinds, start, short);
      run := RunIsBehaviour(m, p, kinds, start, short);
      StepIsBehaviour(m, p, kinds, mid, names[|names| - 1], st, run);
      run := run + [AsDict(m.fields, st)];
    }
  }

  lemma StartIsBehaviour(m: Machine, p: Model, kinds: Kinding, start: State)
    requires Reads(m, p) && WellKinded(p, kinds) && Distinct(m.fields) && start in p.starts && |start| == |m.fields|
    ensures [AsDict(m.fields, start)] in TlaRuns(m, start)
  {
    TupleIsState(m, start);
    InitAgrees(m, p, kinds, start);
    RunStarts(Firsts(Emit(m)), Steps(Emit(m)), AsDict(m.fields, start));
  }

  lemma StepIsBehaviour(m: Machine, p: Model, kinds: Kinding, mid: State, name: string, st: State, run: seq<Dict>)
    requires Reads(m, p) && WellKinded(p, kinds) && Distinct(m.fields) && ActionsRead(Emit(m))
    requires Fits(m.fields, kinds, mid) && |st| == |m.fields|
    requires StepNamed(p, name, mid) == Some(st) && run in TlaRuns(m, mid)
    ensures run + [AsDict(m.fields, st)] in TlaRuns(m, st)
  {
    StepIsNext(m, p, kinds, mid, name, st);
    RunGrows(Firsts(Emit(m)), Steps(Emit(m)), run, AsDict(m.fields, mid), AsDict(m.fields, st));
  }

  lemma TupleIsState(m: Machine, st: State)
    requires |st| == |m.fields|
    ensures IsState(Emit(m), AsDict(m.fields, st))
  {
    DictIsTuple(m.fields, st);
    IndexHasFields(m.fields);
  }

  lemma RelatedIsStep(t: Module, k: nat, s: Dict, s': Dict)
    requires k < |t.next| && IsState(t, s') && Relates(t.next[k], s, s')
    ensures (s, s') in Steps(t)
  {
  }

  lemma StepIsNext(m: Machine, p: Model, kinds: Kinding, mid: State, name: string, st: State)
    requires Reads(m, p) && WellKinded(p, kinds) && Distinct(m.fields) && ActionsRead(Emit(m))
    requires Fits(m.fields, kinds, mid) && |st| == |m.fields|
    requires StepNamed(p, name, mid) == Some(st)
    ensures (AsDict(m.fields, mid), AsDict(m.fields, st)) in Steps(Emit(m))
  {
    TupleIsState(m, st);
    NamedIsThere(p.rules, name);
    var k :| 0 <= k < |p.rules| && p.rules[k] == RuleNamed(p.rules, name).value;
    assert ActionReads(Emit(m).next[k]);
    ActionAgrees(m, p, kinds, k, mid, st);
    RelatedIsStep(Emit(m), k, AsDict(m.fields, mid), AsDict(m.fields, st));
  }

  lemma RelatedIsReachable(m: Machine, p: Model, kinds: Kinding, k: nat, mid: State, st: State)
    requires Reads(m, p) && WellKinded(p, kinds) && Distinct(m.fields) && Reachable(p, mid) && k < |m.actions|
    requires Fits(m.fields, kinds, mid) && |st| == |m.fields|
    requires Relates(Emit(m).next[k], AsDict(m.fields, mid), AsDict(m.fields, st))
    ensures Reachable(p, st)
  {
    ActionAgrees(m, p, kinds, k, mid, st);
    NamedByPosition(p.rules, k);
    ReachableStep(p, mid, p.rules[k].name, st);
  }

  lemma NextIsStep(m: Machine, p: Model, kinds: Kinding, mid: State, st: State)
    requires Reads(m, p) && WellKinded(p, kinds) && Distinct(m.fields) && Reachable(p, mid) && |st| == |m.fields| == |mid|
    requires NextOrStutter(Emit(m), AsDict(m.fields, mid), AsDict(m.fields, st))
    ensures Reachable(p, st)
  {
    if AsDict(m.fields, st) == AsDict(m.fields, mid) {
      SameDict(m.fields, st, mid);
    } else {
      ReachableFits(p, kinds, mid);
      var k :| 0 <= k < |Emit(m).next| && Relates(Emit(m).next[k], AsDict(m.fields, mid), AsDict(m.fields, st));
      RelatedIsReachable(m, p, kinds, k, mid, st);
    }
  }

  lemma {:induction false} BehaviourIsRun(m: Machine, p: Model, kinds: Kinding, run: seq<Dict>, s: Dict)
    requires Reads(m, p) && WellKinded(p, kinds) && Distinct(m.fields)
    requires run in RunsTo(Firsts(Emit(m)), Steps(Emit(m)), s)
    ensures IsState(Emit(m), s) && Reachable(p, KeyOf(m.fields, s))
  {
    var n := |run| - 1;
    var st := KeyOf(m.fields, s);
    RunEnds(Firsts(Emit(m)), Steps(Emit(m)), run, s);
    if n == 0 {
      DictHasTuple(m.fields, s);
      InitAgrees(m, p, kinds, st);
      assert Replay(p, st, []) == Some(st);
    } else {
      var mid := run[n - 1];
      BehaviourIsRun(m, p, kinds, run[..n], mid);
      StepIsState(Emit(m), mid, s);
      DictHasTuple(m.fields, mid);
      DictHasTuple(m.fields, s);
      NextIsStep(m, p, kinds, KeyOf(m.fields, mid), st);
    }
  }

  lemma StepIsState(t: Module, mid: Dict, s: Dict)
    requires (mid, s) in Steps(t)
    ensures IsState(t, s) && NextOrStutter(t, mid, s)
  {
  }

  lemma VariablesAreDistinct(t: Module)
    requires ModuleReads(t)
    ensures Distinct(t.variables)
  {
    var all := TAKEN + Names(t);
    forall i, j | 0 <= i < j < |t.variables| ensures t.variables[i] != t.variables[j] {
      assert all[|TAKEN| + i] == t.variables[i] && all[|TAKEN| + j] == t.variables[j];
    }
  }

  /** The emitted module has a meaning and reaches a state if and only if TLA+ accepts it and the checker reaches the state. */
  lemma SameReachableStates(m: Machine, p: Model, kinds: Kinding, s: Dict)
    requires Reads(m, p) && WellKinded(p, kinds)
    ensures TlaReachable(Emit(m), s)
       <==> ModuleReads(Emit(m)) && exists st :: |st| == |m.fields| && Reachable(p, st) && AsDict(m.fields, st) == s
  {
    if ModuleReads(Emit(m)) {
      VariablesAreDistinct(Emit(m));
      if TlaReachable(Emit(m), s) {
        var run :| run in RunsTo(Firsts(Emit(m)), Steps(Emit(m)), s);
        BehaviourIsRun(m, p, kinds, run, s);
        DictHasTuple(m.fields, s);
      }
      forall st | |st| == |m.fields| && Reachable(p, st) && AsDict(m.fields, st) == s
        ensures exists run :: run in RunsTo(Firsts(Emit(m)), Steps(Emit(m)), s)
      {
        var start, names :| start in p.starts && Replay(p, start, names) == Some(st);
        var run := RunIsBehaviour(m, p, kinds, start, names);
      }
    }
  }

  // ----- the same invariants -----

  /** TLA+ finds a formula true of every reachable state. */
  ghost predicate TlaInvariant(t: Module, text: string) {
    forall s :: TlaReachable(t, s) ==> FormulaHolds(text, s)
  }

  ghost predicate Invariant(p: Model, tree: AST) {
    forall st :: Reachable(p, st) ==> Truth(p.fields, tree, st) == Ok(true)
  }

  /** Every invariant of the table is emitted as it is, so TLA+ has to read it. */
  lemma ClaimIsEmitted(m: Machine, c: Claim)
    requires c in m.invariants
    ensures Definition(c.name, c.formula) in Emit(m).claims
    ensures ModuleReads(Emit(m)) ==> Readable(c.formula)
  {
    var i :| 0 <= i < |m.invariants| && m.invariants[i] == c;
    assert Emit(m).claims[i] == Definition(c.name, c.formula);
  }

  /** One invariant TLA+ cannot read, and the emitted module has no states at all. */
  lemma UnreadableClaimLeavesNothing(m: Machine, c: Claim, s: Dict)
    requires c in m.invariants && !Readable(c.formula)
    ensures !TlaReachable(Emit(m), s)
  {
    ClaimIsEmitted(m, c);
  }

  lemma ClaimAgrees(m: Machine, p: Model, kinds: Kinding, text: string, tree: AST, st: State)
    requires Reads(m, p) && WellKinded(p, kinds) && Kinded(tree, kinds) && Formula(text) == Ok(tree) && Readable(text)
    requires Reachable(p, st)
    ensures |st| == |m.fields|
    ensures FormulaHolds(text, AsDict(m.fields, st)) <==> Truth(p.fields, tree, st) == Ok(true)
  {
    ReachableFits(p, kinds, st);
    FitsBoth(p, kinds, st);
    FormulaAgrees(text, tree, AsDict(m.fields, st));
    TruthIsClassical(tree, kinds, AsDict(m.fields, st));
  }

  /** An emitted invariant holds in TLA+ if and only if the checker's holds of every state it reaches. */
  lemma InvariantAgrees(m: Machine, p: Model, kinds: Kinding, c: Claim, tree: AST)
    requires Reads(m, p) && WellKinded(p, kinds) && ModuleReads(Emit(m))
    requires c in m.invariants && Formula(c.formula) == Ok(tree) && Kinded(tree, kinds)
    ensures TlaInvariant(Emit(m), c.formula) <==> Invariant(p, tree)
  {
    ClaimIsEmitted(m, c);
    if TlaInvariant(Emit(m), c.formula) {
      forall st | Reachable(p, st) ensures Truth(p.fields, tree, st) == Ok(true) {
        ClaimAgrees(m, p, kinds, c.formula, tree, st);
        SameReachableStates(m, p, kinds, AsDict(m.fields, st));
      }
    } else {
      var s :| TlaReachable(Emit(m), s) && !FormulaHolds(c.formula, s);
      SameReachableStates(m, p, kinds, s);
      var st :| |st| == |m.fields| && Reachable(p, st) && AsDict(m.fields, st) == s;
      ClaimAgrees(m, p, kinds, c.formula, tree, st);
    }
  }
}
