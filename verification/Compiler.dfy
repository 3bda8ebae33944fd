/** Compiling formulas and assignments to functions of a field-ordered state tuple. */
module Compiler {
  import opened Formulas
  import opened Decimal
  import opened Lexer

  /** A state: one scalar per field, in field order. */
  type State = seq<Scalar>

  type Pred = State -> Eval<nat>

  type Source = State -> Result<Scalar>

  /** Field positions; a repeated name keeps its last one, as a Python dict does. */
  function Index(fields: seq<string>): map<string, nat> {
    if fields == [] then map[]
    else
      var n := |fields| - 1;
      Index(fields[..n])[fields[n] := n]
  }

  function AsDict(fields: seq<string>, st: State): Dict
    requires |st| == |fields|
  {
    if fields == [] then map[]
    else
      var n := |fields| - 1;
      AsDict(fields[..n], st[..n])[fields[n] := st[n]]
  }

  /** Looking a field up in the dictionary is looking its position up in the tuple. */
  lemma {:induction false} DictIsTuple(fields: seq<string>, st: State)
    requires |st| == |fields|
    ensures AsDict(fields, st).Keys == Index(fields).Keys
    ensures forall f :: f in Index(fields) ==>
      Index(fields)[f] < |fields| && fields[Index(fields)[f]] == f && AsDict(fields, st)[f] == st[Index(fields)[f]]
  {
    if fields != [] {
      DictIsTuple(fields[..|fields| - 1], st[..|fields| - 1]);
    }
  }

  lemma {:induction false} IndexHasFields(fields: seq<string>)
    ensures forall f :: f in Index(fields) <==> f in fields
  {
    if fields != [] {
      var n := |fields| - 1;
      IndexHasFields(fields[..n]);
      assert fields == fields[..n] + [fields[n]];
    }
  }

  function FieldAt(index: map<string, nat>, f: string): Result<nat> {
    if f in index then Ok(index[f]) else Raise(UnknownField(f))
  }

  /** A tuple too short for a position is Python's IndexError. */
  function Get(st: State, i: nat): Result<Scalar> {
    if i < |st| then Ok(st[i]) else Raise(IndexError)
  }

  function CompilePred(tree: AST, index: map<string, nat>): Result<Pred> {
    match tree
    case Not(inner) =>
      (match CompilePred(inner, index)
       case Raise(f) => Raise(f)
       case Ok(p) => Ok(st => Negate(p(st))))
    case Bin(op, l, r) =>
      (match CompilePred(l, index)
       case Raise(f) => Raise(f)
       case Ok(left) =>
         match CompilePred(r, index)
         case Raise(f) => Raise(f)
         case Ok(right) => Ok(st => Combine(op, left(st), right(st))))
    case Flag(f) =>
      (match FieldAt(index, f)
       case Raise(e) => Raise(e)
       case Ok(i) => Ok(st => Eval([i], match Get(st, i) case Ok(v) => AsFlag(f, v) case Raise(e) => Raise(e))))
    case Cmp(cmp, f, v) =>
      (match FieldAt(index, f)
       case Raise(e) => Raise(e)
       case Ok(i) =>
         Ok(st => Eval([i], match Get(st, i)
                            case Ok(left) => Compare(cmp, left, v, CannotCompare(f))
                            case Raise(e) => Raise(e))))
    case FieldCmp(cmp, l, r) =>
      (match FieldAt(index, l)
       case Raise(e) => Raise(e)
       case Ok(li) =>
         match FieldAt(index, r)
         case Raise(e) => Raise(e)
         case Ok(ri) => Ok(st => CompareAt(cmp, li, ri, l, r, st)))
    case InSet(f, values) =>
      (match FieldAt(index, f)
       case Raise(e) => Raise(e)
       case Ok(i) =>
         Ok(st => Eval([i], match Get(st, i) case Ok(v) => Ok(Member(v, values)) case Raise(e) => Raise(e))))
  }

  function CompareAt(cmp: CmpOp, li: nat, ri: nat, l: string, r: string, st: State): Eval<nat> {
    match Get(st, li)
    case Raise(e) => Eval([li], Raise(e))
    case Ok(lv) =>
      match Get(st, ri)
      case Raise(e) => Eval([li, ri], Raise(e))
      case Ok(rv) => Eval([li, ri], Compare(cmp, lv, rv, CannotCompareFields(l, r)))
  }

  predicate InRange(fields: seq<string>, looks: seq<nat>) {
    forall k :: 0 <= k < |looks| ==> looks[k] < |fields|
  }

  function Names(fields: seq<string>, looks: seq<nat>): seq<string>
    requires InRange(fields, looks)
  {
    seq(|looks|, k requires 0 <= k < |looks| => fields[looks[k]])
  }

  /** Compilation fails exactly when some field, even in a branch never taken, is unknown. */
  lemma {:induction false} CompilesIffKnown(tree: AST, index: map<string, nat>)
    ensures CompilePred(tree, index).Ok? <==> Mentions(tree) <= index.Keys
    ensures CompilePred(tree, index).Raise? ==>
      var e := CompilePred(tree, index).fault;
      e.UnknownField? && e.field in Mentions(tree) && e.field !in index
  {
    match tree
    case Not(inner) =>
      CompilesIffKnown(inner, index);
    case Bin(_, l, r) =>
      CompilesIffKnown(l, index);
      CompilesIffKnown(r, index);
    case _ =>
  }

  /**
   The compiled predicate and the interpreter agree on every state: same answer or same
   exception, and the same fields read in the same order, so nothing a connective
   skips in one is evaluated in the other.
   */
  lemma {:induction false} CompiledAgrees(tree: AST, fields: seq<string>, st: State)
    requires |st| == |fields| && CompilePred(tree, Index(fields)).Ok?
    ensures var c := CompilePred(tree, Index(fields)).value(st);
            var h := Holds(tree, AsDict(fields, st));
            c.out == h.out && InRange(fields, c.looks) && Names(fields, c.looks) == h.looks
  {
    match tree
    case Not(inner) =>
      CompiledAgrees(inner, fields, st);
    case Bin(op, l, r) =>
      CompiledAgrees(l, fields, st);
      CompiledAgrees(r, fields, st);
      var cl := CompilePred(l, Index(fields)).value(st).looks;
      var cr := CompilePred(r, Index(fields)).value(st).looks;
      assert Names(fields, cl + cr) == Names(fields, cl) + Names(fields, cr);
    case _ =>
      CompiledLeafAgrees(tree, fields, st);
  }

  lemma CompiledLeafAgrees(tree: AST, fields: seq<string>, st: State)
    requires |st| == |fields| && CompilePred(tree, Index(fields)).Ok? && !tree.Not? && !tree.Bin?
    ensures var c := CompilePred(tree, Index(fields)).value(st);
            var h := Holds(tree, AsDict(fields, st));
            c.out == h.out && InRange(fields, c.looks) && Names(fields, c.looks) == h.looks
  {
    DictIsTuple(fields, st);
  }

  // ----- assignments -----

  /** The right side of an assignment: a literal, or a field plus a number. */
  datatype Rhs = Lit(value: Scalar) | Plus(field: string, add: nat)

  function StripLeft(s: string): (r: string)
    ensures |r| <= |s|
  {
    if s != "" && IsSpace(s[0]) then StripLeft(s[1..]) else s
  }

  function StripRight(s: string): (r: string)
    ensures |r| <= |s|
  {
    if s != "" && IsSpace(s[|s| - 1]) then StripRight(s[..|s| - 1]) else s
  }

  function Strip(s: string): string {
    StripRight(StripLeft(s))
  }

  /** Position of the first plus sign, or the length. */
  function PlusRun(s: string): (n: nat)
    ensures n <= |s| && (n < |s| ==> s[n] == '+')
  {
    if s == "" || s[0] == '+' then 0 else 1 + PlusRun(s[1..])
  }

  function ParseRhs(expr: string): Result<Rhs> {
    var text := Strip(expr);
    if text == "TRUE" then Ok(Lit(Bool(true)))
    else if text == "FALSE" then Ok(Lit(Bool(false)))
    else if |text| >= 2 && text[0] == '"' && text[|text| - 1] == '"' then Ok(Lit(Str(text[1..|text| - 1])))
    else if AllDigits(text) then Ok(Lit(Int(Value(text))))
    else
      var p := PlusRun(text);
      if p == |text| || PlusRun(text[p + 1..]) != |text| - p - 1 then Raise(BadAssignment(expr))
      else
        var add := Strip(text[p + 1..]);
        if AllDigits(add) then Ok(Plus(Strip(text[..p]), Value(add))) else Raise(BadAssignment(expr))
  }

  function AddTo(field: string, v: Scalar, add: nat): Result<Scalar> {
    if IsInt(v) then Ok(Int(AsInt(v) + add)) else Raise(NotAnInteger(field))
  }

  /** What an assignment stores, read off the dictionary of the state before the step. */
  function RhsValue(rhs: Rhs, state: Dict): Result<Scalar> {
    match rhs
    case Lit(v) => Ok(v)
    case Plus(f, add) => if f in state then AddTo(f, state[f], add) else Raise(UnknownField(f))
  }

  function CompileRhs(rhs: Rhs, index: map<string, nat>): Result<Source> {
    match rhs
    case Lit(v) => Ok(st => Ok(v))
    case Plus(f, add) =>
      match FieldAt(index, f)
      case Raise(e) => Raise(e)
      case Ok(i) => Ok(st => match Get(st, i) case Ok(v) => AddTo(f, v, add) case Raise(e) => Raise(e))
  }

  lemma CompiledRhsAgrees(rhs: Rhs, fields: seq<string>, st: State)
    requires |st| == |fields| && CompileRhs(rhs, Index(fields)).Ok?
    ensures CompileRhs(rhs, Index(fields)).value(st) == RhsValue(rhs, AsDict(fields, st))
  {
    DictIsTuple(fields, st);
  }
}
