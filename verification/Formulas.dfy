/** Scalars, formula trees and the recursive interpreter of the model checker. */
module Formulas {

  /** The ways the checker stops with a FormalError, plus Python's own KeyError and IndexError. */
  datatype Fault =
    | UnterminatedString
    | CannotTokenize(rest: string)
    | UnexpectedEnd
    | Leftover(token: string)
    | MissingParen
    | BareConstant(token: string)
    | ExpectedSet
    | ExpectedBrace
    | ExpectedValue(token: string)
    | UnknownField(field: string)
    | KeyError(field: string)
    | IndexError
    | NotAFlag(field: string)
    | CannotCompare(field: string)
    | CannotCompareFields(left: string, right: string)
    | NotAnInteger(field: string)
    | BadAssignment(text: string)
    | DuplicateActions
    | DefaultMissing(field: string)
    | BadActionName(name: string)
    | AssignsUnknown(name: string, field: string)

  datatype Result<+T> = Ok(value: T) | Raise(fault: Fault)

  /** A state field holds a Python bool, int or str. */
  datatype Scalar = Bool(b: bool) | Int(n: int) | Str(s: string)

  /** Python equates True with 1 and False with 0; Norm is a representative of each class. */
  function Norm(v: Scalar): Scalar {
    if v.Bool? then Int(if v.b then 1 else 0) else v
  }

  predicate PyEq(a: Scalar, b: Scalar) {
    Norm(a) == Norm(b)
  }

  /** isinstance(v, int): a Python bool is an int. */
  predicate IsInt(v: Scalar) {
    !v.Str?
  }

  function AsInt(v: Scalar): int
    requires IsInt(v)
  {
    Norm(v).n
  }

  datatype BinOp = And | Or | Implies

  datatype CmpOp = Eq | Ne | Lt

  /** InSet keeps the listing; the source's frozenset is only ever asked for membership. */
  datatype AST =
    | Not(inner: AST)
    | Bin(op: BinOp, left: AST, right: AST)
    | Cmp(cmp: CmpOp, field: string, value: Scalar)
    | FieldCmp(cmp: CmpOp, lfield: string, rfield: string)
    | InSet(field: string, values: seq<Scalar>)
    | Flag(field: string)

  /** A dictionary from field names, as the interpreter sees a state. */
  type Dict = map<string, Scalar>

  /** One evaluation: the variables read, in order, and the answer or the exception. */
  datatype Eval<+V> = Eval(looks: seq<V>, out: Result<bool>)

  function Negate<V>(e: Eval<V>): Eval<V> {
    if e.out.Ok? then Eval(e.looks, Ok(!e.out.value)) else e
  }

  /** Whether `op` stops after a left operand worth `left`, without looking at the right one. */
  predicate Settled(op: BinOp, left: bool) {
    if op == Or then left else !left
  }

  /** The answer when the right operand is skipped. */
  function Skipped(op: BinOp): bool {
    op != And
  }

  /** Left operand first; the right one only when the left does not settle the answer. */
  function Combine<V>(op: BinOp, l: Eval<V>, r: Eval<V>): Eval<V> {
    if l.out.Raise? then l
    else if Settled(op, l.out.value) then Eval(l.looks, Ok(Skipped(op)))
    else Eval(l.looks + r.looks, r.out)
  }

  function AsFlag(field: string, v: Scalar): Result<bool> {
    if v.Bool? then Ok(v.b) else Raise(NotAFlag(field))
  }

  function Compare(cmp: CmpOp, l: Scalar, r: Scalar, fault: Fault): Result<bool> {
    match cmp
    case Eq => Ok(PyEq(l, r))
    case Ne => Ok(!PyEq(l, r))
    case Lt => if IsInt(l) && IsInt(r) then Ok(AsInt(l) < AsInt(r)) else Raise(fault)
  }

  predicate Member(v: Scalar, values: seq<Scalar>) {
    exists i :: 0 <= i < |values| && PyEq(v, values[i])
  }

  /** The interpreter: walks the tree over a dictionary state. */
  function Holds(tree: AST, state: Dict): Eval<string> {
    match tree
    case Not(inner) => Negate(Holds(inner, state))
    case Bin(op, l, r) => Combine(op, Holds(l, state), Holds(r, state))
    case Flag(f) =>
      Eval([f], if f in state then AsFlag(f, state[f]) else Raise(KeyError(f)))
    case Cmp(cmp, f, v) =>
      Eval([f], if f in state then Compare(cmp, state[f], v, CannotCompare(f)) else Raise(KeyError(f)))
    case FieldCmp(cmp, l, r) =>
      if l !in state then Eval([l], Raise(KeyError(l)))
      else if r !in state then Eval([l, r], Raise(KeyError(r)))
      else Eval([l, r], Compare(cmp, state[l], state[r], CannotCompareFields(l, r)))
    case InSet(f, values) =>
      Eval([f], if f in state then Ok(Member(state[f], values)) else Raise(KeyError(f)))
  }

  /** The fields a tree mentions anywhere, skipped branches included. */
  function Mentions(tree: AST): set<string> {
    match tree
    case Not(inner) => Mentions(inner)
    case Bin(_, l, r) => Mentions(l) + Mentions(r)
    case Flag(f) => {f}
    case Cmp(_, f, _) => {f}
    case FieldCmp(_, l, r) => {l, r}
    case InSet(f, _) => {f}
  }
}
