/** The parser as the source runs it: an object whose cursor moves over the tokens. */
module Cursor {
  import opened Formulas
  import opened Lexer
  import opened Parser

  /** An outcome and the tokens left agree with what the parsing function says. */
  predicate Agrees<T(==)>(r: Result<T>, rest: seq<Token>, spec: Result<Parsed<T>>) {
    match spec
    case Raise(f) => r == Raise(f)
    case Ok(Parsed(v, left)) => r == Ok(v) && rest == left
  }

  class FormulaParser {
    const tokens: seq<Token>
    var i: nat

    ghost predicate Valid()
      reads this
    {
      i <= |tokens|
    }

    function Rest(): seq<Token>
      requires Valid()
      reads this
    {
      tokens[i..]
    }

    constructor (tokens: seq<Token>)
      ensures Valid() && this.tokens == tokens && Rest() == tokens
    {
      this.tokens := tokens;
      i := 0;
    }

    method Pop() returns (r: Result<Token>)
      requires Valid()
      modifies this
      ensures Valid()
      ensures old(Rest()) == [] ==> r == Raise(UnexpectedEnd) && Rest() == []
      ensures old(Rest()) != [] ==> r == Ok(old(Rest())[0]) && Rest() == old(Rest())[1..]
    {
      if i >= |tokens| {
        return Raise(UnexpectedEnd);
      }
      r := Ok(tokens[i]);
      i := i + 1;
    }

    method Run() returns (r: Result<AST>)
      requires Valid()
      modifies this
      ensures Valid() && r == Parse(old(Rest()))
    {
      r := Impl();
      if r.Ok? && i < |tokens| {
        r := Raise(Leftover(Spelling(tokens[i])));
      }
    }

    method Impl() returns (r: Result<AST>)
      requires Valid()
      modifies this
      ensures Valid() && Agrees(r, Rest(), ParseImpl(old(Rest())))
      decreases |tokens| - i, 5
    {
      r := Disjunction();
      if r.Ok? && Next(Rest(), Arrow) {
        var left := r.value;
        i := i + 1;
        assert Rest() == tokens[i - 1..][1..];
        r := Impl();
        if r.Ok? {
          r := Ok(Bin(Implies, left, r.value));
        }
      }
    }

    method Disjunction() returns (r: Result<AST>)
      requires Valid()
      modifies this
      ensures Valid() && Agrees(r, Rest(), ParseOr(old(Rest())))
      decreases |tokens| - i, 4
    {
      r := Conjunction();
      while r.Ok? && Next(Rest(), Vee)
        invariant Valid()
        invariant r.Ok? ==> i > old(i) && ParseOr(old(Rest())) == OrLoop(r.value, Rest())
        invariant r.Raise? ==> ParseOr(old(Rest())) == Raise(r.fault)
        decreases r.Ok?, |tokens| - i
      {
        var left := r.value;
        i := i + 1;
        assert Rest() == tokens[i - 1..][1..];
        r := Conjunction();
        if r.Ok? {
          r := Ok(Bin(Or, left, r.value));
        }
      }
    }

    method Conjunction() returns (r: Result<AST>)
      requires Valid()
      modifies this
      ensures Valid() && Agrees(r, Rest(), ParseAnd(old(Rest())))
      decreases |tokens| - i, 3
    {
      r := Negation();
      while r.Ok? && Next(Rest(), Wedge)
        invariant Valid()
        invariant r.Ok? ==> i > old(i) && ParseAnd(old(Rest())) == AndLoop(r.value, Rest())
        invariant r.Raise? ==> ParseAnd(old(Rest())) == Raise(r.fault)
        decreases r.Ok?, |tokens| - i
      {
        var left := r.value;
        i := i + 1;
        assert Rest() == tokens[i - 1..][1..];
        r := Negation();
        if r.Ok? {
          r := Ok(Bin(And, left, r.value));
        }
      }
    }

    method Negation() returns (r: Result<AST>)
      requires Valid()
      modifies this
      ensures Valid() && Agrees(r, Rest(), ParseNot(old(Rest())))
      decreases |tokens| - i, 2
    {
      if Next(Rest(), Tilde) {
        i := i + 1;
        assert Rest() == tokens[i - 1..][1..];
        r := Negation();
        if r.Ok? {
          r := Ok(Not(r.value));
        }
      } else {
        r := Atom();
      }
    }

    method Atom() returns (r: Result<AST>)
      requires Valid()
      modifies this
      ensures Valid() && Agrees(r, Rest(), ParseAtom(old(Rest())))
      decreases |tokens| - i, 1
    {
      if Next(Rest(), Open) {
        r := Parenthesised();
        return;
      }
      var popped := Pop();
      if popped.Raise? {
        return Raise(popped.fault);
      }
      var subject := popped.value;
      if subject.True? || subject.False? {
        return Raise(BareConstant(Spelling(subject)));
      }
      if i >= |tokens| || !IsComparison(tokens[i]) {
        return Ok(Flag(Spelling(subject)));
      }
      var op := tokens[i];
      i := i + 1;
      assert Rest() == old(Rest())[2..];
      if op.In? {
        var values := Set();
        return if values.Ok? then Ok(InSet(Spelling(subject), values.value)) else Raise(values.fault);
      }
      if i < |tokens| && IsField(tokens[i]) {
        i := i + 1;
        return Ok(FieldCmp(CmpOf(op), Spelling(subject), tokens[i - 1].text));
      }
      var value := Value();
      return if value.Ok? then Ok(Cmp(CmpOf(op), Spelling(subject), value.value)) else Raise(value.fault);
    }

    method Parenthesised() returns (r: Result<AST>)
      requires Valid() && Next(Rest(), Open)
      modifies this
      ensures Valid() && Agrees(r, Rest(), ParseAtom(old(Rest())))
      decreases |tokens| - i, 0
    {
      i := i + 1;
      assert Rest() == tokens[i - 1..][1..];
      r := Impl();
      if r.Ok? {
        var close := Pop();
        if close.Raise? {
          r := Raise(close.fault);
        } else if close.value != Close {
          r := Raise(MissingParen);
        }
      }
    }

    method Value() returns (r: Result<Scalar>)
      requires Valid()
      modifies this
      ensures Valid() && Agrees(r, Rest(), ParseScalar(old(Rest())))
    {
      var popped := Pop();
      r := if popped.Ok? then ScalarOf(popped.value) else Raise(popped.fault);
    }

    method Set() returns (r: Result<seq<Scalar>>)
      requires Valid()
      modifies this
      ensures Valid() && Agrees(r, Rest(), ParseSet(old(Rest())))
    {
      var brace := Pop();
      if brace.Raise? {
        return Raise(brace.fault);
      }
      if brace.value != LBrace {
        return Raise(ExpectedSet);
      }
      var value := Value();
      if value.Raise? {
        return Raise(value.fault);
      }
      var values := [value.value];
      while Next(Rest(), Comma)
        invariant Valid() && ParseSet(old(Rest())) == SetLoop(values, Rest())
        decreases |tokens| - i
      {
        i := i + 1;
        assert Rest() == tokens[i - 1..][1..];
        value := Value();
        if value.Raise? {
          return Raise(value.fault);
        }
        values := values + [value.value];
      }
      var close := Pop();
      if close.Raise? {
        return Raise(close.fault);
      }
      if close.value != RBrace {
        return Raise(ExpectedBrace);
      }
      return Ok(values);
    }
  }

  /** Text to tree: the tokenizer's loop, then the cursor. */
  method ReadFormula(text: string) returns (r: Result<AST>)
    ensures r == Formula(text)
  {
    var words := Tokenize(text);
    if words.Raise? {
      return Raise(words.fault);
    }
    var parser := new FormulaParser(ClassifyAll(words.value));
    r := parser.Run();
  }
}
