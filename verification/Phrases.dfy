/** The one phrase behind a token list: the parser again, keeping the parentheses and the value tokens. */
module Phrases {
  import opened Basics
  import opened Formulas
  import opened Parser

  type Built = Option<Parsed<Cst>>

  function BuildImpl(ts: seq<Token>): (r: Built)
    ensures r.Some? ==> |r.value.rest| < |ts|
    decreases |ts|, 4
  {
    match BuildOr(ts)
    case None => None
    case Some(Parsed(left, rest)) =>
      if !Next(rest, Arrow) then Some(Parsed(left, rest))
      else
        match BuildImpl(rest[1..])
        case None => None
        case Some(Parsed(right, rest')) => Some(Parsed(CBin(Implies, left, right), rest'))
  }

  function BuildOr(ts: seq<Token>): (r: Built)
    ensures r.Some? ==> |r.value.rest| < |ts|
    decreases |ts|, 3
  {
    match BuildAnd(ts)
    case None => None
    case Some(Parsed(left, rest)) => BuildOrs(left, rest)
  }

  function BuildOrs(left: Cst, ts: seq<Token>): (r: Built)
    ensures r.Some? ==> |r.value.rest| <= |ts|
    decreases |ts|, 0
  {
    if !Next(ts, Vee) then Some(Parsed(left, ts))
    else
      match BuildAnd(ts[1..])
      case None => None
      case Some(Parsed(right, rest)) => BuildOrs(CBin(Or, left, right), rest)
  }

  function BuildAnd(ts: seq<Token>): (r: Built)
    ensures r.Some? ==> |r.value.rest| < |ts|
    decreases |ts|, 2
  {
    match BuildNot(ts)
    case None => None
    case Some(Parsed(left, rest)) => BuildAnds(left, rest)
  }

  function BuildAnds(left: Cst, ts: seq<Token>): (r: Built)
    ensures r.Some? ==> |r.value.rest| <= |ts|
    decreases |ts|, 0
  {
    if !Next(ts, Wedge) then Some(Parsed(left, ts))
    else
      match BuildNot(ts[1..])
      case None => None
      case Some(Parsed(right, rest)) => BuildAnds(CBin(And, left, right), rest)
  }

  function BuildNot(ts: seq<Token>): (r: Built)
    ensures r.Some? ==> |r.value.rest| < |ts|
    decreases |ts|, 1
  {
    if !Next(ts, Tilde) then BuildAtom(ts)
    else
      match BuildNot(ts[1..])
      case None => None
      case Some(Parsed(inner, rest)) => Some(Parsed(CNot(inner), rest))
  }

  function BuildAtom(ts: seq<Token>): (r: Built)
    ensures r.Some? ==> |r.value.rest| < |ts|
    decreases |ts|, 0
  {
    if ts == [] then None
    else if ts[0] == Open then
      match BuildImpl(ts[1..])
      case None => None
      case Some(Parsed(inner, rest)) => if Next(rest, Close) then Some(Parsed(CParen(inner), rest[1..])) else None
    else if |ts| < 2 || !IsComparison(ts[1]) then Some(Parsed(CFlag(ts[0]), ts[1..]))
    else if |ts| < 3 then None
    else if ts[1] != In then
      Some(Parsed(if IsField(ts[2]) then CFieldCmp(CmpOf(ts[1]), ts[0], ts[2]) else CCmp(CmpOf(ts[1]), ts[0], ts[2]),
                  ts[3..]))
    else if |ts| < 4 then None
    else
      match BuildValues([ts[3]], ts[4..])
      case None => None
      case Some(Parsed(tokens, rest)) => Some(Parsed(CIn(ts[0], tokens), rest))
  }

  function BuildValues(tokens: seq<Token>, ts: seq<Token>): (r: Option<Parsed<seq<Token>>>)
    ensures r.Some? ==> |r.value.rest| < |ts|
    decreases |ts|
  {
    if Next(ts, RBrace) then Some(Parsed(tokens, ts[1..]))
    else if |ts| < 2 then None
    else BuildValues(tokens + [ts[1]], ts[2..])
  }

  /** The phrase of a whole token list. */
  function PhraseOf(ts: seq<Token>): Option<Cst> {
    match BuildImpl(ts)
    case None => None
    case Some(Parsed(c, rest)) => if rest == [] then Some(c) else None
  }

  // ----- every phrase is built from its tokens -----

  // What each level makes of `ts`, named as the parser's own facts are.

  predicate NotBuilds(ts: seq<Token>, c: Cst, rest: seq<Token>) {
    BuildNot(ts) == Some(Parsed(c, rest))
  }

  predicate AndBuilds(ts: seq<Token>, left: Cst, rest: seq<Token>) {
    BuildAnd(ts) == BuildAnds(left, rest)
  }

  predicate OrBuilds(ts: seq<Token>, left: Cst, rest: seq<Token>) {
    BuildOr(ts) == BuildOrs(left, rest)
  }

  predicate ImplBuilds(ts: seq<Token>, c: Cst, rest: seq<Token>) {
    BuildImpl(ts) == Some(Parsed(c, rest))
  }

  lemma AndAdds(ts: seq<Token>, l: Cst, more: seq<Token>, r: Cst, rest: seq<Token>)
    requires AndBuilds(ts, l, more) && Next(more, Wedge) && NotBuilds(more[1..], r, rest)
    ensures AndBuilds(ts, CBin(And, l, r), rest)
  {
  }

  lemma OrAdds(ts: seq<Token>, l: Cst, more: seq<Token>, r: Cst, rest: seq<Token>)
    requires OrBuilds(ts, l, more) && Next(more, Vee) && AndBuilds(more[1..], r, rest) && !Next(rest, Wedge)
    ensures OrBuilds(ts, CBin(Or, l, r), rest)
  {
  }

  lemma ImplAdds(ts: seq<Token>, l: Cst, more: seq<Token>, r: Cst, rest: seq<Token>)
    requires OrBuilds(ts, l, more) && Next(more, Arrow) && ImplBuilds(more[1..], r, rest)
    ensures ImplBuilds(ts, CBin(Implies, l, r), rest)
  {
  }

  lemma ImplEnds(ts: seq<Token>, l: Cst, rest: seq<Token>)
    requires OrBuilds(ts, l, rest) && !Next(rest, Vee) && !Next(rest, Arrow)
    ensures ImplBuilds(ts, l, rest)
  {
  }

  lemma NotAdds(inner: Cst, rest: seq<Token>)
    requires NotBuilds(Yield(inner) + rest, inner, rest)
    ensures NotBuilds(Yield(CNot(inner)) + rest, CNot(inner), rest)
  {
    var more := Yield(inner) + rest;
    assert Yield(CNot(inner)) + rest == [Tilde] + more;
    assert ([Tilde] + more)[1..] == more;
  }

  lemma ParensAdd(inner: Cst, rest: seq<Token>)
    requires ImplBuilds(Yield(inner) + ([Close] + rest), inner, [Close] + rest)
    ensures NotBuilds(Yield(CParen(inner)) + rest, CParen(inner), rest)
  {
    var more := Yield(inner) + ([Close] + rest);
    assert Yield(CParen(inner)) + rest == [Open] + more;
    assert ([Open] + more)[1..] == more;
    assert ([Close] + rest)[1..] == rest;
  }

  lemma {:induction false} ValuesBuild(tokens: seq<Token>, others: seq<Token>, rest: seq<Token>)
    requires AllValues(others)
    ensures BuildValues(tokens, Others(others) + rest) == Some(Parsed(tokens + others, rest))
    decreases |others|
  {
    var ts := Others(others) + rest;
    if others == [] {
      assert ts[1..] == rest && tokens + others == tokens;
    } else {
      var more := Others(others[1..]) + rest;
      assert ts == [Comma, others[0]] + more;
      assert ts[2..] == more && ts[0] == Comma && ts[1] == others[0];
      ValuesBuild(tokens + [others[0]], others[1..], rest);
      assert tokens + [others[0]] + others[1..] == tokens + others;
    }
  }

  lemma MembershipBuilds(f: Token, tokens: seq<Token>, rest: seq<Token>)
    requires Subject(f) && |tokens| > 0 && AllValues(tokens)
    ensures BuildAtom(Yield(CIn(f, tokens)) + rest) == Some(Parsed(CIn(f, tokens), rest))
  {
    var ts := Yield(CIn(f, tokens)) + rest;
    ValuesBuild([tokens[0]], tokens[1..], rest);
    var more := Others(tokens[1..]) + rest;
    assert ts == [f, In, LBrace, tokens[0]] + more;
    assert ts[4..] == more && ts[3] == tokens[0];
    assert [tokens[0]] + tokens[1..] == tokens;
  }

  lemma FlagBuilds(f: Token, ts: seq<Token>, rest: seq<Token>)
    requires Subject(f) && ts == [f] + rest && !(rest != [] && IsComparison(rest[0]))
    ensures BuildAtom(ts) == Some(Parsed(CFlag(f), rest)) && !Next(ts, Tilde)
  {
    assert ts[1..] == rest;
  }

  lemma ComparisonBuilds(c: Cst, ts: seq<Token>, f: Token, x: Token, rest: seq<Token>)
    requires Rank(c) == 3 && (c.CCmp? || c.CFieldCmp?) && Yield(c) == [f, CmpToken(c.cmp), x] && ts == Yield(c) + rest
    ensures BuildAtom(ts) == Some(Parsed(c, rest)) && !Next(ts, Tilde)
  {
    assert ts[0] == f && ts[1] == CmpToken(c.cmp) && ts[2] == x && ts[3..] == rest;
  }

  lemma LeafBuilds(c: Cst, rest: seq<Token>)
    requires Rank(c) == 3 && (c.CFlag? || c.CCmp? || c.CFieldCmp?) && !(rest != [] && IsComparison(rest[0]))
    ensures BuildAtom(Yield(c) + rest) == Some(Parsed(c, rest)) && !Next(Yield(c) + rest, Tilde)
  {
    if c.CFlag? {
      FlagBuilds(c.field, Yield(c) + rest, rest);
    } else {
      ComparisonBuilds(c, Yield(c) + rest, Yield(c)[0], Yield(c)[2], rest);
    }
  }

  lemma BinSplits(c: Cst, more: seq<Token>, rest: seq<Token>)
    requires c.CBin? && more == [BinToken(c.op)] + (Yield(c.right) + rest)
    ensures Yield(c) + rest == Yield(c.left) + more && more[1..] == Yield(c.right) + rest
  {
  }

  lemma {:induction false} BuiltAtNot(c: Cst, rest: seq<Token>)
    requires Rank(c) == 3 && !(rest != [] && IsComparison(rest[0]))
    ensures NotBuilds(Yield(c) + rest, c, rest)
    decreases c, 0
  {
    match c
    case CNot(inner) =>
      BuiltAtNot(inner, rest);
      NotAdds(inner, rest);
    case CParen(inner) =>
      BuiltAtImpl(inner, [Close] + rest);
      ParensAdd(inner, rest);
    case CIn(f, tokens) =>
      MembershipBuilds(f, tokens, rest);
    case _ =>
      LeafBuilds(c, rest);
  }

  lemma {:induction false} BuiltAtAnd(c: Cst, rest: seq<Token>)
    requires Rank(c) >= 2 && !(rest != [] && IsComparison(rest[0]))
    ensures AndBuilds(Yield(c) + rest, c, rest)
    decreases c, 1
  {
    if Rank(c) == 3 {
      BuiltAtNot(c, rest);
    } else {
      var more := [Wedge] + (Yield(c.right) + rest);
      BinSplits(c, more, rest);
      BuiltAtAnd(c.left, more);
      BuiltAtNot(c.right, rest);
      AndAdds(Yield(c) + rest, c.left, more, c.right, rest);
    }
  }

  lemma {:induction false} BuiltAtOr(c: Cst, rest: seq<Token>)
    requires Rank(c) >= 1
    requires !(rest != [] && (IsComparison(rest[0]) || rest[0].Wedge?))
    ensures OrBuilds(Yield(c) + rest, c, rest)
    decreases c, 2
  {
    if Rank(c) >= 2 {
      BuiltAtAnd(c, rest);
    } else {
      var more := [Vee] + (Yield(c.right) + rest);
      BinSplits(c, more, rest);
      BuiltAtOr(c.left, more);
      BuiltAtAnd(c.right, rest);
      OrAdds(Yield(c) + rest, c.left, more, c.right, rest);
    }
  }

  lemma {:induction false} BuiltAtImpl(c: Cst, rest: seq<Token>)
    requires Rank(c) >= 0
    requires !(rest != [] && (IsComparison(rest[0]) || rest[0].Wedge? || rest[0].Vee? || rest[0].Arrow?))
    ensures ImplBuilds(Yield(c) + rest, c, rest)
    decreases c, 3
  {
    if Rank(c) >= 1 {
      BuiltAtOr(c, rest);
      ImplEnds(Yield(c) + rest, c, rest);
    } else {
      var more := [Arrow] + (Yield(c.right) + rest);
      BinSplits(c, more, rest);
      BuiltAtOr(c.left, more);
      BuiltAtImpl(c.right, rest);
      ImplAdds(Yield(c) + rest, c.left, more, c.right, rest);
    }
  }

  /** Every phrase is the one its tokens build, */
  lemma PhraseIsBuilt(c: Cst)
    requires Rank(c) >= 0
    ensures PhraseOf(Yield(c)) == Some(c)
  {
    BuiltAtImpl(c, []);
    assert Yield(c) + [] == Yield(c);
  }

  /** so the grammar is unambiguous. */
  lemma OnePhrase(c: Cst, c': Cst)
    requires Rank(c) >= 0 && Rank(c') >= 0 && Yield(c) == Yield(c')
    ensures c == c'
  {
    PhraseIsBuilt(c);
    PhraseIsBuilt(c');
  }

  /** A token list that parses has a phrase, and it means the tree parsed. */
  lemma ParsedHasAPhrase(ts: seq<Token>, tree: AST)
    requires Parse(ts) == Ok(tree)
    ensures PhraseOf(ts).Some?
    ensures var c := PhraseOf(ts).value; Rank(c) >= 0 && Yield(c) == ts && Meaning(c) == tree
  {
    ParserIsTheGrammar(ts, tree);
    var c :| Rank(c) >= 0 && Yield(c) == ts && Meaning(c) == tree;
    PhraseIsBuilt(c);
  }
}
