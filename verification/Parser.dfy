/**
 The recursive-descent formula parser, as functions on token lists, and the theorems
 that tie it to a declarative grammar of concrete syntax trees.
 */
module Parser {
  import opened Formulas
  import opened Decimal
  import opened Lexer

  /** A value read from the front of a token list, and the tokens after it. */
  datatype Parsed<+T> = Parsed(value: T, rest: seq<Token>)

  /** A token as the parser tells them apart: the spellings it compares with, or any other text. */
  datatype Token =
    | Arrow | Vee | Wedge | Tilde | Open | Close | Equal | Hash | Less | In
    | LBrace | RBrace | Comma | True | False | Word(text: string)

  function Spelling(t: Token): string {
    match t
    case Arrow => "=>" case Vee => "\\/" case Wedge => "/\\" case Tilde => "~"
    case Open => "(" case Close => ")" case Equal => "=" case Hash => "#" case Less => "<"
    case In => "\\in" case LBrace => "{" case RBrace => "}" case Comma => ","
    case True => "TRUE" case False => "FALSE" case Word(text) => text
  }

  function Classify(w: string): Token {
    if w == "=>" then Arrow else if w == "\\/" then Vee else if w == "/\\" then Wedge
    else if w == "~" then Tilde else if w == "(" then Open else if w == ")" then Close
    else if w == "=" then Equal else if w == "#" then Hash else if w == "<" then Less
    else if w == "\\in" then In else if w == "{" then LBrace else if w == "}" then RBrace
    else if w == "," then Comma else if w == "TRUE" then True else if w == "FALSE" then False
    else Word(w)
  }

  function ClassifyAll(ws: seq<string>): seq<Token> {
    seq(|ws|, i requires 0 <= i < |ws| => Classify(ws[i]))
  }

  /** Whether a token after a comparison names a field. */
  predicate IsField(t: Token) {
    t.Word? && |t.text| > 0 && IsWordStart(t.text[0])
  }

  predicate IsComparison(t: Token) {
    t.Equal? || t.Hash? || t.Less? || t.In?
  }

  function ScalarOf(t: Token): Result<Scalar> {
    if t.True? then Ok(Bool(true))
    else if t.False? then Ok(Bool(false))
    else if !t.Word? then Raise(ExpectedValue(Spelling(t)))
    else if |t.text| >= 1 && t.text[0] == '"' && t.text[|t.text| - 1] == '"' then
      Ok(Str(if |t.text| == 1 then "" else t.text[1..|t.text| - 1]))
    else if AllDigits(t.text) then Ok(Int(Value(t.text)))
    else Raise(ExpectedValue(t.text))
  }

  function CmpOf(t: Token): CmpOp {
    if t.Equal? then Eq else if t.Hash? then Ne else Lt
  }

  predicate Next(ts: seq<Token>, t: Token) {
    ts != [] && ts[0] == t
  }

  function ParseImpl(ts: seq<Token>): (r: Result<Parsed<AST>>)
    ensures r.Ok? ==> |r.value.rest| < |ts|
    decreases |ts|, 4
  {
    match ParseOr(ts)
    case Raise(f) => Raise(f)
    case Ok(Parsed(left, rest)) =>
      if !Next(rest, Arrow) then Ok(Parsed(left, rest))
      else
        match ParseImpl(rest[1..])
        case Raise(f) => Raise(f)
        case Ok(Parsed(right, rest')) => Ok(Parsed(Bin(Implies, left, right), rest'))
  }

  function ParseOr(ts: seq<Token>): (r: Result<Parsed<AST>>)
    ensures r.Ok? ==> |r.value.rest| < |ts|
    decreases |ts|, 3
  {
    match ParseAnd(ts)
    case Raise(f) => Raise(f)
    case Ok(Parsed(left, rest)) => OrLoop(left, rest)
  }

  function OrLoop(left: AST, ts: seq<Token>): (r: Result<Parsed<AST>>)
    ensures r.Ok? ==> |r.value.rest| <= |ts|
    decreases |ts|, 0
  {
    if !Next(ts, Vee) then Ok(Parsed(left, ts))
    else
      match ParseAnd(ts[1..])
      case Raise(f) => Raise(f)
      case Ok(Parsed(right, rest)) => OrLoop(Bin(Or, left, right), rest)
  }

  function ParseAnd(ts: seq<Token>): (r: Result<Parsed<AST>>)
    ensures r.Ok? ==> |r.value.rest| < |ts|
    decreases |ts|, 2
  {
    match ParseNot(ts)
    case Raise(f) => Raise(f)
    case Ok(Parsed(left, rest)) => AndLoop(left, rest)
  }

  function AndLoop(left: AST, ts: seq<Token>): (r: Result<Parsed<AST>>)
    ensures r.Ok? ==> |r.value.rest| <= |ts|
    decreases |ts|, 0
  {
    if !Next(ts, Wedge) then Ok(Parsed(left, ts))
    else
      match ParseNot(ts[1..])
      case Raise(f) => Raise(f)
      case Ok(Parsed(right, rest)) => AndLoop(Bin(And, left, right), rest)
  }

  function ParseNot(ts: seq<Token>): (r: Result<Parsed<AST>>)
    ensures r.Ok? ==> |r.value.rest| < |ts|
    decreases |ts|, 1
  {
    if !Next(ts, Tilde) then ParseAtom(ts)
    else
      match ParseNot(ts[1..])
      case Raise(f) => Raise(f)
      case Ok(Parsed(inner, rest)) => Ok(Parsed(Not(inner), rest))
  }

  function ParseAtom(ts: seq<Token>): (r: Result<Parsed<AST>>)
    ensures r.Ok? ==> |r.value.rest| < |ts|
    decreases |ts|, 0
  {
    if ts == [] then Raise(UnexpectedEnd)
    else if ts[0] == Open then
      match ParseImpl(ts[1..])
      case Raise(f) => Raise(f)
      case Ok(Parsed(inner, rest)) =>
        if rest == [] then Raise(UnexpectedEnd)
        else if rest[0] != Close then Raise(MissingParen)
        else Ok(Parsed(inner, rest[1..]))
    else if ts[0].True? || ts[0].False? then Raise(BareConstant(Spelling(ts[0])))
    else if |ts| < 2 || !IsComparison(ts[1]) then Ok(Parsed(Flag(Spelling(ts[0])), ts[1..]))
    else if ts[1] == In then
      match ParseSet(ts[2..])
      case Raise(f) => Raise(f)
      case Ok(Parsed(values, rest)) => Ok(Parsed(InSet(Spelling(ts[0]), values), rest))
    else if |ts| > 2 && IsField(ts[2]) then
      Ok(Parsed(FieldCmp(CmpOf(ts[1]), Spelling(ts[0]), ts[2].text), ts[3..]))
    else
      match ParseScalar(ts[2..])
      case Raise(f) => Raise(f)
      case Ok(Parsed(value, rest)) => Ok(Parsed(Cmp(CmpOf(ts[1]), Spelling(ts[0]), value), rest))
  }

  function ParseScalar(ts: seq<Token>): (r: Result<Parsed<Scalar>>)
    ensures r.Ok? ==> |r.value.rest| < |ts|
  {
    if ts == [] then Raise(UnexpectedEnd)
    else
      match ScalarOf(ts[0])
      case Raise(f) => Raise(f)
      case Ok(v) => Ok(Parsed(v, ts[1..]))
  }

  function ParseSet(ts: seq<Token>): (r: Result<Parsed<seq<Scalar>>>)
    ensures r.Ok? ==> |r.value.rest| < |ts|
  {
    if ts == [] then Raise(UnexpectedEnd)
    else if ts[0] != LBrace then Raise(ExpectedSet)
    else
      match ParseScalar(ts[1..])
      case Raise(f) => Raise(f)
      case Ok(Parsed(v, rest)) => SetLoop([v], rest)
  }

  function SetLoop(values: seq<Scalar>, ts: seq<Token>): (r: Result<Parsed<seq<Scalar>>>)
    ensures r.Ok? ==> |r.value.rest| < |ts|
    decreases |ts|
  {
    if ts == [] then Raise(UnexpectedEnd)
    else if ts[0] == RBrace then Ok(Parsed(values, ts[1..]))
    else if ts[0] != Comma then Raise(ExpectedBrace)
    else
      match ParseScalar(ts[1..])
      case Raise(f) => Raise(f)
      case Ok(Parsed(v, rest)) => SetLoop(values + [v], rest)
  }

  /** A whole token list is one formula. */
  function Parse(ts: seq<Token>): Result<AST> {
    match ParseImpl(ts)
    case Raise(f) => Raise(f)
    case Ok(Parsed(tree, rest)) => if rest == [] then Ok(tree) else Raise(Leftover(Spelling(rest[0])))
  }

  /** A formula text to its tree. */
  function Formula(text: string): Result<AST> {
    match Lex(text)
    case Raise(f) => Raise(f)
    case Ok(ws) => Parse(ClassifyAll(ws))
  }

  // ----- the grammar -----

  /** A concrete syntax tree: an AST that still has its parentheses and value tokens. */
  datatype Cst =
    | CNot(inner: Cst)
    | CBin(op: BinOp, left: Cst, right: Cst)
    | CParen(inner: Cst)
    | CFlag(field: Token)
    | CCmp(cmp: CmpOp, field: Token, token: Token)
    | CFieldCmp(cmp: CmpOp, lfield: Token, rfield: Token)
    | CIn(field: Token, tokens: seq<Token>)

  /** A token that can stand where a formula is expected. */
  predicate Subject(token: Token) {
    !token.Open? && !token.Tilde? && !token.True? && !token.False?
  }

  /**
   How tightly the top of a phrase binds: 0 implication, 1 or, 2 and, 3 anything else.
   Negative for what the grammar does not allow. Implication nests to the right,
   disjunction and conjunction to the left.
   */
  function Rank(c: Cst): int {
    match c
    case CNot(inner) => if Rank(inner) == 3 then 3 else -1
    case CBin(Implies, l, r) => if Rank(l) >= 1 && Rank(r) >= 0 then 0 else -1
    case CBin(Or, l, r) => if Rank(l) >= 1 && Rank(r) >= 2 then 1 else -1
    case CBin(And, l, r) => if Rank(l) >= 2 && Rank(r) == 3 then 2 else -1
    case CParen(inner) => if Rank(inner) >= 0 then 3 else -1
    case CFlag(f) => if Subject(f) then 3 else -1
    case CCmp(_, f, token) => if Subject(f) && ScalarOf(token).Ok? then 3 else -1
    case CFieldCmp(_, l, r) => if Subject(l) && IsField(r) then 3 else -1
    case CIn(f, tokens) => if Subject(f) && |tokens| > 0 && AllValues(tokens) then 3 else -1
  }

  predicate AllValues(tokens: seq<Token>) {
    forall i :: 0 <= i < |tokens| ==> ScalarOf(tokens[i]).Ok?
  }

  function BinToken(op: BinOp): Token {
    match op case Implies => Arrow case Or => Vee case And => Wedge
  }

  function CmpToken(cmp: CmpOp): Token {
    match cmp case Eq => Equal case Ne => Hash case Lt => Less
  }

  /** A listing after its first value: the other values behind commas, then the closing brace. */
  function Others(tokens: seq<Token>): seq<Token> {
    if tokens == [] then [RBrace] else [Comma, tokens[0]] + Others(tokens[1..])
  }

  function Listing(tokens: seq<Token>): seq<Token> {
    if tokens == [] then [] else [tokens[0]] + Others(tokens[1..])
  }

  /** The tokens of a phrase. */
  function Yield(c: Cst): seq<Token> {
    match c
    case CNot(inner) => [Tilde] + Yield(inner)
    case CBin(op, l, r) => Yield(l) + [BinToken(op)] + Yield(r)
    case CParen(inner) => [Open] + Yield(inner) + [Close]
    case CFlag(f) => [f]
    case CCmp(cmp, f, token) => [f, CmpToken(cmp), token]
    case CFieldCmp(cmp, l, r) => [l, CmpToken(cmp), r]
    case CIn(f, tokens) => [f, In, LBrace] + Listing(tokens)
  }

  /** The value of a token that has one. */
  function ValueOf(t: Token): Scalar {
    match ScalarOf(t) case Ok(v) => v case Raise(_) => Bool(false)
  }

  function Scalars(tokens: seq<Token>): seq<Scalar> {
    if tokens == [] then [] else [ValueOf(tokens[0])] + Scalars(tokens[1..])
  }

  /** The tree a phrase stands for. */
  function Meaning(c: Cst): AST {
    match c
    case CNot(inner) => Not(Meaning(inner))
    case CBin(op, l, r) => Bin(op, Meaning(l), Meaning(r))
    case CParen(inner) => Meaning(inner)
    case CFlag(f) => Flag(Spelling(f))
    case CCmp(cmp, f, token) => Cmp(cmp, Spelling(f), ValueOf(token))
    case CFieldCmp(cmp, l, r) => FieldCmp(cmp, Spelling(l), Spelling(r))
    case CIn(f, tokens) => InSet(Spelling(f), Scalars(tokens))
  }

  // ----- completeness: every phrase parses to its meaning -----

  // What each level of the parser makes of `ts`. Naming the facts keeps the phrase
  // lemmas below from unfolding the whole parser.

  predicate NotGives(ts: seq<Token>, tree: AST, rest: seq<Token>) {
    ParseNot(ts) == Ok(Parsed(tree, rest))
  }

  predicate AndReaches(ts: seq<Token>, left: AST, rest: seq<Token>) {
    ParseAnd(ts) == AndLoop(left, rest)
  }

  predicate OrReaches(ts: seq<Token>, left: AST, rest: seq<Token>) {
    ParseOr(ts) == OrLoop(left, rest)
  }

  predicate ImplGives(ts: seq<Token>, tree: AST, rest: seq<Token>) {
    ParseImpl(ts) == Ok(Parsed(tree, rest))
  }

  lemma AndStep(ts: seq<Token>, l: AST, more: seq<Token>, r: AST, rest: seq<Token>)
    requires AndReaches(ts, l, more) && Next(more, Wedge)
    requires NotGives(more[1..], r, rest)
    ensures AndReaches(ts, Bin(And, l, r), rest)
  {
  }

  lemma OrStep(ts: seq<Token>, l: AST, more: seq<Token>, r: AST, rest: seq<Token>)
    requires OrReaches(ts, l, more) && Next(more, Vee)
    requires AndReaches(more[1..], r, rest) && !Next(rest, Wedge)
    ensures OrReaches(ts, Bin(Or, l, r), rest)
  {
  }

  lemma ImplStep(ts: seq<Token>, l: AST, more: seq<Token>, r: AST, rest: seq<Token>)
    requires OrReaches(ts, l, more) && Next(more, Arrow)
    requires ImplGives(more[1..], r, rest)
    ensures ImplGives(ts, Bin(Implies, l, r), rest)
  {
  }

  lemma ImplBase(ts: seq<Token>, l: AST, rest: seq<Token>)
    requires OrReaches(ts, l, rest) && !Next(rest, Vee) && !Next(rest, Arrow)
    ensures ImplGives(ts, l, rest)
  {
  }

  lemma ScalarStep(t: Token, rest: seq<Token>)
    requires ScalarOf(t).Ok?
    ensures ParseScalar([t] + rest) == Ok(Parsed(ValueOf(t), rest))
  {
    assert ([t] + rest)[1..] == rest;
  }

  lemma SetStep(values: seq<Scalar>, t: Token, rest: seq<Token>)
    requires ScalarOf(t).Ok?
    ensures SetLoop(values, [Comma, t] + rest) == SetLoop(values + [ValueOf(t)], rest)
  {
    ScalarStep(t, rest);
    assert ([Comma, t] + rest)[1..] == [t] + rest;
  }

  lemma {:induction false} OthersParse(values: seq<Scalar>, tokens: seq<Token>, rest: seq<Token>)
    requires AllValues(tokens)
    ensures SetLoop(values, Others(tokens) + rest) == Ok(Parsed(values + Scalars(tokens), rest))
    decreases |tokens|
  {
    if tokens == [] {
      assert ([RBrace] + rest)[1..] == rest;
      assert values + Scalars(tokens) == values;
    } else {
      var v := ValueOf(tokens[0]);
      var more := Others(tokens[1..]) + rest;
      assert Others(tokens) + rest == [Comma, tokens[0]] + more;
      SetStep(values, tokens[0], more);
      OthersParse(values + [v], tokens[1..], rest);
      assert values + [v] + Scalars(tokens[1..]) == values + Scalars(tokens);
    }
  }

  lemma NotStep(inner: Cst, rest: seq<Token>)
    requires NotGives(Yield(inner) + rest, Meaning(inner), rest)
    ensures NotGives(Yield(CNot(inner)) + rest, Not(Meaning(inner)), rest)
  {
    var more := Yield(inner) + rest;
    assert Yield(CNot(inner)) + rest == [Tilde] + more;
    assert ([Tilde] + more)[1..] == more;
  }

  lemma ParensParse(inner: Cst, rest: seq<Token>)
    requires ImplGives(Yield(inner) + ([Close] + rest), Meaning(inner), [Close] + rest)
    ensures NotGives(Yield(CParen(inner)) + rest, Meaning(inner), rest)
  {
    var more := Yield(inner) + ([Close] + rest);
    assert Yield(CParen(inner)) + rest == [Open] + more;
    assert ([Open] + more)[1..] == more;
    assert ([Close] + rest)[1..] == rest;
  }

  lemma FlagParses(f: Token, rest: seq<Token>)
    requires Subject(f) && !(rest != [] && IsComparison(rest[0]))
    ensures ParseAtom([f] + rest) == Ok(Parsed(Flag(Spelling(f)), rest))
  {
    assert ([f] + rest)[1..] == rest;
  }

  lemma CmpParses(cmp: CmpOp, f: Token, token: Token, rest: seq<Token>)
    requires Subject(f) && ScalarOf(token).Ok?
    ensures ParseAtom([f, CmpToken(cmp), token] + rest)
         == Ok(Parsed(Cmp(cmp, Spelling(f), ValueOf(token)), rest))
  {
    ScalarStep(token, rest);
    assert ([f, CmpToken(cmp), token] + rest)[2..] == [token] + rest;
  }

  lemma FieldCmpParses(cmp: CmpOp, l: Token, r: Token, rest: seq<Token>)
    requires Subject(l) && IsField(r)
    ensures ParseAtom([l, CmpToken(cmp), r] + rest)
         == Ok(Parsed(FieldCmp(cmp, Spelling(l), Spelling(r)), rest))
  {
    assert ([l, CmpToken(cmp), r] + rest)[3..] == rest;
  }

  lemma SetOpens(t: Token, rest: seq<Token>)
    requires ScalarOf(t).Ok?
    ensures ParseSet([LBrace, t] + rest) == SetLoop([ValueOf(t)], rest)
  {
    ScalarStep(t, rest);
    assert ([LBrace, t] + rest)[1..] == [t] + rest;
  }

  lemma Regroup(a: Token, b: Token, c: seq<Token>, d: seq<Token>)
    ensures [a] + ([b] + c) + d == [a, b] + (c + d)
  {
  }

  lemma ListingParses(tokens: seq<Token>, rest: seq<Token>)
    requires |tokens| > 0 && AllValues(tokens)
    ensures ParseSet([LBrace] + Listing(tokens) + rest) == Ok(Parsed(Scalars(tokens), rest))
  {
    SetOpens(tokens[0], Others(tokens[1..]) + rest);
    OthersParse([ValueOf(tokens[0])], tokens[1..], rest);
    Regroup(LBrace, tokens[0], Others(tokens[1..]), rest);
  }

  lemma MembershipParses(f: Token, tokens: seq<Token>, rest: seq<Token>)
    requires Subject(f) && |tokens| > 0 && AllValues(tokens)
    ensures ParseAtom([f, In, LBrace] + Listing(tokens) + rest)
         == Ok(Parsed(InSet(Spelling(f), Scalars(tokens)), rest))
  {
    ListingParses(tokens, rest);
    assert ([f, In, LBrace] + Listing(tokens) + rest)[2..] == [LBrace] + Listing(tokens) + rest;
  }

  lemma {:induction false} PhraseAtNot(c: Cst, rest: seq<Token>)
    requires Rank(c) == 3 && !(rest != [] && IsComparison(rest[0]))
    ensures NotGives(Yield(c) + rest, Meaning(c), rest)
    decreases c, 0
  {
    match c
    case CNot(inner) =>
      PhraseAtNot(inner, rest);
      NotStep(inner, rest);
    case CParen(inner) =>
      PhraseAtImpl(inner, [Close] + rest);
      ParensParse(inner, rest);
    case CIn(f, tokens) =>
      MembershipParses(f, tokens, rest);
    case CFlag(f) =>
      FlagParses(f, rest);
    case CCmp(cmp, f, token) =>
      CmpParses(cmp, f, token, rest);
    case CFieldCmp(cmp, l, r) =>
      FieldCmpParses(cmp, l, r, rest);
  }

  lemma {:induction false} PhraseAtAnd(c: Cst, rest: seq<Token>)
    requires Rank(c) >= 2 && !(rest != [] && IsComparison(rest[0]))
    ensures AndReaches(Yield(c) + rest, Meaning(c), rest)
    decreases c, 1
  {
    if Rank(c) == 3 {
      PhraseAtNot(c, rest);
    } else {
      var more := [Wedge] + (Yield(c.right) + rest);
      assert Yield(c) + rest == Yield(c.left) + more && more[1..] == Yield(c.right) + rest;
      PhraseAtAnd(c.left, more);
      PhraseAtNot(c.right, rest);
      AndStep(Yield(c) + rest, Meaning(c.left), more, Meaning(c.right), rest);
    }
  }

  lemma {:induction false} PhraseAtOr(c: Cst, rest: seq<Token>)
    requires Rank(c) >= 1
    requires !(rest != [] && (IsComparison(rest[0]) || rest[0].Wedge?))
    ensures OrReaches(Yield(c) + rest, Meaning(c), rest)
    decreases c, 2
  {
    if Rank(c) >= 2 {
      PhraseAtAnd(c, rest);
    } else {
      var more := [Vee] + (Yield(c.right) + rest);
      assert Yield(c) + rest == Yield(c.left) + more && more[1..] == Yield(c.right) + rest;
      PhraseAtOr(c.left, more);
      PhraseAtAnd(c.right, rest);
      OrStep(Yield(c) + rest, Meaning(c.left), more, Meaning(c.right), rest);
    }
  }

  lemma {:induction false} PhraseAtImpl(c: Cst, rest: seq<Token>)
    requires Rank(c) >= 0
    requires !(rest != [] && (IsComparison(rest[0]) || rest[0].Wedge? || rest[0].Vee? || rest[0].Arrow?))
    ensures ImplGives(Yield(c) + rest, Meaning(c), rest)
    decreases c, 3
  {
    if Rank(c) >= 1 {
      PhraseAtOr(c, rest);
      ImplBase(Yield(c) + rest, Meaning(c), rest);
    } else {
      var more := [Arrow] + (Yield(c.right) + rest);
      assert Yield(c) + rest == Yield(c.left) + more && more[1..] == Yield(c.right) + rest;
      PhraseAtOr(c.left, more);
      PhraseAtImpl(c.right, rest);
      ImplStep(Yield(c) + rest, Meaning(c.left), more, Meaning(c.right), rest);
    }
  }

  // ----- soundness: whatever parses is a phrase -----

  lemma {:induction false} SoundImpl(ts: seq<Token>) returns (c: Cst)
    requires ParseImpl(ts).Ok?
    ensures var p := ParseImpl(ts).value;
            Rank(c) >= 0 && Meaning(c) == p.value && ts == Yield(c) + p.rest
    decreases |ts|, 4
  {
    var Parsed(left, rest) := ParseOr(ts).value;
    c := SoundOr(ts);
    if Next(rest, Arrow) {
      var r := SoundImpl(rest[1..]);
      var rest' := ParseImpl(rest[1..]).value.rest;
      BinYields(Implies, c, r, rest, rest');
      c := CBin(Implies, c, r);
    }
  }

  // How a phrase's tokens line up with the tokens read.

  lemma BinYields(op: BinOp, l: Cst, r: Cst, ts: seq<Token>, rest: seq<Token>)
    requires ts != [] && ts[0] == BinToken(op) && ts[1..] == Yield(r) + rest
    ensures Yield(l) + ts == Yield(CBin(op, l, r)) + rest
  {
    assert ts == [BinToken(op)] + (Yield(r) + rest);
  }

  lemma NotYields(inner: Cst, ts: seq<Token>, rest: seq<Token>)
    requires ts != [] && ts[0] == Tilde && ts[1..] == Yield(inner) + rest
    ensures ts == Yield(CNot(inner)) + rest
  {
    assert ts == [Tilde] + (Yield(inner) + rest);
  }

  lemma ParenYields(inner: Cst, ts: seq<Token>, rest: seq<Token>)
    requires ts != [] && ts[0] == Open && rest != [] && rest[0] == Close && ts[1..] == Yield(inner) + rest
    ensures ts == Yield(CParen(inner)) + rest[1..]
  {
    assert ts == [Open] + (Yield(inner) + ([Close] + rest[1..]));
  }

  lemma InYields(f: Token, tokens: seq<Token>, ts: seq<Token>, rest: seq<Token>)
    requires |ts| >= 2 && ts[0] == f && ts[1] == In && ts[2..] == [LBrace] + Listing(tokens) + rest
    ensures ts == Yield(CIn(f, tokens)) + rest
  {
    assert ts == [f, In] + ([LBrace] + Listing(tokens) + rest);
  }

  lemma {:induction false} SoundOr(ts: seq<Token>) returns (c: Cst)
    requires ParseOr(ts).Ok?
    ensures var p := ParseOr(ts).value;
            Rank(c) >= 1 && Meaning(c) == p.value && ts == Yield(c) + p.rest
    decreases |ts|, 3
  {
    var l := SoundAnd(ts);
    c := SoundOrLoop(l, ParseAnd(ts).value.rest);
  }

  lemma {:induction false} SoundOrLoop(l: Cst, ts: seq<Token>) returns (c: Cst)
    requires Rank(l) >= 1 && OrLoop(Meaning(l), ts).Ok?
    ensures var p := OrLoop(Meaning(l), ts).value;
            Rank(c) >= 1 && Meaning(c) == p.value && Yield(l) + ts == Yield(c) + p.rest
    decreases |ts|, 0
  {
    c := l;
    if Next(ts, Vee) {
      var r := SoundAnd(ts[1..]);
      var rest := ParseAnd(ts[1..]).value.rest;
      BinYields(Or, l, r, ts, rest);
      c := SoundOrLoop(CBin(Or, l, r), rest);
    }
  }

  lemma {:induction false} SoundAnd(ts: seq<Token>) returns (c: Cst)
    requires ParseAnd(ts).Ok?
    ensures var p := ParseAnd(ts).value;
            Rank(c) >= 2 && Meaning(c) == p.value && ts == Yield(c) + p.rest
    decreases |ts|, 2
  {
    var l := SoundNot(ts);
    c := SoundAndLoop(l, ParseNot(ts).value.rest);
  }

  lemma {:induction false} SoundAndLoop(l: Cst, ts: seq<Token>) returns (c: Cst)
    requires Rank(l) >= 2 && AndLoop(Meaning(l), ts).Ok?
    ensures var p := AndLoop(Meaning(l), ts).value;
            Rank(c) >= 2 && Meaning(c) == p.value && Yield(l) + ts == Yield(c) + p.rest
    decreases |ts|, 0
  {
    c := l;
    if Next(ts, Wedge) {
      var r := SoundNot(ts[1..]);
      var rest := ParseNot(ts[1..]).value.rest;
      BinYields(And, l, r, ts, rest);
      c := SoundAndLoop(CBin(And, l, r), rest);
    }
  }

  lemma {:induction false} SoundNot(ts: seq<Token>) returns (c: Cst)
    requires ParseNot(ts).Ok?
    ensures var p := ParseNot(ts).value;
            Rank(c) == 3 && Meaning(c) == p.value && ts == Yield(c) + p.rest
    decreases |ts|, 1
  {
    if Next(ts, Tilde) {
      c := SoundNot(ts[1..]);
      NotYields(c, ts, ParseNot(ts[1..]).value.rest);
      c := CNot(c);
    } else if ts[0] == Open {
      c := SoundImpl(ts[1..]);
      var rest := ParseImpl(ts[1..]).value.rest;
      ParenYields(c, ts, rest);
      c := CParen(c);
    } else {
      c := SoundLeaf(ts);
    }
  }

  lemma SoundLeaf(ts: seq<Token>) returns (c: Cst)
    requires ts != [] && Subject(ts[0]) && ParseAtom(ts).Ok?
    ensures var p := ParseAtom(ts).value;
            Rank(c) == 3 && Meaning(c) == p.value && ts == Yield(c) + p.rest
  {
    if |ts| < 2 || !IsComparison(ts[1]) {
      c := CFlag(ts[0]);
    } else if ts[1] == In {
      c := SoundMembership(ts);
    } else if |ts| > 2 && IsField(ts[2]) {
      c := CFieldCmp(CmpOf(ts[1]), ts[0], ts[2]);
      assert ts == [ts[0], ts[1], ts[2]] + ts[3..];
    } else {
      c := CCmp(CmpOf(ts[1]), ts[0], ts[2]);
      assert ts == [ts[0], ts[1], ts[2]] + ts[3..];
    }
  }

  lemma SoundMembership(ts: seq<Token>) returns (c: Cst)
    requires |ts| >= 2 && Subject(ts[0]) && ts[1] == In && ParseAtom(ts).Ok?
    ensures var p := ParseAtom(ts).value;
            Rank(c) == 3 && Meaning(c) == p.value && ts == Yield(c) + p.rest
  {
    var tokens := SoundSet(ts[2..]);
    c := CIn(ts[0], tokens);
    InYields(ts[0], tokens, ts, ParseSet(ts[2..]).value.rest);
  }

  lemma SoundSet(ts: seq<Token>) returns (tokens: seq<Token>)
    requires ParseSet(ts).Ok?
    ensures var p := ParseSet(ts).value;
            |tokens| > 0 && AllValues(tokens) && Scalars(tokens) == p.value
            && ts == [LBrace] + Listing(tokens) + p.rest
  {
    var others := SoundOthers([ValueOf(ts[1])], ts[2..]);
    tokens := [ts[1]] + others;
    assert tokens[1..] == others;
    assert ts == [LBrace, ts[1]] + ts[2..];
  }

  lemma {:induction false} SoundOthers(values: seq<Scalar>, ts: seq<Token>) returns (tokens: seq<Token>)
    requires SetLoop(values, ts).Ok?
    ensures var p := SetLoop(values, ts).value;
            AllValues(tokens) && values + Scalars(tokens) == p.value && ts == Others(tokens) + p.rest
    decreases |ts|
  {
    if ts[0] == RBrace {
      tokens := [];
    } else {
      SetLoopTurn(values, ts);
      var more := SoundOthers(values + [ValueOf(ts[1])], ts[2..]);
      tokens := [ts[1]] + more;
      OthersYield(ts[1], more, ts, SetLoop(values, ts).value.rest);
    }
  }

  lemma SetLoopTurn(values: seq<Scalar>, ts: seq<Token>)
    requires SetLoop(values, ts).Ok? && ts[0] != RBrace
    ensures |ts| >= 2 && ts[0] == Comma && ScalarOf(ts[1]).Ok?
    ensures SetLoop(values, ts) == SetLoop(values + [ValueOf(ts[1])], ts[2..])
  {
    assert ts[1..][1..] == ts[2..];
  }

  lemma OthersYield(t: Token, more: seq<Token>, ts: seq<Token>, rest: seq<Token>)
    requires |ts| >= 2 && ts[0] == Comma && ts[1] == t && ts[2..] == Others(more) + rest
    ensures ts == Others([t] + more) + rest && Scalars([t] + more) == [ValueOf(t)] + Scalars(more)
  {
    assert ([t] + more)[1..] == more;
    assert ts == [Comma, t] + ts[2..];
  }

  /** The parser accepts exactly the grammar, and reads each phrase as the grammar says. */
  lemma ParserIsTheGrammar(ts: seq<Token>, tree: AST)
    ensures Parse(ts) == Ok(tree)
       <==> exists c: Cst :: Rank(c) >= 0 && Yield(c) == ts && Meaning(c) == tree
  {
    if Parse(ts) == Ok(tree) {
      var c := SoundImpl(ts);
      assert Yield(c) + [] == Yield(c);
    }
    forall c: Cst | Rank(c) >= 0 && Yield(c) == ts && Meaning(c) == tree
      ensures Parse(ts) == Ok(tree)
    {
      PhraseAtImpl(c, []);
      assert Yield(c) + [] == Yield(c);
    }
  }
}
