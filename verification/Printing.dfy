/** Writing a formula tree as text, with all its parentheses or with as few as possible. */
module Printing {
  import opened Formulas
  import opened Decimal
  import opened Lexer
  import opened Parser

  predicate IsName(w: string) {
    IsWord(w) && w != "TRUE" && w != "FALSE"
  }

  predicate Writable(v: Scalar) {
    match v
    case Bool(_) => true
    case Int(n) => n >= 0
    case Str(s) => forall i :: 0 <= i < |s| ==> s[i] != '"'
  }

  /** Trees over named fields, quote-free strings, natural numbers and non-empty sets. */
  predicate Printable(tree: AST) {
    match tree
    case Not(inner) => Printable(inner)
    case Bin(_, l, r) => Printable(l) && Printable(r)
    case Flag(f) => IsName(f)
    case Cmp(_, f, v) => IsName(f) && Writable(v)
    case FieldCmp(_, l, r) => IsName(l) && IsName(r)
    case InSet(f, values) => IsName(f) && |values| > 0 && forall i :: 0 <= i < |values| ==> Writable(values[i])
  }

  function ValueToken(v: Scalar): Token {
    match v
    case Bool(b) => if b then True else False
    case Int(n) => Word(if n >= 0 then Numeral(n) else "")
    case Str(s) => Word("\"" + s + "\"")
  }

  function ValueTokens(values: seq<Scalar>): seq<Token> {
    if values == [] then [] else [ValueToken(values[0])] + ValueTokens(values[1..])
  }

  function Leaf(tree: AST): Cst
    requires !tree.Not? && !tree.Bin?
  {
    match tree
    case Flag(f) => CFlag(Word(f))
    case Cmp(cmp, f, v) => CCmp(cmp, Word(f), ValueToken(v))
    case FieldCmp(cmp, l, r) => CFieldCmp(cmp, Word(l), Word(r))
    case InSet(f, values) => CIn(Word(f), ValueTokens(values))
  }

  /** Parentheses around every connective. */
  function Wrapped(tree: AST): Cst {
    match tree
    case Not(inner) => CNot(Wrapped(inner))
    case Bin(op, l, r) => CParen(CBin(op, Wrapped(l), Wrapped(r)))
    case _ => Leaf(tree)
  }

  function AtLeast(rank: int, c: Cst): Cst {
    if Rank(c) >= rank then c else CParen(c)
  }

  /** Parentheses only where the grammar needs them. */
  function Lean(tree: AST): Cst {
    match tree
    case Not(inner) => CNot(AtLeast(3, Lean(inner)))
    case Bin(Implies, l, r) => CBin(Implies, AtLeast(1, Lean(l)), Lean(r))
    case Bin(Or, l, r) => CBin(Or, AtLeast(1, Lean(l)), AtLeast(2, Lean(r)))
    case Bin(And, l, r) => CBin(And, AtLeast(2, Lean(l)), AtLeast(3, Lean(r)))
    case _ => Leaf(tree)
  }

  /** A token the tokenizer reads back as itself. */
  predicate Spellable(t: Token) {
    t.Word? ==> IsToken(t.text) && Classify(t.text).Word?
  }

  predicate AllSpellable(ts: seq<Token>) {
    forall i :: 0 <= i < |ts| ==> Spellable(ts[i])
  }

  function Spellings(ts: seq<Token>): seq<string> {
    seq(|ts|, i requires 0 <= i < |ts| => Spelling(ts[i]))
  }

  function Text(c: Cst): string {
    Spaced(Spellings(Yield(c)))
  }

  lemma SpellingReads(t: Token)
    requires Spellable(t)
    ensures IsToken(Spelling(t)) && Classify(Spelling(t)) == t
  {
  }

  lemma TextLexes(c: Cst)
    requires AllSpellable(Yield(c))
    ensures Lex(Text(c)).Ok? && ClassifyAll(Lex(Text(c)).value) == Yield(c)
  {
    var words := Spellings(Yield(c));
    forall i | 0 <= i < |words| ensures IsToken(words[i]) && Classify(words[i]) == Yield(c)[i] {
      SpellingReads(Yield(c)[i]);
    }
    LexSpaced(words);
    assert ClassifyAll(words) == Yield(c);
  }

  /** Tokenizing and parsing a written phrase gives its meaning, all tokens consumed. */
  lemma PhraseReadsBack(c: Cst)
    requires Rank(c) >= 0 && AllSpellable(Yield(c))
    ensures Formula(Text(c)) == Ok(Meaning(c))
  {
    TextLexes(c);
    PhraseAtImpl(c, []);
    assert Yield(c) + [] == Yield(c);
  }

  lemma ValueTokenReads(v: Scalar)
    requires Writable(v)
    ensures ScalarOf(ValueToken(v)) == Ok(v)
  {
    match v
    case Bool(_) =>
    case Int(n) => NumeralReadsBack(n);
    case Str(s) => assert ("\"" + s + "\"")[1..|s| + 1] == s;
  }

  lemma {:induction false} ValueTokensRead(values: seq<Scalar>)
    requires forall i :: 0 <= i < |values| ==> Writable(values[i])
    ensures |ValueTokens(values)| == |values|
    ensures AllValues(ValueTokens(values)) && Scalars(ValueTokens(values)) == values
  {
    if values != [] {
      ValueTokenReads(values[0]);
      ValueTokensRead(values[1..]);
      assert ValueTokens(values)[1..] == ValueTokens(values[1..]);
    }
  }

  lemma LeafIsPhrase(tree: AST)
    requires Printable(tree) && !tree.Not? && !tree.Bin?
    ensures Rank(Leaf(tree)) == 3 && Meaning(Leaf(tree)) == tree
  {
    match tree
    case Cmp(_, f, v) =>
      ValueTokenReads(v);
    case InSet(f, values) =>
      ValueTokensRead(values);
    case _ =>
  }

  lemma NameSpells(w: string)
    requires IsName(w)
    ensures Spellable(Word(w))
  {
  }

  lemma DigitsSpell(w: string)
    requires AllDigits(w)
    ensures Spellable(Word(w))
  {
    assert IsDigit(w[0]);
  }

  lemma ValueSpells(v: Scalar)
    requires Writable(v)
    ensures Spellable(ValueToken(v))
  {
    match v
    case Bool(_) =>
    case Int(n) => NumeralReadsBack(n); DigitsSpell(Numeral(n));
    case Str(s) =>
  }

  lemma {:induction false} OthersSpell(values: seq<Scalar>)
    requires forall i :: 0 <= i < |values| ==> Writable(values[i])
    ensures AllSpellable(Others(ValueTokens(values)))
  {
    if values != [] {
      ValueSpells(values[0]);
      OthersSpell(values[1..]);
      assert ValueTokens(values)[1..] == ValueTokens(values[1..]);
    }
  }

  lemma SpellsJoined(a: seq<Token>, b: seq<Token>)
    requires AllSpellable(a) && AllSpellable(b)
    ensures AllSpellable(a + b)
  {
  }

  lemma ListingSpells(values: seq<Scalar>)
    requires |values| > 0 && forall i :: 0 <= i < |values| ==> Writable(values[i])
    ensures AllSpellable(Listing(ValueTokens(values)))
  {
    OthersSpell(values[1..]);
    var tokens := ValueTokens(values);
    assert tokens[1..] == ValueTokens(values[1..]);
    ValueSpellsAlone(values[0]);
    SpellsJoined([ValueToken(values[0])], Others(tokens[1..]));
  }

  lemma ValueSpellsAlone(v: Scalar)
    requires Writable(v)
    ensures AllSpellable([ValueToken(v)])
  {
    ValueSpells(v);
  }

  lemma LeafSpells(tree: AST)
    requires Printable(tree) && !tree.Not? && !tree.Bin?
    ensures AllSpellable(Yield(Leaf(tree)))
  {
    match tree
    case Flag(f) =>
      NameSpells(f);
    case Cmp(_, f, v) =>
      NameSpells(f);
      ValueSpells(v);
    case FieldCmp(_, l, r) =>
      NameSpells(l);
      NameSpells(r);
    case InSet(f, values) =>
      NameSpells(f);
      ListingSpells(values);
  }

  lemma BinSpells(op: BinOp, l: Cst, r: Cst)
    requires AllSpellable(Yield(l)) && AllSpellable(Yield(r))
    ensures AllSpellable(Yield(CBin(op, l, r)))
  {
    SpellsJoined(Yield(l), [BinToken(op)]);
    SpellsJoined(Yield(l) + [BinToken(op)], Yield(r));
  }

  lemma ParenSpells(inner: Cst)
    requires AllSpellable(Yield(inner))
    ensures AllSpellable(Yield(CParen(inner)))
  {
    SpellsJoined([Open], Yield(inner));
    SpellsJoined([Open] + Yield(inner), [Close]);
  }

  lemma {:induction false} WrappedIsPhrase(tree: AST)
    requires Printable(tree)
    ensures Rank(Wrapped(tree)) == 3 && Meaning(Wrapped(tree)) == tree && AllSpellable(Yield(Wrapped(tree)))
  {
    match tree
    case Not(inner) =>
      WrappedIsPhrase(inner);
      SpellsJoined([Tilde], Yield(Wrapped(inner)));
    case Bin(op, l, r) =>
      WrappedIsPhrase(l);
      WrappedIsPhrase(r);
      BinSpells(op, Wrapped(l), Wrapped(r));
      ParenSpells(CBin(op, Wrapped(l), Wrapped(r)));
    case _ =>
      LeafIsPhrase(tree);
      LeafSpells(tree);
  }

  lemma AtLeastIsPhrase(rank: int, c: Cst)
    requires Rank(c) >= 0 && rank <= 3 && AllSpellable(Yield(c))
    ensures Rank(AtLeast(rank, c)) >= rank && Rank(AtLeast(rank, c)) >= 0
    ensures Meaning(AtLeast(rank, c)) == Meaning(c) && AllSpellable(Yield(AtLeast(rank, c)))
  {
  }

  lemma LeanBinIsPhrase(op: BinOp, l: AST, r: AST)
    requires Rank(Lean(l)) >= 0 && Meaning(Lean(l)) == l && AllSpellable(Yield(Lean(l)))
    requires Rank(Lean(r)) >= 0 && Meaning(Lean(r)) == r && AllSpellable(Yield(Lean(r)))
    ensures var c := Lean(Bin(op, l, r)); Rank(c) >= 0 && Meaning(c) == Bin(op, l, r) && AllSpellable(Yield(c))
  {
    var left := AtLeast(if op == And then 2 else 1, Lean(l));
    var right := AtLeast(match op case And => 3 case Or => 2 case Implies => 0, Lean(r));
    AtLeastIsPhrase(if op == And then 2 else 1, Lean(l));
    AtLeastIsPhrase(match op case And => 3 case Or => 2 case Implies => 0, Lean(r));
    BinSpells(op, left, right);
  }

  lemma {:induction false} LeanIsPhrase(tree: AST)
    requires Printable(tree)
    ensures Rank(Lean(tree)) >= 0 && Meaning(Lean(tree)) == tree && AllSpellable(Yield(Lean(tree)))
  {
    match tree
    case Not(inner) =>
      LeanIsPhrase(inner);
      AtLeastIsPhrase(3, Lean(inner));
      SpellsJoined([Tilde], Yield(AtLeast(3, Lean(inner))));
    case Bin(op, l, r) =>
      LeanIsPhrase(l);
      LeanIsPhrase(r);
      LeanBinIsPhrase(op, l, r);
    case _ =>
      LeafIsPhrase(tree);
      LeafSpells(tree);
  }

  /** Round trip through fully parenthesised text. */
  lemma FullTextRoundTrip(tree: AST)
    requires Printable(tree)
    ensures Formula(Text(Wrapped(tree))) == Ok(tree)
  {
    WrappedIsPhrase(tree);
    PhraseReadsBack(Wrapped(tree));
  }

  /**
   Round trip through text with the fewest parentheses: implication associates to the
   right, conjunction and disjunction to the left, and conjunction binds tightest.
   */
  lemma LeanTextRoundTrip(tree: AST)
    requires Printable(tree)
    ensures Formula(Text(Lean(tree))) == Ok(tree)
  {
    LeanIsPhrase(tree);
    PhraseReadsBack(Lean(tree));
  }

  /** Chains without parentheses: a => b => c is a => (b => c), and a /\ b /\ c is (a /\ b) /\ c. */
  lemma ChainsAssociate(a: AST, b: AST, c: AST)
    requires !a.Bin? && !b.Bin? && !c.Bin?
    requires Printable(a) && Printable(b) && Printable(c)
    ensures Formula(Text(CBin(Implies, Lean(a), CBin(Implies, Lean(b), Lean(c))))) == Ok(Bin(Implies, a, Bin(Implies, b, c)))
    ensures Formula(Text(CBin(And, CBin(And, Lean(a), Lean(b)), Lean(c)))) == Ok(Bin(And, Bin(And, a, b), c))
    ensures Formula(Text(CBin(Or, CBin(Or, Lean(a), Lean(b)), Lean(c)))) == Ok(Bin(Or, Bin(Or, a, b), c))
  {
    LeanAtomRank(a);
    LeanAtomRank(b);
    LeanAtomRank(c);
    ReadsAsWritten(Bin(Implies, a, Bin(Implies, b, c)), CBin(Implies, Lean(a), CBin(Implies, Lean(b), Lean(c))));
    ReadsAsWritten(Bin(And, Bin(And, a, b), c), CBin(And, CBin(And, Lean(a), Lean(b)), Lean(c)));
    ReadsAsWritten(Bin(Or, Bin(Or, a, b), c), CBin(Or, CBin(Or, Lean(a), Lean(b)), Lean(c)));
  }

  lemma ReadsAsWritten(tree: AST, c: Cst)
    requires Printable(tree) && Lean(tree) == c
    ensures Formula(Text(c)) == Ok(tree)
  {
    LeanTextRoundTrip(tree);
  }

  lemma LeanAtomRank(a: AST)
    requires Printable(a) && !a.Bin?
    ensures Rank(Lean(a)) == 3
  {
    LeanIsPhrase(a);
  }
}
