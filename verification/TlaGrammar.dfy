/** How TLA+ reads a formula over the same tokens, and that it never reads one differently. */
module TlaGrammar {
  import opened Formulas
  import opened Lexer
  import opened Parser
  import opened Phrases
  import opened Printing

  /** A word without the backslash that starts an escape in a TLA+ string. */
  predicate PlainToken(t: Token) {
    t.Word? ==> forall i :: 0 <= i < |t.text| ==> t.text[i] != '\\'
  }

  /**
   The precedences and associativity of TLA+ (Table 6 of Lamport's Specifying Systems). Implication
   does not associate; conjunction and disjunction each associate to the left and have one
   precedence, so they do not mix without parentheses; negation binds tighter than both.
   */
  predicate TlaPhrase(c: Cst) {
    match c
    case CNot(inner) => TlaPhrase(inner) && !inner.CBin?
    case CBin(Implies, l, r) =>
      TlaPhrase(l) && TlaPhrase(r) && !(l.CBin? && l.op == Implies) && !(r.CBin? && r.op == Implies)
    case CBin(op, l, r) => TlaPhrase(l) && TlaPhrase(r) && (l.CBin? ==> l.op == op) && !r.CBin?
    case CParen(inner) => TlaPhrase(inner)
    case CFlag(f) => IsField(f)
    case CCmp(_, f, token) => IsField(f) && ScalarOf(token).Ok? && PlainToken(token)
    case CFieldCmp(_, l, r) => IsField(l) && IsField(r)
    case CIn(f, tokens) =>
      IsField(f) && |tokens| > 0 && AllValues(tokens) && forall i :: 0 <= i < |tokens| ==> PlainToken(tokens[i])
  }

  /** TLA+ reads the text as `tree`. */
  ghost predicate TlaReads(text: string, tree: AST) {
    Lex(text).Ok? && exists c: Cst :: TlaPhrase(c) && Yield(c) == ClassifyAll(Lex(text).value) && Meaning(c) == tree
  }

  ghost predicate TlaReadable(text: string) {
    exists tree: AST :: TlaReads(text, tree)
  }

  /** The same as a check: the checker parses the text, and the phrase behind its tokens is one of TLA+. */
  predicate Readable(text: string) {
    && Formula(text).Ok?
    && match PhraseOf(ClassifyAll(Lex(text).value)) case Some(c) => TlaPhrase(c) case None => false
  }

  lemma {:induction false} TlaRank(c: Cst)
    requires TlaPhrase(c)
    ensures Rank(c) == if c.CBin? then match c.op case Implies => 0 case Or => 1 case And => 2 else 3
  {
    match c
    case CNot(inner) => TlaRank(inner);
    case CBin(_, l, r) => TlaRank(l); TlaRank(r);
    case CParen(inner) => TlaRank(inner);
    case _ =>
  }

  /** A text TLA+ can read at all is read as the checker reads it. */
  lemma TlaReadsAsParsed(text: string, tree: AST)
    requires TlaReads(text, tree)
    ensures Formula(text) == Ok(tree)
  {
    var c :| TlaPhrase(c) && Yield(c) == ClassifyAll(Lex(text).value) && Meaning(c) == tree;
    TlaRank(c);
    ParserIsTheGrammar(Yield(c), tree);
  }

  /** Among the trees of the grammar only the parsed one can be TLA+'s, and it is just when the check passes. */
  lemma OneTlaReading(text: string, tree: AST)
    ensures TlaReads(text, tree) <==> Formula(text) == Ok(tree) && Readable(text)
  {
    if TlaReads(text, tree) {
      TlaReadsAsParsed(text, tree);
      var c :| TlaPhrase(c) && Yield(c) == ClassifyAll(Lex(text).value) && Meaning(c) == tree;
      TlaRank(c);
      PhraseIsBuilt(c);
    }
    if Formula(text) == Ok(tree) {
      ParsedHasAPhrase(ClassifyAll(Lex(text).value), tree);
    }
  }

  /** TLA+ reads a text if and only if the check passes. */
  lemma ReadableIsTlaReadable(text: string)
    ensures TlaReadable(text) <==> Readable(text)
  {
    if TlaReadable(text) {
      var tree :| TlaReads(text, tree);
      OneTlaReading(text, tree);
    }
    if Readable(text) {
      OneTlaReading(text, Formula(text).value);
    }
  }

  // ----- names -----

  /** The reserved words, and what is defined without a definition of one's own. */
  const RESERVED: set<string> :=
    {"ACTION", "ASSUME", "ASSUMPTION", "AXIOM", "BOOLEAN", "BY", "CASE", "CHOOSE", "CONSTANT", "CONSTANTS", "COROLLARY",
     "DEF", "DEFINE", "DEFS", "DOMAIN", "ELSE", "ENABLED", "EXCEPT", "EXTENDS", "FALSE", "HAVE", "HIDE", "IF", "IN",
     "INSTANCE", "LAMBDA", "LEMMA", "LET", "LOCAL", "MODULE", "NEW", "OBVIOUS", "OMITTED", "ONLY", "OTHER", "PICK",
     "PROOF", "PROPOSITION", "PROVE", "QED", "RECURSIVE", "STATE", "STRING", "SUBSET", "SUFFICES", "TAKE", "TEMPORAL",
     "THEN", "THEOREM", "TRUE", "UNCHANGED", "UNION", "USE", "VARIABLE", "VARIABLES", "WITH", "WITNESS"}

  /** Letters, digits and underscores with a letter among them, not reserved and not a fairness operator. */
  predicate TlaName(w: string) {
    && (forall i :: 0 <= i < |w| ==> IsWordChar(w[i])) && (exists i :: 0 <= i < |w| && IsAlpha(w[i]))
    && w !in RESERVED && !("WF_" <= w) && !("SF_" <= w)
  }

  // ----- what TLA+ refuses -----

  function Arrows(ts: seq<Token>): nat {
    if ts == [] then 0 else Arrows(ts[..|ts| - 1]) + if ts[|ts| - 1] == Arrow then 1 else 0
  }

  lemma {:induction false} ArrowsJoin(a: seq<Token>, b: seq<Token>)
    ensures Arrows(a + b) == Arrows(a) + Arrows(b)
  {
    if b == [] {
      assert a + b == a;
    } else {
      var n := |b| - 1;
      ArrowsJoin(a, b[..n]);
      assert (a + b)[..|a + b| - 1] == a + b[..n];
    }
  }

  lemma {:induction false} NoArrows(ts: seq<Token>)
    requires Arrow !in ts
    ensures Arrows(ts) == 0
  {
    if ts != [] {
      NoArrows(ts[..|ts| - 1]);
    }
  }

  lemma {:induction false} NoArrowListed(tokens: seq<Token>)
    requires AllValues(tokens)
    ensures Arrow !in Others(tokens)
  {
    if tokens != [] {
      NoArrowListed(tokens[1..]);
    }
  }

  lemma NoArrowInLeaf(c: Cst)
    requires TlaPhrase(c) && !c.CNot? && !c.CBin? && !c.CParen?
    ensures Arrow !in Yield(c)
  {
    if c.CIn? {
      assert ScalarOf(c.tokens[0]).Ok?;
      NoArrowListed(c.tokens[1..]);
    }
  }

  lemma BinArrows(op: BinOp, l: Cst, r: Cst)
    ensures Arrows(Yield(CBin(op, l, r))) == Arrows(Yield(l)) + Arrows(Yield(r)) + if op == Implies then 1 else 0
  {
    ArrowsJoin(Yield(l), [BinToken(op)]);
    ArrowsJoin(Yield(l) + [BinToken(op)], Yield(r));
    assert Arrows([BinToken(op)]) == if op == Implies then 1 else 0 by {
      assert [BinToken(op)][..0] == [];
    }
  }

  /** Without parentheses a readable formula has one implication at most, and then at its top. */
  lemma {:induction false} BareImpliesOnce(c: Cst)
    requires TlaPhrase(c) && Open !in Yield(c)
    ensures Arrows(Yield(c)) == if c.CBin? && c.op == Implies then 1 else 0
  {
    match c
    case CNot(inner) =>
      assert forall t :: t in Yield(inner) ==> t in Yield(c);
      BareImpliesOnce(inner);
      ArrowsJoin([Tilde], Yield(inner));
      NoArrows([Tilde]);
    case CBin(op, l, r) =>
      assert forall t :: t in Yield(l) || t in Yield(r) ==> t in Yield(c);
      BareImpliesOnce(l);
      BareImpliesOnce(r);
      BinArrows(op, l, r);
    case CParen(inner) =>
    case _ =>
      NoArrowInLeaf(c);
      NoArrows(Yield(c));
  }

  function Named(f: string): Cst {
    CFlag(Word(f))
  }

  function Chain(a: string, b: string, c: string): Cst {
    CBin(Implies, Named(a), CBin(Implies, Named(b), Named(c)))
  }

  lemma ChainArrows(a: string, b: string, c: string)
    ensures Open !in Yield(Chain(a, b, c)) && Arrows(Yield(Chain(a, b, c))) == 2
  {
    BinArrows(Implies, Named(b), Named(c));
    BinArrows(Implies, Named(a), CBin(Implies, Named(b), Named(c)));
    NoArrows([Word(a)]);
    NoArrows([Word(b)]);
    NoArrows([Word(c)]);
  }

  lemma NamedIsPhrase(f: string)
    requires IsName(f)
    ensures Rank(Named(f)) == 3 && AllSpellable(Yield(Named(f)))
  {
    LeafIsPhrase(Flag(f));
    LeafSpells(Flag(f));
  }

  lemma ChainIsPhrase(a: string, b: string, c: string)
    requires IsName(a) && IsName(b) && IsName(c)
    ensures Rank(Chain(a, b, c)) == 0 && AllSpellable(Yield(Chain(a, b, c)))
  {
    NamedIsPhrase(a);
    NamedIsPhrase(b);
    NamedIsPhrase(c);
    BinSpells(Implies, Named(b), Named(c));
    BinSpells(Implies, Named(a), CBin(Implies, Named(b), Named(c)));
  }

  lemma TwoArrowsAreRefused(ts: seq<Token>, c: Cst)
    requires Open !in ts && Arrows(ts) == 2 && Yield(c) == ts
    ensures !TlaPhrase(c)
  {
    if TlaPhrase(c) {
      BareImpliesOnce(c);
    }
  }

  lemma ChainMeans(a: string, b: string, c: string)
    ensures Meaning(Chain(a, b, c)) == Bin(Implies, Flag(a), Bin(Implies, Flag(b), Flag(c)))
  {
    assert Meaning(Named(a)) == Flag(a) && Meaning(Named(b)) == Flag(b) && Meaning(Named(c)) == Flag(c);
    assert Meaning(CBin(Implies, Named(b), Named(c))) == Bin(Implies, Flag(b), Flag(c));
  }

  lemma RefusedTokens(text: string, ts: seq<Token>)
    requires Lex(text).Ok? && ClassifyAll(Lex(text).value) == ts && Open !in ts && Arrows(ts) == 2
    ensures !Readable(text)
  {
    forall c | Yield(c) == ts ensures !TlaPhrase(c) {
      TwoArrowsAreRefused(ts, c);
    }
    ReadableIsTlaReadable(text);
  }

  /** a => b => c: the checker nests it to the right, TLA+ refuses it. */
  lemma ChainIsRefused(a: string, b: string, c: string)
    requires IsName(a) && IsName(b) && IsName(c)
    ensures Formula(Text(Chain(a, b, c))) == Ok(Bin(Implies, Flag(a), Bin(Implies, Flag(b), Flag(c))))
    ensures !Readable(Text(Chain(a, b, c)))
  {
    ChainIsPhrase(a, b, c);
    ChainArrows(a, b, c);
    ChainMeans(a, b, c);
    PhraseReadsBack(Chain(a, b, c));
    TextLexes(Chain(a, b, c));
    RefusedTokens(Text(Chain(a, b, c)), Yield(Chain(a, b, c)));
  }
}
