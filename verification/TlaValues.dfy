/** How TLA+ reads the right side of an assignment, and that it is how the checker does. */
module TlaValues {
  import opened Basics
  import opened Formulas
  import opened Decimal
  import opened Lexer
  import opened Compiler
  import opened TlaGrammar

  predicate Blank(s: string) {
    forall i :: 0 <= i < |s| ==> IsSpace(s[i])
  }

  /** A value TLA+ reads back as written: no quote ends its string and no backslash starts an escape. */
  predicate Plain(v: Scalar) {
    v.Str? ==> forall i :: 0 <= i < |v.s| ==> v.s[i] != '"' && v.s[i] != '\\'
  }

  predicate Literal(w: string, v: Scalar) {
    match v
    case Bool(b) => w == if b then "TRUE" else "FALSE"
    case Int(n) => AllDigits(w) && n == Value(w)
    case Str(s) => w == ['"'] + s + ['"'] && Plain(v)
  }

  /** A literal, with blanks around it. */
  ghost predicate ReadsLiteral(text: string, v: Scalar) {
    exists a: string, w: string, b: string :: Blank(a) && Blank(b) && text == a + w + b && Literal(w, v)
  }

  /** A name plus a number, with blanks anywhere between. */
  predicate SumIs(text: string, a: string, f: string, b: string, c: string, n: string, d: string) {
    && Blank(a) && Blank(b) && Blank(c) && Blank(d) && TlaName(f) && AllDigits(n)
    && text == a + (f + b + ['+'] + (c + n)) + d
  }

  ghost predicate ReadsSum(text: string, f: string, add: nat) {
    exists a: string, b: string, c: string, n: string, d: string :: SumIs(text, a, f, b, c, n, d) && Value(n) == add
  }

  /** The expression as TLA+ reads it. */
  ghost predicate TlaRhs(text: string, rhs: Rhs) {
    match rhs
    case Lit(v) => ReadsLiteral(text, v)
    case Plus(f, add) => ReadsSum(text, f, add)
  }

  /** A right side TLA+ can read: its values are plain and its field is a name. */
  predicate Speakable(rhs: Rhs) {
    match rhs
    case Lit(v) => Plain(v)
    case Plus(f, _) => TlaName(f)
  }

  // ----- stripping blanks -----

  predicate Trimmed(w: string) {
    w != "" && !IsSpace(w[0]) && !IsSpace(w[|w| - 1])
  }

  lemma {:induction false} LeftStrips(a: string, w: string)
    requires Blank(a) && (w == "" || !IsSpace(w[0]))
    ensures StripLeft(a + w) == w
  {
    if a == "" {
      assert a + w == w;
    } else {
      assert (a + w)[1..] == a[1..] + w;
      LeftStrips(a[1..], w);
    }
  }

  lemma {:induction false} RightStrips(w: string, b: string)
    requires Blank(b) && (w == "" || !IsSpace(w[|w| - 1]))
    ensures StripRight(w + b) == w
  {
    if b == "" {
      assert w + b == w;
    } else {
      assert (w + b)[..|w + b| - 1] == w + b[..|b| - 1];
      RightStrips(w, b[..|b| - 1]);
    }
  }

  lemma Strips(a: string, w: string, b: string)
    requires Blank(a) && Blank(b) && Trimmed(w)
    ensures Strip(a + w + b) == w
  {
    assert a + w + b == a + (w + b);
    LeftStrips(a, w + b);
    RightStrips(w, b);
  }

  lemma {:induction false} LeftSplits(s: string) returns (a: string)
    ensures Blank(a) && s == a + StripLeft(s) && (StripLeft(s) == "" || !IsSpace(StripLeft(s)[0]))
  {
    if s != "" && IsSpace(s[0]) {
      var rest := LeftSplits(s[1..]);
      a := [s[0]] + rest;
      assert s == [s[0]] + s[1..];
    } else {
      a := "";
    }
  }

  lemma {:induction false} RightSplits(s: string) returns (b: string)
    ensures Blank(b) && s == StripRight(s) + b && StripRight(s) <= s
    ensures StripRight(s) == "" || !IsSpace(StripRight(s)[|StripRight(s)| - 1])
  {
    if s != "" && IsSpace(s[|s| - 1]) {
      var rest := RightSplits(s[..|s| - 1]);
      b := rest + [s[|s| - 1]];
      assert s == s[..|s| - 1] + [s[|s| - 1]];
    } else {
      b := "";
    }
  }

  lemma Splits(s: string) returns (a: string, b: string)
    ensures Blank(a) && Blank(b) && s == a + Strip(s) + b
    ensures Strip(s) == "" || Trimmed(Strip(s))
  {
    a := LeftSplits(s);
    b := RightSplits(StripLeft(s));
    assert a + Strip(s) + b == a + (Strip(s) + b);
    if Strip(s) != "" {
      assert Strip(s)[0] == StripLeft(s)[0];
    }
  }

  // ----- where the plus sign is -----

  lemma {:induction false} PlusAt(u: string, v: string)
    requires '+' !in u
    ensures PlusRun(u + ['+'] + v) == |u|
  {
    var s := u + ['+'] + v;
    if u != "" {
      assert s[1..] == u[1..] + ['+'] + v;
      PlusAt(u[1..], v);
    }
  }

  lemma {:induction false} NoPlus(u: string)
    ensures PlusRun(u) == |u| <==> '+' !in u
  {
    if u != "" {
      NoPlus(u[1..]);
      assert u == [u[0]] + u[1..];
    }
  }

  lemma {:induction false} PlusIsFirst(s: string)
    ensures '+' !in s[..PlusRun(s)]
  {
    if s != "" && s[0] != '+' {
      PlusIsFirst(s[1..]);
      assert s[..PlusRun(s)] == [s[0]] + s[1..][..PlusRun(s[1..])];
    }
  }

  // ----- TLA+ reads what the checker reads -----

  lemma LiteralIsTrimmed(w: string, v: Scalar)
    requires Literal(w, v)
    ensures Trimmed(w)
  {
    match v
    case Bool(b) => assert w[0] == (if b then 'T' else 'F') && w[|w| - 1] == 'E';
    case Int(n) => assert IsDigit(w[0]) && IsDigit(w[|w| - 1]);
    case Str(s) => assert w[0] == '"' && w[|w| - 1] == '"';
  }

  lemma LiteralParses(w: string, v: Scalar, text: string)
    requires Literal(w, v) && Strip(text) == w
    ensures ParseRhs(text) == Ok(Lit(v))
  {
    match v
    case Bool(b) =>
    case Int(n) =>
      assert IsDigit(w[0]);
      assert w != "TRUE" && w != "FALSE" by { assert "TRUE"[0] == 'T' && "FALSE"[0] == 'F'; }
    case Str(s) =>
      assert w[0] == '"' && w[1..|w| - 1] == s;
      assert w != "TRUE" && w != "FALSE" by { assert "TRUE"[0] == 'T' && "FALSE"[0] == 'F'; }
  }

  lemma NameIsTrimmed(f: string)
    requires TlaName(f)
    ensures Trimmed(f) && '+' !in f && f[0] != '"'
  {
    assert IsWordChar(f[0]) && IsWordChar(f[|f| - 1]);
    assert forall i :: 0 <= i < |f| ==> IsWordChar(f[i]) && f[i] != '+';
  }

  lemma BlankHasNoPlus(b: string)
    requires Blank(b)
    ensures '+' !in b
  {
  }

  lemma NumberIsTrimmed(n: string)
    requires AllDigits(n)
    ensures Trimmed(n) && '+' !in n
  {
    assert IsDigit(n[0]) && IsDigit(n[|n| - 1]);
    assert forall i :: 0 <= i < |n| ==> IsDigit(n[i]);
  }

  lemma PartsStrip(f: string, b: string, c: string, n: string)
    requires Blank(b) && Blank(c) && Trimmed(f) && Trimmed(n)
    ensures Strip(f + b) == f && Strip(c + n) == n
  {
    assert "" + f + b == f + b && c + n + "" == c + n;
    Strips("", f, b);
    Strips(c, n, "");
  }

  /** A plus with a name before it and a number after it is taken for a sum. */
  lemma PlusParses(left: string, right: string, f: string, n: string, text: string)
    requires Strip(text) == left + ['+'] + right && left != "" && left[0] != '"' && '+' !in left && '+' !in right
    requires Strip(left) == f && Strip(right) == n && AllDigits(n)
    ensures ParseRhs(text) == Ok(Plus(f, Value(n)))
  {
    var (w, p) := (left + ['+'] + right, |left|);
    assert w[..p] == left && w[p + 1..] == right;
    PlusAt(left, right);
    NoPlus(right);
    SumIsNoLiteral(w, p);
  }

  /** The sum between its outer blanks. */
  lemma SumParses(f: string, b: string, c: string, n: string, text: string)
    requires Blank(b) && Blank(c) && TlaName(f) && AllDigits(n) && Strip(text) == f + b + ['+'] + (c + n)
    ensures ParseRhs(text) == Ok(Plus(f, Value(n)))
  {
    NameIsTrimmed(f);
    NumberIsTrimmed(n);
    BlankHasNoPlus(b);
    BlankHasNoPlus(c);
    PartsStrip(f, b, c, n);
    PlusParses(f + b, c + n, f, n, text);
  }

  lemma SumIsNoLiteral(w: string, p: nat)
    requires p < |w| && w[p] == '+' && w[0] != '"'
    ensures w != "TRUE" && w != "FALSE" && !AllDigits(w)
  {
    assert forall i :: 0 <= i < |"TRUE"| ==> "TRUE"[i] != '+';
    assert forall i :: 0 <= i < |"FALSE"| ==> "FALSE"[i] != '+';
    assert !IsDigit(w[p]);
  }

  lemma SumIsTrimmed(f: string, b: string, c: string, n: string)
    requires TlaName(f) && AllDigits(n)
    ensures Trimmed(f + b + ['+'] + (c + n))
  {
    var w := f + b + ['+'] + (c + n);
    NameIsTrimmed(f);
    assert w[0] == f[0] && w[|w| - 1] == n[|n| - 1] && IsDigit(n[|n| - 1]);
  }

  lemma TlaRhsParses(text: string, rhs: Rhs)
    requires TlaRhs(text, rhs)
    ensures ParseRhs(text) == Ok(rhs) && Speakable(rhs)
  {
    match rhs
    case Lit(v) =>
      var a, w, b :| Blank(a) && Blank(b) && text == a + w + b && Literal(w, v);
      LiteralIsTrimmed(w, v);
      Strips(a, w, b);
      LiteralParses(w, v, text);
    case Plus(f, add) =>
      var a, b, c, n, d :| SumIs(text, a, f, b, c, n, d) && Value(n) == add;
      SumIsTrimmed(f, b, c, n);
      Strips(a, f + b + ['+'] + (c + n), d);
      SumParses(f, b, c, n, text);
  }

  lemma ParsedLiteralReads(text: string, v: Scalar)
    requires ParseRhs(text) == Ok(Lit(v)) && Plain(v)
    ensures ReadsLiteral(text, v)
  {
    var a, b := Splits(text);
    var w := Strip(text);
    assert Literal(w, v) by {
      if v.Str? {
        assert w == ['"'] + v.s + ['"'];
      }
    }
  }

  lemma ParsedSumReads(text: string, f: string, add: nat)
    requires ParseRhs(text) == Ok(Plus(f, add)) && TlaName(f)
    ensures ReadsSum(text, f, add)
  {
    var a, d := Splits(text);
    var w := Strip(text);
    var p := PlusRun(w);
    var a', b := Splits(w[..p]);
    var c, d' := Splits(w[p + 1..]);
    var n := Strip(w[p + 1..]);
    OuterBlanksAreOutside(w, p, a', f, b, c, n, d');
    assert SumIs(text, a, f, b, c, n, d);
  }

  lemma OuterBlanksAreOutside(w: string, p: nat, a: string, f: string, b: string, c: string, n: string, d: string)
    requires p < |w| && w[p] == '+' && Trimmed(w) && Blank(a) && Blank(d) && f != "" && n != ""
    requires w[..p] == a + f + b && w[p + 1..] == c + n + d
    ensures w == f + b + ['+'] + (c + n)
  {
    assert w == w[..p] + ['+'] + w[p + 1..];
  }

  /** For every text: TLA+ reads a right side if and only if the checker does and it can be spoken. */
  lemma TlaRhsIsParsed(text: string, rhs: Rhs)
    ensures TlaRhs(text, rhs) <==> ParseRhs(text) == Ok(rhs) && Speakable(rhs)
  {
    if TlaRhs(text, rhs) {
      TlaRhsParses(text, rhs);
    } else if ParseRhs(text) == Ok(rhs) && Speakable(rhs) {
      match rhs
      case Lit(v) => ParsedLiteralReads(text, v);
      case Plus(f, add) => ParsedSumReads(text, f, add);
    }
  }
}
