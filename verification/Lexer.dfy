/** The formula tokenizer: a scan over the text, and what it does to spaced-out tokens. */
module Lexer {
  import opened Formulas
  import opened Decimal

  predicate IsSpace(c: char) {
    c == ' ' || '\t' <= c <= '\r' || '\U{1c}' <= c <= '\U{1f}'
  }

  predicate IsAlpha(c: char) {
    'a' <= c <= 'z' || 'A' <= c <= 'Z'
  }

  predicate IsWordStart(c: char) {
    IsAlpha(c) || c == '_'
  }

  predicate IsWordChar(c: char) {
    IsWordStart(c) || IsDigit(c)
  }

  predicate IsSymbol(c: char) {
    c == '~' || c == '#' || c == '=' || c == '<' || c == '>' || c == '(' || c == ')'
    || c == '+' || c == '{' || c == '}' || c == ','
  }

  predicate IsWord(w: string) {
    |w| > 0 && IsWordStart(w[0]) && forall i :: 0 <= i < |w| ==> IsWordChar(w[i])
  }

  /** A string literal with its quotes and none inside. */
  predicate IsQuoted(w: string) {
    |w| >= 2 && w[0] == '"' && w[|w| - 1] == '"' && forall i :: 1 <= i < |w| - 1 ==> w[i] != '"'
  }

  const OPERATORS: set<string> := {"=>", "\\/", "/\\", "\\in"}

  /** What the tokenizer can produce. */
  predicate IsToken(w: string) {
    w in OPERATORS || (|w| == 1 && IsSymbol(w[0])) || IsQuoted(w) || AllDigits(w) || IsWord(w)
  }

  /** Length of the leading run of digits. */
  function DigitRun(s: string): (n: nat)
    ensures n <= |s|
  {
    if s == "" || !IsDigit(s[0]) then 0 else 1 + DigitRun(s[1..])
  }

  /** Length of the leading run of word characters. */
  function WordRun(s: string): (n: nat)
    ensures n <= |s|
  {
    if s == "" || !IsWordChar(s[0]) then 0 else 1 + WordRun(s[1..])
  }

  /** Distance to the first double quote, or the length when there is none. */
  function QuoteRun(s: string): (n: nat)
    ensures n <= |s|
  {
    if s == "" || s[0] == '"' then 0 else 1 + QuoteRun(s[1..])
  }

  lemma {:induction false} DigitRunIs(s: string)
    ensures var n := DigitRun(s); (forall i :: 0 <= i < n ==> IsDigit(s[i])) && (n < |s| ==> !IsDigit(s[n]))
  {
    if s != "" && IsDigit(s[0]) {
      DigitRunIs(s[1..]);
    }
  }

  lemma {:induction false} WordRunIs(s: string)
    ensures var n := WordRun(s); (forall i :: 0 <= i < n ==> IsWordChar(s[i])) && (n < |s| ==> !IsWordChar(s[n]))
  {
    if s != "" && IsWordChar(s[0]) {
      WordRunIs(s[1..]);
    }
  }

  lemma {:induction false} QuoteRunIs(s: string)
    ensures var n := QuoteRun(s); (forall i :: 0 <= i < n ==> s[i] != '"') && (n < |s| ==> s[n] == '"')
  {
    if s != "" && s[0] != '"' {
      QuoteRunIs(s[1..]);
    }
  }

  predicate IsPair(s: string, a: char, b: char) {
    |s| >= 2 && s[0] == a && s[1] == b
  }

  /** Length of the first token of a text that starts with a non-space. */
  function FirstToken(s: string): (r: Result<nat>)
    requires s != ""
    ensures r.Ok? ==> 1 <= r.value <= |s|
  {
    if IsPair(s, '=', '>') || IsPair(s, '\\', '/') || IsPair(s, '/', '\\') then Ok(2)
    else if IsPair(s, '\\', 'i') && |s| > 2 && s[2] == 'n' then Ok(3)
    else if IsSymbol(s[0]) then Ok(1)
    else if s[0] == '"' then
      var close := QuoteRun(s[1..]);
      if close == |s| - 1 then Raise(UnterminatedString) else Ok(close + 2)
    else if IsDigit(s[0]) then Ok(DigitRun(s))
    else if IsWordStart(s[0]) then Ok(WordRun(s))
    else Raise(CannotTokenize(s))
  }

  function Prepend(done: seq<string>, r: Result<seq<string>>): Result<seq<string>> {
    if r.Ok? then Ok(done + r.value) else r
  }

  /** The tokens of a text, or the exception raised at the first bad character. */
  function Lex(s: string): Result<seq<string>> {
    if s == "" then Ok([])
    else if IsSpace(s[0]) then Lex(s[1..])
    else
      var first := FirstToken(s);
      if first.Raise? then Raise(first.fault)
      else Prepend([s[..first.value]], Lex(s[first.value..]))
  }

  /** The source's loop: an index that moves one space or one token at a time. */
  method Tokenize(text: string) returns (r: Result<seq<string>>)
    ensures r == Lex(text)
  {
    var i := 0;
    var out := [];
    ghost var all := Lex(text);
    assert text[0..] == text;
    assert all.Ok? ==> [] + all.value == all.value;
    while i < |text|
      invariant 0 <= i <= |text|
      invariant all == Remaining(out, text, i)
    {
      var rest := text[i..];
      LexAt(out, text, i);
      if IsSpace(text[i]) {
        i := i + 1;
      } else {
        var first := FirstToken(rest);
        if first.Raise? {
          return Raise(first.fault);
        }
        out := out + [rest[..first.value]];
        i := i + first.value;
      }
    }
    assert text[i..] == "" && out + [] == out;
    return Ok(out);
  }

  /** What the loop still owes at position `i`, with `done` collected. */
  function Remaining(done: seq<string>, text: string, i: nat): Result<seq<string>>
    requires i <= |text|
  {
    Prepend(done, Lex(text[i..]))
  }

  /** One turn of the loop, at any position. */
  lemma LexAt(done: seq<string>, text: string, i: nat)
    requires i < |text|
    ensures if IsSpace(text[i]) then Remaining(done, text, i) == Remaining(done, text, i + 1)
            else
              var first := FirstToken(text[i..]);
              if first.Raise? then Remaining(done, text, i) == Raise(first.fault)
              else i + first.value <= |text| && 0 < first.value
                   && Remaining(done, text, i) == Remaining(done + [text[i..][..first.value]], text, i + first.value)
  {
    var rest := text[i..];
    if IsSpace(text[i]) {
      assert rest[1..] == text[i + 1..];
    } else if FirstToken(rest).Ok? {
      LexStep(done, rest);
      assert rest[FirstToken(rest).value..] == text[i + FirstToken(rest).value..];
    }
  }

  lemma LexStep(done: seq<string>, s: string)
    requires s != "" && !IsSpace(s[0]) && FirstToken(s).Ok?
    ensures var n := FirstToken(s).value;
            Prepend(done, Lex(s)) == Prepend(done + [s[..n]], Lex(s[n..]))
  {
    var n := FirstToken(s).value;
    PrependTwice(done, [s[..n]], Lex(s[n..]));
  }

  lemma PrependTwice(a: seq<string>, b: seq<string>, r: Result<seq<string>>)
    ensures Prepend(a, Prepend(b, r)) == Prepend(a + b, r)
  {
    if r.Ok? {
      assert a + (b + r.value) == (a + b) + r.value;
    }
  }

  /** Every token followed by one blank. */
  function Spaced(tokens: seq<string>): string {
    if tokens == [] then "" else tokens[0] + " " + Spaced(tokens[1..])
  }

  /** A token is recognised whole when a blank follows it. */
  lemma FirstTokenOf(w: string, rest: string)
    requires IsToken(w)
    ensures FirstToken(w + " " + rest) == Ok(|w|)
    ensures !IsSpace(w[0])
  {
    var s := w + " " + rest;
    assert s[..|w|] == w && s[|w|] == ' ';
    if w in OPERATORS {
      assert s[0] == w[0] && s[1] == w[1];
      assert w <= s;
    } else if |w| == 1 && IsSymbol(w[0]) {
      assert s[0] == w[0] && s[1] == ' ';
    } else if IsQuoted(w) {
      var t := s[1..];
      assert forall i :: 0 <= i < |w| - 2 ==> t[i] == w[i + 1];
      assert t[|w| - 2] == '"';
      QuoteRunIs(t);
      assert QuoteRun(t) == |w| - 2;
    } else if AllDigits(w) {
      assert forall i :: 0 <= i < |w| ==> s[i] == w[i];
      DigitRunIs(s);
      assert DigitRun(s) == |w|;
    } else {
      assert forall i :: 0 <= i < |w| ==> s[i] == w[i];
      WordRunIs(s);
      assert WordRun(s) == |w|;
    }
  }

  /** Tokenizing undoes spacing, for every list of tokens. */
  lemma {:induction false} LexSpaced(tokens: seq<string>)
    requires forall i :: 0 <= i < |tokens| ==> IsToken(tokens[i])
    ensures Lex(Spaced(tokens)) == Ok(tokens)
  {
    if tokens != [] {
      var w, rest := tokens[0], Spaced(tokens[1..]);
      LexSpaced(tokens[1..]);
      LexOneAhead(w, rest);
      assert [w] + tokens[1..] == tokens;
    }
  }

  lemma LexOneAhead(w: string, rest: string)
    requires IsToken(w) && Lex(rest).Ok?
    ensures Lex(w + " " + rest) == Ok([w] + Lex(rest).value)
  {
    var s := w + " " + rest;
    FirstTokenOf(w, rest);
    assert s[0] == w[0] && s[..|w|] == w && s[|w|..] == " " + rest;
    assert (" " + rest)[1..] == rest;
  }

  /** The converse: whatever the tokenizer returns is a list of tokens. */
  lemma {:induction false} LexGivesTokens(s: string)
    requires Lex(s).Ok?
    ensures forall i :: 0 <= i < |Lex(s).value| ==> IsToken(Lex(s).value[i])
  {
    if s == "" {
    } else if IsSpace(s[0]) {
      LexGivesTokens(s[1..]);
    } else {
      var n := FirstToken(s).value;
      var w := s[..n];
      LexGivesTokens(s[n..]);
      if IsPair(s, '=', '>') || IsPair(s, '\\', '/') || IsPair(s, '/', '\\')
         || (IsPair(s, '\\', 'i') && |s| > 2 && s[2] == 'n') {
        assert w == "=>" || w == "\\/" || w == "/\\" || w == "\\in";
      } else if IsSymbol(s[0]) {
        assert IsToken(w);
      } else if s[0] == '"' {
        var t := s[1..];
        QuoteRunIs(t);
        assert t[n - 2] == '"';
        assert forall i :: 1 <= i < n - 1 ==> w[i] == t[i - 1];
        assert IsQuoted(w);
      } else {
        DigitRunIs(s);
        WordRunIs(s);
      }
    }
  }
}
