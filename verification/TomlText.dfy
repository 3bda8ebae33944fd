/** TOML basic strings: the escaper of the seal command against a decoder of TOML v1.0.0, section "String". */
module TomlText {
  import opened Basics

  // ----- writing -----

  function UpperHex(d: nat): char
    requires d < 16
  {
    if d < 10 then ('0' as int + d) as char else ('A' as int + d - 10) as char
  }

  function Escape(c: char): string {
    if c == '\U{08}' then "\\b"
    else if c == '\t' then "\\t"
    else if c == '\n' then "\\n"
    else if c == '\U{0C}' then "\\f"
    else if c == '\r' then "\\r"
    else if c == '"' then "\\\""
    else if c == '\\' then "\\\\"
    else if c <= '\U{1F}' || c == '\U{7F}' then
      var n := c as int;
      ['\\', 'u', UpperHex(n / 4096 % 16), UpperHex(n / 256 % 16), UpperHex(n / 16 % 16), UpperHex(n % 16)]
    else [c]
  }

  function EscapeAll(value: string): string {
    if value == "" then "" else EscapeAll(value[..|value| - 1]) + Escape(value[|value| - 1])
  }

  function BasicString(value: string): string {
    ['"'] + EscapeAll(value) + ['"']
  }

  method WriteBasicString(value: string) returns (out: string)
    ensures out == BasicString(value)
  {
    out := "\"";
    for i := 0 to |value|
      invariant out == ['"'] + EscapeAll(value[..i])
    {
      out := out + Escape(value[i]);
      assert value[..i + 1][..i] == value[..i];
    }
    assert value[..|value|] == value;
    out := out + "\"";
  }

  // ----- reading -----

  function HexDigit(c: char): Option<nat> {
    if '0' <= c <= '9' then Some(c as int - '0' as int)
    else if 'A' <= c <= 'F' then Some(c as int - 'A' as int + 10)
    else if 'a' <= c <= 'f' then Some(c as int - 'a' as int + 10)
    else None
  }

  function HexValue(s: string): Option<nat> {
    if s == "" then Some(0)
    else
      var (high, low) := (HexValue(s[..|s| - 1]), HexDigit(s[|s| - 1]));
      if high.Some? && low.Some? then Some(16 * high.value + low.value) else None
  }

  /** The character a code point escape names; surrogates and overlong codes name none. */
  function CodePoint(s: string): Option<char> {
    var n := HexValue(s);
    if n.Some? && (n.value < 0xD800 || 0xE000 <= n.value < 0x11_0000) then Some(n.value as char) else None
  }

  predicate IsControl(c: char) {
    (c <= '\U{1F}' && c != '\t') || c == '\U{7F}'
  }

  function SimpleEscape(c: char): Option<char> {
    if c == 'b' then Some('\U{08}')
    else if c == 't' then Some('\t')
    else if c == 'n' then Some('\n')
    else if c == 'f' then Some('\U{0C}')
    else if c == 'r' then Some('\r')
    else if c == '"' then Some('"')
    else if c == '\\' then Some('\\')
    else None
  }

  /** One character of a basic string and how much text it takes. */
  function TakeChar(s: string): Option<(char, nat)> {
    if s == "" || s[0] == '"' || IsControl(s[0]) then None
    else if s[0] != '\\' then Some((s[0], 1))
    else if |s| < 2 then None
    else if SimpleEscape(s[1]).Some? then Some((SimpleEscape(s[1]).value, 2))
    else if s[1] == 'u' && |s| >= 6 && CodePoint(s[2..6]).Some? then Some((CodePoint(s[2..6]).value, 6))
    else if s[1] == 'U' && |s| >= 10 && CodePoint(s[2..10]).Some? then Some((CodePoint(s[2..10]).value, 10))
    else None
  }

  /** The string whose opening quote has been read, and what follows its closing quote. */
  function TakeBody(s: string): Option<(string, string)>
    decreases |s|
  {
    if s == "" then None
    else if s[0] == '"' then Some(("", s[1..]))
    else
      var first := TakeChar(s);
      if first.None? || first.value.1 == 0 || first.value.1 > |s| then None
      else
        var more := TakeBody(s[first.value.1..]);
        if more.None? then None else Some(([first.value.0] + more.value.0, more.value.1))
  }

  function TakeString(s: string): Option<(string, string)> {
    if s != "" && s[0] == '"' then TakeBody(s[1..]) else None
  }

  // ----- the round trip -----

  lemma HexReadsBack(n: nat)
    requires n < 0x80
    ensures HexValue([UpperHex(n / 4096 % 16), UpperHex(n / 256 % 16), UpperHex(n / 16 % 16), UpperHex(n % 16)]) == Some(n)
  {
    var (c, d) := (UpperHex(n / 16 % 16), UpperHex(n % 16));
    assert HexValue(['0']) == Some(0) by { assert ['0'][..0] == ""; }
    assert HexValue(['0', '0']) == Some(0) by { assert ['0', '0'][..1] == ['0']; }
    assert HexValue(['0', '0', c]) == Some(n / 16) by { assert ['0', '0', c][..2] == ['0', '0']; }
    assert ['0', '0', c, d][..3] == ['0', '0', c];
  }

  lemma EscapeReadsBack(c: char, rest: string)
    ensures Escape(c) != "" && Escape(c)[0] != '"' && TakeChar(Escape(c) + rest) == Some((c, |Escape(c)|))
  {
    var s := Escape(c) + rest;
    if |Escape(c)| == 6 {
      var n := c as int;
      HexReadsBack(n);
      assert s[2..6] == [UpperHex(n / 4096 % 16), UpperHex(n / 256 % 16), UpperHex(n / 16 % 16), UpperHex(n % 16)];
    }
  }

  lemma Regroup(e: string, body: string, rest: string)
    ensures (e + body) + ['"'] + rest == e + (body + ['"'] + rest)
  {
  }

  lemma TakesOneMore(e: string, c: char, more: string)
    requires e != "" && e[0] != '"' && TakeChar(e + more) == Some((c, |e|)) && TakeBody(more).Some?
    ensures TakeBody(e + more) == Some(([c] + TakeBody(more).value.0, TakeBody(more).value.1))
  {
    assert (e + more)[|e|..] == more;
  }

  lemma {:induction false} BodyReadsBack(value: string, rest: string)
    ensures TakeBody(EscapeAll(value) + ['"'] + rest) == Some((value, rest))
  {
    if value == "" {
      assert EscapeAll(value) + ['"'] + rest == ['"'] + rest;
      assert (['"'] + rest)[1..] == rest;
    } else {
      EscapeAllSplits(value);
      var (e, more) := (Escape(value[0]), EscapeAll(value[1..]) + ['"'] + rest);
      Regroup(e, EscapeAll(value[1..]), rest);
      EscapeReadsBack(value[0], more);
      BodyReadsBack(value[1..], rest);
      TakesOneMore(e, value[0], more);
      assert [value[0]] + value[1..] == value;
    }
  }

  lemma {:induction false} EscapeAllSplits(value: string)
    requires value != ""
    ensures EscapeAll(value) == Escape(value[0]) + EscapeAll(value[1..])
  {
    if |value| > 1 {
      var n := |value| - 1;
      EscapeAllSplits(value[..n]);
      assert value[..n][1..] == value[1..][..n - 1];
    }
  }

  /** Every string, written as a basic string before any text, reads back exactly. */
  lemma BasicStringReadsBack(value: string, rest: string)
    ensures TakeString(BasicString(value) + rest) == Some((value, rest))
  {
    BodyReadsBack(value, rest);
    AfterQuote(EscapeAll(value), rest);
  }

  lemma AfterQuote(body: string, rest: string)
    ensures (['"'] + body + ['"'] + rest)[1..] == body + ['"'] + rest
  {
  }

  /** A written string stays on its line. */
  lemma {:induction false} EscapedHasNoControls(value: string)
    ensures forall c :: c in EscapeAll(value) ==> !IsControl(c) && c != '\t'
  {
    if value != "" {
      EscapedHasNoControls(value[..|value| - 1]);
    }
  }
}
