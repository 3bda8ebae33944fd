/** The line rewriter of the seal command: secret assignments become sealed references, other lines stay. */
module Rewriter {
  import opened Basics
  import opened Text
  import opened TomlText

  /** Unicode White_Space, as Rust trims it. */
  predicate IsWhite(c: char) {
    '\t' <= c <= '\r' || c == ' ' || c == '\U{85}' || c == '\U{A0}' || c == '\U{1680}' || '\U{2000}' <= c <= '\U{200A}'
    || c == '\U{2028}' || c == '\U{2029}' || c == '\U{202F}' || c == '\U{205F}' || c == '\U{3000}'
  }

  function TrimStart(s: string): (r: string)
    ensures |r| <= |s|
  {
    if s != "" && IsWhite(s[0]) then TrimStart(s[1..]) else s
  }

  function Indent(line: string): string {
    line[..|line| - |TrimStart(line)|]
  }

  datatype Target = Target(field: string, entry: string)

  /** The line assigns `field`, after its indentation. */
  predicate Matches(line: string, field: string) {
    var trimmed := TrimStart(line);
    field <= trimmed && ['='] <= TrimStart(trimmed[|field|..])
  }

  function FirstMatch(line: string, targets: seq<Target>): (r: Option<Target>)
    ensures r.Some? ==> r.value in targets && Matches(line, r.value.field)
    ensures r.None? ==> forall t :: t in targets ==> !Matches(line, t.field)
  {
    if targets == [] then None
    else if Matches(line, targets[0].field) then Some(targets[0])
    else FirstMatch(line, targets[1..])
  }

  function Spec(bundle: string, entry: string): string {
    bundle + ['#'] + entry
  }

  /** The text after a sealed line's key. */
  function Assigned(spec: string): string {
    " = { sealed = " + (BasicString(spec) + " }")
  }

  function SealedLine(indent: string, field: string, spec: string): string {
    indent + (field + Assigned(spec))
  }

  function RewriteLine(line: string, bundle: string, targets: seq<Target>): string {
    var hit := FirstMatch(line, targets);
    if hit.None? then line else SealedLine(Indent(line), hit.value.field, Spec(bundle, hit.value.entry))
  }

  function RewriteEach(lines: seq<string>, bundle: string, targets: seq<Target>): seq<string> {
    seq(|lines|, i requires 0 <= i < |lines| => RewriteLine(lines[i], bundle, targets))
  }

  function Rewrite(text: string, bundle: string, targets: seq<Target>): string {
    Unlines(RewriteEach(Lines(text), bundle, targets))
  }

  method RewriteOne(line: string, bundle: string, targets: seq<Target>) returns (out: string)
    ensures out == RewriteLine(line, bundle, targets)
  {
    var trimmed := TrimStart(line);
    var indent := line[..|line| - |trimmed|];
    for j := 0 to |targets|
      invariant FirstMatch(line, targets) == FirstMatch(line, targets[j..])
    {
      var t := targets[j];
      if t.field <= trimmed {
        var rest := TrimStart(trimmed[|t.field|..]);
        if ['='] <= rest {
          return SealedLine(indent, t.field, Spec(bundle, t.entry));
        }
      }
      assert targets[j..][1..] == targets[j + 1..];
    }
    return line;
  }

  method RewriteSecrets(text: string, bundle: string, targets: seq<Target>) returns (out: string)
    ensures out == Rewrite(text, bundle, targets)
  {
    out := "";
    var lines := Lines(text);
    for i := 0 to |lines|
      invariant out == Unlines(RewriteEach(lines[..i], bundle, targets))
    {
      var line := RewriteOne(lines[i], bundle, targets);
      RewriteOneMore(lines, i, bundle, targets);
      out := out + line + ['\n'];
    }
    assert lines[..|lines|] == lines;
  }

  lemma RewriteOneMore(lines: seq<string>, i: nat, bundle: string, targets: seq<Target>)
    requires i < |lines|
    ensures Unlines(RewriteEach(lines[..i + 1], bundle, targets))
         == Unlines(RewriteEach(lines[..i], bundle, targets)) + RewriteLine(lines[i], bundle, targets) + ['\n']
  {
    UnlinesOneMore(RewriteEach(lines[..i], bundle, targets), RewriteLine(lines[i], bundle, targets));
    assert RewriteEach(lines[..i + 1], bundle, targets)
        == RewriteEach(lines[..i], bundle, targets) + [RewriteLine(lines[i], bundle, targets)];
  }

  lemma {:induction false} UnlinesOneMore(lines: seq<string>, line: string)
    ensures Unlines(lines + [line]) == Unlines(lines) + line + ['\n']
  {
    if lines != [] {
      UnlinesOneMore(lines[1..], line);
      assert (lines + [line])[1..] == lines[1..] + [line];
    }
  }

  // ----- keys -----

  predicate IsBare(c: char) {
    'a' <= c <= 'z' || 'A' <= c <= 'Z' || '0' <= c <= '9' || c == '_' || c == '-'
  }

  /** A TOML bare key, as every secret field name is. */
  predicate BareKey(s: string) {
    s != "" && forall i :: 0 <= i < |s| ==> IsBare(s[i])
  }

  predicate BareTargets(targets: seq<Target>) {
    forall t :: t in targets ==> BareKey(t.field)
  }

  predicate AllWhite(s: string) {
    forall i :: 0 <= i < |s| ==> IsWhite(s[i])
  }

  lemma {:induction false} TrimSplits(s: string)
    ensures AllWhite(Indent(s)) && s == Indent(s) + TrimStart(s)
    ensures TrimStart(s) != "" ==> !IsWhite(TrimStart(s)[0])
  {
    if s != "" && IsWhite(s[0]) {
      TrimSplits(s[1..]);
      assert Indent(s) == [s[0]] + Indent(s[1..]);
    }
  }

  lemma {:induction false} TrimsItsIndent(indent: string, s: string)
    requires AllWhite(indent) && (s != "" ==> !IsWhite(s[0]))
    ensures TrimStart(indent + s) == s
  {
    if indent == "" {
      assert indent + s == s;
    } else {
      assert (indent + s)[1..] == indent[1..] + s;
      TrimsItsIndent(indent[1..], s);
    }
  }

  lemma {:induction false} TrimsAlike(s: string, tail: string)
    requires TrimStart(s) != ""
    ensures TrimStart(s + tail) == TrimStart(s) + tail
  {
    if s != "" && IsWhite(s[0]) {
      assert (s + tail)[1..] == s[1..] + tail;
      TrimsAlike(s[1..], tail);
    }
  }

  lemma KeyPrefix(key: string, rest: string, field: string)
    requires BareKey(key) && BareKey(field) && field <= key + rest && rest != "" && rest[0] == ' '
    ensures field <= key
  {
    assert forall i :: 0 <= i < |field| ==> field[i] == (key + rest)[i];
    assert (key + rest)[|key|] == ' ';
    assert |field| <= |key|;
  }

  /** An assignment of one bare key is matched by that key and no other. */
  lemma MatchesItsKey(indent: string, key: string, rest: string, field: string)
    requires AllWhite(indent) && BareKey(key) && BareKey(field) && ['='] <= TrimStart(rest)
    requires rest[0] == ' '
    ensures Matches(indent + (key + rest), field) <==> field == key
  {
    var t := key + rest;
    TrimsItsIndent(indent, t);
    if field == key {
      assert t[|key|..] == rest;
    } else if field <= t {
      KeyPrefix(key, rest, field);
      assert t[|field|..][0] == key[|field|];
    }
  }

  /** Dropping a final carriage return creates no match. */
  lemma StripMatchesLess(line: string, field: string)
    requires field != "" && Matches(StripCr(line), field)
    ensures Matches(line, field)
  {
    var s := StripCr(line);
    if s != line {
      assert line == s + ['\r'];
      TrimsAlike(s, ['\r']);
      var rest := TrimStart(s)[|field|..];
      TrimsAlike(rest, ['\r']);
      assert (TrimStart(s) + ['\r'])[|field|..] == rest + ['\r'];
    }
  }

  // ----- the lines a rewrite gives -----

  lemma AssignedIsAssignment(spec: string)
    ensures Assigned(spec)[0] == ' ' && ['='] <= TrimStart(Assigned(spec))
  {
    assert Assigned(spec)[1] == '=';
    assert Assigned(spec)[1..][0] == '=';
  }

  lemma RewrittenMatches(line: string, bundle: string, targets: seq<Target>, field: string)
    requires BareTargets(targets) && BareKey(field) && FirstMatch(line, targets).Some?
    ensures Matches(RewriteLine(line, bundle, targets), field) <==> field == FirstMatch(line, targets).value.field
  {
    var t := FirstMatch(line, targets).value;
    var spec := Spec(bundle, t.entry);
    TrimSplits(line);
    AssignedIsAssignment(spec);
    MatchesItsKey(Indent(line), t.field, Assigned(spec), field);
  }

  /** Matching depends on the matched keys alone. */
  lemma {:induction false} SameFirstMatch(a: string, b: string, targets: seq<Target>)
    requires FirstMatch(a, targets).Some?
    requires forall t :: t in targets ==> (Matches(b, t.field) <==> t.field == FirstMatch(a, targets).value.field)
    ensures FirstMatch(b, targets) == FirstMatch(a, targets)
  {
    if !Matches(a, targets[0].field) {
      assert FirstMatch(a, targets) == FirstMatch(a, targets[1..]);
      assert Matches(a, FirstMatch(a, targets).value.field);
      SameFirstMatch(a, b, targets[1..]);
    }
  }

  lemma RewritesTheSame(line: string, bundle: string, targets: seq<Target>)
    requires BareTargets(targets) && FirstMatch(line, targets).Some?
    ensures RewriteLine(RewriteLine(line, bundle, targets), bundle, targets) == RewriteLine(line, bundle, targets)
  {
    var again := RewriteLine(line, bundle, targets);
    forall t | t in targets ensures Matches(again, t.field) <==> t.field == FirstMatch(line, targets).value.field {
      RewrittenMatches(line, bundle, targets, t.field);
    }
    SameFirstMatch(line, again, targets);
    var spec := Spec(bundle, FirstMatch(line, targets).value.entry);
    TrimSplits(line);
    TrimsItsIndent(Indent(line), FirstMatch(line, targets).value.field + Assigned(spec));
  }

  lemma SealedLineIsALine(line: string, bundle: string, targets: seq<Target>)
    requires BareTargets(targets) && FirstMatch(line, targets).Some? && '\n' !in line
    ensures var r := RewriteLine(line, bundle, targets); '\n' !in r && StripCr(r) == r
  {
    var spec := Spec(bundle, FirstMatch(line, targets).value.entry);
    AssignedStaysOnItsLine(spec);
    assert '\n' !in Indent(line);
  }

  lemma AssignedStaysOnItsLine(spec: string)
    ensures '\n' !in Assigned(spec) && Assigned(spec)[|Assigned(spec)| - 1] == '}'
  {
    EscapedHasNoControls(spec);
    assert '\n' !in BasicString(spec);
    assert '\n' !in " = { sealed = " && '\n' !in " }";
  }

  /** Reading a rewrite back: the rewritten target lines, and the others less a carriage return. */
  lemma LinesOfRewrite(text: string, bundle: string, targets: seq<Target>)
    requires BareTargets(targets)
    ensures Lines(Rewrite(text, bundle, targets)) == StripEach(RewriteEach(Lines(text), bundle, targets))
    ensures forall l :: l in RewriteEach(Lines(text), bundle, targets) ==> '\n' !in l
  {
    var lines := Lines(text);
    NoLineHoldsANewline(text);
    forall i | 0 <= i < |lines| ensures '\n' !in RewriteLine(lines[i], bundle, targets) {
      if FirstMatch(lines[i], targets).Some? {
        SealedLineIsALine(lines[i], bundle, targets);
      }
    }
    UnlinesReadsBack(RewriteEach(lines, bundle, targets));
  }

  lemma {:induction false} UnlinesIsInjective(a: seq<string>, b: seq<string>)
    requires (forall l :: l in a ==> '\n' !in l) && (forall l :: l in b ==> '\n' !in l) && Unlines(a) == Unlines(b)
    ensures a == b
  {
    if a != [] && b != [] {
      CutsAlike(a[0], Unlines(a[1..]), b[0], Unlines(b[1..]), '\n');
      UnlinesIsInjective(a[1..], b[1..]);
      assert a == [a[0]] + a[1..] && b == [b[0]] + b[1..];
    }
  }

  /** A line that a second rewrite would change: not a target, and ending in a carriage return. */
  predicate Unstable(line: string, targets: seq<Target>) {
    FirstMatch(line, targets).None? && StripCr(line) != line
  }

  lemma SecondRewriteOfLine(line: string, bundle: string, targets: seq<Target>)
    requires BareTargets(targets) && '\n' !in line
    ensures var once := RewriteLine(line, bundle, targets);
            RewriteLine(StripCr(once), bundle, targets) == once <==> !Unstable(line, targets)
  {
    if FirstMatch(line, targets).Some? {
      SealedLineIsALine(line, bundle, targets);
      RewritesTheSame(line, bundle, targets);
    } else if FirstMatch(StripCr(line), targets).Some? {
      StripMatchesLess(line, FirstMatch(StripCr(line), targets).value.field);
    }
  }

  /** Rewriting twice is rewriting once, if and only if no line outside the targets ends in a carriage return. */
  lemma RewriteIsIdempotent(text: string, bundle: string, targets: seq<Target>)
    requires BareTargets(targets)
    ensures Rewrite(Rewrite(text, bundle, targets), bundle, targets) == Rewrite(text, bundle, targets)
            <==> forall l :: l in Lines(text) ==> !Unstable(l, targets)
  {
    var lines := Lines(text);
    var once := RewriteEach(lines, bundle, targets);
    var twice := RewriteEach(StripEach(once), bundle, targets);
    NoLineHoldsANewline(text);
    LinesOfRewrite(text, bundle, targets);
    LinesOfRewrite(Rewrite(text, bundle, targets), bundle, targets);
    forall i | 0 <= i < |lines| ensures twice[i] == once[i] <==> !Unstable(lines[i], targets) {
      SecondRewriteOfLine(lines[i], bundle, targets);
    }
    if Unlines(twice) == Unlines(once) {
      UnlinesIsInjective(twice, once);
    }
    if forall l :: l in lines ==> !Unstable(l, targets) {
      assert twice == once;
    }
  }

  /** The smallest text a second rewrite changes. */
  lemma RewriteTwiceCanDiffer(bundle: string, targets: seq<Target>)
    requires BareTargets(targets) && forall t :: t in targets ==> t.field != "x"
    ensures Rewrite(Rewrite("x\r\r\n", bundle, targets), bundle, targets) != Rewrite("x\r\r\n", bundle, targets)
  {
    var text := "x\r\r\n";
    assert text == "x\r\r" + ['\n'] + "";
    LineAhead("x\r\r", "");
    assert StripCr("x\r\r") == "x\r" by { assert "x\r\r"[..2] == "x\r"; }
    assert Lines(text) == ["x\r"] + Lines("");
    assert "x\r" in Lines(text);
    assert TrimStart("x\r") == "x\r";
    forall t | t in targets ensures !Matches("x\r", t.field) {
      if t.field <= "x\r" {
        assert |t.field| <= 2;
      }
    }
    RewriteIsIdempotent(text, bundle, targets);
  }
}
