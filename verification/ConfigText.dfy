/** Where a config keeps each secret, read from its text, and what the rewriter makes of it. */
module ConfigText {
  import opened Basics
  import opened Text
  import opened TomlText
  import opened Rewriter

  // ----- references -----

  /** The path and, after the last `#`, the fragment. */
  function SplitFragment(spec: string): (string, Option<string>) {
    if spec == "" then (spec, None)
    else if spec[|spec| - 1] == '#' then (spec[..|spec| - 1], Some(""))
    else
      var (path, fragment) := SplitFragment(spec[..|spec| - 1]);
      if fragment.Some? then (path, Some(fragment.value + [spec[|spec| - 1]])) else (spec, None)
  }

  lemma {:induction false} SplitsAtLast(path: string, fragment: string)
    requires '#' !in fragment
    ensures SplitFragment(path + ['#'] + fragment) == (path, Some(fragment))
  {
    var spec := path + ['#'] + fragment;
    if fragment == "" {
      assert spec[..|spec| - 1] == path;
    } else {
      var n := |fragment| - 1;
      assert spec[..|spec| - 1] == path + ['#'] + fragment[..n];
      SplitsAtLast(path, fragment[..n]);
      assert fragment[..n] + [fragment[n]] == fragment;
    }
  }

  lemma {:induction false} FragmentHasNoHash(spec: string)
    ensures SplitFragment(spec).1.Some? ==> '#' !in SplitFragment(spec).1.value
  {
    if spec != "" {
      FragmentHasNoHash(spec[..|spec| - 1]);
    }
  }

  /** A written reference splits into its bundle and entry if and only if the entry has no `#`; the bundle may have any. */
  lemma SpecSplits(bundle: string, entry: string)
    ensures SplitFragment(Spec(bundle, entry)) == (bundle, Some(entry)) <==> '#' !in entry
  {
    if '#' !in entry {
      SplitsAtLast(bundle, entry);
    } else {
      FragmentHasNoHash(Spec(bundle, entry));
    }
  }

  // ----- values -----

  datatype Source = Inline(text: string) | FileRef(spec: string) | EnvRef(name: string) | SealedRef(spec: string)

  function TrimBlank(s: string): (r: string)
    ensures |r| <= |s|
  {
    if s != "" && (s[0] == ' ' || s[0] == '\t') then TrimBlank(s[1..]) else s
  }

  /** Nothing but blanks or a comment is left on the line. */
  predicate Ends(s: string) {
    TrimBlank(s) == "" || TrimBlank(s)[0] == '#'
  }

  function RefOf(key: string, spec: string): Option<Source> {
    if key == "file" then Some(FileRef(spec))
    else if key == "env" then Some(EnvRef(spec))
    else if key == "sealed" then Some(SealedRef(spec))
    else None
  }

  /** How many bare key characters `s` starts with. */
  function KeyLength(s: string): (n: nat)
    ensures n <= |s|
  {
    if s != "" && IsBare(s[0]) then 1 + KeyLength(s[1..]) else 0
  }

  /** An inline table of one string, whose opening brace has been read. */
  function ParseTable(s: string): Option<Source> {
    var body := TrimBlank(s);
    var n := KeyLength(body);
    var after := TrimBlank(body[n..]);
    if !(['='] <= after) then None
    else
      var spec := TakeString(TrimBlank(after[1..]));
      if spec.None? then None
      else
        var close := TrimBlank(spec.value.1);
        if ['}'] <= close && Ends(close[1..]) then RefOf(body[..n], spec.value.0) else None
  }

  /** A basic string, or a table of one reference. */
  function ParseValue(v: string): Option<Source> {
    var s := TrimBlank(v);
    if s == "" then None
    else if s[0] == '{' then ParseTable(s[1..])
    else
      var text := TakeString(s);
      if text.Some? && Ends(text.value.1) then Some(Inline(text.value.0)) else None
  }

  /** The lines that assign `field`. */
  function Holders(lines: seq<string>, field: string): seq<string> {
    if lines == [] then []
    else (if Matches(lines[0], field) then [lines[0]] else []) + Holders(lines[1..], field)
  }

  function ValueText(line: string, field: string): string
    requires Matches(line, field)
  {
    TrimStart(TrimStart(line)[|field|..])[1..]
  }

  lemma {:induction false} HoldersMatch(lines: seq<string>, field: string)
    ensures forall l :: l in Holders(lines, field) ==> l in lines && Matches(l, field)
  {
    if lines != [] {
      HoldersMatch(lines[1..], field);
    }
  }

  /** What a config assigns to a secret field: exactly one line does, and it can be read. */
  function SourceOf(text: string, field: string): Option<Source> {
    var holders := Holders(Lines(text), field);
    if |holders| != 1 || !Matches(holders[0], field) then None else ParseValue(ValueText(holders[0], field))
  }

  // ----- a rewritten line reads as its reference -----

  lemma TrimsOneBlank(s: string)
    requires s != "" && s[0] != ' ' && s[0] != '\t'
    ensures TrimBlank([' '] + s) == s
  {
    assert ([' '] + s)[1..] == s;
  }

  lemma AssignedParses(spec: string)
    ensures ParseValue(Assigned(spec)[2..]) == Some(SealedRef(spec))
  {
    var table := [' '] + ("sealed" + (" = " + (BasicString(spec) + " }")));
    assert Assigned(spec)[2..] == [' '] + (['{'] + table);
    assert BareKey("sealed");
    ReferenceParses("sealed", spec);
  }

  /** A table of one reference, as the rest of a line. */
  function TableText(key: string, spec: string): string {
    [' '] + (key + (" = " + (BasicString(spec) + " }")))
  }

  lemma ReferenceParses(key: string, spec: string)
    requires BareKey(key)
    ensures ParseValue([' '] + (['{'] + TableText(key, spec))) == RefOf(key, spec)
  {
    var table := TableText(key, spec);
    TrimsOneBlank(['{'] + table);
    assert (['{'] + table)[1..] == table;
    TableParses(key, spec, BasicString(spec) + " }");
  }

  lemma TableParses(key: string, spec: string, tail: string)
    requires BareKey(key) && tail == BasicString(spec) + " }"
    ensures ParseTable([' '] + (key + (" = " + tail))) == RefOf(key, spec)
  {
    var body := key + (" = " + tail);
    assert IsBare(key[0]);
    TrimsOneBlank(body);
    KeyLengthIs(key, " = " + tail);
    var after := ['='] + ([' '] + tail);
    assert body[..|key|] == key && body[|key|..] == [' '] + after;
    TrimsOneBlank(after);
    assert after[1..] == [' '] + tail;
    TrimsOneBlank(tail);
    BasicStringReadsBack(spec, " }");
    assert " }" == [' '] + "}";
    TrimsOneBlank("}");
    assert "}"[1..] == "";
    ReadsTable([' '] + body, body, |key|, after, tail, spec, " }", "}");
  }

  lemma ReadsTable(s: string, body: string, n: nat, after: string, quoted: string, spec: string, rest: string, close: string)
    requires TrimBlank(s) == body && KeyLength(body) == n && TrimBlank(body[n..]) == after
    requires ['='] <= after && TrimBlank(after[1..]) == quoted && TakeString(quoted) == Some((spec, rest))
    requires TrimBlank(rest) == close && ['}'] <= close && Ends(close[1..])
    ensures ParseTable(s) == RefOf(body[..n], spec)
  {
  }

  lemma {:induction false} KeyLengthIs(key: string, rest: string)
    requires (forall i :: 0 <= i < |key| ==> IsBare(key[i])) && rest != "" && !IsBare(rest[0])
    ensures KeyLength(key + rest) == |key|
  {
    if key == "" {
      assert key + rest == rest;
    } else {
      assert (key + rest)[1..] == key[1..] + rest;
      KeyLengthIs(key[1..], rest);
    }
  }

  // ----- a rewritten config -----

  /** No line assigns two bare keys. */
  lemma MatchesOneKey(line: string, f: string, g: string)
    requires BareKey(f) && BareKey(g) && Matches(line, f) && Matches(line, g)
    ensures f == g
  {
    var t := TrimStart(line);
    if |f| < |g| {
      KeyRunsOn(t, f, g);
    } else if |g| < |f| {
      KeyRunsOn(t, g, f);
    }
  }

  lemma KeyRunsOn(t: string, f: string, g: string)
    requires BareKey(g) && f <= t && g <= t && |f| < |g|
    ensures !(['='] <= TrimStart(t[|f|..]))
  {
    assert t[|f|..][0] == g[|f|];
  }

  function EntryFor(targets: seq<Target>, field: string): Option<string> {
    if targets == [] then None
    else if targets[0].field == field then Some(targets[0].entry)
    else EntryFor(targets[1..], field)
  }

  lemma {:induction false} FirstMatchIsTheEntry(line: string, targets: seq<Target>, field: string)
    requires BareTargets(targets) && BareKey(field) && Matches(line, field) && EntryFor(targets, field).Some?
    ensures FirstMatch(line, targets) == Some(Target(field, EntryFor(targets, field).value))
  {
    if targets[0].field != field {
      if Matches(line, targets[0].field) {
        MatchesOneKey(line, targets[0].field, field);
      }
      FirstMatchIsTheEntry(line, targets[1..], field);
    }
  }

  function AfterLine(line: string, bundle: string, targets: seq<Target>): string {
    StripCr(RewriteLine(line, bundle, targets))
  }

  lemma RewriteKeepsMatch(line: string, bundle: string, targets: seq<Target>, field: string)
    requires BareTargets(targets) && EntryFor(targets, field).Some? && BareKey(field) && '\n' !in line
    ensures Matches(AfterLine(line, bundle, targets), field) <==> Matches(line, field)
  {
    if FirstMatch(line, targets).Some? {
      RewrittenMatches(line, bundle, targets, field);
      SealedLineIsALine(line, bundle, targets);
      if Matches(line, field) {
        FirstMatchIsTheEntry(line, targets, field);
      }
    } else {
      if Matches(line, field) {
        FirstMatchIsTheEntry(line, targets, field);
      }
      if Matches(StripCr(line), field) {
        StripMatchesLess(line, field);
      }
    }
  }

  /** Lines that match alike are held alike. */
  lemma {:induction false} HoldersAlike(lines: seq<string>, after: seq<string>, field: string, change: string -> string)
    requires |after| == |lines|
    requires forall i :: 0 <= i < |lines| ==> after[i] == change(lines[i]) && (Matches(after[i], field) <==> Matches(lines[i], field))
    ensures |Holders(after, field)| == |Holders(lines, field)|
    ensures forall i :: 0 <= i < |Holders(lines, field)| ==> Holders(after, field)[i] == change(Holders(lines, field)[i])
  {
    if lines != [] {
      HoldersAlike(lines[1..], after[1..], field, change);
    }
  }

  lemma HoldersAfter(lines: seq<string>, bundle: string, targets: seq<Target>, field: string)
    requires BareTargets(targets) && EntryFor(targets, field).Some? && BareKey(field)
    requires forall l :: l in lines ==> '\n' !in l
    ensures |Holders(StripEach(RewriteEach(lines, bundle, targets)), field)| == |Holders(lines, field)|
    ensures forall i :: 0 <= i < |Holders(lines, field)| ==>
              Holders(StripEach(RewriteEach(lines, bundle, targets)), field)[i] == AfterLine(Holders(lines, field)[i], bundle, targets)
  {
    var after := StripEach(RewriteEach(lines, bundle, targets));
    forall i | 0 <= i < |lines|
      ensures after[i] == AfterLine(lines[i], bundle, targets) && (Matches(after[i], field) <==> Matches(lines[i], field))
    {
      RewriteKeepsMatch(lines[i], bundle, targets, field);
    }
    HoldersAlike(lines, after, field, line => AfterLine(line, bundle, targets));
  }

  lemma SealedLineParses(line: string, bundle: string, targets: seq<Target>, field: string)
    requires BareTargets(targets) && EntryFor(targets, field).Some? && BareKey(field) && '\n' !in line && Matches(line, field)
    ensures var after := AfterLine(line, bundle, targets);
            Matches(after, field)
            && ParseValue(ValueText(after, field)) == Some(SealedRef(Spec(bundle, EntryFor(targets, field).value)))
  {
    FirstMatchIsTheEntry(line, targets, field);
    SealedLineIsALine(line, bundle, targets);
    RewriteKeepsMatch(line, bundle, targets, field);
    var spec := Spec(bundle, EntryFor(targets, field).value);
    TrimSplits(line);
    TrimsItsIndent(Indent(line), field + Assigned(spec));
    assert (field + Assigned(spec))[|field|..] == Assigned(spec);
    AfterEquals(spec);
    AssignedParses(spec);
  }

  lemma AfterEquals(spec: string)
    ensures TrimStart(Assigned(spec)) == Assigned(spec)[1..]
    ensures TrimStart(Assigned(spec))[1..] == Assigned(spec)[2..]
  {
    assert Assigned(spec)[0] == ' ' && Assigned(spec)[1] == '=';
    assert Assigned(spec)[1..][0] == '=';
    assert Assigned(spec)[1..][1..] == Assigned(spec)[2..];
  }

  /**
   After a rewrite every line that assigns a target field is a reference to the field's own entry, however the secret
   was stored; so the field is such a reference just when one line assigns it, as before.
   */
  lemma SourceAfterRewrite(text: string, bundle: string, targets: seq<Target>, field: string)
    requires BareTargets(targets) && EntryFor(targets, field).Some? && BareKey(field)
    ensures var (before, after) := (Holders(Lines(text), field), Holders(Lines(Rewrite(text, bundle, targets)), field));
            && |after| == |before|
            && forall i :: 0 <= i < |after| ==>
                 Matches(after[i], field)
                 && ParseValue(ValueText(after[i], field)) == Some(SealedRef(Spec(bundle, EntryFor(targets, field).value)))
    ensures SourceOf(Rewrite(text, bundle, targets), field)
         == if |Holders(Lines(text), field)| == 1 then Some(SealedRef(Spec(bundle, EntryFor(targets, field).value))) else None
  {
    var lines := Lines(text);
    var before := Holders(lines, field);
    NoLineHoldsANewline(text);
    LinesOfRewrite(text, bundle, targets);
    HoldersAfter(lines, bundle, targets, field);
    HoldersMatch(lines, field);
    forall i | 0 <= i < |before|
      ensures var after := AfterLine(before[i], bundle, targets);
              Matches(after, field)
              && ParseValue(ValueText(after, field)) == Some(SealedRef(Spec(bundle, EntryFor(targets, field).value)))
    {
      assert before[i] in before;
      SealedLineParses(before[i], bundle, targets, field);
    }
  }
}
