/** Searching a string for a character, and splitting it into lines as Rust's `str::lines` does. */
module Text {

  /** The first position of `c`, or the length. */
  function Find(s: string, c: char): (i: nat)
    ensures i <= |s| && c !in s[..i]
    ensures i < |s| ==> s[i] == c
  {
    if s == "" || s[0] == c then 0 else
      assert s[..1 + Find(s[1..], c)] == [s[0]] + s[1..][..Find(s[1..], c)];
      1 + Find(s[1..], c)
  }

  /** A line's carriage return belongs to its ending. */
  function StripCr(line: string): string {
    if line != "" && line[|line| - 1] == '\r' then line[..|line| - 1] else line
  }

  /** A last line without a line feed is a line, and keeps its carriage return. */
  function Lines(s: string): seq<string>
    decreases |s|
  {
    if s == "" then [] else
      var i := Find(s, '\n');
      if i == |s| then [s] else [StripCr(s[..i])] + Lines(s[i + 1..])
  }

  lemma {:induction false} FindSkips(s: string, c: char, rest: string)
    requires c !in s
    ensures Find(s + [c] + rest, c) == |s|
  {
    if s != "" {
      assert (s + [c] + rest)[1..] == s[1..] + [c] + rest;
      FindSkips(s[1..], c, rest);
    }
  }

  /** Text cut at its first `c` falls apart in one way only. */
  lemma CutsAlike(a: string, b: string, a': string, b': string, c: char)
    requires c !in a && c !in a' && a + [c] + b == a' + [c] + b'
    ensures a == a' && b == b'
  {
    FindSkips(a, c, b);
    FindSkips(a', c, b');
    assert a == (a + [c] + b)[..|a|] && b == (a + [c] + b)[|a| + 1..];
    assert a' == (a' + [c] + b')[..|a'|] && b' == (a' + [c] + b')[|a'| + 1..];
  }

  lemma LineAhead(line: string, rest: string)
    requires '\n' !in line
    ensures Lines(line + ['\n'] + rest) == [StripCr(line)] + Lines(rest)
  {
    var t := line + ['\n'] + rest;
    FindSkips(line, '\n', rest);
    assert t[..|line|] == line && t[|line| + 1..] == rest;
  }

  lemma {:induction false} NoLineHoldsANewline(s: string)
    ensures forall l :: l in Lines(s) ==> '\n' !in l
    decreases |s|
  {
    if s != "" {
      var i := Find(s, '\n');
      if i < |s| {
        NoLineHoldsANewline(s[i + 1..]);
      } else {
        assert s[..i] == s;
      }
    }
  }

  /** Every line with a line feed after it. */
  function Unlines(lines: seq<string>): string {
    if lines == [] then "" else lines[0] + ['\n'] + Unlines(lines[1..])
  }

  function StripEach(lines: seq<string>): seq<string> {
    seq(|lines|, i requires 0 <= i < |lines| => StripCr(lines[i]))
  }

  /** Reading written lines and more gives the lines back, less a carriage return each, and then the rest. */
  lemma {:induction false} UnlinesThen(lines: seq<string>, rest: string)
    requires forall l :: l in lines ==> '\n' !in l
    ensures Lines(Unlines(lines) + rest) == StripEach(lines) + Lines(rest)
  {
    if lines == [] {
      assert Unlines(lines) + rest == rest;
    } else {
      var more := Unlines(lines[1..]) + rest;
      UnlinesThen(lines[1..], rest);
      OneLineThen(lines, rest, more);
      LineAndLines(lines, more, Lines(rest));
    }
  }

  lemma LineAndLines(lines: seq<string>, more: string, last: seq<string>)
    requires lines != [] && '\n' !in lines[0] && Lines(more) == StripEach(lines[1..]) + last
    ensures Lines(lines[0] + ['\n'] + more) == StripEach(lines) + last
  {
    LineAhead(lines[0], more);
    StripsOne(lines);
    assert [StripCr(lines[0])] + (StripEach(lines[1..]) + last) == [StripCr(lines[0])] + StripEach(lines[1..]) + last;
  }

  lemma OneLineThen(lines: seq<string>, rest: string, more: string)
    requires lines != [] && more == Unlines(lines[1..]) + rest
    ensures Unlines(lines) + rest == lines[0] + ['\n'] + more
  {
  }

  lemma StripsOne(lines: seq<string>)
    requires lines != []
    ensures StripEach(lines) == [StripCr(lines[0])] + StripEach(lines[1..])
  {
  }

  /** Reading written lines gives them back, less a carriage return each. */
  lemma UnlinesReadsBack(lines: seq<string>)
    requires forall l :: l in lines ==> '\n' !in l
    ensures Lines(Unlines(lines)) == StripEach(lines)
  {
    UnlinesThen(lines, "");
    assert Unlines(lines) + "" == Unlines(lines);
  }
}
