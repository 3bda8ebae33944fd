/** A server address that passes validation and yet lets two speed runs be live at once. */
module GuardMisread {
  import opened Basics
  import opened Results
  import opened Text
  import opened Decimal
  import opened GuardCodec
  import opened GuardProtocol
  import opened GuardSafety
  import opened GuardProgress

  // ----- validation of a server address -----

  function LastColon(s: string): (i: Option<nat>)
    ensures i.Some? ==> i.value < |s| && s[i.value] == ':' && ':' !in s[i.value + 1..]
    ensures i.None? ==> ':' !in s
  {
    if s == "" then None
    else if s[|s| - 1] == ':' then assert s[|s|..] == ""; Some(|s| - 1)
    else
      var i := LastColon(s[..|s| - 1]);
      assert s == s[..|s| - 1] + [s[|s| - 1]];
      assert i.Some? ==> s[i.value + 1..] == s[..|s| - 1][i.value + 1..] + [s[|s| - 1]];
      i
  }

  predicate IsWhite(c: char) {
    c == ' ' || '\t' <= c <= '\r'
  }

  predicate AllWhite(s: string) {
    forall i :: 0 <= i < |s| ==> IsWhite(s[i])
  }

  /** A 16-bit number other than zero, with an optional plus sign. */
  predicate IsPort(s: string) {
    var digits := if s != "" && s[0] == '+' then s[1..] else s;
    AllDigits(digits) && 0 < Value(digits) <= 0xFFFF
  }

  predicate Opens(host: string) {
    host != "" && host[0] == '['
  }

  predicate Closes(host: string) {
    host != "" && host[|host| - 1] == ']'
  }

  predicate IsHost(host: string) {
    && !AllWhite(host)
    && (Opens(host) || Closes(host) ==> Opens(host) && Closes(host) && |host| > 2)
    && (':' in host ==> Opens(host) && Closes(host))
  }

  /** What validation accepts as a server address: a host, the last colon, and a port. */
  predicate IsHostPort(value: string) {
    var i := LastColon(value);
    i.Some? && IsHost(value[..i.value]) && IsPort(value[i.value + 1..])
  }

  // ----- an address of three lines -----

  /** `first`, then what reads as a client's role, then the rest of the address. */
  function Address(first: string, rest: string): string {
    first + ['\n'] + (Line(RoleKey, RoleText(Client)) + ['\n'] + Line(ServerAddrKey, rest))
  }

  lemma {:induction false} LastColonIs(a: string, b: string)
    requires ':' !in b
    ensures LastColon(a + [':'] + b) == Some(|a|)
  {
    var s := a + [':'] + b;
    if b != "" {
      var n := |b| - 1;
      assert s[..|s| - 1] == a + [':'] + b[..n];
      LastColonIs(a, b[..n]);
    }
  }

  predicate PlainHost(host: string) {
    host != "" && forall i :: 0 <= i < |host| ==> host[i] != ':' && host[i] != '[' && host[i] != ']' && !IsWhite(host[i])
  }

  lemma HostIsValid(first: string, middle: string, host: string)
    requires PlainHost(first) && PlainHost(host) && ':' !in middle
    ensures IsHost(first + middle + host)
  {
    var all := first + middle + host;
    assert all[0] == first[0] && all[|all| - 1] == host[|host| - 1];
    assert ':' !in first && ':' !in host;
  }

  lemma HostAndPort(host: string, port: string)
    requires IsHost(host) && IsPort(port) && ':' !in port
    ensures IsHostPort(host + [':'] + port)
  {
    var whole := host + [':'] + port;
    LastColonIs(host, port);
    assert whole[..|host|] == host && whole[|host| + 1..] == port;
  }

  /** What stands between the first line of the address and its host. */
  const MIDDLE: string := ['\n'] + Line(RoleKey, RoleText(Client)) + ['\n'] + Line(ServerAddrKey, "")

  lemma MiddleHasNoColon()
    ensures ':' !in MIDDLE
  {
    assert ':' !in RoleText(Client) && ':' !in KeyText(RoleKey) && ':' !in KeyText(ServerAddrKey);
    assert ':' !in Line(RoleKey, RoleText(Client)) && ':' !in Line(ServerAddrKey, "");
  }

  lemma AddressSplits(first: string, host: string, port: string)
    ensures Address(first, host + [':'] + port) == first + MIDDLE + host + [':'] + port
  {
    var rest := host + [':'] + port;
    assert Line(ServerAddrKey, rest) == Line(ServerAddrKey, "") + host + [':'] + port;
  }

  /** For plain hosts and any port, the three lines together are an address like any other. */
  lemma AddressIsValid(first: string, host: string, port: string)
    requires PlainHost(first) && PlainHost(host) && IsPort(port) && ':' !in port
    ensures IsHostPort(Address(first, host + [':'] + port))
  {
    MiddleHasNoColon();
    HostIsValid(first, MIDDLE, host);
    HostAndPort(first + MIDDLE + host, port);
    AddressSplits(first, host, port);
  }

  /** A role and an address, read after all fields are set, replace theirs. */
  lemma TwoMoreLines(f: Fields, r: string, a: string, rest: string)
    requires r == Line(RoleKey, RoleText(Client)) && a == Line(ServerAddrKey, rest)
    ensures TakeLines(f, [r, a]) == Ok(f.(role := Some(Client), serverAddr := Some(rest)))
  {
    RoleReadsBack(Client);
    TakesItsLine(f, RoleKey, RoleText(Client));
    TakesFirst(f, [r, a], f.(role := Some(Client)));
    assert [r, a][1..] == [a] && [a][1..] == [];
    TakesItsLine(f.(role := Some(Client)), ServerAddrKey, rest);
    TakesFirst(f.(role := Some(Client)), [a], f.(role := Some(Client), serverAddr := Some(rest)));
  }

  lemma OneLine(a: string, text: string)
    requires '\n' !in a && StripCr(a) == a && text == a + ['\n']
    ensures Lines(text) == [a]
  {
    LineAhead(a, "");
    assert a + ['\n'] + "" == text;
  }

  lemma TwoLines(r: string, a: string, last: string, text: string)
    requires '\n' !in r && '\n' !in a && StripCr(r) == r && StripCr(a) == a
    requires last == a + ['\n'] && text == r + ['\n'] + last
    ensures Lines(text) == [r, a]
  {
    OneLine(a, last);
    LineAhead(r, last);
  }

  lemma LinesAreClean(rest: string)
    requires Clean(rest)
    ensures var (r, a) := (Line(RoleKey, RoleText(Client)), Line(ServerAddrKey, rest));
            '\n' !in r && '\n' !in a && StripCr(r) == r && StripCr(a) == a
  {
    RoleReadsBack(Client);
    StripsItsValue(RoleKey, RoleText(Client));
    StripsItsValue(ServerAddrKey, rest);
  }

  lemma AddressBreaks(x: Instance, first: string, tail: string, lines: seq<string>, g: Fields)
    requires Clean(x.configId) && Clean(first) && x.serverAddr == first + ['\n'] + tail
    requires Lines(tail + ['\n']) == lines && TakeLines(AllFields(x.(serverAddr := first)), lines) == Ok(g)
    ensures Decode(Encode(x)) == Finish(g)
  {
    BrokenAddressDecodes(x, first, tail);
  }

  lemma FinishesAsClient(x: Instance, first: string, rest: string)
    ensures Finish(AllFields(x.(serverAddr := first)).(role := Some(Client), serverAddr := Some(rest)))
         == Ok(Instance(Client, x.pid, x.configId, rest))
  {
  }

  /** A speed run with such an address is read as a client, on the same config. */
  lemma SpeedReadAsClient(x: Instance, first: string, rest: string)
    requires x.role == Speed && x.serverAddr == Address(first, rest)
    requires Clean(x.configId) && Clean(first) && Clean(rest)
    ensures Decode(Encode(x)) == Ok(Instance(Client, x.pid, x.configId, rest))
  {
    var (r, a) := (Line(RoleKey, RoleText(Client)), Line(ServerAddrKey, rest));
    var f := AllFields(x.(serverAddr := first));
    LinesAreClean(rest);
    TwoMoreLines(f, r, a, rest);
    TwoLinesDecode(x, first, r, a, f.(role := Some(Client), serverAddr := Some(rest)));
    FinishesAsClient(x, first, rest);
  }

  lemma TwoLinesDecode(x: Instance, first: string, r: string, a: string, g: Fields)
    requires Clean(x.configId) && Clean(first) && x.serverAddr == first + ['\n'] + (r + ['\n'] + a)
    requires '\n' !in r && '\n' !in a && StripCr(r) == r && StripCr(a) == a
    requires TakeLines(AllFields(x.(serverAddr := first)), [r, a]) == Ok(g)
    ensures Decode(Encode(x)) == Finish(g)
  {
    TailIsTwoLines(r, a);
    AddressBreaks(x, first, r + ['\n'] + a, [r, a], g);
  }

  lemma TailIsTwoLines(r: string, a: string)
    requires '\n' !in r && '\n' !in a && StripCr(r) == r && StripCr(a) == a
    ensures Lines(r + ['\n'] + a + ['\n']) == [r, a]
  {
    TwoLines(r, a, a + ['\n'], r + ['\n'] + (a + ['\n']));
    assert r + ['\n'] + a + ['\n'] == r + ['\n'] + (a + ['\n']);
  }

  const EMPTY := State(map[], map[], map[], None, map[])

  /** In an empty directory, two processes one after the other, the first not in the second's way. */
  lemma BothGoLive(x: Instance, y: Instance) returns (run: seq<Event>, s: State)
    requires x.pid != y.pid && !Obstructs(x, y)
    ensures Initial(EMPTY) && Exec(EMPTY, run) == Some(s)
    ensures At(s, x.pid).Live? && At(s, x.pid).x == x && At(s, y.pid).Live? && At(s, y.pid).x == y
  {
    assert Exec(EMPTY, []) == Some(EMPTY);
    var run1, s1 := NewcomerGoesLive(EMPTY, [], EMPTY, x);
    OnlyOneLive(s1, x, y);
    run, s := NewcomerGoesLive(EMPTY, run1, s1, y);
  }

  lemma ClientElsewhereIsNotInTheWay(x: Instance, y: Instance, z: Instance)
    requires Decode(Encode(x)) == Ok(z) && z.role == Client && z.configId != y.configId
    ensures !Obstructs(x, y)
  {
  }

  /**
   Two speed runs on different configs, the first with such an address: both become live. Validation accepts the
   address, so exclusion rests on addresses without line feeds, which nothing checks.
   */
  lemma TwoSpeedRunsGoLive(x: Instance, y: Instance, host: string, port: string) returns (run: seq<Event>, s: State)
    requires x.role == y.role == Speed && x.pid != y.pid && x.configId != y.configId && Clean(x.configId)
    requires PlainHost(host) && IsPort(port) && ':' !in port && Clean(port)
    requires x.serverAddr == Address(host, host + [':'] + port)
    ensures IsHostPort(x.serverAddr)
    ensures Initial(EMPTY) && Exec(EMPTY, run) == Some(s)
    ensures At(s, x.pid).Live? && At(s, x.pid).x == x && At(s, y.pid).Live? && At(s, y.pid).x == y
  {
    AddressIsValid(host, host, port);
    PlainIsClean(host, port);
    SpeedReadAsClient(x, host, host + [':'] + port);
    ClientElsewhereIsNotInTheWay(x, y, Instance(Client, x.pid, x.configId, host + [':'] + port));
    run, s := BothGoLive(x, y);
  }

  lemma PlainIsClean(host: string, port: string)
    requires PlainHost(host) && Clean(port) && port != ""
    ensures Clean(host) && Clean(host + [':'] + port)
  {
  }

  lemma OnlyOneLive(s: State, x: Instance, y: Instance)
    requires x.pid != y.pid && At(s, x.pid).Live? && At(s, x.pid).x == x && !Obstructs(x, y)
    requires (forall r :: r != x.pid ==> At(s, r) == Idle) && forall n :: n in s.dir ==> n == LockName(x)
    ensures !Barred(s, y.pid, y)
  {
    if LockName(x) == LockName(y) {
      LockNamesDiffer(x, y);
    }
  }
}
