/** The runtime guard's lock file metadata: its text, its decoder and its file names. */
module GuardCodec {
  import opened Basics
  import opened Results
  import opened Decimal
  import opened Text

  datatype Role = Client | Speed

  datatype Instance = Instance(role: Role, pid: u32, configId: string, serverAddr: string)

  datatype MetadataError =
    | MalformedLine(line: string)
    | UnknownRole(text: string)
    | InvalidPid(text: string)
    | UnknownKey(key: string)
    | MissingField(field: string)

  function RoleText(role: Role): string {
    if role.Client? then "client" else "speed"
  }

  function ParseRole(text: string): Result<Role, MetadataError> {
    if text == "client" then Ok(Client)
    else if text == "speed" then Ok(Speed)
    else Err(UnknownRole(text))
  }

  /** Rust's u32 parser: an optional plus sign, then digits, then the range. */
  function ParsePid(text: string): Result<u32, MetadataError> {
    var digits := if |text| > 1 && text[0] == '+' then text[1..] else text;
    if AllDigits(digits) && Value(digits) <= U32_MAX then Ok(Value(digits)) else Err(InvalidPid(text))
  }

  datatype Key = RoleKey | PidKey | ConfigIdKey | ServerAddrKey

  function KeyText(key: Key): string {
    match key
    case RoleKey => "role"
    case PidKey => "pid"
    case ConfigIdKey => "config_id"
    case ServerAddrKey => "server_addr"
  }

  function ParseKey(text: string): Option<Key> {
    if text == "role" then Some(RoleKey)
    else if text == "pid" then Some(PidKey)
    else if text == "config_id" then Some(ConfigIdKey)
    else if text == "server_addr" then Some(ServerAddrKey)
    else None
  }

  function Line(key: Key, value: string): string {
    KeyText(key) + ['='] + value
  }

  function LinesOf(x: Instance): seq<string> {
    [Line(RoleKey, RoleText(x.role)), Line(PidKey, Numeral(x.pid)),
     Line(ConfigIdKey, x.configId), Line(ServerAddrKey, x.serverAddr)]
  }

  function Encode(x: Instance): string {
    Unlines(LinesOf(x))
  }

  datatype Fields = Fields(role: Option<Role>, pid: Option<u32>, configId: Option<string>, serverAddr: Option<string>)

  const NO_FIELDS := Fields(None, None, None, None)

  /** Assigns one key; a later assignment to a key replaces an earlier one. */
  function Assign(f: Fields, key: Key, value: string): Result<Fields, MetadataError> {
    match key
    case RoleKey =>
      var role := ParseRole(value);
      if role.Ok? then Ok(f.(role := Some(role.value))) else Err(role.error)
    case PidKey =>
      var pid := ParsePid(value);
      if pid.Ok? then Ok(f.(pid := Some(pid.value))) else Err(pid.error)
    case ConfigIdKey => Ok(f.(configId := Some(value)))
    case ServerAddrKey => Ok(f.(serverAddr := Some(value)))
  }

  function TakeLine(f: Fields, line: string): Result<Fields, MetadataError> {
    var i := Find(line, '=');
    if i == |line| then Err(MalformedLine(line)) else
      var key := ParseKey(line[..i]);
      if key == None then Err(UnknownKey(line[..i])) else Assign(f, key.value, line[i + 1..])
  }

  function TakeLines(f: Fields, lines: seq<string>): Result<Fields, MetadataError>
    decreases |lines|
  {
    if lines == [] then Ok(f) else
      var next := TakeLine(f, lines[0]);
      if next.Ok? then TakeLines(next.value, lines[1..]) else next
  }

  function Finish(f: Fields): Result<Instance, MetadataError> {
    if f.role == None then Err(MissingField("role"))
    else if f.pid == None then Err(MissingField("pid"))
    else if f.configId == None then Err(MissingField("config_id"))
    else if f.serverAddr == None then Err(MissingField("server_addr"))
    else Ok(Instance(f.role.value, f.pid.value, f.configId.value, f.serverAddr.value))
  }

  function Decode(raw: string): Result<Instance, MetadataError> {
    var f := TakeLines(NO_FIELDS, Lines(raw));
    if f.Ok? then Finish(f.value) else Err(f.error)
  }

  method DecodeText(raw: string) returns (r: Result<Instance, MetadataError>)
    ensures r == Decode(raw)
  {
    var fields := NO_FIELDS;
    var lines := Lines(raw);
    for i := 0 to |lines|
      invariant TakeLines(NO_FIELDS, lines) == TakeLines(fields, lines[i..])
    {
      var cut := Find(lines[i], '=');
      assert lines[i..][1..] == lines[i + 1..];
      if cut == |lines[i]| {
        return Err(MalformedLine(lines[i]));
      }
      var key := ParseKey(lines[i][..cut]);
      if key == None {
        return Err(UnknownKey(lines[i][..cut]));
      }
      var next := Assign(fields, key.value, lines[i][cut + 1..]);
      if next.Err? {
        return Err(next.error);
      }
      fields := next.value;
    }
    r := Finish(fields);
  }

  // ----- the round trip -----

  /** A value that survives its trip through a line. */
  predicate Clean(value: string) {
    '\n' !in value && (value != "" ==> value[|value| - 1] != '\r')
  }

  lemma KeyReadsBack(key: Key)
    ensures ParseKey(KeyText(key)) == Some(key)
    ensures '=' !in KeyText(key) && '\n' !in KeyText(key)
  {
  }

  lemma TakesItsLine(f: Fields, key: Key, value: string)
    ensures TakeLine(f, Line(key, value)) == Assign(f, key, value)
  {
    KeyReadsBack(key);
    var k := KeyText(key);
    FindSkips(k, '=', value);
    assert Line(key, value)[..|k|] == k && Line(key, value)[|k| + 1..] == value;
  }

  lemma StripsItsValue(key: Key, value: string)
    ensures StripCr(Line(key, value)) == Line(key, StripCr(value))
    ensures '\n' !in value ==> '\n' !in Line(key, value)
  {
    KeyReadsBack(key);
    if value != "" {
      assert Line(key, value)[..|Line(key, value)| - 1] == Line(key, value[..|value| - 1]);
    }
  }

  lemma RoleReadsBack(role: Role)
    ensures ParseRole(RoleText(role)) == Ok(role)
    ensures Clean(RoleText(role))
  {
    assert RoleText(Client)[5] == 't' && RoleText(Speed)[4] == 'd';
  }

  lemma PidReadsBack(pid: u32)
    ensures ParsePid(Numeral(pid)) == Ok(pid)
    ensures Clean(Numeral(pid))
  {
    NumeralReadsBack(pid);
    assert forall i :: 0 <= i < |Numeral(pid)| ==> IsDigit(Numeral(pid)[i]);
  }

  /** What reading lines leaves of an instance whose values break none. */
  function Stripped(x: Instance): Instance {
    x.(configId := StripCr(x.configId), serverAddr := StripCr(x.serverAddr))
  }

  lemma FourStrip(a: string, b: string, c: string, d: string)
    ensures StripEach([a, b, c, d]) == [StripCr(a), StripCr(b), StripCr(c), StripCr(d)]
  {
  }

  lemma LinesStrip(x: Instance)
    requires '\n' !in x.configId && '\n' !in x.serverAddr
    ensures StripEach(LinesOf(x)) == LinesOf(Stripped(x))
    ensures forall l :: l in LinesOf(x) ==> '\n' !in l
  {
    RoleReadsBack(x.role);
    PidReadsBack(x.pid);
    StripsItsValue(RoleKey, RoleText(x.role));
    StripsItsValue(PidKey, Numeral(x.pid));
    StripsItsValue(ConfigIdKey, x.configId);
    StripsItsValue(ServerAddrKey, x.serverAddr);
    FourStrip(LinesOf(x)[0], LinesOf(x)[1], LinesOf(x)[2], LinesOf(x)[3]);
  }

  lemma TakesFirst(f: Fields, lines: seq<string>, next: Fields)
    requires lines != [] && TakeLine(f, lines[0]) == Ok(next)
    ensures TakeLines(f, lines) == TakeLines(next, lines[1..])
  {
  }

  lemma TakesInTurn(f0: Fields, f1: Fields, f2: Fields, f3: Fields, f4: Fields, lines: seq<string>)
    requires |lines| >= 4
    requires TakeLine(f0, lines[0]) == Ok(f1) && TakeLine(f1, lines[1]) == Ok(f2)
    requires TakeLine(f2, lines[2]) == Ok(f3) && TakeLine(f3, lines[3]) == Ok(f4)
    ensures TakeLines(f0, lines) == TakeLines(f4, lines[4..])
  {
    TakesFirst(f0, lines, f1);
    TakesFirst(f1, lines[1..], f2);
    assert lines[1..][1..] == lines[2..];
    TakesFirst(f2, lines[2..], f3);
    assert lines[2..][1..] == lines[3..];
    TakesFirst(f3, lines[3..], f4);
    assert lines[3..][1..] == lines[4..];
  }

  function AllFields(x: Instance): Fields {
    Fields(Some(x.role), Some(x.pid), Some(x.configId), Some(x.serverAddr))
  }

  lemma TakesRole(f: Fields, role: Role, line: string)
    requires line == Line(RoleKey, RoleText(role))
    ensures TakeLine(f, line) == Ok(f.(role := Some(role)))
  {
    RoleReadsBack(role);
    TakesItsLine(f, RoleKey, RoleText(role));
  }

  lemma TakesPid(f: Fields, pid: u32, line: string)
    requires line == Line(PidKey, Numeral(pid))
    ensures TakeLine(f, line) == Ok(f.(pid := Some(pid)))
  {
    PidReadsBack(pid);
    TakesItsLine(f, PidKey, Numeral(pid));
  }

  lemma TakesText(f: Fields, configId: string, line: string, addr: string, line': string)
    requires line == Line(ConfigIdKey, configId) && line' == Line(ServerAddrKey, addr)
    ensures TakeLine(f, line) == Ok(f.(configId := Some(configId)))
    ensures TakeLine(f.(configId := Some(configId)), line') == Ok(f.(configId := Some(configId), serverAddr := Some(addr)))
  {
    TakesItsLine(f, ConfigIdKey, configId);
    TakesItsLine(f.(configId := Some(configId)), ServerAddrKey, addr);
  }

  lemma TakesItsLines(x: Instance, lines: seq<string>)
    requires |lines| >= 4 && lines[..4] == LinesOf(x)
    ensures TakeLines(NO_FIELDS, lines) == TakeLines(AllFields(x), lines[4..])
  {
    var f1 := NO_FIELDS.(role := Some(x.role));
    var f2 := f1.(pid := Some(x.pid));
    var f3 := f2.(configId := Some(x.configId));
    StartsWithIts(x, lines);
    TakesRole(NO_FIELDS, x.role, lines[0]);
    TakesPid(f1, x.pid, lines[1]);
    TakesText(f2, x.configId, lines[2], x.serverAddr, lines[3]);
    TakesInTurn(NO_FIELDS, f1, f2, f3, AllFields(x), lines);
  }

  lemma StartsWithIts(x: Instance, lines: seq<string>)
    requires |lines| >= 4 && lines[..4] == LinesOf(x)
    ensures lines[0] == Line(RoleKey, RoleText(x.role)) && lines[1] == Line(PidKey, Numeral(x.pid))
    ensures lines[2] == Line(ConfigIdKey, x.configId) && lines[3] == Line(ServerAddrKey, x.serverAddr)
  {
    assert forall i :: 0 <= i < 4 ==> lines[i] == lines[..4][i];
  }

  lemma TakesExactly(x: Instance)
    ensures TakeLines(NO_FIELDS, LinesOf(x)) == Ok(AllFields(x))
  {
    TakesItsLines(x, LinesOf(x));
  }

  lemma DecodesAs(raw: string, lines: seq<string>, x: Instance)
    requires Lines(raw) == lines && TakeLines(NO_FIELDS, lines) == Ok(AllFields(x))
    ensures Decode(raw) == Ok(x)
  {
  }

  /** When no value breaks a line, decoding loses a final carriage return of each and nothing else. */
  lemma DecodeStrips(x: Instance)
    requires '\n' !in x.configId && '\n' !in x.serverAddr
    ensures Decode(Encode(x)) == Ok(Stripped(x))
  {
    LinesStrip(x);
    UnlinesReadsBack(LinesOf(x));
    TakesExactly(Stripped(x));
    DecodesAs(Encode(x), LinesOf(Stripped(x)), Stripped(x));
  }

  ghost predicate NoNewlines(f: Fields) {
    (f.configId.Some? ==> '\n' !in f.configId.value) && (f.serverAddr.Some? ==> '\n' !in f.serverAddr.value)
  }

  lemma TakenHasNoNewlines(f: Fields, line: string)
    requires NoNewlines(f) && '\n' !in line
    ensures TakeLine(f, line).Ok? ==> NoNewlines(TakeLine(f, line).value)
  {
    var i := Find(line, '=');
    if i < |line| {
      assert '\n' !in line[i + 1..];
    }
  }

  lemma {:induction false} TakenHaveNoNewlines(f: Fields, lines: seq<string>)
    requires NoNewlines(f) && forall l :: l in lines ==> '\n' !in l
    ensures TakeLines(f, lines).Ok? ==> NoNewlines(TakeLines(f, lines).value)
    decreases |lines|
  {
    if lines != [] {
      var next := TakeLine(f, lines[0]);
      TakenHasNoNewlines(f, lines[0]);
      if next.Ok? {
        TakenHaveNoNewlines(next.value, lines[1..]);
      }
    }
  }

  /** No decoded value holds a line feed, whatever the text. */
  lemma DecodedHasNoNewlines(raw: string)
    ensures Decode(raw).Ok? ==> '\n' !in Decode(raw).value.configId && '\n' !in Decode(raw).value.serverAddr
  {
    NoLineHoldsANewline(raw);
    TakenHaveNoNewlines(NO_FIELDS, Lines(raw));
  }

  lemma CleanIsUnstripped(value: string)
    requires '\n' !in value
    ensures Clean(value) <==> StripCr(value) == value
  {
  }

  /** The exact round trip: decoding inverts encoding if and only if both values are clean. */
  lemma DecodeInvertsEncode(x: Instance)
    ensures Decode(Encode(x)) == Ok(x) <==> Clean(x.configId) && Clean(x.serverAddr)
  {
    if '\n' !in x.configId && '\n' !in x.serverAddr {
      DecodeStrips(x);
      CleanIsUnstripped(x.configId);
      CleanIsUnstripped(x.serverAddr);
      assert Stripped(x) == x <==> StripCr(x.configId) == x.configId && StripCr(x.serverAddr) == x.serverAddr;
    } else {
      DecodedHasNoNewlines(Encode(x));
    }
  }

  // ----- values that break a line -----

  lemma {:induction false} TakesOn(f: Fields, lines: seq<string>, g: Fields, more: seq<string>)
    requires TakeLines(f, lines) == Ok(g)
    ensures TakeLines(f, lines + more) == TakeLines(g, more)
    decreases |lines|
  {
    if lines == [] {
      assert lines + more == more;
    } else {
      assert (lines + more)[1..] == lines[1..] + more;
      TakesOn(TakeLine(f, lines[0]).value, lines[1..], g, more);
    }
  }

  /** A server address with a line feed: the lines after it are read as assignments of their own. */
  lemma BrokenAddressDecodes(x: Instance, addr: string, tail: string)
    requires Clean(x.configId) && Clean(addr) && x.serverAddr == addr + ['\n'] + tail
    ensures var f := TakeLines(AllFields(x.(serverAddr := addr)), Lines(tail + ['\n']));
            Decode(Encode(x)) == if f.Ok? then Finish(f.value) else Err(f.error)
  {
    var y := x.(serverAddr := addr);
    EncodingBreaks(x, y, tail);
    LinesStrip(y);
    UnlinesThen(LinesOf(y), tail + ['\n']);
    TakesExactly(y);
    TakesOn(NO_FIELDS, LinesOf(y), AllFields(y), Lines(tail + ['\n']));
  }

  lemma EncodingBreaks(x: Instance, y: Instance, tail: string)
    requires y == x.(serverAddr := y.serverAddr) && x.serverAddr == y.serverAddr + ['\n'] + tail
    ensures Encode(x) == Encode(y) + (tail + ['\n'])
  {
    var (a, b, c, d) := (LinesOf(y)[0], LinesOf(y)[1], LinesOf(y)[2], LinesOf(y)[3]);
    assert LinesOf(x)[3] == d + ['\n'] + tail;
    FourWritten(a, b, c, d);
    FourWritten(a, b, c, d + ['\n'] + tail);
    var front := a + ['\n'] + (b + ['\n'] + (c + ['\n']));
    assert Encode(y) == front + (d + ['\n']);
    assert Encode(x) == front + (d + ['\n'] + tail + ['\n']);
  }

  lemma FourWritten(a: string, b: string, c: string, d: string)
    ensures Unlines([a, b, c, d]) == a + ['\n'] + (b + ['\n'] + (c + ['\n'])) + (d + ['\n'])
  {
    assert [a, b, c, d][1..] == [b, c, d] && [b, c, d][1..] == [c, d] && [c, d][1..] == [d] && [d][1..] == [];
    assert Unlines([d]) == d + ['\n'];
    assert Unlines([c, d]) == c + ['\n'] + Unlines([d]);
    assert Unlines([b, c, d]) == b + ['\n'] + Unlines([c, d]);
  }

  // ----- file names -----

  function LockName(x: Instance): string {
    RoleText(x.role) + ['-'] + (Numeral(x.pid) + ['-'] + (x.configId + ".lock"))
  }

  /** Different roles, pids or config ids have different lock files. */
  lemma LockNamesDiffer(x: Instance, y: Instance)
    requires LockName(x) == LockName(y)
    ensures x.role == y.role && x.pid == y.pid && x.configId == y.configId
  {
    RoleReadsBack(x.role);
    RoleReadsBack(y.role);
    PidReadsBack(x.pid);
    PidReadsBack(y.pid);
    NumeralReadsBack(x.pid);
    NumeralReadsBack(y.pid);
    var a, b := x.configId + ".lock", y.configId + ".lock";
    CutsAlike(RoleText(x.role), Numeral(x.pid) + ['-'] + a, RoleText(y.role), Numeral(y.pid) + ['-'] + b, '-');
    CutsAlike(Numeral(x.pid), a, Numeral(y.pid), b, '-');
    assert x.configId == a[..|a| - 5] && y.configId == b[..|b| - 5];
  }
}
