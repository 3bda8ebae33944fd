/**
 One direction of the shaper: a reader that asks the token bucket to admit each chunk and stamps it with its delivery
 time, a bounded channel, and a writer that holds each chunk back until then. Either side may fail, and time, in
 seconds, passes between steps.
 */
module DelayLine {
  import opened Basics
  import TokenBucket

  const CAPACITY: nat := 1024
  const BUFFER: nat := 32 * 1024

  /** Half the round trip, counted in microseconds and so exact for odd milliseconds too. */
  function HalfRtt(rttMs: nat): real {
    (rttMs * 500) as real / 1000000.0
  }

  /** The delay of one direction, and its rate in bytes per second if it has one. */
  datatype Link = Link(half: real, rate: Option<real>)

  predicate IsLink(link: Link) {
    link.half >= 0.0 && (link.rate.Some? ==> link.rate.value > 0.0)
  }

  function LinkOf(rttMs: nat, mbit: Option<nat>): (link: Link)
    ensures IsLink(link)
  {
    Link(HalfRtt(rttMs), TokenBucket.RateOf(mbit))
  }

  /** A chunk with the time it was read; and with the times it asked for admission and may leave. */
  datatype Chunk = Chunk(bytes: seq<byte>, readAt: real)
  datatype Timed = Timed(chunk: Chunk, askedAt: real, deliverAt: real)

  /** A reader stops at the end of its input (cleanly or on an error) or when the channel has no receiver. */
  datatype Reader =
    | Ready
    | Holding(chunk: Chunk)
    | Pacing(chunk: Chunk, askedAt: real)
    | Sending(timed: Timed)
    | Ended(clean: bool)
    | Lost(timed: Timed)

  /** A writer stops when the channel is closed and drained, or on a write error. */
  datatype Writer = Receiving | Waiting(timed: Timed) | Drained | Failed(timed: Timed, at: real)

  datatype Written = Written(timed: Timed, at: real)

  /**
   `next` is the bucket's deadline. `source` records what the reader took in, `passed` what it stamped, `sink` what was
   written whole, `partial` the start of a failed write.
   */
  datatype State = State(
    now: real,
    next: real,
    reader: Reader,
    queue: seq<Timed>,
    writer: Writer,
    source: seq<Chunk>,
    passed: seq<Timed>,
    sink: seq<Written>,
    partial: seq<byte>)

  datatype Event =
    | Pass(seconds: real)
    | Read(bytes: seq<byte>)
    | ReadEnds(clean: bool)
    | Ask
    | Stamp
    | Send
    | SendFails
    | Receive
    | Close
    | Write
    | WriteFails(done: nat)

  /** The bucket call of a chunk; how late it wakes up is left to the passing of time. */
  function CallOf(c: Chunk, askedAt: real): TokenBucket.Call {
    TokenBucket.Call(askedAt, 0.0, |c.bytes|)
  }

  /** The bucket lets the chunk go. */
  predicate Admits(link: Link, s: State)
    requires s.reader.Pacing?
  {
    link.rate.None? || s.now >= TokenBucket.Returned(s.next, CallOf(s.reader.chunk, s.reader.askedAt))
  }

  function NextOf(link: Link, s: State): real
    requires IsLink(link) && s.reader.Pacing?
  {
    if link.rate.None? then s.next
    else TokenBucket.NextAfter(link.rate.value, s.next, CallOf(s.reader.chunk, s.reader.askedAt))
  }

  function Do(link: Link, s: State, e: Event): Option<State>
    requires IsLink(link)
  {
    match e
    case Pass(seconds) => if seconds >= 0.0 then Some(s.(now := s.now + seconds)) else None
    case Read(bytes) =>
      if s.reader.Ready? && 0 < |bytes| <= BUFFER then
        var c := Chunk(bytes, s.now);
        Some(s.(reader := Holding(c), source := s.source + [c]))
      else None
    case ReadEnds(clean) => if s.reader.Ready? then Some(s.(reader := Ended(clean))) else None
    case Ask => if s.reader.Holding? then Some(s.(reader := Pacing(s.reader.chunk, s.now))) else None
    case Stamp =>
      if s.reader.Pacing? && Admits(link, s) then
        var t := Timed(s.reader.chunk, s.reader.askedAt, s.now + link.half);
        Some(s.(reader := Sending(t), next := NextOf(link, s), passed := s.passed + [t]))
      else None
    case Send =>
      if s.reader.Sending? && |s.queue| < CAPACITY && (s.writer.Receiving? || s.writer.Waiting?)
      then Some(s.(reader := Ready, queue := s.queue + [s.reader.timed])) else None
    case SendFails =>
      if s.reader.Sending? && (s.writer.Drained? || s.writer.Failed?)
      then Some(s.(reader := Lost(s.reader.timed))) else None
    case Receive =>
      if s.writer.Receiving? && s.queue != []
      then Some(s.(writer := Waiting(s.queue[0]), queue := s.queue[1..])) else None
    case Close =>
      if s.writer.Receiving? && s.queue == [] && (s.reader.Ended? || s.reader.Lost?)
      then Some(s.(writer := Drained)) else None
    case Write =>
      if s.writer.Waiting? && s.now >= s.writer.timed.deliverAt
      then Some(s.(writer := Receiving, sink := s.sink + [Written(s.writer.timed, s.now)])) else None
    case WriteFails(done) =>
      if s.writer.Waiting? && s.now >= s.writer.timed.deliverAt && done <= |s.writer.timed.chunk.bytes|
      then Some(s.(writer := Failed(s.writer.timed, s.now), partial := s.writer.timed.chunk.bytes[..done])) else None
  }

  function Start(now: real): State {
    State(now, now, Ready, [], Receiving, [], [], [], [])
  }

  function Exec(link: Link, now: real, run: seq<Event>): Option<State>
    requires IsLink(link)
  {
    if run == [] then Some(Start(now))
    else
      var n := |run| - 1;
      var before := Exec(link, now, run[..n]);
      if before.None? then None else Do(link, before.value, run[n])
  }

  // ----- where every chunk is -----

  function Chunks(timed: seq<Timed>): seq<Chunk> {
    seq(|timed|, i requires 0 <= i < |timed| => timed[i].chunk)
  }

  function Delivered(sink: seq<Written>): seq<Timed> {
    seq(|sink|, i requires 0 <= i < |sink| => sink[i].timed)
  }

  function InReader(r: Reader): seq<Timed> {
    if r.Sending? || r.Lost? then [r.timed] else []
  }

  function InWriter(w: Writer): seq<Timed> {
    if w.Waiting? || w.Failed? then [w.timed] else []
  }

  function NotPassed(r: Reader): seq<Chunk> {
    if r.Holding? || r.Pacing? then [r.chunk] else []
  }

  /** Every stamped chunk is delivered, with the writer, queued or with the reader, in that order. */
  ghost predicate Placed(s: State) {
    s.passed == Delivered(s.sink) + (InWriter(s.writer) + (s.queue + InReader(s.reader)))
  }

  /** Every chunk read is stamped or still held by the reader. */
  ghost predicate Sourced(s: State) {
    s.source == Chunks(s.passed) + NotPassed(s.reader)
  }

  ghost predicate Stopped(s: State) {
    && (s.writer.Failed? ==> s.partial <= s.writer.timed.chunk.bytes)
    && (!s.writer.Failed? ==> s.partial == [] && !s.reader.Lost?)
    && (s.writer.Drained? ==> s.queue == [] && s.reader.Ended?)
  }

  lemma PlacedStep(link: Link, s: State, e: Event, s': State)
    requires IsLink(link) && Placed(s) && Do(link, s, e) == Some(s')
    ensures Placed(s')
  {
    match e
    case Stamp => assert s.queue + [s'.reader.timed] == s'.queue + InReader(s'.reader);
    case Write => assert Delivered(s'.sink) == Delivered(s.sink) + [s.writer.timed];
    case _ =>
  }

  lemma SourcedStep(link: Link, s: State, e: Event, s': State)
    requires IsLink(link) && Sourced(s) && Do(link, s, e) == Some(s')
    ensures Sourced(s')
  {
    if e.Stamp? {
      assert Chunks(s'.passed) == Chunks(s.passed) + [s.reader.chunk];
    }
  }

  lemma StoppedStep(link: Link, s: State, e: Event, s': State)
    requires IsLink(link) && Stopped(s) && Do(link, s, e) == Some(s')
    ensures Stopped(s')
  {
  }

  // ----- time -----

  predicate OnTime(link: Link, t: Timed) {
    t.chunk.readAt <= t.askedAt && t.askedAt + link.half <= t.deliverAt
  }

  /** No admission is asked before the read, and no delivery comes before its time. */
  ghost predicate Delayed(link: Link, s: State) {
    && (s.reader.Holding? ==> s.reader.chunk.readAt <= s.now)
    && (s.reader.Pacing? ==> s.reader.chunk.readAt <= s.reader.askedAt <= s.now)
    && (forall i :: 0 <= i < |s.passed| ==> OnTime(link, s.passed[i]))
    && (s.writer.Failed? ==> s.writer.at >= s.writer.timed.deliverAt)
    && (forall i :: 0 <= i < |s.sink| ==> s.sink[i].at >= s.sink[i].timed.deliverAt)
    && |s.queue| <= CAPACITY
  }

  lemma DelayedStep(link: Link, s: State, e: Event, s': State)
    requires IsLink(link) && Delayed(link, s) && Do(link, s, e) == Some(s')
    ensures Delayed(link, s')
  {
  }

  // ----- rate -----

  function Calls(timed: seq<Timed>): seq<TokenBucket.Call> {
    seq(|timed|, i requires 0 <= i < |timed| => CallOf(timed[i].chunk, timed[i].askedAt))
  }

  /** The `k`-th chunk leaves no earlier than half a round trip after the bucket's deadline for it. */
  ghost predicate PacedAt(link: Link, rate: real, first: real, passed: seq<Timed>, k: nat)
    requires rate > 0.0 && k < |passed|
  {
    var calls := Calls(passed);
    passed[k].deliverAt >= TokenBucket.Returned(TokenBucket.NextAt(rate, first, calls, k), calls[k]) + link.half
  }

  /** The line uses one bucket: its deadline is the one of the calls so far, and each chunk kept to its own. */
  ghost predicate Paced(link: Link, rate: real, first: real, s: State)
    requires rate > 0.0
  {
    && s.next == TokenBucket.NextAt(rate, first, Calls(s.passed), |s.passed|)
    && forall k: nat :: k < |s.passed| ==> PacedAt(link, rate, first, s.passed, k)
  }

  lemma PacedGrows(link: Link, rate: real, first: real, passed: seq<Timed>, t: Timed, k: nat)
    requires rate > 0.0 && k < |passed| && PacedAt(link, rate, first, passed, k)
    ensures PacedAt(link, rate, first, passed + [t], k)
  {
    CallsGrow(rate, first, passed, t, k);
  }

  lemma CallsGrow(rate: real, first: real, passed: seq<Timed>, t: Timed, k: nat)
    requires rate > 0.0 && k <= |passed|
    ensures TokenBucket.NextAt(rate, first, Calls(passed + [t]), k) == TokenBucket.NextAt(rate, first, Calls(passed), k)
  {
    assert Calls(passed + [t]) == Calls(passed) + [CallOf(t.chunk, t.askedAt)];
    TokenBucket.NextAtOfPrefix(rate, first, Calls(passed), [CallOf(t.chunk, t.askedAt)], k);
  }

  lemma PacedStep(link: Link, rate: real, first: real, s: State, e: Event, s': State)
    requires IsLink(link) && link.rate == Some(rate) && Paced(link, rate, first, s) && Do(link, s, e) == Some(s')
    ensures Paced(link, rate, first, s')
  {
    if e.Stamp? {
      var (t, n) := (s'.reader.timed, |s.passed|);
      CallsGrow(rate, first, s.passed, t, n);
      forall k: nat | k <= n ensures PacedAt(link, rate, first, s'.passed, k) {
        if k < n {
          PacedGrows(link, rate, first, s.passed, t, k);
        }
      }
    }
  }

  // ----- every run -----

  lemma {:induction false} RunKeeps(link: Link, now: real, run: seq<Event>, s: State)
    requires IsLink(link) && Exec(link, now, run) == Some(s)
    ensures Placed(s) && Sourced(s) && Stopped(s) && Delayed(link, s)
    ensures link.rate.Some? ==> Paced(link, link.rate.value, now, s)
  {
    if run != [] {
      var n := |run| - 1;
      var before := Exec(link, now, run[..n]).value;
      RunKeeps(link, now, run[..n], before);
      PlacedStep(link, before, run[n], s);
      SourcedStep(link, before, run[n], s);
      StoppedStep(link, before, run[n], s);
      DelayedStep(link, before, run[n], s);
      if link.rate.Some? {
        PacedStep(link, link.rate.value, now, before, run[n], s);
      }
    }
  }

  /** Where the chunks of the sink, and of a failed write, stand among the chunks read. */
  lemma PlacesAre(s: State, i: nat)
    requires Placed(s) && Sourced(s)
    ensures |s.passed| <= |s.source| && (i < |s.passed| ==> s.source[i] == s.passed[i].chunk)
    ensures i < |s.sink| ==> i < |s.passed| && s.sink[i].timed == s.passed[i]
    ensures s.writer.Failed? ==> |s.sink| < |s.passed| && s.writer.timed == s.passed[|s.sink|]
  {
    if i < |s.sink| {
      assert s.passed[i] == Delivered(s.sink)[i];
    }
    if s.writer.Failed? {
      assert s.passed[|s.sink|] == InWriter(s.writer)[0];
    }
  }

  // ----- bytes -----

  function Bytes(chunks: seq<Chunk>): seq<byte> {
    if chunks == [] then [] else Bytes(chunks[..|chunks| - 1]) + chunks[|chunks| - 1].bytes
  }

  function Input(s: State): seq<byte> {
    Bytes(s.source)
  }

  function Output(s: State): seq<byte> {
    Bytes(Chunks(Delivered(s.sink))) + s.partial
  }

  lemma {:induction false} BytesOfPrefix(a: seq<Chunk>, b: seq<Chunk>)
    ensures Bytes(a) <= Bytes(a + b)
  {
    if b == [] {
      assert a + b == a;
    } else {
      BytesOfPrefix(a, b[..|b| - 1]);
      assert (a + b)[..|a + b| - 1] == a + b[..|b| - 1];
    }
  }

  lemma BytesOneMore(a: seq<Chunk>, c: Chunk)
    ensures Bytes(a + [c]) == Bytes(a) + c.bytes
  {
    assert (a + [c])[..|a|] == a;
  }

  lemma ChunksJoin(a: seq<Timed>, b: seq<Timed>)
    ensures Chunks(a + b) == Chunks(a) + Chunks(b)
  {
  }

  /** What was read starts with what was delivered and what the writer has. */
  lemma SourceIs(s: State) returns (rest: seq<Chunk>)
    requires Placed(s) && Sourced(s)
    ensures s.source == Chunks(Delivered(s.sink)) + Chunks(InWriter(s.writer)) + rest
  {
    var (d, w, q) := (Delivered(s.sink), InWriter(s.writer), s.queue + InReader(s.reader));
    ChunksJoin(d, w + q);
    ChunksJoin(w, q);
    rest := Chunks(q) + NotPassed(s.reader);
  }

  /** In every run the output is a prefix of the input, byte for byte and in order, whatever fails. */
  lemma OutputIsAPrefix(link: Link, now: real, run: seq<Event>, s: State)
    requires IsLink(link) && Exec(link, now, run) == Some(s)
    ensures Output(s) <= Input(s)
  {
    RunKeeps(link, now, run, s);
    var d := Chunks(Delivered(s.sink));
    var rest := SourceIs(s);
    if s.writer.Failed? {
      BytesOneMore(d, s.writer.timed.chunk);
      BytesOfPrefix(d + [s.writer.timed.chunk], rest);
      assert Chunks(InWriter(s.writer)) == [s.writer.timed.chunk];
    } else {
      BytesOfPrefix(d, Chunks(InWriter(s.writer)) + rest);
      assert d + (Chunks(InWriter(s.writer)) + rest) == d + Chunks(InWriter(s.writer)) + rest;
    }
  }

  /** Nothing is written, whole or in part, before its read time plus half the round trip; the channel never overflows. */
  lemma NothingIsEarly(rttMs: nat, mbit: Option<nat>, now: real, run: seq<Event>, s: State, i: nat)
    requires Exec(LinkOf(rttMs, mbit), now, run) == Some(s)
    ensures |s.queue| <= CAPACITY
    ensures i < |s.sink| ==>
      && 2000.0 * (s.sink[i].at - s.sink[i].timed.chunk.readAt) >= rttMs as real
      && i < |s.source| && s.sink[i].timed.chunk == s.source[i]
    ensures s.writer.Failed? ==>
      && 2000.0 * (s.writer.at - s.writer.timed.chunk.readAt) >= rttMs as real
      && |s.sink| < |s.source| && s.writer.timed.chunk == s.source[|s.sink|] && s.partial <= s.source[|s.sink|].bytes
    ensures !s.writer.Failed? ==> s.partial == []
  {
    var link := LinkOf(rttMs, mbit);
    RunKeeps(link, now, run, s);
    PlacesAre(s, i);
    PlacesAre(s, |s.sink|);
    assert i < |s.sink| ==> OnTime(link, s.passed[i]);
    assert s.writer.Failed? ==> OnTime(link, s.passed[|s.sink|]);
  }

  /** A writer that drains the channel has written the whole input. */
  lemma DrainedIsComplete(link: Link, now: real, run: seq<Event>, s: State)
    requires IsLink(link) && Exec(link, now, run) == Some(s) && s.writer.Drained?
    ensures Output(s) == Input(s) && Chunks(Delivered(s.sink)) == s.source
  {
    RunKeeps(link, now, run, s);
    assert s.source == Chunks(Delivered(s.sink));
  }

  // ----- what comes out, and how fast -----

  lemma {:induction false} BytesAreCounted(passed: seq<Timed>, i: nat, j: nat)
    requires i <= j <= |passed|
    ensures TokenBucket.Bytes(Calls(passed), i, j) == |Bytes(Chunks(passed)[i..j])|
    decreases j
  {
    if i < j {
      BytesAreCounted(passed, i, j - 1);
      assert Chunks(passed)[i..j] == Chunks(passed)[i..j - 1] + [passed[j - 1].chunk];
      BytesOneMore(Chunks(passed)[i..j - 1], passed[j - 1].chunk);
    }
  }

  /** Read since `since` and out by `at`, the chunks hold no more than the rate allows in the time less the delay. */
  predicate WithinRate(link: Link, rate: real, chunks: seq<Chunk>, since: real, at: real) {
    |Bytes(chunks)| as real <= rate * (at - link.half - since)
  }

  lemma PassedWithinRate(link: Link, rate: real, first: real, s: State, i: nat, j: nat, at: real)
    requires rate > 0.0 && Paced(link, rate, first, s) && Delayed(link, s) && Sourced(s)
    requires i <= j < |s.passed| && at >= s.passed[j].deliverAt
    ensures j < |s.source| && WithinRate(link, rate, s.source[i..j], s.source[i].readAt, at)
  {
    CountWithinRate(link, rate, first, s.passed, i, j, at);
    SourceSlice(s, i, j);
  }

  lemma SourceSlice(s: State, i: nat, j: nat)
    requires Sourced(s) && i <= j < |s.passed|
    ensures j < |s.source| && s.source[i] == s.passed[i].chunk && s.source[i..j] == Chunks(s.passed)[i..j]
  {
  }

  lemma CountWithinRate(link: Link, rate: real, first: real, passed: seq<Timed>, i: nat, j: nat, at: real)
    requires rate > 0.0 && i <= j < |passed| && PacedAt(link, rate, first, passed, j) && OnTime(link, passed[i])
    requires at >= passed[j].deliverAt
    ensures WithinRate(link, rate, Chunks(passed)[i..j], passed[i].chunk.readAt, at)
  {
    TokenBucket.RateIsRespected(rate, first, Calls(passed), i, j, at - link.half - passed[i].chunk.readAt);
    BytesAreCounted(passed, i, j);
  }

  lemma SinkWithinRate(link: Link, rate: real, first: real, s: State, i: nat, j: nat)
    requires rate > 0.0 && Paced(link, rate, first, s) && Delayed(link, s) && Placed(s) && Sourced(s) && i <= j
    ensures j < |s.sink| ==> j < |s.source| && WithinRate(link, rate, s.source[i..j], s.source[i].readAt, s.sink[j].at)
    ensures s.writer.Failed? && j == |s.sink| ==>
              j < |s.source| && WithinRate(link, rate, s.source[i..j], s.source[i].readAt, s.writer.at)
  {
    PlacesAre(s, j);
    if j < |s.sink| {
      PassedWithinRate(link, rate, first, s, i, j, s.sink[j].at);
    } else if s.writer.Failed? && j == |s.sink| {
      PassedWithinRate(link, rate, first, s, i, j, s.writer.at);
    }
  }

  /**
   The cap holds end to end in every run: for any two chunks written, and for a failed write after any chunk, the bytes
   from the first up to the second are at most the rate times the time from the read of the first to the write of the
   second, less half the round trip.
   */
  lemma RateHoldsAtTheSink(rttMs: nat, mbit: nat, now: real, run: seq<Event>, s: State, i: nat, j: nat)
    requires mbit > 0 && Exec(LinkOf(rttMs, Some(mbit)), now, run) == Some(s) && i <= j
    ensures var (link, rate) := (LinkOf(rttMs, Some(mbit)), mbit as real * 125000.0);
            && (j < |s.sink| ==>
                  j < |s.source| && WithinRate(link, rate, s.source[i..j], s.source[i].readAt, s.sink[j].at))
            && (s.writer.Failed? && j == |s.sink| ==>
                  j < |s.source| && WithinRate(link, rate, s.source[i..j], s.source[i].readAt, s.writer.at))
  {
    var link := LinkOf(rttMs, Some(mbit));
    RunKeeps(link, now, run, s);
    SinkWithinRate(link, link.rate.value, now, s, i, j);
  }
}
