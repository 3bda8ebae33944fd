/** The replay cache reference: what one call does, and what any sequence of calls keeps. */
module ReplayCache {
  import opened Basics

  const U64_MAX: nat := 0xFFFF_FFFF_FFFF_FFFF
  type u64 = n: nat | n <= U64_MAX

  const MAX_FUTURE_SKEW_SECS: u64 := 5

  type Nonce = s: seq<byte> | |s| == 8 witness seq(8, _ => 0)
  type Transcript = s: seq<byte> | |s| == 32 witness seq(32, _ => 0)

  datatype Entry = Entry(timestamp: u64, nonce: Nonce, transcript: Transcript)

  datatype Outcome = Inserted | Replayed | Stale | CacheFull

  function SaturatingAdd(a: u64, b: u64): u64 {
    if a + b <= U64_MAX then a + b else U64_MAX
  }

  /** Still inside the window: the entry's expiry, saturating, has not passed. */
  predicate Unexpired(window: u64, e: Entry, now: u64) {
    SaturatingAdd(e.timestamp, window) >= now
  }

  predicate IsFresh(window: u64, e: Entry, now: u64) {
    e.timestamp <= SaturatingAdd(now, MAX_FUTURE_SKEW_SECS) && Unexpired(window, e, now)
  }

  /** The unexpired entries, in arrival order. */
  function Keep(window: u64, order: seq<Entry>, now: u64): seq<Entry> {
    if order == [] then []
    else
      var n := |order| - 1;
      Keep(window, order[..n], now) + if Unexpired(window, order[n], now) then [order[n]] else []
  }

  function Nonces(order: seq<Entry>): set<Nonce> {
    set i | 0 <= i < |order| :: order[i].nonce
  }

  function Transcripts(order: seq<Entry>): set<Transcript> {
    set i | 0 <= i < |order| :: order[i].transcript
  }

  predicate Seen(order: seq<Entry>, e: Entry) {
    exists i :: 0 <= i < |order| && (order[i].nonce == e.nonce || order[i].transcript == e.transcript)
  }

  /** The decision for `e` against the entries kept at `now`: stale, then replayed, then full. */
  function Decide(capacity: nat, window: u64, kept: seq<Entry>, e: Entry, now: u64): Outcome {
    if !IsFresh(window, e, now) then Stale
    else if Seen(kept, e) then Replayed
    else if |kept| >= capacity then CacheFull
    else Inserted
  }

  class RefModel {
    const capacity: nat
    const window: u64
    var order: seq<Entry>
    var nonces: set<Nonce>
    var transcripts: set<Transcript>

    /** The index sets are the projections of the log. */
    ghost predicate Valid()
      reads this
    {
      nonces == Nonces(order) && transcripts == Transcripts(order)
    }

    constructor (capacity: nat, window: u64)
      ensures Valid() && order == [] && this.capacity == capacity && this.window == window
    {
      this.capacity := capacity;
      this.window := window;
      order, nonces, transcripts := [], {}, {};
    }

    method Prune(now: u64)
      modifies this
      ensures Valid() && order == Keep(window, old(order), now)
    {
      var kept := [];
      for i := 0 to |order|
        invariant order == old(order) && kept == Keep(window, order[..i], now)
      {
        assert order[..i + 1][..i] == order[..i];
        if Unexpired(window, order[i], now) {
          kept := kept + [order[i]];
        }
      }
      assert order[..|order|] == order;
      order := kept;
      nonces := Nonces(order);
      transcripts := Transcripts(order);
    }

    method Insert(e: Entry, now: u64) returns (out: Outcome)
      requires Valid()
      modifies this
      ensures Valid()
      ensures capacity == 0 ==> out == Inserted && order == old(order)
      ensures capacity > 0 ==>
        var kept := Keep(window, old(order), now);
        out == Decide(capacity, window, kept, e, now) && order == if out == Inserted then kept + [e] else kept
    {
      if capacity == 0 {
        return Inserted;
      }
      Prune(now);
      SeenIsIndexed(order, e);
      if !IsFresh(window, e, now) {
        return Stale;
      }
      if e.nonce in nonces || e.transcript in transcripts {
        return Replayed;
      }
      if |order| >= capacity {
        return CacheFull;
      }
      IndexGrows(order, e);
      nonces := nonces + {e.nonce};
      transcripts := transcripts + {e.transcript};
      order := order + [e];
      return Inserted;
    }
  }

  lemma SeenIsIndexed(order: seq<Entry>, e: Entry)
    ensures Seen(order, e) <==> e.nonce in Nonces(order) || e.transcript in Transcripts(order)
  {
  }

  lemma IndexGrows(order: seq<Entry>, e: Entry)
    ensures Nonces(order + [e]) == Nonces(order) + {e.nonce}
    ensures Transcripts(order + [e]) == Transcripts(order) + {e.transcript}
  {
    var more := order + [e];
    assert forall i :: 0 <= i < |order| ==> more[i] == order[i];
    assert more[|order|] == e;
    forall n | n in Nonces(order) ensures n in Nonces(more) {
      var i :| 0 <= i < |order| && order[i].nonce == n;
      assert more[i].nonce == n;
    }
    forall t | t in Transcripts(order) ensures t in Transcripts(more) {
      var i :| 0 <= i < |order| && order[i].transcript == t;
      assert more[i].transcript == t;
    }
  }

  // ----- runs -----

  /** A call: an insert, or a prune on its own. */
  datatype Op = Insert(entry: Entry, now: u64) | Prune(now: u64)

  datatype Step = Step(order: seq<Entry>, inserted: bool)

  /** The log after one call, and whether the call put its entry into it. */
  function StepOf(capacity: nat, window: u64, order: seq<Entry>, op: Op): Step
    requires capacity > 0
  {
    var kept := Keep(window, order, op.now);
    if op.Insert? && Decide(capacity, window, kept, op.entry, op.now) == Inserted
    then Step(kept + [op.entry], true)
    else Step(kept, false)
  }

  /** The log after a run of calls on an empty cache. */
  function Log(capacity: nat, window: u64, ops: seq<Op>): seq<Entry>
    requires capacity > 0
  {
    if ops == [] then []
    else StepOf(capacity, window, Log(capacity, window, ops[..|ops| - 1]), ops[|ops| - 1]).order
  }

  /** Whether the i-th call inserted its entry. */
  predicate Accepted(capacity: nat, window: u64, ops: seq<Op>, i: nat)
    requires capacity > 0 && i < |ops|
  {
    StepOf(capacity, window, Log(capacity, window, ops[..i]), ops[i]).inserted
  }

  /** One call. */
  method Make(cache: RefModel, op: Op) returns (inserted: bool)
    requires cache.Valid() && cache.capacity > 0
    modifies cache
    ensures cache.Valid() && Step(cache.order, inserted) == StepOf(cache.capacity, cache.window, old(cache.order), op)
  {
    match op
    case Insert(entry, now) =>
      var out := cache.Insert(entry, now);
      return out == Inserted;
    case Prune(now) =>
      cache.Prune(now);
      return false;
  }

  /** The calls of a run, made one after another on a new cache. */
  method RunCalls(capacity: nat, window: u64, ops: seq<Op>) returns (order: seq<Entry>, accepted: seq<bool>)
    requires capacity > 0
    ensures order == Log(capacity, window, ops)
    ensures |accepted| == |ops| && forall i :: 0 <= i < |ops| ==> accepted[i] == Accepted(capacity, window, ops, i)
  {
    var cache := new RefModel(capacity, window);
    accepted := [];
    for k := 0 to |ops|
      invariant cache.Valid() && cache.capacity == capacity && cache.window == window
      invariant cache.order == Log(capacity, window, ops[..k])
      invariant |accepted| == k && forall i :: 0 <= i < k ==> accepted[i] == Accepted(capacity, window, ops, i)
    {
      assert ops[..k + 1][..k] == ops[..k];
      var inserted := Make(cache, ops[k]);
      accepted := accepted + [inserted];
    }
    assert ops[..|ops|] == ops;
    return cache.order, accepted;
  }

  /** No call from `i` to the end of the run came after the entry's expiry. */
  predicate NeverExpired(window: u64, ops: seq<Op>, i: nat, e: Entry) {
    forall k :: i <= k < |ops| ==> Unexpired(window, e, ops[k].now)
  }

  /** The i-th call's entry, if that call accepted one. */
  ghost function Arrival(capacity: nat, window: u64, ops: seq<Op>, i: nat): seq<Entry>
    requires capacity > 0 && i < |ops|
  {
    if ops[i].Insert? && Accepted(capacity, window, ops, i) then [ops[i].entry] else []
  }

  /** The same, if no call since has found it expired. */
  ghost function Survivor(capacity: nat, window: u64, ops: seq<Op>, i: nat): seq<Entry>
    requires capacity > 0 && i < |ops|
  {
    var arrived := Arrival(capacity, window, ops, i);
    if arrived != [] && NeverExpired(window, ops, i, arrived[0]) then arrived else []
  }

  ghost function EachArrival(capacity: nat, window: u64, ops: seq<Op>): nat -> seq<Entry>
    requires capacity > 0
  {
    (i: nat) => if i < |ops| then Arrival(capacity, window, ops, i) else []
  }

  ghost function EachSurvivor(capacity: nat, window: u64, ops: seq<Op>): nat -> seq<Entry>
    requires capacity > 0
  {
    (i: nat) => if i < |ops| then Survivor(capacity, window, ops, i) else []
  }

  /** The pieces `f(0)`, .., `f(n - 1)` in order. */
  function Gather(f: nat -> seq<Entry>, n: nat): seq<Entry> {
    if n == 0 then [] else Gather(f, n - 1) + f(n - 1)
  }

  /** Of the first `n` calls, the accepted entries that no later call found expired, in arrival order. */
  ghost function Survivors(capacity: nat, window: u64, ops: seq<Op>, n: nat): seq<Entry>
    requires capacity > 0 && n <= |ops|
  {
    Gather(EachSurvivor(capacity, window, ops), n)
  }

  lemma {:induction false} KeepAppend(window: u64, a: seq<Entry>, b: seq<Entry>, now: u64)
    ensures Keep(window, a + b, now) == Keep(window, a, now) + Keep(window, b, now)
  {
    if b == [] {
      assert a + b == a;
    } else {
      var n := |b| - 1;
      assert (a + b)[..|a + b| - 1] == a + b[..n];
      KeepAppend(window, a, b[..n], now);
    }
  }

  lemma NeverExpiredGrows(window: u64, ops: seq<Op>, op: Op, i: nat, e: Entry)
    requires i <= |ops|
    ensures NeverExpired(window, ops + [op], i, e) <==> NeverExpired(window, ops, i, e) && Unexpired(window, e, op.now)
  {
    var more := ops + [op];
    assert more[|ops|] == op && forall k :: 0 <= k < |ops| ==> more[k] == ops[k];
  }

  lemma ArrivalPrefix(capacity: nat, window: u64, ops: seq<Op>, more: seq<Op>, i: nat)
    requires capacity > 0 && i < |ops|
    ensures Arrival(capacity, window, ops + more, i) == Arrival(capacity, window, ops, i)
  {
    assert (ops + more)[..i] == ops[..i];
  }

  lemma KeepOne(window: u64, e: Entry, now: u64)
    ensures Keep(window, [e], now) == if Unexpired(window, e, now) then [e] else []
  {
    assert [e][..0] == [];
  }

  lemma SurvivorShrinks(capacity: nat, window: u64, ops: seq<Op>, op: Op, i: nat)
    requires capacity > 0 && i < |ops|
    ensures Survivor(capacity, window, ops + [op], i) == Keep(window, Survivor(capacity, window, ops, i), op.now)
  {
    ArrivalPrefix(capacity, window, ops, [op], i);
    var arrived := Arrival(capacity, window, ops, i);
    if arrived != [] {
      NeverExpiredGrows(window, ops, op, i, arrived[0]);
      KeepOne(window, arrived[0], op.now);
    }
  }

  lemma {:induction false} GatherKeep(f: nat -> seq<Entry>, g: nat -> seq<Entry>, n: nat, window: u64, now: u64)
    requires forall i :: 0 <= i < n ==> g(i) == Keep(window, f(i), now)
    ensures Gather(g, n) == Keep(window, Gather(f, n), now)
  {
    if n > 0 {
      GatherKeep(f, g, n - 1, window, now);
      KeepAppend(window, Gather(f, n - 1), f(n - 1), now);
    }
  }

  /** One more call drops from the survivors exactly what it finds expired. */
  lemma SurvivorsShrink(capacity: nat, window: u64, ops: seq<Op>, op: Op)
    requires capacity > 0
    ensures Survivors(capacity, window, ops + [op], |ops|) == Keep(window, Survivors(capacity, window, ops, |ops|), op.now)
  {
    var more := ops + [op];
    var f := EachSurvivor(capacity, window, ops);
    var g := EachSurvivor(capacity, window, more);
    forall i: nat | i < |ops| ensures g(i) == Keep(window, f(i), op.now) {
      SurvivorShrinks(capacity, window, ops, op, i);
    }
    GatherKeep(f, g, |ops|, window, op.now);
  }

  /** A call's own entry, being fresh, is not expired by that call. */
  lemma LastIsFresh(capacity: nat, window: u64, ops: seq<Op>, n: nat)
    requires capacity > 0 && |ops| == n + 1
    ensures Survivor(capacity, window, ops, n) == Arrival(capacity, window, ops, n)
  {
    if ops[n].Insert? && Accepted(capacity, window, ops, n) {
      assert IsFresh(window, ops[n].entry, ops[n].now);
    }
  }

  lemma LastSurvives(capacity: nat, window: u64, ops: seq<Op>, n: nat)
    requires capacity > 0 && |ops| == n + 1
    ensures Log(capacity, window, ops)
         == Keep(window, Log(capacity, window, ops[..n]), ops[n].now) + Survivor(capacity, window, ops, n)
  {
    LastIsFresh(capacity, window, ops, n);
  }

  /** Under any clock, the log is exactly the accepted entries no later call found expired, in arrival order. */
  lemma {:induction false} LogIsSurvivors(capacity: nat, window: u64, ops: seq<Op>)
    requires capacity > 0
    ensures Log(capacity, window, ops) == Survivors(capacity, window, ops, |ops|)
  {
    if ops != [] {
      var n := |ops| - 1;
      LogIsSurvivors(capacity, window, ops[..n]);
      assert ops[..n] + [ops[n]] == ops;
      SurvivorsShrink(capacity, window, ops[..n], ops[n]);
      LastSurvives(capacity, window, ops, n);
    }
  }

  // ----- distinctness and capacity -----

  predicate Apart(a: Entry, b: Entry) {
    a.nonce != b.nonce && a.transcript != b.transcript
  }

  /** No two entries share a nonce or a transcript. */
  predicate AllDistinct(order: seq<Entry>) {
    forall i, j :: 0 <= i < j < |order| ==> Apart(order[i], order[j])
  }

  lemma {:induction false} KeepIsPart(window: u64, order: seq<Entry>, now: u64)
    ensures |Keep(window, order, now)| <= |order|
    ensures forall e :: e in Keep(window, order, now) <==> e in order && Unexpired(window, e, now)
  {
    if order != [] {
      var n := |order| - 1;
      KeepIsPart(window, order[..n], now);
      assert order == order[..n] + [order[n]];
    }
  }

  lemma OneMoreIsDistinct(order: seq<Entry>, e: Entry)
    requires AllDistinct(order) && forall x :: x in order ==> Apart(x, e)
    ensures AllDistinct(order + [e])
  {
    var more := order + [e];
    forall i, j | 0 <= i < j < |more| ensures Apart(more[i], more[j]) {
      assert more[i] in order;
    }
  }

  lemma {:induction false} KeepStaysDistinct(window: u64, order: seq<Entry>, now: u64)
    requires AllDistinct(order)
    ensures AllDistinct(Keep(window, order, now))
  {
    if order != [] {
      var n := |order| - 1;
      KeepStaysDistinct(window, order[..n], now);
      KeepIsPart(window, order[..n], now);
      forall x | x in order[..n] ensures Apart(x, order[n]) {
        var i :| 0 <= i < n && order[i] == x;
      }
      OneMoreIsDistinct(Keep(window, order[..n], now), order[n]);
    }
  }

  lemma StepIsDistinct(capacity: nat, window: u64, order: seq<Entry>, op: Op)
    requires capacity > 0 && AllDistinct(order) && |order| <= capacity
    ensures var after := StepOf(capacity, window, order, op).order; AllDistinct(after) && |after| <= capacity
  {
    var kept := Keep(window, order, op.now);
    KeepIsPart(window, order, op.now);
    KeepStaysDistinct(window, order, op.now);
    if op.Insert? && Decide(capacity, window, kept, op.entry, op.now) == Inserted {
      OneMoreIsDistinct(kept, op.entry);
    }
  }

  /** After any run the log is free of repeated nonces and transcripts and within capacity. */
  lemma {:induction false} LogIsDistinct(capacity: nat, window: u64, ops: seq<Op>)
    requires capacity > 0
    ensures AllDistinct(Log(capacity, window, ops)) && |Log(capacity, window, ops)| <= capacity
  {
    if ops != [] {
      var n := |ops| - 1;
      LogIsDistinct(capacity, window, ops[..n]);
      StepIsDistinct(capacity, window, Log(capacity, window, ops[..n]), ops[n]);
    }
  }

  /** The outcome of an insert after a run. */
  function OutcomeAfter(capacity: nat, window: u64, ops: seq<Op>, e: Entry, now: u64): Outcome
    requires capacity > 0
  {
    Decide(capacity, window, Keep(window, Log(capacity, window, ops), now), e, now)
  }

  /** CacheFull comes back exactly for a fresh, unseen entry when capacity unexpired entries are held. */
  lemma FullMeansFull(capacity: nat, window: u64, ops: seq<Op>, e: Entry, now: u64)
    requires capacity > 0
    ensures var held := Keep(window, Log(capacity, window, ops), now);
            OutcomeAfter(capacity, window, ops, e, now) == CacheFull
            <==> IsFresh(window, e, now) && !Seen(held, e) && |held| == capacity
  {
    LogIsDistinct(capacity, window, ops);
    KeepIsPart(window, Log(capacity, window, ops), now);
  }

  // ----- clocks that never go back -----

  predicate Monotone(ops: seq<Op>) {
    forall i, j :: 0 <= i < j < |ops| ==> ops[i].now <= ops[j].now
  }

  /** Every entry the first `n` calls accepted, in arrival order. */
  ghost function AcceptedEntries(capacity: nat, window: u64, ops: seq<Op>, n: nat): seq<Entry>
    requires capacity > 0 && n <= |ops|
  {
    Gather(EachArrival(capacity, window, ops), n)
  }

  lemma MonotoneSurvivor(capacity: nat, window: u64, ops: seq<Op>, i: nat)
    requires capacity > 0 && Monotone(ops) && i < |ops|
    ensures Survivor(capacity, window, ops, i) == Keep(window, Arrival(capacity, window, ops, i), ops[|ops| - 1].now)
  {
    var arrived := Arrival(capacity, window, ops, i);
    if arrived != [] {
      KeepOne(window, arrived[0], ops[|ops| - 1].now);
    }
  }

  /** With a non-decreasing clock the log is the accepted entries unexpired at the latest time. */
  lemma MonotoneLog(capacity: nat, window: u64, ops: seq<Op>)
    requires capacity > 0 && ops != [] && Monotone(ops)
    ensures Log(capacity, window, ops)
         == Keep(window, AcceptedEntries(capacity, window, ops, |ops|), ops[|ops| - 1].now)
  {
    LogIsSurvivors(capacity, window, ops);
    var now := ops[|ops| - 1].now;
    var f := EachArrival(capacity, window, ops);
    var g := EachSurvivor(capacity, window, ops);
    forall i: nat | i < |ops| ensures g(i) == Keep(window, f(i), now) {
      MonotoneSurvivor(capacity, window, ops, i);
    }
    GatherKeep(f, g, |ops|, window, now);
  }

  // ----- no double acceptance -----

  /** A call keeps every entry it does not find expired. */
  lemma StaysOneMore(capacity: nat, window: u64, order: seq<Entry>, op: Op, e: Entry)
    requires capacity > 0 && e in order && Unexpired(window, e, op.now)
    ensures e in StepOf(capacity, window, order, op).order
  {
    KeepIsPart(window, order, op.now);
  }

  lemma LogStep(capacity: nat, window: u64, ops: seq<Op>, j: nat)
    requires capacity > 0 && j < |ops|
    ensures Log(capacity, window, ops[..j + 1]) == StepOf(capacity, window, Log(capacity, window, ops[..j]), ops[j]).order
  {
    assert ops[..j + 1][..j] == ops[..j];
  }

  lemma EntersLog(capacity: nat, window: u64, ops: seq<Op>, i: nat)
    requires capacity > 0 && i < |ops| && ops[i].Insert? && Accepted(capacity, window, ops, i)
    ensures ops[i].entry in Log(capacity, window, ops[..i + 1])
  {
    LogStep(capacity, window, ops, i);
  }

  lemma {:induction false} StaysInLog(capacity: nat, window: u64, ops: seq<Op>, i: nat, j: nat)
    requires capacity > 0 && i < j <= |ops| && ops[i].Insert? && Accepted(capacity, window, ops, i)
    requires forall k :: i < k < j ==> Unexpired(window, ops[i].entry, ops[k].now)
    ensures ops[i].entry in Log(capacity, window, ops[..j])
    decreases j
  {
    if i == j - 1 {
      EntersLog(capacity, window, ops, i);
    } else {
      var n := j - 1;
      StaysInLog(capacity, window, ops, i, n);
      LogStep(capacity, window, ops, n);
      StaysOneMore(capacity, window, Log(capacity, window, ops[..n]), ops[n], ops[i].entry);
    }
  }

  predicate SameTicket(a: Entry, b: Entry) {
    a.timestamp == b.timestamp && (a.nonce == b.nonce || a.transcript == b.transcript)
  }

  /**
   Under any clock: if the same timestamp with the same nonce or transcript is inserted
   twice, some call strictly between ran past the entry's expiry and the clock went back.
   */
  lemma TwiceNeedsRollback(capacity: nat, window: u64, ops: seq<Op>, i: nat, j: nat)
    requires capacity > 0 && i < j < |ops| && ops[i].Insert? && ops[j].Insert?
    requires Accepted(capacity, window, ops, i) && Accepted(capacity, window, ops, j)
    requires SameTicket(ops[i].entry, ops[j].entry)
    ensures exists k :: i < k < j && ops[k].now > SaturatingAdd(ops[i].entry.timestamp, window) >= ops[j].now
  {
    var e := ops[i].entry;
    assert Unexpired(window, e, ops[j].now);
    if forall k :: i < k < j ==> Unexpired(window, e, ops[k].now) {
      StaysInLog(capacity, window, ops, i, j);
      KeepIsPart(window, Log(capacity, window, ops[..j]), ops[j].now);
    }
  }

  /** With a non-decreasing clock nothing is accepted twice, at u64 saturation too. */
  lemma MonotoneAcceptsOnce(capacity: nat, window: u64, ops: seq<Op>, i: nat, j: nat)
    requires capacity > 0 && i < j < |ops| && ops[i].Insert? && ops[j].Insert? && Monotone(ops)
    requires SameTicket(ops[i].entry, ops[j].entry)
    ensures !(Accepted(capacity, window, ops, i) && Accepted(capacity, window, ops, j))
  {
    if Accepted(capacity, window, ops, i) && Accepted(capacity, window, ops, j) {
      TwiceNeedsRollback(capacity, window, ops, i, j);
    }
  }

  /** The rollback is real: one prune past the expiry, then the clock back, and the same ticket goes in again. */
  lemma RollbackReaccepts(e: Entry, window: u64)
    requires e.timestamp + window < U64_MAX
    ensures var ops := [Insert(e, e.timestamp), Prune(e.timestamp + window + 1), Insert(e, e.timestamp)];
            Accepted(1, window, ops, 0) && Accepted(1, window, ops, 2)
  {
    var ops := [Insert(e, e.timestamp), Prune(e.timestamp + window + 1), Insert(e, e.timestamp)];
    assert ops[..0] == [];
    assert ops[..1] == [ops[0]];
    assert ops[..2] == [ops[0], ops[1]];
    assert ops[..2][..1] == [ops[0]];
    assert Log(1, window, ops[..1]) == [e];
    KeepOne(window, e, e.timestamp + window + 1);
    assert Log(1, window, ops[..2]) == [];
  }
}
