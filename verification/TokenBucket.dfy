/** The shaper's token bucket over real time: what any sequence of calls admits. */
module TokenBucket {
  import opened Basics

  /** Bytes per second for a cap in Mbit/s; a missing or zero cap is unbounded. */
  function RateOf(mbit: Option<nat>): Option<real> {
    if mbit.Some? && mbit.value > 0 then Some(mbit.value as real * 125000.0) else None
  }

  function Max(a: real, b: real): real {
    if a < b then b else a
  }

  class Bucket {
    const rate: Option<real>
    var next: real

    constructor (mbit: Option<nat>, now: real)
      ensures rate == RateOf(mbit) && next == now
    {
      rate := RateOf(mbit);
      next := now;
    }

    /** Called at `now`; a sleep may end `late` after its deadline. Returns the time of return. */
    method Consume(n: nat, now: real, late: real) returns (returned: real)
      requires late >= 0.0 && (rate.Some? ==> rate.value > 0.0)
      modifies this
      ensures rate.None? ==> returned == now && next == old(next)
      ensures rate.Some? ==>
        var call := Call(now, late, n);
        returned == Returned(old(next), call) && next == NextAfter(rate.value, old(next), call)
    {
      if rate.None? {
        return now;
      }
      returned := now;
      if next > now {
        returned := next + late;
      }
      var base := Max(next, now);
      next := base + n as real / rate.value;
    }
  }

  datatype Call = Call(start: real, late: real, bytes: nat)

  function Returned(next: real, c: Call): real {
    if next > c.start then next + c.late else c.start
  }

  function NextAfter(rate: real, next: real, c: Call): real
    requires rate > 0.0
  {
    Max(next, c.start) + c.bytes as real / rate
  }

  /** The bucket's deadline before the k-th call. */
  function NextAt(rate: real, first: real, calls: seq<Call>, k: nat): real
    requires rate > 0.0 && k <= |calls|
  {
    if k == 0 then first else NextAfter(rate, NextAt(rate, first, calls, k - 1), calls[k - 1])
  }

  lemma {:induction false} NextAtOfPrefix(rate: real, first: real, calls: seq<Call>, more: seq<Call>, k: nat)
    requires rate > 0.0 && k <= |calls|
    ensures NextAt(rate, first, calls + more, k) == NextAt(rate, first, calls, k)
  {
    if k > 0 {
      NextAtOfPrefix(rate, first, calls, more, k - 1);
    }
  }

  /** When each of the first k calls returns. */
  function Returns(rate: real, first: real, calls: seq<Call>, k: nat): (r: seq<real>)
    requires rate > 0.0 && k <= |calls|
    ensures |r| == k
  {
    if k == 0 then []
    else Returns(rate, first, calls, k - 1) + [Returned(NextAt(rate, first, calls, k - 1), calls[k - 1])]
  }

  lemma {:induction false} ReturnsAt(rate: real, first: real, calls: seq<Call>, k: nat, i: nat)
    requires rate > 0.0 && i < k <= |calls|
    ensures Returns(rate, first, calls, k)[i] == Returned(NextAt(rate, first, calls, i), calls[i])
  {
    if i < k - 1 {
      ReturnsAt(rate, first, calls, k - 1, i);
    }
  }

  /** The calls of a run, made one after another on one bucket. */
  method RunCalls(bucket: Bucket, rate: real, calls: seq<Call>) returns (returned: seq<real>)
    requires bucket.rate == Some(rate) && rate > 0.0 && forall k :: 0 <= k < |calls| ==> calls[k].late >= 0.0
    modifies bucket
    ensures bucket.next == NextAt(rate, old(bucket.next), calls, |calls|)
    ensures returned == Returns(rate, old(bucket.next), calls, |calls|)
  {
    ghost var first := bucket.next;
    returned := [];
    for k := 0 to |calls|
      invariant bucket.next == NextAt(rate, first, calls, k) && returned == Returns(rate, first, calls, k)
    {
      var at := bucket.Consume(calls[k].bytes, calls[k].start, calls[k].late);
      returned := returned + [at];
    }
  }

  /** The bytes of calls i to j - 1. */
  function Bytes(calls: seq<Call>, i: nat, j: nat): nat
    requires i <= j <= |calls|
    decreases j
  {
    if i == j then 0 else Bytes(calls, i, j - 1) + calls[j - 1].bytes
  }

  /** The time those bytes take at the rate. */
  function Span(rate: real, calls: seq<Call>, i: nat, j: nat): real
    requires rate > 0.0 && i <= j <= |calls|
  {
    Bytes(calls, i, j) as real / rate
  }

  lemma SpanAdds(rate: real, calls: seq<Call>, i: nat, j: nat)
    requires rate > 0.0 && i < j <= |calls|
    ensures Span(rate, calls, i, j) == Span(rate, calls, i, j - 1) + calls[j - 1].bytes as real / rate
  {
    var (a, b) := (Bytes(calls, i, j - 1) as real, calls[j - 1].bytes as real);
    assert (a + b) / rate == a / rate + b / rate;
  }

  /** The deadline is behind every earlier call by at least the time of the bytes since. */
  lemma {:induction false} DeadlineIsFar(rate: real, first: real, calls: seq<Call>, i: nat, j: nat)
    requires rate > 0.0 && i < j <= |calls|
    ensures NextAt(rate, first, calls, j) >= calls[i].start + Span(rate, calls, i, j)
    decreases j
  {
    SpanAdds(rate, calls, i, j);
    if i < j - 1 {
      DeadlineIsFar(rate, first, calls, i, j - 1);
    } else {
      assert Span(rate, calls, i, i) == 0.0;
    }
  }

  /** From the start of call i to the return of call j. */
  function Elapsed(rate: real, first: real, calls: seq<Call>, i: nat, j: nat): real
    requires rate > 0.0 && i <= j < |calls|
  {
    Returned(NextAt(rate, first, calls, j), calls[j]) - calls[i].start
  }

  lemma SpanFits(rate: real, first: real, calls: seq<Call>, i: nat, j: nat)
    requires rate > 0.0 && i <= j < |calls| && calls[j].late >= 0.0
    ensures Span(rate, calls, i, j) <= Elapsed(rate, first, calls, i, j)
  {
    if i < j {
      DeadlineIsFar(rate, first, calls, i, j);
    } else {
      assert Span(rate, calls, i, i) == 0.0;
    }
  }

  /** Calls i to j - 1 never admit more than the rate over any time that holds i's start to j's return. */
  lemma RateIsRespected(rate: real, first: real, calls: seq<Call>, i: nat, j: nat, elapsed: real)
    requires rate > 0.0 && i <= j < |calls| && calls[j].late >= 0.0 && elapsed >= Elapsed(rate, first, calls, i, j)
    ensures Bytes(calls, i, j) as real <= rate * elapsed
  {
    SpanFits(rate, first, calls, i, j);
    Scale(rate, Bytes(calls, i, j) as real, elapsed);
  }

  lemma Scale(rate: real, bytes: real, elapsed: real)
    requires rate > 0.0 && bytes / rate <= elapsed
    ensures bytes <= rate * elapsed
  {
    assert bytes == rate * (bytes / rate);
    assert rate * (elapsed - bytes / rate) >= 0.0;
  }

  /** The deadline is no further than it must be: it is met exactly from the bucket's creation or from some call. */
  lemma {:induction false} DeadlineIsLeast(rate: real, first: real, calls: seq<Call>, j: nat)
    requires rate > 0.0 && j <= |calls|
    ensures NextAt(rate, first, calls, j) == first + Span(rate, calls, 0, j)
            || exists i :: 0 <= i < j && NextAt(rate, first, calls, j) == calls[i].start + Span(rate, calls, i, j)
  {
    if j > 0 {
      DeadlineIsLeast(rate, first, calls, j - 1);
      SpanAdds(rate, calls, 0, j);
      var before := NextAt(rate, first, calls, j - 1);
      if before < calls[j - 1].start {
        SpanAdds(rate, calls, j - 1, j);
        assert Span(rate, calls, j - 1, j - 1) == 0.0;
      } else if before != first + Span(rate, calls, 0, j - 1) {
        var i :| 0 <= i < j - 1 && before == calls[i].start + Span(rate, calls, i, j - 1);
        SpanAdds(rate, calls, i, j);
      }
    } else {
      assert Span(rate, calls, 0, 0) == 0.0;
    }
  }
}
