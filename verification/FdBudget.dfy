/**
 The shared descriptor budget: a weak compare-and-swap loop that reserves, and drops that release,
 interleaved over any number of threads.
 */
module FdBudget {
  import opened Basics

  /** `max` is the largest machine word. */
  datatype Budget = Budget(limit: nat, max: nat)

  type Thread = nat

  /** Inside a call: before its load, and while it holds a value it has seen. */
  datatype Phase = Outside | Entered(count: nat) | Trying(count: nat, seen: nat)

  /** The counter, the counts of the reservations not yet dropped, and where each thread is. */
  datatype State = State(used: nat, live: seq<nat>, threads: map<Thread, Phase>)

  datatype Event =
    | Enter(t: Thread, count: nat)
    | Load(t: Thread)
    | Refuse(t: Thread)
    | Swap(t: Thread)
    | SwapFails(t: Thread)
    | Release(i: nat)

  function At(s: State, t: Thread): Phase {
    if t in s.threads then s.threads[t] else Outside
  }

  /** The checked sum is within the machine word and the limit. */
  predicate Fits(b: Budget, used: nat, count: nat) {
    used + count <= b.max && used + count <= b.limit
  }

  /** Atomic subtraction wraps. */
  function WrappingSub(b: Budget, used: nat, count: nat): nat {
    (used - count) % (b.max + 1)
  }

  function Goto(s: State, t: Thread, ph: Phase): State {
    s.(threads := s.threads[t := ph])
  }

  /** One atomic step. A weak swap may fail even when the counter holds the value seen; it then reads it again. */
  function Do(b: Budget, s: State, e: Event): Option<State> {
    match e
    case Enter(t, count) => if At(s, t).Outside? && count <= b.max then Some(Goto(s, t, Entered(count))) else None
    case Load(t) => if At(s, t).Entered? then Some(Goto(s, t, Trying(At(s, t).count, s.used))) else None
    case Refuse(t) =>
      if At(s, t).Trying? && !Fits(b, At(s, t).seen, At(s, t).count) then Some(Goto(s, t, Outside)) else None
    case Swap(t) =>
      var ph := At(s, t);
      if ph.Trying? && Fits(b, ph.seen, ph.count) && s.used == ph.seen
      then Some(Goto(s, t, Outside).(used := ph.seen + ph.count, live := s.live + [ph.count])) else None
    case SwapFails(t) =>
      var ph := At(s, t);
      if ph.Trying? && Fits(b, ph.seen, ph.count) then Some(Goto(s, t, Trying(ph.count, s.used))) else None
    case Release(i) =>
      if i < |s.live|
      then Some(s.(used := WrappingSub(b, s.used, s.live[i]), live := s.live[..i] + s.live[i + 1..])) else None
  }

  const START := State(0, [], map[])

  function Exec(b: Budget, run: seq<Event>): Option<State> {
    if run == [] then Some(START)
    else
      var n := |run| - 1;
      var before := Exec(b, run[..n]);
      if before.None? then None else Do(b, before.value, run[n])
  }

  // ----- conservation -----

  function Sum(counts: seq<nat>): nat {
    if counts == [] then 0 else Sum(counts[..|counts| - 1]) + counts[|counts| - 1]
  }

  lemma SumOneMore(counts: seq<nat>, c: nat)
    ensures Sum(counts + [c]) == Sum(counts) + c
  {
    assert (counts + [c])[..|counts|] == counts;
  }

  lemma {:induction false} SumWithout(counts: seq<nat>, i: nat)
    requires i < |counts|
    ensures Sum(counts[..i] + counts[i + 1..]) == Sum(counts) - counts[i]
  {
    var n := |counts| - 1;
    if i == n {
      assert counts[..i] + counts[i + 1..] == counts[..n];
    } else {
      SumWithout(counts[..n], i);
      assert counts[..i] + counts[i + 1..] == counts[..n][..i] + counts[..n][i + 1..] + [counts[n]];
      SumOneMore(counts[..n][..i] + counts[..n][i + 1..], counts[n]);
    }
  }

  ghost predicate Balanced(b: Budget, s: State) {
    s.used == Sum(s.live) <= b.limit
  }

  /** Dropping a live reservation subtracts exactly its count: the subtraction never wraps. */
  lemma ReleaseIsExact(b: Budget, s: State, i: nat)
    requires b.limit <= b.max && Balanced(b, s) && i < |s.live|
    ensures s.live[i] <= s.used && WrappingSub(b, s.used, s.live[i]) == s.used - s.live[i]
  {
    SumWithout(s.live, i);
  }

  lemma BalancedStep(b: Budget, s: State, e: Event, s': State)
    requires b.limit <= b.max && Balanced(b, s) && Do(b, s, e) == Some(s')
    ensures Balanced(b, s')
  {
    if e.Swap? {
      SumOneMore(s.live, At(s, e.t).count);
    } else if e.Release? {
      ReleaseIsExact(b, s, e.i);
      SumWithout(s.live, e.i);
    }
  }

  /** In every run the counter is the sum of the live reservations and within the limit. */
  lemma {:induction false} CounterIsTheSum(b: Budget, run: seq<Event>, s: State)
    requires b.limit <= b.max && Exec(b, run) == Some(s)
    ensures s.used == Sum(s.live) <= b.limit
  {
    if run != [] {
      var n := |run| - 1;
      var before := Exec(b, run[..n]).value;
      CounterIsTheSum(b, run[..n], before);
      BalancedStep(b, before, run[n], s);
    }
  }

  // ----- refusals -----

  /** Thread t's current call began at step k. */
  ghost predicate EnteredAt(run: seq<Event>, t: Thread, count: nat, k: nat) {
    k < |run| && run[k] == Enter(t, count) && forall j :: k < j < |run| ==> !(run[j].Enter? && run[j].t == t)
  }

  /** After the first m steps the counter read `seen`. */
  ghost predicate ReadAt(b: Budget, run: seq<Event>, seen: nat, m: nat) {
    m <= |run| && Exec(b, run[..m]).Some? && Exec(b, run[..m]).value.used == seen
  }

  lemma EnteredGrows(run: seq<Event>, e: Event, t: Thread, count: nat, k: nat)
    requires EnteredAt(run, t, count, k) && !(e.Enter? && e.t == t)
    ensures EnteredAt(run + [e], t, count, k)
  {
  }

  lemma ReadGrows(b: Budget, run: seq<Event>, e: Event, seen: nat, m: nat)
    requires ReadAt(b, run, seen, m)
    ensures ReadAt(b, run + [e], seen, m)
  {
    assert (run + [e])[..m] == run[..m];
  }

  /** A thread inside a call entered it, and a value it holds was the counter's at some moment since. */
  lemma {:induction false} SeenDuringCall(b: Budget, run: seq<Event>, s: State, t: Thread) returns (k: nat, m: nat)
    requires Exec(b, run) == Some(s) && !At(s, t).Outside?
    ensures EnteredAt(run, t, At(s, t).count, k)
    ensures At(s, t).Trying? ==> k < m && ReadAt(b, run, At(s, t).seen, m)
  {
    var n := |run| - 1;
    var (e, before) := (run[n], Exec(b, run[..n]).value);
    assert run == run[..n] + [e];
    if e.Enter? && e.t == t {
      k, m := n, n;
    } else {
      k, m := SeenDuringCall(b, run[..n], before, t);
      EnteredGrows(run[..n], e, t, At(s, t).count, k);
      if (e.Load? || e.SwapFails?) && e.t == t {
        m := n;
        assert ReadAt(b, run, before.used, n);
      } else if At(s, t).Trying? {
        ReadGrows(b, run[..n], e, At(s, t).seen, m);
      }
    }
  }

  /** A refused call: at some moment after it began the counter and its count were over the limit or the word. */
  lemma RefusalIsJustified(b: Budget, run: seq<Event>, s: State, t: Thread)
    requires Exec(b, run) == Some(s) && Do(b, s, Refuse(t)).Some?
    ensures exists k: nat, m: nat, count, seen ::
              EnteredAt(run, t, count, k) && k < m && ReadAt(b, run, seen, m) && !Fits(b, seen, count)
  {
    var k, m := SeenDuringCall(b, run, s, t);
  }
}
