/** The nightly fuzz-target selector: anchored core targets and a date-rotated window over the rest. */
module Nightly {
  import opened Basics
  import opened Arithmetic

  type Target = string

  /** The target map: its targets in file order, each once, and its core subset. */
  datatype Table = Table(targets: seq<Target>, core: seq<Target>)

  /** The members of `s` that are, or are not, in `t`, in order. */
  function Within(s: seq<Target>, t: set<Target>): seq<Target> {
    if s == [] then [] else Within(s[..|s| - 1], t) + if s[|s| - 1] in t then [s[|s| - 1]] else []
  }

  function Outside(s: seq<Target>, t: set<Target>): seq<Target> {
    if s == [] then [] else Outside(s[..|s| - 1], t) + if s[|s| - 1] in t then [] else [s[|s| - 1]]
  }

  function Members(s: seq<Target>): set<Target> {
    set x | x in s
  }

  function PriorityOrder(m: Table): seq<Target> {
    m.core + Outside(m.targets, Members(m.core))
  }

  function Picked(m: Table, chosen: set<Target>, coreFlag: bool): set<Target> {
    if coreFlag then chosen + Members(m.core) else chosen
  }

  function Take(s: seq<Target>, cap: nat): seq<Target> {
    if |s| <= cap then s else s[..cap]
  }

  function OrderAndCap(m: Table, chosen: set<Target>, coreFlag: bool, cap: nat): seq<Target> {
    Take(Within(PriorityOrder(m), Picked(m, chosen, coreFlag)), cap)
  }

  /** `n` members of `ring` from `start` on, wrapping round. */
  function Window(ring: seq<Target>, start: nat, n: nat): seq<Target>
    requires ring != []
  {
    seq(n, i requires 0 <= i < n => ring[(start + i) % |ring|])
  }

  /** `x` at the end, unless it is there. */
  function Added(out: seq<Target>, x: Target): seq<Target> {
    if x in out then out else out + [x]
  }

  /** Appends what is missing until there are `cap`. */
  function FillUp(out: seq<Target>, rotated: seq<Target>, cap: nat): seq<Target>
    decreases |rotated|
  {
    if rotated == [] || |out| >= cap then out
    else FillUp(Added(out, rotated[0]), rotated[1..], cap)
  }

  /** With no targets at all the modulus is zero and Python raises. */
  datatype Outcome = List(targets: seq<Target>) | ZeroDivision

  function RotationFill(m: Table, ordered: seq<Target>, cap: nat, today: nat): Outcome {
    if m.targets == [] then ZeroDivision
    else List(Take(FillUp(ordered, Window(m.targets, today * cap % |m.targets|, |m.targets|), cap), cap))
  }

  method FillByRotation(m: Table, ordered: seq<Target>, cap: nat, today: nat) returns (r: Outcome)
    ensures r == RotationFill(m, ordered, cap, today)
  {
    if m.targets == [] {
      return ZeroDivision;
    }
    var rotated := Window(m.targets, today * cap % |m.targets|, |m.targets|);
    var out := ordered;
    for i := 0 to |rotated|
      invariant FillUp(ordered, rotated, cap) == FillUp(out, rotated[i..], cap)
    {
      if |out| >= cap {
        break;
      }
      assert rotated[i..][1..] == rotated[i + 1..];
      if rotated[i] !in out {
        out := out + [rotated[i]];
      }
    }
    return List(Take(out, cap));
  }

  function Pool(m: Table, chosen: set<Target>, coreFlag: bool): seq<Target> {
    var selected := Within(PriorityOrder(m), Picked(m, chosen, coreFlag));
    if selected != [] then selected else m.targets
  }

  function Anchors(m: Table, pool: seq<Target>, cap: nat): seq<Target> {
    Take(Within(pool, Members(m.core)), cap)
  }

  function Rest(m: Table, pool: seq<Target>): seq<Target> {
    Outside(pool, Members(m.core))
  }

  function NightlySelect(m: Table, chosen: set<Target>, coreFlag: bool, cap: nat, today: nat): Outcome {
    var pool := Pool(m, chosen, coreFlag);
    if |pool| <= cap then RotationFill(m, pool, cap, today)
    else
      var (anchors, rest) := (Anchors(m, pool, cap), Rest(m, pool));
      if |anchors| >= cap || rest == [] then List(anchors)
      else
        var slots := cap - |anchors|;
        List(anchors + Window(rest, today * slots % |rest|, if slots < |rest| then slots else |rest|))
  }

  // ----- splitting a list -----

  lemma {:induction false} Splits(s: seq<Target>, t: set<Target>)
    ensures |Within(s, t)| + |Outside(s, t)| == |s|
    ensures forall x :: x in Within(s, t) <==> x in s && x in t
    ensures forall x :: x in Outside(s, t) <==> x in s && x !in t
  {
    if s != [] {
      var n := |s| - 1;
      Splits(s[..n], t);
      assert s == s[..n] + [s[n]];
    }
  }

  lemma {:induction false} SplitsStayDistinct(s: seq<Target>, t: set<Target>)
    requires Distinct(s)
    ensures Distinct(Within(s, t)) && Distinct(Outside(s, t))
  {
    if s != [] {
      var n := |s| - 1;
      SplitsStayDistinct(s[..n], t);
      Splits(s[..n], t);
      assert s[n] !in s[..n];
      JoinedStaysDistinct(Within(s[..n], t), [s[n]]);
      JoinedStaysDistinct(Outside(s[..n], t), [s[n]]);
    }
  }

  lemma JoinedStaysDistinct(a: seq<Target>, b: seq<Target>)
    requires Distinct(a) && Distinct(b) && forall x :: x in a ==> x !in b
    ensures Distinct(a + b)
  {
    var s := a + b;
    forall i, j | 0 <= i < j < |s| ensures s[i] != s[j] {
      if i < |a| <= j {
        assert s[i] in a && s[j] in b;
      }
    }
  }

  lemma {:induction false} WithinJoins(a: seq<Target>, b: seq<Target>, t: set<Target>)
    ensures Within(a + b, t) == Within(a, t) + Within(b, t)
  {
    if b == [] {
      assert a + b == a;
    } else {
      var n := |b| - 1;
      WithinJoins(a, b[..n], t);
      assert (a + b)[..|a + b| - 1] == a + b[..n];
    }
  }

  lemma {:induction false} OutsideJoins(a: seq<Target>, b: seq<Target>, t: set<Target>)
    ensures Outside(a + b, t) == Outside(a, t) + Outside(b, t)
  {
    if b == [] {
      assert a + b == a;
    } else {
      var n := |b| - 1;
      OutsideJoins(a, b[..n], t);
      assert (a + b)[..|a + b| - 1] == a + b[..n];
    }
  }

  lemma SplitsJoin(a: seq<Target>, b: seq<Target>, t: set<Target>)
    ensures Within(a + b, t) == Within(a, t) + Within(b, t)
    ensures Outside(a + b, t) == Outside(a, t) + Outside(b, t)
  {
    WithinJoins(a, b, t);
    OutsideJoins(a, b, t);
  }

  lemma {:induction false} AllWithin(s: seq<Target>, t: set<Target>)
    requires forall x :: x in s ==> x in t
    ensures Within(s, t) == s && Outside(s, t) == []
  {
    if s != [] {
      AllWithin(s[..|s| - 1], t);
      assert s == s[..|s| - 1] + [s[|s| - 1]];
    }
  }

  lemma {:induction false} NoneWithin(s: seq<Target>, t: set<Target>)
    requires forall x :: x in s ==> x !in t
    ensures Within(s, t) == [] && Outside(s, t) == s
  {
    if s != [] {
      NoneWithin(s[..|s| - 1], t);
      assert s == s[..|s| - 1] + [s[|s| - 1]];
    }
  }

  /** The selected targets: the picked core names as listed, then each picked target outside the core once. */
  lemma SelectedSplits(m: Table, picked: set<Target>)
    requires Distinct(m.targets)
    ensures var (selected, core) := (Within(PriorityOrder(m), picked), Members(m.core));
            Within(selected, core) == Within(m.core, picked) && Distinct(Outside(selected, core))
  {
    var core := Members(m.core);
    var others := Outside(m.targets, core);
    var (front, back) := (Within(m.core, picked), Within(others, picked));
    SplitsJoin(m.core, others, picked);
    SplitsJoin(front, back, core);
    Splits(m.core, picked);
    Splits(m.targets, core);
    Splits(others, picked);
    AllWithin(front, core);
    NoneWithin(back, core);
    SplitsStayDistinct(m.targets, core);
    SplitsStayDistinct(others, picked);
  }

  /** The pool repeats a core target just when a picked core name is listed twice, and nothing else ever. */
  lemma PoolSplits(m: Table, chosen: set<Target>, coreFlag: bool)
    requires Distinct(m.targets)
    ensures var (pool, core) := (Pool(m, chosen, coreFlag), Members(m.core));
            && Distinct(Outside(pool, core))
            && (Distinct(Within(pool, core)) <==> Distinct(Within(m.core, Picked(m, chosen, coreFlag))))
  {
    var (picked, core) := (Picked(m, chosen, coreFlag), Members(m.core));
    SelectedSplits(m, picked);
    if Within(PriorityOrder(m), picked) == [] {
      SplitsStayDistinct(m.targets, core);
    }
  }

  // ----- the capped list -----

  lemma TakeFromTwo(front: seq<Target>, back: seq<Target>, cap: nat, x: Target)
    ensures var r := Take(front + back, cap);
            && |r| <= cap && (x in r ==> x in front || x in back)
            && (|r| < cap && (x in front || x in back) ==> x in r)
  {
    if |front + back| <= cap {
      assert x in front + back <==> x in front || x in back;
    }
  }

  lemma TakeFrontFirst(front: seq<Target>, back: seq<Target>, cap: nat, x: Target, y: Target)
    requires y in Take(front + back, cap) && y !in front && x in front
    ensures x in Take(front + back, cap)
  {
    var r := Take(front + back, cap);
    var j :| 0 <= j < |r| && r[j] == y;
    var i :| 0 <= i < |front| && front[i] == x;
    assert r[j] == (front + back)[j];
    assert r[i] == (front + back)[i];
  }

  /** Only picked targets, as many as fit, and one outside the core only once every picked core target is in. */
  lemma CapKeepsTheCore(m: Table, chosen: set<Target>, coreFlag: bool, cap: nat, x: Target, y: Target)
    ensures var (r, picked) := (OrderAndCap(m, chosen, coreFlag, cap), Picked(m, chosen, coreFlag));
            && |r| <= cap && (x in r ==> x in picked && (x in m.core || x in m.targets))
            && (|r| < cap && x in picked && (x in m.core || x in m.targets) ==> x in r)
            && (y in r && y !in m.core && x in picked && x in m.core ==> x in r)
  {
    var picked := Picked(m, chosen, coreFlag);
    var others := Outside(m.targets, Members(m.core));
    var (front, back) := (Within(m.core, picked), Within(others, picked));
    SplitsJoin(m.core, others, picked);
    Splits(m.core, picked);
    Splits(others, picked);
    Splits(m.targets, Members(m.core));
    TakeFromTwo(front, back, cap, x);
    if y in Take(front + back, cap) && y !in front && x in front {
      TakeFrontFirst(front, back, cap, x, y);
    }
  }

  // ----- windows -----

  /** A window no longer than the ring repeats nothing. */
  lemma WindowIsDistinct(ring: seq<Target>, start: nat, n: nat)
    requires Distinct(ring) && ring != [] && n <= |ring|
    ensures Distinct(Window(ring, start, n)) && forall x :: x in Window(ring, start, n) ==> x in ring
  {
    var w := Window(ring, start, n);
    forall i, j | 0 <= i < j < n ensures w[i] != w[j] {
      NoTwoInOneRound(start, i, j, |ring|);
    }
  }

  /** How many nights one sweep takes. */
  function Nights(n: nat, slots: nat): nat
    requires slots > 0
  {
    (n + slots - 1) / slots
  }

  lemma NightsAreEnough(n: nat, slots: nat)
    requires slots > 0 && n > 0
    ensures Nights(n, slots) == 1 + (n - 1) / slots
  {
    DivShift(1, slots, n - 1);
    assert slots * 1 + (n - 1) == n + slots - 1;
  }

  lemma DayOf(day: nat, slots: nat, n: nat, r: nat)
    requires slots > 0 && r < n
    ensures day <= (slots * day + r) / slots < day + Nights(n, slots)
  {
    DivShift(day, slots, r);
    DivMono(r, n - 1, slots);
    NightsAreEnough(n, slots);
  }

  /** Windows of `slots` that advance by `slots` a night reach every position within one sweep. */
  lemma SweepReaches(ring: seq<Target>, slots: nat, day: nat, k: nat) returns (night: nat)
    requires ring != [] && 0 < slots && k < |ring|
    ensures day <= night < day + Nights(|ring|, slots)
    ensures ring[k] in Window(ring, night * slots % |ring|, slots)
  {
    var n := |ring|;
    var y := Comes(slots * day, k, n);
    night := y / slots;
    DayOf(day, slots, n, y - slots * day);
    InItsWindow(ring, slots, y);
  }

  lemma InItsWindow(ring: seq<Target>, slots: nat, y: nat)
    requires ring != [] && 0 < slots
    ensures ring[y % |ring|] in Window(ring, y / slots * slots % |ring|, slots)
  {
    var (n, base, i) := (|ring|, y / slots * slots, y % slots);
    DivMod(y, slots);
    assert y == base + i;
    ModShift(base, i, n);
    assert Window(ring, base % n, slots)[i] == ring[y % n];
  }

  // ----- the nightly list -----

  /**
   * A pool larger than the cap with fewer core targets than the cap: exactly `cap` targets of the pool, all its core
   * among them. None is there twice just when no picked core name is listed twice.
   */
  lemma NightlyIsFull(m: Table, chosen: set<Target>, coreFlag: bool, cap: nat, today: nat)
    requires Distinct(m.targets)
    requires var pool := Pool(m, chosen, coreFlag); cap < |pool| && |Within(pool, Members(m.core))| < cap
    ensures var pool := Pool(m, chosen, coreFlag);
            var r := NightlySelect(m, chosen, coreFlag, cap, today);
            && r.List? && |r.targets| == cap
            && (Distinct(r.targets) <==> Distinct(Within(m.core, Picked(m, chosen, coreFlag))))
            && (forall x :: x in r.targets ==> x in pool)
            && (forall x :: x in pool && x in m.core ==> x in r.targets)
  {
    var pool := Pool(m, chosen, coreFlag);
    PoolSplits(m, chosen, coreFlag);
    Splits(pool, Members(m.core));
    var (anchors, rest) := (Anchors(m, pool, cap), Rest(m, pool));
    var slots := cap - |anchors|;
    var window := Window(rest, today * slots % |rest|, slots);
    WindowIsDistinct(rest, today * slots % |rest|, slots);
    RepeatsRemain(anchors, window);
  }

  lemma RepeatsRemain(a: seq<Target>, b: seq<Target>)
    requires Distinct(b) && forall x :: x in a ==> x !in b
    ensures Distinct(a + b) <==> Distinct(a)
  {
    if Distinct(a) {
      JoinedStaysDistinct(a, b);
    } else {
      var i, j :| 0 <= i < j < |a| && a[i] == a[j];
      assert (a + b)[i] == (a + b)[j];
    }
  }

  /** With every target chosen the pool is the priority order. */
  lemma PoolOfAll(m: Table, others: seq<Target>)
    requires m.core != [] && Members(m.core) <= Members(m.targets) && others == Outside(m.targets, Members(m.core))
    ensures var (pool, core) := (Pool(m, Members(m.targets), false), Members(m.core));
            pool == m.core + others && Within(pool, core) == m.core && Outside(pool, core) == others
  {
    var core := Members(m.core);
    Splits(m.targets, core);
    forall x | x in m.core + others ensures x in Members(m.targets) {
      assert x in m.core ==> x in core;
    }
    AllWithin(m.core + others, Members(m.targets));
    AllWithin(m.core, core);
    NoneWithin(others, core);
    SplitsJoin(m.core, others, core);
  }

  /** Then the night's list starts with the core just as it is listed, repeats and all. */
  lemma CoreRunsAsListed(m: Table, cap: nat, today: nat)
    requires m.core != [] && Members(m.core) <= Members(m.targets)
    requires |m.core| < cap < |m.core| + |Outside(m.targets, Members(m.core))|
    ensures var r := NightlySelect(m, Members(m.targets), false, cap, today);
            r.List? && |r.targets| == cap && m.core <= r.targets
  {
    PoolOfAll(m, Outside(m.targets, Members(m.core)));
  }

  lemma AllButOne(a: Target, others: seq<Target>)
    requires a !in others
    ensures Outside([a] + others, {a}) == others
  {
    AllWithin([a], {a});
    NoneWithin(others, {a});
    SplitsJoin([a], others, {a});
  }

  /** So a core name listed twice takes two of the night's places, and no check of the map refuses it. */
  lemma RepeatedCoreRunsTwice(a: Target, others: seq<Target>, cap: nat, today: nat)
    requires a !in others && 2 < cap < 2 + |others|
    ensures var m := Table([a] + others, [a, a]);
            var r := NightlySelect(m, Members(m.targets), false, cap, today);
            r.List? && |r.targets| == cap && [a, a] <= r.targets
  {
    var m := Table([a] + others, [a, a]);
    assert Members(m.core) == {a};
    AllButOne(a, others);
    CoreRunsAsListed(m, cap, today);
  }

  /** Then any `Nights` consecutive nights reach every target of the pool outside the core. */
  lemma NightlySweeps(m: Table, chosen: set<Target>, coreFlag: bool, cap: nat, day: nat, x: Target) returns (night: nat)
    requires var pool := Pool(m, chosen, coreFlag);
             cap < |pool| && |Within(pool, Members(m.core))| < cap && x in pool && x !in m.core
    ensures var pool := Pool(m, chosen, coreFlag);
            var r := NightlySelect(m, chosen, coreFlag, cap, night);
            && day <= night < day + Nights(|Rest(m, pool)|, cap - |Within(pool, Members(m.core))|)
            && r.List? && x in r.targets
  {
    var pool := Pool(m, chosen, coreFlag);
    Splits(pool, Members(m.core));
    var rest := Rest(m, pool);
    var k :| 0 <= k < |rest| && rest[k] == x;
    night := SweepReaches(rest, cap - |Within(pool, Members(m.core))|, day, k);
  }

  /** With as many core targets as the cap, no night ever reaches a target outside the core. */
  lemma FullCoreStarvesTheRest(m: Table, chosen: set<Target>, coreFlag: bool, cap: nat, today: nat, x: Target)
    requires var pool := Pool(m, chosen, coreFlag); cap < |pool| && |Within(pool, Members(m.core))| >= cap
    requires x !in m.core
    ensures var r := NightlySelect(m, chosen, coreFlag, cap, today); r.List? && |r.targets| == cap && x !in r.targets
  {
    var pool := Pool(m, chosen, coreFlag);
    Splits(pool, Members(m.core));
    assert forall y :: y in Anchors(m, pool, cap) ==> y in Within(pool, Members(m.core));
  }
}
