/** Filling a short list by rotation: which targets a day takes, and when the days together reach them all. */
module Rotation {
  import opened Arithmetic
  import opened Basics
  import opened Nightly

  // ----- filling up -----

  lemma {:induction false} FillUpKeeps(out: seq<Target>, rotated: seq<Target>, cap: nat)
    requires |out| <= cap
    ensures out <= FillUp(out, rotated, cap) && |FillUp(out, rotated, cap)| <= cap
    ensures Distinct(FillUp(out, rotated, cap)) <==> Distinct(out)
    decreases |rotated|
  {
    if rotated != [] && |out| < cap {
      AddedStaysDistinct(out, rotated[0]);
      FillUpKeeps(Added(out, rotated[0]), rotated[1..], cap);
    }
  }

  lemma AddedStaysDistinct(out: seq<Target>, x: Target)
    ensures Distinct(Added(out, x)) <==> Distinct(out)
  {
    assert forall i :: 0 <= i < |out| ==> Added(out, x)[i] == out[i];
  }

  lemma {:induction false} FillUpReaches(out: seq<Target>, rotated: seq<Target>, cap: nat, x: Target)
    requires |out| <= cap && (x in rotated || x in out)
    ensures |FillUp(out, rotated, cap)| >= cap || x in FillUp(out, rotated, cap)
    decreases |rotated|
  {
    if rotated != [] && |out| < cap {
      assert rotated == [rotated[0]] + rotated[1..];
      FillUpReaches(Added(out, rotated[0]), rotated[1..], cap, x);
    }
  }

  /**
   * A start that is long enough is cut; otherwise the fill keeps it as a prefix, repeats nothing the start did not
   * repeat, and is full unless every target is in it.
   */
  lemma RotationFillIsWellFormed(m: Table, ordered: seq<Target>, cap: nat, today: nat)
    requires m.targets != []
    ensures var r := RotationFill(m, ordered, cap, today);
            && r.List?
            && if |ordered| >= cap then r.targets == ordered[..cap]
               else
                 && ordered <= r.targets && |r.targets| <= cap && (Distinct(r.targets) <==> Distinct(ordered))
                 && (|r.targets| == cap || forall x :: x in m.targets ==> x in r.targets)
  {
    if |ordered| < cap {
      ShortStartIsFilled(m, ordered, cap, today);
    }
  }

  lemma ShortStartIsFilled(m: Table, ordered: seq<Target>, cap: nat, today: nat)
    requires m.targets != [] && |ordered| < cap
    ensures var r := RotationFill(m, ordered, cap, today);
            && r.List? && ordered <= r.targets && |r.targets| <= cap && (Distinct(r.targets) <==> Distinct(ordered))
            && (|r.targets| == cap || forall x :: x in m.targets ==> x in r.targets)
  {
    var n := |m.targets|;
    var rotated := Window(m.targets, today * cap % n, n);
    FillUpKeeps(ordered, rotated, cap);
    forall x | x in m.targets ensures |FillUp(ordered, rotated, cap)| >= cap || x in FillUp(ordered, rotated, cap) {
      var k :| 0 <= k < n && m.targets[k] == x;
      WindowIsWhole(m.targets, today * cap % n, k);
      FillUpReaches(ordered, rotated, cap, x);
    }
  }

  lemma WindowIsWhole(ring: seq<Target>, start: nat, k: nat)
    requires k < |ring|
    ensures ring[k] in Window(ring, start, |ring|)
  {
    var y := Comes(start, k, |ring|);
    assert Window(ring, start, |ring|)[y - start] == ring[k];
  }

  // ----- which targets a fill takes -----

  lemma {:induction false} FillUpHolds(out: seq<Target>, rotated: seq<Target>, cap: nat, x: Target)
    requires x in out
    ensures x in FillUp(out, rotated, cap)
    decreases |rotated|
  {
    if rotated != [] && |out| < cap {
      FillUpHolds(Added(out, rotated[0]), rotated[1..], cap, x);
    }
  }

  lemma {:induction false} OutsideTheSame(s: seq<Target>, t: set<Target>, t': set<Target>)
    requires forall x :: x in s ==> (x in t <==> x in t')
    ensures Outside(s, t) == Outside(s, t')
  {
    if s != [] {
      OutsideTheSame(s[..|s| - 1], t, t');
    }
  }

  /** A target not yet there is taken just when the missing targets before it leave a place. */
  lemma {:induction false} FillUpTakes(out: seq<Target>, rotated: seq<Target>, cap: nat, p: nat)
    requires Distinct(rotated) && p < |rotated| && rotated[p] !in out && |out| <= cap
    ensures rotated[p] in FillUp(out, rotated, cap) <==> |Outside(rotated[..p], Members(out))| < cap - |out|
    decreases |rotated|
  {
    if |out| < cap {
      var (out', rest) := (Added(out, rotated[0]), rotated[1..]);
      if p == 0 {
        FillUpHolds(out', rest, cap, rotated[0]);
      } else {
        FillUpTakes(out', rest, cap, p - 1);
        OutsideTheSame(rest[..p - 1], Members(out), Members(out'));
        OutsideJoins([rotated[0]], rest[..p - 1], Members(out));
        assert rotated[..p] == [rotated[0]] + rest[..p - 1];
      }
    }
  }

  // ----- the days of a rotation -----

  /** The targets a rotation from `start` offers before the one at `k`. */
  function Before(ring: seq<Target>, start: nat, k: nat): seq<Target>
    requires start < |ring| && k < |ring|
  {
    if start <= k then ring[start..k] else ring[start..] + ring[..k]
  }

  lemma WindowBefore(ring: seq<Target>, start: nat, k: nat)
    requires start < |ring| && k < |ring|
    ensures var (w, p) := (Window(ring, start, |ring|), |Before(ring, start, k)|);
            p < |ring| && w[p] == ring[k] && w[..p] == Before(ring, start, k)
  {
    var (n, b) := (|ring|, Before(ring, start, k));
    var w := Window(ring, start, n);
    forall i | 0 <= i < n ensures w[i] == if start + i < n then ring[start + i] else ring[start + i - n] {
      if start + i < n {
        DivIs(start + i, n, 0, start + i);
      } else {
        DivIs(start + i, n, 1, start + i - n);
      }
    }
    assert w[..|b|] == b;
  }

  predicate Reached(m: Table, ordered: seq<Target>, cap: nat, today: nat, k: nat)
    requires k < |m.targets|
  {
    var r := RotationFill(m, ordered, cap, today);
    r.List? && m.targets[k] in r.targets
  }

  /** The start of a day, and whether it reaches the target at `k`. */
  lemma ReachedOnDay(m: Table, ordered: seq<Target>, cap: nat, today: nat, k: nat)
    requires Distinct(m.targets) && k < |m.targets| && m.targets[k] !in ordered
    ensures var start := today * cap % |m.targets|;
            Reached(m, ordered, cap, today, k)
            <==> |Outside(Before(m.targets, start, k), Members(ordered))| < cap - |ordered|
  {
    var n := |m.targets|;
    var start := today * cap % n;
    var rotated := Window(m.targets, start, n);
    WindowIsDistinct(m.targets, start, n);
    WindowBefore(m.targets, start, k);
    if |ordered| <= cap {
      FillUpKeeps(ordered, rotated, cap);
      FillUpTakes(ordered, rotated, cap, |Before(m.targets, start, k)|);
    }
  }

  // ----- aligned blocks -----

  /** Where the block of `g` consecutive positions that holds `k` starts. */
  function BlockStart(k: nat, g: nat): nat
    requires g > 0
  {
    DivMod(k, g);
    g * (k / g)
  }

  lemma BlockStartIs(k: nat, g: nat, j: nat)
    requires g > 0 && g * j <= k < g * j + g
    ensures BlockStart(k, g) == g * j
  {
    DivIs(k, g, j, k - g * j);
  }

  /** A rotation starts at the start of a block, so it offers all of the block before `k` first. */
  lemma StartsBeforeTheBlock(ring: seq<Target>, start: nat, k: nat, g: nat, j: nat, t: set<Target>)
    requires start < |ring| && k < |ring| && g > 0 && start == g * j
    ensures |Outside(Before(ring, start, k), t)| >= |Outside(ring[BlockStart(k, g)..k], t)|
  {
    var b := BlockStart(k, g);
    DivMod(k, g);
    if start <= k {
      AlignedBelow(start, k, g, j);
      OutsideJoins(ring[start..b], ring[b..k], t);
      assert ring[start..k] == ring[start..b] + ring[b..k];
    } else {
      OutsideJoins(ring[start..] + ring[..b], ring[b..k], t);
      assert Before(ring, start, k) == (ring[start..] + ring[..b]) + ring[b..k];
    }
  }

  lemma AlignedBelow(start: nat, k: nat, g: nat, j: nat)
    requires g > 0 && start == g * j && start <= k
    ensures start <= BlockStart(k, g) <= k
  {
    DivMod(k, g);
    if j > k / g {
      MulSub(g, j, k / g);
      MulAtLeast(g, j - k / g);
    } else if j < k / g {
      MulSub(g, k / g, j);
      MulAtLeast(g, k / g - j);
    }
  }

  ghost predicate ReachedSomeDay(m: Table, ordered: seq<Target>, cap: nat, k: nat)
    requires k < |m.targets|
  {
    exists today: nat :: Reached(m, ordered, cap, today, k)
  }

  /** Some day reaches the target at `k` just when the missing targets before it in its block leave a place. */
  lemma ReachedFromItsBlock(m: Table, ordered: seq<Target>, cap: nat, k: nat, g: nat)
    requires Distinct(m.targets) && k < |m.targets| && m.targets[k] !in ordered && g == Gcd(cap, |m.targets|)
    ensures g > 0
    ensures ReachedSomeDay(m, ordered, cap, k)
            <==> |Outside(m.targets[BlockStart(k, g)..k], Members(ordered))| < cap - |ordered|
  {
    var _, _ := GcdDivides(cap, |m.targets|);
    if ReachedSomeDay(m, ordered, cap, k) {
      var today: nat :| Reached(m, ordered, cap, today, k);
      ReachedOnDay(m, ordered, cap, today, k);
      var j := MultiplesAreAligned(cap, |m.targets|, today);
      StartsBeforeTheBlock(m.targets, today * cap % |m.targets|, k, g, j, Members(ordered));
    } else {
      var today := DayOfTheBlock(cap, |m.targets|, k, g);
      ReachedOnDay(m, ordered, cap, today, k);
    }
  }

  lemma DayOfTheBlock(cap: nat, n: nat, k: nat, g: nat) returns (today: nat)
    requires k < n && g == Gcd(cap, n) > 0
    ensures today * cap % n == BlockStart(k, g) <= k
  {
    DivMod(k, g);
    today := EveryAlignedComes(cap, n, k / g);
  }

  /** The `j`-th block of `g` consecutive targets. */
  function Block(ring: seq<Target>, g: nat, j: nat): seq<Target> {
    if g * j + g <= |ring| then ring[g * j..g * j + g] else []
  }

  /** The last target of a block that is not in `t`: all the others that are not come before it. */
  lemma {:induction false} LastOutside(s: seq<Target>, t: set<Target>) returns (i: nat)
    requires Outside(s, t) != []
    ensures i < |s| && s[i] !in t && |Outside(s[..i], t)| == |Outside(s, t)| - 1
  {
    var n := |s| - 1;
    if s[n] !in t {
      i := n;
    } else {
      i := LastOutside(s[..n], t);
      assert s[..n][..i] == s[..i];
    }
  }

  lemma {:induction false} FewerBefore(s: seq<Target>, t: set<Target>, i: nat)
    requires i < |s| && s[i] !in t
    ensures |Outside(s[..i], t)| < |Outside(s, t)|
  {
    OutsideJoins(s[..i], s[i..], t);
    assert s == s[..i] + s[i..];
    Splits(s[i..], t);
    assert s[i] == s[i..][0];
    assert s[i] in Outside(s[i..], t);
  }

  ghost predicate Sweeps(m: Table, ordered: seq<Target>, cap: nat) {
    forall k: nat :: k < |m.targets| ==> ReachedSomeDay(m, ordered, cap, k)
  }

  predicate BlockFits(m: Table, ordered: seq<Target>, cap: nat, g: nat, j: nat) {
    |Outside(Block(m.targets, g, j), Members(ordered))| <= cap - |ordered|
  }

  ghost predicate BlocksFit(m: Table, ordered: seq<Target>, cap: nat, g: nat) {
    forall j: nat :: BlockFits(m, ordered, cap, g, j)
  }

  /**
   * Every target is reached on some day just when each aligned block of gcd(cap, targets) consecutive targets misses no
   * more of them than there are places left. A start beyond the cap is cut, and reaches what is left of it alone.
   */
  lemma SweepsWhenBlocksFit(m: Table, ordered: seq<Target>, cap: nat, g: nat)
    requires Distinct(m.targets) && m.targets != [] && g == Gcd(cap, |m.targets|)
    ensures Sweeps(m, ordered, cap)
            <==> if |ordered| <= cap then BlocksFit(m, ordered, cap, g) else forall x :: x in m.targets ==> x in ordered[..cap]
  {
    if |ordered| <= cap {
      ShortStartSweeps(m, ordered, cap, g);
    } else {
      LongStartSweeps(m, ordered, cap);
    }
  }

  lemma LongStartSweeps(m: Table, ordered: seq<Target>, cap: nat)
    requires m.targets != [] && |ordered| > cap
    ensures Sweeps(m, ordered, cap) <==> forall x :: x in m.targets ==> x in ordered[..cap]
  {
    forall k: nat | k < |m.targets| ensures ReachedSomeDay(m, ordered, cap, k) <==> m.targets[k] in ordered[..cap] {
      assert forall today: nat :: Reached(m, ordered, cap, today, k) <==> m.targets[k] in ordered[..cap];
      assert Reached(m, ordered, cap, 0, k) <==> m.targets[k] in ordered[..cap];
    }
  }

  lemma ShortStartSweeps(m: Table, ordered: seq<Target>, cap: nat, g: nat)
    requires Distinct(m.targets) && m.targets != [] && |ordered| <= cap && g == Gcd(cap, |m.targets|)
    ensures Sweeps(m, ordered, cap) <==> BlocksFit(m, ordered, cap, g)
  {
    var _, _ := GcdDivides(cap, |m.targets|);
    if Sweeps(m, ordered, cap) {
      forall j: nat ensures BlockFits(m, ordered, cap, g, j) {
        SweptBlockFits(m, ordered, cap, g, j);
      }
    }
    if BlocksFit(m, ordered, cap, g) {
      forall k: nat | k < |m.targets| ensures ReachedSomeDay(m, ordered, cap, k) {
        assert BlockFits(m, ordered, cap, g, k / g);
        FittingBlockIsSwept(m, ordered, cap, k, g);
      }
    }
  }

  lemma SweptBlockFits(m: Table, ordered: seq<Target>, cap: nat, g: nat, j: nat)
    requires Distinct(m.targets) && m.targets != [] && |ordered| <= cap
    requires Sweeps(m, ordered, cap) && g == Gcd(cap, |m.targets|)
    ensures BlockFits(m, ordered, cap, g, j)
  {
    if Outside(Block(m.targets, g, j), Members(ordered)) != [] {
      var k := LastMissing(m.targets, Members(ordered), g, j);
      ReachedFromItsBlock(m, ordered, cap, k, g);
    }
  }

  lemma LastMissing(ring: seq<Target>, t: set<Target>, g: nat, j: nat) returns (k: nat)
    requires Outside(Block(ring, g, j), t) != []
    ensures g > 0 && k < |ring| && ring[k] !in t && BlockStart(k, g) <= k
    ensures |Outside(ring[BlockStart(k, g)..k], t)| == |Outside(Block(ring, g, j), t)| - 1
  {
    var block := Block(ring, g, j);
    var i := LastOutside(block, t);
    k := g * j + i;
    BlockStartIs(k, g, j);
    assert ring[g * j..k] == block[..i];
  }

  lemma FittingBlockIsSwept(m: Table, ordered: seq<Target>, cap: nat, k: nat, g: nat)
    requires Distinct(m.targets) && k < |m.targets| && |ordered| <= cap
    requires g == Gcd(cap, |m.targets|) > 0
    requires BlockFits(m, ordered, cap, g, k / g)
    ensures ReachedSomeDay(m, ordered, cap, k)
  {
    if m.targets[k] in ordered {
      KeptEveryDay(m, ordered, cap, 0, k);
    } else {
      var _, q := GcdDivides(cap, |m.targets|);
      FewerInTheBlock(m.targets, Members(ordered), g, q, k);
      ReachedFromItsBlock(m, ordered, cap, k, g);
    }
  }

  lemma FewerInTheBlock(ring: seq<Target>, t: set<Target>, g: nat, q: nat, k: nat)
    requires g > 0 && k < |ring| == g * q && ring[k] !in t
    ensures BlockStart(k, g) <= k && |Outside(ring[BlockStart(k, g)..k], t)| < |Outside(Block(ring, g, k / g), t)|
  {
    BlockEnds(k, |ring|, g, q);
    var (b, block) := (BlockStart(k, g), Block(ring, g, k / g));
    assert block[..k - b] == ring[b..k];
    FewerBefore(block, t, k - b);
  }

  lemma KeptEveryDay(m: Table, ordered: seq<Target>, cap: nat, today: nat, k: nat)
    requires |ordered| <= cap && k < |m.targets| && m.targets[k] in ordered
    ensures Reached(m, ordered, cap, today, k)
  {
    var n := |m.targets|;
    FillUpKeeps(ordered, Window(m.targets, today * cap % n, n), cap);
  }

  lemma BlockEnds(k: nat, n: nat, g: nat, q: nat)
    requires g > 0 && k < n == g * q
    ensures g * (k / g) <= k < g * (k / g) + g <= n
  {
    DivMod(k, g);
    if k / g >= q {
      MulSub(g, k / g, q);
      MulAtLeast(g, k / g - q);
    } else {
      MulSub(g, q, k / g);
      MulAtLeast(g, q - k / g);
    }
  }

  // ----- the documented sweep -----

  lemma {:induction false} FillUpTakesAll(out: seq<Target>, rotated: seq<Target>, cap: nat)
    requires Distinct(out + rotated) && |out| <= cap
    ensures FillUp(out, rotated, cap) == Take(out + rotated, cap)
    decreases |rotated|
  {
    if rotated != [] && |out| < cap {
      assert (out + rotated)[|out|] == rotated[0];
      assert forall i :: 0 <= i < |out| ==> (out + rotated)[i] == out[i];
      assert out + rotated == (out + [rotated[0]]) + rotated[1..];
      FillUpTakesAll(out + [rotated[0]], rotated[1..], cap);
    }
  }

  /** From an empty start, any `Nights` consecutive days reach every target, as documented. */
  lemma FillFromNothingSweeps(m: Table, cap: nat, day: nat, k: nat) returns (night: nat)
    requires Distinct(m.targets) && k < |m.targets| && cap > 0
    ensures day <= night < day + Nights(|m.targets|, cap) && Reached(m, [], cap, night, k)
  {
    var (ring, n) := (m.targets, |m.targets|);
    night := SweepReaches(ring, cap, day, k);
    var start := night * cap % n;
    var rotated := Window(ring, start, n);
    WindowIsDistinct(ring, start, n);
    assert [] + rotated == rotated;
    FillUpTakesAll([], rotated, cap);
    if n <= cap {
      WindowIsWhole(ring, start, k);
    } else {
      assert rotated[..cap] == Window(ring, start, cap);
    }
  }

  /** The documented sweep fails once the fill does not start empty: one target is never reached on any day. */
  lemma FillFromOneNeverSweeps(today: nat)
    ensures var m := Table(["a", "b", "c", "d"], []);
            RotationFill(m, ["a"], 2, today).List? && "d" !in RotationFill(m, ["a"], 2, today).targets
  {
    var start := today * 2 % 4;
    assert start == 0 || start == 2;
    var rotated := Window(["a", "b", "c", "d"], start, 4);
    if start == 0 {
      assert rotated[0] == "a" && rotated[1] == "b";
      assert rotated == ["a", "b"] + rotated[2..];
      FillSkips("a", "b", rotated[2..]);
    } else {
      assert rotated[0] == "c";
      assert rotated == ["c"] + rotated[1..];
      FillStops("a", "c", rotated[1..]);
    }
  }

  lemma FillStops(x: Target, y: Target, rest: seq<Target>)
    requires x != y
    ensures FillUp([x], [y] + rest, 2) == [x, y]
  {
    assert ([y] + rest)[1..] == rest;
  }

  lemma FillSkips(x: Target, y: Target, rest: seq<Target>)
    requires x != y
    ensures FillUp([x], [x, y] + rest, 2) == [x, y]
  {
    assert ([x, y] + rest)[1..] == [y] + rest;
    FillStops(x, y, rest);
  }
}
