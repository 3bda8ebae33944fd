/** What a breadth-first search knows about the states it has met, and why that is enough. */
module Search {
  import opened Formulas
  import opened Basics
  import opened Compiler
  import opened Models

  /** Python's dict compares tuples with ==, so True and 1 are one key. */
  function NormState(st: State): State {
    seq(|st|, i requires 0 <= i < |st| => Norm(st[i]))
  }

  /** No two different reachable states look the same to Python. */
  ghost predicate Distinguishable(m: Model) {
    forall s: State, t: State :: Reachable(m, s) && Reachable(m, t) && NormState(s) == NormState(t) ==> s == t
  }

  /** How a state was first met: initially, or by a named action from another state. */
  datatype Parent = Root | Via(state: State, name: string)

  type Parents = map<State, Parent>

  // ----- what has been met -----

  ghost predicate NormDistinct(order: seq<State>) {
    forall i, j :: 0 <= i < j < |order| ==> NormState(order[i]) != NormState(order[j])
  }

  ghost predicate ParentOk(m: Model, order: seq<State>, depth: seq<nat>, parents: Parents, i: nat)
    requires |depth| == |order| && i < |order|
  {
    && NormState(order[i]) in parents
    && match parents[NormState(order[i])]
       case Root => depth[i] == 0 && order[i] in m.starts
       case Via(p, name) =>
         exists j :: 0 <= j < i && order[j] == p && depth[i] == depth[j] + 1 && StepNamed(m, name, p) == Some(order[i])
  }

  ghost predicate HasKey(order: seq<State>, key: State) {
    exists i :: 0 <= i < |order| && NormState(order[i]) == key
  }

  ghost predicate KeysMet(order: seq<State>, parents: Parents) {
    forall key :: key in parents ==> HasKey(order, key)
  }

  ghost predicate Ascending(depth: seq<nat>) {
    forall i, j :: 0 <= i < j < |depth| ==> depth[i] <= depth[j]
  }

  ghost predicate Shaped(m: Model, order: seq<State>) {
    forall i :: 0 <= i < |order| ==> |order[i]| == |m.fields|
  }

  ghost predicate ParentsOk(m: Model, order: seq<State>, depth: seq<nat>, parents: Parents)
    requires |depth| == |order|
  {
    forall i :: 0 <= i < |order| ==> ParentOk(m, order, depth, parents, i)
  }

  /** Everything met is reachable in exactly `depth` steps, and depths never decrease. */
  ghost predicate Sound(m: Model, order: seq<State>, depth: seq<nat>, parents: Parents) {
    && |depth| == |order| && NormDistinct(order) && Shaped(m, order) && Ascending(depth)
    && ParentsOk(m, order, depth, parents) && KeysMet(order, parents)
  }

  /** `st`, up to Python equality, has been met at depth at most `d`. */
  ghost predicate Met(order: seq<State>, depth: seq<nat>, st: State, d: nat)
    requires |depth| == |order|
  {
    exists j :: 0 <= j < |order| && NormState(order[j]) == NormState(st) && depth[j] <= d
  }

  /** Rule `k` at the `i`-th state is disabled, or moves to a state already met. */
  ghost predicate Covered(m: Model, order: seq<State>, depth: seq<nat>, i: nat, k: nat)
    requires |depth| == |order| && i < |order| && k < |m.rules|
  {
    match StepOf(m, m.rules[k], order[i])
    case Disabled => true
    case Faults(_) => false
    case Moves(next) => NormState(next) != NormState(order[i]) && Met(order, depth, next, depth[i] + 1)
  }

  ghost predicate Expanded(m: Model, order: seq<State>, depth: seq<nat>, h: nat)
    requires |depth| == |order| && h <= |order|
  {
    forall i, k :: 0 <= i < h && 0 <= k < |m.rules| ==> Covered(m, order, depth, i, k)
  }

  ghost predicate StartsMet(m: Model, order: seq<State>, depth: seq<nat>)
    requires |depth| == |order|
  {
    forall s :: s in m.starts ==> Met(order, depth, s, 0)
  }

  /** States past the `h`-th are at most one level deeper than it. */
  ghost predicate Window(depth: seq<nat>, h: nat) {
    h < |depth| ==> forall j :: 0 <= j < |depth| ==> depth[j] <= depth[h] + 1
  }

  /** The search after expanding the first `h` states met. */
  ghost predicate Frontier(m: Model, order: seq<State>, depth: seq<nat>, parents: Parents, h: nat) {
    && Sound(m, order, depth, parents) && h <= |order|
    && StartsMet(m, order, depth) && Expanded(m, order, depth, h) && Window(depth, h)
  }

  // ----- soundness -----

  lemma {:induction false} RunTo(m: Model, order: seq<State>, depth: seq<nat>, parents: Parents, i: nat)
    returns (start: State, names: seq<string>)
    requires Sound(m, order, depth, parents) && i < |order|
    ensures start in m.starts && Replay(m, start, names) == Some(order[i]) && |names| == depth[i]
    decreases i
  {
    assert ParentOk(m, order, depth, parents, i);
    match parents[NormState(order[i])]
    case Root =>
      start, names := order[i], [];
    case Via(p, name) =>
      var j :| 0 <= j < i && order[j] == p && depth[i] == depth[j] + 1 && StepNamed(m, name, p) == Some(order[i]);
      var prefix;
      start, prefix := RunTo(m, order, depth, parents, j);
      ReplayExtends(m, start, prefix, name, p, order[i]);
      names := prefix + [name];
  }

  lemma MetIsReachable(m: Model, order: seq<State>, depth: seq<nat>, parents: Parents)
    requires Sound(m, order, depth, parents)
    ensures forall st :: st in order ==> Reachable(m, st)
  {
    forall st | st in order ensures Reachable(m, st) {
      var i :| 0 <= i < |order| && order[i] == st;
      var start, names := RunTo(m, order, depth, parents, i);
    }
  }

  // ----- completeness and shortest runs -----

  /** Where the states can be told apart, meeting a state up to Python equality is meeting it. */
  lemma MetExactly(m: Model, order: seq<State>, depth: seq<nat>, parents: Parents, st: State, d: nat)
    requires Sound(m, order, depth, parents) && Distinguishable(m) && Reachable(m, st) && Met(order, depth, st, d)
    ensures exists j :: 0 <= j < |order| && order[j] == st && depth[j] <= d
  {
    MetIsReachable(m, order, depth, parents);
    var j :| 0 <= j < |order| && NormState(order[j]) == NormState(st) && depth[j] <= d;
    assert order[j] in order;
  }

  lemma SuccessorIsMet(m: Model, order: seq<State>, depth: seq<nat>, h: nat, j: nat, name: string, st: State)
    requires |depth| == |order| && j < h <= |order| && Expanded(m, order, depth, h)
    requires StepNamed(m, name, order[j]) == Some(st)
    ensures Met(order, depth, st, depth[j] + 1)
  {
    NamedIsThere(m.rules, name);
    var k :| 0 <= k < |m.rules| && m.rules[k] == RuleNamed(m.rules, name).value;
    assert Covered(m, order, depth, j, k);
  }

  ghost predicate MetBy(order: seq<State>, depth: seq<nat>, h: nat, st: State, n: nat)
    requires |depth| == |order|
  {
    (h < |order| && n > depth[h]) || exists j :: 0 <= j < |order| && order[j] == st && depth[j] <= n
  }

  lemma StepIsMet(m: Model, order: seq<State>, depth: seq<nat>, parents: Parents, h: nat,
                  mid: State, n: nat, name: string, st: State)
    requires Frontier(m, order, depth, parents, h) && Distinguishable(m)
    requires MetBy(order, depth, h, mid, n) && StepNamed(m, name, mid) == Some(st) && Reachable(m, st)
    ensures MetBy(order, depth, h, st, n + 1)
  {
    if !(h < |order| && n > depth[h]) {
      var j :| 0 <= j < |order| && order[j] == mid && depth[j] <= n;
      if j < h {
        SuccessorIsMet(m, order, depth, h, j, name, st);
        MetExactly(m, order, depth, parents, st, depth[j] + 1);
      }
    }
  }

  /** Any run is met no later than its length, unless it is longer than the frontier is deep. */
  lemma {:induction false} RunIsMet(m: Model, order: seq<State>, depth: seq<nat>, parents: Parents, h: nat,
                                    start: State, names: seq<string>)
    requires Frontier(m, order, depth, parents, h) && Distinguishable(m)
    requires start in m.starts && Replay(m, start, names).Some?
    ensures MetBy(order, depth, h, Replay(m, start, names).value, |names|)
    decreases |names|
  {
    var st := Replay(m, start, names).value;
    assert Reachable(m, st);
    if names == [] {
      MetExactly(m, order, depth, parents, st, 0);
    } else {
      var short := names[..|names| - 1];
      RunIsMet(m, order, depth, parents, h, start, short);
      StepIsMet(m, order, depth, parents, h, Replay(m, start, short).value, |short|, names[|names| - 1], st);
    }
  }

  /** When nothing is left to expand, every reachable state has been met. */
  lemma AllMet(m: Model, order: seq<State>, depth: seq<nat>, parents: Parents, st: State)
    requires Frontier(m, order, depth, parents, |order|) && Distinguishable(m) && Reachable(m, st)
    ensures st in order
  {
    var start, names :| start in m.starts && Replay(m, start, names) == Some(st);
    RunIsMet(m, order, depth, parents, |order|, start, names);
  }

  /** A run shorter than the depth of the next state ends in a state already expanded. */
  lemma ShorterIsExpanded(m: Model, order: seq<State>, depth: seq<nat>, parents: Parents, h: nat,
                          start: State, names: seq<string>)
    requires Frontier(m, order, depth, parents, h) && Distinguishable(m) && h < |order|
    requires start in m.starts && Replay(m, start, names).Some? && |names| < depth[h]
    ensures exists j :: 0 <= j < h && order[j] == Replay(m, start, names).value
  {
    RunIsMet(m, order, depth, parents, h, start, names);
    var j :| 0 <= j < |order| && order[j] == Replay(m, start, names).value && depth[j] <= |names|;
    ShallowIsExpanded(depth, h, j);
  }

  lemma ShallowIsExpanded(depth: seq<nat>, h: nat, j: nat)
    requires h < |depth| && j < |depth| && depth[j] < depth[h]
    requires forall a, b :: 0 <= a < b < |depth| ==> depth[a] <= depth[b]
    ensures j < h
  {
  }

  // ----- growing the search -----

  lemma MetGrows(order: seq<State>, depth: seq<nat>, more: seq<State>, deeper: seq<nat>, st: State, d: nat)
    requires |depth| == |order| && |deeper| == |more| && Met(order, depth, st, d)
    ensures Met(order + more, depth + deeper, st, d)
  {
    var j :| 0 <= j < |order| && NormState(order[j]) == NormState(st) && depth[j] <= d;
    assert (order + more)[j] == order[j] && (depth + deeper)[j] == depth[j];
  }

  lemma CoveredGrows(m: Model, order: seq<State>, depth: seq<nat>, st: State, d: nat, i: nat, k: nat)
    requires |depth| == |order| && i < |order| && k < |m.rules| && Covered(m, order, depth, i, k)
    ensures Covered(m, order + [st], depth + [d], i, k)
  {
    var step := StepOf(m, m.rules[k], order[i]);
    if step.Moves? {
      MetGrows(order, depth, [st], [d], step.next, depth[i] + 1);
    }
  }

  lemma ParentOkGrows(m: Model, order: seq<State>, depth: seq<nat>, parents: Parents, st: State, d: nat, p: Parent, i: nat)
    requires |depth| == |order| && i < |order| && ParentOk(m, order, depth, parents, i)
    requires NormState(st) !in parents
    ensures ParentOk(m, order + [st], depth + [d], parents[NormState(st) := p], i)
  {
    match parents[NormState(order[i])]
    case Root =>
    case Via(q, name) =>
      var j :| 0 <= j < i && order[j] == q && depth[i] == depth[j] + 1 && StepNamed(m, name, q) == Some(order[i]);
      assert (order + [st])[j] == q && (depth + [d])[i] == (depth + [d])[j] + 1;
  }

  lemma KeysGrow(order: seq<State>, parents: Parents, st: State, p: Parent)
    requires KeysMet(order, parents)
    ensures KeysMet(order + [st], parents[NormState(st) := p])
  {
    var order' := order + [st];
    forall key | key in parents[NormState(st) := p] ensures HasKey(order', key) {
      if key == NormState(st) {
        assert NormState(order'[|order|]) == key;
      } else {
        assert HasKey(order, key);
        var i :| 0 <= i < |order| && NormState(order[i]) == key;
        assert NormState(order'[i]) == key;
      }
    }
  }

  /** A new state's parent: none for an initial state, or a state already met one level up. */
  ghost predicate GoodParent(m: Model, order: seq<State>, depth: seq<nat>, st: State, d: nat, p: Parent)
    requires |depth| == |order|
  {
    match p
    case Root => d == 0 && st in m.starts
    case Via(q, name) =>
      StepNamed(m, name, q) == Some(st) && exists j :: 0 <= j < |order| && order[j] == q && d == depth[j] + 1
  }

  lemma NewParentOk(m: Model, order: seq<State>, depth: seq<nat>, parents: Parents, st: State, d: nat, p: Parent)
    requires |depth| == |order| && GoodParent(m, order, depth, st, d, p)
    ensures ParentOk(m, order + [st], depth + [d], parents[NormState(st) := p], |order|)
  {
    if p.Via? {
      var j :| 0 <= j < |order| && order[j] == p.state && d == depth[j] + 1;
      assert (order + [st])[j] == p.state && (depth + [d])[j] == depth[j];
    }
  }

  lemma ParentsGrow(m: Model, order: seq<State>, depth: seq<nat>, parents: Parents, st: State, d: nat, p: Parent)
    requires |depth| == |order| && ParentsOk(m, order, depth, parents) && NormState(st) !in parents
    requires GoodParent(m, order, depth, st, d, p)
    ensures ParentsOk(m, order + [st], depth + [d], parents[NormState(st) := p])
  {
    var order', depth', parents' := order + [st], depth + [d], parents[NormState(st) := p];
    forall i | 0 <= i < |order'| ensures ParentOk(m, order', depth', parents', i) {
      if i < |order| {
        ParentOkGrows(m, order, depth, parents, st, d, p, i);
      } else {
        NewParentOk(m, order, depth, parents, st, d, p);
      }
    }
  }

  lemma NewKey(m: Model, order: seq<State>, depth: seq<nat>, parents: Parents, st: State)
    requires |depth| == |order| && ParentsOk(m, order, depth, parents) && NormDistinct(order) && NormState(st) !in parents
    ensures NormDistinct(order + [st])
  {
    forall i | 0 <= i < |order| ensures NormState(order[i]) != NormState(st) {
      assert ParentOk(m, order, depth, parents, i);
    }
  }

  lemma SoundGrows(m: Model, order: seq<State>, depth: seq<nat>, parents: Parents, st: State, d: nat, p: Parent)
    requires Sound(m, order, depth, parents) && NormState(st) !in parents && |st| == |m.fields|
    requires forall i :: 0 <= i < |order| ==> depth[i] <= d
    requires GoodParent(m, order, depth, st, d, p)
    ensures Sound(m, order + [st], depth + [d], parents[NormState(st) := p])
  {
    ParentsGrow(m, order, depth, parents, st, d, p);
    NewKey(m, order, depth, parents, st);
    KeysGrow(order, parents, st, p);
  }

  lemma ExpandedGrows(m: Model, order: seq<State>, depth: seq<nat>, st: State, d: nat, h: nat)
    requires |depth| == |order| && h <= |order| && Expanded(m, order, depth, h)
    ensures Expanded(m, order + [st], depth + [d], h)
  {
    forall i, k | 0 <= i < h && 0 <= k < |m.rules| ensures Covered(m, order + [st], depth + [d], i, k) {
      CoveredGrows(m, order, depth, st, d, i, k);
    }
  }

  lemma StartsMetGrows(m: Model, order: seq<State>, depth: seq<nat>, st: State, d: nat)
    requires |depth| == |order| && StartsMet(m, order, depth)
    ensures StartsMet(m, order + [st], depth + [d])
  {
    forall s | s in m.starts ensures Met(order + [st], depth + [d], s, 0) {
      MetGrows(order, depth, [st], [d], s, 0);
    }
  }

  /** Membership in the parents table is having been met. */
  lemma InParentsIsMet(m: Model, order: seq<State>, depth: seq<nat>, parents: Parents, st: State)
    requires Sound(m, order, depth, parents)
    ensures NormState(st) in parents <==> HasKey(order, NormState(st))
  {
    forall j | 0 <= j < |order| ensures NormState(order[j]) in parents {
      assert ParentOk(m, order, depth, parents, j);
    }
  }

  // ----- counting -----

  /** A state no rule leaves. */
  ghost predicate Stuck(m: Model, st: State) {
    forall k :: 0 <= k < |m.rules| ==> StepOf(m, m.rules[k], st).Disabled?
  }

  ghost function StuckCount(m: Model, states: seq<State>): nat {
    if states == [] then 0
    else
      var n := |states| - 1;
      StuckCount(m, states[..n]) + if Stuck(m, states[n]) then 1 else 0
  }

  lemma StuckCountGrows(m: Model, order: seq<State>, h: nat)
    requires h < |order|
    ensures StuckCount(m, order[..h + 1]) == StuckCount(m, order[..h]) + if Stuck(m, order[h]) then 1 else 0
  {
    assert order[..h + 1][..h] == order[..h];
  }

  /** A list of different elements of a finite set is no longer than the set. */
  lemma {:induction false} DistinctFits(xs: seq<State>, bound: set<State>)
    requires Distinct(xs) && forall x :: x in xs ==> x in bound
    ensures |xs| <= |bound|
  {
    if xs != [] {
      var n := |xs| - 1;
      assert xs[n] in bound;
      forall x | x in xs[..n] ensures x in bound - {xs[n]} {
        var i :| 0 <= i < n && xs[..n][i] == x;
        assert xs[i] != xs[n] && xs[i] in xs;
      }
      DistinctFits(xs[..n], bound - {xs[n]});
    }
  }
}
