/** The breadth-first explorer: its queue, its tables, and what each of its verdicts means. */
module Explorer {
  import opened Formulas
  import opened Basics
  import opened Compiler
  import opened Models
  import opened Search

  datatype Verdict =
    | Passed(states: nat, terminals: nat)
    | Broken(fault: Fault)
    | Stutters(name: string)
    | InvariantFailed(index: nat, trace: seq<string>, state: State)
    | DeadEnd(trace: seq<string>, state: State)
    | WitnessMissing(index: nat)
    | Unfinished

  // ----- what a verdict says -----

  ghost predicate AllHold(m: Model, st: State) {
    forall v :: 0 <= v < |m.invariants| ==> Truth(m.fields, m.invariants[v], st) == Ok(true)
  }

  /** Every invariant holds, and a state no rule leaves satisfies the terminal formula. */
  ghost predicate Clean(m: Model, st: State) {
    AllHold(m, st) && (Stuck(m, st) ==> Truth(m.fields, m.terminal, st) == Ok(true))
  }

  /** Every rule is disabled or changes the state. */
  ghost predicate Lively(m: Model, st: State) {
    forall k :: 0 <= k < |m.rules| ==>
      match StepOf(m, m.rules[k], st)
      case Disabled => true
      case Faults(_) => false
      case Moves(next) => NormState(next) != NormState(st)
  }

  /** The exceptions some guard, assignment or claim raises in a state. */
  ghost function FaultsAt(m: Model, st: State): set<Fault> {
    (set k | 0 <= k < |m.rules| && StepOf(m, m.rules[k], st).Faults? :: StepOf(m, m.rules[k], st).fault)
    + (set t | t in m.invariants + m.witnesses + [m.terminal] && Truth(m.fields, t, st).Raise? :: Truth(m.fields, t, st).fault)
  }

  /** The trace replays from some initial state to `st`. */
  ghost predicate Replays(m: Model, trace: seq<string>, st: State) {
    exists start :: start in m.starts && Replay(m, start, trace) == Some(st)
  }

  /** No run shorter than `n` reaches a state that is not clean. */
  ghost predicate CleanWithin(m: Model, n: nat) {
    forall start, names :: start in m.starts && |names| < n && Replay(m, start, names).Some? ==>
      Clean(m, Replay(m, start, names).value)
  }

  ghost predicate Witnessed(m: Model, w: nat, states: seq<State>)
    requires w < |m.witnesses|
  {
    exists i :: 0 <= i < |states| && Truth(m.fields, m.witnesses[w], states[i]) == Ok(true)
  }

  ghost predicate NotWitnessed(m: Model, w: nat, states: seq<State>)
    requires w < |m.witnesses|
  {
    forall i :: 0 <= i < |states| ==> Truth(m.fields, m.witnesses[w], states[i]) == Ok(false)
  }

  /** The states a passing search lists are clean and lively, and show every witness. */
  ghost predicate GoodListing(m: Model, states: seq<State>) {
    && (forall st :: st in states ==> Clean(m, st) && Lively(m, st))
    && (forall w :: 0 <= w < |m.witnesses| ==> Witnessed(m, w, states))
  }

  ghost predicate Complete(m: Model, states: seq<State>) {
    forall st :: Reachable(m, st) ==> st in states
  }

  /** A failure, and what it proves about the model. */
  ghost predicate Refutes(m: Model, out: Verdict) {
    match out
    case Passed(_, _) => false
    case Unfinished => false
    case Broken(f) => exists st :: Reachable(m, st) && f in FaultsAt(m, st)
    case Stutters(name) => exists st :: Reachable(m, st) && StuttersAt(m, name, st)
    case InvariantFailed(v, trace, st) =>
      && v < |m.invariants| && Truth(m.fields, m.invariants[v], st) == Ok(false)
      && Replays(m, trace, st) && (Distinguishable(m) ==> CleanWithin(m, |trace|))
    case DeadEnd(trace, st) =>
      && AllHold(m, st) && Stuck(m, st) && Truth(m.fields, m.terminal, st) == Ok(false)
      && Replays(m, trace, st) && (Distinguishable(m) ==> CleanWithin(m, |trace|))
    case WitnessMissing(w) =>
      w < |m.witnesses| && (Distinguishable(m) ==> NeverHolds(m, m.witnesses[w]))
  }

  ghost predicate StuttersAt(m: Model, name: string, st: State) {
    StepNamed(m, name, st).Some? && NormState(StepNamed(m, name, st).value) == NormState(st)
  }

  ghost predicate NeverHolds(m: Model, tree: AST) {
    forall st :: Reachable(m, st) ==> Truth(m.fields, tree, st) == Ok(false)
  }

  /** A search that ended well listed `visited`: all of the reachable states just when they can be told apart. */
  ghost predicate Confirms(m: Model, visited: seq<State>, out: Verdict) {
    && out == Passed(|visited|, StuckCount(m, visited))
    && GoodListing(m, visited) && (Complete(m, visited) <==> Distinguishable(m))
  }

  ghost predicate Means(m: Model, fuel: nat, visited: seq<State>, out: Verdict) {
    match out
    case Passed(_, _) => Confirms(m, visited, out)
    case Unfinished => |visited| > fuel
    case _ => Refutes(m, out)
  }

  // ----- the pieces of the loop -----

  /** Any run to `mid` continues through `steps` to `end`. */
  ghost predicate Continues(m: Model, mid: State, steps: seq<string>, end: State) {
    forall start, names ::
      Replay(m, start, names) == Some(mid) ==> Replay(m, start, names + steps) == Some(end)
  }

  lemma ContinuesBack(m: Model, p: State, name: string, mid: State, steps: seq<string>, end: State)
    requires Continues(m, mid, steps, end) && StepNamed(m, name, p) == Some(mid)
    ensures Continues(m, p, [name] + steps, end)
  {
    forall start, names | Replay(m, start, names) == Some(p)
      ensures Replay(m, start, names + ([name] + steps)) == Some(end)
    {
      ContinuesOne(m, start, names, p, name, mid, steps, end);
    }
  }

  lemma ContinuesOne(m: Model, start: State, names: seq<string>, p: State, name: string, mid: State, steps: seq<string>, end: State)
    requires Replay(m, start, names) == Some(p) && StepNamed(m, name, p) == Some(mid) && Continues(m, mid, steps, end)
    ensures Replay(m, start, names + ([name] + steps)) == Some(end)
  {
    ReplayExtends(m, start, names, name, p, mid);
    assert (names + [name]) + steps == names + ([name] + steps);
  }

  /** Walking the parents back to an initial state gives a run to `end`. */
  method Trace(ghost m: Model, ghost order: seq<State>, ghost depth: seq<nat>, parents: Parents, ghost h: nat, end: State)
    returns (steps: seq<string>)
    requires Sound(m, order, depth, parents) && h < |order| && order[h] == end
    ensures Replays(m, steps, end) && |steps| == depth[h]
  {
    steps := [];
    var cursor := end;
    ghost var i: nat := h;
    assert forall names: seq<string> :: names + steps == names;
    while true
      invariant i < |order| && order[i] == cursor && |steps| + depth[i] == depth[h]
      invariant Continues(m, cursor, steps, end)
      decreases i
    {
      assert ParentOk(m, order, depth, parents, i);
      match parents[NormState(cursor)]
      case Root =>
        assert Replay(m, cursor, []) == Some(cursor) && [] + steps == steps;
        return;
      case Via(p, name) =>
        ghost var j :| 0 <= j < i && order[j] == p && depth[i] == depth[j] + 1 && StepNamed(m, name, p) == Some(cursor);
        ContinuesBack(m, p, name, cursor, steps, end);
        steps := [name] + steps;
        cursor := p;
        i := j;
    }
  }

  /** The first claim that is not true in a state. */
  method FirstUntrue(ghost fields: seq<string>, ghost trees: seq<AST>, ps: seq<Pred>, st: State)
    returns (at: nat, r: Result<bool>)
    requires ImplementsAll(fields, trees, ps) && |st| == |fields|
    ensures at <= |trees| && forall v :: 0 <= v < at ==> Truth(fields, trees[v], st) == Ok(true)
    ensures at < |trees| ==> r == Truth(fields, trees[at], st) && (r.Raise? || r == Ok(false))
  {
    at, r := 0, Ok(true);
    while at < |ps|
      invariant at <= |ps| && forall v :: 0 <= v < at ==> Truth(fields, trees[v], st) == Ok(true)
    {
      r := ps[at](st).out;
      if r.Raise? || !r.value {
        return;
      }
      at := at + 1;
    }
  }

  /** any(...) over the states met: a fault, or whether some state satisfies the claim. */
  method AnyHolds(ghost fields: seq<string>, ghost tree: AST, p: Pred, states: seq<State>) returns (r: Result<bool>)
    requires Implements(fields, tree, p) && forall i :: 0 <= i < |states| ==> |states[i]| == |fields|
    ensures r.Ok? && r.value ==> exists i :: 0 <= i < |states| && Truth(fields, tree, states[i]) == Ok(true)
    ensures r.Ok? && !r.value ==> forall i :: 0 <= i < |states| ==> Truth(fields, tree, states[i]) == Ok(false)
    ensures r.Raise? ==> exists i :: 0 <= i < |states| && Truth(fields, tree, states[i]) == Raise(r.fault)
  {
    for i := 0 to |states|
      invariant forall j :: 0 <= j < i ==> Truth(fields, tree, states[j]) == Ok(false)
    {
      r := p(states[i]).out;
      if r.Raise? || r.value {
        return;
      }
    }
    return Ok(false);
  }

  /** The states found while one state is being expanded. */
  ghost predicate Expanding(m: Model, order: seq<State>, depth: seq<nat>, parents: Parents, h: nat, k: nat) {
    && Sound(m, order, depth, parents) && h < |order| && k <= |m.rules|
    && StartsMet(m, order, depth) && Expanded(m, order, depth, h) && Window(depth, h)
    && forall r :: 0 <= r < k ==> Covered(m, order, depth, h, r)
  }

  lemma StepKeepsShape(m: Model, r: Rule, st: State)
    requires StepOf(m, r, st).Moves?
    ensures |StepOf(m, r, st).next| == |m.fields|
  {
  }

  /** A successor not met before joins the end of the queue, one level down. */
  lemma Discover(m: Model, order: seq<State>, depth: seq<nat>, parents: Parents, h: nat, k: nat, next: State)
    requires Expanding(m, order, depth, parents, h, k) && k < |m.rules|
    requires StepOf(m, m.rules[k], order[h]) == Moves(next) && NormState(next) != NormState(order[h])
    requires NormState(next) !in parents
    ensures Expanding(m, order + [next], depth + [depth[h] + 1],
                      parents[NormState(next) := Via(order[h], m.rules[k].name)], h, k + 1)
  {
    var d := depth[h] + 1;
    DiscoverIsSound(m, order, depth, parents, h, k, next);
    StartsMetGrows(m, order, depth, next, d);
    ExpandedGrows(m, order, depth, next, d, h);
    DiscoverCovers(m, order, depth, h, k, next, d);
  }

  lemma RuleSteps(m: Model, k: nat, st: State, next: State)
    requires k < |m.rules| && StepOf(m, m.rules[k], st) == Moves(next)
    ensures StepNamed(m, m.rules[k].name, st) == Some(next) && |next| == |m.fields|
  {
    StepKeepsShape(m, m.rules[k], st);
    NamedByPosition(m.rules, k);
  }

  lemma StepIsGoodParent(m: Model, order: seq<State>, depth: seq<nat>, h: nat, name: string, next: State)
    requires |depth| == |order| && h < |order| && StepNamed(m, name, order[h]) == Some(next)
    ensures GoodParent(m, order, depth, next, depth[h] + 1, Via(order[h], name))
  {
  }

  lemma DiscoverIsSound(m: Model, order: seq<State>, depth: seq<nat>, parents: Parents, h: nat, k: nat, next: State)
    requires Sound(m, order, depth, parents) && h < |order| && Window(depth, h) && k < |m.rules|
    requires StepOf(m, m.rules[k], order[h]) == Moves(next) && NormState(next) !in parents
    ensures Sound(m, order + [next], depth + [depth[h] + 1], parents[NormState(next) := Via(order[h], m.rules[k].name)])
  {
    RuleSteps(m, k, order[h], next);
    StepIsGoodParent(m, order, depth, h, m.rules[k].name, next);
    SoundGrows(m, order, depth, parents, next, depth[h] + 1, Via(order[h], m.rules[k].name));
  }

  lemma DiscoverCovers(m: Model, order: seq<State>, depth: seq<nat>, h: nat, k: nat, next: State, d: nat)
    requires |depth| == |order| && h < |order| && k < |m.rules| && d == depth[h] + 1
    requires StepOf(m, m.rules[k], order[h]) == Moves(next) && NormState(next) != NormState(order[h])
    requires forall r :: 0 <= r < k ==> Covered(m, order, depth, h, r)
    ensures forall r :: 0 <= r < k + 1 ==> Covered(m, order + [next], depth + [d], h, r)
  {
    forall r | 0 <= r < k ensures Covered(m, order + [next], depth + [d], h, r) {
      CoveredGrows(m, order, depth, next, d, h, r);
    }
    var (order', depth') := (order + [next], depth + [d]);
    assert order'[|order|] == next && depth'[|order|] == d && order'[h] == order[h] && depth'[h] == depth[h];
    assert Met(order', depth', next, d);
    assert Covered(m, order', depth', h, k);
  }

  /** A successor already met changes nothing. */
  lemma Rediscover(m: Model, order: seq<State>, depth: seq<nat>, parents: Parents, h: nat, k: nat, next: State)
    requires Expanding(m, order, depth, parents, h, k) && k < |m.rules|
    requires StepOf(m, m.rules[k], order[h]) == Moves(next) && NormState(next) != NormState(order[h])
    requires NormState(next) in parents
    ensures Expanding(m, order, depth, parents, h, k + 1)
  {
    InParentsIsMet(m, order, depth, parents, next);
    assert HasKey(order, NormState(next));
    var j :| 0 <= j < |order| && NormState(order[j]) == NormState(next);
    assert depth[j] <= depth[h] + 1;
    assert Met(order, depth, next, depth[h] + 1);
  }

  lemma FinishExpanding(m: Model, order: seq<State>, depth: seq<nat>, parents: Parents, h: nat)
    requires Expanding(m, order, depth, parents, h, |m.rules|)
    ensures Frontier(m, order, depth, parents, h + 1)
  {
  }

  /** A rule tried at a state. */
  datatype Attempt = Attempt(name: string, outcome: StepOutcome)

  /** What the rules tried so far have come to; `known` is what Python has seen the like of. */
  datatype Tally = Tally(stop: Option<Verdict>, moved: bool, found: seq<State>, known: set<State>)

  function Counted(t: Tally, a: Attempt, st: State): Tally {
    if t.stop.Some? then t
    else match a.outcome
      case Disabled => t
      case Faults(f) => t.(stop := Some(Broken(f)))
      case Moves(next) =>
        if NormState(next) == NormState(st) then t.(stop := Some(Stutters(a.name)))
        else if NormState(next) in t.known then t.(moved := true)
        else t.(moved := true, found := t.found + [next], known := t.known + {NormState(next)})
  }

  /** The tally of the first `k` attempts. */
  function TallyOf(attempts: seq<Attempt>, st: State, known: set<State>, k: nat): Tally
    requires k <= |attempts|
  {
    if k == 0 then Tally(None, false, [], known)
    else Counted(TallyOf(attempts, st, known, k - 1), attempts[k - 1], st)
  }

  /** The rules of a model at a state. */
  ghost function Attempts(m: Model, st: State, n: nat): (r: seq<Attempt>)
    requires n <= |m.rules|
    ensures |r| == n
  {
    if n == 0 then [] else Attempts(m, st, n - 1) + [Attempt(m.rules[n - 1].name, StepOf(m, m.rules[n - 1], st))]
  }

  lemma {:induction false} AttemptsAt(m: Model, st: State, n: nat, k: nat)
    requires k < n <= |m.rules|
    ensures Attempts(m, st, n)[k] == Attempt(m.rules[k].name, StepOf(m, m.rules[k], st))
  {
    if k < n - 1 {
      AttemptsAt(m, st, n - 1, k);
    }
  }

  /** Once stopped, the rest of the rules change nothing. */
  lemma {:induction false} TallyStays(attempts: seq<Attempt>, st: State, known: set<State>, k: nat, n: nat)
    requires k <= n <= |attempts| && TallyOf(attempts, st, known, k).stop.Some?
    ensures TallyOf(attempts, st, known, n) == TallyOf(attempts, st, known, k)
    decreases n
  {
    if k < n {
      TallyStays(attempts, st, known, k, n - 1);
    }
  }

  lemma {:induction false} KnownOrFound(attempts: seq<Attempt>, st: State, known: set<State>, k: nat, key: State)
    requires k <= |attempts|
    ensures var t := TallyOf(attempts, st, known, k); key in t.known <==> key in known || HasKey(t.found, key)
  {
    if k > 0 {
      var before := TallyOf(attempts, st, known, k - 1);
      KnownOrFound(attempts, st, known, k - 1, key);
      if attempts[k - 1].outcome.Moves? {
        KeysJoin(before.found, attempts[k - 1].outcome.next, key);
      }
    }
  }

  lemma KeysJoin(found: seq<State>, next: State, key: State)
    ensures HasKey(found + [next], key) <==> HasKey(found, key) || NormState(next) == key
  {
    var more := found + [next];
    if HasKey(found, key) {
      var i :| 0 <= i < |found| && NormState(found[i]) == key;
      assert more[i] == found[i];
    }
    assert more[|found|] == next;
  }

  lemma {:induction false} FoundIsNew(attempts: seq<Attempt>, st: State, known: set<State>, k: nat)
    requires k <= |attempts|
    ensures var found := TallyOf(attempts, st, known, k).found;
            NormDistinct(found) && forall i :: 0 <= i < |found| ==> NormState(found[i]) !in known
  {
    if k > 0 {
      FoundIsNew(attempts, st, known, k - 1);
      if attempts[k - 1].outcome.Moves? {
        KnownOrFound(attempts, st, known, k - 1, NormState(attempts[k - 1].outcome.next));
      }
    }
  }

  /** One of the first `k` attempts leads to `next`. */
  ghost predicate Leads(attempts: seq<Attempt>, k: nat, next: State)
    requires k <= |attempts|
  {
    exists i :: 0 <= i < k && attempts[i].outcome == Moves(next)
  }

  lemma {:induction false} FoundIsASuccessor(attempts: seq<Attempt>, st: State, known: set<State>, k: nat, next: State)
    requires k <= |attempts|
    ensures next in TallyOf(attempts, st, known, k).found ==> Leads(attempts, k, next)
  {
    if k > 0 {
      FoundIsASuccessor(attempts, st, known, k - 1, next);
    }
  }

  lemma {:induction false} SuccessorIsKnown(attempts: seq<Attempt>, st: State, known: set<State>, k: nat, next: State)
    requires k <= |attempts| && TallyOf(attempts, st, known, k).stop.None? && Leads(attempts, k, next)
    ensures NormState(next) in TallyOf(attempts, st, known, k).known && NormState(next) != NormState(st)
  {
    if attempts[k - 1].outcome != Moves(next) {
      SuccessorIsKnown(attempts, st, known, k - 1, next);
    }
  }

  /** With no stop, the states found are just the successors unlike any known, each once. */
  lemma TallyIsExact(attempts: seq<Attempt>, st: State, known: set<State>, next: State)
    requires TallyOf(attempts, st, known, |attempts|).stop.None?
    ensures var found := TallyOf(attempts, st, known, |attempts|).found;
            && NormDistinct(found)
            && (next in found ==> Leads(attempts, |attempts|, next) && NormState(next) !in known)
            && (Leads(attempts, |attempts|, next) ==> NormState(next) in known || HasKey(found, NormState(next)))
  {
    var n := |attempts|;
    FoundIsNew(attempts, st, known, n);
    FoundIsASuccessor(attempts, st, known, n, next);
    if Leads(attempts, n, next) {
      SuccessorIsKnown(attempts, st, known, n, next);
      KnownOrFound(attempts, st, known, n, NormState(next));
    }
  }

  lemma {:induction false} MovedIs(attempts: seq<Attempt>, st: State, known: set<State>, k: nat)
    requires k <= |attempts| && TallyOf(attempts, st, known, k).stop.None?
    ensures TallyOf(attempts, st, known, k).moved <==> exists i :: 0 <= i < k && !attempts[i].outcome.Disabled?
  {
    if k > 0 {
      MovedIs(attempts, st, known, k - 1);
    }
  }

  /** The tally of all rules at a state. */
  ghost function TallyAt(m: Model, st: State, known: set<State>, k: nat): Tally
    requires k <= |m.rules|
  {
    TallyOf(Attempts(m, st, |m.rules|), st, known, k)
  }

  lemma MovedIsUnstuck(m: Model, st: State, known: set<State>)
    requires TallyAt(m, st, known, |m.rules|).stop.None?
    ensures TallyAt(m, st, known, |m.rules|).moved <==> !Stuck(m, st)
  {
    var all := Attempts(m, st, |m.rules|);
    MovedIs(all, st, known, |m.rules|);
    forall i | 0 <= i < |m.rules| ensures all[i].outcome == StepOf(m, m.rules[i], st) {
      AttemptsAt(m, st, |m.rules|, i);
    }
  }

  /** Why the rules stopped: one of them raised, or led back to the like of the state it left. */
  predicate StoppedBy(a: Attempt, st: State, stop: Verdict) {
    match stop
    case Broken(f) => a.outcome == Faults(f)
    case Stutters(name) => name == a.name && a.outcome.Moves? && NormState(a.outcome.next) == NormState(st)
    case _ => false
  }

  lemma {:induction false} StopIs(attempts: seq<Attempt>, st: State, known: set<State>, k: nat) returns (i: nat)
    requires k <= |attempts| && TallyOf(attempts, st, known, k).stop.Some?
    ensures i < k && StoppedBy(attempts[i], st, TallyOf(attempts, st, known, k).stop.value)
  {
    if TallyOf(attempts, st, known, k - 1).stop.Some? {
      i := StopIs(attempts, st, known, k - 1);
    } else {
      i := k - 1;
    }
  }

  lemma StopRefutes(m: Model, st: State, r: Rule, k: nat, stop: Verdict)
    requires Reachable(m, st) && k < |m.rules| && r == m.rules[k]
    requires StoppedBy(Attempt(r.name, StepOf(m, r, st)), st, stop)
    ensures Refutes(m, stop)
  {
    NamedByPosition(m.rules, k);
    if stop.Broken? {
      assert stop.fault in FaultsAt(m, st);
    } else {
      assert StuttersAt(m, r.name, st);
    }
  }

  lemma TallyRefutes(m: Model, st: State, known: set<State>)
    requires Reachable(m, st) && TallyAt(m, st, known, |m.rules|).stop.Some?
    ensures Refutes(m, TallyAt(m, st, known, |m.rules|).stop.value)
  {
    var i := StopIs(Attempts(m, st, |m.rules|), st, known, |m.rules|);
    AttemptsAt(m, st, |m.rules|, i);
    StopRefutes(m, st, m.rules[i], i, TallyAt(m, st, known, |m.rules|).stop.value);
  }

  lemma OneMoreRule(m: Model, st: State, known: set<State>, k: nat, t: Tally, a: Attempt)
    requires k < |m.rules| && t == TallyAt(m, st, known, k) && a == Attempts(m, st, |m.rules|)[k]
    ensures Counted(t, a, st) == TallyAt(m, st, known, if Counted(t, a, st).stop.Some? then |m.rules| else k + 1)
  {
    if TallyAt(m, st, known, k + 1).stop.Some? {
      TallyStays(Attempts(m, st, |m.rules|), st, known, k + 1, |m.rules|);
    }
  }

  /** The first `n` compiled rules implement theirs. */
  ghost predicate Ready(m: Model, cs: seq<Compiled>, n: nat)
    requires n <= |m.rules| && n <= |cs|
  {
    n > 0 ==> Ready(m, cs, n - 1) && ImplementsRule(m.fields, m.rules[n - 1], cs[n - 1])
  }

  lemma {:induction false} AllReady(m: Model, cs: seq<Compiled>, n: nat)
    requires n <= |m.rules| && ImplementsRules(m.fields, m.rules, cs)
    ensures Ready(m, cs, n)
  {
    if n > 0 {
      AllReady(m, cs, n - 1);
    }
  }

  lemma {:induction false} ReadyAt(m: Model, cs: seq<Compiled>, n: nat, k: nat)
    requires k < n <= |m.rules| && n <= |cs| && Ready(m, cs, n)
    ensures ImplementsRule(m.fields, m.rules[k], cs[k])
  {
    if k < n - 1 {
      ReadyAt(m, cs, n - 1, k);
    }
  }

  /** The name and the outcome of one rule. */
  method Attempted(ghost m: Model, rules: seq<Compiled>, state: State, k: nat) returns (a: Attempt)
    requires k < |m.rules| == |rules| && Ready(m, rules, |rules|) && |state| == |m.fields|
    ensures a == Attempts(m, state, |m.rules|)[k]
  {
    ReadyAt(m, rules, |rules|, k);
    AttemptsAt(m, state, |m.rules|, k);
    var step := TakeStep(m, m.rules[k], rules[k], state);
    return Attempt(rules[k].name, step);
  }

  /** A successor: a new one goes to the back of the queue. */
  method Follow(ghost m: Model, name: string, next: State, state: State, ghost before: seq<State>, ghost moved: bool,
                found: seq<State>, order: seq<State>, ghost depth: seq<nat>, parents: Parents, ghost h: nat, ghost k: nat)
    returns (found': seq<State>, order': seq<State>, ghost depth': seq<nat>, parents': Parents)
    requires Expanding(m, order, depth, parents, h, k) && state == order[h] && order == before + found
    requires k < |m.rules| && Attempts(m, state, |m.rules|)[k] == Attempt(name, Moves(next))
    requires NormState(next) != NormState(state)
    ensures Tally(None, true, found', parents'.Keys)
         == Counted(Tally(None, moved, found, parents.Keys), Attempt(name, Moves(next)), state)
    ensures order' == before + found' && |depth'| > h && depth'[h] == depth[h]
    ensures Expanding(m, order', depth', parents', h, k + 1)
  {
    AttemptsAt(m, state, |m.rules|, k);
    if NormState(next) in parents {
      Rediscover(m, order, depth, parents, h, k, next);
      return found, order, depth, parents;
    }
    Discover(m, order, depth, parents, h, k, next);
    Regroup(before, found, [next]);
    parents' := parents[NormState(next) := Via(state, name)];
    assert parents'.Keys == parents.Keys + {NormState(next)};
    return found + [next], order + [next], depth + [depth[h] + 1], parents';
  }

  /** The outcome of one rule, followed. */
  method TryRule(ghost m: Model, a: Attempt, state: State, ghost before: seq<State>, moved: bool, found: seq<State>,
                 order: seq<State>, ghost depth: seq<nat>, parents: Parents, ghost h: nat, ghost k: nat)
    returns (stop: Option<Verdict>, moved': bool, found': seq<State>, order': seq<State>, ghost depth': seq<nat>,
             parents': Parents)
    requires Expanding(m, order, depth, parents, h, k) && state == order[h] && order == before + found
    requires k < |m.rules| && a == Attempts(m, state, |m.rules|)[k]
    ensures Tally(stop, moved', found', parents'.Keys) == Counted(Tally(None, moved, found, parents.Keys), a, state)
    ensures order' == before + found' && |depth'| > h && depth'[h] == depth[h]
    ensures stop.Some? || Expanding(m, order', depth', parents', h, k + 1)
  {
    stop, moved', found', order', depth', parents' := None, moved, found, order, depth, parents;
    match a.outcome
    case Disabled =>
      Skip(m, order, depth, parents, h, k);
    case Faults(f) =>
      stop := Some(Broken(f));
    case Moves(next) =>
      if NormState(next) == NormState(state) {
        stop := Some(Stutters(a.name));
        return;
      }
      moved' := true;
      found', order', depth', parents' :=
        Follow(m, a.name, next, state, before, moved, found, order, depth, parents, h, k);
  }

  /** One rule of one state, tried and followed. */
  method TryNext(ghost m: Model, rules: seq<Compiled>, state: State, ghost before: seq<State>, ghost known: set<State>,
                 moved: bool, found: seq<State>, order: seq<State>, ghost depth: seq<nat>, parents: Parents,
                 ghost h: nat, k: nat)
    returns (stop: Option<Verdict>, moved': bool, found': seq<State>, order': seq<State>, ghost depth': seq<nat>,
             parents': Parents)
    requires Expanding(m, order, depth, parents, h, k) && state == order[h] && order == before + found
    requires k < |m.rules| == |rules| && Ready(m, rules, |rules|)
    requires Tally(None, moved, found, parents.Keys) == TallyAt(m, state, known, k)
    ensures Tally(stop, moved', found', parents'.Keys) == TallyAt(m, state, known, if stop.Some? then |m.rules| else k + 1)
    ensures order' == before + found' && |depth'| > h && depth'[h] == depth[h]
    ensures stop.Some? || Expanding(m, order', depth', parents', h, k + 1)
  {
    var a := Attempted(m, rules, state, k);
    stop, moved', found', order', depth', parents' :=
      TryRule(m, a, state, before, moved, found, order, depth, parents, h, k);
    OneMoreRule(m, state, known, k, Tally(None, moved, found, parents.Keys), a);
  }

  /** A disabled rule has nothing to cover. */
  lemma Skip(m: Model, order: seq<State>, depth: seq<nat>, parents: Parents, h: nat, k: nat)
    requires Expanding(m, order, depth, parents, h, k)
    requires k < |m.rules| && Attempts(m, order[h], |m.rules|)[k].outcome.Disabled?
    ensures Expanding(m, order, depth, parents, h, k + 1)
  {
    AttemptsAt(m, order[h], |m.rules|, k);
  }

  lemma Regroup(a: seq<State>, b: seq<State>, c: seq<State>)
    ensures (a + b) + c == a + (b + c)
  {
  }

  /** The rules of one state, in order. */
  method Expand(ghost m: Model, rules: seq<Compiled>, state: State, order: seq<State>, ghost depth: seq<nat>,
                parents: Parents, ghost h: nat)
    returns (stop: Option<Verdict>, moved: bool, found: seq<State>, order': seq<State>, ghost depth': seq<nat>,
             parents': Parents)
    requires |rules| == |m.rules| && Ready(m, rules, |rules|)
    requires Expanding(m, order, depth, parents, h, 0) && state == order[h]
    ensures Tally(stop, moved, found, parents'.Keys) == TallyAt(m, state, parents.Keys, |m.rules|)
    ensures order' == order + found && |depth'| > h && depth'[h] == depth[h]
    ensures stop.Some? || Expanding(m, order', depth', parents', h, |m.rules|)
  {
    stop, moved, found, order', depth', parents' := None, false, [], order, depth, parents;
    for k := 0 to |rules|
      invariant stop.None? && (stop.Some? || Expanding(m, order', depth', parents', h, k))
      invariant Tally(None, moved, found, parents'.Keys) == TallyAt(m, state, parents.Keys, k)
      invariant order' == order + found && |depth'| > h && depth'[h] == depth[h]
    {
      stop, moved, found, order', depth', parents' :=
        TryNext(m, rules, state, order, parents.Keys, moved, found, order', depth', parents', h, k);
      if stop.Some? {
        return;
      }
    }
  }

  lemma CoveredIsLively(m: Model, order: seq<State>, depth: seq<nat>, parents: Parents, h: nat)
    requires Expanding(m, order, depth, parents, h, |m.rules|)
    ensures Lively(m, order[h])
  {
    forall k | 0 <= k < |m.rules|
      ensures match StepOf(m, m.rules[k], order[h])
              case Disabled => true
              case Faults(_) => false
              case Moves(next) => NormState(next) != NormState(order[h])
    {
      assert Covered(m, order, depth, h, k);
    }
  }

  /** The initial states, without repetition. */
  method Begin(m: Model) returns (order: seq<State>, ghost depth: seq<nat>, parents: Parents)
    ensures Frontier(m, order, depth, parents, 0)
  {
    order, depth, parents := [], [], map[];
    for i := 0 to |m.starts|
      invariant Sound(m, order, depth, parents)
      invariant forall j :: 0 <= j < |depth| ==> depth[j] == 0
      invariant forall j :: 0 <= j < i ==> Met(order, depth, m.starts[j], 0)
    {
      var st := m.starts[i];
      InParentsIsMet(m, order, depth, parents, st);
      if NormState(st) !in parents {
        SoundGrows(m, order, depth, parents, st, 0, Root);
        forall j | 0 <= j < i ensures Met(order + [st], depth + [0], m.starts[j], 0) {
          MetGrows(order, depth, [st], [0], m.starts[j], 0);
        }
        order, depth, parents := order + [st], depth + [0], parents[NormState(st) := Root];
        assert order[|order| - 1] == st;
      }
    }
  }

  /** The states expanded so far are clean and lively. */
  ghost predicate Inspected(m: Model, order: seq<State>, h: nat)
    requires h <= |order|
  {
    forall i :: 0 <= i < h ==> Clean(m, order[i]) && Lively(m, order[i])
  }

  /** Up to the depth of the next state, every run ends in a clean state. */
  lemma CleanSoFar(m: Model, order: seq<State>, depth: seq<nat>, parents: Parents, h: nat)
    requires Frontier(m, order, depth, parents, h) && h < |order| && Inspected(m, order, h)
    ensures Distinguishable(m) ==> CleanWithin(m, depth[h])
  {
    if Distinguishable(m) {
      forall start, names | start in m.starts && |names| < depth[h] && Replay(m, start, names).Some?
        ensures Clean(m, Replay(m, start, names).value)
      {
        ShorterIsExpanded(m, order, depth, parents, h, start, names);
      }
    }
  }

  /** A finished search lists every reachable state exactly when the states can be told apart. */
  lemma FinishedIsComplete(m: Model, order: seq<State>, depth: seq<nat>, parents: Parents)
    requires Frontier(m, order, depth, parents, |order|)
    ensures Complete(m, order) <==> Distinguishable(m)
  {
    if Distinguishable(m) {
      forall st | Reachable(m, st) ensures st in order {
        AllMet(m, order, depth, parents, st);
      }
    }
    if Complete(m, order) {
      forall s: State, t: State | Reachable(m, s) && Reachable(m, t) && NormState(s) == NormState(t) ensures s == t {
        assert s in order && t in order;
      }
    }
  }

  lemma InvariantRaises(m: Model, st: State, v: nat, f: Fault)
    requires Reachable(m, st) && v < |m.invariants| && Truth(m.fields, m.invariants[v], st) == Raise(f)
    ensures Refutes(m, Broken(f))
  {
    assert f in FaultsAt(m, st);
  }

  lemma TerminalRaises(m: Model, st: State, f: Fault)
    requires Reachable(m, st) && Truth(m.fields, m.terminal, st) == Raise(f)
    ensures Refutes(m, Broken(f))
  {
    assert f in FaultsAt(m, st);
  }

  /** One state judged: its invariants first, then whether it may be a dead end. */
  method Judge(ghost m: Model, b: Build, ghost order: seq<State>, ghost depth: seq<nat>, parents: Parents,
               ghost h: nat, state: State, moved: bool)
    returns (stop: Option<Verdict>)
    requires ImplementsModel(m, b) && Sound(m, order, depth, parents) && h < |order| && state == order[h]
    requires moved <==> !Stuck(m, state)
    requires Distinguishable(m) ==> CleanWithin(m, depth[h])
    ensures stop.Some? ==> Refutes(m, stop.value)
    ensures stop.None? ==> Clean(m, state)
  {
    MetIsReachable(m, order, depth, parents);
    assert state in order;
    var at, r := FirstUntrue(m.fields, m.invariants, b.invariants, state);
    if at < |b.invariants| {
      if r.Raise? {
        InvariantRaises(m, state, at, r.fault);
        return Some(Broken(r.fault));
      }
      var trace := Trace(m, order, depth, parents, h, state);
      return Some(InvariantFailed(at, trace, state));
    }
    if moved {
      return None;
    }
    var done := b.terminal(state).out;
    if done.Raise? {
      TerminalRaises(m, state, done.fault);
      return Some(Broken(done.fault));
    }
    if done.value {
      return None;
    }
    var trace := Trace(m, order, depth, parents, h, state);
    return Some(DeadEnd(trace, state));
  }

  lemma InspectedGrows(m: Model, order: seq<State>, found: seq<State>, h: nat)
    requires h < |order| && Inspected(m, order, h) && Clean(m, order[h]) && Lively(m, order[h])
    ensures Inspected(m, order + found, h + 1)
  {
  }

  lemma StartExpanding(m: Model, order: seq<State>, depth: seq<nat>, parents: Parents, h: nat)
    requires Frontier(m, order, depth, parents, h) && h < |order|
    ensures Expanding(m, order, depth, parents, h, 0)
  {
  }

  /** One turn of the outer loop: expand a state, then judge it. */
  method Visit(ghost m: Model, b: Build, order: seq<State>, ghost depth: seq<nat>, parents: Parents, ghost h: nat, state: State)
    returns (stop: Option<Verdict>, moved: bool, found: seq<State>, order': seq<State>, ghost depth': seq<nat>,
             parents': Parents)
    requires ImplementsModel(m, b) && Frontier(m, order, depth, parents, h) && Inspected(m, order, h)
    requires h < |order| && state == order[h]
    ensures stop.Some? ==> Refutes(m, stop.value)
    ensures order' == order + found
    ensures stop.Some? || (Frontier(m, order', depth', parents', h + 1) && Inspected(m, order', h + 1))
    ensures stop.None? ==> (moved <==> !Stuck(m, state))
  {
    StartExpanding(m, order, depth, parents, h);
    AllReady(m, b.rules, |m.rules|);
    stop, moved, found, order', depth', parents' := Expand(m, b.rules, state, order, depth, parents, h);
    if stop.Some? {
      MetIsReachable(m, order, depth, parents);
      assert state in order;
      TallyRefutes(m, state, parents.Keys);
      return;
    }
    MovedIsUnstuck(m, state, parents.Keys);
    CleanSoFar(m, order, depth, parents, h);
    stop := Judge(m, b, order', depth', parents', h, state, moved);
    if stop.None? {
      FinishExpanding(m, order', depth', parents', h);
      CoveredIsLively(m, order', depth', parents', h);
      InspectedGrows(m, order, found, h);
    }
  }

  lemma RaisedIsAFault(m: Model, w: nat, st: State, f: Fault)
    requires w < |m.witnesses| && Truth(m.fields, m.witnesses[w], st) == Raise(f)
    ensures f in FaultsAt(m, st)
  {
    assert m.witnesses[w] in m.invariants + m.witnesses + [m.terminal];
  }

  /** The exception that stopped the witness pass, or a witness that holds nowhere. */
  ghost predicate WitnessStop(m: Model, states: seq<State>, v: Verdict) {
    match v
    case Broken(f) => exists i :: 0 <= i < |states| && f in FaultsAt(m, states[i])
    case WitnessMissing(w) => w < |m.witnesses| && NotWitnessed(m, w, states)
    case _ => false
  }

  method FindWitness(ghost m: Model, p: Pred, states: seq<State>, w: nat) returns (stop: Option<Verdict>)
    requires w < |m.witnesses| && Implements(m.fields, m.witnesses[w], p)
    requires forall i :: 0 <= i < |states| ==> |states[i]| == |m.fields|
    ensures if stop.None? then Witnessed(m, w, states) else WitnessStop(m, states, stop.value)
  {
    var r := AnyHolds(m.fields, m.witnesses[w], p, states);
    if r.Raise? {
      ghost var i :| 0 <= i < |states| && Truth(m.fields, m.witnesses[w], states[i]) == Raise(r.fault);
      RaisedIsAFault(m, w, states[i], r.fault);
      return Some(Broken(r.fault));
    }
    return if r.value then None else Some(WitnessMissing(w));
  }

  /** Whether every witness shows up among the states met. */
  method FindWitnesses(ghost m: Model, ps: seq<Pred>, states: seq<State>) returns (stop: Option<Verdict>)
    requires ImplementsAll(m.fields, m.witnesses, ps) && forall i :: 0 <= i < |states| ==> |states[i]| == |m.fields|
    ensures stop.None? ==> forall w :: 0 <= w < |m.witnesses| ==> Witnessed(m, w, states)
    ensures stop.None? || WitnessStop(m, states, stop.value)
  {
    for w := 0 to |ps|
      invariant forall v :: 0 <= v < w ==> Witnessed(m, v, states)
    {
      stop := FindWitness(m, ps[w], states, w);
      if stop.Some? {
        return;
      }
    }
    return None;
  }

  /** The loop: pop, expand, judge, until the queue or the fuel runs out or something stops it. */
  method Sweep(m: Model, b: Build, fuel: nat)
    returns (stop: Option<Verdict>, order: seq<State>, ghost depth: seq<nat>, ghost parents': Parents, ghost h': nat,
             terminals: nat, drained: bool)
    requires ImplementsModel(m, b)
    ensures stop.Some? ==> Refutes(m, stop.value)
    ensures stop.Some? || (Frontier(m, order, depth, parents', h') && Inspected(m, order, h'))
    ensures stop.Some? || (h' <= |order| && terminals == StuckCount(m, order[..h']))
    ensures stop.Some? || (drained <==> h' == |order|)
    ensures stop.Some? || drained || h' >= fuel
  {
    var parents;
    order, depth, parents := Begin(m);
    var queue := order;
    var h := 0;
    stop, terminals := None, 0;
    while stop.None? && |queue| > 0 && h < fuel
      invariant stop.Some? || (Frontier(m, order, depth, parents, h) && Inspected(m, order, h))
      invariant stop.Some? || (queue == order[h..] && terminals == StuckCount(m, order[..h]))
      invariant stop.Some? ==> Refutes(m, stop.value)
      decreases stop.None?, fuel - h
    {
      var moved, found;
      ghost var before := order;
      stop, moved, found, order, depth, parents := Visit(m, b, order, depth, parents, h, queue[0]);
      TurnQueue(m, before, found, h);
      queue := queue[1..] + found;
      terminals := terminals + if moved then 0 else 1;
      h := h + 1;
    }
    parents', h', drained := parents, h, |queue| == 0;
  }

  /**
   Explore a model, popping at most `fuel` states. The verdict means what `Means` says;
   `visited` lists the states met, each once. The search finishes whenever fuel covers a
   finite set holding every reachable state.
   */
  method Explore(m: Model, b: Build, fuel: nat) returns (out: Verdict, ghost visited: seq<State>)
    requires ImplementsModel(m, b)
    ensures Means(m, fuel, visited, out)
    ensures Distinct(visited) && forall st :: st in visited ==> Reachable(m, st)
    ensures Enough(m, fuel) ==> !out.Unfinished?
  {
    var stop, order, terminals, drained;
    ghost var depth, parents, h;
    stop, order, depth, parents, h, terminals, drained := Sweep(m, b, fuel);
    if stop.Some? {
      return stop.value, [];
    }
    MetIsReachable(m, order, depth, parents);
    if !drained {
      Overflow(m, order, fuel);
      return Unfinished, order;
    }
    assert order[..h] == order;
    out := Conclude(m, b, order, depth, parents, terminals);
    return out, order;
  }

  lemma TurnQueue(m: Model, order: seq<State>, found: seq<State>, h: nat)
    requires h < |order|
    ensures (order + found)[h + 1..] == order[h..][1..] + found
    ensures StuckCount(m, (order + found)[..h + 1]) == StuckCount(m, order[..h]) + if Stuck(m, order[h]) then 1 else 0
  {
    StuckCountGrows(m, order, h);
    assert (order + found)[..h + 1] == order[..h + 1];
  }

  /** Nothing is left to expand: look for the witnesses and report. */
  method Conclude(ghost m: Model, b: Build, order: seq<State>, ghost depth: seq<nat>, ghost parents: Parents, terminals: nat)
    returns (out: Verdict)
    requires ImplementsModel(m, b) && Frontier(m, order, depth, parents, |order|) && Inspected(m, order, |order|)
    requires terminals == StuckCount(m, order)
    ensures if out.Passed? then Confirms(m, order, out) else Refutes(m, out)
  {
    FinishedIsComplete(m, order, depth, parents);
    MetIsReachable(m, order, depth, parents);
    var stop := FindWitnesses(m, b.witnesses, order);
    match stop
    case None =>
      return Passed(|order|, terminals);
    case Some(v) =>
      if v.WitnessMissing? {
        MissingIsRefuted(m, order, v.index);
      }
      return v;
  }

  lemma MissingIsRefuted(m: Model, order: seq<State>, w: nat)
    requires w < |m.witnesses| && NotWitnessed(m, w, order) && (Complete(m, order) <==> Distinguishable(m))
    ensures Refutes(m, WitnessMissing(w))
  {
    if Distinguishable(m) {
      forall st | Reachable(m, st) ensures Truth(m.fields, m.witnesses[w], st) == Ok(false) {
        assert st in order;
      }
    }
  }

  /** `bound` is a finite set that holds every reachable state. */
  ghost predicate Bounds(m: Model, bound: set<State>) {
    forall st :: Reachable(m, st) ==> st in bound
  }

  /** The fuel covers a finite set of states that holds every reachable one. */
  ghost predicate Enough(m: Model, fuel: nat) {
    exists bound: set<State> :: Bounds(m, bound) && |bound| <= fuel
  }

  lemma Overflow(m: Model, order: seq<State>, fuel: nat)
    requires NormDistinct(order) && |order| > fuel && forall st :: st in order ==> Reachable(m, st)
    ensures !Enough(m, fuel)
  {
    forall bound: set<State> | Bounds(m, bound) ensures |bound| > fuel {
      DistinctFits(order, bound);
    }
  }
}
