/** When a process stepping alone gets its guard: past any stale files, and if and only if nothing live is in its way. */
module GuardProgress {
  import opened Basics
  import opened GuardCodec
  import opened GuardProtocol
  import opened GuardSafety

  /** The lock file `x` would use is locked already, under this or another name. */
  predicate OwnPathLocked(s: State, x: Instance) {
    LockName(x) in s.dir && s.dir[LockName(x)] in s.locks
  }

  ghost predicate Barred(s: State, p: Pid, x: Instance) {
    OwnPathLocked(s, x) || exists q :: q != p && IsLive(At(s, q)) && Obstructs(At(s, q).x, x)
  }

  /** The registry is free and `p` is about to take it for `x`. */
  ghost predicate AtTheDoor(s: State, p: Pid, x: Instance) {
    Tidy(s) && s.registry == None && At(s, p) == Waiting(x)
  }

  predicate NoAsking(acts: seq<Act>) {
    forall i :: 0 <= i < |acts| ==> !acts[i].Ask?
  }

  /** By its own steps alone, on the request it has made, `p` can get its guard. */
  ghost predicate CanGoLive(s: State, p: Pid) {
    exists acts :: NoAsking(acts) && Steps(s, p, acts).Some? && At(Steps(s, p, acts).value, p).Live?
  }

  // ----- a guard obtained rules out what is live -----

  lemma {:induction false} StaysWary(s: State, p: Pid, acts: seq<Act>, s': State, q: Pid)
    requires Tidy(s) && Steps(s, p, acts) == Some(s') && q != p && IsLive(At(s, q)) && Wary(Seen, At(s, p), At(s, q))
    ensures Wary(Seen, At(s', p), At(s, q))
    decreases |acts|
  {
    if acts != [] {
      var mid := Do(s, p, acts[0]).value;
      var move := Plan(s, At(s, p), p, acts[0]);
      assert Local(s, p) && Local(s, q) && Apart(At(s, p), At(s, q));
      TidyStep(s, p, acts[0], mid);
      LiveIsSeen(s, q);
      WaryStep(Seen, s, p, acts[0], q, move.call, move.next);
      StaysWary(mid, p, acts[1..], s', q);
    }
  }

  lemma WantsStep(s: State, p: Pid, a: Act, s': State)
    requires Do(s, p, a) == Some(s') && !a.Ask?
    ensures Wants(At(s', p)).None? || Wants(At(s', p)) == Wants(At(s, p))
  {
  }

  lemma {:induction false} WantsTheSame(s: State, p: Pid, acts: seq<Act>, s': State)
    requires NoAsking(acts) && Steps(s, p, acts) == Some(s')
    ensures Wants(At(s', p)).None? || Wants(At(s', p)) == Wants(At(s, p))
    decreases |acts|
  {
    if acts != [] {
      var mid := Do(s, p, acts[0]).value;
      WantsStep(s, p, acts[0], mid);
      WantsTheSame(mid, p, acts[1..], s');
    }
  }

  /** While another process holds the file at its own path, `p` never gets past opening it. */
  ghost predicate Shut(s: State, p: Pid, x: Instance, i: nat) {
    && LockName(x) in s.dir && s.dir[LockName(x)] == i && i in s.locks && s.locks[i] != p
    && var ph := At(s, p);
       && (Wants(ph).Some? ==> Wants(ph).value == x)
       && (ph.Opened? && ph.name == LockName(x) ==> ph.inode == i)
       && (ph.Taken? || ph.Released? ==> ph.name != LockName(x))
       && (ph.OwnOpened? ==> ph.inode == i)
       && !ph.OwnLocked? && !IsLive(ph) && !ph.Dropping?
  }

  lemma ShutStep(s: State, p: Pid, x: Instance, i: nat, a: Act, call: Call, next: Phase)
    requires Shut(s, p, x, i) && !a.Ask? && Plan(s, At(s, p), p, a) == Move(call, next)
    ensures call != Unlink(LockName(x))
    ensures Wants(next).Some? ==> Wants(next).value == x
    ensures next.Opened? && next.name == LockName(x) ==> next.inode == i
    ensures next.Taken? || next.Released? ==> next.name != LockName(x)
    ensures next.OwnOpened? ==> next.inode == i
    ensures !next.OwnLocked? && !IsLive(next) && !next.Dropping?
  {
  }

  lemma StaysShut(s: State, p: Pid, x: Instance, i: nat, a: Act, s': State)
    requires Tidy(s) && Shut(s, p, x, i) && !a.Ask? && Do(s, p, a) == Some(s')
    ensures Shut(s', p, x, i)
  {
    var move := Plan(s, At(s, p), p, a);
    TidyStep(s, p, a, s');
    ShutStep(s, p, x, i, a, move.call, move.next);
  }

  lemma {:induction false} ShutForGood(s: State, p: Pid, x: Instance, i: nat, acts: seq<Act>, s': State)
    requires Tidy(s) && Shut(s, p, x, i) && NoAsking(acts) && Steps(s, p, acts) == Some(s')
    ensures Shut(s', p, x, i)
    decreases |acts|
  {
    if acts != [] {
      var mid := Do(s, p, acts[0]).value;
      StaysShut(s, p, x, i, acts[0], mid);
      TidyStep(s, p, acts[0], mid);
      ShutForGood(mid, p, x, i, acts[1..], s');
    }
  }

  lemma LockedByAnother(s: State, p: Pid, x: Instance, i: nat)
    requires AtTheDoor(s, p, x) && i in s.locks
    ensures s.locks[i] != p && At(s, s.locks[i]).Live? && i in s.content
    ensures s.content[i] == Some(Encode(At(s, s.locks[i]).x))
  {
    var h := s.locks[i];
    assert Held(s, i) && Local(s, h);
  }

  lemma LiveIsNotBarred(s: State, p: Pid, x: Instance, acts: seq<Act>)
    requires AtTheDoor(s, p, x) && NoAsking(acts) && Steps(s, p, acts).Some? && At(Steps(s, p, acts).value, p).Live?
    ensures !Barred(s, p, x)
  {
    var s' := Steps(s, p, acts).value;
    WantsTheSame(s, p, acts, s');
    assert At(s', p).x == x;
    forall q | q != p && IsLive(At(s, q)) ensures !Obstructs(At(s, q).x, x) {
      StaysWary(s, p, acts, s', q);
    }
    PathIsFree(s, p, x, acts, s');
  }

  lemma PathIsFree(s: State, p: Pid, x: Instance, acts: seq<Act>, s': State)
    requires AtTheDoor(s, p, x) && NoAsking(acts) && Steps(s, p, acts) == Some(s') && At(s', p).Live?
    ensures !OwnPathLocked(s, x)
  {
    if OwnPathLocked(s, x) {
      var i := s.dir[LockName(x)];
      LockedByAnother(s, p, x, i);
      assert Shut(s, p, x, i);
      ShutForGood(s, p, x, i, acts, s');
    }
  }

  // ----- nothing live in the way: a guard is obtained -----

  lemma {:induction false} UpperBound(keys: set<nat>) returns (b: nat)
    ensures forall k :: k in keys ==> k < b
  {
    if keys == {} {
      b := 0;
    } else {
      var k :| k in keys;
      var rest := UpperBound(keys - {k});
      b := if rest > k then rest else k + 1;
      assert forall j :: j in keys ==> j == k || j in keys - {k};
    }
  }

  lemma FreshInode(s: State) returns (made: nat)
    ensures made !in s.content && made !in s.locks
  {
    made := UpperBound(s.content.Keys + s.locks.Keys);
  }

  /** How `p`'s scan stands in `t`, having started in `s`: stale files are gone, nothing read is in the way. */
  ghost predicate Sweeping(s: State, t: State, p: Pid, scan: Scan) {
    && t == State(t.dir, s.content, s.locks, Some(p), s.procs[p := Scanning(scan)])
    && (forall n :: n in t.dir ==> n in s.dir && t.dir[n] == s.dir[n])
    && scan.todo <= t.dir.Keys
    && (LockName(scan.x) in t.dir ==> LockName(scan.x) in scan.todo || s.dir[LockName(scan.x)] in s.locks)
    && forall y :: y in scan.active ==> !Blocks(y, scan.x)
  }

  predicate Led(t: State, p: Pid, acts: seq<Act>, t': State) {
    NoAsking(acts) && Steps(t, p, acts) == Some(t')
  }

  lemma LedOne(t: State, p: Pid, a: Act, t': State)
    requires Do(t, p, a) == Some(t') && !a.Ask?
    ensures Led(t, p, [a], t')
  {
    FirstStep(t, p, a, [], t');
  }

  lemma {:induction false} StepsOn(t: State, p: Pid, acts: seq<Act>, t': State, more: seq<Act>)
    requires Steps(t, p, acts) == Some(t')
    ensures Steps(t, p, acts + more) == Steps(t', p, more)
    decreases |acts|
  {
    if acts == [] {
      assert acts + more == more;
    } else {
      assert (acts + more)[1..] == acts[1..] + more;
      StepsOn(Do(t, p, acts[0]).value, p, acts[1..], t', more);
    }
  }

  lemma LedOn(t: State, p: Pid, acts: seq<Act>, t': State, more: seq<Act>, t'': State)
    requires Led(t, p, acts, t') && Led(t', p, more, t'')
    ensures Led(t, p, acts + more, t'')
  {
    StepsOn(t, p, acts, t', more);
  }

  lemma LedThrice(t: State, p: Pid, a: Act, t1: State, b: Act, t2: State, c: Act, t3: State)
    requires Led(t, p, [a], t1) && Do(t1, p, b) == Some(t2) && Do(t2, p, c) == Some(t3) && !b.Ask? && !c.Ask?
    ensures Led(t, p, [a] + [b] + [c], t3)
  {
    LedOne(t1, p, b, t2);
    LedOne(t2, p, c, t3);
    LedOn(t, p, [a], t1, [b], t2);
    LedOn(t, p, [a] + [b], t2, [c], t3);
  }

  function Passed(scan: Scan, name: string): Scan {
    scan.(todo := scan.todo - {name})
  }

  /** A file found open at inode `i`. */
  function AtOpened(t: State, p: Pid, scan: Scan, name: string, i: nat): State {
    t.(procs := t.procs[p := Opened(scan, name, i)])
  }

  lemma Opens(s: State, t: State, p: Pid, scan: Scan, name: string) returns (a: Act, t': State)
    requires Sweeping(s, t, p, scan) && name in scan.todo
    ensures Led(t, p, [a], t') && t' == AtOpened(t, p, Passed(scan, name), name, s.dir[name])
  {
    var made := FreshInode(t);
    a := OpenNext(name, made);
    t' := Do(t, p, a).value;
    LedOne(t, p, a, t');
  }

  lemma ReadsLocked(t: State, p: Pid, scan: Scan, name: string, i: nat) returns (t2: State, t3: State)
    requires At(t, p) == Opened(scan, name, i) && i in t.locks && i in t.content
    ensures Do(t, p, TryLock) == Some(t2) && Do(t2, p, Read) == Some(t3)
    ensures t3 == t.(procs := t.procs[p := Scanning(scan.(active := Note(scan.active, t.content[i])))])
  {
    t2 := Do(t, p, TryLock).value;
    t3 := Do(t2, p, Read).value;
    assert t3.procs == t.procs[p := At(t3, p)];
  }

  lemma NotInTheWay(s: State, p: Pid, x: Instance, i: nat, active: seq<Instance>)
    requires AtTheDoor(s, p, x) && !Barred(s, p, x) && i in s.locks && i in s.content
    requires forall y :: y in active ==> !Blocks(y, x)
    ensures forall y :: y in Note(active, s.content[i]) ==> !Blocks(y, x)
  {
    LockedByAnother(s, p, x, i);
    var q := s.locks[i];
    assert !Obstructs(At(s, q).x, x);
    assert Seen(At(s, q).x) == ReadAs(s.content[i]);
  }

  /** A locked file is read; what it says is not in the way. */
  lemma PassesLocked(s: State, t: State, p: Pid, scan: Scan, name: string, x: Instance)
    returns (acts: seq<Act>, t': State, scan': Scan)
    requires AtTheDoor(s, p, x) && !Barred(s, p, x) && scan.x == x
    requires name in s.dir && s.dir[name] in s.locks && Sweeping(s, t, p, scan) && name in scan.todo
    ensures Led(t, p, acts, t') && Sweeping(s, t', p, scan') && scan'.x == x && scan'.todo == scan.todo - {name}
  {
    var i := s.dir[name];
    LockedByAnother(s, p, x, i);
    var a, t1 := Opens(s, t, p, scan, name);
    var t2;
    t2, t' := ReadsLocked(t1, p, Passed(scan, name), name, i);
    LedThrice(t, p, a, t1, TryLock, t2, Read, t');
    acts := [a] + [TryLock] + [Read];
    scan' := Passed(scan, name).(active := Note(scan.active, s.content[i]));
    NotInTheWay(s, p, x, i, scan.active);
    SweptOne(s, t, p, scan, t', scan', t.dir);
  }

  lemma TakesAndLetsGo(t: State, p: Pid, scan: Scan, name: string, i: nat) returns (t2: State, t3: State)
    requires At(t, p) == Opened(scan, name, i) && i !in t.locks
    ensures Do(t, p, TryLock) == Some(t2) && Do(t2, p, LetGo) == Some(t3)
    ensures t3 == t.(procs := t.procs[p := Released(scan, name)])
  {
    t2 := Do(t, p, TryLock).value;
    t3 := Do(t2, p, LetGo).value;
    assert t3.locks == t.locks && t3.procs == t.procs[p := Released(scan, name)];
  }

  lemma RemovesStale(t: State, p: Pid, scan: Scan, name: string, i: nat) returns (t2: State, t3: State, t4: State)
    requires At(t, p) == Opened(scan, name, i) && i !in t.locks
    ensures Do(t, p, TryLock) == Some(t2) && Do(t2, p, LetGo) == Some(t3) && Do(t3, p, Remove) == Some(t4)
    ensures t4 == t.(dir := t.dir - {name}, procs := t.procs[p := Scanning(scan)])
  {
    t2, t3 := TakesAndLetsGo(t, p, scan, name, i);
    t4 := Do(t3, p, Remove).value;
    assert t4.procs == t.procs[p := Scanning(scan)];
  }

  lemma LedToRemoval(t: State, p: Pid, a: Act, t1: State, t2: State, t3: State, t4: State)
    requires Led(t, p, [a], t1)
    requires Do(t1, p, TryLock) == Some(t2) && Do(t2, p, LetGo) == Some(t3) && Do(t3, p, Remove) == Some(t4)
    ensures Led(t, p, [a] + [TryLock] + [LetGo] + [Remove], t4)
  {
    LedThrice(t, p, a, t1, TryLock, t2, LetGo, t3);
    LedOne(t3, p, Remove, t4);
    LedOn(t, p, [a] + [TryLock] + [LetGo], t3, [Remove], t4);
  }

  /** An unlocked file is stale and goes. */
  lemma PassesStale(s: State, t: State, p: Pid, scan: Scan, name: string, x: Instance)
    returns (acts: seq<Act>, t': State, scan': Scan)
    requires scan.x == x && name in s.dir && s.dir[name] !in s.locks && Sweeping(s, t, p, scan) && name in scan.todo
    ensures Led(t, p, acts, t') && Sweeping(s, t', p, scan') && scan'.x == x && scan'.todo == scan.todo - {name}
  {
    var a, t1 := Opens(s, t, p, scan, name);
    var t2, t3;
    t2, t3, t' := RemovesStale(t1, p, Passed(scan, name), name, s.dir[name]);
    acts := [a] + [TryLock] + [LetGo] + [Remove];
    LedToRemoval(t, p, a, t1, t2, t3, t');
    scan' := Passed(scan, name);
    SweptOne(s, t, p, scan, t', scan', t.dir - {name});
  }

  /** One name less to look at, and it is gone or locked. */
  lemma SweptOne(s: State, t: State, p: Pid, scan: Scan, t': State, scan': Scan, dir: map<string, nat>)
    requires Sweeping(s, t, p, scan) && scan'.x == scan.x && scan'.todo < scan.todo
    requires t'.content == t.content && t'.locks == t.locks && t'.registry == t.registry && t'.dir == dir
    requires t'.procs == t.procs[p := Scanning(scan')]
    requires (forall n :: n in dir ==> n in t.dir && dir[n] == t.dir[n]) && scan'.todo <= dir.Keys
    requires forall n :: n in dir && n in scan.todo && n !in scan'.todo ==> s.dir[n] in s.locks
    requires forall y :: y in scan'.active ==> !Blocks(y, scan.x)
    ensures Sweeping(s, t', p, scan')
  {
  }

  lemma {:induction false} SweepsAll(s: State, t: State, p: Pid, scan: Scan, x: Instance) returns (acts: seq<Act>, t': State, scan': Scan)
    requires AtTheDoor(s, p, x) && !Barred(s, p, x) && scan.x == x && Sweeping(s, t, p, scan)
    ensures Led(t, p, acts, t') && Sweeping(s, t', p, scan') && scan'.x == x && scan'.todo == {}
    decreases |scan.todo|
  {
    if scan.todo == {} {
      acts, t', scan' := [], t, scan;
    } else {
      var name :| name in scan.todo;
      var first, mid, rest;
      if s.dir[name] in s.locks {
        first, mid, rest := PassesLocked(s, t, p, scan, name, x);
      } else {
        first, mid, rest := PassesStale(s, t, p, scan, name, x);
      }
      var more;
      more, t', scan' := SweepsAll(s, mid, p, rest, x);
      LedOn(t, p, first, mid, more, t');
      acts := first + more;
    }
  }

  lemma StartsSweeping(s: State, p: Pid, x: Instance) returns (acts: seq<Act>, t: State, scan: Scan)
    requires AtTheDoor(s, p, x)
    ensures Led(s, p, acts, t) && Sweeping(s, t, p, scan) && scan.x == x
  {
    var s1 := Do(s, p, TakeRegistry).value;
    LedOne(s, p, TakeRegistry, s1);
    t := Do(s1, p, ListDir).value;
    LedOne(s1, p, ListDir, t);
    LedOn(s, p, [TakeRegistry], s1, [ListDir], t);
    acts := [TakeRegistry] + [ListDir];
    scan := At(t, p).scan;
    OwnNameIsScanned(x);
  }

  lemma Clears(s: State, t: State, p: Pid, scan: Scan) returns (t': State)
    requires Sweeping(s, t, p, scan) && scan.todo == {}
    ensures Do(t, p, Decide) == Some(t') && t' == t.(procs := t.procs[p := Cleared(scan.x)])
  {
    ConflictIsABlocker(scan.active, scan.x);
    t' := Do(t, p, Decide).value;
  }

  lemma Claims(t: State, p: Pid, x: Instance) returns (made: nat, t2: State, t3: State)
    requires At(t, p) == Cleared(x) && LockName(x) !in t.dir
    ensures Do(t, p, OpenOwn(made)) == Some(t2) && Do(t2, p, TryLockOwn) == Some(t3)
    ensures At(t3, p) == OwnLocked(x, made) && t3.dir == t.dir[LockName(x) := made]
  {
    made := FreshInode(t);
    t2 := Do(t, p, OpenOwn(made)).value;
    t3 := Do(t2, p, TryLockOwn).value;
  }

  lemma ClearsAndClaims(s: State, t: State, p: Pid, scan: Scan) returns (acts: seq<Act>, t': State, made: nat)
    requires Sweeping(s, t, p, scan) && scan.todo == {} && !OwnPathLocked(s, scan.x)
    ensures Led(t, p, acts, t') && At(t', p) == OwnLocked(scan.x, made)
    ensures forall n :: n in t'.dir ==> n in s.dir || n == LockName(scan.x)
  {
    var t1 := Clears(s, t, p, scan);
    LedOne(t, p, Decide, t1);
    var t2;
    made, t2, t' := Claims(t1, p, scan.x);
    LedThrice(t, p, Decide, t1, OpenOwn(made), t2, TryLockOwn, t');
    acts := [Decide] + [OpenOwn(made)] + [TryLockOwn];
  }

  lemma ClaimedGoesLive(t: State, p: Pid, x: Instance, i: nat) returns (acts: seq<Act>, t': State)
    requires At(t, p) == OwnLocked(x, i)
    ensures Led(t, p, acts, t') && At(t', p) == Live(x, i) && t'.registry == None && t'.dir == t.dir
  {
    var t1 := Do(t, p, Publish).value;
    LedOne(t, p, Publish, t1);
    t' := Do(t1, p, Return).value;
    LedOne(t1, p, Return, t');
    LedOn(t, p, [Publish], t1, [Return], t');
    acts := [Publish] + [Return];
  }

  /** Past any stale files, and past live guards that are not in its way, a process that waits gets its guard. */
  lemma GoesLiveAlone(s: State, p: Pid, x: Instance) returns (acts: seq<Act>, s': State)
    requires AtTheDoor(s, p, x) && !Barred(s, p, x)
    ensures Led(s, p, acts, s') && At(s', p).Live? && At(s', p).x == x && s'.registry == None
    ensures forall n :: n in s'.dir ==> n in s.dir || n == LockName(x)
  {
    var acts1, t1, scan1 := StartsSweeping(s, p, x);
    var acts2, t2, scan2 := SweepsAll(s, t1, p, scan1, x);
    var acts3, t3, made := ClearsAndClaims(s, t2, p, scan2);
    var acts4;
    acts4, s' := ClaimedGoesLive(t3, p, x, made);
    LedOn(s, p, acts1, t1, acts2, t2);
    LedOn(s, p, acts1 + acts2, t2, acts3, t3);
    LedOn(s, p, acts1 + acts2 + acts3, t3, acts4, s');
    acts := acts1 + acts2 + acts3 + acts4;
  }

  /** Exactly when a process at the door can get its guard, in any tidy state. */
  lemma AdmittedUnlessBarred(s: State, p: Pid, x: Instance)
    requires AtTheDoor(s, p, x)
    ensures CanGoLive(s, p) <==> !Barred(s, p, x)
  {
    if CanGoLive(s, p) {
      var acts :| NoAsking(acts) && Steps(s, p, acts).Some? && At(Steps(s, p, acts).value, p).Live?;
      LiveIsNotBarred(s, p, x, acts);
    }
    if !Barred(s, p, x) {
      var acts, s' := GoesLiveAlone(s, p, x);
    }
  }

  /** Beside one live guard: just when its file does not decode, or decodes to something that is not in the way. */
  lemma AdmittedBesideOne(s: State, p: Pid, x: Instance, q: Pid)
    requires AtTheDoor(s, p, x) && q != p && IsLive(At(s, q)) && !OwnPathLocked(s, x)
    requires forall r :: r != p && IsLive(At(s, r)) ==> r == q
    ensures var decoded := Decode(Encode(At(s, q).x));
            CanGoLive(s, p) <==> decoded.Err? || !Blocks(decoded.value, x)
  {
    AdmittedUnlessBarred(s, p, x);
  }

  /** After any run that leaves the registry free, a new process that nothing live stands against gets its guard. */
  lemma NewcomerGoesLive(s0: State, run: seq<Event>, s: State, x: Instance) returns (run': seq<Event>, s': State)
    requires Initial(s0) && Exec(s0, run) == Some(s) && s.registry == None && At(s, x.pid) == Idle
    requires !Barred(s, x.pid, x)
    ensures Exec(s0, run') == Some(s') && At(s', x.pid).Live? && At(s', x.pid).x == x
    ensures s'.registry == None && forall q :: q != x.pid ==> At(s', q) == At(s, q)
    ensures forall n :: n in s'.dir ==> n in s.dir || n == LockName(x)
  {
    RunIsTidy(s0, run, s);
    var t := Asks(s, x);
    OneMore(s0, run, s, Event(x.pid, Ask(x)));
    var acts, t' := GoesLiveAlone(t, x.pid, x);
    run', s' := TakesSteps(s0, run + [Event(x.pid, Ask(x))], t, x.pid, acts);
    OthersStay(t, x.pid, acts, s');
  }

  lemma Asks(s: State, x: Instance) returns (t: State)
    requires Tidy(s) && s.registry == None && At(s, x.pid) == Idle && !Barred(s, x.pid, x)
    ensures Do(s, x.pid, Ask(x)) == Some(t) && AtTheDoor(t, x.pid, x) && !Barred(t, x.pid, x)
    ensures t.dir == s.dir && forall q :: q != x.pid ==> At(t, q) == At(s, q)
  {
    t := Do(s, x.pid, Ask(x)).value;
    TidyStep(s, x.pid, Ask(x), t);
    assert t.dir == s.dir && t.locks == s.locks && forall q :: q != x.pid ==> At(t, q) == At(s, q);
  }

  lemma {:induction false} OthersStay(s: State, p: Pid, acts: seq<Act>, s': State)
    requires Steps(s, p, acts) == Some(s')
    ensures forall q :: q != p ==> At(s', q) == At(s, q)
    decreases |acts|
  {
    if acts != [] {
      var mid := Do(s, p, acts[0]).value;
      StepLeavesOthers(s, p, acts[0], mid);
      OthersStay(mid, p, acts[1..], s');
    }
  }

  lemma StepLeavesOthers(s: State, p: Pid, a: Act, s': State)
    requires Do(s, p, a) == Some(s')
    ensures forall q :: q != p ==> At(s', q) == At(s, q)
  {
    var move := Plan(s, At(s, p), p, a);
    assert Perform(s, p, move.call).procs == s.procs;
  }

  /** Whatever stale files there are, a first process that asks for a guard can get it. */
  lemma LoneProcessGoesLive(s0: State, x: Instance) returns (run: seq<Event>, s: State)
    requires Initial(s0)
    ensures Exec(s0, run) == Some(s) && At(s, x.pid).Live? && At(s, x.pid).x == x
  {
    assert Exec(s0, []) == Some(s0);
    assert forall q :: At(s0, q) == Idle;
    run, s := NewcomerGoesLive(s0, [], s0, x);
  }
}
