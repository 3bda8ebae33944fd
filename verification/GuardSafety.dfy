/** What every run of the runtime guard keeps, for any number of processes and any interleaving. */
module GuardSafety {
  import opened Basics
  import opened GuardCodec
  import opened GuardProtocol

  // ----- who holds what -----

  predicate InScan(ph: Phase) {
    ph.Scanning? || ph.Opened? || ph.Reading? || ph.Taken? || ph.Released?
  }

  /** Inside the registry's critical section. */
  predicate Critical(ph: Phase) {
    InScan(ph) || ph.Holding? || ph.Cleared? || ph.OwnOpened? || ph.OwnLocked? || ph.Published?
  }

  predicate HasOwnFile(ph: Phase) {
    ph.OwnOpened? || ph.OwnLocked? || ph.Published? || ph.Live?
  }

  predicate HasLock(ph: Phase) {
    ph.Taken? || ph.OwnLocked? || ph.Published? || ph.Live?
  }

  function Wants(ph: Phase): Option<Instance> {
    if ph.Idle? then None else if InScan(ph) then Some(ph.scan.x) else Some(ph.x)
  }

  /** What a process in phase `ph` can rely on. */
  ghost predicate Fits(s: State, p: Pid, ph: Phase) {
    Entitled(s, p, ph) && Equipped(s, p, ph)
  }

  ghost predicate Entitled(s: State, p: Pid, ph: Phase) {
    && (Critical(ph) ==> s.registry == Some(p))
    && (Wants(ph).Some? ==> Wants(ph).value.pid == p)
  }

  ghost predicate Equipped(s: State, p: Pid, ph: Phase) {
    Linked(s, ph) && Secure(s, p, ph) && Legible(s, ph)
  }

  ghost predicate Linked(s: State, ph: Phase) {
    HasOwnFile(ph) ==> LockName(ph.x) in s.dir && s.dir[LockName(ph.x)] == ph.inode
  }

  ghost predicate Secure(s: State, p: Pid, ph: Phase) {
    HasLock(ph) ==> ph.inode in s.locks && s.locks[ph.inode] == p
  }

  ghost predicate Legible(s: State, ph: Phase) {
    IsLive(ph) ==> ph.inode in s.content && s.content[ph.inode] == Some(Encode(ph.x))
  }

  ghost predicate Local(s: State, p: Pid) {
    Fits(s, p, At(s, p))
  }

  /** A lock is held by a process that knows it. */
  ghost predicate Held(s: State, i: nat) {
    i in s.locks ==> HasLock(At(s, s.locks[i])) && At(s, s.locks[i]).inode == i
  }

  /** A scan never touches another process's own file except to look at its lock. */
  ghost predicate Apart(ph: Phase, own: Phase) {
    HasOwnFile(own) ==>
      && (ph.Opened? || ph.Reading? ==> ph.name == LockName(own.x) ==> ph.inode == own.inode)
      && (ph.Taken? || ph.Released? ==> ph.name != LockName(own.x))
  }

  ghost predicate Tidy(s: State) {
    && (forall n :: n in s.dir ==> s.dir[n] in s.content)
    && (forall p :: Local(s, p))
    && (forall i :: Held(s, i))
    && (forall p, q :: p != q ==> Apart(At(s, p), At(s, q)))
  }

  // ----- what a step of p leaves alone -----

  /** A process only lets go of, or writes to, what it holds, and creates only what is not there. */
  ghost predicate Polite(s: State, p: Pid, c: Call) {
    match c
    case LockRegistry => s.registry == None
    case UnlockRegistry => s.registry == Some(p)
    case Create(name, i) => name !in s.dir && i !in s.content
    case Lock(i) => i !in s.locks
    case Unlock(i) => i in s.locks && s.locks[i] == p
    case Write(i, _) => i in s.locks && s.locks[i] == p
    case _ => true
  }

  lemma StepIsPolite(s: State, p: Pid, a: Act)
    requires Local(s, p) && Plan(s, At(s, p), p, a).Move?
    ensures Polite(s, p, Plan(s, At(s, p), p, a).call)
  {
  }

  /** What p's call leaves of the files for the others. */
  ghost predicate FilesFrame(s: State, p: Pid, s': State, c: Call) {
    && (s'.registry == s.registry || (s.registry == None && s'.registry == Some(p)) || (s.registry == Some(p) && s'.registry == None))
    && (forall n :: n in s.dir && c != Unlink(n) ==> n in s'.dir && s'.dir[n] == s.dir[n])
    && (forall i :: i in s.content && !(c.Write? && c.inode == i) ==> i in s'.content && s'.content[i] == s.content[i])
    && (forall i :: i in s.locks && s.locks[i] != p ==> i in s'.locks && s'.locks[i] == s.locks[i])
    && (forall i :: i in s'.locks && s'.locks[i] != p ==> i in s.locks && s.locks[i] == s'.locks[i])
  }

  ghost predicate Frame(s: State, p: Pid, s': State, c: Call) {
    FilesFrame(s, p, s', c) && forall q :: q != p ==> At(s', q) == At(s, q)
  }

  lemma CallFrame(s: State, p: Pid, c: Call)
    requires Polite(s, p, c)
    ensures FilesFrame(s, p, Perform(s, p, c), c)
  {
  }

  lemma MoveFrame(s: State, p: Pid, move: Move)
    requires move.Move? && Polite(s, p, move.call)
    ensures Frame(s, p, After(s, p, move), move.call)
  {
    CallFrame(s, p, move.call);
    PhaseFrame(s, p, move.call, Perform(s, p, move.call), move.next);
  }

  lemma PhaseFrame(s: State, p: Pid, c: Call, t: State, next: Phase)
    requires FilesFrame(s, p, t, c) && t.procs == s.procs
    ensures Frame(s, p, t.(procs := t.procs[p := next]), c)
  {
  }

  lemma LocalOther(s: State, p: Pid, c: Call, s': State, q: Pid)
    requires Polite(s, p, c) && Frame(s, p, s', c) && q != p && Local(s, q)
    requires HasOwnFile(At(s, q)) ==> c != Unlink(LockName(At(s, q).x))
    ensures Local(s', q)
  {
  }

  lemma StaysEntitled(s: State, p: Pid, a: Act)
    requires Entitled(s, p, At(s, p)) && Plan(s, At(s, p), p, a).Move?
    ensures var move := Plan(s, At(s, p), p, a); Entitled(Perform(s, p, move.call), p, move.next)
  {
  }

  lemma StaysLinked(s: State, p: Pid, a: Act)
    requires Linked(s, At(s, p)) && Plan(s, At(s, p), p, a).Move?
    ensures var move := Plan(s, At(s, p), p, a); Linked(Perform(s, p, move.call), move.next)
  {
  }

  lemma StaysSecure(s: State, p: Pid, a: Act)
    requires Secure(s, p, At(s, p)) && Plan(s, At(s, p), p, a).Move?
    ensures var move := Plan(s, At(s, p), p, a); Secure(Perform(s, p, move.call), p, move.next)
  {
  }

  lemma StaysLegible(s: State, p: Pid, a: Act)
    requires Legible(s, At(s, p)) && Plan(s, At(s, p), p, a).Move?
    ensures var move := Plan(s, At(s, p), p, a); Legible(Perform(s, p, move.call), move.next)
  {
  }

  /** A step unlinks no other process's own file. */
  lemma UnlinksNoOther(s: State, p: Pid, a: Act, q: Pid)
    requires Local(s, p) && Local(s, q) && Apart(At(s, p), At(s, q)) && q != p && HasOwnFile(At(s, q))
    requires Plan(s, At(s, p), p, a).Move?
    ensures Plan(s, At(s, p), p, a).call != Unlink(LockName(At(s, q).x))
  {
    if a.RemoveOwn? && LockName(At(s, p).x) == LockName(At(s, q).x) {
      LockNamesDiffer(At(s, p).x, At(s, q).x);
    }
  }

  lemma LocksAfter(s: State, p: Pid, c: Call, i: nat)
    ensures var locks := Perform(s, p, c).locks;
            i in locks && locks[i] == p ==>
              c == Lock(i) || (i in s.locks && s.locks[i] == p && c != Unlock(i) && c != CloseAll)
  {
  }

  lemma HeldSelf(s: State, p: Pid, a: Act, i: nat)
    requires Held(s, i) && Plan(s, At(s, p), p, a).Move?
    ensures var move := Plan(s, At(s, p), p, a);
            move.call == Lock(i) || (i in s.locks && s.locks[i] == p && move.call != Unlock(i) && move.call != CloseAll)
            ==> HasLock(move.next) && move.next.inode == i
  {
  }

  /** The registry admits one process at a time. */
  lemma OneInside(s: State, p: Pid, q: Pid)
    requires Local(s, p) && Local(s, q) && p != q
    ensures !(Critical(At(s, p)) && Critical(At(s, q)))
  {
  }

  lemma ApartAsScanner(s: State, p: Pid, a: Act, q: Pid)
    requires Local(s, p) && Local(s, q) && p != q && Apart(At(s, p), At(s, q)) && Plan(s, At(s, p), p, a).Move?
    ensures Apart(Plan(s, At(s, p), p, a).next, At(s, q))
  {
    OneInside(s, p, q);
  }

  lemma ApartAsOwner(s: State, p: Pid, a: Act, q: Pid)
    requires Local(s, p) && Local(s, q) && p != q && Apart(At(s, q), At(s, p)) && Plan(s, At(s, p), p, a).Move?
    ensures Apart(At(s, q), Plan(s, At(s, p), p, a).next)
  {
    OneInside(s, p, q);
  }

  lemma HeldStep(s: State, p: Pid, a: Act, s': State, i: nat)
    requires Tidy(s) && Do(s, p, a) == Some(s') && Frame(s, p, s', Plan(s, At(s, p), p, a).call)
    ensures Held(s', i)
  {
    assert Held(s, i);
    HeldSelf(s, p, a, i);
    LocksAfter(s, p, Plan(s, At(s, p), p, a).call, i);
  }

  lemma LocalStep(s: State, p: Pid, a: Act, s': State, q: Pid)
    requires Tidy(s) && Do(s, p, a) == Some(s') && Frame(s, p, s', Plan(s, At(s, p), p, a).call)
    ensures Local(s', q)
  {
    assert Local(s, p) && Local(s, q);
    if q == p {
      StaysEntitled(s, p, a);
      StaysLinked(s, p, a);
      StaysSecure(s, p, a);
      StaysLegible(s, p, a);
    } else {
      if HasOwnFile(At(s, q)) {
        UnlinksNoOther(s, p, a, q);
      }
      StepIsPolite(s, p, a);
      LocalOther(s, p, Plan(s, At(s, p), p, a).call, s', q);
    }
  }

  lemma ApartStep(s: State, p: Pid, a: Act, s': State, q: Pid, r: Pid)
    requires Tidy(s) && Do(s, p, a) == Some(s') && Frame(s, p, s', Plan(s, At(s, p), p, a).call) && q != r
    ensures Apart(At(s', q), At(s', r))
  {
    assert Local(s, p) && Local(s, q) && Local(s, r);
    if q == p {
      ApartAsScanner(s, p, a, r);
    } else if r == p {
      ApartAsOwner(s, p, a, q);
    }
  }

  lemma DirStep(s: State, p: Pid, c: Call)
    requires Polite(s, p, c) && forall n :: n in s.dir ==> s.dir[n] in s.content
    ensures var t := Perform(s, p, c); forall n :: n in t.dir ==> t.dir[n] in t.content
  {
  }

  /** Every step keeps the files and locks in order. */
  lemma TidyStep(s: State, p: Pid, a: Act, s': State)
    requires Tidy(s) && Do(s, p, a) == Some(s')
    ensures Tidy(s') && Frame(s, p, s', Plan(s, At(s, p), p, a).call)
  {
    assert Local(s, p);
    var move := Plan(s, At(s, p), p, a);
    StepIsPolite(s, p, a);
    MoveFrame(s, p, move);
    DirStep(s, p, move.call);
    forall q ensures Local(s', q) {
      LocalStep(s, p, a, s', q);
    }
    forall i ensures Held(s', i) {
      HeldStep(s, p, a, s', i);
    }
    forall q, r | q != r ensures Apart(At(s', q), At(s', r)) {
      ApartStep(s, p, a, s', q, r);
    }
  }

  // ----- exclusion -----

  /** What a scan makes of each live instance. */
  type Sight = Instance -> Option<Instance>

  function Seen(y: Instance): Option<Instance> {
    ReadAs(Some(Encode(y)))
  }

  predicate Stops(seen: Option<Instance>, x: Instance) {
    seen.Some? && Blocks(seen.value, x)
  }

  /** What a scan makes of a live `y` stands in the way of `x`. */
  predicate Obstructs(y: Instance, x: Instance) {
    Stops(Seen(y), x)
  }

  /** The scan has still to look at the file of `y`, or has what can be made of it. */
  predicate Noted(see: Sight, scan: Scan, y: Instance) {
    LockName(y) in scan.todo || (see(y).Some? ==> see(y).value in scan.active)
  }

  /** How far a process in phase `ph` has come in ruling out that the live process `own` stands in its way. */
  ghost predicate Wary(see: Sight, ph: Phase, own: Phase)
    requires IsLive(own)
  {
    && (ph.Scanning? || ph.Taken? || ph.Released? ==> Noted(see, ph.scan, own.x))
    && (ph.Opened? || ph.Reading? ==> ph.name == LockName(own.x) || Noted(see, ph.scan, own.x))
    && (ph.Cleared? || ph.OwnOpened? || ph.OwnLocked? || IsLive(ph) ==> !Stops(see(own.x), ph.x))
  }

  /** Of two processes that meet, the later one has ruled out the earlier. */
  ghost predicate Secured(see: Sight, ph: Phase, own: Phase) {
    IsLive(own) ==> Wary(see, ph, own) || (IsLive(ph) && Wary(see, own, ph))
  }

  lemma DecideRulesOut(see: Sight, scan: Scan, own: Phase)
    requires IsLive(own) && Noted(see, scan, own.x) && scan.todo == {} && Conflict(scan.active, scan.x).None?
    ensures Wary(see, Cleared(scan.x), own)
  {
    ConflictIsABlocker(scan.active, scan.x);
  }

  lemma WaryByListing(see: Sight, s: State, p: Pid, q: Pid, next: Phase)
    requires Local(s, q) && IsLive(At(s, q)) && Plan(s, At(s, p), p, ListDir) == Move(Nothing, next)
    ensures Wary(see, next, At(s, q))
  {
    OwnNameIsScanned(At(s, q).x);
  }

  lemma ReadingNotes(see: Sight, scan: Scan, name: string, content: Option<string>, y: Instance)
    requires (name == LockName(y) || Noted(see, scan, y)) && (name == LockName(y) ==> ReadAs(content) == see(y))
    ensures Noted(see, scan.(active := Note(scan.active, content)), y)
  {
    var more := Note(scan.active, content);
    assert forall z :: z in scan.active ==> z in more;
  }

  lemma WaryByReading(see: Sight, s: State, ph: Phase, own: Phase)
    requires ph.Reading? && IsLive(own) && Apart(ph, own) && Wary(see, ph, own)
    requires ph.inode in s.content && own.inode in s.content && ReadAs(s.content[own.inode]) == see(own.x)
    ensures Wary(see, Scanning(ph.scan.(active := Note(ph.scan.active, s.content[ph.inode]))), own)
  {
    ReadingNotes(see, ph.scan, ph.name, s.content[ph.inode], own.x);
  }

  lemma WaryAnyway(see: Sight, s: State, p: Pid, a: Act, q: Pid, call: Call, next: Phase)
    requires Plan(s, At(s, p), p, a) == Move(call, next) && !a.ListDir? && !a.Read? && !a.Decide? && IsLive(At(s, q))
    requires Apart(next, At(s, q)) && Wary(see, At(s, p), At(s, q))
    ensures Wary(see, next, At(s, q))
  {
  }

  lemma ReadPlans(s: State, p: Pid, call: Call, next: Phase)
    requires Plan(s, At(s, p), p, Read) == Move(call, next)
    ensures var ph := At(s, p);
            && ph.Reading? && ph.inode in s.content
            && next == Scanning(ph.scan.(active := Note(ph.scan.active, s.content[ph.inode])))
  {
  }

  lemma DecidePlans(s: State, p: Pid, call: Call, next: Phase)
    requires Plan(s, At(s, p), p, Decide) == Move(call, next)
    ensures var ph := At(s, p);
            && ph.Scanning? && ph.scan.todo == {}
            && next == if Conflict(ph.scan.active, ph.scan.x).None? then Cleared(ph.scan.x) else Idle
  {
  }

  /** A step of a newcomer keeps it wary of every live guard. */
  lemma WaryStep(see: Sight, s: State, p: Pid, a: Act, q: Pid, call: Call, next: Phase)
    requires Local(s, p) && Local(s, q) && p != q && Apart(At(s, p), At(s, q))
    requires IsLive(At(s, q)) && Wary(see, At(s, p), At(s, q)) && Plan(s, At(s, p), p, a) == Move(call, next)
    requires At(s, q).inode in s.content && ReadAs(s.content[At(s, q).inode]) == see(At(s, q).x)
    ensures Wary(see, next, At(s, q))
  {
    if a.ListDir? {
      WaryByListing(see, s, p, q, next);
    } else if a.Read? {
      ReadPlans(s, p, call, next);
      WaryByReading(see, s, At(s, p), At(s, q));
    } else if a.Decide? {
      DecidePlans(s, p, call, next);
      if Conflict(At(s, p).scan.active, At(s, p).scan.x).None? {
        DecideRulesOut(see, At(s, p).scan, At(s, q));
      }
    } else {
      ApartAsScanner(s, p, a, q);
      WaryAnyway(see, s, p, a, q, call, next);
    }
  }

  lemma LiveIsSeen(s: State, q: Pid)
    requires Local(s, q) && IsLive(At(s, q))
    ensures At(s, q).inode in s.content && ReadAs(s.content[At(s, q).inode]) == Seen(At(s, q).x)
  {
  }

  /** A live guard that was there first only stays or goes. */
  lemma LiveStaysOrGoes(s: State, p: Pid, a: Act, call: Call, next: Phase)
    requires IsLive(At(s, p)) && Plan(s, At(s, p), p, a) == Move(call, next)
    ensures (IsLive(next) && next.x == At(s, p).x) || next.Dropping? || next.Idle?
  {
  }

  lemma SecuredAsNewcomer(see: Sight, s: State, p: Pid, a: Act, q: Pid, call: Call, next: Phase)
    requires Local(s, p) && Local(s, q) && p != q && Apart(At(s, p), At(s, q)) && Secured(see, At(s, p), At(s, q))
    requires IsLive(At(s, q)) && Plan(s, At(s, p), p, a) == Move(call, next)
    requires At(s, q).inode in s.content && ReadAs(s.content[At(s, q).inode]) == see(At(s, q).x)
    ensures Secured(see, next, At(s, q))
  {
    if Wary(see, At(s, p), At(s, q)) {
      WaryStep(see, s, p, a, q, call, next);
    } else {
      LiveStaysOrGoes(s, p, a, call, next);
    }
  }

  lemma GoesLive(s: State, p: Pid, a: Act, call: Call, next: Phase)
    requires Plan(s, At(s, p), p, a) == Move(call, next) && IsLive(next)
    ensures (IsLive(At(s, p)) || At(s, p).OwnLocked?) && next.x == At(s, p).x
  {
  }

  /** A process that is live, or about to be, and the others' standing towards it. */
  lemma SecuredAsLive(see: Sight, ph: Phase, other: Phase, next: Phase)
    requires IsLive(next) && (IsLive(ph) || (ph.OwnLocked? && !Critical(other))) && next.x == ph.x
    requires Secured(see, ph, other) && Secured(see, other, ph)
    ensures Secured(see, other, next)
  {
  }

  lemma SecuredAsResident(see: Sight, s: State, p: Pid, a: Act, q: Pid, call: Call, next: Phase)
    requires Local(s, p) && Local(s, q) && p != q && Plan(s, At(s, p), p, a) == Move(call, next) && IsLive(next)
    requires Secured(see, At(s, p), At(s, q)) && Secured(see, At(s, q), At(s, p))
    ensures Secured(see, At(s, q), next)
  {
    GoesLive(s, p, a, call, next);
    OneInside(s, p, q);
    SecuredAsLive(see, At(s, p), At(s, q), next);
  }

  ghost predicate Guarded(s: State) {
    forall p, q :: p != q ==> Secured(Seen, At(s, p), At(s, q))
  }

  lemma SecuredStep(s: State, p: Pid, a: Act, s': State, q: Pid, r: Pid)
    requires Tidy(s) && Guarded(s) && Do(s, p, a) == Some(s') && Frame(s, p, s', Plan(s, At(s, p), p, a).call) && q != r
    ensures Secured(Seen, At(s', q), At(s', r))
  {
    assert Local(s, p) && Local(s, q) && Local(s, r);
    assert Secured(Seen, At(s, q), At(s, r)) && Secured(Seen, At(s, r), At(s, q)) && Apart(At(s, q), At(s, r));
    var move := Plan(s, At(s, p), p, a);
    if q == p {
      if IsLive(At(s, r)) {
        LiveIsSeen(s, r);
        SecuredAsNewcomer(Seen, s, p, a, r, move.call, move.next);
      }
    } else if r == p && IsLive(move.next) {
      SecuredAsResident(Seen, s, p, a, q, move.call, move.next);
    }
  }

  /** Every step keeps each newcomer aware of the live guards that could stand in its way. */
  lemma GuardedStep(s: State, p: Pid, a: Act, s': State)
    requires Tidy(s) && Guarded(s) && Do(s, p, a) == Some(s')
    ensures Guarded(s')
  {
    TidyStep(s, p, a, s');
    forall q, r | q != r ensures Secured(Seen, At(s', q), At(s', r)) {
      SecuredStep(s, p, a, s', q, r);
    }
  }

  lemma InitialIsTidy(s: State)
    requires Initial(s)
    ensures Tidy(s) && Guarded(s)
  {
    assert forall p :: At(s, p) == Idle;
  }

  lemma {:induction false} RunIsTidy(s0: State, run: seq<Event>, s: State)
    requires Initial(s0) && Exec(s0, run) == Some(s)
    ensures Tidy(s)
  {
    InitialIsTidy(s0);
    if run != [] {
      var n := |run| - 1;
      var before := Exec(s0, run[..n]).value;
      RunIsTidy(s0, run[..n], before);
      TidyStep(before, run[n].pid, run[n].act, s);
    }
  }

  lemma {:induction false} RunIsGuarded(s0: State, run: seq<Event>, s: State)
    requires Initial(s0) && Exec(s0, run) == Some(s)
    ensures Guarded(s)
  {
    InitialIsTidy(s0);
    if run != [] {
      var n := |run| - 1;
      var before := Exec(s0, run[..n]).value;
      RunIsTidy(s0, run[..n], before);
      RunIsGuarded(s0, run[..n], before);
      GuardedStep(before, run[n].pid, run[n].act, s);
    }
  }

  /** In every run, whatever the metadata values: of two live guards one does not stand in the other's way. */
  lemma LiveGuardsDoNotObstruct(s0: State, run: seq<Event>, s: State, p: Pid, q: Pid)
    requires Initial(s0) && Exec(s0, run) == Some(s) && p != q && IsLive(At(s, p)) && IsLive(At(s, q))
    ensures !Obstructs(At(s, p).x, At(s, q).x) || !Obstructs(At(s, q).x, At(s, p).x)
  {
    RunIsGuarded(s0, run, s);
    assert Secured(Seen, At(s, p), At(s, q));
  }

  /** The decoder keeps of an instance what the conflict rules look at. */
  ghost predicate Faithful(x: Instance) {
    var r := Decode(Encode(x));
    r.Ok? && r.value.role == x.role && r.value.configId == x.configId
  }

  /** Without line feeds that is the case just when the config id does not end in a carriage return. */
  lemma FaithfulWithoutLineFeeds(x: Instance)
    requires '\n' !in x.configId && '\n' !in x.serverAddr
    ensures Faithful(x) <==> Clean(x.configId)
  {
    DecodeStrips(x);
  }

  /** At most one of the two is a speed run, and a client beside a speed run is on another config. */
  predicate Compatible(x: Instance, y: Instance) {
    !(x.role == Speed && y.role == Speed) && !(x.role != y.role && x.configId == y.configId)
  }

  /** In every run, two live guards whose metadata the decoder keeps are compatible. */
  lemma LiveGuardsAreCompatible(s0: State, run: seq<Event>, s: State, p: Pid, q: Pid)
    requires Initial(s0) && Exec(s0, run) == Some(s) && p != q && IsLive(At(s, p)) && IsLive(At(s, q))
    requires Faithful(At(s, p).x) && Faithful(At(s, q).x)
    ensures Compatible(At(s, p).x, At(s, q).x)
  {
    LiveGuardsDoNotObstruct(s0, run, s, p, q);
  }

  /** The registry serializes: no two processes are inside the critical section at once. */
  lemma RegistryExcludes(s0: State, run: seq<Event>, s: State, p: Pid, q: Pid)
    requires Initial(s0) && Exec(s0, run) == Some(s) && p != q
    ensures !(Critical(At(s, p)) && Critical(At(s, q)))
  {
    RunIsTidy(s0, run, s);
    assert Local(s, p) && Local(s, q);
    OneInside(s, p, q);
  }

  /** A live guard's file stays linked under its own name, locked by its process and readable as written. */
  lemma LiveFileStays(s0: State, run: seq<Event>, s: State, p: Pid)
    requires Initial(s0) && Exec(s0, run) == Some(s) && IsLive(At(s, p))
    ensures var (x, i) := (At(s, p).x, At(s, p).inode);
            && x.pid == p && LockName(x) in s.dir && s.dir[LockName(x)] == i
            && i in s.locks && s.locks[i] == p && i in s.content && s.content[i] == Some(Encode(x))
  {
    RunIsTidy(s0, run, s);
    assert Local(s, p);
  }
}
