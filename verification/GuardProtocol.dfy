/**
 The runtime guard as a protocol between processes: every system call on the state directory is
 one step, steps of different processes interleave freely, and a process may stop at any point.
 */
module GuardProtocol {
  import opened Basics
  import opened GuardCodec

  type Pid = u32

  // ----- the conflict rules -----

  /** Whether a live `y` stands in the way of a new `x`. */
  predicate Blocks(y: Instance, x: Instance) {
    y.role == Speed || (x.role == Speed && y.configId == x.configId)
  }

  /** The first active instance a rule picks, in scan order. */
  function FirstOf(active: seq<Instance>, rule: Instance -> bool): (r: Option<Instance>)
    ensures r.Some? ==> r.value in active && rule(r.value)
    ensures r.None? ==> forall y :: y in active ==> !rule(y)
  {
    if active == [] then None
    else if rule(active[0]) then Some(active[0])
    else FirstOf(active[1..], rule)
  }

  /** The conflict that stops `x`, a speed run being looked for before a client. */
  function Conflict(active: seq<Instance>, x: Instance): Option<Instance> {
    var speed := FirstOf(active, (y: Instance) => y.role == Speed);
    if speed.Some? || x.role == Client then speed
    else FirstOf(active, (y: Instance) => y.role == Client && y.configId == x.configId)
  }

  lemma ConflictIsABlocker(active: seq<Instance>, x: Instance)
    ensures Conflict(active, x).Some? <==> exists y :: y in active && Blocks(y, x)
    ensures Conflict(active, x).Some? ==> Conflict(active, x).value in active && Blocks(Conflict(active, x).value, x)
  {
  }

  // ----- states -----

  /** `live` records which instances were live when this process took the registry; no step reads it. */
  datatype Scan = Scan(x: Instance, live: set<Instance>, todo: set<string>, active: seq<Instance>)

  datatype Phase =
    | Idle
    | Waiting(x: Instance)
    | Holding(x: Instance, live: set<Instance>)
    | Scanning(scan: Scan)
    | Opened(scan: Scan, name: string, inode: nat)
    | Reading(scan: Scan, name: string, inode: nat)
    | Taken(scan: Scan, name: string, inode: nat)
    | Released(scan: Scan, name: string)
    | Cleared(x: Instance)
    | OwnOpened(x: Instance, inode: nat)
    | OwnLocked(x: Instance, inode: nat)
    | Published(x: Instance, inode: nat)
    | Live(x: Instance, inode: nat)
    | Dropping(x: Instance)

  /** Directory entries, file contents (None: not UTF-8), file locks, the registry lock, and each process. */
  datatype State = State(
    dir: map<string, nat>,
    content: map<nat, Option<string>>,
    locks: map<nat, Pid>,
    registry: Option<Pid>,
    procs: map<Pid, Phase>)

  datatype Act =
    | Ask(x: Instance)
    | TakeRegistry
    | ListDir
    | OpenNext(name: string, made: nat)
    | TryLock
    | Read
    | LetGo
    | Remove
    | Decide
    | OpenOwn(made: nat)
    | TryLockOwn
    | Publish
    | Return
    | Drop
    | RemoveOwn
    | Stop

  /** The guard counts as live from its metadata being written until its lock is let go. */
  predicate IsLive(ph: Phase) {
    ph.Published? || ph.Live?
  }

  function LiveNow(s: State): set<Instance> {
    set p | p in s.procs && IsLive(s.procs[p]) :: s.procs[p].x
  }

  /** Directory entries the scan looks at: extension `lock`, not the registry itself. */
  predicate Scanned(name: string) {
    |name| > 5 && name[|name| - 5..] == ".lock" && name != "registry.lock"
  }

  lemma OwnNameIsScanned(x: Instance)
    ensures Scanned(LockName(x))
  {
    var name := LockName(x);
    assert name[|name| - 5..] == ".lock";
    assert RoleText(x.role)[0] != 'r' && name[0] == RoleText(x.role)[0];
  }

  // ----- steps -----

  function At(s: State, p: Pid): Phase {
    if p in s.procs then s.procs[p] else Idle
  }

  /** What a step does to the shared files. Opening a lock file creates an empty one when the name is gone. */
  datatype Call =
    | Nothing
    | LockRegistry
    | UnlockRegistry
    | Create(name: string, inode: nat)
    | Lock(inode: nat)
    | Unlock(inode: nat)
    | Write(inode: nat, text: string)
    | Unlink(name: string)
    | CloseAll

  /** Closing every file a process holds lets go of all its locks. */
  function Perform(s: State, p: Pid, c: Call): State {
    match c
    case Nothing => s
    case LockRegistry => s.(registry := Some(p))
    case UnlockRegistry => s.(registry := None)
    case Create(name, i) => s.(dir := s.dir[name := i], content := s.content[i := Some("")])
    case Lock(i) => s.(locks := s.locks[i := p])
    case Unlock(i) => s.(locks := s.locks - {i})
    case Write(i, text) => s.(content := s.content[i := Some(text)])
    case Unlink(name) => s.(dir := s.dir - {name})
    case CloseAll => s.(locks := map i | i in s.locks && s.locks[i] != p :: s.locks[i],
                        registry := if s.registry == Some(p) then None else s.registry)
  }

  /** What a scan makes of a file's content, if it can be read and decoded. */
  function ReadAs(content: Option<string>): Option<Instance> {
    if content.Some? && Decode(content.value).Ok? then Some(Decode(content.value).value) else None
  }

  /** A locked peer's file joins the active list if something can be made of it, and is skipped otherwise. */
  function Note(active: seq<Instance>, content: Option<string>): seq<Instance> {
    match ReadAs(content) case Some(y) => active + [y] case None => active
  }

  /** A step: the system call it makes and the phase it leads to. */
  datatype Move = Blocked | Move(call: Call, next: Phase)

  function Plan(s: State, ph: Phase, p: Pid, a: Act): Move {
    match a
    case Ask(x) =>
      if ph.Idle? && x.pid == p then Move(Nothing, Waiting(x)) else Blocked
    case TakeRegistry =>
      if ph.Waiting? && s.registry == None then Move(LockRegistry, Holding(ph.x, LiveNow(s))) else Blocked
    case ListDir =>
      if ph.Holding? then Move(Nothing, Scanning(Scan(ph.x, ph.live, set n | n in s.dir && Scanned(n), []))) else Blocked
    case OpenNext(name, made) =>
      if !ph.Scanning? || name !in ph.scan.todo || made in s.content then Blocked
      else
        var scan := ph.scan.(todo := ph.scan.todo - {name});
        if name in s.dir then Move(Nothing, Opened(scan, name, s.dir[name]))
        else Move(Create(name, made), Opened(scan, name, made))
    case TryLock =>
      if !ph.Opened? then Blocked
      else if ph.inode in s.locks then Move(Nothing, Reading(ph.scan, ph.name, ph.inode))
      else Move(Lock(ph.inode), Taken(ph.scan, ph.name, ph.inode))
    case Read =>
      if ph.Reading? && ph.inode in s.content
      then Move(Nothing, Scanning(ph.scan.(active := Note(ph.scan.active, s.content[ph.inode])))) else Blocked
    case LetGo =>
      if ph.Taken? then Move(Unlock(ph.inode), Released(ph.scan, ph.name)) else Blocked
    case Remove =>
      if ph.Released? then Move(Unlink(ph.name), Scanning(ph.scan)) else Blocked
    case Decide =>
      if !ph.Scanning? || ph.scan.todo != {} then Blocked
      else if Conflict(ph.scan.active, ph.scan.x).None? then Move(Nothing, Cleared(ph.scan.x))
      else Move(CloseAll, Idle)
    case OpenOwn(made) =>
      if !ph.Cleared? || made in s.content then Blocked
      else if LockName(ph.x) in s.dir then Move(Nothing, OwnOpened(ph.x, s.dir[LockName(ph.x)]))
      else Move(Create(LockName(ph.x), made), OwnOpened(ph.x, made))
    case TryLockOwn =>
      if !ph.OwnOpened? then Blocked
      else if ph.inode in s.locks then Move(CloseAll, Idle)
      else Move(Lock(ph.inode), OwnLocked(ph.x, ph.inode))
    case Publish =>
      if ph.OwnLocked? then Move(Write(ph.inode, Encode(ph.x)), Published(ph.x, ph.inode)) else Blocked
    case Return =>
      if ph.Published? then Move(UnlockRegistry, Live(ph.x, ph.inode)) else Blocked
    case Drop =>
      if ph.Live? then Move(Unlock(ph.inode), Dropping(ph.x)) else Blocked
    case RemoveOwn =>
      if ph.Dropping? then Move(Unlink(LockName(ph.x)), Idle) else Blocked
    case Stop =>
      Move(CloseAll, Idle)
  }

  function After(s: State, p: Pid, move: Move): State
    requires move.Move?
  {
    var t := Perform(s, p, move.call);
    t.(procs := t.procs[p := move.next])
  }

  function Do(s: State, p: Pid, a: Act): Option<State> {
    var move := Plan(s, At(s, p), p, a);
    if move.Blocked? then None else Some(After(s, p, move))
  }

  /** Any files, none of them locked, and no process inside a call. */
  ghost predicate Initial(s: State) {
    && s.locks == map[] && s.registry == None
    && (forall p :: p in s.procs ==> s.procs[p] == Idle)
    && (forall n :: n in s.dir ==> s.dir[n] in s.content)
  }

  datatype Event = Event(pid: Pid, act: Act)

  /** The state after a run, if each of its steps was possible. */
  function Exec(s: State, run: seq<Event>): Option<State> {
    if run == [] then Some(s) else
      var n := |run| - 1;
      var before := Exec(s, run[..n]);
      if before.None? then None else Do(before.value, run[n].pid, run[n].act)
  }

  lemma OneMore(s0: State, run: seq<Event>, s: State, e: Event)
    requires Exec(s0, run) == Some(s)
    ensures Exec(s0, run + [e]) == Do(s, e.pid, e.act)
  {
    assert (run + [e])[..|run|] == run;
  }

  /** Taking steps one after another. */
  function Steps(s: State, p: Pid, acts: seq<Act>): Option<State>
    decreases |acts|
  {
    if acts == [] then Some(s)
    else
      var next := Do(s, p, acts[0]);
      if next.None? then None else Steps(next.value, p, acts[1..])
  }

  lemma FirstStep(s: State, p: Pid, a: Act, acts: seq<Act>, next: State)
    requires Do(s, p, a) == Some(next)
    ensures Steps(s, p, [a] + acts) == Steps(next, p, acts)
  {
    assert ([a] + acts)[1..] == acts;
  }

  function EventsOf(p: Pid, acts: seq<Act>): seq<Event> {
    seq(|acts|, i requires 0 <= i < |acts| => Event(p, acts[i]))
  }

  lemma EventsSplit(p: Pid, acts: seq<Act>, run: seq<Event>)
    requires acts != []
    ensures run + EventsOf(p, acts) == run + [Event(p, acts[0])] + EventsOf(p, acts[1..])
  {
  }

  lemma {:induction false} StepsAreARun(s: State, p: Pid, acts: seq<Act>, run: seq<Event>, s0: State)
    requires Exec(s0, run) == Some(s) && Steps(s, p, acts).Some?
    ensures Exec(s0, run + EventsOf(p, acts)) == Steps(s, p, acts)
    decreases |acts|
  {
    if acts == [] {
      assert run + EventsOf(p, acts) == run;
    } else {
      OneMore(s0, run, s, Event(p, acts[0]));
      StepsAreARun(Do(s, p, acts[0]).value, p, acts[1..], run + [Event(p, acts[0])], s0);
      EventsSplit(p, acts, run);
    }
  }

  lemma TakesSteps(s0: State, run: seq<Event>, s: State, p: Pid, acts: seq<Act>) returns (run': seq<Event>, s': State)
    requires Exec(s0, run) == Some(s) && Steps(s, p, acts).Some?
    ensures Exec(s0, run') == Some(s') && Steps(s, p, acts) == Some(s')
  {
    StepsAreARun(s, p, acts, run, s0);
    run' := run + EventsOf(p, acts);
    s' := Steps(s, p, acts).value;
  }
}
