/** What a refusal means: the peer it names was live when the refused process took the registry. */
module GuardRefusal {
  import opened Basics
  import opened Results
  import opened GuardCodec
  import opened GuardProtocol
  import opened GuardSafety

  /** `y` is what the decoder makes of the file of an instance that was live then. */
  ghost predicate Witnessed(live: set<Instance>, y: Instance) {
    exists z :: z in live && Decode(Encode(z)) == Ok(y)
  }

  ghost predicate HoldsLiveText(live: set<Instance>, text: Option<string>) {
    exists z :: z in live && text == Some(Encode(z))
  }

  ghost predicate Known(s: State, ph: Phase) {
    && (InScan(ph) ==> forall y :: y in ph.scan.active ==> Witnessed(ph.scan.live, y))
    && (ph.Reading? ==> ph.inode in s.content && HoldsLiveText(ph.scan.live, s.content[ph.inode]))
  }

  /** Everything live now was live when `ph` took the registry. */
  ghost predicate Counted(ph: Phase, own: Phase) {
    IsLive(own) ==> (ph.Holding? ==> own.x in ph.live) && (InScan(ph) ==> own.x in ph.scan.live)
  }

  ghost predicate Informed(s: State) {
    && (forall p :: Known(s, At(s, p)))
    && (forall p, q :: p != q ==> Counted(At(s, p), At(s, q)))
  }

  lemma CountedStep(s: State, p: Pid, a: Act, q: Pid)
    requires Local(s, p) && Local(s, q) && p != q && Plan(s, At(s, p), p, a).Move?
    requires Counted(At(s, p), At(s, q)) && Counted(At(s, q), At(s, p))
    ensures Counted(Plan(s, At(s, p), p, a).next, At(s, q)) && Counted(At(s, q), Plan(s, At(s, p), p, a).next)
  {
    OneInside(s, p, q);
    if IsLive(At(s, q)) {
      assert At(s, q).x in LiveNow(s);
    }
  }

  /** A file found locked during a scan belongs to a guard that is live. */
  lemma LockedMeansLive(s: State, p: Pid)
    requires Tidy(s) && Informed(s) && At(s, p).Opened? && At(s, p).inode in s.locks
    ensures At(s, p).inode in s.content && HoldsLiveText(At(s, p).scan.live, s.content[At(s, p).inode])
  {
    var i := At(s, p).inode;
    var h := s.locks[i];
    assert Held(s, i) && Local(s, h) && Local(s, p);
    OneInside(s, p, h);
    assert Counted(At(s, p), At(s, h));
  }

  lemma NoteIsWitnessed(live: set<Instance>, active: seq<Instance>, text: Option<string>)
    requires (forall y :: y in active ==> Witnessed(live, y)) && HoldsLiveText(live, text)
    ensures forall y :: y in Note(active, text) ==> Witnessed(live, y)
  {
  }

  lemma KnownSelf(s: State, p: Pid, a: Act)
    requires Tidy(s) && Informed(s) && Plan(s, At(s, p), p, a).Move?
    ensures Known(s, Plan(s, At(s, p), p, a).next)
  {
    assert Known(s, At(s, p));
    if a.TryLock? && At(s, p).inode in s.locks {
      LockedMeansLive(s, p);
    } else if a.Read? {
      NoteIsWitnessed(At(s, p).scan.live, At(s, p).scan.active, s.content[At(s, p).inode]);
    }
  }

  lemma KnownOther(s: State, p: Pid, a: Act, s': State, q: Pid)
    requires Local(s, p) && Local(s, q) && Known(s, At(s, q)) && Plan(s, At(s, p), p, a).Move?
    requires Frame(s, p, s', Plan(s, At(s, p), p, a).call) && q != p
    ensures Known(s', At(s', q))
  {
    OneInside(s, p, q);
  }

  lemma ReadingChangesNothing(s: State, p: Pid, a: Act)
    requires Plan(s, At(s, p), p, a).Move? && Plan(s, At(s, p), p, a).next.Reading?
    ensures Plan(s, At(s, p), p, a).call == Nothing
  {
  }

  lemma KnownStep(s: State, p: Pid, a: Act, s': State, q: Pid)
    requires Tidy(s) && Informed(s) && Do(s, p, a) == Some(s') && Frame(s, p, s', Plan(s, At(s, p), p, a).call)
    ensures Known(s', At(s', q))
  {
    assert Local(s, p) && Local(s, q) && Known(s, At(s, q));
    if q == p {
      KnownSelf(s, p, a);
      if At(s', p).Reading? {
        ReadingChangesNothing(s, p, a);
      }
    } else {
      KnownOther(s, p, a, s', q);
    }
  }

  lemma InformedStep(s: State, p: Pid, a: Act, s': State)
    requires Tidy(s) && Informed(s) && Do(s, p, a) == Some(s')
    ensures Informed(s')
  {
    TidyStep(s, p, a, s');
    forall q ensures Known(s', At(s', q)) {
      KnownStep(s, p, a, s', q);
    }
    forall q, r | q != r ensures Counted(At(s', q), At(s', r)) {
      assert Local(s, p) && Local(s, q) && Local(s, r);
      assert Counted(At(s, q), At(s, r)) && Counted(At(s, r), At(s, q));
      if q == p {
        CountedStep(s, p, a, r);
      } else if r == p {
        CountedStep(s, p, a, q);
      }
    }
  }

  lemma {:induction false} RunIsInformed(s0: State, run: seq<Event>, s: State)
    requires Initial(s0) && Exec(s0, run) == Some(s)
    ensures Informed(s)
  {
    if run == [] {
      assert forall p :: At(s, p) == Idle;
    } else {
      var n := |run| - 1;
      var before := Exec(s0, run[..n]).value;
      RunIsTidy(s0, run[..n], before);
      RunIsInformed(s0, run[..n], before);
      InformedStep(before, run[n].pid, run[n].act, s);
    }
  }

  /** The k-th step is p's latest taking of the registry, and `live` is what was live at that moment. */
  ghost predicate TookAt(s0: State, run: seq<Event>, p: Pid, k: nat, live: set<Instance>) {
    && k < |run| && run[k] == Event(p, TakeRegistry)
    && Exec(s0, run[..k]).Some? && LiveNow(Exec(s0, run[..k]).value) == live
    && forall j :: k < j < |run| ==> run[j] != Event(p, TakeRegistry)
  }

  function LiveThen(ph: Phase): set<Instance> {
    if ph.Holding? then ph.live else if InScan(ph) then ph.scan.live else {}
  }

  predicate Looking(ph: Phase) {
    ph.Holding? || InScan(ph)
  }

  lemma LiveThenMove(s: State, p: Pid, a: Act)
    requires Plan(s, At(s, p), p, a).Move? && Looking(Plan(s, At(s, p), p, a).next)
    ensures var next := Plan(s, At(s, p), p, a).next;
            if a.TakeRegistry? then LiveThen(next) == LiveNow(s)
            else Looking(At(s, p)) && LiveThen(next) == LiveThen(At(s, p))
  {
  }

  lemma LiveThenStep(s: State, e: Event, s': State, p: Pid)
    requires Do(s, e.pid, e.act) == Some(s') && Looking(At(s', p))
    ensures if e == Event(p, TakeRegistry) then LiveThen(At(s', p)) == LiveNow(s)
            else Looking(At(s, p)) && LiveThen(At(s', p)) == LiveThen(At(s, p))
  {
    if e.pid == p {
      LiveThenMove(s, p, e.act);
    }
  }

  lemma TookEarlier(s0: State, run: seq<Event>, p: Pid, k: nat, live: set<Instance>)
    requires run != [] && run[|run| - 1] != Event(p, TakeRegistry) && TookAt(s0, run[..|run| - 1], p, k, live)
    ensures TookAt(s0, run, p, k, live)
  {
    assert run[..|run| - 1][..k] == run[..k];
  }

  lemma {:induction false} TookTheRegistry(s0: State, run: seq<Event>, s: State, p: Pid)
    requires Exec(s0, run) == Some(s) && Initial(s0) && Looking(At(s, p))
    ensures exists k: nat :: TookAt(s0, run, p, k, LiveThen(At(s, p)))
  {
    if run != [] {
      var n := |run| - 1;
      var before := Exec(s0, run[..n]).value;
      LiveThenStep(before, run[n], s, p);
      if run[n] == Event(p, TakeRegistry) {
        assert TookAt(s0, run, p, n, LiveThen(At(s, p)));
      } else {
        TookTheRegistry(s0, run[..n], before, p);
        var k: nat :| TookAt(s0, run[..n], p, k, LiveThen(At(s, p)));
        TookEarlier(s0, run, p, k, LiveThen(At(s, p)));
      }
    }
  }

  /**
   A process is turned away only for a peer that blocks it as decoded from its file, and that
   peer's guard was live at the moment the refused process last took the registry.
   */
  lemma RefusalIsJustified(s0: State, run: seq<Event>, s: State, p: Pid)
    requires Initial(s0) && Exec(s0, run) == Some(s) && At(s, p).Scanning?
    requires Conflict(At(s, p).scan.active, At(s, p).scan.x).Some?
    ensures var y := Conflict(At(s, p).scan.active, At(s, p).scan.x).value;
            && Blocks(y, At(s, p).scan.x)
            && exists k: nat, live, z :: TookAt(s0, run, p, k, live) && z in live && Decode(Encode(z)) == Ok(y)
  {
    var scan := At(s, p).scan;
    RunIsInformed(s0, run, s);
    assert Known(s, At(s, p));
    ConflictIsABlocker(scan.active, scan.x);
    TookTheRegistry(s0, run, s, p);
    var k: nat :| TookAt(s0, run, p, k, scan.live);
    var z :| z in scan.live && Decode(Encode(z)) == Ok(Conflict(scan.active, scan.x).value);
  }
}
