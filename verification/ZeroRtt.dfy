/** The 0-RTT ticket table: single use over whole runs, with history counters. */
module ZeroRtt {

  datatype Guard = Free | Busy | Out
  datatype Journal = Idle | CheckedOut | Back
  datatype Reject = NoReject | Full | Clash
  datatype Probe = NoProbe | Early | ProbeFailed | ProbeVerified | SettingsFailed
  datatype Settings = NoSettings | Good | Bad

  datatype State = State(
    guard: Guard, binderOk: bool, offered: bool, decided: bool, early: bool, burned: bool, durable: bool,
    journal: Journal, restarted: bool, reject: Reject, hs: bool, probe: Probe, settings: Settings,
    relay: bool, retained: bool, stored: bool, accepts: int,
    replayOffered: bool, replayDecided: bool, replayRejected: bool, dead: bool)

  datatype Action =
    | Offer | SendProbe | Accept | CacheFull | PrefixClash | Checkout | Persist | Restart | FailClosed | BadBinder
    | Handshake | HsTimeout | FailProbe | VerifyProbe | SettingsOk | SettingsFail | Relay | Retain | StoreTicket
    | ReplayOffer | ReplayReject | CheckoutReject

  function Start(guard: Guard, binderOk: bool): State {
    State(guard, binderOk, false, false, false, false, false, Idle, false, NoReject, false, NoProbe, NoSettings,
          false, false, false, 0, false, false, false, false)
  }

  /** A fresh decision under a free lock. */
  predicate Decidable(s: State) {
    s.offered && !s.decided && s.binderOk && s.guard == Free && s.accepts == 0 && !s.burned && !s.dead
  }

  predicate Enabled(a: Action, s: State) {
    match a
    case Offer => !s.offered && !s.dead
    case SendProbe => s.offered && s.probe == NoProbe && !s.hs && !s.dead
    case Accept => Decidable(s)
    case CacheFull => Decidable(s)
    case PrefixClash => Decidable(s)
    case Checkout => s.burned && s.accepts == 1 && !s.durable && s.journal == Idle
    case Persist => s.burned && s.accepts == 1 && !s.durable && s.journal == CheckedOut
    case Restart => s.burned && !s.durable && !s.dead && !s.replayOffered
    case FailClosed => s.offered && !s.decided && s.binderOk && s.guard != Free && s.accepts == 0 && !s.dead
    case BadBinder => s.offered && !s.decided && !s.binderOk && !s.dead
    case Handshake => s.decided && s.probe == Early && !s.hs && !s.dead
    case HsTimeout => s.offered && s.decided && !s.hs && !s.dead
    case FailProbe => s.hs && s.probe == Early && !s.dead
    case VerifyProbe => s.hs && s.probe == Early && !s.dead
    case SettingsOk => s.probe == ProbeVerified && s.settings == NoSettings && !s.dead
    case SettingsFail =>
      s.probe == ProbeVerified && s.settings == NoSettings && !s.retained && !s.stored && !s.dead
    case Relay => s.hs && s.probe == ProbeVerified && s.settings == Good && !s.relay && !s.dead
    case Retain => s.probe == ProbeVerified && s.settings == Good && !s.retained && !s.dead
    case StoreTicket => s.probe == ProbeVerified && s.settings == Good && !s.stored && !s.dead
    case ReplayOffer => s.burned && s.accepts == 1 && !s.replayOffered && (s.journal == CheckedOut || s.hs || s.dead)
    case ReplayReject => s.replayOffered && !s.replayDecided && s.journal != CheckedOut
    case CheckoutReject => s.replayOffered && !s.replayDecided && s.journal == CheckedOut
  }

  function Apply(a: Action, s: State): State {
    match a
    case Offer => s.(offered := true)
    case SendProbe => s.(probe := Early)
    case Accept => s.(decided := true, early := true, burned := true, durable := false, accepts := s.accepts + 1)
    case CacheFull => s.(decided := true, early := false, reject := Full)
    case PrefixClash => s.(decided := true, early := false, reject := Clash)
    case Checkout => s.(journal := CheckedOut)
    case Persist => s.(durable := true, journal := Back)
    case Restart =>
      s.(decided := false, early := false, burned := false, accepts := 0, journal := Idle, restarted := true)
    case FailClosed => s.(decided := true, early := false)
    case BadBinder => s.(decided := true, early := false)
    case Handshake => s.(hs := true)
    case HsTimeout => s.(dead := true)
    case FailProbe => s.(probe := ProbeFailed)
    case VerifyProbe => s.(probe := ProbeVerified)
    case SettingsOk => s.(settings := Good)
    case SettingsFail => s.(probe := SettingsFailed, settings := Bad)
    case Relay => s.(relay := true)
    case Retain => s.(retained := true)
    case StoreTicket => s.(stored := true)
    case ReplayOffer => s.(replayOffered := true)
    case ReplayReject => s.(replayDecided := true, replayRejected := true)
    case CheckoutReject => s.(replayDecided := true, replayRejected := true)
  }

  /** A run is a list of actions, each enabled where it is taken. */
  predicate IsRun(start: State, acts: seq<Action>) {
    acts == [] || (IsRun(start, acts[..|acts| - 1]) && Enabled(acts[|acts| - 1], End(start, acts[..|acts| - 1])))
  }

  function End(start: State, acts: seq<Action>): State {
    if acts == [] then start else Apply(acts[|acts| - 1], End(start, acts[..|acts| - 1]))
  }

  function Count(a: Action, acts: seq<Action>): nat {
    if acts == [] then 0
    else Count(a, acts[..|acts| - 1]) + if acts[|acts| - 1] == a then 1 else 0
  }

  /** An accepted ticket is burned and counted once; durable means burned. */
  predicate Counted(s: State) {
    s.accepts == (if s.burned then 1 else 0) && (s.durable ==> s.burned) && (s.burned ==> s.guard == Free && s.binderOk)
  }

  /** The fields the theorems are about. */
  datatype Ledger = Ledger(guard: Guard, binderOk: bool, burned: bool, durable: bool, accepts: int)

  function LedgerOf(s: State): Ledger {
    Ledger(s.guard, s.binderOk, s.burned, s.durable, s.accepts)
  }

  /** Only an accept, a persist and a restart write to them. */
  lemma OthersLeaveTheLedger(a: Action, s: State, s': State)
    requires a != Accept && a != Persist && a != Restart && s' == Apply(a, s)
    ensures LedgerOf(s') == LedgerOf(s)
  {
  }

  lemma LedgerStep(a: Action, s: State)
    ensures var (l, l') := (LedgerOf(s), LedgerOf(Apply(a, s)));
            l' == if a == Accept then l.(burned := true, durable := false, accepts := l.accepts + 1)
                  else if a == Persist then l.(durable := true)
                  else if a == Restart then l.(burned := false, accepts := 0)
                  else l
  {
    if a != Accept && a != Persist && a != Restart {
      OthersLeaveTheLedger(a, s, Apply(a, s));
    }
  }

  /** What each of the three needs. */
  lemma LedgerGuard(a: Action, s: State)
    requires Enabled(a, s)
    ensures a == Accept ==> s.binderOk && s.guard == Free && s.accepts == 0 && !s.burned
    ensures a == Persist ==> s.burned && s.accepts == 1
    ensures a == Restart ==> s.burned && !s.durable
  {
  }

  lemma StepCounts(a: Action, s: State)
    requires Counted(s) && Enabled(a, s)
    ensures var s' := Apply(a, s);
            && Counted(s') && s'.guard == s.guard && s'.binderOk == s.binderOk
            && s'.accepts == s.accepts + (if a == Accept then 1 else 0) - (if a == Restart then 1 else 0)
  {
    LedgerStep(a, s);
    LedgerGuard(a, s);
  }

  lemma StepKeepsBurned(a: Action, s: State)
    requires Enabled(a, s)
    ensures a == Accept || (s.burned && a != Restart) ==> Apply(a, s).burned
    ensures a == Persist || (s.burned && s.durable) ==> Apply(a, s).burned && Apply(a, s).durable
  {
    LedgerStep(a, s);
    LedgerGuard(a, s);
  }

  lemma {:induction false} RunIsCounted(guard: Guard, binderOk: bool, acts: seq<Action>)
    requires IsRun(Start(guard, binderOk), acts)
    ensures var s := End(Start(guard, binderOk), acts);
            Counted(s) && s.guard == guard && s.binderOk == binderOk
    ensures Count(Accept, acts) > 0 ==> guard == Free && binderOk
    ensures Count(Accept, acts) - Count(Restart, acts) == End(Start(guard, binderOk), acts).accepts
  {
    if acts != [] {
      var short := acts[..|acts| - 1];
      RunIsCounted(guard, binderOk, short);
      StepCounts(acts[|acts| - 1], End(Start(guard, binderOk), short));
    }
  }

  /** In every run the accept counter is the accepts minus the restarts, and never exceeds one. */
  lemma AcceptsMinusRestarts(guard: Guard, binderOk: bool, acts: seq<Action>)
    requires IsRun(Start(guard, binderOk), acts)
    ensures End(Start(guard, binderOk), acts).accepts == Count(Accept, acts) - Count(Restart, acts)
    ensures 0 <= Count(Accept, acts) - Count(Restart, acts) <= 1
    ensures Count(Accept, acts) > 0 ==> guard == Free && binderOk
  {
    RunIsCounted(guard, binderOk, acts);
  }

  lemma {:induction false} PrefixIsRun(start: State, acts: seq<Action>, k: nat)
    requires IsRun(start, acts) && k <= |acts|
    ensures IsRun(start, acts[..k])
    ensures k < |acts| ==> Enabled(acts[k], End(start, acts[..k]))
  {
    if k < |acts| {
      var short := acts[..|acts| - 1];
      if k == |acts| - 1 {
        assert acts[..k] == short;
      } else {
        PrefixIsRun(start, short, k);
        assert short[..k] == acts[..k];
      }
    } else {
      assert acts[..k] == acts;
    }
  }

  lemma EndExtends(start: State, acts: seq<Action>, k: nat)
    requires k < |acts|
    ensures End(start, acts[..k + 1]) == Apply(acts[k], End(start, acts[..k]))
  {
    assert acts[..k + 1][..k] == acts[..k];
  }

  /** The ticket stays burned from an accept until a restart. */
  lemma {:induction false} BurnedUntilRestart(start: State, acts: seq<Action>, i: nat, j: nat)
    requires IsRun(start, acts) && i < j <= |acts| && acts[i] == Accept
    requires forall k :: i < k < j ==> acts[k] != Restart
    ensures End(start, acts[..j]).burned
    decreases j
  {
    EndExtends(start, acts, j - 1);
    PrefixIsRun(start, acts, j - 1);
    StepKeepsBurned(acts[j - 1], End(start, acts[..j - 1]));
    if i < j - 1 {
      BurnedUntilRestart(start, acts, i, j - 1);
    }
  }

  /** Any two accepts have a restart between them (single-use tickets, section 8.1 of RFC 8446). */
  lemma RestartBetweenAccepts(start: State, acts: seq<Action>, i: nat, j: nat)
    requires IsRun(start, acts) && i < j < |acts| && acts[i] == Accept && acts[j] == Accept
    ensures exists k :: i < k < j && acts[k] == Restart
  {
    PrefixIsRun(start, acts, j);
    if forall k :: i < k < j ==> acts[k] != Restart {
      BurnedUntilRestart(start, acts, i, j);
    }
  }

  /** A persisted accept is burned and durable for the rest of the run. */
  lemma {:induction false} DurableForever(start: State, acts: seq<Action>, i: nat, j: nat)
    requires IsRun(start, acts) && i < j <= |acts| && acts[i] == Persist
    ensures End(start, acts[..j]).burned && End(start, acts[..j]).durable
    decreases j
  {
    EndExtends(start, acts, j - 1);
    PrefixIsRun(start, acts, j - 1);
    StepKeepsBurned(acts[j - 1], End(start, acts[..j - 1]));
    if i < j - 1 {
      DurableForever(start, acts, i, j - 1);
    }
  }

  /** After a persist nothing is accepted again, and no restart can undo it. */
  lemma NoAcceptAfterPersist(start: State, acts: seq<Action>, i: nat, j: nat)
    requires IsRun(start, acts) && i < j < |acts| && acts[i] == Persist
    ensures acts[j] != Accept && acts[j] != Restart
  {
    PrefixIsRun(start, acts, j);
    DurableForever(start, acts, i, j);
  }

  lemma OneMore(start: State, acts: seq<Action>, a: Action)
    requires IsRun(start, acts) && Enabled(a, End(start, acts))
    ensures IsRun(start, acts + [a]) && End(start, acts + [a]) == Apply(a, End(start, acts))
  {
    assert (acts + [a])[..|acts|] == acts;
  }

  /** The theorems are about runs that happen: a crash before the persist, then a second accept that is persisted. */
  lemma TicketAcceptedAcrossACrash() returns (acts: seq<Action>)
    ensures IsRun(Start(Free, true), acts) && acts == [Offer, Accept, Restart, Accept, Checkout, Persist]
  {
    var start := Start(Free, true);
    acts := [];
    OneMore(start, acts, Offer);
    acts := acts + [Offer];
    OneMore(start, acts, Accept);
    acts := acts + [Accept];
    OneMore(start, acts, Restart);
    acts := acts + [Restart];
    OneMore(start, acts, Accept);
    acts := acts + [Accept];
    OneMore(start, acts, Checkout);
    acts := acts + [Checkout];
    OneMore(start, acts, Persist);
    acts := acts + [Persist];
  }
}
