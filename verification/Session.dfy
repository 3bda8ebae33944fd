/** The TCP session table, for every reconnect bound. */
module Session {

  datatype Phase = Idle | Authed | Epoch0 | RekeyWait | Rekeyed | Verified | App | Rejected | Closed | Failed
  datatype Replay = NoReplay | Pending | Replayed | Stale | Full | Inserted
  datatype Udp = NoUdp | Retained | TcpOnly
  datatype How = NoHow | Splice | Degen | RekeyDegen

  datatype State = State(
    phase: Phase, epoch: int, binding: bool, keys: bool, usable: bool, replay: Replay, attempt: int,
    app: bool, udp: Udp, how: How)

  datatype Action =
    | AuthFail | MissingSni | UnauthorizedSni | AuthOk | DegenerateSharedSecret | InstallEpoch0 | SendRekey
    | ReplayReplayed | ReplayStale | ReplayCacheFull | RekeyMalformed | RekeyDegenerate | VerifyBeforeBinding
    | RekeyOk | IdentityOk | IdentityFail | EnterApp | ProbeRetain | ProbeStayTcp | Close | TransportError | Reconnect

  const START: State := State(Idle, 0, false, false, false, NoReplay, 0, false, NoUdp, NoHow)

  predicate Live(s: State) {
    s.phase in {Epoch0, RekeyWait, Rekeyed, Verified, App}
  }

  predicate Ended(s: State) {
    s.phase in {Rejected, Closed, Failed}
  }

  /** Guards; `bound` is the number of reconnects allowed, 2 in the table. */
  predicate Enabled(bound: int, a: Action, s: State) {
    match a
    case AuthFail => s.phase == Idle
    case MissingSni => s.phase == Idle
    case UnauthorizedSni => s.phase == Idle
    case AuthOk => s.phase == Idle
    case DegenerateSharedSecret => s.phase == Authed
    case InstallEpoch0 => s.phase == Authed
    case SendRekey => s.phase == Epoch0 && s.usable && !s.binding
    case ReplayReplayed => s.phase == RekeyWait && s.replay == Pending
    case ReplayStale => s.phase == RekeyWait && s.replay == Pending
    case ReplayCacheFull => s.phase == RekeyWait && s.replay == Pending
    case RekeyMalformed => s.phase == RekeyWait
    case RekeyDegenerate => s.phase == RekeyWait && s.replay == Pending
    case VerifyBeforeBinding => s.phase == Epoch0 || s.phase == RekeyWait
    case RekeyOk => s.phase == RekeyWait && s.replay == Pending && s.usable
    case IdentityOk => s.phase == Rekeyed && s.binding && s.epoch == 1
    case IdentityFail => s.phase == Rekeyed
    case EnterApp => s.phase == Verified && s.binding && s.epoch == 1 && s.usable
    case ProbeRetain => s.phase == App && s.udp == NoUdp
    case ProbeStayTcp => s.phase == App && s.udp == NoUdp
    case Close => Live(s)
    case TransportError => Live(s)
    case Reconnect => Ended(s) && s.attempt < bound
  }

  function Drop(s: State): State {
    s.(usable := false, app := false, udp := NoUdp)
  }

  function Apply(a: Action, s: State): State {
    match a
    case AuthFail => s.(phase := Failed, how := Splice)
    case MissingSni => s.(phase := Failed, how := Splice)
    case UnauthorizedSni => s.(phase := Failed, how := Splice)
    case AuthOk => s.(phase := Authed)
    case DegenerateSharedSecret => s.(phase := Failed, how := Degen)
    case InstallEpoch0 => s.(phase := Epoch0, keys := true, usable := true)
    case SendRekey => s.(phase := RekeyWait, replay := Pending)
    case ReplayReplayed => Drop(s).(phase := Rejected, replay := Replayed)
    case ReplayStale => Drop(s).(phase := Rejected, replay := Stale)
    case ReplayCacheFull => Drop(s).(phase := Rejected, replay := Full)
    case RekeyMalformed => Drop(s).(phase := Failed)
    case RekeyDegenerate => Drop(s).(phase := Failed, replay := Inserted, how := RekeyDegen)
    case VerifyBeforeBinding => Drop(s).(phase := Failed)
    case RekeyOk => s.(phase := Rekeyed, replay := Inserted, epoch := s.epoch + 1, binding := true)
    case IdentityOk => s.(phase := Verified)
    case IdentityFail => Drop(s).(phase := Failed)
    case EnterApp => s.(phase := App, app := true)
    case ProbeRetain => s.(udp := Retained)
    case ProbeStayTcp => s.(udp := TcpOnly)
    case Close => Drop(s).(phase := Closed)
    case TransportError => Drop(s).(phase := Failed)
    case Reconnect =>
      State(Idle, 0, false, false, false, NoReplay, s.attempt + 1, false, NoUdp, NoHow)
  }

  predicate IsRun(bound: int, acts: seq<Action>) {
    acts == [] || (IsRun(bound, acts[..|acts| - 1]) && Enabled(bound, acts[|acts| - 1], End(acts[..|acts| - 1])))
  }

  function End(acts: seq<Action>): State {
    if acts == [] then START else Apply(acts[|acts| - 1], End(acts[..|acts| - 1]))
  }

  function Reconnects(acts: seq<Action>): nat {
    if acts == [] then 0
    else Reconnects(acts[..|acts| - 1]) + if acts[|acts| - 1] == Reconnect then 1 else 0
  }

  // ----- the table's claims -----

  predicate AppOnlyAfterIdentity(s: State) {
    s.app ==> s.phase == App && s.binding && s.epoch == 1 && s.usable && s.keys
  }

  predicate VerifiedImpliesBinding(s: State) {
    s.phase in {Verified, App} ==> s.binding && s.epoch == 1 && s.keys && s.usable
  }

  predicate RekeyedImpliesFreshCommit(s: State) {
    s.phase == Rekeyed ==> s.replay == Inserted && s.binding && s.epoch == 1 && s.usable
  }

  predicate ReplayClosesBeforeRekey(s: State) {
    s.replay in {Replayed, Stale, Full} ==> s.phase == Rejected && s.epoch == 0 && !s.binding && !s.app && !s.usable
  }

  predicate IdleAndReconnectAreFresh(s: State) {
    s.phase == Idle ==>
      s.epoch == 0 && !s.binding && !s.keys && !s.usable && !s.app && s.udp == NoUdp && s.replay == NoReplay && s.how == NoHow
  }

  predicate AuthedHasNoKeys(s: State) {
    s.phase == Authed ==> s.epoch == 0 && !s.keys && !s.usable && !s.binding && s.how == NoHow
  }

  predicate PostAuthDegenerateDoesNotSplice(s: State) {
    s.how == Degen ==> s.phase == Failed && !s.keys && !s.usable && s.epoch == 0 && !s.binding && !s.app
  }

  predicate RekeyDegenerateStaysAtEpochZero(s: State) {
    s.how == RekeyDegen ==>
      s.phase == Failed && s.epoch == 0 && s.keys && !s.usable && !s.binding && !s.app && s.replay == Inserted
  }

  predicate SpliceIsTheInboundReject(s: State) {
    s.how == Splice ==> s.phase == Failed && !s.keys && s.epoch == 0 && !s.binding
  }

  predicate TerminalDropsUsableKeys(s: State) {
    Ended(s) ==> !s.usable && !s.app && s.udp == NoUdp
  }

  predicate UdpRetainOnlyAfterApp(s: State) {
    s.udp == Retained ==> s.phase == App && s.app && s.usable
  }

  predicate UdpDeclineStaysOnApp(s: State) {
    s.udp == TcpOnly ==> s.phase == App && s.app && s.usable
  }

  predicate UsableKeysImplyAuth(s: State) {
    (s.usable ==> s.keys) && (s.keys ==> s.phase != Idle)
  }

  predicate EpochIsZeroOrOne(s: State) {
    s.epoch == 0 || s.epoch == 1
  }

  predicate RejectedOnlyAfterReplay(s: State) {
    s.phase == Rejected ==> s.replay in {Replayed, Stale, Full}
  }

  predicate BindingMeansRekeyedEpoch(s: State) {
    s.binding ==> s.epoch == 1 && s.replay == Inserted && s.phase in {Rekeyed, Verified, App, Closed, Failed}
  }

  /** Every claim of the table but the attempt bound. */
  predicate Claims(s: State) {
    && AppOnlyAfterIdentity(s) && VerifiedImpliesBinding(s) && RekeyedImpliesFreshCommit(s)
    && ReplayClosesBeforeRekey(s) && IdleAndReconnectAreFresh(s) && AuthedHasNoKeys(s)
    && PostAuthDegenerateDoesNotSplice(s) && RekeyDegenerateStaysAtEpochZero(s) && SpliceIsTheInboundReject(s)
    && TerminalDropsUsableKeys(s) && UdpRetainOnlyAfterApp(s) && UdpDeclineStaysOnApp(s)
    && UsableKeysImplyAuth(s) && EpochIsZeroOrOne(s) && RejectedOnlyAfterReplay(s) && BindingMeansRekeyedEpoch(s)
  }

  // ----- what each phase looks like -----

  predicate Quiet(s: State) {
    !s.usable && !s.app && s.udp == NoUdp
  }

  /** Nothing installed, nothing committed. */
  predicate Bare(s: State) {
    Quiet(s) && s.epoch == 0 && !s.binding && !s.keys && s.replay == NoReplay
  }

  predicate Bound(s: State) {
    s.epoch == 1 && s.binding && s.keys && s.usable && s.replay == Inserted && s.how == NoHow
  }

  /** A session that had keys and lost them: rekeyed with a fresh insert, or still at epoch 0. */
  predicate Spent(s: State) {
    && Quiet(s) && s.keys
    && (if s.binding then s.epoch == 1 && s.replay == Inserted else s.epoch == 0 && s.replay in {NoReplay, Pending})
  }

  /** The state each phase allows: inductive, and stronger than the claims together. */
  predicate PhaseShape(s: State) {
    match s.phase
    case Idle => Bare(s) && s.how == NoHow
    case Authed => Bare(s) && s.how == NoHow
    case Epoch0 => s.epoch == 0 && !s.binding && s.keys && s.usable && s.replay == NoReplay && !s.app && s.udp == NoUdp && s.how == NoHow
    case RekeyWait => s.epoch == 0 && !s.binding && s.keys && s.usable && s.replay == Pending && !s.app && s.udp == NoUdp && s.how == NoHow
    case Rekeyed => Bound(s) && !s.app && s.udp == NoUdp
    case Verified => Bound(s) && !s.app && s.udp == NoUdp
    case App => Bound(s) && s.app
    case Rejected => Quiet(s) && s.keys && s.epoch == 0 && !s.binding && s.replay in {Replayed, Stale, Full} && s.how == NoHow
    case Closed => Spent(s) && s.how == NoHow
    case Failed =>
      match s.how
      case NoHow => Spent(s)
      case Splice => Bare(s)
      case Degen => Bare(s)
      case RekeyDegen => Quiet(s) && s.keys && s.epoch == 0 && !s.binding && s.replay == Inserted
  }

  lemma StepKeepsShape(bound: int, a: Action, s: State)
    requires PhaseShape(s) && Enabled(bound, a, s)
    ensures PhaseShape(Apply(a, s))
  {
  }

  lemma ShapeIsClaims(s: State)
    requires PhaseShape(s)
    ensures Claims(s)
  {
  }

  lemma {:induction false} RunKeepsShape(bound: int, acts: seq<Action>)
    requires IsRun(bound, acts)
    ensures PhaseShape(End(acts)) && End(acts).attempt == Reconnects(acts)
    ensures Reconnects(acts) > 0 ==> Reconnects(acts) <= bound
  {
    if acts != [] {
      var short, a := acts[..|acts| - 1], acts[|acts| - 1];
      RunKeepsShape(bound, short);
      StepKeepsShape(bound, a, End(short));
    }
  }

  /** Every claim holds after every run, whatever the reconnect bound; the attempt counts the reconnects. */
  lemma ClaimsHoldForEveryBound(bound: int, acts: seq<Action>)
    requires IsRun(bound, acts)
    ensures Claims(End(acts))
    ensures End(acts).attempt == Reconnects(acts) && (Reconnects(acts) > 0 ==> Reconnects(acts) <= bound)
  {
    RunKeepsShape(bound, acts);
    ShapeIsClaims(End(acts));
  }
}
