/** The session state machine: connectivity, write authorization, audit health and the running operation. */
module Sessions {
  import opened Domain
  import WT = WriteTypes

  /** A point on the monotonic clock, in milliseconds. */
  type Instant = nat

  datatype Identity = Identity(fingerprint: string, profileId: string, profileHash: Digest, observed: string)

  datatype Report = Report(isMatch: bool, details: string)

  datatype SessionFault = TransportFault(cause: WT.BusError) | PortRemovedFault | IdentityChanged | IdentificationFailed

  datatype Connectivity =
    | Connected
    | Reconnecting(attempt: U32, nextRetryAt: Instant, lastError: SessionFault, openInProgress: bool)
    | Faulted(fault: SessionFault)

  datatype DisarmReason =
    | Initial | User | LossOfTransport | Reconnected | AuditDegradation | OperationEnded | ArmingTimeout | IdleTimeout | UnknownOutcome

  datatype Authorization =
    | ProcessDisabled
    | Disarmed(reason: DisarmReason)
    | Arming(challenge: string, expiresAt: Instant)
    | Armed(idleExpiresAt: Instant)

  datatype AuditHealth = Healthy | Degraded(cause: string, since: Instant)

  datatype Operation =
    | Idle
    | SingleWrite(operationId: nat, planId: nat)
    | Restore(operationId: nat, planHash: string, nextIndex: nat)

  datatype ActiveSession = ActiveSession(
    sessionId: nat,
    identity: Identity,
    portIdentity: string,
    connectivity: Connectivity,
    authorization: Authorization,
    auditHealth: AuditHealth,
    operation: Operation)

  datatype State =
    | Disconnected(lastReport: Option<Report>)
    | Connecting(attempt: U32)
    | Identifying(openedPort: string)
    | Active(session: ActiveSession)
    | ShuttingDown

  datatype Input =
    | Connect
    | CancelConnect
    | PortOpened(port: string)
    | PortOpenFailed(cause: SessionFault)
    | IdentificationFinished(report: Report, verified: Option<Identity>, sessionId: nat)
    | Disconnect
    | TransportLost(cause: SessionFault, now: Instant)
    | PortRemoved(now: Instant)
    | ReconnectTimerElapsed(now: Instant)
    | ReconnectPortOpened(port: string)
    | ReconnectFailed(cause: SessionFault, now: Instant)
    | ReconnectIdentificationFinished(report: Report, verified: Option<Identity>, port: string)
    | RetryNow
    | ArmWrites(challenge: string, expiresAt: Instant)
    | ConfirmArming(challenge: string, now: Instant, idleExpiresAt: Instant)
    | CancelArming
    | DisarmWrites
    | ArmingExpired
    | IdleDisarmElapsed
    | WriteConfirmed(operationId: nat, planId: nat)
    | WriteFinished(outcome: WT.WriteOutcome, now: Instant)
    | RestoreStarted(operationId: nat, planHash: string)
    | RestoreAdvanced(nextIndex: nat)
    | RestoreFinished
    | RestoreAborted
    | AuditPersistenceFailed(auditCause: string, now: Instant)
    | Shutdown
    | ShutdownComplete

  datatype Effect =
    | OpenPort | ClosePort | StartIdentification | StartReconnectIdentification | ScheduleReconnect(at: Instant) | CancelReconnect
    | AbortOperation | StopPlanner | FinalizeStorage | ShutdownBusActor | FinalizeLogs | RestoreTerminal

  datatype Transition = Transition(state: State, effects: seq<Effect>)

  // ---------------------------------------------------------------- guards and shared arms

  const RECONNECT_DELAYS: seq<nat> := [250, 500, 1000, 2000, 4000, 8000]

  function ReconnectDelay(attempt: U32): nat {
    RECONNECT_DELAYS[Min(attempt, |RECONNECT_DELAYS| - 1)]
  }

  predicate SameIdentity(left: Identity, right: Identity) {
    left.fingerprint == right.fingerprint && left.profileId == right.profileId && left.profileHash == right.profileHash
  }

  predicate CanArm(a: ActiveSession) {
    a.connectivity.Connected? && a.authorization.Disarmed? && a.auditHealth.Healthy? && a.operation.Idle?
  }

  predicate OperationAllowed(a: ActiveSession) {
    a.connectivity.Connected? && a.authorization.Armed? && a.auditHealth.Healthy? && a.operation.Idle?
  }

  function DisarmedFor(enabled: bool, reason: DisarmReason): Authorization {
    if enabled then Disarmed(reason) else ProcessDisabled
  }

  function NextAttempt(c: Connectivity): U32 {
    if c.Reconnecting? then SaturatingAdd(c.attempt, 1, U32_MAX) else 0
  }

  function Backoff(a: ActiveSession, cause: SessionFault, now: Instant): ActiveSession {
    var attempt := NextAttempt(a.connectivity);
    a.(connectivity := Reconnecting(attempt, now + ReconnectDelay(attempt), cause, false), operation := Idle)
  }

  function LoseTransport(a: ActiveSession, cause: SessionFault, now: Instant): Transition {
    var b := Backoff(a, cause, now);
    Transition(
      Active(b.(authorization := if a.authorization.ProcessDisabled? then ProcessDisabled else Disarmed(LossOfTransport))),
      (if a.operation.Idle? then [] else [AbortOperation]) + [ClosePort, ScheduleReconnect(b.connectivity.nextRetryAt)])
  }

  function FailReconnect(a: ActiveSession, cause: SessionFault, now: Instant, enabled: bool): Transition {
    var b := Backoff(a, cause, now);
    Transition(Active(b.(authorization := DisarmedFor(enabled, LossOfTransport))), [ClosePort, ScheduleReconnect(b.connectivity.nextRetryAt)])
  }

  function EndSession(a: ActiveSession): Transition {
    Transition(Disconnected(None), (if a.operation.Idle? then [] else [AbortOperation]) + [CancelReconnect, StopPlanner, ClosePort])
  }

  function Identified(port: string, report: Report, verified: Option<Identity>, sessionId: nat, enabled: bool): Transition {
    if report.isMatch && verified.Some? then
      Transition(Active(ActiveSession(sessionId, verified.value, port, Connected, DisarmedFor(enabled, Initial), Healthy, Idle)), [])
    else Transition(Disconnected(Some(report)), [ClosePort])
  }

  function Reidentified(a: ActiveSession, report: Report, verified: Option<Identity>, port: string, enabled: bool): Transition {
    if report.isMatch && verified.Some? && SameIdentity(a.identity, verified.value) then
      Transition(Active(a.(portIdentity := port, connectivity := Connected, authorization := DisarmedFor(enabled, Reconnected), operation := Idle)), [])
    else
      Transition(Active(a.(connectivity := Faulted(IdentityChanged), authorization := DisarmedFor(enabled, LossOfTransport), operation := Idle)),
                 [StopPlanner, ClosePort])
  }

  function RetryConnection(a: ActiveSession): Transition
    requires a.connectivity.Reconnecting?
  {
    Transition(Active(a.(connectivity := a.connectivity.(openInProgress := true))), [CancelReconnect, OpenPort])
  }

  function EndWrite(a: ActiveSession, outcome: WT.WriteOutcome, now: Instant, enabled: bool): ActiveSession {
    var b := a.(operation := Idle);
    match outcome
    case Executed(device) =>
      if device.OutcomeUnknown? || device.TransportLost? then b.(authorization := DisarmedFor(enabled, UnknownOutcome))
      else if device.AuditDegraded? then
        b.(authorization := DisarmedFor(enabled, AuditDegradation), auditHealth := Degraded("write audit finalization failed", now))
      else b
    case NotExecuted(decision) =>
      if decision.AuditUnavailable? then
        b.(authorization := DisarmedFor(enabled, AuditDegradation), auditHealth := Degraded("write audit finalization failed", now))
      else b
  }

  // ---------------------------------------------------------------- the reducer

  /** One input to an active session; None when the input does not concern it in its state. */
  function ReduceActive(a: ActiveSession, enabled: bool, input: Input): Option<Transition> {
    match input
    case Disconnect => Some(EndSession(a))
    case TransportLost(cause, now) => Some(LoseTransport(a, cause, now))
    case PortRemoved(now) => Some(LoseTransport(a, PortRemovedFault, now))
    case ReconnectTimerElapsed(now) =>
      if a.connectivity.Reconnecting? && now >= a.connectivity.nextRetryAt then Some(RetryConnection(a)) else None
    case RetryNow => if a.connectivity.Reconnecting? then Some(RetryConnection(a)) else None
    case ReconnectPortOpened(_) =>
      if a.connectivity.Reconnecting? then Some(Transition(Active(a), [StartReconnectIdentification])) else None
    case ReconnectFailed(cause, now) => if a.connectivity.Reconnecting? then Some(FailReconnect(a, cause, now, enabled)) else None
    case ReconnectIdentificationFinished(report, verified, port) => Some(Reidentified(a, report, verified, port, enabled))
    case ArmWrites(challenge, expiresAt) =>
      if CanArm(a) then Some(Transition(Active(a.(authorization := Arming(challenge, expiresAt))), [])) else None
    case ConfirmArming(challenge, now, idleExpiresAt) =>
      if a.authorization.Arming? && a.authorization.challenge == challenge && now <= a.authorization.expiresAt
         && a.auditHealth.Healthy? && a.connectivity.Connected? && a.operation.Idle?
      then Some(Transition(Active(a.(authorization := Armed(idleExpiresAt))), [])) else None
    case CancelArming => Some(Transition(Active(a.(authorization := DisarmedFor(enabled, User))), []))
    case DisarmWrites => Some(Transition(Active(a.(authorization := DisarmedFor(enabled, User))), []))
    case ArmingExpired => Some(Transition(Active(a.(authorization := DisarmedFor(enabled, ArmingTimeout))), []))
    case IdleDisarmElapsed => Some(Transition(Active(a.(authorization := DisarmedFor(enabled, IdleTimeout))), []))
    case WriteConfirmed(operationId, planId) =>
      if OperationAllowed(a) then Some(Transition(Active(a.(operation := SingleWrite(operationId, planId))), [])) else None
    case WriteFinished(outcome, now) =>
      if a.operation.SingleWrite? then Some(Transition(Active(EndWrite(a, outcome, now, enabled)), [])) else None
    case RestoreStarted(operationId, planHash) =>
      if OperationAllowed(a) then Some(Transition(Active(a.(operation := Restore(operationId, planHash, 0))), [])) else None
    case RestoreAdvanced(nextIndex) =>
      if a.operation.Restore? then Some(Transition(Active(a.(operation := a.operation.(nextIndex := nextIndex))), [])) else None
    case RestoreFinished =>
      if a.operation.Restore?
      then Some(Transition(Active(a.(operation := Idle, authorization := DisarmedFor(enabled, OperationEnded))), [])) else None
    case RestoreAborted =>
      if a.operation.Restore?
      then Some(Transition(Active(a.(operation := Idle, authorization := DisarmedFor(enabled, OperationEnded))), [])) else None
    case AuditPersistenceFailed(cause, now) =>
      Some(Transition(
        Active(a.(auditHealth := Degraded(cause, now), authorization := DisarmedFor(enabled, AuditDegradation), operation := Idle)),
        if a.operation.Idle? then [] else [AbortOperation]))
    case _ => None
  }

  function Reduce(state: State, enabled: bool, input: Input): Transition {
    if input.Shutdown? && !state.ShuttingDown? then
      Transition(ShuttingDown, [AbortOperation, StopPlanner, FinalizeStorage, ShutdownBusActor, FinalizeLogs, RestoreTerminal])
    else
      match state
      case Disconnected(_) => if input.Connect? then Transition(Connecting(0), [OpenPort]) else Transition(state, [])
      case Connecting(_) =>
        (match input
         case PortOpened(port) => Transition(Identifying(port), [StartIdentification])
         case PortOpenFailed(_) => Transition(Disconnected(None), [])
         case CancelConnect => Transition(Disconnected(None), [ClosePort])
         case _ => Transition(state, []))
      case Identifying(port) =>
        (match input
         case CancelConnect => Transition(Disconnected(None), [ClosePort])
         case IdentificationFinished(report, verified, sessionId) => Identified(port, report, verified, sessionId, enabled)
         case _ => Transition(state, []))
      case Active(a) =>
        var moved := ReduceActive(a, enabled, input);
        if moved.Some? then moved.value else Transition(state, [])
      case ShuttingDown => if input.ShutdownComplete? then Transition(Disconnected(None), []) else Transition(state, [])
  }

  class SessionStateMachine {
    var state: State
    const processWritesEnabled: bool

    constructor (processWritesEnabled: bool)
      ensures this.processWritesEnabled == processWritesEnabled && state == Disconnected(None)
    {
      this.processWritesEnabled := processWritesEnabled;
      state := Disconnected(None);
    }

    method Step(input: Input) returns (effects: seq<Effect>)
      requires Sane(processWritesEnabled, state)
      modifies this
      ensures Transition(state, effects) == Reduce(old(state), processWritesEnabled, input)
      ensures Sane(processWritesEnabled, state)
    {
      var transition := Reduce(state, processWritesEnabled, input);
      StepStaysSane(state, processWritesEnabled, input);
      state := transition.state;
      return transition.effects;
    }
  }

  // ---------------------------------------------------------------- the invariant

  /** Writes can only be armed, being armed or under way on a connected and audited session, and never when
      the process forbids them. */
  ghost predicate Sane(enabled: bool, state: State) {
    state.Active? ==>
      var a := state.session;
      && (a.authorization.ProcessDisabled? <==> !enabled)
      && (a.authorization.Armed? || a.authorization.Arming? ==> a.connectivity.Connected? && a.auditHealth.Healthy?)
      && (a.authorization.Arming? ==> a.operation.Idle?)
      && (!a.operation.Idle? ==> a.connectivity.Connected? && a.auditHealth.Healthy?)
  }

  lemma StepStaysSane(state: State, enabled: bool, input: Input)
    requires Sane(enabled, state)
    ensures Sane(enabled, Reduce(state, enabled, input).state)
  {
    if state.Active? && !(input.Shutdown?) {
      match input
      case TransportLost(_, _) =>
      case PortRemoved(_) =>
      case WriteFinished(_, _) =>
      case _ =>
    }
  }

  /** The state after `inputs`, starting from a fresh machine. */
  function After(enabled: bool, inputs: seq<Input>): State {
    if inputs == [] then Disconnected(None)
    else Reduce(After(enabled, inputs[..|inputs| - 1]), enabled, inputs[|inputs| - 1]).state
  }

  /** The state before input `n` of a run. */
  function Before(enabled: bool, inputs: seq<Input>, n: nat): State
    requires n <= |inputs|
  {
    After(enabled, inputs[..n])
  }

  lemma StartsDisconnected(enabled: bool, inputs: seq<Input>)
    ensures Before(enabled, inputs, 0) == Disconnected(None)
  {
  }

  lemma Moves(enabled: bool, inputs: seq<Input>, n: nat)
    requires n < |inputs|
    ensures Before(enabled, inputs, n + 1) == Reduce(Before(enabled, inputs, n), enabled, inputs[n]).state
  {
    assert inputs[..n + 1][..n] == inputs[..n];
  }

  lemma {:induction false} EveryRunIsSane(enabled: bool, inputs: seq<Input>)
    ensures Sane(enabled, After(enabled, inputs))
  {
    if inputs != [] {
      var n := |inputs| - 1;
      EveryRunIsSane(enabled, inputs[..n]);
      StepStaysSane(After(enabled, inputs[..n]), enabled, inputs[n]);
    }
  }

  // ---------------------------------------------------------------- one session, one identity

  /** However the connection breaks and comes back, an active session keeps its id and the identity it was
      verified with. */
  lemma {:induction false} SessionKeepsIdentity(enabled: bool, inputs: seq<Input>, i: nat, j: nat)
    requires i <= j <= |inputs|
    requires forall k :: i <= k <= j ==> Before(enabled, inputs, k).Active?
    ensures Before(enabled, inputs, j).session.sessionId == Before(enabled, inputs, i).session.sessionId
    ensures Before(enabled, inputs, j).session.identity == Before(enabled, inputs, i).session.identity
    decreases j - i
  {
    hide After;
    if i < j {
      SessionKeepsIdentity(enabled, inputs, i, j - 1);
      Moves(enabled, inputs, j - 1);
    }
  }

  // ---------------------------------------------------------------- nothing starts unarmed

  /** Inputs that take an active session out of the armed state, whatever else it is in. */
  predicate Revokes(input: Input) {
    || input.Disconnect? || input.Shutdown? || input.TransportLost? || input.PortRemoved? || input.ReconnectIdentificationFinished?
    || input.CancelArming? || input.DisarmWrites? || input.ArmingExpired? || input.IdleDisarmElapsed? || input.AuditPersistenceFailed?
  }

  /** `input` starts an operation in `state`. */
  predicate Starts(state: State, input: Input) {
    state.Active? && OperationAllowed(state.session) && (input.WriteConfirmed? || input.RestoreStarted?)
  }

  ghost predicate ArmedIn(state: State) {
    state.Active? && state.session.authorization.Armed?
  }

  ghost predicate ArmingIn(state: State, challenge: string, expiresAt: Instant) {
    state.Active? && state.session.authorization == Arming(challenge, expiresAt)
  }

  /** How a session came to be armed: a matching confirmation, in time, and armed ever since. */
  lemma {:induction false} ArmedSince(enabled: bool, inputs: seq<Input>, n: nat) returns (c: nat)
    requires n <= |inputs| && ArmedIn(Before(enabled, inputs, n))
    ensures c < n && inputs[c].ConfirmArming?
    ensures Before(enabled, inputs, c).Active? && Before(enabled, inputs, c).session.authorization.Arming?
    ensures Before(enabled, inputs, c).session.authorization.challenge == inputs[c].challenge
    ensures inputs[c].now <= Before(enabled, inputs, c).session.authorization.expiresAt
    ensures forall k :: c < k <= n ==> ArmedIn(Before(enabled, inputs, k))
    ensures forall k :: c <= k < n ==> !Revokes(inputs[k])
  {
    hide After;
    StartsDisconnected(enabled, inputs);
    c := n - 1;
    Moves(enabled, inputs, c);
    if ArmedIn(Before(enabled, inputs, c)) {
      c := ArmedSince(enabled, inputs, n - 1);
    }
  }

  lemma {:induction false} ArmingSince(enabled: bool, inputs: seq<Input>, n: nat, challenge: string, expiresAt: Instant) returns (a: nat)
    requires n <= |inputs| && ArmingIn(Before(enabled, inputs, n), challenge, expiresAt)
    ensures a < n && inputs[a] == ArmWrites(challenge, expiresAt)
    ensures Before(enabled, inputs, a).Active? && CanArm(Before(enabled, inputs, a).session)
    ensures forall k :: a < k <= n ==> ArmingIn(Before(enabled, inputs, k), challenge, expiresAt)
    ensures forall k :: a <= k < n ==> !Revokes(inputs[k])
  {
    hide After;
    StartsDisconnected(enabled, inputs);
    a := n - 1;
    Moves(enabled, inputs, a);
    if ArmingIn(Before(enabled, inputs, a), challenge, expiresAt) {
      a := ArmingSince(enabled, inputs, n - 1, challenge, expiresAt);
    }
  }

  /** Every operation that starts was armed for: an arming request with a challenge, then a confirmation of the
      same challenge in time, in the same session, with nothing between the request and the start that
      revokes the authorization, and on a connected and audited session throughout. */
  lemma StartsAreArmed(enabled: bool, inputs: seq<Input>, n: nat) returns (a: nat, c: nat)
    requires n < |inputs| && Starts(Before(enabled, inputs, n), inputs[n])
    ensures a < c < n && inputs[a].ArmWrites? && inputs[c].ConfirmArming?
    ensures inputs[a].challenge == inputs[c].challenge && inputs[c].now <= inputs[a].expiresAt
    ensures forall k :: a <= k < n ==> !Revokes(inputs[k])
    ensures forall k :: c < k <= n ==> ArmedIn(Before(enabled, inputs, k))
    ensures forall k :: a <= k <= n ==>
              && Before(enabled, inputs, k).Active?
              && Before(enabled, inputs, k).session.sessionId == Before(enabled, inputs, n).session.sessionId
              && Before(enabled, inputs, k).session.connectivity.Connected? && Before(enabled, inputs, k).session.auditHealth.Healthy?
    ensures enabled
  {
    c := ArmedSince(enabled, inputs, n);
    var authorization := Before(enabled, inputs, c).session.authorization;
    a := ArmingSince(enabled, inputs, c, authorization.challenge, authorization.expiresAt);
    assert forall k :: a <= k <= n ==> Before(enabled, inputs, k).Active?;
    forall k | a <= k <= n
      ensures Before(enabled, inputs, k).session.sessionId == Before(enabled, inputs, n).session.sessionId
      ensures Before(enabled, inputs, k).session.connectivity.Connected? && Before(enabled, inputs, k).session.auditHealth.Healthy?
    {
      SessionKeepsIdentity(enabled, inputs, k, n);
      EveryRunIsSane(enabled, inputs[..k]);
    }
    EveryRunIsSane(enabled, inputs[..n]);
  }

  /** Once its audit is degraded a session never starts an operation again; only a new session does. */
  lemma {:induction false} DegradedNeverStarts(enabled: bool, inputs: seq<Input>, i: nat, n: nat)
    requires i <= n < |inputs|
    requires Before(enabled, inputs, i).Active? && Before(enabled, inputs, i).session.auditHealth.Degraded?
    requires forall k :: i <= k <= n ==> Before(enabled, inputs, k).Active?
    ensures Before(enabled, inputs, n).session.auditHealth.Degraded?
    ensures !Starts(Before(enabled, inputs, n), inputs[n])
    decreases n - i
  {
    hide After;
    if i < n {
      DegradedNeverStarts(enabled, inputs, i, n - 1);
      Moves(enabled, inputs, n - 1);
    }
  }

  // ---------------------------------------------------------------- dropped operations are announced

  predicate Busy(state: State) {
    state.Active? && !state.session.operation.Idle?
  }

  /** `input` reports the end of the operation that is running. */
  predicate Finishes(state: State, input: Input)
    requires Busy(state)
  {
    if state.session.operation.SingleWrite? then input.WriteFinished? else input.RestoreFinished? || input.RestoreAborted?
  }

  /** An operation that stops running without having reported its end is announced as aborted, except when an
      identification result arrives in the middle of it. Shutdown announces an abort in any case. */
  lemma DroppedOperationsAreAborted(enabled: bool, state: State, input: Input)
    requires Sane(enabled, state)
    ensures var next := Reduce(state, enabled, input);
            AbortOperation in next.effects <==>
              || (input.Shutdown? && !state.ShuttingDown?)
              || (Busy(state) && !Busy(next.state) && !Finishes(state, input) && !input.ReconnectIdentificationFinished?)
  {
    if state.Active? && !input.Shutdown? {
      match input
      case WriteFinished(_, _) =>
      case TransportLost(_, _) =>
      case PortRemoved(_) =>
      case _ =>
    }
  }

  /** The exception is real: this run drops a write in progress and announces nothing. */
  lemma UnannouncedDrop(identity: Identity) returns (inputs: seq<Input>, last: Input)
    ensures Busy(After(true, inputs)) && last.ReconnectIdentificationFinished?
    ensures !Busy(Reduce(After(true, inputs), true, last).state) && AbortOperation !in Reduce(After(true, inputs), true, last).effects
  {
    hide After;
    var found := Report(true, "");
    var opening := [Connect, PortOpened("p"), IdentificationFinished(found, Some(identity), 1)];
    OpeningRun(opening, found, identity);
    var armed := opening + [ArmWrites("c", 10)];
    Appended(true, opening, ArmWrites("c", 10));
    var confirmed := armed + [ConfirmArming("c", 5, 20)];
    Appended(true, armed, ConfirmArming("c", 5, 20));
    inputs := confirmed + [WriteConfirmed(1, 1)];
    Appended(true, confirmed, WriteConfirmed(1, 1));
    last := ReconnectIdentificationFinished(found, Some(identity), "p");
  }

  lemma Appended(enabled: bool, inputs: seq<Input>, input: Input)
    ensures After(enabled, inputs + [input]) == Reduce(After(enabled, inputs), enabled, input).state
  {
    assert (inputs + [input])[..|inputs|] == inputs;
  }

  lemma OpeningRun(inputs: seq<Input>, found: Report, identity: Identity)
    requires found.isMatch && inputs == [Connect, PortOpened("p"), IdentificationFinished(found, Some(identity), 1)]
    ensures After(true, inputs) == Active(ActiveSession(1, identity, "p", Connected, Disarmed(Initial), Healthy, Idle))
  {
    Appended(true, [], Connect);
    Appended(true, [Connect], PortOpened("p"));
    Appended(true, [Connect, PortOpened("p")], IdentificationFinished(found, Some(identity), 1));
    assert [] + [Connect] == [Connect];
    assert [Connect] + [PortOpened("p")] == [Connect, PortOpened("p")];
    assert [Connect, PortOpened("p")] + [IdentificationFinished(found, Some(identity), 1)] == inputs;
  }

  // ---------------------------------------------------------------- effects

  function Order(effect: Effect): nat {
    match effect
    case AbortOperation => 0
    case CancelReconnect => 1
    case StopPlanner => 2
    case FinalizeStorage => 3
    case ShutdownBusActor => 4
    case FinalizeLogs => 5
    case RestoreTerminal => 6
    case ClosePort => 7
    case OpenPort => 8
    case ScheduleReconnect(_) => 9
    case StartIdentification => 10
    case StartReconnectIdentification => 11
  }

  /** In every transition the effects come in one fixed order, each at most once: an operation is aborted
      before anything else, the planner stops before the port closes, and the port closes before a reconnect
      is scheduled. */
  lemma EffectsAreOrdered(state: State, enabled: bool, input: Input)
    ensures var effects := Reduce(state, enabled, input).effects;
            forall i, j :: 0 <= i < j < |effects| ==> Order(effects[i]) < Order(effects[j])
  {
    hide EndWrite, SameIdentity;
  }

  /** The planner is stopped exactly when an active session ends or comes back as another device. */
  lemma PlannerStopsWithTheSession(state: State, enabled: bool, input: Input)
    ensures var next := Reduce(state, enabled, input);
            StopPlanner in next.effects <==>
              || (input.Shutdown? && !state.ShuttingDown?)
              || (state.Active? && next.state.Disconnected?)
              || (state.Active? && input.ReconnectIdentificationFinished? && next.state.session.connectivity.Faulted?)
  {
    hide EndWrite;
  }

  /** What the end of a write leaves armed: it stays armed exactly if the device's state is known and the
      audit is durable. */
  lemma ArmedAfterWrite(enabled: bool, a: ActiveSession, outcome: WT.WriteOutcome, now: Instant)
    requires Sane(enabled, Active(a)) && a.operation.SingleWrite?
    ensures var next := Reduce(Active(a), enabled, WriteFinished(outcome, now)).state;
            && next.Active? && next.session.operation.Idle?
            && (next.session.authorization.Armed? <==>
                  && a.authorization.Armed?
                  && outcome != WT.NotExecuted(WT.AuditUnavailable)
                  && (outcome.Executed? ==> outcome.device in {WT.Verified, WT.DeviceRejected, WT.ReadBackMismatch}))
            && (next.session.auditHealth.Degraded? <==>
                  outcome == WT.NotExecuted(WT.AuditUnavailable) || outcome == WT.Executed(WT.AuditDegraded))
  {
  }

  // ---------------------------------------------------------------- reconnecting

  function Doubled(ms: nat, times: nat): nat {
    if times == 0 then ms else 2 * Doubled(ms, times - 1)
  }

  lemma {:induction false} DoublingGrows(times: nat)
    ensures Doubled(250, times + 5) >= 8000
  {
    if times > 0 {
      DoublingGrows(times - 1);
    } else {
      assert Doubled(250, 2) == 1000 && Doubled(250, 3) == 2000 && Doubled(250, 4) == 4000;
    }
  }

  /** The delay doubles from 250 ms and is capped at 8 s. */
  lemma DelayDoublesUpToCap(attempt: U32)
    ensures ReconnectDelay(attempt) == Min(Doubled(250, attempt), 8000)
  {
    if attempt >= 5 {
      DoublingGrows(attempt - 5);
    } else {
      assert Doubled(250, 1) == 500;
      assert Doubled(250, 2) == 1000;
      assert Doubled(250, 3) == 2000;
    }
  }

  /** After a loss and any number of failed reconnects in a row the next try is scheduled by exactly as many
      doublings, and is announced. */
  lemma {:induction false} BackoffCountsFailures(enabled: bool, before: ActiveSession, loss: Input, failures: seq<Input>)
    requires before.connectivity.Connected?
    requires loss.TransportLost? || loss.PortRemoved?
    requires |failures| <= U32_MAX && forall k :: 0 <= k < |failures| ==> failures[k].ReconnectFailed?
    ensures var end := Replay(enabled, Reduce(Active(before), enabled, loss), failures);
            && end.state.Active? && end.state.session.connectivity.Reconnecting?
            && end.state.session.connectivity.attempt == |failures|
            && (var at := (if failures == [] then loss.now else failures[|failures| - 1].now) + Min(Doubled(250, |failures|), 8000);
                end.state.session.connectivity.nextRetryAt == at && ScheduleReconnect(at) in end.effects)
  {
    DelayDoublesUpToCap(|failures|);
    if failures != [] {
      BackoffCountsFailures(enabled, before, loss, failures[..|failures| - 1]);
    }
  }

  /** The last transition of a replayed list of inputs. */
  function Replay(enabled: bool, first: Transition, inputs: seq<Input>): Transition {
    if inputs == [] then first
    else Reduce(Replay(enabled, first, inputs[..|inputs| - 1]).state, enabled, inputs[|inputs| - 1])
  }

  /** An active session opens the port again only when its retry is due or the user asks for it. */
  lemma NoEarlyReconnect(enabled: bool, a: ActiveSession, input: Input)
    ensures OpenPort in Reduce(Active(a), enabled, input).effects <==>
            && a.connectivity.Reconnecting?
            && (input.RetryNow? || (input.ReconnectTimerElapsed? && input.now >= a.connectivity.nextRetryAt))
  {
    match input
    case TransportLost(_, _) =>
    case _ =>
  }
}
