/** The session machine read the other way round: for each thing that can change, exactly when it changes and to
    what. Together with the fixed order of effects this leaves no transition open. */
module SessionChanges {
  import opened Domain
  import WT = WriteTypes
  import opened Sessions

  // ---------------------------------------------------------------- identification

  /** The device that answered is the one the session belongs to: it matched a profile, and its verified
      fingerprint, profile and profile hash are the session's. */
  ghost predicate SameDevice(identity: Identity, report: Report, verified: Option<Identity>) {
    && report.isMatch && verified.Some?
    && verified.value.fingerprint == identity.fingerprint
    && verified.value.profileId == identity.profileId
    && verified.value.profileHash == identity.profileHash
  }

  /** A reconnect brings a session back exactly if the same device answered; it comes back disarmed and idle, on
      the new port. With any other answer it is faulted for a changed identity, disarmed and idle, the planner
      stops and the port closes. Its id and identity stay in either case. */
  lemma ReconnectIsVerified(a: ActiveSession, enabled: bool, report: Report, verified: Option<Identity>, port: string)
    ensures var next := Reduce(Active(a), enabled, ReconnectIdentificationFinished(report, verified, port));
            && next.state.Active? && next.state.session.sessionId == a.sessionId && next.state.session.identity == a.identity
            && next.state.session.auditHealth == a.auditHealth && next.state.session.operation == Idle
            && (next.state.session.connectivity.Connected? <==> SameDevice(a.identity, report, verified))
            && if SameDevice(a.identity, report, verified) then
                 && next.effects == [] && next.state.session.portIdentity == port
                 && next.state.session.authorization == if enabled then Disarmed(Reconnected) else ProcessDisabled
               else
                 && next.effects == [StopPlanner, ClosePort] && next.state.session.portIdentity == a.portIdentity
                 && next.state.session.connectivity == Faulted(IdentityChanged)
                 && next.state.session.authorization == if enabled then Disarmed(LossOfTransport) else ProcessDisabled
  {
  }

  /** A session begins exactly with a matching report about a verified device, on the port that was opened, with
      the id that was given, disarmed, idle and healthy. */
  lemma SessionBeginsExactlyWhen(state: State, enabled: bool, input: Input)
    ensures var next := Reduce(state, enabled, input);
            (!state.Active? && next.state.Active?) <==>
              state.Identifying? && input.IdentificationFinished? && input.report.isMatch && input.verified.Some?
    ensures !state.Active? && Reduce(state, enabled, input).state.Active? ==>
              && Reduce(state, enabled, input).state.session ==
                 ActiveSession(input.sessionId, input.verified.value, state.openedPort, Connected,
                               if enabled then Disarmed(Initial) else ProcessDisabled, Healthy, Idle)
              && Reduce(state, enabled, input).effects == []
  {
  }

  ghost predicate ConnectedIn(state: State) {
    state.Active? && state.session.connectivity.Connected?
  }

  /** Over any run: whenever a session becomes connected, a matching identification of a verified device was the
      input, and if the session was there before, the device was its own. */
  lemma ConnectedOnlyWhenVerified(enabled: bool, inputs: seq<Input>, n: nat)
    requires n < |inputs| && !ConnectedIn(Before(enabled, inputs, n)) && ConnectedIn(Before(enabled, inputs, n + 1))
    ensures var before, after := Before(enabled, inputs, n), Before(enabled, inputs, n + 1).session;
            if before.Active? then
              && inputs[n].ReconnectIdentificationFinished?
              && SameDevice(before.session.identity, inputs[n].report, inputs[n].verified)
              && after.identity == before.session.identity
            else
              && inputs[n].IdentificationFinished?
              && inputs[n].report.isMatch && inputs[n].verified == Some(after.identity)
  {
    hide After;
    Moves(enabled, inputs, n);
    var before := Before(enabled, inputs, n);
    match inputs[n]
    case ReconnectIdentificationFinished(report, verified, port) =>
      if before.Active? { ReconnectIsVerified(before.session, enabled, report, verified, port); }
    case WriteFinished(_, _) =>
    case _ =>
  }

  /** Inputs that only an active session reacts to by its own fields, without effects. */
  ghost predicate Quiet(input: Input) {
    || input.ArmWrites? || input.ConfirmArming? || input.CancelArming? || input.DisarmWrites? || input.ArmingExpired?
    || input.IdleDisarmElapsed? || input.WriteConfirmed? || input.WriteFinished? || input.RestoreStarted? || input.RestoreAdvanced?
    || input.RestoreFinished? || input.RestoreAborted?
  }

  lemma ActiveMoves(a: ActiveSession, enabled: bool, input: Input)
    requires !input.Shutdown?
    ensures var moved := ReduceActive(a, enabled, input);
            Reduce(Active(a), enabled, input) == if moved.Some? then moved.value else Transition(Active(a), [])
  {
    hide ReduceActive;
  }

  /** Such an input leaves session, port and connectivity alone and asks for nothing. */
  lemma QuietMeans(a: ActiveSession, enabled: bool, input: Input)
    requires Quiet(input)
    ensures var next := Reduce(Active(a), enabled, input);
            && next.effects == [] && next.state.Active?
            && next.state.session == a.(authorization := next.state.session.authorization, auditHealth := next.state.session.auditHealth,
                                        operation := next.state.session.operation)
  {
    hide Reduce;
    ActiveMoves(a, enabled, input);
  }

  // ---------------------------------------------------------------- connectivity

  /** How long to wait before retry number `attempt`. */
  function Wait(attempt: U32): nat {
    Min(Doubled(250, attempt), 8000)
  }

  /** Why the transport is gone, if `input` says so: it was lost, the port was removed, or reopening it failed. */
  function Broken(a: ActiveSession, input: Input): Option<SessionFault> {
    if input.TransportLost? then Some(input.cause)
    else if input.PortRemoved? then Some(PortRemovedFault)
    else if input.ReconnectFailed? && a.connectivity.Reconnecting? then Some(input.cause)
    else None
  }

  /** The number of retries that failed in a row, after one more. */
  function FailedRetries(c: Connectivity): U32 {
    if c.Reconnecting? then Min(c.attempt + 1, U32_MAX) else 0
  }

  /** A retry is asked for or due. */
  ghost predicate Retries(a: ActiveSession, input: Input) {
    a.connectivity.Reconnecting? && (input.RetryNow? || (input.ReconnectTimerElapsed? && a.connectivity.nextRetryAt <= input.now))
  }

  ghost function ConnectivityAfter(a: ActiveSession, input: Input): Connectivity {
    if Broken(a, input).Some? then
      var attempt := FailedRetries(a.connectivity);
      Reconnecting(attempt, input.now + Wait(attempt), Broken(a, input).value, false)
    else if Retries(a, input) then a.connectivity.(openInProgress := true)
    else if input.ReconnectIdentificationFinished? then
      if SameDevice(a.identity, input.report, input.verified) then Connected else Faulted(IdentityChanged)
    else a.connectivity
  }

  lemma DelayIsWait(attempt: U32)
    ensures ReconnectDelay(attempt) == Wait(attempt)
  {
    DelayDoublesUpToCap(attempt);
  }

  /** The connectivity of a session that stays active: the next retry waits twice as long after each failure, up to
      eight seconds. */
  lemma ConnectivityChanges(a: ActiveSession, enabled: bool, input: Input)
    requires Reduce(Active(a), enabled, input).state.Active?
    ensures Reduce(Active(a), enabled, input).state.session.connectivity == ConnectivityAfter(a, input)
  {
    hide ReconnectDelay, Wait, SameIdentity, Reduce;
    DelayIsWait(FailedRetries(a.connectivity));
    if Quiet(input) {
      QuietMeans(a, enabled, input);
    } else if input.ReconnectIdentificationFinished? {
      ReconnectIsVerified(a, enabled, input.report, input.verified, input.port);
    } else if !input.Shutdown? {
      ActiveMoves(a, enabled, input);
    } else {
      ShutdownEnds(a, enabled);
    }
  }

  lemma ShutdownEnds(a: ActiveSession, enabled: bool)
    ensures Reduce(Active(a), enabled, Shutdown).state == ShuttingDown
  {
  }

  // ---------------------------------------------------------------- authorization

  /** The session is connected, its audit is healthy and nothing runs. */
  ghost predicate Settled(a: ActiveSession) {
    a.connectivity.Connected? && a.auditHealth.Healthy? && a.operation.Idle?
  }

  /** The outcome says that the device state is unknown. */
  ghost predicate LeavesUnknown(outcome: WT.WriteOutcome) {
    outcome == WT.Executed(WT.OutcomeUnknown) || outcome == WT.Executed(WT.TransportLost)
  }

  /** The outcome says that the audit is not durable. */
  ghost predicate LeavesUnaudited(outcome: WT.WriteOutcome) {
    outcome == WT.Executed(WT.AuditDegraded) || outcome == WT.NotExecuted(WT.AuditUnavailable)
  }

  /** The running single write ends with `input`. */
  ghost predicate EndsWrite(a: ActiveSession, input: Input) {
    a.operation.SingleWrite? && input.WriteFinished?
  }

  /** The running restore ends with `input`. */
  ghost predicate EndsRestore(a: ActiveSession, input: Input) {
    a.operation.Restore? && (input.RestoreFinished? || input.RestoreAborted?)
  }

  /** Why `input` disarms the session, if it does. */
  ghost function DisarmCause(a: ActiveSession, input: Input): Option<DisarmReason> {
    if input.CancelArming? || input.DisarmWrites? then Some(User)
    else if input.ArmingExpired? then Some(ArmingTimeout)
    else if input.IdleDisarmElapsed? then Some(IdleTimeout)
    else if Broken(a, input).Some? then Some(LossOfTransport)
    else if input.ReconnectIdentificationFinished? then
      Some(if SameDevice(a.identity, input.report, input.verified) then Reconnected else LossOfTransport)
    else if input.AuditPersistenceFailed? || (EndsWrite(a, input) && LeavesUnaudited(input.outcome)) then Some(AuditDegradation)
    else if EndsWrite(a, input) && LeavesUnknown(input.outcome) then Some(UnknownOutcome)
    else if EndsRestore(a, input) then Some(OperationEnded)
    else None
  }

  ghost function AuthorizationAfter(a: ActiveSession, enabled: bool, input: Input): Authorization {
    if DisarmCause(a, input).Some? then
      if enabled then Disarmed(DisarmCause(a, input).value) else ProcessDisabled
    else if input.ArmWrites? && a.authorization.Disarmed? && Settled(a) then Arming(input.challenge, input.expiresAt)
    else if input.ConfirmArming? && a.authorization.Arming? && Settled(a)
            && a.authorization.challenge == input.challenge && input.now <= a.authorization.expiresAt then Armed(input.idleExpiresAt)
    else a.authorization
  }

  lemma QuietAuthorization(a: ActiveSession, enabled: bool, input: Input)
    requires Quiet(input) && !input.WriteFinished?
    ensures Reduce(Active(a), enabled, input).state.Active?
    ensures Reduce(Active(a), enabled, input).state.session.authorization == AuthorizationAfter(a, enabled, input)
  {
    hide Reduce, EndWrite, LeavesUnaudited, LeavesUnknown, SameDevice;
    ActiveMoves(a, enabled, input);
  }

  lemma WriteAuthorization(a: ActiveSession, enabled: bool, input: Input)
    requires input.WriteFinished?
    ensures Reduce(Active(a), enabled, input).state.Active?
    ensures Reduce(Active(a), enabled, input).state.session.authorization == AuthorizationAfter(a, enabled, input)
  {
    hide Reduce, SameDevice;
    ActiveMoves(a, enabled, input);
  }

  lemma LoudAuthorization(a: ActiveSession, enabled: bool, input: Input)
    requires Sane(enabled, Active(a)) && !Quiet(input) && !input.Shutdown? && !input.ReconnectIdentificationFinished?
    requires Reduce(Active(a), enabled, input).state.Active?
    ensures Reduce(Active(a), enabled, input).state.session.authorization == AuthorizationAfter(a, enabled, input)
  {
    hide Reduce, EndWrite, LeavesUnaudited, LeavesUnknown, SameDevice, ReconnectDelay;
    ActiveMoves(a, enabled, input);
  }

  /** The authorization of a session that stays active: it is disarmed for exactly the stated reasons; it is being
      armed exactly on a request, and armed exactly on a confirmation of the same challenge in time, each on a
      connected, audited and idle session; else it stays. */
  lemma AuthorizationChanges(a: ActiveSession, enabled: bool, input: Input)
    requires Sane(enabled, Active(a)) && Reduce(Active(a), enabled, input).state.Active?
    ensures Reduce(Active(a), enabled, input).state.session.authorization == AuthorizationAfter(a, enabled, input)
  {
    hide Reduce, Sane, Settled, Broken, LeavesUnaudited, LeavesUnknown;
    if input.Shutdown? {
      ShutdownEnds(a, enabled);
    } else if input.ReconnectIdentificationFinished? {
      ReconnectIsVerified(a, enabled, input.report, input.verified, input.port);
      NotBroken(a, input);
    } else if input.WriteFinished? {
      WriteAuthorization(a, enabled, input);
    } else if Quiet(input) {
      QuietAuthorization(a, enabled, input);
    } else {
      LoudAuthorization(a, enabled, input);
    }
  }

  lemma NotBroken(a: ActiveSession, input: Input)
    requires input.ReconnectIdentificationFinished?
    ensures Broken(a, input).None?
  {
  }

  // ---------------------------------------------------------------- operation and audit

  ghost function OperationAfter(a: ActiveSession, input: Input): Operation {
    var mayStart := a.authorization.Armed? && Settled(a);
    if EndsWrite(a, input) || EndsRestore(a, input) || Broken(a, input).Some?
       || input.ReconnectIdentificationFinished? || input.AuditPersistenceFailed? then Idle
    else if mayStart && input.WriteConfirmed? then SingleWrite(input.operationId, input.planId)
    else if mayStart && input.RestoreStarted? then Restore(input.operationId, input.planHash, 0)
    else if a.operation.Restore? && input.RestoreAdvanced? then Restore(a.operation.operationId, a.operation.planHash, input.nextIndex)
    else a.operation
  }

  /** The operation of a session that stays active: one starts exactly on an armed, connected, audited and idle
      session, advances as a restore, and is over exactly when it ends, breaks or loses its audit. */
  lemma OperationChanges(a: ActiveSession, enabled: bool, input: Input)
    requires Reduce(Active(a), enabled, input).state.Active?
    ensures Reduce(Active(a), enabled, input).state.session.operation == OperationAfter(a, input)
  {
    hide ReconnectDelay, SameIdentity, Reduce;
    if input.Shutdown? {
      ShutdownEnds(a, enabled);
    } else if input.ReconnectIdentificationFinished? {
      ReconnectIsVerified(a, enabled, input.report, input.verified, input.port);
    } else {
      ActiveMoves(a, enabled, input);
    }
  }

  /** A session's audit degrades exactly when persistence fails or a write ends without a durable audit, and then
      from that moment; it never recovers within the session. Id and identity never change, and the port only
      with a reconnect of the same device. */
  lemma RestOfSessionChanges(a: ActiveSession, enabled: bool, input: Input)
    requires Reduce(Active(a), enabled, input).state.Active?
    ensures var b := Reduce(Active(a), enabled, input).state.session;
            && b.sessionId == a.sessionId && b.identity == a.identity
            && b.portIdentity == (if input.ReconnectIdentificationFinished? && SameDevice(a.identity, input.report, input.verified)
                                  then input.port else a.portIdentity)
            && b.auditHealth ==
               if input.AuditPersistenceFailed? then Degraded(input.auditCause, input.now)
               else if EndsWrite(a, input) && LeavesUnaudited(input.outcome) then Degraded("write audit finalization failed", input.now)
               else a.auditHealth
  {
    hide ReconnectDelay, SameIdentity, Reduce;
    if input.Shutdown? {
      ShutdownEnds(a, enabled);
    } else if input.ReconnectIdentificationFinished? {
      ReconnectIsVerified(a, enabled, input.report, input.verified, input.port);
    } else if input.WriteFinished? {
      ActiveMoves(a, enabled, input);
    } else if Quiet(input) {
      QuietMeans(a, enabled, input);
      QuietAudit(a, enabled, input);
    } else {
      hide EndWrite;
      ActiveMoves(a, enabled, input);
    }
  }

  lemma QuietAudit(a: ActiveSession, enabled: bool, input: Input)
    requires Quiet(input) && !input.WriteFinished?
    ensures Reduce(Active(a), enabled, input).state.Active?
    ensures Reduce(Active(a), enabled, input).state.session.auditHealth == a.auditHealth
  {
    hide Reduce, EndWrite;
    ActiveMoves(a, enabled, input);
  }

  // ---------------------------------------------------------------- the life of a session

  /** The machine moves between its five states exactly like this. */
  ghost function LifeAfter(state: State, input: Input): State {
    if input.Shutdown? then ShuttingDown
    else if state.ShuttingDown? then if input.ShutdownComplete? then Disconnected(None) else state
    else if state.Disconnected? then if input.Connect? then Connecting(0) else state
    else if state.Active? then if input.Disconnect? then Disconnected(None) else state
    else if input.CancelConnect? then Disconnected(None)
    else if state.Connecting? then
      if input.PortOpened? then Identifying(input.port) else if input.PortOpenFailed? then Disconnected(None) else state
    else if input.IdentificationFinished? && !(input.report.isMatch && input.verified.Some?) then Disconnected(Some(input.report))
    else state
  }

  /** Apart from what happens inside an active session, and from its beginning. */
  lemma LifeChanges(state: State, enabled: bool, input: Input)
    ensures var next := Reduce(state, enabled, input).state;
            if next.Active? then state.Active? || state.Identifying? else next == LifeAfter(state, input)
    ensures LifeAfter(state, input).Active? ==> Reduce(state, enabled, input).state.Active?
  {
    if state.Active? && !input.Shutdown? {
      ActiveMoves(state.session, enabled, input);
      hide Reduce;
    }
  }

  // ---------------------------------------------------------------- effects

  /** When `effect` is asked for. The planner and the abort of an operation have conditions of their own. */
  ghost predicate AskedFor(effect: Effect, state: State, input: Input) {
    match effect
    case OpenPort => (state.Disconnected? && input.Connect?) || (state.Active? && Retries(state.session, input))
    case ClosePort =>
      || ((state.Connecting? || state.Identifying?) && input.CancelConnect?)
      || (state.Identifying? && input.IdentificationFinished? && !(input.report.isMatch && input.verified.Some?))
      || (state.Active? && (|| input.Disconnect? || Broken(state.session, input).Some?
                            || (input.ReconnectIdentificationFinished? && !SameDevice(state.session.identity, input.report, input.verified))))
    case StartIdentification => state.Connecting? && input.PortOpened?
    case StartReconnectIdentification => state.Active? && state.session.connectivity.Reconnecting? && input.ReconnectPortOpened?
    case ScheduleReconnect(at) =>
      && state.Active? && Broken(state.session, input).Some?
      && at == input.now + Wait(FailedRetries(state.session.connectivity))
    case CancelReconnect => state.Active? && (input.Disconnect? || Retries(state.session, input))
    case StopPlanner =>
      || (input.Shutdown? && !state.ShuttingDown?)
      || (state.Active? && (|| input.Disconnect?
                            || (input.ReconnectIdentificationFinished? && !SameDevice(state.session.identity, input.report, input.verified))))
    case AbortOperation =>
      || (input.Shutdown? && !state.ShuttingDown?)
      || (state.Active? && !state.session.operation.Idle?
          && (input.Disconnect? || input.TransportLost? || input.PortRemoved? || input.AuditPersistenceFailed?))
    case FinalizeStorage => input.Shutdown? && !state.ShuttingDown?
    case ShutdownBusActor => input.Shutdown? && !state.ShuttingDown?
    case FinalizeLogs => input.Shutdown? && !state.ShuttingDown?
    case RestoreTerminal => input.Shutdown? && !state.ShuttingDown?
  }

  /** Every effect is asked for exactly then, and by their order each once. */
  lemma EffectsExactlyWhen(state: State, enabled: bool, input: Input, effect: Effect)
    requires Sane(enabled, state)
    ensures effect in Reduce(state, enabled, input).effects <==> AskedFor(effect, state, input)
  {
    hide Reduce, AskedFor;
    if !state.Active? || input.Shutdown? {
      InactiveEffects(state, enabled, input, effect);
    } else if Quiet(input) {
      QuietEffects(state.session, enabled, input, effect);
    } else if input.ReconnectIdentificationFinished? {
      ReconnectEffects(state.session, enabled, input, effect);
    } else {
      LoudActiveEffects(state.session, enabled, input, effect);
    }
  }

  lemma InactiveEffects(state: State, enabled: bool, input: Input, effect: Effect)
    requires !state.Active? || input.Shutdown?
    ensures effect in Reduce(state, enabled, input).effects <==> AskedFor(effect, state, input)
  {
    hide ReduceActive, Wait, FailedRetries, SameDevice;
  }

  lemma QuietEffects(a: ActiveSession, enabled: bool, input: Input, effect: Effect)
    requires Quiet(input)
    ensures effect in Reduce(Active(a), enabled, input).effects <==> AskedFor(effect, Active(a), input)
  {
    hide Reduce, Wait, FailedRetries, SameDevice;
    QuietMeans(a, enabled, input);
  }

  lemma ReconnectEffects(a: ActiveSession, enabled: bool, input: Input, effect: Effect)
    requires input.ReconnectIdentificationFinished?
    ensures effect in Reduce(Active(a), enabled, input).effects <==> AskedFor(effect, Active(a), input)
  {
    hide Reduce, Wait, FailedRetries, SameDevice;
    ReconnectIsVerified(a, enabled, input.report, input.verified, input.port);
  }

  lemma LoudActiveEffects(a: ActiveSession, enabled: bool, input: Input, effect: Effect)
    requires Sane(enabled, Active(a)) && !Quiet(input) && !input.ReconnectIdentificationFinished? && !input.Shutdown?
    ensures effect in Reduce(Active(a), enabled, input).effects <==> AskedFor(effect, Active(a), input)
  {
    hide ReconnectDelay, SameIdentity, Wait, EndWrite, Reduce;
    DelayIsWait(FailedRetries(a.connectivity));
    ActiveMoves(a, enabled, input);
  }
}
