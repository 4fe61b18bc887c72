/** Vocabulary of the guarded write protocol: plans, audit records, tokens, bus requests. */
module WriteTypes {
  import opened Domain
  import Modbus
  import opened Profiles
  import RP = RestorePlanning
  import PH = PlanHash

  datatype DecisionOutcome = Expired | Cancelled | RejectedByPolicy | ProfileNotTrusted | PreconditionChanged | AuditUnavailable

  datatype DeviceOutcome = Verified | DeviceRejected | ReadBackMismatch | OutcomeUnknown | TransportLost | AuditDegraded

  datatype WriteOutcome = NotExecuted(decision: DecisionOutcome) | Executed(device: DeviceOutcome)

  datatype Evidence =
    | NotAttempted
    | VerifiedEvidence(attempts: nat, raw: RawRegisters)
    | MismatchEvidence(attempts: nat, lastRaw: RawRegisters)
    | UnavailableEvidence(attempts: nat)

  datatype BusError =
    | ProtocolException | OutcomeUnknownError | ResponseTimeout | InvalidResponse | InvalidRequest | PortRemoved
    | PermissionDenied | PortBusy | Io | TimeoutBeforeSend | InvalidFrameOrTransport | CancelledRequest | QueueFull | Shutdown

  function MapWriteError(error: BusError): DeviceOutcome {
    match error
    case ProtocolException => DeviceRejected
    case OutcomeUnknownError => OutcomeUnknown
    case ResponseTimeout => OutcomeUnknown
    case InvalidResponse => OutcomeUnknown
    case _ => TransportLost
  }

  datatype ConfirmationModel = StandardModel | CommissioningModel(code: string, requested: EngineeringValue)

  datatype Confirmation =
    | ConfirmStandard(challenge: string)
    | ConfirmCommissioning(challenge: string, code: string, requested: EngineeringValue)
    | CancelledByOperator

  datatype RestoreError =
    | RestorePlanError(error: RP.PlanError)
    | RestoreRejected
    | RestoreAuditUnavailable
    | InvalidRestorePermit
    | RestoreFinalizationFailed

  datatype RestoreConfirmation = ConfirmRestore(challenge: string) | CancelRestore

  datatype WriteIntent = WriteIntent(
    sessionId: nat,
    fingerprint: Fingerprint,
    profileHash: string,
    parameterId: ParameterId,
    previousRaw: RawRegisters,
    previousEngineering: EngineeringValue,
    requested: EngineeringValue,
    previewRaw: Option<RawRegisters>)

  datatype PreparedPlan = PreparedPlan(
    planId: nat,
    operationId: nat,
    sessionId: nat,
    fingerprint: Fingerprint,
    profileHash: string,
    parameterId: ParameterId,
    contextHash: Digest,
    previousRaw: RawRegisters,
    previousEngineering: EngineeringValue,
    requested: EngineeringValue,
    targetRaw: RawRegisters,
    confirmation: ConfirmationModel,
    challenge: string,
    expiresAt: nat)

  datatype StoredPlan = StoredPlan(plan: PreparedPlan, guardRevision: nat)

  /** The tuple whose byte encoding is hashed into a context hash. */
  datatype HashedContext =
    | ManualContext(planId: nat, operationId: nat, sessionId: nat, fingerprint: Fingerprint, profileHash: string,
                    parameterId: ParameterId, oldRaw: RawRegisters, oldEngineering: EngineeringValue,
                    requested: EngineeringValue, targetRaw: RawRegisters, guardRevision: nat)
    | StepContext(operationId: nat, planHash: Digest, index: nat, sessionId: nat, fingerprint: Fingerprint,
                  profileHash: string, parameterId: ParameterId, oldRaw: RawRegisters,
                  oldEngineering: EngineeringValue, targetRaw: RawRegisters, targetEngineering: EngineeringValue)

  datatype Preparation = Preparation(
    planId: nat,
    operationId: nat,
    requestId: nat,
    sessionId: nat,
    fingerprint: Fingerprint,
    profileHash: string,
    parameterId: ParameterId,
    contextHash: Digest,
    oldRaw: RawRegisters,
    oldEngineering: EngineeringValue,
    targetRaw: RawRegisters,
    targetEngineering: EngineeringValue,
    writeFunction: Modbus.Function)

  datatype PreparedToken = PreparedToken(tokenId: nat, planId: nat, requestId: nat, contextHash: string) {
    predicate Matches(record: Preparation) {
      planId == record.planId && requestId == record.requestId && contextHash == record.contextHash
    }
  }

  datatype ReadRequest = ReadRequest(
    requestId: nat, sessionId: nat, operationId: nat, slaveId: nat, function_: Modbus.Function, block: Modbus.RegisterBlock)

  datatype BusWrite = BusWrite(
    requestId: nat, sessionId: nat, operationId: nat, slaveId: nat, function_: Modbus.Function,
    block: Modbus.RegisterBlock, values: RawRegisters)

  datatype WriteResult = WriteOk | WriteErr(error: BusError)

  datatype OperationStart = OperationStart(
    operationId: nat, backupId: nat, planHash: Digest, sessionId: nat, fingerprint: Fingerprint, profileHash: string)

  datatype OperationToken = OperationToken(
    tokenId: nat, operationId: nat, backupId: nat, planHash: string, sessionId: nat, fingerprint: string, profileHash: string)
  {
    predicate MatchesStart(start: OperationStart) {
      && operationId == start.operationId && backupId == start.backupId && planHash == start.planHash
      && sessionId == start.sessionId && fingerprint == start.fingerprint && profileHash == start.profileHash
    }
  }

  function StartOf(plan: RP.RestorePlan): OperationStart {
    OperationStart(plan.operationId, plan.backupId, plan.planHash, plan.sessionId, plan.fingerprint, plan.profileHash)
  }

  datatype OperationOutcome = Completed | Aborted
  datatype OperationFinish = OperationFinish(outcome: OperationOutcome, finalStepIndex: Option<nat>)

  datatype Decision = Decision(
    planId: nat, sessionId: nat, parameterId: ParameterId, contextHash: Option<string>, decision: DecisionOutcome)

  // ---------------------------------------------------------------- guards

  predicate ManualAllowed(parameter: Parameter) {
    && (parameter.access == WritableWhenStopped || parameter.access == Commissioning)
    && parameter.requiredDriveState == StoppedState
    && parameter.writeFunction.Some? && parameter.writeFunction.value.IsWrite()
  }

  predicate RestoreAllowed(parameter: Parameter) {
    RP.RestoreEligibility(parameter) == RP.Eligible
  }

  function Power2(n: nat): (r: nat)
    ensures r >= 1
  {
    if n == 0 then 1 else 2 * Power2(n - 1)
  }

  predicate BitSet(mask: U64, bit: nat) {
    mask / Power2(bit) % 2 == 1
  }

  /** `delta` is an exact multiple of `step`. */
  predicate OnGrid(delta: real, step: real)
    requires step != 0.0
  {
    (delta / step).Floor as real == delta / step
  }

  /** What the validated profile lets an operator request for `parameter`. */
  predicate RequestAccepted(parameter: Parameter, value: EngineeringValue) {
    match value
    case Fixed(decimal) =>
      && (parameter.minimum.Some? ==> parameter.minimum.value <= decimal)
      && (parameter.maximum.Some? ==> decimal <= parameter.maximum.value)
      && (parameter.step.Some? ==>
            && parameter.step.value != 0.0
            && OnGrid(decimal - (if parameter.minimum.Some? then parameter.minimum.value else 0.0), parameter.step.value))
    case Float32Bits(bits) => bits / 0x80_0000 % 0x100 != 0xFF
    case Float64Bits(bits) => bits / 0x10_0000_0000_0000 % 0x800 != 0x7FF
    case EnumRaw(raw) => raw in parameter.enumValues
    case BitfieldRaw(mask) => forall bit :: 0 <= bit < 64 && BitSet(mask, bit) ==> bit in parameter.bitFlags
  }

  /** The words a manual write sends, recomputed from the profile; None when the request is refused. */
  function AuthoritativeTarget(parameter: Parameter, value: EngineeringValue): Option<RawRegisters> {
    if !ManualAllowed(parameter) || !RequestAccepted(parameter, value) then None
    else
      var encoded := parameter.codec.encode(value);
      if encoded.Some? && encoded.value !in parameter.forbiddenRaw then encoded else None
  }

  /** How a write of `parameter` must be confirmed. */
  function ConfirmationFor(parameter: Parameter, requested: EngineeringValue): ConfirmationModel {
    if parameter.access == Commissioning then CommissioningModel(parameter.code, requested) else StandardModel
  }

  function ChallengeFor(contextHash: Digest): string {
    "write:" + contextHash[..12]
  }

  predicate Ready(session: RP.SessionSnapshot) {
    session.connected && session.armed && session.auditHealthy
  }

  predicate PlanMatchesSession(plan: PreparedPlan, session: RP.SessionSnapshot) {
    && Ready(session) && session.operationIdle
    && session.sessionId == plan.sessionId && session.fingerprint == plan.fingerprint
    && session.profileHash == plan.profileHash
  }

  predicate RestoreMatchesSession(plan: RP.RestorePlan, session: RP.SessionSnapshot, idle: bool) {
    && Ready(session) && session.operationIdle == idle
    && session.sessionId == plan.sessionId && session.fingerprint == plan.fingerprint
    && session.profileHash == plan.profileHash
  }

  predicate SameContext(left: RP.SessionSnapshot, right: RP.SessionSnapshot) {
    && left.sessionId == right.sessionId && left.fingerprint == right.fingerprint
    && left.profileHash == right.profileHash && left.connected == right.connected && left.armed == right.armed
    && left.auditHealthy == right.auditHealthy && left.operationIdle == right.operationIdle
    && left.guardRevision == right.guardRevision && left.slaveId == right.slaveId
  }

  predicate ConfirmationMatches(plan: PreparedPlan, confirmation: Confirmation) {
    match (plan.confirmation, confirmation)
    case (StandardModel, ConfirmStandard(challenge)) => challenge == plan.challenge
    case (CommissioningModel(code, requested), ConfirmCommissioning(challenge, code', requested')) =>
      challenge == plan.challenge && code' == code && requested' == requested
    case _ => false
  }

  /** The profile still lets this step be written as planned. */
  predicate StepPolicyHolds(step: PH.Step, parameter: Parameter) {
    && RestoreAllowed(parameter)
    && |step.expectedOldRaw| == parameter.block.count
    && |step.targetRaw| == parameter.block.count
    && step.targetRaw !in parameter.forbiddenRaw
  }

  function ContextOf(stored: StoredPlan): HashedContext {
    var plan := stored.plan;
    ManualContext(plan.planId, plan.operationId, plan.sessionId, plan.fingerprint, plan.profileHash, plan.parameterId,
                  plan.previousRaw, plan.previousEngineering, plan.requested, plan.targetRaw, stored.guardRevision)
  }
}

/** The reference protocol: which port call may follow which trace. The coordinator is proved against it;
    the lemmas at the end say what every trace of the protocol guarantees. */
module WriteProtocol {
  import opened Domain
  import Modbus
  import opened Profiles
  import RP = RestorePlanning
  import PH = PlanHash
  import opened WriteTypes

  /** An operation of the coordinator being entered. Restore permits are named by the order of creation. */
  datatype Call =
    | PrepareWrite(intent: WriteIntent)
    | ConfirmWrite(planId: nat, confirmation: Confirmation)
    | PrepareRestorePlan
    | BeginRestore(permit: nat, approved: RP.ApprovedPlan, restoreConfirmation: RestoreConfirmation)
    | ExecuteStep(permit: nat, index: nat)
    | FinishRestore(permit: nat)
    | AbortRestore(permit: nat)

  /** One observable action: a port call with its answer, or an entry in or out of the plan store. */
  datatype Event =
    | Called(call: Call)
    | PlanIssued(issued: StoredPlan)
    | PlanConsumed(stored: StoredPlan)
    | ClockRead(now: U128)
    | Slept
    | Snapshot(session: RP.SessionSnapshot)
    | ProfileLookup(hash: string, profile: Option<ValidatedProfile>)
    | TrustChecked(profileId: string, trusted: bool)
    | BusReadDone(request: ReadRequest, value: Option<RawRegisters>)
    | AuditAvailability(up: bool)
    | DecisionRecorded(decided: Decision, persisted: bool)
    | WritePrepared(record: Preparation, token: Option<PreparedToken>)
    | BusWritten(write: BusWrite, parameter: Parameter, result: WriteResult)
    | WriteFinalized(finalized: PreparedToken, outcome: DeviceOutcome, evidence: Evidence, persisted: bool)
    | OperationBegun(start: OperationStart, operationToken: Option<OperationToken>)
    | OperationFinished(finishedToken: OperationToken, finish: OperationFinish, persisted: bool)
    | SingleWriteBegun(operationId: nat, planId: nat, accepted: bool)
    | SingleWriteFinished(writeOutcome: WriteOutcome)
    | RestoreBegun(operationId: nat, planHash: Digest, accepted: bool)
    | RestoreMatched(operationId: nat, planHash: Digest, nextIndex: nat, matched: bool)
    | RestoreAdvanced(operationId: nat, planHash: Digest, nextIndex: nat, accepted: bool)
    | RestoreFinishedInSession(operationId: nat, planHash: Digest, accepted: bool)
    | RestoreAbortedInSession(operationId: nat, planHash: Digest, accepted: bool)
    | Disarmed
    | AuditDegradedAndDisarmed
    | Diagnostic

  type Trace = seq<Event>

  /** A read-back, by its index in the trace, that met the policy of the written parameter. */
  datatype Match = Match(index: nat, raw: RawRegisters)

  /** Where the device-write transaction stands. `at` is the index of its bus write. */
  datatype Phase =
    | NoWrite
    | Prepared(record: Preparation, token: PreparedToken)
    | Written(at: nat, record: Preparation, token: PreparedToken, parameter: Parameter, result: WriteResult,
              attempts: nat, matched: Option<Match>, mismatch: Option<RawRegisters>)

  datatype SingleWrite = NotBegun | Open | Closed

  /** Everything one restore permit has done. */
  datatype Ledger = Ledger(
    plan: RP.ApprovedPlan,
    durable: bool,
    granted: bool,
    closed: bool,
    writes: seq<RawRegisters>,
    outcomes: seq<DeviceOutcome>,
    finishes: seq<OperationOutcome>)

  /** A permit that is being asked for. */
  function Untouched(plan: RP.ApprovedPlan): Ledger {
    Ledger(plan, false, false, false, [], [], [])
  }

  datatype Progress = Progress(
    call: Option<Call>,
    phase: Phase,
    single: SingleWrite,
    lastRequest: nat,
    writtenPlans: set<nat>,
    openPlans: map<nat, StoredPlan>,
    ledgers: seq<Ledger>)

  const START := Progress(None, NoWrite, NotBegun, 0, {}, map[], [])

  /** The permit on whose behalf `entered` runs. */
  function PermitOf(entered: Option<Call>): Option<nat> {
    match entered
    case None => None
    case Some(call) =>
      match call
      case BeginRestore(permit, _, _) => Some(permit)
      case ExecuteStep(permit, _) => Some(permit)
      case FinishRestore(permit) => Some(permit)
      case AbortRestore(permit) => Some(permit)
      case _ => None
  }

  function CurrentPermit(p: Progress): Option<nat> {
    PermitOf(p.call)
  }

  predicate HasLedger(p: Progress) {
    CurrentPermit(p).Some? && CurrentPermit(p).value < |p.ledgers|
  }

  function CurrentLedger(p: Progress): Ledger
    requires HasLedger(p)
  {
    p.ledgers[CurrentPermit(p).value]
  }

  function WithLedger(p: Progress, l: Ledger): Progress
    requires HasLedger(p)
  {
    p.(ledgers := p.ledgers[CurrentPermit(p).value := l])
  }

  function Enter(p: Progress, call: Call): Progress {
    var q := p.(call := Some(call), single := NotBegun);
    match call
    case BeginRestore(_, approved, _) => q.(ledgers := q.ledgers + [Untouched(approved)])
    case FinishRestore(_) => if HasLedger(q) then WithLedger(q, CurrentLedger(q).(closed := true)) else q
    case AbortRestore(_) => if HasLedger(q) then WithLedger(q, CurrentLedger(q).(closed := true)) else q
    case _ => q
  }

  predicate Accepted(record: Preparation, token: Option<PreparedToken>) {
    token.Some? && token.value.Matches(record)
  }

  /** What one physical write adds for good, whatever becomes of it. */
  function AfterWrite(p: Progress, write: BusWrite): Progress
    requires p.phase.Prepared?
  {
    var q := p.(writtenPlans := p.writtenPlans + {p.phase.record.planId});
    if HasLedger(p) then WithLedger(q, CurrentLedger(p).(writes := CurrentLedger(p).writes + [write.values])) else q
  }

  /** The transaction after the read-back with index `n`. */
  function AfterReadBack(phase: Phase, n: nat, request: ReadRequest, value: Option<RawRegisters>): Phase
    requires phase.Written?
  {
    if value.None? then phase.(attempts := phase.attempts + 1)
    else if request.block == phase.parameter.block && phase.parameter.ReadBackMatches(phase.record.targetRaw, value.value)
    then phase.(attempts := phase.attempts + 1, matched := Some(Match(n, value.value)))
    else phase.(attempts := phase.attempts + 1, mismatch := value)
  }

  /** The one verdict a finished transaction may be given. */
  predicate Concludes(phase: Phase, outcome: DeviceOutcome, evidence: Evidence)
    requires !phase.NoWrite?
  {
    match phase
    case Prepared(_, _) => (outcome == DeviceRejected || outcome == TransportLost) && evidence == NotAttempted
    case Written(_, _, _, _, result, attempts, matched, mismatch) =>
      if result.WriteErr? then outcome == MapWriteError(result.error) && evidence == NotAttempted
      else if matched.Some? then outcome == Verified && evidence == VerifiedEvidence(attempts, matched.value.raw)
      else if attempts == 0 then false
      else if mismatch.Some? then outcome == ReadBackMismatch && evidence == MismatchEvidence(attempts, mismatch.value)
      else outcome == TransportLost && evidence == UnavailableEvidence(attempts)
  }

  /** The bus may be read: outside a transaction, or to read back a write that is not verified yet. */
  predicate MayRead(phase: Phase) {
    match phase
    case NoWrite => true
    case Prepared(_, _) => false
    case Written(_, _, _, _, result, attempts, matched, _) => result.WriteOk? && attempts < 4 && matched.None?
  }

  /** Progress after event `e`, which has index `n`. */
  function Next(p: Progress, n: nat, e: Event): Progress {
    match e
    case Called(call) => Enter(p, call)
    case PlanIssued(issued) => p.(openPlans := p.openPlans[issued.plan.planId := issued])
    case PlanConsumed(stored) => p.(openPlans := p.openPlans - {stored.plan.planId})
    case BusReadDone(request, value) =>
      var q := p.(lastRequest := request.requestId);
      if p.phase.Written? then q.(phase := AfterReadBack(p.phase, n, request, value)) else q
    case WritePrepared(record, token) =>
      if Accepted(record, token) then p.(phase := Prepared(record, token.value)) else p
    case BusWritten(write, parameter, result) =>
      if p.phase.Prepared? then
        AfterWrite(p, write).(
          lastRequest := write.requestId,
          phase := Written(n, p.phase.record, p.phase.token, parameter, result, 0, None, None))
      else p
    case WriteFinalized(_, outcome, _, persisted) =>
      var q := p.(phase := NoWrite);
      var final := if persisted then outcome else AuditDegraded;
      if HasLedger(p) then WithLedger(q, CurrentLedger(p).(outcomes := CurrentLedger(p).outcomes + [final])) else q
    case OperationBegun(start, token) =>
      if HasLedger(p) && token.Some? && token.value.MatchesStart(start)
      then WithLedger(p, CurrentLedger(p).(durable := true)) else p
    case RestoreBegun(_, _, accepted) =>
      if HasLedger(p) && accepted then WithLedger(p, CurrentLedger(p).(granted := true)) else p
    case OperationFinished(_, finish, _) =>
      if HasLedger(p) then WithLedger(p, CurrentLedger(p).(finishes := CurrentLedger(p).finishes + [finish.outcome])) else p
    case SingleWriteBegun(_, _, accepted) => if accepted then p.(single := Open) else p
    case SingleWriteFinished(_) => p.(single := Closed)
    case AuditDegradedAndDisarmed => if p.single == Open then p.(single := Closed) else p
    case _ => p
  }

  function After(t: Trace): Progress {
    if t == [] then START else Next(After(t[..|t| - 1]), |t| - 1, t[|t| - 1])
  }

  // ---------------------------------------------------------------- evidence demanded by the protocol

  predicate ReadsBlock(request: ReadRequest, parameter: Parameter, sessionId: nat, operationId: nat) {
    && request.block == parameter.block
    && request.function_ == Modbus.ReadFunction(parameter.block.table)
    && request.sessionId == sessionId && request.operationId == operationId
  }

  /** A read of the profile's drive-state source that came back as stopped. */
  predicate ReadStopped(e: Event, profile: Profile, sessionId: nat, operationId: nat) {
    && e.BusReadDone? && e.value.Some?
    && profile.driveStateSource.Some?
    && var source := profile.driveStateSource.value;
    && source.parameterId in profile.parameters
    && ReadsBlock(e.request, profile.parameters[source.parameterId], sessionId, operationId)
    && source.Classify(e.value.value) == Stopped
  }

  predicate ReadValue(e: Event, parameter: Parameter, sessionId: nat, operationId: nat, expected: RawRegisters) {
    && e.BusReadDone? && e.value == Some(expected)
    && ReadsBlock(e.request, parameter, sessionId, operationId)
  }

  /** The profile that was looked up under `hash` at event `s` and found trusted at event `s + 1`. */
  ghost predicate TrustedProfileAt(t: Trace, s: nat, hash: string)
    requires s + 1 < |t|
  {
    && t[s].ProfileLookup? && t[s].hash == hash && t[s].profile.Some?
    && t[s].profile.value.hash == hash
    && t[s + 1] == TrustChecked(t[s].profile.value.profileId, true)
  }

  /** Events `s .. s + 5`: a consumed plan, confirmed exactly and in time, in a session that still has the
      guard revision the plan was made under, for a parameter that still encodes to the same target. */
  ghost predicate ManualAuthorized(t: Trace, s: nat, parameter: Parameter)
    requires s + 6 <= |t|
  {
    && t[s].Called? && t[s].call.ConfirmWrite?
    && t[s + 1].PlanConsumed?
    && var stored := t[s + 1].stored;
    && var plan := stored.plan;
    && plan.planId == t[s].call.planId
    && ConfirmationMatches(plan, t[s].call.confirmation)
    && t[s + 2].ClockRead? && t[s + 2].now <= plan.expiresAt
    && t[s + 3].Snapshot? && PlanMatchesSession(plan, t[s + 3].session)
    && t[s + 3].session.guardRevision == stored.guardRevision
    && TrustedProfileAt(t, s + 4, plan.profileHash)
    && t[s + 4].profile.value.Find(plan.parameterId) == Some(parameter)
    && AuthoritativeTarget(parameter, plan.requested) == Some(plan.targetRaw)
  }

  /** Events `s .. s + 10`: in addition, the drive was read as stopped and the old value as unchanged, and
      the session looked the same before and after these reads. */
  ghost predicate ManualChecked(t: Trace, s: nat, parameter: Parameter)
    requires s + 11 <= |t|
  {
    && ManualAuthorized(t, s, parameter)
    && var plan := t[s + 1].stored.plan;
    && t[s + 6].Snapshot?
    && ReadStopped(t[s + 7], t[s + 4].profile.value, plan.sessionId, plan.operationId)
    && t[s + 8].Snapshot?
    && ReadValue(t[s + 9], parameter, plan.sessionId, plan.operationId, plan.previousRaw)
    && parameter.codec.decode(plan.previousRaw) == Some(plan.previousEngineering)
    && t[s + 10].Snapshot? && SameContext(t[s + 3].session, t[s + 10].session)
  }

  /** `ManualAuthorized`, naming the values the checks came up with. */
  ghost predicate AuthorizedWith(t: Trace, stored: StoredPlan, before: RP.SessionSnapshot, profile: ValidatedProfile, parameter: Parameter) {
    && |t| >= 6
    && var s := |t| - 6;
    && ManualAuthorized(t, s, parameter)
    && t[s + 1] == PlanConsumed(stored) && t[s + 3] == Snapshot(before) && t[s + 4].profile == Some(profile)
  }

  lemma AuthorizedAssembled(t: Trace, stored: StoredPlan, confirmation: Confirmation, now: U128,
                            before: RP.SessionSnapshot, profile: ValidatedProfile, parameter: Parameter)
    requires |t| >= 6
    requires t[|t| - 6] == Called(ConfirmWrite(stored.plan.planId, confirmation))
    requires t[|t| - 5] == PlanConsumed(stored)
    requires ConfirmationMatches(stored.plan, confirmation)
    requires t[|t| - 4] == ClockRead(now) && now <= stored.plan.expiresAt
    requires t[|t| - 3] == Snapshot(before) && PlanMatchesSession(stored.plan, before)
    requires before.guardRevision == stored.guardRevision
    requires TrustedProfileAt(t, |t| - 2, stored.plan.profileHash) && t[|t| - 2].profile == Some(profile)
    requires profile.Find(stored.plan.parameterId) == Some(parameter)
    requires AuthoritativeTarget(parameter, stored.plan.requested) == Some(stored.plan.targetRaw)
    ensures AuthorizedWith(t, stored, before, profile, parameter)
  {
    hide AuthoritativeTarget, ConfirmationMatches, PlanMatchesSession;
  }

  lemma AuthorizedMeans(t: Trace, stored: StoredPlan, before: RP.SessionSnapshot, profile: ValidatedProfile, parameter: Parameter)
    requires AuthorizedWith(t, stored, before, profile, parameter)
    ensures profile.Find(stored.plan.parameterId) == Some(parameter) && parameter.Valid()
    ensures profile.hash == stored.plan.profileHash
    ensures AuthoritativeTarget(parameter, stored.plan.requested) == Some(stored.plan.targetRaw)
    ensures before.guardRevision == stored.guardRevision
  {
  }

  /** `ManualChecked`, naming the values the checks came up with. */
  ghost predicate RecheckedWith(t: Trace, stored: StoredPlan, profile: ValidatedProfile, parameter: Parameter, after: RP.SessionSnapshot) {
    && |t| >= 11
    && var s := |t| - 11;
    && ManualChecked(t, s, parameter)
    && t[s + 1] == PlanConsumed(stored) && t[s + 4].profile == Some(profile) && t[s + 10] == Snapshot(after)
  }

  /** What a manual write may rely on once its guards were rechecked. */
  lemma RecheckedMeans(t: Trace, stored: StoredPlan, profile: ValidatedProfile, parameter: Parameter, after: RP.SessionSnapshot)
    requires RecheckedWith(t, stored, profile, parameter, after)
    ensures profile.Find(stored.plan.parameterId) == Some(parameter) && parameter.Valid()
    ensures profile.hash == stored.plan.profileHash
    ensures AuthoritativeTarget(parameter, stored.plan.requested) == Some(stored.plan.targetRaw)
    ensures |stored.plan.previousRaw| == parameter.block.count
    ensures after.guardRevision == stored.guardRevision
  {
  }

  lemma ManualAssembled(front: Trace, t: Trace, stored: StoredPlan, before: RP.SessionSnapshot, profile: ValidatedProfile,
                        parameter: Parameter, after: RP.SessionSnapshot)
    requires AuthorizedWith(front, stored, before, profile, parameter)
    requires |t| == |front| + 5 && front <= t
    requires t[|front|].Snapshot?
    requires ReadStopped(t[|front| + 1], profile, stored.plan.sessionId, stored.plan.operationId)
    requires t[|front| + 2].Snapshot?
    requires ReadValue(t[|front| + 3], parameter, stored.plan.sessionId, stored.plan.operationId, stored.plan.previousRaw)
    requires parameter.codec.decode(stored.plan.previousRaw) == Some(stored.plan.previousEngineering)
    requires t[|front| + 4] == Snapshot(after) && SameContext(before, after)
    ensures RecheckedWith(t, stored, profile, parameter, after)
  {
    hide AuthoritativeTarget, SameContext, ReadValue, ReadStopped, ConfirmationMatches, PlanMatchesSession;
    var s := |front| - 6;
    assert forall i :: s <= i < s + 6 ==> t[i] == front[i];
  }

  lemma ManualStable(t: Trace, u: Trace, s: nat, parameter: Parameter)
    requires s + 11 <= |t| && t <= u && ManualChecked(t, s, parameter)
    ensures ManualChecked(u, s, parameter)
  {
    hide AuthoritativeTarget, SameContext, ReadValue, ReadStopped, ConfirmationMatches, PlanMatchesSession;
    assert forall i :: s <= i < s + 11 ==> u[i] == t[i];
  }

  predicate RecordsPlan(record: Preparation, plan: PreparedPlan) {
    && record.planId == plan.planId && record.operationId == plan.operationId && record.sessionId == plan.sessionId
    && record.fingerprint == plan.fingerprint && record.profileHash == plan.profileHash
    && record.parameterId == plan.parameterId && record.contextHash == plan.contextHash
    && record.oldRaw == plan.previousRaw && record.oldEngineering == plan.previousEngineering
    && record.targetRaw == plan.targetRaw && record.targetEngineering == plan.requested
  }

  /** The checks of a consumed plan, then session start, audit availability and the durable record, and
      nothing else, come right before the write. */
  ghost predicate ManualEvidence(t: Trace, s: nat, write: BusWrite, parameter: Parameter)
    requires s + 14 == |t|
  {
    && ManualChecked(t, s, parameter)
    && var plan := t[s + 1].stored.plan;
    && t[s + 11] == SingleWriteBegun(plan.operationId, plan.planId, true)
    && t[s + 12] == AuditAvailability(true)
    && t[s + 13].WritePrepared? && RecordsPlan(t[s + 13].record, plan)
    && write.slaveId == t[s + 10].session.slaveId && write.block == parameter.block && parameter.writeFunction == Some(write.function_)
  }

  lemma ManualEvidenceAssembled(front: Trace, t: Trace, stored: StoredPlan, profile: ValidatedProfile, parameter: Parameter,
                                after: RP.SessionSnapshot, record: Preparation, token: Option<PreparedToken>, write: BusWrite)
    requires RecheckedWith(front, stored, profile, parameter, after)
    requires t == front + [SingleWriteBegun(stored.plan.operationId, stored.plan.planId, true), AuditAvailability(true), WritePrepared(record, token)]
    requires RecordsPlan(record, stored.plan)
    requires write.slaveId == after.slaveId && write.block == parameter.block && parameter.writeFunction == Some(write.function_)
    ensures |t| >= 14 && ManualEvidence(t, |t| - 14, write, parameter)
  {
    hide ManualChecked, RecordsPlan;
    ManualStable(front, t, |front| - 11, parameter);
  }

  /** Events `s .. s + 10` show the next approved restore step with every guard checked afresh. */
  ghost predicate StepChecked(t: Trace, s: nat, plan: RP.ApprovedPlan, parameter: Parameter)
    requires s + 11 <= |t|
  {
    && t[s].Called? && t[s].call.ExecuteStep? && t[s].call.index < |plan.steps|
    && var index := t[s].call.index;
    && var step := plan.steps[index];
    && t[s + 1].Snapshot? && RestoreMatchesSession(plan, t[s + 1].session, false)
    && t[s + 2] == RestoreMatched(plan.operationId, plan.planHash, index, true)
    && TrustedProfileAt(t, s + 3, plan.profileHash)
    && t[s + 3].profile.value.Find(step.parameterId) == Some(parameter)
    && StepPolicyHolds(step, parameter)
    && t[s + 5].Snapshot?
    && ReadStopped(t[s + 6], t[s + 3].profile.value, plan.sessionId, plan.operationId)
    && t[s + 7].Snapshot?
    && ReadValue(t[s + 8], parameter, plan.sessionId, plan.operationId, step.expectedOldRaw)
    && t[s + 9].Snapshot? && RestoreMatchesSession(plan, t[s + 9].session, false)
    && t[s + 10] == RestoreMatched(plan.operationId, plan.planHash, index, true)
  }

  lemma StepStable(t: Trace, u: Trace, s: nat, plan: RP.ApprovedPlan, parameter: Parameter)
    requires s + 11 <= |t| && t <= u && StepChecked(t, s, plan, parameter)
    ensures StepChecked(u, s, plan, parameter)
  {
    hide SameContext, ReadValue, ReadStopped, StepPolicyHolds, RestoreMatchesSession;
    assert forall i :: s <= i < s + 11 ==> u[i] == t[i];
  }

  /** Events `s .. s + 4` of `StepChecked`, naming the values the checks came up with. */
  ghost predicate StepOpenedWith(t: Trace, plan: RP.ApprovedPlan, index: nat, before: RP.SessionSnapshot, profile: ValidatedProfile,
                                 parameter: Parameter)
  {
    && |t| >= 5 && index < |plan.steps|
    && var s := |t| - 5;
    && t[s].Called? && t[s].call.ExecuteStep? && t[s].call.index == index
    && t[s + 1] == Snapshot(before) && RestoreMatchesSession(plan, before, false)
    && t[s + 2] == RestoreMatched(plan.operationId, plan.planHash, index, true)
    && TrustedProfileAt(t, s + 3, plan.profileHash) && t[s + 3].profile == Some(profile)
    && profile.Find(plan.steps[index].parameterId) == Some(parameter)
    && StepPolicyHolds(plan.steps[index], parameter)
  }

  lemma StepMeansOpened(t: Trace, plan: RP.ApprovedPlan, index: nat, before: RP.SessionSnapshot, profile: ValidatedProfile,
                        parameter: Parameter)
    requires StepOpenedWith(t, plan, index, before, profile, parameter)
    ensures index < |plan.steps| && profile.Find(plan.steps[index].parameterId) == Some(parameter) && parameter.Valid()
  {
    hide StepPolicyHolds, RestoreMatchesSession;
  }

  /** `StepChecked`, naming the values the checks came up with. */
  ghost predicate StepCheckedWith(t: Trace, plan: RP.ApprovedPlan, index: nat, before: RP.SessionSnapshot, profile: ValidatedProfile,
                                  parameter: Parameter)
  {
    && |t| >= 11 && index < |plan.steps|
    && var s := |t| - 11;
    && StepChecked(t, s, plan, parameter)
    && t[s].call.index == index && t[s + 1] == Snapshot(before) && t[s + 3].profile == Some(profile)
  }

  lemma StepAssembled(front: Trace, t: Trace, plan: RP.ApprovedPlan, index: nat, before: RP.SessionSnapshot,
                      profile: ValidatedProfile, parameter: Parameter)
    requires StepOpenedWith(front, plan, index, before, profile, parameter)
    requires |t| == |front| + 6 && front <= t
    requires t[|front|].Snapshot?
    requires ReadStopped(t[|front| + 1], profile, plan.sessionId, plan.operationId)
    requires t[|front| + 2].Snapshot?
    requires ReadValue(t[|front| + 3], parameter, plan.sessionId, plan.operationId, plan.steps[index].expectedOldRaw)
    requires t[|front| + 4].Snapshot? && RestoreMatchesSession(plan, t[|front| + 4].session, false)
    requires t[|front| + 5] == RestoreMatched(plan.operationId, plan.planHash, index, true)
    ensures StepCheckedWith(t, plan, index, before, profile, parameter)
  {
    hide ReadValue, ReadStopped, StepPolicyHolds, RestoreMatchesSession;
    var s := |front| - 5;
    assert forall i :: s <= i < s + 5 ==> t[i] == front[i];
  }

  lemma StepMeans(t: Trace, plan: RP.ApprovedPlan, index: nat, before: RP.SessionSnapshot, profile: ValidatedProfile, parameter: Parameter)
    requires StepCheckedWith(t, plan, index, before, profile, parameter)
    ensures profile.Find(plan.steps[index].parameterId) == Some(parameter) && parameter.Valid()
    ensures profile.hash == plan.profileHash
    ensures StepPolicyHolds(plan.steps[index], parameter) && parameter.writeFunction.Some?
  {
    hide ReadValue, ReadStopped, RestoreMatchesSession;
  }

  lemma StepEvidenceAssembled(front: Trace, t: Trace, plan: RP.ApprovedPlan, index: nat, before: RP.SessionSnapshot,
                              profile: ValidatedProfile, parameter: Parameter, record: Preparation, token: Option<PreparedToken>,
                              write: BusWrite)
    requires StepCheckedWith(front, plan, index, before, profile, parameter)
    requires t == front + [AuditAvailability(true), WritePrepared(record, token)]
    requires RecordsStep(record, plan, plan.steps[index], parameter.codec)
    requires write.slaveId == before.slaveId && write.block == parameter.block && parameter.writeFunction == Some(write.function_)
    ensures |t| >= 13 && StepEvidence(t, |t| - 13, plan, write, parameter)
  {
    hide StepChecked, RecordsStep;
    StepStable(front, t, |front| - 11, plan, parameter);
  }

  predicate RecordsStep(record: Preparation, plan: RP.ApprovedPlan, step: PH.Step, codec: Codec) {
    && record.operationId == plan.operationId && record.sessionId == plan.sessionId
    && record.fingerprint == plan.fingerprint && record.profileHash == plan.profileHash
    && record.parameterId == step.parameterId
    && record.oldRaw == step.expectedOldRaw && codec.decode(step.expectedOldRaw) == Some(record.oldEngineering)
    && record.targetRaw == step.targetRaw && codec.decode(step.targetRaw) == Some(record.targetEngineering)
  }

  ghost predicate StepEvidence(t: Trace, s: nat, plan: RP.ApprovedPlan, write: BusWrite, parameter: Parameter)
    requires s + 13 == |t|
  {
    && StepChecked(t, s, plan, parameter)
    && t[s + 11] == AuditAvailability(true)
    && t[s + 12].WritePrepared? && RecordsStep(t[s + 12].record, plan, plan.steps[t[s].call.index], parameter.codec)
    && write.slaveId == t[s + 1].session.slaveId && write.block == parameter.block && parameter.writeFunction == Some(write.function_)
  }

  /** Events `s .. s + 5`: a ready session, a trusted profile and a stopped drive. */
  ghost predicate IssueOpened(t: Trace, s: nat, sessionId: nat, operationId: nat, hash: string)
    requires s + 6 <= |t|
  {
    && t[s].Called? && t[s].call.PrepareWrite?
    && t[s + 1].Snapshot? && Ready(t[s + 1].session) && t[s + 1].session.operationIdle
    && t[s + 1].session.sessionId == sessionId == t[s].call.intent.sessionId
    && t[s + 1].session.fingerprint == t[s].call.intent.fingerprint
    && t[s + 1].session.profileHash == t[s].call.intent.profileHash == hash
    && TrustedProfileAt(t, s + 2, hash)
    && t[s + 4].Snapshot?
    && ReadStopped(t[s + 5], t[s + 2].profile.value, sessionId, operationId)
  }

  /** Events `s .. s + 8` show the fresh checks a plan is issued on. */
  ghost predicate IssueChecked(t: Trace, s: nat, stored: StoredPlan)
    requires s + 9 <= |t|
  {
    var plan := stored.plan;
    && IssueOpened(t, s, plan.sessionId, plan.operationId, plan.profileHash)
    && t[s + 1].session.guardRevision == stored.guardRevision
    && var intent := t[s].call.intent;
    && plan.fingerprint == intent.fingerprint && plan.parameterId == intent.parameterId
    && plan.requested == intent.requested
    && plan.previousRaw == intent.previousRaw && plan.previousEngineering == intent.previousEngineering
    && (intent.previewRaw.Some? ==> intent.previewRaw.value == plan.targetRaw)
    && plan.parameterId in t[s + 2].profile.value.parameters
    && var parameter := t[s + 2].profile.value.parameters[plan.parameterId];
    && AuthoritativeTarget(parameter, plan.requested) == Some(plan.targetRaw)
    && plan.confirmation == ConfirmationFor(parameter, plan.requested) && plan.challenge == ChallengeFor(plan.contextHash)
    && t[s + 6].Snapshot?
    && ReadValue(t[s + 7], parameter, plan.sessionId, plan.operationId, plan.previousRaw)
    && parameter.codec.decode(plan.previousRaw) == Some(plan.previousEngineering)
    && t[s + 8].Snapshot? && SameContext(t[s + 1].session, t[s + 8].session)
  }

  lemma IssueAssembled(front: Trace, t: Trace, s: nat, intent: WriteIntent, parameter: Parameter, stored: StoredPlan)
    requires |front| == s + 6 && |t| == s + 9 && front <= t
    requires IssueOpened(front, s, stored.plan.sessionId, stored.plan.operationId, stored.plan.profileHash)
    requires front[s] == Called(PrepareWrite(intent)) && front[s + 1].session.guardRevision == stored.guardRevision
    requires stored.plan.fingerprint == intent.fingerprint && stored.plan.parameterId == intent.parameterId
    requires stored.plan.requested == intent.requested
    requires stored.plan.previousRaw == intent.previousRaw && stored.plan.previousEngineering == intent.previousEngineering
    requires intent.previewRaw.Some? ==> intent.previewRaw.value == stored.plan.targetRaw
    requires front[s + 2].profile.value.Find(stored.plan.parameterId) == Some(parameter)
    requires AuthoritativeTarget(parameter, stored.plan.requested) == Some(stored.plan.targetRaw)
    requires stored.plan.confirmation == ConfirmationFor(parameter, stored.plan.requested)
    requires stored.plan.challenge == ChallengeFor(stored.plan.contextHash)
    requires t[s + 6].Snapshot?
    requires ReadValue(t[s + 7], parameter, stored.plan.sessionId, stored.plan.operationId, stored.plan.previousRaw)
    requires parameter.codec.decode(stored.plan.previousRaw) == Some(stored.plan.previousEngineering)
    requires t[s + 8].Snapshot? && SameContext(front[s + 1].session, t[s + 8].session)
    ensures IssueChecked(t, s, stored)
  {
    hide AuthoritativeTarget, SameContext, ReadValue, ReadStopped;
    assert forall i :: s <= i < s + 6 ==> t[i] == front[i];
  }

  lemma IssueStable(t: Trace, u: Trace, s: nat, draft: StoredPlan, stored: StoredPlan)
    requires s + 9 <= |t| && t <= u && IssueChecked(t, s, draft)
    requires stored == draft.(plan := draft.plan.(expiresAt := stored.plan.expiresAt))
    ensures IssueChecked(u, s, stored)
  {
    assert forall i :: s <= i < s + 9 ==> u[i] == t[i];
  }

  ghost predicate IssueEvidence(t: Trace, s: nat, stored: StoredPlan)
    requires s + 10 == |t|
  {
    && IssueChecked(t, s, stored)
    && t[s + 9].ClockRead? && t[s + 9].now <= stored.plan.expiresAt
  }

  /** Fresh reads of every step's old value, two events per step from index `s` on. */
  ghost predicate StepsReadFrom(t: Trace, s: nat, plan: RP.ApprovedPlan, profile: Profile, done: nat)
    requires done <= |plan.steps| && s + 2 * done <= |t|
  {
    forall i :: 0 <= i < done ==>
      && plan.steps[i].parameterId in profile.parameters
      && StepPolicyHolds(plan.steps[i], profile.parameters[plan.steps[i].parameterId])
      && ReadValue(t[s + 2 * i + 1], profile.parameters[plan.steps[i].parameterId], plan.sessionId, plan.operationId,
                   plan.steps[i].expectedOldRaw)
  }

  lemma StepsReadStable(t: Trace, u: Trace, s: nat, plan: RP.ApprovedPlan, profile: Profile, done: nat)
    requires done <= |plan.steps| && s + 2 * done <= |t| && t <= u
    requires StepsReadFrom(t, s, plan, profile, done)
    ensures StepsReadFrom(u, s, plan, profile, done)
  {
    hide ReadValue, StepPolicyHolds;
    forall i | 0 <= i < done
      ensures plan.steps[i].parameterId in profile.parameters
      ensures StepPolicyHolds(plan.steps[i], profile.parameters[plan.steps[i].parameterId])
      ensures ReadValue(u[s + 2 * i + 1], profile.parameters[plan.steps[i].parameterId], plan.sessionId, plan.operationId,
                        plan.steps[i].expectedOldRaw)
    {
      assert u[s + 2 * i + 1] == t[s + 2 * i + 1];
    }
  }

  lemma StepsReadNone(t: Trace, s: nat, plan: RP.ApprovedPlan, profile: Profile)
    requires s <= |t|
    ensures StepsReadFrom(t, s, plan, profile, 0)
  {
  }

  lemma StepsReadOneMore(t: Trace, u: Trace, s: nat, plan: RP.ApprovedPlan, profile: Profile, done: nat)
    requires done < |plan.steps| && s + 2 * done == |t| && |u| == |t| + 2 && t <= u
    requires StepsReadFrom(t, s, plan, profile, done)
    requires var step := plan.steps[done];
             && step.parameterId in profile.parameters
             && StepPolicyHolds(step, profile.parameters[step.parameterId])
             && ReadValue(u[|t| + 1], profile.parameters[step.parameterId], plan.sessionId, plan.operationId, step.expectedOldRaw)
    ensures StepsReadFrom(u, s, plan, profile, done + 1)
  {
    hide ReadValue, StepPolicyHolds;
    StepsReadStable(t, u, s, plan, profile, done);
  }

  /** Events `s .. s + 6` of `BeginEvidence`, naming the values the checks came up with. */
  ghost predicate RestoreOpenedWith(t: Trace, plan: RP.ApprovedPlan, before: RP.SessionSnapshot, profile: ValidatedProfile) {
    && |t| >= 7
    && var s := |t| - 7;
    && t[s].Called? && t[s].call.BeginRestore? && t[s].call.approved == plan
    && t[s].call.restoreConfirmation == ConfirmRestore(plan.challenge)
    && t[s + 1].ClockRead? && t[s + 1].now <= plan.expiresAt
    && t[s + 2] == Snapshot(before) && RestoreMatchesSession(plan, before, true)
    && TrustedProfileAt(t, s + 3, plan.profileHash) && t[s + 3].profile == Some(profile)
    && t[s + 5].Snapshot?
    && ReadStopped(t[s + 6], profile, plan.sessionId, plan.operationId)
  }

  /** The whole restore was confirmed, in time, and every precondition was checked afresh. */
  ghost predicate BeginEvidence(t: Trace, s: nat, plan: RP.ApprovedPlan)
    requires s + 10 + 2 * |plan.steps| == |t|
  {
    var end := s + 7 + 2 * |plan.steps|;
    && t[s].Called? && t[s].call.BeginRestore? && t[s].call.approved == plan
    && t[s].call.restoreConfirmation == ConfirmRestore(plan.challenge)
    && t[s + 1].ClockRead? && t[s + 1].now <= plan.expiresAt
    && t[s + 2].Snapshot? && RestoreMatchesSession(plan, t[s + 2].session, true)
    && TrustedProfileAt(t, s + 3, plan.profileHash)
    && t[s + 5].Snapshot?
    && ReadStopped(t[s + 6], t[s + 3].profile.value, plan.sessionId, plan.operationId)
    && StepsReadFrom(t, s + 7, plan, t[s + 3].profile.value, |plan.steps|)
    && t[end].Snapshot? && SameContext(t[s + 2].session, t[end].session)
    && t[end + 1] == AuditAvailability(true)
  }

  lemma OpenedLength(t: Trace, plan: RP.ApprovedPlan, before: RP.SessionSnapshot, profile: ValidatedProfile)
    requires RestoreOpenedWith(t, plan, before, profile)
    ensures |t| >= 7
  {
  }

  lemma BeginAssembled(front: Trace, t: Trace, plan: RP.ApprovedPlan, before: RP.SessionSnapshot, profile: ValidatedProfile)
    requires RestoreOpenedWith(front, plan, before, profile)
    requires |t| == |front| + 2 * |plan.steps| + 3 && front <= t
    requires StepsReadFrom(t, |front|, plan, profile, |plan.steps|)
    requires t[|front| + 2 * |plan.steps|].Snapshot? && SameContext(before, t[|front| + 2 * |plan.steps|].session)
    requires t[|front| + 2 * |plan.steps| + 1] == AuditAvailability(true)
    ensures BeginEvidence(t, |t| - 10 - 2 * |plan.steps|, plan)
  {
    hide ReadValue, ReadStopped, StepPolicyHolds, RestoreMatchesSession, SameContext, StepsReadFrom;
    var s := |front| - 7;
    assert forall i :: s <= i < s + 7 ==> t[i] == front[i];
  }

  function Targets(plan: RP.ApprovedPlan, count: nat): (targets: seq<RawRegisters>)
    requires count <= |plan.steps|
    ensures |targets| == count
    ensures forall i :: 0 <= i < count ==> targets[i] == plan.steps[i].targetRaw
  {
    seq(count, i requires 0 <= i < count => plan.steps[i].targetRaw)
  }

  predicate AllVerified(outcomes: seq<DeviceOutcome>) {
    forall i :: 0 <= i < |outcomes| ==> outcomes[i] == Verified
  }

  /** Exactly the first `count` steps were written, in order, and all of them verified. */
  predicate Advanced(l: Ledger, count: nat) {
    && count <= |l.plan.steps|
    && l.durable && l.granted && !l.closed
    && l.writes == Targets(l.plan, count)
    && |l.outcomes| == count && AllVerified(l.outcomes)
    && l.finishes == []
  }

  // ---------------------------------------------------------------- the protocol

  predicate NewRequest(p: Progress, requestId: nat) {
    p.lastRequest < requestId <= U64_MAX || requestId == U64_MAX
  }

  /** May `e` follow trace `t`, whose progress is `p`? */
  ghost predicate Allowed(p: Progress, t: Trace, e: Event) {
    && (p.phase.Prepared? ==> e.BusWritten? || e.WriteFinalized?)
    && match e
       case Called(call) =>
         && p.phase.NoWrite? && p.single != Open
         && (call.BeginRestore? ==> call.permit == |p.ledgers|)
         && (call.ExecuteStep? || call.FinishRestore? || call.AbortRestore? ==> call.permit < |p.ledgers|)
       case PlanIssued(issued) =>
         && |t| >= 10 && IssueEvidence(t, |t| - 10, issued)
         && (issued.plan.planId == U128_MAX || issued.plan.planId !in p.writtenPlans)
       case PlanConsumed(stored) =>
         && p.call.Some? && p.call.value.ConfirmWrite? && p.call.value.planId == stored.plan.planId
         && stored.plan.planId in p.openPlans && p.openPlans[stored.plan.planId] == stored
       case BusReadDone(request, _) =>
         && NewRequest(p, request.requestId)
         && MayRead(p.phase)
         && t != [] && t[|t| - 1].Snapshot? && request.slaveId == t[|t| - 1].session.slaveId
       case DecisionRecorded(_, _) => p.phase.NoWrite?
       case WritePrepared(_, _) =>
         && p.phase.NoWrite? && p.call.Some?
         && (match p.call.value
             case ConfirmWrite(_, _) => p.single == Open
             case ExecuteStep(permit, index) => permit < |p.ledgers| && Advanced(p.ledgers[permit], index) && index < |p.ledgers[permit].plan.steps|
             case _ => false)
       case BusWritten(write, parameter, _) =>
         && p.phase.Prepared?
         && var record := p.phase.record;
         && NewRequest(p, write.requestId)
         && write.requestId == record.requestId && write.operationId == record.operationId
         && write.sessionId == record.sessionId
         && write.function_ == record.writeFunction && write.function_.IsWrite()
         && write.values == record.targetRaw && |write.values| == write.block.count
         && (record.planId == U128_MAX || record.planId !in p.writtenPlans)
         && p.call.Some?
         && (match p.call.value
             case ConfirmWrite(_, _) => p.single == Open && |t| >= 14 && ManualEvidence(t, |t| - 14, write, parameter)
             case ExecuteStep(permit, index) =>
               && permit < |p.ledgers|
               && var l := p.ledgers[permit];
               && Advanced(l, index) && index < |l.plan.steps|
               && write.values == l.plan.steps[index].targetRaw
               && |t| >= 13 && StepEvidence(t, |t| - 13, l.plan, write, parameter)
             case _ => false)
       case WriteFinalized(token, outcome, evidence, _) =>
         !p.phase.NoWrite? && token == p.phase.token && Concludes(p.phase, outcome, evidence)
       case OperationBegun(start, _) =>
         && p.phase.NoWrite? && p.call.Some? && p.call.value.BeginRestore? && HasLedger(p)
         && var l := CurrentLedger(p);
         && l == Untouched(l.plan) && start == StartOf(l.plan)
         && |t| >= 10 + 2 * |l.plan.steps| && BeginEvidence(t, |t| - 10 - 2 * |l.plan.steps|, l.plan)
       case RestoreBegun(operationId, planHash, _) =>
         && p.phase.NoWrite? && p.call.Some? && p.call.value.BeginRestore? && HasLedger(p)
         && var l := CurrentLedger(p);
         && l == Untouched(l.plan).(durable := true)
         && operationId == l.plan.operationId && planHash == l.plan.planHash
       case OperationFinished(token, finish, _) =>
         && p.phase.NoWrite? && HasLedger(p)
         && var l := CurrentLedger(p);
         && l.durable && l.finishes == [] && token.MatchesStart(StartOf(l.plan))
         && (finish.outcome == Completed ==> l.closed && Advanced(l.(closed := false), |l.plan.steps|))
       case SingleWriteBegun(_, _, _) => p.single == NotBegun && p.call.Some? && p.call.value.ConfirmWrite?
       case SingleWriteFinished(_) => p.single == Open && p.phase.NoWrite?
       case AuditDegradedAndDisarmed => p.single != Closed && p.phase.NoWrite?
       case Slept => p.phase.Written?
       case Snapshot(_) => true
       case _ => p.phase.NoWrite?
  }

  /** Event `n` was allowed when it happened. */
  ghost predicate AllowedAt(t: Trace, n: nat)
    requires n < |t|
  {
    Allowed(After(t[..n]), t[..n], t[n])
  }

  ghost predicate Safe(t: Trace) {
    forall n {:trigger AllowedAt(t, n)} :: 0 <= n < |t| ==> AllowedAt(t, n)
  }

  lemma Extend(t: Trace, e: Event)
    requires Safe(t) && Allowed(After(t), t, e)
    ensures Safe(t + [e]) && After(t + [e]) == Next(After(t), |t|, e)
  {
    hide Allowed, Next;
    var u := t + [e];
    assert u[..|t|] == t;
    forall n | 0 <= n < |u| ensures AllowedAt(u, n) {
      if n < |t| {
        assert u[..n] == t[..n];
        assert AllowedAt(t, n);
      }
    }
  }

  /** What being allowed and moving on means at event `n`. */
  lemma At(t: Trace, n: nat)
    requires Safe(t) && n < |t|
    ensures Allowed(After(t[..n]), t[..n], t[n])
    ensures After(t[..n + 1]) == Next(After(t[..n]), n, t[n])
  {
    hide Allowed, Next;
    assert AllowedAt(t, n);
    assert t[..n + 1][..n] == t[..n];
  }

  lemma SafePrefix(t: Trace, n: nat)
    requires Safe(t) && n <= |t|
    ensures Safe(t[..n])
  {
    hide Allowed, After;
    forall k | 0 <= k < n ensures AllowedAt(t[..n], k) {
      assert AllowedAt(t, k);
      assert t[..n][..k] == t[..k];
    }
  }
}
