/** The single-use capability of one durable restore operation. */
module RestorePermits {
  import opened Domain
  import RP = RestorePlanning
  import opened WriteTypes
  import opened WriteProtocol

  datatype StepResult = StepResult(index: nat, parameterId: ParameterId, outcome: DeviceOutcome)

  class RestorePermit {
    ghost const key: nat
    const plan: RP.ApprovedPlan
    var token: Option<OperationToken>
    var nextIndex: nat
    var results: seq<StepResult>
    var active: bool

    /** The permit agrees with the ledger of everything done under it. */
    ghost predicate Consistent(p: Progress)
      reads this
    {
      key < |p.ledgers| && Agrees(p.ledgers[key], plan, token, nextIndex, results, active)
    }

    /** If the permit still holds its token, the operation of ledger `l` is durable and has no finish yet. */
    ghost predicate Unfinished(l: Ledger)
      reads this
    {
      && l.plan == plan && nextIndex <= |plan.steps|
      && (token.Some? ==> l.durable && l.finishes == [] && token.value.MatchesStart(StartOf(plan)))
    }

    constructor (ghost key: nat, token: OperationToken, plan: RP.ApprovedPlan)
      ensures this.key == key && this.plan == plan && this.token == Some(token)
      ensures nextIndex == 0 && results == [] && active
    {
      this.key := key;
      this.plan := plan;
      this.token := Some(token);
      nextIndex, results, active := 0, [], true;
    }

    predicate TokenMatchesPlan()
      reads this
    {
      token.Some? && token.value.MatchesStart(StartOf(plan))
    }

    method RecordVerifiedStep(outcome: DeviceOutcome)
      requires nextIndex < |plan.steps|
      modifies this
      ensures results == old(results) + [StepResult(plan.steps[old(nextIndex)].index, plan.steps[old(nextIndex)].parameterId, outcome)]
      ensures nextIndex == old(nextIndex) + 1 && token == old(token) && active == old(active)
    {
      var step := plan.steps[nextIndex];
      results := results + [StepResult(step.index, step.parameterId, outcome)];
      nextIndex := nextIndex + 1;
    }

    method RecordTerminalStep(index: nat, parameterId: ParameterId, outcome: DeviceOutcome)
      modifies this
      ensures results == old(results) + [StepResult(index, parameterId, outcome)]
      ensures !active && nextIndex == old(nextIndex) && token == old(token)
    {
      results := results + [StepResult(index, parameterId, outcome)];
      active := false;
    }

    method TakeToken() returns (taken: Option<OperationToken>)
      modifies this
      ensures taken == old(token) && token == None && !active
      ensures nextIndex == old(nextIndex) && results == old(results)
    {
      active := false;
      taken := token;
      token := None;
    }
  }

  /** `token` stands for the durable start of the operation recorded in `l`, which has advanced by `count`. */
  predicate Granted(l: Ledger, token: OperationToken, count: nat) {
    token.MatchesStart(StartOf(l.plan)) && Advanced(l, count)
  }

  /** A permit with these fields agrees with the ledger `l` of everything done under it. */
  ghost predicate Agrees(l: Ledger, plan: RP.ApprovedPlan, token: Option<OperationToken>, nextIndex: nat, results: seq<StepResult>,
                         active: bool)
  {
    && l.plan == plan
    && active == token.Some?
    && nextIndex <= |plan.steps|
    && (token.Some? ==> Granted(l, token.value, nextIndex))
    && (active ==> results == VerifiedResults(plan, nextIndex))
  }

  lemma AgreesMeans(l: Ledger, plan: RP.ApprovedPlan, token: Option<OperationToken>, nextIndex: nat, results: seq<StepResult>, active: bool)
    requires Agrees(l, plan, token, nextIndex, results, active)
    ensures l.plan == plan && active == token.Some? && nextIndex <= |plan.steps|
    ensures token.Some? ==> && token.value.MatchesStart(StartOf(plan)) && l.durable && l.finishes == [] && Advanced(l, nextIndex)
                            && Granted(l, token.value, nextIndex)
  {
  }

  /** A permit without its token agrees with any ledger of its plan. */
  lemma SpentAgrees(l: Ledger, plan: RP.ApprovedPlan, nextIndex: nat, results: seq<StepResult>)
    requires l.plan == plan && nextIndex <= |plan.steps|
    ensures Agrees(l, plan, None, nextIndex, results, false)
  {
  }

  lemma GrantedMeans(l: Ledger, token: OperationToken, count: nat)
    requires Granted(l, token, count)
    ensures token.MatchesStart(StartOf(l.plan)) && l.durable && l.finishes == [] && Advanced(l, count)
  {
  }

  /** Closing a permit does not change what it has advanced to. */
  lemma ClosedAdvanced(l: Ledger, count: nat)
    requires Advanced(l, count)
    ensures Advanced(l.(closed := true).(closed := false), count)
  {
  }

  function VerifiedResults(plan: RP.ApprovedPlan, count: nat): (results: seq<StepResult>)
    requires count <= |plan.steps|
    ensures |results| == count
  {
    seq(count, i requires 0 <= i < count => StepResult(i, plan.steps[i].parameterId, Verified))
  }
}

/** The guarded two-phase write core. */
module WriteCoordinators {
  import opened Domain
  import Modbus
  import opened Profiles
  import RP = RestorePlanning
  import PH = PlanHash
  import opened WriteTypes
  import opened WriteProtocol
  import opened WritePorts
  import opened WriteRefusals
  import opened RestorePermits

  datatype Config = Config(processWritesEnabled: bool, planTtl: nat, readBackAttempts: nat)

  datatype PrepareResult = PlanReady(plan: PreparedPlan) | PlanRefused(decision: DecisionOutcome)

  datatype ConfirmResult = UnknownOrConsumedPlan | Outcome(outcome: WriteOutcome)

  datatype StepReport = StepDone(outcome: DeviceOutcome) | StepRefused(error: RestoreError)

  /** What entitles one physical write. */
  datatype Authority =
    | Manual(manual: PreparedPlan)
    | OperationStep(approved: RP.ApprovedPlan, index: nat, contextHash: Digest)
  {
    predicate WellFormed() {
      OperationStep? ==> index < |approved.steps|
    }

    function SessionId(): nat {
      match this
      case Manual(plan) => plan.sessionId
      case OperationStep(plan, _, _) => plan.sessionId
    }

    function OperationId(): nat {
      match this
      case Manual(plan) => plan.operationId
      case OperationStep(plan, _, _) => plan.operationId
    }

    function ProfileHash(): string {
      match this
      case Manual(plan) => plan.profileHash
      case OperationStep(plan, _, _) => plan.profileHash
    }

    function ParameterId(): ParameterId
      requires WellFormed()
    {
      match this
      case Manual(plan) => plan.parameterId
      case OperationStep(plan, index, _) => plan.steps[index].parameterId
    }

    function ExpectedOldRaw(): RawRegisters
      requires WellFormed()
    {
      match this
      case Manual(plan) => plan.previousRaw
      case OperationStep(plan, index, _) => plan.steps[index].expectedOldRaw
    }

    function TargetRaw(): RawRegisters
      requires WellFormed()
    {
      match this
      case Manual(plan) => plan.targetRaw
      case OperationStep(plan, index, _) => plan.steps[index].targetRaw
    }

    predicate ParameterAllowed(parameter: Parameter) {
      if Manual? then ManualAllowed(parameter) else RestoreAllowed(parameter)
    }
  }

  /** The kernel will send the write of `authority` rather than refuse it before the bus. */
  predicate Sendable(authority: Authority, profile: Profile)
    requires authority.WellFormed()
  {
    && profile.hash == authority.ProfileHash()
    && authority.ParameterId() in profile.parameters
    && var parameter := profile.parameters[authority.ParameterId()];
    && |authority.ExpectedOldRaw()| == parameter.block.count
    && authority.ParameterAllowed(parameter)
    && authority.TargetRaw() !in parameter.forbiddenRaw
    && parameter.writeFunction.Some?
    && parameter.writeFunction.value.IsWrite()
    && parameter.writeFunction.value.ValidatesTable(parameter.block.table)
    && parameter.writeFunction.value.ValidatesCount(parameter.block.count)
    && |authority.TargetRaw()| == parameter.block.count
  }

  /** The one bus request `authority` can mint. */
  function Minted(authority: Authority, profile: Profile, requestId: nat, slaveId: nat): BusWrite
    requires authority.WellFormed() && Sendable(authority, profile)
  {
    var parameter := profile.parameters[authority.ParameterId()];
    BusWrite(requestId, authority.SessionId(), authority.OperationId(), slaveId,
             parameter.writeFunction.value, parameter.block, authority.TargetRaw())
  }

  datatype PlanAuthorization =
    | NotAuthorized(decision: DecisionOutcome)
    | Authorized(before: RP.SessionSnapshot, profile: ValidatedProfile, parameter: Parameter)
  datatype PlanResolution =
    | Unresolved(decision: DecisionOutcome)
    | Resolved(profile: ValidatedProfile, parameter: Parameter)
  datatype PlanRecheck =
    | Refused(decision: DecisionOutcome)
    | Rechecked(profile: ValidatedProfile, parameter: Parameter, after: RP.SessionSnapshot)
  datatype RestorePlanResult = RestorePlanned(plan: RP.ApprovedPlan) | RestoreNotPlanned(error: RP.PlanError)
  datatype PlanningOpening =
    | PlanningOpened(operationId: nat, before: RP.SessionSnapshot, profile: ValidatedProfile)
    | PlanningNotOpened(error: RP.PlanError)
  datatype RestoreBeginning = RestoreStarted(permit: RestorePermit) | RestoreNotStarted(error: RestoreError)
  datatype RestoreResolution = RestoreResolved(profile: ValidatedProfile) | RestoreUnresolved(error: RestoreError)
  datatype RestoreOpening = RestoreOpened(before: RP.SessionSnapshot, profile: ValidatedProfile) | RestoreNotOpened(error: RestoreError)
  datatype StepOpening = StepOpened(before: RP.SessionSnapshot, profile: ValidatedProfile, parameter: Parameter) | StepBlocked
  datatype StepCheck =
    | StepReady(before: RP.SessionSnapshot, profile: ValidatedProfile, parameter: Parameter,
                oldEngineering: EngineeringValue, targetEngineering: EngineeringValue)
    | StepNotReady
  datatype IntentResolution =
    | NotResolved(decision: DecisionOutcome)
    | IntentResolved(before: RP.SessionSnapshot, profile: ValidatedProfile, parameter: Parameter)
  datatype IntentOpening = NotOpened(decision: DecisionOutcome) | Opened(before: RP.SessionSnapshot, parameter: Parameter)
  datatype IntentCheck = NotIssued(decision: DecisionOutcome) | Issuable(stored: StoredPlan)

  /** The bus request, unless its function, table, count and values do not fit together. */
  function MintWrite(authority: Authority, parameter: Parameter, requestId: nat, slaveId: nat): Option<BusWrite>
    requires authority.WellFormed() && parameter.writeFunction.Some?
  {
    var function_ := parameter.writeFunction.value;
    if function_.IsWrite() && function_.ValidatesTable(parameter.block.table)
       && function_.ValidatesCount(parameter.block.count) && |authority.TargetRaw()| == parameter.block.count
    then Some(BusWrite(requestId, authority.SessionId(), authority.OperationId(), slaveId, function_, parameter.block, authority.TargetRaw()))
    else None
  }

  ghost predicate FreshlyWritten(phase: Phase, parameter: Parameter, target: RawRegisters) {
    && phase.Written? && phase.result.WriteOk?
    && phase.parameter == parameter && phase.record.targetRaw == target
    && phase.attempts == 0 && phase.matched.None? && phase.mismatch.None?
  }

  /** From `p` to `q` nothing happened but the read-back of the write under way. */
  ghost predicate SameWrite(p: Progress, q: Progress) {
    && p.phase.Written? && q.phase.Written?
    && q == p.(lastRequest := q.lastRequest, phase := p.phase.(
              attempts := q.phase.attempts, matched := q.phase.matched, mismatch := q.phase.mismatch))
  }

  /** From `p` to `q` the one write `write` went out and was read back. */
  ghost predicate Sent(p: Progress, write: BusWrite, q: Progress)
    requires p.phase.Prepared?
  {
    q == AfterWrite(p, write).(lastRequest := q.lastRequest, phase := q.phase)
  }

  /** Everything but the number of the last bus request is as it was. */
  ghost predicate OnlyReads(p: Progress, q: Progress) {
    q == p.(lastRequest := q.lastRequest)
  }

  /** Finalization clears the transaction and adds its outcome to the permit it was made under. */
  function Finalized(p: Progress, final: DeviceOutcome): Progress {
    var q := p.(phase := NoWrite);
    if HasLedger(p) then WithLedger(q, CurrentLedger(p).(outcomes := CurrentLedger(p).outcomes + [final])) else q
  }

  /** From `p` to `q` the one write `write` went out, was read back and finalized as `final`. */
  ghost predicate Performed(p: Progress, write: BusWrite, final: DeviceOutcome, q: Progress)
    requires p.phase.Prepared?
  {
    q == Finalized(AfterWrite(p, write), final).(lastRequest := q.lastRequest)
  }

  /** What confirming `planId` adds: an executed outcome exactly if the plan's write went out. */
  ghost predicate Confirmed(p: Progress, planId: nat, outcome: WriteOutcome, q: Progress) {
    && q.writtenPlans == (if outcome.Executed? then p.writtenPlans + {planId} else p.writtenPlans)
    && q.phase.NoWrite? && q.single != Open && q.ledgers == p.ledgers && q.openPlans == p.openPlans
  }

  /** The single write was finalized and then closed in the session with the same outcome. */
  ghost predicate Finished(t: Trace, final: DeviceOutcome) {
    t != [] && t[|t| - 1] == SingleWriteFinished(Executed(final)) && Settled(t[..|t| - 1], final)
  }

  /** The operation was given up from event `n` on; an end that is not durable degrades the session. */
  ghost predicate GivenUp(t: Trace, n: nat, plan: RP.ApprovedPlan, token: OperationToken, nextIndex: nat) {
    && GaveUp(t, n, plan, token, nextIndex)
    && |t| == (if t[n + 1].persisted then n + 4 else n + 5)
    && (!t[n + 1].persisted ==> t[n + 4] == AuditDegradedAndDisarmed)
  }

  /** From event `n` on, the audit failed to make the record of a step durable; the operation was given up
      and the session degraded. */
  ghost predicate StepUnrecorded(t: Trace, n: nat, plan: RP.ApprovedPlan, token: OperationToken, nextIndex: nat) {
    && t != [] && t[|t| - 1] == AuditDegradedAndDisarmed
    && exists m: nat :: n <= m <= |t| && Unrecorded(t[..m], n) && GivenUp(t[..|t| - 1], m, plan, token, nextIndex)
  }

  /** From event `n` on, the audit failed: it was unavailable, or did not make the record durable. */
  ghost predicate Unrecorded(t: Trace, n: nat) {
    && n < |t|
    && if t[n] == AuditAvailability(false) then |t| == n + 1
       else |t| == n + 2 && t[n] == AuditAvailability(true) && t[n + 1].WritePrepared? && AuditFailed(t[n + 1])
  }

  /** What follows a written step that did not lead on: a verified one was not advanced by the session, any
      other ends the operation, and an outcome that is not durable degrades the session. */
  ghost predicate StepGivenUp(t: Trace, n: nat, plan: RP.ApprovedPlan, token: OperationToken, index: nat, final: DeviceOutcome) {
    if final == Verified then
      && n < |t| && t[n] == RestoreAdvanced(plan.operationId, plan.planHash, index + 1, false)
      && GivenUp(t, n + 1, plan, token, index + 1)
    else if final == AuditDegraded then
      t != [] && t[|t| - 1] == AuditDegradedAndDisarmed && GivenUp(t[..|t| - 1], n, plan, token, index)
    else GivenUp(t, n, plan, token, index)
  }

  /** The operation was aborted from event `n` on; `error` tells whether both its ends took place. */
  ghost predicate Abandoned(t: Trace, n: nat, plan: RP.ApprovedPlan, token: OperationToken, nextIndex: nat, error: Option<RestoreError>) {
    && GaveUp(t, n, plan, token, nextIndex)
    && if t[n + 1].persisted && t[n + 2].accepted then error.None? && |t| == n + 4
       else error == Some(RestoreFinalizationFailed) && t[n + 4..] == [AuditDegradedAndDisarmed]
  }

  /** Why a restore was not completed, from event `n` on. */
  ghost predicate NotCompleted(t: Trace, n: nat, plan: RP.ApprovedPlan, token: OperationToken, nextIndex: nat, error: RestoreError) {
    && t != [] && t[|t| - 1] == AuditDegradedAndDisarmed
    && if nextIndex != |plan.steps| then error == InvalidRestorePermit
       else
         && n < |t|
         && if t[n] == RestoreMatched(plan.operationId, plan.planHash, nextIndex, false) then error == InvalidRestorePermit
            else error == RestoreFinalizationFailed && DoesNotEnd(t, n + 1, plan, token)
  }

  function RecordOf(plan: PreparedPlan, requestId: nat, function_: Modbus.Function): (record: Preparation)
    ensures RecordsPlan(record, plan)
  {
    Preparation(plan.planId, plan.operationId, requestId, plan.sessionId, plan.fingerprint, plan.profileHash, plan.parameterId,
                plan.contextHash, plan.previousRaw, plan.previousEngineering, plan.targetRaw, plan.requested, function_)
  }

  /** A rechecked plan is always sent: the kernel's own guards repeat what was checked already. */
  lemma PlanSendable(plan: PreparedPlan, profile: ValidatedProfile, parameter: Parameter)
    requires profile.hash == plan.profileHash && profile.Find(plan.parameterId) == Some(parameter)
    requires |plan.previousRaw| == parameter.block.count
    requires AuthoritativeTarget(parameter, plan.requested) == Some(plan.targetRaw)
    ensures Sendable(Manual(plan), profile)
    ensures plan.parameterId in profile.parameters && profile.parameters[plan.parameterId] == parameter
    ensures parameter.Valid() && parameter.writeFunction.Some? && parameter.writeFunction.value.IsWrite()
  {
    hide RequestAccepted;
  }

  lemma ManualWriteAllowed(front: Trace, t: Trace, p: Progress, stored: StoredPlan, profile: ValidatedProfile, parameter: Parameter,
                           after: RP.SessionSnapshot, record: Preparation, token: PreparedToken)
    requires RecheckedWith(front, stored, profile, parameter, after)
    requires t == front + [SingleWriteBegun(stored.plan.operationId, stored.plan.planId, true), AuditAvailability(true), WritePrepared(record, Some(token))]
    requires Sendable(Manual(stored.plan), profile) && profile.parameters[stored.plan.parameterId] == parameter
    requires record == RecordOf(stored.plan, record.requestId, parameter.writeFunction.value)
    requires p.phase == Prepared(record, token) && p.single == Open && p.call.Some? && p.call.value.ConfirmWrite?
    requires NewRequest(p, record.requestId)
    requires stored.plan.planId == U128_MAX || stored.plan.planId !in p.writtenPlans
    ensures Allowed(p, t, BusWritten(Minted(Manual(stored.plan), profile, record.requestId, after.slaveId), parameter, WriteOk))
  {
    hide RecheckedWith, ManualEvidence, RecordsPlan, BeginEvidence, StepEvidence, IssueEvidence, ManualAllowed;
    var write := Minted(Manual(stored.plan), profile, record.requestId, after.slaveId);
    ManualEvidenceAssembled(front, t, stored, profile, parameter, after, record, Some(token), write);
  }

  lemma ReadValueIntro(e: Event, parameter: Parameter, sessionId: nat, operationId: nat, raw: RawRegisters)
    requires e.BusReadDone? && e.value == Some(raw) && ReadsBlock(e.request, parameter, sessionId, operationId)
    ensures ReadValue(e, parameter, sessionId, operationId, raw)
  {
  }

  /** Event `n + 1` is a fresh read that confirmed the old value of `step`. */
  ghost predicate OldValueRead(t: Trace, n: nat, step: PH.Step, profile: Profile, sessionId: nat, operationId: nat) {
    && n + 1 < |t|
    && step.parameterId in profile.parameters
    && ReadValue(t[n + 1], profile.parameters[step.parameterId], sessionId, operationId, step.expectedOldRaw)
  }

  /** `error` says what is wrong with the old value of `step`, which was to be read at event `n + 1`. */
  ghost predicate OldValueUnconfirmed(t: Trace, n: nat, step: PH.Step, profile: Profile, sessionId: nat, operationId: nat, error: RP.PlanError) {
    if step.parameterId !in profile.parameters then error == RP.InvalidBackupParameter(step.parameterId)
    else
      && error == RP.PreconditionChanged
      && n + 1 < |t| && t[n + 1].BusReadDone?
      && ReadsBlock(t[n + 1].request, profile.parameters[step.parameterId], sessionId, operationId)
      && t[n + 1].value != Some(step.expectedOldRaw)
  }

  /** From index `s` on, the trace holds one fresh read for each of the first `done` steps that confirmed its
      old value. */
  ghost predicate OldValuesRead(t: Trace, s: nat, plan: RP.ApprovedPlan, profile: Profile, sessionId: nat, operationId: nat, done: nat) {
    && done <= |plan.steps|
    && |t| == s + 2 * done
    && forall k :: 0 <= k < done ==> OldValueRead(t, s + 2 * k, plan.steps[k], profile, sessionId, operationId)
  }

  lemma OldValuesReadOneMore(t: Trace, u: Trace, s: nat, plan: RP.ApprovedPlan, profile: Profile, sessionId: nat, operationId: nat, done: nat)
    requires OldValuesRead(t, s, plan, profile, sessionId, operationId, done) && done < |plan.steps|
    requires t <= u && |u| == |t| + 2
    requires OldValueRead(u, s + 2 * done, plan.steps[done], profile, sessionId, operationId)
    ensures OldValuesRead(u, s, plan, profile, sessionId, operationId, done + 1)
  {
    hide ReadValue;
    forall k | 0 <= k < done + 1
      ensures OldValueRead(u, s + 2 * k, plan.steps[k], profile, sessionId, operationId)
    {
      if k < done {
        assert OldValueRead(t, s + 2 * k, plan.steps[k], profile, sessionId, operationId);
      }
    }
  }

  lemma OldValuesReadNone(t: Trace, plan: RP.ApprovedPlan, profile: Profile, sessionId: nat, operationId: nat)
    ensures OldValuesRead(t, |t|, plan, profile, sessionId, operationId, 0)
  {
  }

  lemma OldValuesLength(t: Trace, s: nat, plan: RP.ApprovedPlan, profile: Profile, sessionId: nat, operationId: nat, done: nat)
    requires OldValuesRead(t, s, plan, profile, sessionId, operationId, done)
    ensures |t| == s + 2 * done
  {
  }

  /** `plan` is the plan for the two backups, and the end of `t` shows that every value it will overwrite
      was just read from the device, in a session that did not change meanwhile. */
  ghost predicate PlannedFor(plan: RP.ApprovedPlan, source: RP.Backup, preRestore: RP.Backup, profile: ValidatedProfile,
                             before: RP.SessionSnapshot, operationId: nat, digest: seq<PH.Byte> -> Digest, diff: RP.Diff, t: Trace)
  {
    && RP.IsDiff(diff, source, preRestore, profile)
    && RP.PlanFor(plan, source, preRestore, profile, before, operationId, plan.expiresAt, digest, diff)
    && var last := |t| - 1;
    && last >= 2 * |plan.steps|
    && OldValuesRead(t[..last], last - 2 * |plan.steps|, plan, profile, before.sessionId, operationId, |plan.steps|)
    && t[last].Snapshot? && SameContext(before, t[last].session)
  }

  /** Why no plan came out of the two backups; reads start at event `n`. */
  ghost predicate BuildRefused(t: Trace, n: nat, source: RP.Backup, preRestore: RP.Backup, profile: ValidatedProfile,
                               before: RP.SessionSnapshot, operationId: nat, digest: seq<PH.Byte> -> Digest, diff: RP.Diff,
                               draft: Option<RP.ApprovedPlan>, error: RP.PlanError)
  {
    match draft
    case None =>
      if error == RP.NoEligibleChanges
      then RP.IsDiff(diff, source, preRestore, profile) && RP.SelectedIds(profile.restoreOrder, diff) == []
      else RP.RefusedBefore(error, source, preRestore, profile, before)
    case Some(plan) =>
      && RP.IsDiff(diff, source, preRestore, profile)
      && RP.PlanFor(plan, source, preRestore, profile, before, operationId, plan.expiresAt, digest, diff)
      && ((exists i {:trigger plan.steps[i]} :: 0 <= i < |plan.steps|
             && OldValueUnconfirmed(t, n + 2 * i, plan.steps[i], profile, before.sessionId, operationId, error))
          || (error == RP.PreconditionChanged && ContextChanged(t, n + 2 * |plan.steps|, before)))
  }

  /** From `p` to `q` nothing changed but the ledger of the permit at hand, and bus reads happened. */
  ghost predicate OnlyCurrentLedger(p: Progress, q: Progress) {
    && HasLedger(p) && HasLedger(q)
    && q == WithLedger(p, CurrentLedger(q)).(lastRequest := q.lastRequest)
  }

  ghost predicate BeginReady(t: Trace, plan: RP.ApprovedPlan) {
    |t| >= 10 + 2 * |plan.steps| && BeginEvidence(t, |t| - 10 - 2 * |plan.steps|, plan)
  }

  lemma BeginIsReady(front: Trace, read: Trace, plan: RP.ApprovedPlan, before: RP.SessionSnapshot, after: RP.SessionSnapshot,
                     profile: ValidatedProfile)
    requires RestoreOpenedWith(front, plan, before, profile)
    requires front <= read && |read| == |front| + 2 * |plan.steps|
    requires StepsReadFrom(read, |front|, plan, profile, |plan.steps|)
    requires SameContext(before, after)
    ensures forall now: U128 :: BeginReady(read + [Snapshot(after)] + [AuditAvailability(true), ClockRead(now)], plan)
  {
    hide StepsReadFrom, SameContext, RestoreOpenedWith, BeginEvidence;
    forall now: U128 ensures BeginReady(read + [Snapshot(after)] + [AuditAvailability(true), ClockRead(now)], plan) {
      var t := read + [Snapshot(after)] + [AuditAvailability(true), ClockRead(now)];
      StepsReadStable(read, t, |front|, plan, profile, |plan.steps|);
      assert |front| >= 7 by { OpenedLength(front, plan, before, profile); }
      BeginAssembled(front, t, plan, before, profile);
    }
  }

  function Outgone(l: Ledger, target: RawRegisters, outcome: DeviceOutcome): Ledger {
    l.(writes := l.writes + [target], outcomes := l.outcomes + [outcome])
  }

  lemma PlanPerformed(p: Progress, write: BusWrite, final: DeviceOutcome, q: Progress)
    requires p.phase.Prepared? && !HasLedger(p) && Performed(p, write, final, q)
    ensures q == p.(phase := NoWrite, lastRequest := q.lastRequest, writtenPlans := p.writtenPlans + {p.phase.record.planId})
  {
  }

  lemma StepPerformed(p: Progress, write: BusWrite, final: DeviceOutcome, q: Progress)
    requires p.phase.Prepared? && HasLedger(p) && Performed(p, write, final, q)
    ensures HasLedger(q)
    ensures q == WithLedger(p, Outgone(CurrentLedger(p), write.values, final)).(
                   phase := NoWrite, lastRequest := q.lastRequest, writtenPlans := p.writtenPlans + {p.phase.record.planId})
  {
    assert p.ledgers[CurrentPermit(p).value := CurrentLedger(p).(writes := CurrentLedger(p).writes + [write.values])]
                    [CurrentPermit(p).value := Outgone(CurrentLedger(p), write.values, final)]
        == p.ledgers[CurrentPermit(p).value := Outgone(CurrentLedger(p), write.values, final)];
  }

  /** What one call for the step with target `target` adds to the ledger of its permit. */
  ghost predicate StepEffect(l: Ledger, m: Ledger, target: RawRegisters, report: StepReport) {
    match report
    case StepDone(outcome) =>
      m == Outgone(l, target, outcome).(finishes := if outcome == Verified then l.finishes else [Aborted])
    case StepRefused(error) =>
      || (m == l.(finishes := [Aborted]) && (error == InvalidRestorePermit || error == RestoreAuditUnavailable))
      || (m == Outgone(l, target, Verified).(finishes := [Aborted]) && error == InvalidRestorePermit)
  }

  /** A verified step takes the permit on by one. */
  lemma VerifiedAgrees(l: Ledger, plan: RP.ApprovedPlan, token: OperationToken, index: nat, results: seq<StepResult>)
    requires Agrees(l, plan, Some(token), index, results, true) && index < |plan.steps|
    ensures Agrees(Outgone(l, plan.steps[index].targetRaw, Verified), plan, Some(token), index + 1,
                   results + [StepResult(plan.steps[index].index, plan.steps[index].parameterId, Verified)], true)
  {
    assert VerifiedResults(plan, index + 1) == VerifiedResults(plan, index) + [StepResult(index, plan.steps[index].parameterId, Verified)];
    assert Targets(plan, index + 1) == Targets(plan, index) + [plan.steps[index].targetRaw];
  }

  lemma BlockedEffect(l: Ledger, target: RawRegisters)
    ensures StepEffect(l, l.(finishes := [Aborted]), target, StepRefused(InvalidRestorePermit))
  {
  }

  function StepRecord(plan: RP.ApprovedPlan, index: nat, planId: nat, requestId: nat, contextHash: Digest, codec: Codec,
                      oldEngineering: EngineeringValue, targetEngineering: EngineeringValue, function_: Modbus.Function)
    : (record: Preparation)
    requires index < |plan.steps|
    requires codec.decode(plan.steps[index].expectedOldRaw) == Some(oldEngineering)
    requires codec.decode(plan.steps[index].targetRaw) == Some(targetEngineering)
    ensures RecordsStep(record, plan, plan.steps[index], codec)
  {
    var step := plan.steps[index];
    Preparation(planId, plan.operationId, requestId, plan.sessionId, plan.fingerprint, plan.profileHash, step.parameterId,
                contextHash, step.expectedOldRaw, oldEngineering, step.targetRaw, targetEngineering, function_)
  }

  /** A checked step is always sent: the kernel's own guards repeat what was checked already. */
  lemma StepSendable(plan: RP.ApprovedPlan, index: nat, contextHash: Digest, profile: ValidatedProfile, parameter: Parameter)
    requires index < |plan.steps|
    requires profile.hash == plan.profileHash && profile.Find(plan.steps[index].parameterId) == Some(parameter)
    requires StepPolicyHolds(plan.steps[index], parameter)
    ensures Sendable(OperationStep(plan, index, contextHash), profile)
    ensures plan.steps[index].parameterId in profile.parameters && profile.parameters[plan.steps[index].parameterId] == parameter
    ensures parameter.Valid() && parameter.writeFunction.Some? && parameter.writeFunction.value.IsWrite()
  {
  }

  lemma StepWriteAllowed(front: Trace, t: Trace, p: Progress, plan: RP.ApprovedPlan, index: nat, before: RP.SessionSnapshot,
                         profile: ValidatedProfile, parameter: Parameter, record: Preparation, token: PreparedToken, contextHash: Digest)
    requires index < |plan.steps|
    requires StepCheckedWith(front, plan, index, before, profile, parameter)
    requires t == front + [AuditAvailability(true), WritePrepared(record, Some(token))]
    requires RecordsStep(record, plan, plan.steps[index], parameter.codec)
    requires Sendable(OperationStep(plan, index, contextHash), profile)
    requires profile.parameters[plan.steps[index].parameterId] == parameter && record.writeFunction == parameter.writeFunction.value
    requires p.phase == Prepared(record, token) && p.call.Some? && p.call.value.ExecuteStep? && p.call.value.index == index
    requires HasLedger(p) && Advanced(CurrentLedger(p), index) && CurrentLedger(p).plan == plan
    requires NewRequest(p, record.requestId)
    requires record.planId == U128_MAX || record.planId !in p.writtenPlans
    ensures record.targetRaw == plan.steps[index].targetRaw
    ensures Allowed(p, t, BusWritten(Minted(OperationStep(plan, index, contextHash), profile, record.requestId, before.slaveId), parameter, WriteOk))
  {
    hide StepCheckedWith, StepEvidence, BeginEvidence, ManualEvidence, IssueEvidence, RestoreAllowed, Advanced, RP.RestoreEligibility, Profile.Find;
    var write := Minted(OperationStep(plan, index, contextHash), profile, record.requestId, before.slaveId);
    StepEvidenceAssembled(front, t, plan, index, before, profile, parameter, record, Some(token), write);
  }

  /** Every id written under is below `next`, unless ids are saturated. */
  ghost predicate IdsFresh(next: nat, written: set<nat>) {
    && next <= U128_MAX
    && (forall id :: id in written ==> id < next || id == U128_MAX)
  }

  /** Every stored plan is sealed, filed under its own id, and has never been written. */
  ghost predicate StoreSound(plans: map<nat, StoredPlan>, next: nat, digest: HashedContext -> Digest, written: set<nat>) {
    forall id :: id in plans ==>
      && plans[id].plan.planId == id
      && plans[id].plan.contextHash == digest(ContextOf(plans[id]))
      && (id == U128_MAX || (id < next && id !in written))
  }

  /** Writing under a fresh id leaves the stored plans as they are. */
  lemma StoreStaysSound(plans: map<nat, StoredPlan>, next: nat, digest: HashedContext -> Digest, written: set<nat>,
                        later: nat, writtenLater: set<nat>)
    requires StoreSound(plans, next, digest, written) && next <= later
    requires writtenLater <= written + {next}
    ensures StoreSound(plans, later, digest, writtenLater)
  {
  }

  lemma NextIdIsNew(plans: map<nat, StoredPlan>, next: nat, digest: HashedContext -> Digest, written: set<nat>)
    requires StoreSound(plans, next, digest, written) && IdsFresh(next, written)
    ensures next <= U128_MAX && (next < U128_MAX ==> next !in plans)
    ensures StoreSound(plans, SaturatingAdd(next, 1, U128_MAX), digest, written)
  {
  }

  /** A sealed plan filed under the next id keeps the store sound. */
  lemma StoreWith(plans: map<nat, StoredPlan>, next: nat, digest: HashedContext -> Digest, written: set<nat>, stored: StoredPlan)
    requires StoreSound(plans, next, digest, written) && next <= U128_MAX
    requires stored.plan.planId == next && stored.plan.contextHash == digest(ContextOf(stored))
    requires next == U128_MAX || next !in written
    ensures StoreSound(plans[next := stored], SaturatingAdd(next, 1, U128_MAX), digest, written)
  {
  }

  /** A plan taken out of the store may be written. */
  lemma StoreWithout(plans: map<nat, StoredPlan>, next: nat, digest: HashedContext -> Digest, written: set<nat>, taken: nat)
    requires StoreSound(plans, next, digest, written) && IdsFresh(next, written) && taken in plans
    ensures plans[taken].plan.planId == taken && plans[taken].plan.contextHash == digest(ContextOf(plans[taken]))
    ensures taken == U128_MAX || taken !in written
    ensures StoreSound(plans - {taken}, next, digest, written) && StoreSound(plans - {taken}, next, digest, written + {taken})
    ensures IdsFresh(next, written + {taken})
  {
  }

  class WriteCoordinator {
    const ports: Ports
    const config: Config
    const contextDigest: HashedContext -> Digest
    const planDigest: seq<PH.Byte> -> Digest
    var plans: map<nat, StoredPlan>
    var nextPlanId: nat
    var nextOperationId: nat
    var nextRequestId: nat

    /** The bus is usable and the next request id is new, unless the counter is saturated. */
    ghost predicate Serving()
      reads this, ports
    {
      && ports.Valid()
      && nextRequestId <= U64_MAX
      && (ports.progress.lastRequest < nextRequestId || nextRequestId == U64_MAX)
    }

    /** The next plan id has never been written under, unless the counter is saturated. */
    ghost predicate PlanIdsFresh()
      reads this, ports
    {
      IdsFresh(nextPlanId, ports.progress.writtenPlans)
    }

    ghost predicate PlansStored()
      reads this, ports
    {
      plans == ports.progress.openPlans && StoreSound(plans, nextPlanId, contextDigest, ports.progress.writtenPlans)
    }

    /** Holds between operations. */
    ghost predicate Valid()
      reads this, ports
    {
      && Serving()
      && 1 <= config.readBackAttempts <= 4
      && PlanIdsFresh()
      && PlansStored()
      && ports.progress.phase.NoWrite? && ports.progress.single != Open
    }

    constructor (ports: Ports, config: Config, contextDigest: HashedContext -> Digest, planDigest: seq<PH.Byte> -> Digest)
      requires ports.Valid() && ports.progress == START
      requires 1 <= config.readBackAttempts <= 4
      ensures Valid() && this.ports == ports && plans == map[]
    {
      this.ports, this.config, this.contextDigest, this.planDigest := ports, config, contextDigest, planDigest;
      plans, nextPlanId, nextOperationId, nextRequestId := map[], 1, 1, 1;
    }

    // ------------------------------------------------------------ helpers

    method AllocatePlanId() returns (id: nat)
      requires PlanIdsFresh()
      modifies this`nextPlanId
      ensures id == old(nextPlanId) && nextPlanId == SaturatingAdd(id, 1, U128_MAX)
      ensures PlanIdsFresh()
      ensures id == U128_MAX || id !in ports.progress.writtenPlans
    {
      id := nextPlanId;
      nextPlanId := SaturatingAdd(nextPlanId, 1, U128_MAX);
    }

    method AllocateOperationId() returns (id: nat)
      modifies this`nextOperationId
      ensures id == old(nextOperationId)
    {
      id := nextOperationId;
      nextOperationId := SaturatingAdd(nextOperationId, 1, U128_MAX);
    }

    method AllocateRequestId() returns (id: nat)
      requires Serving()
      modifies this`nextRequestId
      ensures id == old(nextRequestId) && nextRequestId == SaturatingAdd(id, 1, U64_MAX)
      ensures Serving()
      ensures NewRequest(ports.progress, id) && (id < nextRequestId || nextRequestId == U64_MAX)
    {
      id := nextRequestId;
      nextRequestId := SaturatingAdd(nextRequestId, 1, U64_MAX);
    }

    /** One fresh read of `parameter`, addressed to the slave of the session at this moment. */
    method ReadParameterRaw(parameter: Parameter, sessionId: nat, operationId: nat) returns (value: Option<RawRegisters>)
      requires Serving() && MayRead(ports.progress.phase)
      modifies this`nextRequestId, ports
      ensures Serving()
      ensures !parameter.block.ValidFor(Modbus.ReadFunction(parameter.block.table)) ==>
                value.None? && ports.trace == old(ports.trace) && ports.progress == old(ports.progress)
      ensures parameter.block.ValidFor(Modbus.ReadFunction(parameter.block.table)) ==>
                var n := |old(ports.trace)|;
                && |ports.trace| == n + 2 && old(ports.trace) <= ports.trace
                && ports.trace[n].Snapshot? && ports.trace[n + 1].BusReadDone?
                && ports.trace[n + 1].value == value
                && ReadsBlock(ports.trace[n + 1].request, parameter, sessionId, operationId)
                && ports.progress == Next(old(ports.progress), n + 1, ports.trace[n + 1])
      ensures old(ports.progress).phase.NoWrite? ==> OnlyReads(old(ports.progress), ports.progress)
    {
      hide Safe, After;
      var requestId := AllocateRequestId();
      var function_ := Modbus.ReadFunction(parameter.block.table);
      if !parameter.block.ValidFor(function_) {
        return None;
      }
      var session := ports.SessionSnapshot();
      value := ports.ReadBus(ReadRequest(requestId, sessionId, operationId, session.slaveId, function_, parameter.block));
    }

    /** None when the profile names no usable source or the read failed. */
    method ReadDriveState(profile: ValidatedProfile, sessionId: nat, operationId: nat) returns (state: Option<DriveState>)
      requires Serving() && ports.progress.phase.NoWrite?
      modifies this`nextRequestId, ports
      ensures Serving() && OnlyReads(old(ports.progress), ports.progress)
      ensures old(ports.trace) <= ports.trace
      ensures state == Some(Stopped) ==>
                var n := |old(ports.trace)|;
                && |ports.trace| == n + 2
                && ports.trace[n].Snapshot?
                && ReadStopped(ports.trace[n + 1], profile, sessionId, operationId)
      ensures state != Some(Stopped) ==> NotStopped(ports.trace, |old(ports.trace)|, profile, sessionId, operationId)
    {
      hide Safe, After;
      if profile.driveStateSource.None? {
        return None;
      }
      var source := profile.driveStateSource.value;
      var parameter := profile.Find(source.parameterId);
      if parameter.None? {
        return None;
      }
      var raw := ReadParameterRaw(parameter.value, sessionId, operationId);
      if raw.None? {
        return None;
      }
      return Some(source.Classify(raw.value));
    }

    /** The decision that is reported: what was decided if it could be persisted, AuditUnavailable otherwise. */
    method PersistDecision(planId: nat, sessionId: nat, parameterId: ParameterId, contextHash: Option<string>,
                           decision: DecisionOutcome)
      returns (actual: DecisionOutcome)
      requires Serving() && ports.progress.phase.NoWrite? && ports.progress.single == NotBegun
      requires decision != AuditUnavailable
      modifies ports
      ensures Serving() && ports.progress == old(ports.progress) && old(ports.trace) <= ports.trace
      ensures actual == decision || actual == AuditUnavailable
      ensures if actual == AuditUnavailable then Degraded(ports.trace)
              else Recorded(ports.trace, Decision(planId, sessionId, parameterId, contextHash, decision))
    {
      hide Safe, After;
      var at := ports.MonotonicNow();
      var record := Decision(planId, sessionId, parameterId, contextHash, decision);
      var up := ports.AuditAvailable();
      if up {
        var persisted := ports.RecordDecision(record);
        if persisted {
          return decision;
        }
      }
      ports.DegradeAuditAndDisarm();
      ports.ReportDiagnostic();
      return AuditUnavailable;
    }

    method TrustedProfile(hash: string) returns (profile: Option<ValidatedProfile>)
      requires Serving() && ports.progress.phase.NoWrite?
      modifies ports
      ensures Serving() && ports.progress == old(ports.progress) && old(ports.trace) <= ports.trace
      ensures profile.Some? ==>
                var n := |old(ports.trace)|;
                && |ports.trace| == n + 2
                && TrustedProfileAt(ports.trace, n, hash)
                && ports.trace[n].profile == profile && profile.value.hash == hash
      ensures profile.None? ==> Untrusted(ports.trace, |old(ports.trace)|, hash)
    {
      hide Safe, After;
      profile := ports.ActiveProfileByHash(hash);
      if profile.None? || profile.value.hash != hash {
        return None;
      }
      var trusted := ports.IsTrusted(profile.value.profileId);
      if !trusted {
        return None;
      }
    }

    // ------------------------------------------------------------ phase 1

    /** The checks of phase 1 that need no bus: session, intent, profile and parameter. */
    method ResolveIntent(operationId: nat, intent: WriteIntent) returns (check: IntentResolution)
      requires Serving() && ports.progress.phase.NoWrite?
      requires ports.trace != [] && ports.trace[|ports.trace| - 1] == Called(Call.PrepareWrite(intent))
      modifies ports
      ensures Serving() && ports.progress == old(ports.progress) && old(ports.trace) <= ports.trace
      ensures check.IntentResolved? ==>
                && |ports.trace| == |old(ports.trace)| + 3 && config.processWritesEnabled
                && IntentResolvedAt(ports.trace, |old(ports.trace)| - 1, intent, check.before, check.profile, check.parameter)
      ensures check.NotResolved? ==>
                IntentRefused(ports.trace, |old(ports.trace)|, intent, config.processWritesEnabled, operationId, check.decision)
    {
      hide Safe, After, Next, ManualAllowed, TargetRefused, NotStopped;
      if !config.processWritesEnabled {
        return NotResolved(RejectedByPolicy);
      }
      var before := ports.SessionSnapshot();
      if !before.connected || !before.armed || !before.auditHealthy || !before.operationIdle {
        return NotResolved(RejectedByPolicy);
      }
      if !IntentMatches(intent, before) {
        return NotResolved(PreconditionChanged);
      }
      var profile := TrustedProfile(intent.profileHash);
      if profile.None? {
        return NotResolved(ProfileNotTrusted);
      }
      var parameter := profile.value.Find(intent.parameterId);
      if parameter.None? || !ManualAllowed(parameter.value) {
        return NotResolved(RejectedByPolicy);
      }
      return IntentResolved(before, profile.value, parameter.value);
    }

    /** The first half of the checks of phase 1: all of the above, then the drive state. */
    method OpenIntent(operationId: nat, intent: WriteIntent) returns (check: IntentOpening)
      requires Serving() && ports.progress.phase.NoWrite?
      requires ports.trace != [] && ports.trace[|ports.trace| - 1] == Called(Call.PrepareWrite(intent))
      modifies this`nextRequestId, ports
      ensures Serving() && OnlyReads(old(ports.progress), ports.progress) && old(ports.trace) <= ports.trace
      ensures check.Opened? ==>
                && |ports.trace| == |old(ports.trace)| + 5 && config.processWritesEnabled
                && IntentOpenedAt(ports.trace, |old(ports.trace)| - 1, intent, operationId, check.before, check.parameter)
      ensures check.NotOpened? ==>
                IntentRefused(ports.trace, |old(ports.trace)|, intent, config.processWritesEnabled, operationId, check.decision)
    {
      hide Safe, After, Next, IntentResolvedAt, IntentRefused, IntentOpenedAt, NotStopped, ReadStopped;
      var resolution := ResolveIntent(operationId, intent);
      if resolution.NotResolved? {
        return NotOpened(resolution.decision);
      }
      ghost var front, s := ports.trace, |old(ports.trace)| - 1;
      var before, profile, parameter := resolution.before, resolution.profile, resolution.parameter;
      var drive := ReadDriveState(profile, before.sessionId, operationId);
      if drive != Some(Stopped) {
        ResolvedThenRefused(front, ports.trace, s, intent, operationId, before, profile, parameter);
        return NotOpened(RejectedByPolicy);
      }
      ResolvedThenOpened(front, ports.trace, s, intent, operationId, before, profile, parameter);
      return Opened(before, parameter);
    }

    /** The old value the operator saw is still in the device, and the session is still the same. */
    method CheckOldValue(intent: WriteIntent, before: RP.SessionSnapshot, parameter: Parameter, operationId: nat) returns (same: bool)
      requires Serving() && ports.progress.phase.NoWrite? && parameter.Valid()
      modifies this`nextRequestId, ports
      ensures Serving() && OnlyReads(old(ports.progress), ports.progress) && old(ports.trace) <= ports.trace
      ensures var n := |old(ports.trace)|;
              if same
              then
                && |ports.trace| == n + 3
                && ports.trace[n].Snapshot? && ports.trace[n + 1].BusReadDone?
                && ReadValue(ports.trace[n + 1], parameter, before.sessionId, operationId, intent.previousRaw)
                && parameter.codec.decode(intent.previousRaw) == Some(intent.previousEngineering)
                && ports.trace[n + 2].Snapshot? && SameContext(before, ports.trace[n + 2].session)
              else
                OldValueDiffers(ports.trace, n, parameter, before.sessionId, operationId, intent.previousRaw, intent.previousEngineering)
                || ContextChanged(ports.trace, n + 2, before)
    {
      hide Safe, After, Next, SameContext, ReadsBlock;
      var oldRaw := ReadParameterRaw(parameter, before.sessionId, operationId);
      if oldRaw.None? {
        return false;
      }
      var oldEngineering := parameter.codec.decode(oldRaw.value);
      if oldEngineering.None? || oldRaw.value != intent.previousRaw || oldEngineering.value != intent.previousEngineering {
        return false;
      }
      var after := ports.SessionSnapshot();
      return SameContext(before, after);
    }

    /** All checks of phase 1, in order; the first that fails decides. The expiry is still open. */
    method CheckIntent(planId: nat, operationId: nat, intent: WriteIntent) returns (check: IntentCheck)
      requires Serving() && ports.progress.phase.NoWrite?
      requires ports.trace != [] && ports.trace[|ports.trace| - 1] == Called(Call.PrepareWrite(intent))
      modifies this`nextRequestId, ports
      ensures Serving() && OnlyReads(old(ports.progress), ports.progress) && old(ports.trace) <= ports.trace
      ensures check.Issuable? ==>
                && |ports.trace| == |old(ports.trace)| + 8 && config.processWritesEnabled
                && IssueChecked(ports.trace, |ports.trace| - 9, check.stored)
                && check.stored.plan.planId == planId && check.stored.plan.operationId == operationId
                && check.stored.plan.contextHash == contextDigest(ContextOf(check.stored))
      ensures check.NotIssued? ==>
                IntentRefused(ports.trace, |old(ports.trace)|, intent, config.processWritesEnabled, operationId, check.decision)
    {
      hide Safe, After, Next, AuthoritativeTarget, ManualAllowed, SameContext, ReadsBlock, ReadValue, IssueChecked, IssueOpened, IntentOpenedAt,
           IntentRefused, OldValueDiffers, ContextChanged;
      var opening := OpenIntent(operationId, intent);
      if opening.NotOpened? {
        return NotIssued(opening.decision);
      }
      var before, parameter := opening.before, opening.parameter;
      ghost var front, s := ports.trace, |ports.trace| - 6;
      OpenedMeans(front, s, intent, operationId, before, parameter);
      var target := AuthoritativeTarget(parameter, intent.requested);
      if target.None? {
        OpenedThenRefused(front, ports.trace, s, intent, operationId, before, parameter, RejectedByPolicy);
        return NotIssued(RejectedByPolicy);
      }
      if intent.previewRaw.Some? && intent.previewRaw.value != target.value {
        OpenedThenRefused(front, ports.trace, s, intent, operationId, before, parameter, PreconditionChanged);
        return NotIssued(PreconditionChanged);
      }
      var same := CheckOldValue(intent, before, parameter, operationId);
      if !same {
        OpenedThenRefused(front, ports.trace, s, intent, operationId, before, parameter, PreconditionChanged);
        return NotIssued(PreconditionChanged);
      }
      var stored := Draft(planId, operationId, intent, before, parameter, target.value);
      IssueAssembled(front, ports.trace, s, intent, parameter, stored);
      return Issuable(stored);
    }

    /** The plan for an intent whose checks all hold; only its expiry is still open. */
    function Draft(planId: nat, operationId: nat, intent: WriteIntent, before: RP.SessionSnapshot, parameter: Parameter, target: RawRegisters)
      : (stored: StoredPlan)
      ensures stored.plan.contextHash == contextDigest(ContextOf(stored)) && stored.plan.operationId == operationId
    {
      var contextHash := contextDigest(ManualContext(
        planId, operationId, before.sessionId, before.fingerprint, intent.profileHash, intent.parameterId,
        intent.previousRaw, intent.previousEngineering, intent.requested, target, before.guardRevision));
      StoredPlan(
        PreparedPlan(planId, operationId, before.sessionId, before.fingerprint, intent.profileHash, intent.parameterId, contextHash,
                     intent.previousRaw, intent.previousEngineering, intent.requested, target,
                     ConfirmationFor(parameter, intent.requested), ChallengeFor(contextHash), 0),
        before.guardRevision)
    }

    /** Phase 1. Stores a short-lived single-use plan after fresh checks, or refuses. Never writes. */
    method PrepareWrite(intent: WriteIntent) returns (result: PrepareResult)
      requires Valid()
      modifies this, ports
      ensures Valid() && old(ports.trace) <= ports.trace
      ensures ports.progress.writtenPlans == old(ports.progress).writtenPlans
      ensures ports.progress.ledgers == old(ports.progress).ledgers
      ensures result.PlanReady? ==>
                && result.plan.planId in plans && plans[result.plan.planId].plan == result.plan
                && plans == old(plans)[result.plan.planId := plans[result.plan.planId]]
                && (old(nextPlanId) < U128_MAX ==> result.plan.planId == old(nextPlanId) && result.plan.planId !in old(plans))
                && config.processWritesEnabled && result.plan.operationId == old(nextOperationId)
                && |ports.trace| >= 2 && ports.trace[|ports.trace| - 1] == PlanIssued(plans[result.plan.planId])
                && ports.trace[|ports.trace| - 2].ClockRead?
                && result.plan.expiresAt == SaturatingAdd(ports.trace[|ports.trace| - 2].now, config.planTtl, U128_MAX)
      ensures result.PlanRefused? ==>
                && plans == old(plans)
                && IntentDeclined(ports.trace, |old(ports.trace)| + 1, intent, config.processWritesEnabled, old(nextOperationId),
                                  old(nextPlanId), result.decision)
    {
      hide Safe, After, Next, Allowed, IssueChecked, IntentRefused, IntentDeclined, StoreSound, IdsFresh;
      ports.Enter(Call.PrepareWrite(intent));
      NextIdIsNew(plans, nextPlanId, contextDigest, ports.progress.writtenPlans);
      var planId := AllocatePlanId();
      var operationId := AllocateOperationId();
      var checked := CheckIntent(planId, operationId, intent);
      if checked.NotIssued? {
        var decision := RefuseIntent(planId, operationId, intent, checked.decision, |old(ports.trace)| + 1);
        return PlanRefused(decision);
      }
      var plan := IssuePlan(checked.stored);
      StoreWith(old(plans), planId, contextDigest, ports.progress.writtenPlans, checked.stored.(plan := plan));
      return PlanReady(plan);
    }

    /** Makes the refusal of an intent durable, for the reason found from event `n` on. */
    method RefuseIntent(planId: nat, operationId: nat, intent: WriteIntent, decision: DecisionOutcome, ghost n: nat)
      returns (actual: DecisionOutcome)
      requires Serving() && ports.progress.phase.NoWrite? && ports.progress.single == NotBegun
      requires IntentRefused(ports.trace, n, intent, config.processWritesEnabled, operationId, decision)
      modifies ports
      ensures Serving() && ports.progress == old(ports.progress) && old(ports.trace) <= ports.trace
      ensures IntentDeclined(ports.trace, n, intent, config.processWritesEnabled, operationId, planId, actual)
    {
      hide Safe, After, Next, Allowed, IntentRefused;
      RefusalIsNotAudit(ports.trace, n, intent, config.processWritesEnabled, operationId, decision);
      actual := PersistDecision(planId, intent.sessionId, intent.parameterId, None, decision);
      IntentRefusalStays(old(ports.trace), ports.trace, n, intent, config.processWritesEnabled, operationId, decision);
    }

    /** Gives a checked draft its expiry and stores it for one confirmation. */
    method IssuePlan(draft: StoredPlan) returns (plan: PreparedPlan)
      requires Serving() && ports.progress.phase.NoWrite?
      requires |ports.trace| >= 9 && IssueChecked(ports.trace, |ports.trace| - 9, draft)
      requires draft.plan.planId == U128_MAX || draft.plan.planId !in ports.progress.writtenPlans
      modifies this`plans, ports
      ensures Serving() && old(ports.trace) <= ports.trace && ports.trace != []
      ensures plan == draft.plan.(expiresAt := plan.expiresAt)
      ensures plans == old(plans)[plan.planId := draft.(plan := plan)]
      ensures |ports.trace| >= 2 && ports.trace[|ports.trace| - 1] == PlanIssued(draft.(plan := plan))
      ensures ports.trace[|ports.trace| - 2].ClockRead?
      ensures plan.expiresAt == SaturatingAdd(ports.trace[|ports.trace| - 2].now, config.planTtl, U128_MAX)
      ensures ports.progress == old(ports.progress).(openPlans := old(ports.progress).openPlans[plan.planId := draft.(plan := plan)])
    {
      hide Safe, After, IssueChecked;
      ghost var before := ports.trace;
      var now := ports.MonotonicNow();
      plan := draft.plan.(expiresAt := SaturatingAdd(now, config.planTtl, U128_MAX));
      IssueStable(before, ports.trace, |before| - 9, draft, draft.(plan := plan));
      ports.Emit(PlanIssued(draft.(plan := plan)));
      plans := plans[plan.planId := draft.(plan := plan)];
    }

    // ------------------------------------------------------------ phase 2

    /** Expiry, confirmation, session, profile, parameter and target; the first check that fails decides. */
    method AuthorizePlan(stored: StoredPlan, confirmation: Confirmation) returns (check: PlanAuthorization)
      requires Serving() && ports.progress.phase.NoWrite?
      requires |ports.trace| >= 2
      requires ports.trace[|ports.trace| - 2] == Called(Call.ConfirmWrite(stored.plan.planId, confirmation))
      requires ports.trace[|ports.trace| - 1] == PlanConsumed(stored)
      modifies ports
      ensures Serving() && ports.progress == old(ports.progress) && old(ports.trace) <= ports.trace
      ensures check.Authorized? ==>
                && |ports.trace| == |old(ports.trace)| + 4
                && AuthorizedWith(ports.trace, stored, check.before, check.profile, check.parameter)
      ensures check.NotAuthorized? ==>
                AuthorizationRefused(ports.trace, |old(ports.trace)|, stored, confirmation, check.decision)
    {
      hide Safe, After, Next, PlanMatchesSession, AuthoritativeTarget, ManualAllowed, ConfirmationMatches, AuthorizedWith, RequestAccepted, Profile.Find;
      var plan := stored.plan;
      var now := ports.MonotonicNow();
      if now > plan.expiresAt {
        return NotAuthorized(Expired);
      }
      if confirmation == CancelledByOperator {
        return NotAuthorized(Cancelled);
      }
      if !ConfirmationMatches(plan, confirmation) {
        return NotAuthorized(RejectedByPolicy);
      }
      var before := ports.SessionSnapshot();
      if !PlanMatchesSession(plan, before) || before.guardRevision != stored.guardRevision {
        return NotAuthorized(PreconditionChanged);
      }
      var resolved := ResolvePlan(plan);
      if resolved.Unresolved? {
        return NotAuthorized(resolved.decision);
      }
      AuthorizedAssembled(ports.trace, stored, confirmation, now, before, resolved.profile, resolved.parameter);
      return Authorized(before, resolved.profile, resolved.parameter);
    }

    /** The plan's parameter in the trusted active profile, if it still encodes to the planned target. */
    method ResolvePlan(plan: PreparedPlan) returns (check: PlanResolution)
      requires Serving() && ports.progress.phase.NoWrite?
      modifies ports
      ensures Serving() && ports.progress == old(ports.progress) && old(ports.trace) <= ports.trace
      ensures check.Resolved? ==>
                && |ports.trace| == |old(ports.trace)| + 2
                && TrustedProfileAt(ports.trace, |ports.trace| - 2, plan.profileHash)
                && ports.trace[|ports.trace| - 2].profile == Some(check.profile)
                && check.profile.Find(plan.parameterId) == Some(check.parameter)
                && AuthoritativeTarget(check.parameter, plan.requested) == Some(plan.targetRaw)
      ensures check.Unresolved? ==> ResolutionRefused(ports.trace, |old(ports.trace)|, plan, check.decision)
    {
      hide Safe, After, Next, ManualAllowed, RequestAccepted;
      var profile := TrustedProfile(plan.profileHash);
      if profile.None? {
        return Unresolved(ProfileNotTrusted);
      }
      var parameter := profile.value.Find(plan.parameterId);
      if parameter.None? || !ManualAllowed(parameter.value) {
        return Unresolved(PreconditionChanged);
      }
      var recomputed := AuthoritativeTarget(parameter.value, plan.requested);
      if recomputed != Some(plan.targetRaw) {
        return Unresolved(PreconditionChanged);
      }
      return Resolved(profile.value, parameter.value);
    }

    /** The drive is stopped, the old value is in the device, and the session has not changed. */
    method FinalReads(stored: StoredPlan, before: RP.SessionSnapshot, profile: ValidatedProfile, parameter: Parameter)
      returns (after: Option<RP.SessionSnapshot>)
      requires Serving() && ports.progress.phase.NoWrite? && parameter.Valid() && before.guardRevision == stored.guardRevision
      modifies this`nextRequestId, ports
      ensures Serving() && OnlyReads(old(ports.progress), ports.progress) && old(ports.trace) <= ports.trace
      ensures after.Some? ==>
                var n, plan := |old(ports.trace)|, stored.plan;
                && |ports.trace| == n + 5
                && ports.trace[n].Snapshot? && ReadStopped(ports.trace[n + 1], profile, plan.sessionId, plan.operationId)
                && ports.trace[n + 2].Snapshot?
                && ReadValue(ports.trace[n + 3], parameter, plan.sessionId, plan.operationId, plan.previousRaw)
                && parameter.codec.decode(plan.previousRaw) == Some(plan.previousEngineering)
                && ports.trace[n + 4] == Snapshot(after.value) && SameContext(before, after.value)
      ensures after.None? ==> FreshChecksFail(ports.trace, |old(ports.trace)|, stored, before, profile, parameter)
    {
      hide Safe, After, Next, ReadStopped, ReadsBlock, NotStopped;
      var plan := stored.plan;
      var drive := ReadDriveState(profile, plan.sessionId, plan.operationId);
      if drive != Some(Stopped) {
        return None;
      }
      var finalOld := ReadParameterRaw(parameter, plan.sessionId, plan.operationId);
      if finalOld.None? {
        return None;
      }
      var finalEngineering := parameter.codec.decode(finalOld.value);
      var session := ports.SessionSnapshot();
      if finalOld.value != plan.previousRaw || finalEngineering != Some(plan.previousEngineering)
         || !SameContext(before, session) || session.guardRevision != stored.guardRevision
      {
        return None;
      }
      return Some(session);
    }

    /** All final guards of phase 2, in order. On success nothing the plan was made under has changed. */
    method RecheckPlan(stored: StoredPlan, confirmation: Confirmation) returns (check: PlanRecheck)
      requires Serving() && ports.progress.phase.NoWrite?
      requires |ports.trace| >= 2
      requires ports.trace[|ports.trace| - 2] == Called(Call.ConfirmWrite(stored.plan.planId, confirmation))
      requires ports.trace[|ports.trace| - 1] == PlanConsumed(stored)
      modifies this`nextRequestId, ports
      ensures Serving() && OnlyReads(old(ports.progress), ports.progress) && old(ports.trace) <= ports.trace
      ensures check.Rechecked? ==>
                && |ports.trace| == |old(ports.trace)| + 9
                && RecheckedWith(ports.trace, stored, check.profile, check.parameter, check.after)
      ensures check.Refused? ==>
                ConfirmationRefused(ports.trace, |old(ports.trace)|, stored, confirmation, check.decision)
    {
      hide Safe, After, Next, AuthoritativeTarget, ManualAllowed, ReadStopped, ReadsBlock, ReadValue, SameContext, AuthorizedWith, RecheckedWith,
           FreshChecksFail, RecheckRefused, SessionDeclined, AuthorizationRefused;
      var authorization := AuthorizePlan(stored, confirmation);
      if authorization.NotAuthorized? {
        return Refused(authorization.decision);
      }
      var before, profile, parameter := authorization.before, authorization.profile, authorization.parameter;
      ghost var front := ports.trace;
      AuthorizedMeans(front, stored, before, profile, parameter);
      var after := FinalReads(stored, before, profile, parameter);
      if after.None? {
        AuthorizedThenRefused(front, ports.trace, stored, confirmation, before, profile, parameter);
        return Refused(PreconditionChanged);
      }
      ManualAssembled(front, ports.trace, stored, before, profile, parameter, after.value);
      return Rechecked(profile, parameter, after.value);
    }

    // ------------------------------------------------------------ the one physical write

    /** Reads the written parameter back until it matches or the attempts run out. */
    method ReadBack(parameter: Parameter, target: RawRegisters, sessionId: nat, operationId: nat)
      returns (outcome: DeviceOutcome, evidence: Evidence)
      requires Serving() && 1 <= config.readBackAttempts <= 4
      requires parameter.Valid()
      requires FreshlyWritten(ports.progress.phase, parameter, target)
      modifies this`nextRequestId, ports
      ensures Serving() && old(ports.trace) <= ports.trace
      ensures SameWrite(old(ports.progress), ports.progress)
      ensures Concludes(ports.progress.phase, outcome, evidence)
    {
      hide Safe, After, Parameter.ReadBackMatches;
      ghost var begun := ports.progress;
      var lastMismatch: Option<RawRegisters> := None;
      for attempt := 1 to config.readBackAttempts + 1
        invariant Serving() && old(ports.trace) <= ports.trace
        invariant SameWrite(begun, ports.progress)
        invariant ports.progress.phase.attempts == attempt - 1
        invariant ports.progress.phase.matched.None? && ports.progress.phase.mismatch == lastMismatch
      {
        var actual := ReadParameterRaw(parameter, sessionId, operationId);
        if actual.Some? {
          if parameter.ReadBackMatches(target, actual.value) {
            return Verified, VerifiedEvidence(attempt, actual.value);
          }
          lastMismatch := actual;
        }
        if attempt < config.readBackAttempts {
          ports.Sleep();
        }
      }
      if lastMismatch.Some? {
        return ReadBackMismatch, MismatchEvidence(config.readBackAttempts, lastMismatch.value);
      }
      return TransportLost, UnavailableEvidence(config.readBackAttempts);
    }

    /** The private kernel of manual writes and restore steps: at most one bus write, then its read-back. */
    method ExecuteOnce(authority: Authority, profile: ValidatedProfile, requestId: nat, slaveId: nat)
      returns (outcome: DeviceOutcome, evidence: Evidence)
      requires Serving() && 1 <= config.readBackAttempts <= 4
      requires authority.WellFormed() && ports.progress.phase.Prepared?
      requires requestId < nextRequestId || nextRequestId == U64_MAX
      requires Sendable(authority, profile) ==>
                 && ports.progress.phase.record.targetRaw == authority.TargetRaw()
                 && Allowed(ports.progress, ports.trace,
                            BusWritten(Minted(authority, profile, requestId, slaveId), profile.parameters[authority.ParameterId()], WriteOk))
      modifies this`nextRequestId, ports
      ensures Serving() && old(ports.trace) <= ports.trace
      ensures !ports.progress.phase.NoWrite? && ports.progress.phase.token == old(ports.progress).phase.token
      ensures Concludes(ports.progress.phase, outcome, evidence)
      ensures if Sendable(authority, profile)
              then Sent(old(ports.progress), Minted(authority, profile, requestId, slaveId), ports.progress)
              else ports.progress == old(ports.progress) && ports.trace == old(ports.trace)
    {
      hide Safe, After, Allowed, ReadsBlock, Parameter.ReadBackMatches, ManualAllowed, RestoreAllowed;
      if profile.hash != authority.ProfileHash() {
        return TransportLost, NotAttempted;
      }
      var found := profile.Find(authority.ParameterId());
      if found.None? {
        return TransportLost, NotAttempted;
      }
      var parameter := found.value;
      if |authority.ExpectedOldRaw()| != parameter.block.count || !authority.ParameterAllowed(parameter)
         || authority.TargetRaw() in parameter.forbiddenRaw
      {
        return DeviceRejected, NotAttempted;
      }
      if parameter.writeFunction.None? {
        return DeviceRejected, NotAttempted;
      }
      var minted := MintWrite(authority, parameter, requestId, slaveId);
      if minted.None? {
        return DeviceRejected, NotAttempted;
      }
      var sent := ports.ExecuteWrite(minted.value, parameter);
      if sent.WriteErr? {
        return MapWriteError(sent.error), NotAttempted;
      }
      outcome, evidence := ReadBack(parameter, authority.TargetRaw(), authority.SessionId(), authority.OperationId());
    }

    method AuditPrepareFailed()
      requires Serving() && ports.progress.phase.NoWrite? && ports.progress.single == Open
      modifies ports
      ensures Serving() && ports.trace == old(ports.trace) + [AuditDegradedAndDisarmed, Diagnostic]
      ensures ports.progress == old(ports.progress).(single := Closed)
    {
      hide Safe, After;
      ports.DegradeAuditAndDisarm();
      ports.ReportDiagnostic();
    }

    /** Closes the transaction; an outcome that cannot be persisted counts as AuditDegraded. */
    method FinalizeWrite(token: PreparedToken, outcome: DeviceOutcome, evidence: Evidence) returns (final: DeviceOutcome)
      requires Serving() && !ports.progress.phase.NoWrite? && token == ports.progress.phase.token
      requires Concludes(ports.progress.phase, outcome, evidence)
      modifies ports
      ensures Serving() && old(ports.trace) <= ports.trace
      ensures ports.progress == Finalized(old(ports.progress), final)
      ensures final == outcome || final == AuditDegraded
      ensures Settled(ports.trace, final)
    {
      hide Safe, After, Concludes;
      var persisted := ports.FinalizeDeviceWrite(token, outcome, evidence);
      if persisted {
        return outcome;
      }
      ports.ReportDiagnostic();
      return AuditDegraded;
    }

    /** The write-ahead record of a manual write; None when it is not durable, which closes the operation. */
    method PrepareManual(record: Preparation) returns (token: Option<PreparedToken>)
      requires Serving() && ports.progress.phase.NoWrite? && ports.progress.single == Open
      requires ports.progress.call.Some? && ports.progress.call.value.ConfirmWrite?
      modifies ports
      ensures Serving() && old(ports.trace) <= ports.trace
      ensures token.Some? ==>
                && ports.trace == old(ports.trace) + [AuditAvailability(true), WritePrepared(record, token)]
                && ports.progress == old(ports.progress).(phase := Prepared(record, token.value))
      ensures token.None? ==> ports.progress == old(ports.progress).(single := Closed) && Degraded(ports.trace)
    {
      hide Safe, After;
      var up := ports.AuditAvailable();
      if !up {
        AuditPrepareFailed();
        return None;
      }
      token := ports.PrepareDeviceWrite(record);
      if token.None? || !token.value.Matches(record) {
        AuditPrepareFailed();
        return None;
      }
    }

    /** One write under an accepted preparation, read back and finalized. */
    method WriteAndFinalize(authority: Authority, profile: ValidatedProfile, requestId: nat, slaveId: nat, token: PreparedToken)
      returns (final: DeviceOutcome)
      requires Serving() && 1 <= config.readBackAttempts <= 4
      requires authority.WellFormed() && Sendable(authority, profile)
      requires ports.progress.phase.Prepared? && ports.progress.phase.token == token
      requires ports.progress.phase.record.targetRaw == authority.TargetRaw()
      requires requestId < nextRequestId || nextRequestId == U64_MAX
      requires Allowed(ports.progress, ports.trace,
                       BusWritten(Minted(authority, profile, requestId, slaveId), profile.parameters[authority.ParameterId()], WriteOk))
      modifies this`nextRequestId, ports
      ensures Serving() && old(ports.trace) <= ports.trace
      ensures Performed(old(ports.progress), Minted(authority, profile, requestId, slaveId), final, ports.progress)
      ensures Settled(ports.trace, final)
    {
      hide Safe, After, Allowed, Concludes, Sendable;
      var outcome, evidence := ExecuteOnce(authority, profile, requestId, slaveId);
      final := FinalizeWrite(token, outcome, evidence);
    }

    /** The durable record of a rechecked plan, and with it the right to send exactly its write. */
    method RecordPlan(ghost front: Trace, stored: StoredPlan, profile: ValidatedProfile, parameter: Parameter, after: RP.SessionSnapshot)
      returns (token: Option<PreparedToken>, record: Preparation)
      requires Serving() && ports.progress.phase.NoWrite? && ports.progress.single == Open
      requires ports.progress.call.Some? && ports.progress.call.value.ConfirmWrite?
      requires RecheckedWith(front, stored, profile, parameter, after)
      requires ports.trace == front + [SingleWriteBegun(stored.plan.operationId, stored.plan.planId, true)]
      requires stored.plan.planId == U128_MAX || stored.plan.planId !in ports.progress.writtenPlans
      modifies this`nextRequestId, ports
      ensures Serving() && old(ports.trace) <= ports.trace
      ensures token.Some? ==>
                && ports.progress == old(ports.progress).(phase := Prepared(record, token.value))
                && record.planId == stored.plan.planId && record.targetRaw == stored.plan.targetRaw
                && (record.requestId < nextRequestId || nextRequestId == U64_MAX)
                && Sendable(Manual(stored.plan), profile) && stored.plan.parameterId in profile.parameters
                && Allowed(ports.progress, ports.trace,
                           BusWritten(Minted(Manual(stored.plan), profile, record.requestId, after.slaveId),
                                      profile.parameters[stored.plan.parameterId], WriteOk))
      ensures token.None? ==> ports.progress == old(ports.progress).(single := Closed) && Degraded(ports.trace)
    {
      hide Safe, After, Allowed, RecheckedWith, Sendable, AuthoritativeTarget, RecordsPlan, Profile.Find, SameContext;
      var plan := stored.plan;
      var requestId := AllocateRequestId();
      RecheckedMeans(front, stored, profile, parameter, after);
      PlanSendable(plan, profile, parameter);
      record := RecordOf(plan, requestId, parameter.writeFunction.value);
      token := PrepareManual(record);
      if token.Some? {
        ManualWriteAllowed(front, ports.trace, ports.progress, stored, profile, parameter, after, record, token.value);
      }
    }

    /** Everything after the guards of phase 2: durable preparation, the one write, finalization. */
    method ExecutePlan(stored: StoredPlan, profile: ValidatedProfile, parameter: Parameter, after: RP.SessionSnapshot)
      returns (outcome: WriteOutcome)
      requires Serving() && 1 <= config.readBackAttempts <= 4
      requires ports.progress.phase.NoWrite? && ports.progress.single == NotBegun
      requires ports.progress.call.Some? && ports.progress.call.value.ConfirmWrite?
      requires RecheckedWith(ports.trace, stored, profile, parameter, after)
      requires stored.plan.planId == U128_MAX || stored.plan.planId !in ports.progress.writtenPlans
      modifies this`nextRequestId, ports
      ensures Serving() && old(ports.trace) <= ports.trace
      ensures Confirmed(old(ports.progress), stored.plan.planId, outcome, ports.progress)
      ensures outcome.Executed? ==> Finished(ports.trace, outcome.device)
      ensures outcome.NotExecuted? ==>
                if outcome.decision == AuditUnavailable then Degraded(ports.trace)
                else
                  && outcome.decision == PreconditionChanged
                  && |old(ports.trace)| >= 11 && SessionDeclined(ports.trace, |old(ports.trace)| - 9, stored)
                  && Recorded(ports.trace, PlanDecision(stored.plan, PreconditionChanged))
    {
      hide Safe, After, Allowed, Next, RecheckedWith, ManualEvidence, SessionDeclined, Degraded, Finished, Sendable, AuthoritativeTarget, RecordsPlan,
           Profile.Find, SameContext;
      ghost var front, begun := ports.trace, ports.progress;
      var plan := stored.plan;
      var accepted := ports.BeginSingleWrite(plan.operationId, plan.planId);
      if !accepted {
        var decision := PersistDecision(plan.planId, plan.sessionId, plan.parameterId, Some(plan.contextHash), PreconditionChanged);
        RecheckedThenDeclined(front, ports.trace, stored, profile, parameter, after);
        return NotExecuted(decision);
      }
      var token, record := RecordPlan(front, stored, profile, parameter, after);
      if token.None? {
        return NotExecuted(AuditUnavailable);
      }
      var final := PerformPlan(plan, profile, record.requestId, after.slaveId, token.value);
      return Executed(final);
    }

    /** The one write of a recorded plan, closed in the session with the outcome that was finalized. */
    method PerformPlan(plan: PreparedPlan, profile: ValidatedProfile, requestId: nat, slaveId: nat, token: PreparedToken)
      returns (final: DeviceOutcome)
      requires Serving() && 1 <= config.readBackAttempts <= 4
      requires Sendable(Manual(plan), profile) && !HasLedger(ports.progress) && ports.progress.single == Open
      requires ports.progress.phase.Prepared? && ports.progress.phase.token == token
      requires ports.progress.phase.record.planId == plan.planId && ports.progress.phase.record.targetRaw == plan.targetRaw
      requires requestId < nextRequestId || nextRequestId == U64_MAX
      requires Allowed(ports.progress, ports.trace,
                       BusWritten(Minted(Manual(plan), profile, requestId, slaveId), profile.parameters[plan.parameterId], WriteOk))
      modifies this`nextRequestId, ports
      ensures Serving() && old(ports.trace) <= ports.trace
      ensures ports.progress == old(ports.progress).(phase := NoWrite, single := Closed, lastRequest := ports.progress.lastRequest,
                                                     writtenPlans := old(ports.progress).writtenPlans + {plan.planId})
      ensures Finished(ports.trace, final)
    {
      hide Safe, After, Allowed, Next, Settled, Concludes, Sendable, Performed, ManualAllowed;
      ghost var prepared := ports.progress;
      final := WriteAndFinalize(Manual(plan), profile, requestId, slaveId, token);
      PlanPerformed(prepared, Minted(Manual(plan), profile, requestId, slaveId), final, ports.progress);
      ghost var settled := ports.trace;
      ports.FinishSingleWrite(Executed(final));
      assert ports.trace[..|ports.trace| - 1] == settled;
    }

    /** The final guards and, if all of them hold, the write of a consumed plan. */
    method RunConfirmed(stored: StoredPlan, confirmation: Confirmation) returns (outcome: WriteOutcome)
      requires Serving() && 1 <= config.readBackAttempts <= 4
      requires ports.progress.phase.NoWrite? && ports.progress.single == NotBegun
      requires ports.progress.call == Some(Call.ConfirmWrite(stored.plan.planId, confirmation))
      requires |ports.trace| >= 2
      requires ports.trace[|ports.trace| - 2] == Called(Call.ConfirmWrite(stored.plan.planId, confirmation))
      requires ports.trace[|ports.trace| - 1] == PlanConsumed(stored)
      requires stored.plan.contextHash == contextDigest(ContextOf(stored))
      requires stored.plan.planId == U128_MAX || stored.plan.planId !in ports.progress.writtenPlans
      modifies this`nextRequestId, ports
      ensures Serving() && old(ports.trace) <= ports.trace
      ensures Confirmed(old(ports.progress), stored.plan.planId, outcome, ports.progress)
      ensures outcome.Executed? ==> Finished(ports.trace, outcome.device)
      ensures outcome.NotExecuted? ==> Declined(ports.trace, |old(ports.trace)|, stored, confirmation, outcome.decision)
    {
      hide Safe, After, RecheckedWith, AuthoritativeTarget, Profile.Find, AuthorizationRefused, RecheckRefused, SessionDeclined, Degraded;
      var plan := stored.plan;
      var check := RecheckPlan(stored, confirmation);
      if check.Refused? {
        ghost var refused := ports.trace;
        ConfirmationRefusalIsNotAudit(refused, |old(ports.trace)|, stored, confirmation, check.decision);
        var decision := PersistDecision(plan.planId, plan.sessionId, plan.parameterId, Some(plan.contextHash), check.decision);
        ConfirmationRefusalStays(refused, ports.trace, |old(ports.trace)|, stored, confirmation, check.decision);
        return NotExecuted(decision);
      }
      RecheckedMeans(ports.trace, stored, check.profile, check.parameter, check.after);
      var finalContextHash := contextDigest(ManualContext(
        plan.planId, plan.operationId, plan.sessionId, plan.fingerprint, plan.profileHash, plan.parameterId,
        plan.previousRaw, plan.previousEngineering, plan.requested, plan.targetRaw, check.after.guardRevision));
      if finalContextHash != plan.contextHash {
        // The guards above already imply that the stored context is unchanged.
        assert false;
      }
      outcome := ExecutePlan(stored, check.profile, check.parameter, check.after);
    }

    /** Phase 2. The plan is consumed whatever happens next; it causes at most one write, and does so
        exactly if the reported outcome is an executed one. */
    method ConfirmWrite(planId: nat, confirmation: Confirmation) returns (result: ConfirmResult)
      requires Valid()
      modifies this, ports
      ensures Valid() && old(ports.trace) <= ports.trace
      ensures result.UnknownOrConsumedPlan? <==> planId !in old(plans)
      ensures plans == old(plans) - {planId}
      ensures ports.progress.writtenPlans ==
              if result.Outcome? && result.outcome.Executed? then old(ports.progress).writtenPlans + {planId}
              else old(ports.progress).writtenPlans
      ensures ports.progress.ledgers == old(ports.progress).ledgers
      ensures result.Outcome? && result.outcome.Executed? ==> Finished(ports.trace, result.outcome.device)
      ensures result.Outcome? && result.outcome.NotExecuted? ==>
                Declined(ports.trace, |old(ports.trace)| + 2, old(plans)[planId], confirmation, result.outcome.decision)
    {
      hide Safe, After, Next, Allowed, Declined, Finished, StoreSound, IdsFresh;
      ports.Enter(Call.ConfirmWrite(planId, confirmation));
      if planId !in plans {
        return UnknownOrConsumedPlan;
      }
      StoreWithout(plans, nextPlanId, contextDigest, ports.progress.writtenPlans, planId);
      var stored := plans[planId];
      plans := plans - {planId};
      ports.Consume(stored);
      var outcome := RunConfirmed(stored, confirmation);
      return Outcome(outcome);
    }

    // ------------------------------------------------------------ restore: planning

    /** Reads every planned old value afresh; the first that cannot be confirmed decides. */
    method ConfirmOldValues(plan: RP.ApprovedPlan, profile: ValidatedProfile, sessionId: nat, operationId: nat)
      returns (error: Option<RP.PlanError>)
      requires Serving() && ports.progress.phase.NoWrite?
      modifies this`nextRequestId, ports
      ensures Serving() && OnlyReads(old(ports.progress), ports.progress) && old(ports.trace) <= ports.trace
      ensures error.None? ==> OldValuesRead(ports.trace, |old(ports.trace)|, plan, profile, sessionId, operationId, |plan.steps|)
      ensures error.Some? ==>
                exists i {:trigger plan.steps[i]} :: 0 <= i < |plan.steps|
                  && OldValueUnconfirmed(ports.trace, |old(ports.trace)| + 2 * i, plan.steps[i], profile, sessionId, operationId, error.value)
    {
      hide Safe, After, Next, ReadsBlock, ReadValue, OldValuesRead;
      ghost var front := ports.trace;
      OldValuesReadNone(front, plan, profile, sessionId, operationId);
      for i := 0 to |plan.steps|
        invariant Serving() && OnlyReads(old(ports.progress), ports.progress)
        invariant front <= ports.trace && |ports.trace| == |front| + 2 * i
        invariant OldValuesRead(ports.trace, |front|, plan, profile, sessionId, operationId, i)
      {
        ghost var before := ports.trace;
        var parameter := profile.Find(plan.steps[i].parameterId);
        if parameter.None? {
          return Some(RP.InvalidBackupParameter(plan.steps[i].parameterId));
        }
        var fresh_ := ReadParameterRaw(parameter.value, sessionId, operationId);
        if fresh_.None? || fresh_.value != plan.steps[i].expectedOldRaw {
          return Some(RP.PreconditionChanged);
        }
        ReadValueIntro(ports.trace[|ports.trace| - 1], parameter.value, sessionId, operationId, plan.steps[i].expectedOldRaw);
        OldValuesReadOneMore(before, ports.trace, |front|, plan, profile, sessionId, operationId, i);
      }
      return None;
    }

    /** The plan for two backups, once every old value was read back from the device and the session is
        still the same. `draft` is the plan before these reads, if there is one. */
    method BuildAndConfirm(source: RP.Backup, preRestore: RP.Backup, profile: ValidatedProfile, session: RP.SessionSnapshot, operationId: nat)
      returns (result: RestorePlanResult, ghost diff: RP.Diff, ghost draft: Option<RP.ApprovedPlan>)
      requires Serving() && ports.progress.phase.NoWrite?
      modifies this`nextRequestId, ports
      ensures Serving() && OnlyReads(old(ports.progress), ports.progress) && old(ports.trace) < ports.trace
      ensures ports.trace[|old(ports.trace)|].ClockRead?
      ensures result.RestorePlanned? ==>
                && result.plan.expiresAt == SaturatingAdd(ports.trace[|old(ports.trace)|].now, config.planTtl, U128_MAX)
                && PlannedFor(result.plan, source, preRestore, profile, session, operationId, planDigest, diff, ports.trace)
      ensures result.RestoreNotPlanned? ==>
                BuildRefused(ports.trace, |old(ports.trace)| + 1, source, preRestore, profile, session, operationId, planDigest, diff, draft,
                             result.error)
    {
      hide Safe, After, Next, RP.PlanFor, RP.IsDiff, RP.Plannable, RP.RefusedBefore, OldValuesRead, OldValueUnconfirmed, SameContext;
      draft := None;
      var now := ports.MonotonicNow();
      var expiresAt := SaturatingAdd(now, config.planTtl, U128_MAX);
      var built;
      built, diff := RP.BuildRestorePlan(source, preRestore, profile, session, operationId, expiresAt, planDigest);
      if built.Refused? {
        return RestoreNotPlanned(built.error), diff, draft;
      }
      draft := Some(built.plan);
      RP.PlanIsSealed(built.plan, source, preRestore, profile, session, operationId, expiresAt, planDigest, diff);
      ghost var front := ports.trace;
      var refusal := ConfirmOldValues(built.plan, profile, session.sessionId, operationId);
      if refusal.Some? {
        return RestoreNotPlanned(refusal.value), diff, draft;
      }
      ghost var read := ports.trace;
      OldValuesLength(read, |front|, built.plan, profile, session.sessionId, operationId, |built.plan.steps|);
      var after := ports.SessionSnapshot();
      if !SameContext(session, after) {
        return RestoreNotPlanned(RP.PreconditionChanged), diff, draft;
      }
      assert ports.trace[..|ports.trace| - 1] == read;
      return RestorePlanned(built.plan), diff, draft;
    }

    /** Session, profile and drive state for a plan that is to be built. */
    method OpenPlanning() returns (opening: PlanningOpening)
      requires Serving() && ports.progress.phase.NoWrite?
      modifies this`nextRequestId, this`nextOperationId, ports
      ensures Serving() && OnlyReads(old(ports.progress), ports.progress) && old(ports.trace) <= ports.trace
      ensures opening.PlanningOpened? ==>
                && config.processWritesEnabled && opening.operationId == old(nextOperationId)
                && |ports.trace| == |old(ports.trace)| + 5
                && PlanningOpenedAt(ports.trace, |old(ports.trace)|, opening.operationId, opening.before, opening.profile)
      ensures opening.PlanningNotOpened? ==>
                PlanningRefused(ports.trace, |old(ports.trace)|, config.processWritesEnabled, old(nextOperationId), opening.error)
    {
      hide Safe, After, Next, ReadStopped, NotStopped;
      if !config.processWritesEnabled {
        return PlanningNotOpened(RP.SessionUnavailable);
      }
      var session := ports.SessionSnapshot();
      if !session.connected || !session.armed || !session.auditHealthy || !session.operationIdle {
        return PlanningNotOpened(RP.SessionUnavailable);
      }
      var profile := TrustedProfile(session.profileHash);
      if profile.None? {
        return PlanningNotOpened(RP.ProfileMismatch);
      }
      var operationId := AllocateOperationId();
      var drive := ReadDriveState(profile.value, session.sessionId, operationId);
      if drive != Some(Stopped) {
        return PlanningNotOpened(RP.PreconditionChanged);
      }
      return PlanningOpened(operationId, session, profile.value);
    }

    /** Builds an operator-visible plan. Grants nothing and writes nothing. */
    method PrepareRestorePlan(source: RP.Backup, preRestore: RP.Backup)
      returns (result: RestorePlanResult, ghost diff: RP.Diff, ghost draft: Option<RP.ApprovedPlan>, ghost opening: PlanningOpening)
      requires Valid()
      modifies this`nextRequestId, this`nextOperationId, ports
      ensures Valid() && old(ports.trace) <= ports.trace
      ensures ports.progress == old(ports.progress).(call := ports.progress.call, single := NotBegun, lastRequest := ports.progress.lastRequest)
      ensures opening.PlanningOpened? ==>
                && config.processWritesEnabled && opening.operationId == old(nextOperationId)
                && PlanningOpenedAt(ports.trace, |old(ports.trace)| + 1, opening.operationId, opening.before, opening.profile)
                && |ports.trace| >= |old(ports.trace)| + 7 && ports.trace[|old(ports.trace)| + 6].ClockRead?
      ensures result.RestorePlanned? ==>
                && opening.PlanningOpened?
                && result.plan.expiresAt == SaturatingAdd(ports.trace[|old(ports.trace)| + 6].now, config.planTtl, U128_MAX)
                && PlannedFor(result.plan, source, preRestore, opening.profile, opening.before, opening.operationId, planDigest, diff, ports.trace)
      ensures result.RestoreNotPlanned? ==>
                if opening.PlanningOpened?
                then BuildRefused(ports.trace, |old(ports.trace)| + 7, source, preRestore, opening.profile, opening.before, opening.operationId,
                                  planDigest, diff, draft, result.error)
                else PlanningRefused(ports.trace, |old(ports.trace)| + 1, config.processWritesEnabled, old(nextOperationId), result.error)
    {
      hide Safe, After, Next, Allowed, PlannedFor, PlanningOpenedAt, PlanningRefused, BuildRefused, StoreSound, IdsFresh;
      diff, draft := map[], None;
      ports.Enter(Call.PrepareRestorePlan);
      var planning := OpenPlanning();
      opening := planning;
      if planning.PlanningNotOpened? {
        return RestoreNotPlanned(planning.error), diff, draft, opening;
      }
      ghost var front := ports.trace;
      result, diff, draft := BuildAndConfirm(source, preRestore, planning.profile, planning.before, planning.operationId);
      PlanningStaysOpened(front, ports.trace, |old(ports.trace)| + 1, planning.operationId, planning.before, planning.profile);
    }

    // ------------------------------------------------------------ restore: start

    /** The trusted profile of a restore plan, for a drive that is stopped. */
    method ResolveRestore(plan: RP.ApprovedPlan) returns (resolution: RestoreResolution)
      requires Serving() && ports.progress.phase.NoWrite?
      modifies this`nextRequestId, ports
      ensures Serving() && OnlyReads(old(ports.progress), ports.progress) && old(ports.trace) <= ports.trace
      ensures resolution.RestoreResolved? ==>
                var n, profile := |old(ports.trace)|, resolution.profile;
                && |ports.trace| == n + 4
                && TrustedProfileAt(ports.trace, n, plan.profileHash) && ports.trace[n].profile == Some(profile)
                && ports.trace[n + 2].Snapshot? && ReadStopped(ports.trace[n + 3], profile, plan.sessionId, plan.operationId)
      ensures resolution.RestoreUnresolved? ==> ProfileRefused(ports.trace, |old(ports.trace)|, plan, resolution.error)
    {
      hide Safe, After, Next, ReadStopped, ReadsBlock;
      var profile := ports.ActiveProfileByHash(plan.profileHash);
      if profile.None? {
        return RestoreUnresolved(RestorePlanError(RP.ProfileMismatch));
      }
      var trusted := false;
      if profile.value.hash == plan.profileHash {
        trusted := ports.IsTrusted(profile.value.profileId);
      }
      if !trusted {
        ports.Disarm();
        return RestoreUnresolved(RestorePlanError(RP.ProfileMismatch));
      }
      var drive := ReadDriveState(profile.value, plan.sessionId, plan.operationId);
      if drive != Some(Stopped) {
        ports.Disarm();
        return RestoreUnresolved(RestorePlanError(RP.PreconditionChanged));
      }
      return RestoreResolved(profile.value);
    }

    /** Expiry, confirmation, session, profile and drive state; all but a refused lookup disarm on failure. */
    method OpenRestore(plan: RP.ApprovedPlan, confirmation: RestoreConfirmation) returns (opening: RestoreOpening)
      requires Serving() && ports.progress.phase.NoWrite?
      requires ports.trace != [] && ports.progress.call.Some? && ports.progress.call.value.BeginRestore?
      requires ports.trace[|ports.trace| - 1] == Called(ports.progress.call.value)
      requires ports.progress.call.value.approved == plan && ports.progress.call.value.restoreConfirmation == confirmation
      modifies this`nextRequestId, ports
      ensures Serving() && OnlyReads(old(ports.progress), ports.progress) && old(ports.trace) < ports.trace
      ensures opening.RestoreOpened? ==>
                |ports.trace| == |old(ports.trace)| + 6 && RestoreOpenedWith(ports.trace, plan, opening.before, opening.profile)
      ensures opening.RestoreNotOpened? ==> OpeningRefused(ports.trace, |old(ports.trace)|, plan, confirmation, opening.error)
    {
      hide Safe, After, Next, ReadStopped, RestoreMatchesSession, ProfileRefused;
      var now := ports.MonotonicNow();
      if now > plan.expiresAt || confirmation != ConfirmRestore(plan.challenge) {
        ports.Disarm();
        return RestoreNotOpened(RestoreRejected);
      }
      var before := ports.SessionSnapshot();
      if !RestoreMatchesSession(plan, before, true) {
        ports.Disarm();
        return RestoreNotOpened(RestorePlanError(RP.PreconditionChanged));
      }
      var resolution := ResolveRestore(plan);
      if resolution.RestoreUnresolved? {
        return RestoreNotOpened(resolution.error);
      }
      return RestoreOpened(before, resolution.profile);
    }

    /** One step against the profile's policy and against a fresh read of its old value. */
    method CheckOneStep(plan: RP.ApprovedPlan, profile: ValidatedProfile, step: PH.Step) returns (error: Option<RP.PlanError>)
      requires Serving() && ports.progress.phase.NoWrite?
      modifies this`nextRequestId, ports
      ensures Serving() && OnlyReads(old(ports.progress), ports.progress) && old(ports.trace) <= ports.trace
      ensures error.None? ==>
                && |ports.trace| == |old(ports.trace)| + 2
                && step.parameterId in profile.parameters
                && StepPolicyHolds(step, profile.parameters[step.parameterId])
                && ReadValue(ports.trace[|old(ports.trace)| + 1], profile.parameters[step.parameterId], plan.sessionId, plan.operationId,
                             step.expectedOldRaw)
      ensures error.Some? ==> StepUnconfirmed(ports.trace, |old(ports.trace)|, step, profile, plan, error.value)
    {
      hide Safe, After, Next, ReadsBlock, StepPolicyHolds;
      var parameter := profile.Find(step.parameterId);
      if parameter.None? {
        return Some(RP.InvalidBackupParameter(step.parameterId));
      }
      if !StepPolicyHolds(step, parameter.value) {
        ports.Disarm();
        return Some(RP.InvalidBackupParameter(step.parameterId));
      }
      var fresh_ := ReadParameterRaw(parameter.value, plan.sessionId, plan.operationId);
      if fresh_.None? {
        return Some(RP.PreconditionChanged);
      }
      if fresh_.value != step.expectedOldRaw {
        ports.Disarm();
        return Some(RP.PreconditionChanged);
      }
      return None;
    }

    /** Every step, in order; the first that is not confirmed decides. */
    method CheckSteps(plan: RP.ApprovedPlan, profile: ValidatedProfile) returns (error: Option<RP.PlanError>)
      requires Serving() && ports.progress.phase.NoWrite?
      modifies this`nextRequestId, ports
      ensures Serving() && OnlyReads(old(ports.progress), ports.progress) && old(ports.trace) <= ports.trace
      ensures error.None? ==>
                && |ports.trace| == |old(ports.trace)| + 2 * |plan.steps|
                && StepsReadFrom(ports.trace, |old(ports.trace)|, plan, profile, |plan.steps|)
      ensures error.Some? ==> StepsUnconfirmed(ports.trace, |old(ports.trace)|, plan, profile, error.value)
    {
      hide Safe, After, Next, ReadValue, StepPolicyHolds, StepsReadFrom, StepsUnconfirmed, StepUnconfirmed;
      ghost var front := ports.trace;
      StepsReadNone(front, |front|, plan, profile);
      for i := 0 to |plan.steps|
        invariant Serving() && OnlyReads(old(ports.progress), ports.progress)
        invariant front <= ports.trace && |ports.trace| == |front| + 2 * i
        invariant StepsReadFrom(ports.trace, |front|, plan, profile, i)
      {
        ghost var before := ports.trace;
        error := CheckOneStep(plan, profile, plan.steps[i]);
        if error.Some? {
          StepsStopAt(before, ports.trace, |front|, plan, profile, i, error.value);
          return;
        }
        StepsReadOneMore(before, ports.trace, |front|, plan, profile, i);
      }
      return None;
    }

    /** The durable start of the operation; None when it was not persisted, which degrades the session. */
    method StartOperation(plan: RP.ApprovedPlan) returns (token: Option<OperationToken>)
      requires Serving() && ports.progress.phase.NoWrite? && ports.progress.single == NotBegun
      requires ports.progress.call.Some? && ports.progress.call.value.BeginRestore?
      requires HasLedger(ports.progress) && CurrentLedger(ports.progress) == Untouched(plan)
      requires forall now: U128 :: BeginReady(ports.trace + [AuditAvailability(true), ClockRead(now)], plan)
      modifies ports
      ensures Serving() && old(ports.trace) <= ports.trace
      ensures token.Some? ==>
                && token.value.MatchesStart(StartOf(plan))
                && ports.progress == WithLedger(old(ports.progress), Untouched(plan).(durable := true))
                && |ports.trace| == |old(ports.trace)| + 3
                && ports.trace[|old(ports.trace)| + 2] == OperationBegun(StartOf(plan), token)
      ensures token.None? ==> ports.progress == old(ports.progress) && StartNotDurable(ports.trace, |old(ports.trace)|, plan)
    {
      hide Safe, After, Next, BeginEvidence;
      ghost var front := ports.trace;
      var up := ports.AuditAvailable();
      if !up {
        ports.DegradeAuditAndDisarm();
        return None;
      }
      var at := ports.MonotonicNow();
      assert ports.trace == front + [AuditAvailability(true), ClockRead(at)];
      token := ports.BeginOperation(StartOf(plan));
      if token.None? || !token.value.MatchesStart(StartOf(plan)) {
        ports.DegradeAuditAndDisarm();
        return None;
      }
    }

    /** The session's grant for an operation whose start is durable; without it the operation is aborted. */
    method RequestGrant(plan: RP.ApprovedPlan, token: OperationToken) returns (accepted: bool)
      requires Serving() && ports.progress.phase.NoWrite? && ports.progress.single == NotBegun
      requires ports.progress.call.Some? && ports.progress.call.value.BeginRestore? && HasLedger(ports.progress)
      requires CurrentLedger(ports.progress) == Untouched(plan).(durable := true) && token.MatchesStart(StartOf(plan))
      modifies ports
      ensures Serving() && old(ports.trace) <= ports.trace
      ensures var ledger := Untouched(plan).(durable := true);
              ports.progress == WithLedger(old(ports.progress), if accepted then ledger.(granted := true) else ledger.(finishes := [Aborted]))
      ensures !accepted ==>
                var n := |old(ports.trace)|;
                && |ports.trace| == n + 4
                && ports.trace[n] == RestoreBegun(plan.operationId, plan.planHash, false)
                && ports.trace[n + 1].ClockRead?
                && ports.trace[n + 2].OperationFinished? && ports.trace[n + 2].finishedToken == token
                && ports.trace[n + 2].finish == OperationFinish(Aborted, None)
                && ports.trace[n + 3] == AuditDegradedAndDisarmed
    {
      hide Safe, After, Next, Allowed;
      accepted := ports.SessionBeginRestore(plan.operationId, plan.planHash);
      if !accepted {
        var at := ports.MonotonicNow();
        var ignored := ports.FinishOperation(token, OperationFinish(Aborted, None));
        ports.DegradeAuditAndDisarm();
      }
    }

    /** Everything after the session was found ready: the steps, the durable start, the session's grant. */
    method GrantRestore(plan: RP.ApprovedPlan, before: RP.SessionSnapshot, profile: ValidatedProfile)
      returns (token: Option<OperationToken>, error: RestoreError)
      requires Serving() && ports.progress.phase.NoWrite? && ports.progress.single == NotBegun
      requires ports.progress.call.Some? && ports.progress.call.value.BeginRestore?
      requires HasLedger(ports.progress) && CurrentLedger(ports.progress) == Untouched(plan)
      requires RestoreOpenedWith(ports.trace, plan, before, profile)
      modifies this`nextRequestId, ports
      ensures Serving() && old(ports.trace) <= ports.trace
      ensures OnlyCurrentLedger(old(ports.progress), ports.progress)
      ensures token.Some? ==>
                && token.value.MatchesStart(StartOf(plan))
                && CurrentLedger(ports.progress) == Untouched(plan).(durable := true, granted := true)
      ensures token.None? ==>
                && !CurrentLedger(ports.progress).granted && CurrentLedger(ports.progress).writes == []
                && GrantRefused(ports.trace, |old(ports.trace)|, plan, before, profile, error)
    {
      hide Safe, After, Next, Allowed, RestoreOpenedWith, StepsReadFrom, SameContext, BeginReady, StartNotDurable, StepsUnconfirmed;
      error := InvalidRestorePermit;
      ghost var front := ports.trace;
      var refusal := CheckSteps(plan, profile);
      if refusal.Some? {
        return None, RestorePlanError(refusal.value);
      }
      ghost var read := ports.trace;
      var after := ports.SessionSnapshot();
      if !SameContext(before, after) {
        ports.Disarm();
        StepsReadStable(read, ports.trace, |front|, plan, profile, |plan.steps|);
        return None, RestorePlanError(RP.PreconditionChanged);
      }
      BeginIsReady(front, read, plan, before, after, profile);
      token := StartOperation(plan);
      if token.None? {
        StepsReadStable(read, ports.trace, |front|, plan, profile, |plan.steps|);
        return None, RestoreAuditUnavailable;
      }
      var accepted := RequestGrant(plan, token.value);
      if !accepted {
        StepsReadStable(read, ports.trace, |front|, plan, profile, |plan.steps|);
        return None, InvalidRestorePermit;
      }
    }

    /** Confirms a restore plan as a whole and, once its start is durable and the session has granted it,
        hands out the one permit for its steps. */
    method BeginRestore(plan: RP.ApprovedPlan, confirmation: RestoreConfirmation) returns (result: RestoreBeginning)
      requires Valid()
      modifies this`nextRequestId, ports
      ensures Valid() && old(ports.trace) < ports.trace
      ensures ports.progress.writtenPlans == old(ports.progress).writtenPlans && plans == old(plans)
      ensures |ports.progress.ledgers| == |old(ports.progress).ledgers| + 1
      ensures ports.progress.ledgers[..|old(ports.progress).ledgers|] == old(ports.progress).ledgers
      ensures result.RestoreStarted? ==>
                && fresh(result.permit)
                && result.permit.key == |old(ports.progress).ledgers| && result.permit.plan == plan
                && result.permit.nextIndex == 0 && result.permit.active && result.permit.Consistent(ports.progress)
      ensures result.RestoreNotStarted? ==>
                && !ports.progress.ledgers[|old(ports.progress).ledgers|].granted
                && ports.progress.ledgers[|old(ports.progress).ledgers|].writes == []
                && NotStarted(ports.trace, |old(ports.trace)| + 1, plan, confirmation, result.error)
                && (EndsDisarmed(ports.trace) <==> !LeftEarly(ports.trace, |old(ports.trace)| + 1, plan))
    {
      hide Safe, After, Next, Allowed, RestoreOpenedWith, StepsReadFrom, SameContext, OpeningRefused, GrantRefused, IdsFresh, StoreSound,
           EndsDisarmed, LeftEarly;
      ghost var key := |ports.progress.ledgers|;
      ports.Enter(Call.BeginRestore(key, plan, confirmation));
      var opening := OpenRestore(plan, confirmation);
      if opening.RestoreNotOpened? {
        RefusedRestoreDisarmsExactlyWhen(ports.trace, |old(ports.trace)| + 1, plan, key, confirmation, opening.error);
        return RestoreNotStarted(opening.error);
      }
      ghost var front := ports.trace;
      OpenedLength(front, plan, opening.before, opening.profile);
      var token, error := GrantRestore(plan, opening.before, opening.profile);
      if token.None? {
        OpenedThenNotGranted(front, ports.trace, plan, confirmation, opening.before, opening.profile, error);
        RefusedRestoreDisarmsExactlyWhen(ports.trace, |old(ports.trace)| + 1, plan, key, confirmation, error);
        return RestoreNotStarted(error);
      }
      var permit := new RestorePermit(key, token.value, plan);
      return RestoreStarted(permit);
    }

    // ------------------------------------------------------------ restore: one step

    /** The session, if it is still the plan's and still grants step `index`. */
    method StillGranted(plan: RP.ApprovedPlan, index: nat) returns (granted: Option<RP.SessionSnapshot>)
      requires Serving() && ports.progress.phase.NoWrite?
      modifies ports
      ensures Serving() && ports.progress == old(ports.progress) && old(ports.trace) <= ports.trace
      ensures granted.Some? ==>
                && |ports.trace| == |old(ports.trace)| + 2
                && ports.trace[|old(ports.trace)|] == Snapshot(granted.value)
                && RestoreMatchesSession(plan, granted.value, false)
                && ports.trace[|old(ports.trace)| + 1] == RestoreMatched(plan.operationId, plan.planHash, index, true)
      ensures granted.None? ==> NotGranted(ports.trace, |old(ports.trace)|, plan, index)
    {
      hide Safe, After, RestoreMatchesSession;
      var session := ports.SessionSnapshot();
      if !RestoreMatchesSession(plan, session, false) {
        return None;
      }
      var matched := ports.RestoreMatches(plan.operationId, plan.planHash, index);
      return if matched then Some(session) else None;
    }

    /** Session, grant, trust and policy of the next step. */
    method OpenStep(plan: RP.ApprovedPlan, index: nat) returns (opening: StepOpening)
      requires Serving() && ports.progress.phase.NoWrite? && index < |plan.steps|
      requires ports.trace != [] && ports.trace[|ports.trace| - 1].Called? && ports.trace[|ports.trace| - 1].call.ExecuteStep?
      requires ports.trace[|ports.trace| - 1].call.index == index
      modifies this`nextRequestId, ports
      ensures Serving() && ports.progress == old(ports.progress) && old(ports.trace) <= ports.trace
      ensures opening.StepOpened? ==>
                && |ports.trace| == |old(ports.trace)| + 4
                && StepOpenedWith(ports.trace, plan, index, opening.before, opening.profile, opening.parameter)
      ensures opening.StepBlocked? ==> StepUnopened(ports.trace, |old(ports.trace)|, plan, index)
    {
      hide Safe, After, Next, RestoreMatchesSession, StepPolicyHolds, NotGranted, Untrusted;
      var before := StillGranted(plan, index);
      if before.None? {
        return StepBlocked;
      }
      var profile := TrustedProfile(plan.profileHash);
      if profile.None? {
        return StepBlocked;
      }
      var parameter := profile.value.Find(plan.steps[index].parameterId);
      if parameter.None? || !StepPolicyHolds(plan.steps[index], parameter.value) {
        return StepBlocked;
      }
      return StepOpened(before.value, profile.value, parameter.value);
    }

    /** The drive is stopped, the old value is in the device, both values have a meaning, and the session
        still grants the step. */
    method FinalStepReads(plan: RP.ApprovedPlan, index: nat, profile: ValidatedProfile, parameter: Parameter)
      returns (values: Option<(EngineeringValue, EngineeringValue)>)
      requires Serving() && ports.progress.phase.NoWrite? && index < |plan.steps| && parameter.Valid()
      modifies this`nextRequestId, ports
      ensures Serving() && OnlyReads(old(ports.progress), ports.progress) && old(ports.trace) <= ports.trace
      ensures values.Some? ==>
                var n := |old(ports.trace)|;
                && |ports.trace| == n + 6
                && ports.trace[n].Snapshot? && ReadStopped(ports.trace[n + 1], profile, plan.sessionId, plan.operationId)
                && ports.trace[n + 2].Snapshot?
                && ReadValue(ports.trace[n + 3], parameter, plan.sessionId, plan.operationId, plan.steps[index].expectedOldRaw)
                && ports.trace[n + 4].Snapshot? && RestoreMatchesSession(plan, ports.trace[n + 4].session, false)
                && ports.trace[n + 5] == RestoreMatched(plan.operationId, plan.planHash, index, true)
                && parameter.codec.decode(plan.steps[index].expectedOldRaw) == Some(values.value.0)
                && parameter.codec.decode(plan.steps[index].targetRaw) == Some(values.value.1)
      ensures values.None? ==>
                || NotStopped(ports.trace, |old(ports.trace)|, profile, plan.sessionId, plan.operationId)
                || StepValueDiffers(ports.trace, |old(ports.trace)| + 2, parameter, plan, index)
                || NotGranted(ports.trace, |old(ports.trace)| + 4, plan, index)
    {
      hide Safe, After, Next, RestoreMatchesSession, ReadStopped, ReadsBlock, NotStopped, NotGranted;
      var drive := ReadDriveState(profile, plan.sessionId, plan.operationId);
      if drive != Some(Stopped) {
        return None;
      }
      var finalOld := ReadParameterRaw(parameter, plan.sessionId, plan.operationId);
      if finalOld != Some(plan.steps[index].expectedOldRaw) {
        return None;
      }
      var oldEngineering := parameter.codec.decode(finalOld.value);
      var targetEngineering := parameter.codec.decode(plan.steps[index].targetRaw);
      if oldEngineering.None? || targetEngineering.None? {
        return None;
      }
      var still := StillGranted(plan, index);
      return if still.Some? then Some((oldEngineering.value, targetEngineering.value)) else None;
    }

    /** All final guards of one restore step, in order. */
    method CheckStep(plan: RP.ApprovedPlan, index: nat) returns (check: StepCheck)
      requires Serving() && ports.progress.phase.NoWrite? && index < |plan.steps|
      requires ports.trace != [] && ports.trace[|ports.trace| - 1].Called? && ports.trace[|ports.trace| - 1].call.ExecuteStep?
      requires ports.trace[|ports.trace| - 1].call.index == index
      modifies this`nextRequestId, ports
      ensures Serving() && OnlyReads(old(ports.progress), ports.progress) && old(ports.trace) <= ports.trace
      ensures check.StepReady? ==>
                && StepCheckedWith(ports.trace, plan, index, check.before, check.profile, check.parameter)
                && check.parameter.codec.decode(plan.steps[index].expectedOldRaw) == Some(check.oldEngineering)
                && check.parameter.codec.decode(plan.steps[index].targetRaw) == Some(check.targetEngineering)
      ensures check.StepNotReady? ==> StepGuardFails(ports.trace, |old(ports.trace)|, plan, index)
    {
      hide Safe, After, Next, RestoreMatchesSession, StepPolicyHolds, StepOpenedWith, StepCheckedWith, ReadStopped, ReadsBlock, ReadValue,
           StepUnopened, NotStopped, StepValueDiffers, NotGranted;
      var opening := OpenStep(plan, index);
      if opening.StepBlocked? {
        return StepNotReady;
      }
      ghost var front := ports.trace;
      StepMeansOpened(front, plan, index, opening.before, opening.profile, opening.parameter);
      var values := FinalStepReads(plan, index, opening.profile, opening.parameter);
      if values.None? {
        StepOpenedThenBlocked(front, ports.trace, plan, index, opening.before, opening.profile, opening.parameter);
        return StepNotReady;
      }
      StepAssembled(front, ports.trace, plan, index, opening.before, opening.profile, opening.parameter);
      return StepReady(opening.before, opening.profile, opening.parameter, values.value.0, values.value.1);
    }

    /** Gives the operation up: its durable finish says Aborted, and the permit grants nothing more. */
    method AbortInPlace(permit: RestorePermit)
      requires Serving() && ports.progress.phase.NoWrite? && ports.progress.single == NotBegun
      requires HasLedger(ports.progress) && permit.Unfinished(CurrentLedger(ports.progress))
      modifies ports, permit
      ensures Serving() && old(ports.trace) <= ports.trace
      ensures permit.token.None? && !permit.active && permit.nextIndex == old(permit.nextIndex) && permit.results == old(permit.results)
      ensures ports.progress ==
              if old(permit.token).Some? then WithLedger(old(ports.progress), CurrentLedger(old(ports.progress)).(finishes := [Aborted]))
              else old(ports.progress)
      ensures if old(permit.token).Some? then GivenUp(ports.trace, |old(ports.trace)|, permit.plan, old(permit.token).value, permit.nextIndex)
              else ports.trace == old(ports.trace) + [Disarmed]
      ensures DisarmedSince(ports.trace, |old(ports.trace)|)
    {
      hide Safe, After, Next, Allowed;
      var plan := permit.plan;
      var token := permit.TakeToken();
      if token.None? {
        ports.Disarm();
        assert ports.trace[|old(ports.trace)|] == Disarmed;
        return;
      }
      var at := ports.MonotonicNow();
      var persisted := ports.FinishOperation(token.value, OperationFinish(Aborted, LastStep(permit.nextIndex)));
      var ignored := ports.SessionAbortRestore(plan.operationId, plan.planHash);
      ports.Disarm();
      if !persisted {
        ports.DegradeAuditAndDisarm();
      }
      GivingUpDisarms(ports.trace, |old(ports.trace)|, plan, token.value, permit.nextIndex);
    }

    /** The record, made durable by an audit that says it is available; None otherwise. */
    method TryPrepare(record: Preparation) returns (token: Option<PreparedToken>)
      requires Serving() && ports.progress.phase.NoWrite? && ports.progress.single == NotBegun
      requires ports.progress.call.Some? && ports.progress.call.value.ExecuteStep?
      requires HasLedger(ports.progress) && Advanced(CurrentLedger(ports.progress), ports.progress.call.value.index)
      requires ports.progress.call.value.index < |CurrentLedger(ports.progress).plan.steps|
      modifies ports
      ensures Serving() && old(ports.trace) <= ports.trace
      ensures token.Some? ==>
                && ports.trace == old(ports.trace) + [AuditAvailability(true), WritePrepared(record, token)]
                && ports.progress == old(ports.progress).(phase := Prepared(record, token.value))
      ensures token.None? ==> ports.progress == old(ports.progress) && Unrecorded(ports.trace, |old(ports.trace)|)
    {
      hide Safe, After, Next, Allowed, Advanced;
      var up := ports.AuditAvailable();
      if !up {
        return None;
      }
      token := ports.PrepareDeviceWrite(record);
      if token.None? || !token.value.Matches(record) {
        return None;
      }
    }

    /** The write-ahead record of a step; without it the operation is given up and the session degraded. */
    method PrepareStep(permit: RestorePermit, record: Preparation) returns (token: Option<PreparedToken>)
      requires Serving() && ports.progress.phase.NoWrite? && ports.progress.single == NotBegun
      requires ports.progress.call.Some? && ports.progress.call.value.ExecuteStep?
      requires ports.progress.call.value.index < |permit.plan.steps|
      requires HasLedger(ports.progress) && Advanced(CurrentLedger(ports.progress), ports.progress.call.value.index)
      requires permit.Unfinished(CurrentLedger(ports.progress)) && permit.token.Some?
      modifies ports, permit
      ensures Serving() && old(ports.trace) <= ports.trace
      ensures token.Some? ==>
                && ports.trace == old(ports.trace) + [AuditAvailability(true), WritePrepared(record, token)]
                && ports.progress == old(ports.progress).(phase := Prepared(record, token.value))
                && unchanged(permit)
      ensures token.None? ==>
                && permit.token.None? && !permit.active && permit.nextIndex == old(permit.nextIndex)
                && ports.progress == WithLedger(old(ports.progress), CurrentLedger(old(ports.progress)).(finishes := [Aborted]))
                && StepUnrecorded(ports.trace, |old(ports.trace)|, permit.plan, old(permit.token).value, permit.nextIndex)
                && DisarmedSince(ports.trace, |old(ports.trace)|)
    {
      hide Safe, After, Next, Allowed, GivenUp, Advanced, AuditFailed, DisarmedSince;
      token := TryPrepare(record);
      if token.Some? {
        return;
      }
      ghost var failed := ports.trace;
      AbortInPlace(permit);
      ghost var abandoned := ports.trace;
      ports.DegradeAuditAndDisarm();
      assert ports.trace[..|ports.trace| - 1] == abandoned && ports.trace[..|failed|] == failed;
      StillDisarmed(abandoned, ports.trace, |failed|, |old(ports.trace)|);
      return None;
    }

    /** Enters the outcome of a written step in the permit; anything but Verified gives the operation up. */
    method SettleStep(permit: RestorePermit, index: nat, final: DeviceOutcome) returns (report: StepReport)
      requires Serving() && ports.progress.phase.NoWrite? && ports.progress.single == NotBegun
      requires HasLedger(ports.progress) && permit.Unfinished(CurrentLedger(ports.progress))
      requires permit.token.Some? && permit.active && index == permit.nextIndex < |permit.plan.steps|
      modifies ports, permit
      ensures Serving() && old(ports.trace) <= ports.trace
      ensures report.StepDone? ==> report.outcome == final
      ensures report.StepRefused? ==> final == Verified && report.error == InvalidRestorePermit
      ensures if report == StepDone(Verified)
              then
                && ports.progress == old(ports.progress) && permit.token == old(permit.token) && permit.active
                && permit.nextIndex == index + 1
                && permit.results == old(permit.results) + [StepResult(permit.plan.steps[index].index, permit.plan.steps[index].parameterId, Verified)]
                && ports.trace == old(ports.trace) + [RestoreAdvanced(permit.plan.operationId, permit.plan.planHash, index + 1, true)]
              else
                && permit.token.None? && !permit.active && permit.nextIndex <= |permit.plan.steps|
                && ports.progress == WithLedger(old(ports.progress), CurrentLedger(old(ports.progress)).(finishes := [Aborted]))
                && StepGivenUp(ports.trace, |old(ports.trace)|, permit.plan, old(permit.token).value, index, final)
                && DisarmedSince(ports.trace, |old(ports.trace)|)
    {
      hide Safe, After, Next, Allowed, GivenUp, DisarmedSince;
      var plan := permit.plan;
      if final == Verified {
        permit.RecordVerifiedStep(final);
        var advanced := ports.AdvanceRestore(plan.operationId, plan.planHash, permit.nextIndex);
        if !advanced {
          ghost var refused := ports.trace;
          AbortInPlace(permit);
          StillDisarmed(ports.trace, ports.trace, |refused|, |old(ports.trace)|);
          return StepRefused(InvalidRestorePermit);
        }
        return StepDone(final);
      }
      permit.RecordTerminalStep(index, plan.steps[index].parameterId, final);
      AbortInPlace(permit);
      ghost var abandoned := ports.trace;
      if final == AuditDegraded {
        ports.DegradeAuditAndDisarm();
        assert ports.trace[..|ports.trace| - 1] == abandoned;
        StillDisarmed(abandoned, ports.trace, |old(ports.trace)|, |old(ports.trace)|);
      }
      return StepDone(final);
    }

    /** A durable-record draft for one step, under a fresh plan id and a fresh request id. */
    method MintStepRecord(plan: RP.ApprovedPlan, index: nat, check: StepCheck) returns (record: Preparation, contextHash: Digest)
      requires Serving() && PlanIdsFresh() && index < |plan.steps| && check.StepReady?
      requires check.parameter.codec.decode(plan.steps[index].expectedOldRaw) == Some(check.oldEngineering)
      requires check.parameter.codec.decode(plan.steps[index].targetRaw) == Some(check.targetEngineering)
      requires check.parameter.writeFunction.Some?
      modifies this`nextRequestId, this`nextPlanId
      ensures Serving() && PlanIdsFresh()
      ensures RecordsStep(record, plan, plan.steps[index], check.parameter.codec)
      ensures record.writeFunction == check.parameter.writeFunction.value && record.contextHash == contextHash
      ensures contextHash == contextDigest(StepContext(
                plan.operationId, plan.planHash, index, plan.sessionId, plan.fingerprint, plan.profileHash, plan.steps[index].parameterId,
                plan.steps[index].expectedOldRaw, check.oldEngineering, plan.steps[index].targetRaw, check.targetEngineering))
      ensures record.planId == old(nextPlanId) && nextPlanId == SaturatingAdd(record.planId, 1, U128_MAX)
      ensures record.planId == U128_MAX || record.planId !in ports.progress.writtenPlans
      ensures NewRequest(ports.progress, record.requestId) && (record.requestId < nextRequestId || nextRequestId == U64_MAX)
    {
      hide Safe, After;
      var step := plan.steps[index];
      var planId := AllocatePlanId();
      var requestId := AllocateRequestId();
      contextHash := contextDigest(StepContext(
        plan.operationId, plan.planHash, index, plan.sessionId, plan.fingerprint, plan.profileHash, step.parameterId,
        step.expectedOldRaw, check.oldEngineering, step.targetRaw, check.targetEngineering));
      record := StepRecord(plan, index, planId, requestId, contextHash, check.parameter.codec, check.oldEngineering,
                           check.targetEngineering, check.parameter.writeFunction.value);
    }

    /** The durable record of a step whose guards all hold, and with it the right to send exactly its write. */
    method RecordStep(permit: RestorePermit, index: nat, check: StepCheck)
      returns (token: Option<PreparedToken>, record: Preparation, contextHash: Digest)
      requires Serving() && 1 <= config.readBackAttempts <= 4 && PlanIdsFresh()
      requires ports.progress.phase.NoWrite? && ports.progress.single == NotBegun
      requires ports.progress.call == Some(ExecuteStep(permit.key, index))
      requires HasLedger(ports.progress) && CurrentLedger(ports.progress).plan == permit.plan
      requires permit.token.Some? && Granted(CurrentLedger(ports.progress), permit.token.value, index)
      requires index == permit.nextIndex < |permit.plan.steps|
      requires check.StepReady?
      requires StepCheckedWith(ports.trace, permit.plan, index, check.before, check.profile, check.parameter)
      requires check.parameter.codec.decode(permit.plan.steps[index].expectedOldRaw) == Some(check.oldEngineering)
      requires check.parameter.codec.decode(permit.plan.steps[index].targetRaw) == Some(check.targetEngineering)
      modifies this`nextRequestId, this`nextPlanId, ports, permit
      ensures Serving() && PlanIdsFresh() && old(ports.trace) <= ports.trace
      ensures record.planId == old(nextPlanId) && nextPlanId == SaturatingAdd(record.planId, 1, U128_MAX)
      ensures record.contextHash == contextDigest(StepContext(
                permit.plan.operationId, permit.plan.planHash, index, permit.plan.sessionId, permit.plan.fingerprint, permit.plan.profileHash,
                permit.plan.steps[index].parameterId, permit.plan.steps[index].expectedOldRaw, check.oldEngineering,
                permit.plan.steps[index].targetRaw, check.targetEngineering))
      ensures token.Some? ==>
                && unchanged(permit)
                && ports.progress == old(ports.progress).(phase := Prepared(record, token.value))
                && Sendable(OperationStep(permit.plan, index, contextHash), check.profile)
                && permit.plan.steps[index].parameterId in check.profile.parameters
                && record.targetRaw == permit.plan.steps[index].targetRaw
                && (record.requestId < nextRequestId || nextRequestId == U64_MAX)
                && Allowed(ports.progress, ports.trace,
                           BusWritten(Minted(OperationStep(permit.plan, index, contextHash), check.profile, record.requestId, check.before.slaveId),
                                      check.profile.parameters[permit.plan.steps[index].parameterId], WriteOk))
      ensures token.None? ==>
                && permit.token.None? && !permit.active && permit.nextIndex == index
                && ports.progress == WithLedger(old(ports.progress), CurrentLedger(old(ports.progress)).(finishes := [Aborted]))
                && DisarmedSince(ports.trace, |old(ports.trace)|)
    {
      hide Safe, After, Next, Allowed, StepCheckedWith, StepPolicyHolds, Sendable, RecordsStep, Profile.Find, Advanced, RP.RestoreEligibility;
      ghost var front := ports.trace;
      var plan, parameter := permit.plan, check.parameter;
      StepMeans(front, plan, index, check.before, check.profile, parameter);
      record, contextHash := MintStepRecord(plan, index, check);
      StepSendable(plan, index, contextHash, check.profile, parameter);
      GrantedMeans(CurrentLedger(ports.progress), permit.token.value, index);
      token := PrepareStep(permit, record);
      if token.Some? {
        StepWriteAllowed(front, ports.trace, ports.progress, plan, index, check.before, check.profile, parameter, record, token.value, contextHash);
      }
    }

    /** Record, write and finalization of a step whose guards all hold; None when it could not be recorded. */
    method SendStep(permit: RestorePermit, index: nat, check: StepCheck) returns (final: Option<DeviceOutcome>)
      requires Serving() && 1 <= config.readBackAttempts <= 4 && PlanIdsFresh()
      requires ports.progress.phase.NoWrite? && ports.progress.single == NotBegun
      requires ports.progress.call == Some(ExecuteStep(permit.key, index))
      requires HasLedger(ports.progress) && CurrentLedger(ports.progress).plan == permit.plan
      requires permit.token.Some? && Granted(CurrentLedger(ports.progress), permit.token.value, index)
      requires index == permit.nextIndex < |permit.plan.steps|
      requires check.StepReady?
      requires StepCheckedWith(ports.trace, permit.plan, index, check.before, check.profile, check.parameter)
      requires check.parameter.codec.decode(permit.plan.steps[index].expectedOldRaw) == Some(check.oldEngineering)
      requires check.parameter.codec.decode(permit.plan.steps[index].targetRaw) == Some(check.targetEngineering)
      modifies this`nextRequestId, this`nextPlanId, ports, permit
      ensures Serving() && PlanIdsFresh() && old(ports.trace) <= ports.trace
      ensures old(nextPlanId) <= nextPlanId
      ensures HasLedger(ports.progress)
      ensures ports.progress == WithLedger(old(ports.progress), CurrentLedger(ports.progress)).(
                                  lastRequest := ports.progress.lastRequest, writtenPlans := ports.progress.writtenPlans)
      ensures final.Some? ==>
                && unchanged(permit)
                && ports.progress.writtenPlans == old(ports.progress).writtenPlans + {old(nextPlanId)}
                && CurrentLedger(ports.progress) == Outgone(CurrentLedger(old(ports.progress)), permit.plan.steps[index].targetRaw, final.value)
      ensures final.None? ==>
                && permit.token.None? && !permit.active && permit.nextIndex == index
                && ports.progress.writtenPlans == old(ports.progress).writtenPlans
                && CurrentLedger(ports.progress) == CurrentLedger(old(ports.progress)).(finishes := [Aborted])
                && DisarmedSince(ports.trace, |old(ports.trace)|)
    {
      hide Safe, After, Next, Allowed, StepCheckedWith, Sendable, Advanced, Performed;
      var token, record, contextHash := RecordStep(permit, index, check);
      if token.None? {
        return None;
      }
      var authority := OperationStep(permit.plan, index, contextHash);
      ghost var prepared := ports.progress;
      var outcome := WriteAndFinalize(authority, check.profile, record.requestId, check.before.slaveId, token.value);
      StepPerformed(prepared, Minted(authority, check.profile, record.requestId, check.before.slaveId), outcome, ports.progress);
      return Some(outcome);
    }

    /** Record, write and settlement of a step whose guards all hold. */
    method WriteStep(permit: RestorePermit, index: nat, check: StepCheck) returns (report: StepReport)
      requires Serving() && 1 <= config.readBackAttempts <= 4 && PlanIdsFresh()
      requires ports.progress.phase.NoWrite? && ports.progress.single == NotBegun
      requires ports.progress.call == Some(ExecuteStep(permit.key, index))
      requires permit.Consistent(ports.progress) && permit.active && index == permit.nextIndex < |permit.plan.steps|
      requires check.StepReady?
      requires StepCheckedWith(ports.trace, permit.plan, index, check.before, check.profile, check.parameter)
      requires check.parameter.codec.decode(permit.plan.steps[index].expectedOldRaw) == Some(check.oldEngineering)
      requires check.parameter.codec.decode(permit.plan.steps[index].targetRaw) == Some(check.targetEngineering)
      modifies this`nextRequestId, this`nextPlanId, ports, permit
      ensures Serving() && PlanIdsFresh() && old(ports.trace) <= ports.trace
      ensures ports.progress.phase.NoWrite? && ports.progress.single == NotBegun
      ensures ports.progress.openPlans == old(ports.progress).openPlans
      ensures old(nextPlanId) <= nextPlanId
      ensures old(ports.progress).writtenPlans <= ports.progress.writtenPlans <= old(ports.progress).writtenPlans + {old(nextPlanId)}
      ensures |ports.progress.ledgers| == |old(ports.progress).ledgers|
      ensures ports.progress.ledgers == old(ports.progress).ledgers[permit.key := ports.progress.ledgers[permit.key]]
      ensures permit.Consistent(ports.progress)
      ensures StepEffect(old(ports.progress).ledgers[permit.key], ports.progress.ledgers[permit.key], permit.plan.steps[index].targetRaw, report)
      ensures report == StepDone(Verified) <==> permit.active
      ensures !permit.active ==> DisarmedSince(ports.trace, |old(ports.trace)|)
      ensures permit.active ==>
                && permit.nextIndex == index + 1 && ports.trace != []
                && ports.trace[|ports.trace| - 1] == RestoreAdvanced(permit.plan.operationId, permit.plan.planHash, index + 1, true)
      ensures report == StepRefused(InvalidRestorePermit) ==> |ports.progress.ledgers[permit.key].writes| > |old(ports.progress).ledgers[permit.key].writes|
    {
      hide Safe, After, Next, Allowed, StepCheckedWith, StepPolicyHolds, Sendable, RecordsStep, IdsFresh, Agrees, Granted, Advanced, GivenUp,
           DisarmedSince, StepGivenUp;
      ghost var l := ports.progress.ledgers[permit.key];
      AgreesMeans(l, permit.plan, permit.token, index, permit.results, true);
      VerifiedAgrees(l, permit.plan, permit.token.value, index, permit.results);
      var final := SendStep(permit, index, check);
      if final.None? {
        SpentAgrees(ports.progress.ledgers[permit.key], permit.plan, permit.nextIndex, permit.results);
        return StepRefused(RestoreAuditUnavailable);
      }
      ghost var sent := ports.trace;
      report := SettleStep(permit, index, final.value);
      if !permit.active {
        StillDisarmed(ports.trace, ports.trace, |sent|, |old(ports.trace)|);
        SpentAgrees(ports.progress.ledgers[permit.key], permit.plan, permit.nextIndex, permit.results);
      }
    }

    /** Executes the next approved step, and no other, through the kernel manual writes use. The first
        outcome but Verified ends the permit. */
    method ExecuteRestoreStep(permit: RestorePermit, index: nat) returns (report: StepReport)
      requires Valid() && permit.Consistent(ports.progress)
      modifies this`nextRequestId, this`nextPlanId, ports, permit
      ensures Valid() && permit.Consistent(ports.progress) && old(ports.trace) <= ports.trace
      ensures plans == old(plans)
      ensures |ports.progress.ledgers| == |old(ports.progress).ledgers|
      ensures ports.progress.ledgers == old(ports.progress).ledgers[permit.key := ports.progress.ledgers[permit.key]]
      ensures old(permit.active) && index == old(permit.nextIndex) && index < |permit.plan.steps| ==>
                && StepEffect(old(ports.progress).ledgers[permit.key], ports.progress.ledgers[permit.key],
                              permit.plan.steps[index].targetRaw, report)
                && (report == StepDone(Verified) <==> permit.active)
                && (!permit.active ==> DisarmedSince(ports.trace, |old(ports.trace)|))
                && (permit.active ==>
                      && permit.nextIndex == index + 1
                      && ports.trace[|ports.trace| - 1] == RestoreAdvanced(permit.plan.operationId, permit.plan.planHash, index + 1, true))
                && (report == StepRefused(InvalidRestorePermit)
                    && |ports.progress.ledgers[permit.key].writes| == |old(ports.progress).ledgers[permit.key].writes| ==>
                      StepGuardFails(ports.trace, |old(ports.trace)| + 1, permit.plan, index))
      ensures !(old(permit.active) && index == old(permit.nextIndex) && index < |permit.plan.steps|) ==>
                && report == StepRefused(InvalidRestorePermit) && unchanged(permit)
                && ports.trace == old(ports.trace) + [Called(ExecuteStep(permit.key, index))]
                && ports.progress.ledgers == old(ports.progress).ledgers
    {
      hide Safe, After, Next, Allowed, StepCheckedWith, Advanced, Granted, Agrees, StoreSound, StepGuardFails, GivenUp, StepEffect,
           DisarmedSince;
      ghost var l := ports.progress.ledgers[permit.key];
      AgreesMeans(l, permit.plan, permit.token, permit.nextIndex, permit.results, permit.active);
      ports.Enter(ExecuteStep(permit.key, index));
      if !permit.active || !permit.TokenMatchesPlan() || index != permit.nextIndex || index >= |permit.plan.steps| {
        return StepRefused(InvalidRestorePermit);
      }
      var check := CheckStep(permit.plan, index);
      if check.StepNotReady? {
        ghost var blocked := ports.trace;
        AbortInPlace(permit);
        StepGuardFailureStays(blocked, ports.trace, |old(ports.trace)| + 1, permit.plan, index);
        SpentAgrees(ports.progress.ledgers[permit.key], permit.plan, permit.nextIndex, permit.results);
        BlockedEffect(l, permit.plan.steps[index].targetRaw);
        StillDisarmed(ports.trace, ports.trace, |blocked|, |old(ports.trace)|);
        return StepRefused(InvalidRestorePermit);
      }
      ghost var checked := ports.trace;
      report := WriteStep(permit, index, check);
      if !permit.active {
        StillDisarmed(ports.trace, ports.trace, |checked|, |old(ports.trace)|);
      }
      StoreStaysSound(plans, old(nextPlanId), contextDigest, old(ports.progress).writtenPlans, nextPlanId, ports.progress.writtenPlans);
    }

    // ------------------------------------------------------------ restore: end

    /** The end of a restore whose steps all verified, in the audit and then in the session. */
    method EndOperation(plan: RP.ApprovedPlan, token: OperationToken) returns (ended: bool)
      requires Serving() && ports.progress.phase.NoWrite? && ports.progress.single == NotBegun && HasLedger(ports.progress)
      requires CurrentLedger(ports.progress).plan == plan && CurrentLedger(ports.progress).closed && token.MatchesStart(StartOf(plan))
      requires CurrentLedger(ports.progress).durable && CurrentLedger(ports.progress).finishes == []
      requires Advanced(CurrentLedger(ports.progress).(closed := false), |plan.steps|)
      modifies ports
      ensures Serving() && old(ports.trace) <= ports.trace
      ensures ports.progress == WithLedger(old(ports.progress), CurrentLedger(old(ports.progress)).(finishes := [Completed]))
      ensures if ended then Ends(ports.trace, |old(ports.trace)|, plan, token) else DoesNotEnd(ports.trace, |old(ports.trace)|, plan, token)
    {
      hide Safe, After, Next, Allowed, Advanced;
      var at := ports.MonotonicNow();
      var persisted := ports.FinishOperation(token, OperationFinish(Completed, LastStep(|plan.steps|)));
      if !persisted {
        ports.DegradeAuditAndDisarm();
        return false;
      }
      ended := ports.SessionFinishRestore(plan.operationId, plan.planHash);
      if !ended {
        ports.DegradeAuditAndDisarm();
        return false;
      }
      ports.Disarm();
    }

    /** What finishing a restore does with the permit's token. */
    method ConcludeRestore(plan: RP.ApprovedPlan, token: OperationToken, nextIndex: nat) returns (error: Option<RestoreError>)
      requires Serving() && ports.progress.phase.NoWrite? && ports.progress.single == NotBegun && HasLedger(ports.progress)
      requires CurrentLedger(ports.progress).plan == plan && CurrentLedger(ports.progress).closed && token.MatchesStart(StartOf(plan))
      requires CurrentLedger(ports.progress).durable && CurrentLedger(ports.progress).finishes == []
      requires nextIndex == |plan.steps| ==> Advanced(CurrentLedger(ports.progress).(closed := false), |plan.steps|)
      modifies ports
      ensures Serving() && old(ports.trace) < ports.trace
      ensures ports.progress ==
              if error == Some(InvalidRestorePermit) then old(ports.progress)
              else WithLedger(old(ports.progress), CurrentLedger(old(ports.progress)).(finishes := [Completed]))
      ensures error.None? ==> nextIndex == |plan.steps| && Completes(ports.trace, |old(ports.trace)|, plan, token)
      ensures error.Some? ==> NotCompleted(ports.trace, |old(ports.trace)|, plan, token, nextIndex, error.value)
    {
      hide Safe, After, Next, Allowed, Advanced, Ends;
      var matched := false;
      if nextIndex == |plan.steps| {
        matched := ports.RestoreMatches(plan.operationId, plan.planHash, nextIndex);
      }
      if !matched {
        ports.DegradeAuditAndDisarm();
        return Some(InvalidRestorePermit);
      }
      var ended := EndOperation(plan, token);
      return if ended then None else Some(RestoreFinalizationFailed);
    }

    /** Ends a restore whose steps all verified. The permit is spent whatever the answer. */
    method FinishRestore(permit: RestorePermit) returns (error: Option<RestoreError>)
      requires Valid() && permit.Consistent(ports.progress)
      modifies ports, permit
      ensures Valid() && permit.Consistent(ports.progress) && old(ports.trace) < ports.trace
      ensures !permit.active && permit.nextIndex == old(permit.nextIndex)
      ensures ports.progress.writtenPlans == old(ports.progress).writtenPlans
      ensures |ports.progress.ledgers| == |old(ports.progress).ledgers|
      ensures ports.progress.ledgers == old(ports.progress).ledgers[permit.key := ports.progress.ledgers[permit.key]]
      ensures if error == Some(InvalidRestorePermit)
              then ports.progress.ledgers[permit.key].finishes == old(ports.progress).ledgers[permit.key].finishes
              else old(permit.token).Some? && ports.progress.ledgers[permit.key].finishes == [Completed]
      ensures error.None? ==>
                && old(permit.nextIndex) == |permit.plan.steps|
                && Completes(ports.trace, |old(ports.trace)| + 1, permit.plan, old(permit.token).value)
      ensures error.Some? && old(permit.token).Some? ==>
                NotCompleted(ports.trace, |old(ports.trace)| + 1, permit.plan, old(permit.token).value, permit.nextIndex, error.value)
      ensures old(permit.token).None? ==> error == Some(InvalidRestorePermit) && |ports.trace| == |old(ports.trace)| + 1
    {
      hide Safe, After, Next, Allowed, Advanced, Granted, Agrees, StoreSound, IdsFresh, Completes, NotCompleted;
      ports.Enter(Call.FinishRestore(permit.key));
      var plan, nextIndex := permit.plan, permit.nextIndex;
      ghost var l := old(ports.progress).ledgers[permit.key];
      AgreesMeans(l, plan, permit.token, nextIndex, permit.results, permit.active);
      SpentAgrees(l.(closed := true), plan, nextIndex, permit.results);
      SpentAgrees(l.(closed := true, finishes := [Completed]), plan, nextIndex, permit.results);
      var token := permit.TakeToken();
      if token.None? {
        return Some(InvalidRestorePermit);
      }
      ClosedAdvanced(l, nextIndex);
      error := ConcludeRestore(plan, token.value, nextIndex);
    }

    /** What aborting a restore does with the permit's token. */
    method AbandonRestore(plan: RP.ApprovedPlan, token: OperationToken, nextIndex: nat) returns (error: Option<RestoreError>)
      requires Serving() && ports.progress.phase.NoWrite? && ports.progress.single == NotBegun && HasLedger(ports.progress)
      requires CurrentLedger(ports.progress).plan == plan && CurrentLedger(ports.progress).durable
      requires CurrentLedger(ports.progress).finishes == [] && token.MatchesStart(StartOf(plan))
      modifies ports
      ensures Serving() && old(ports.trace) <= ports.trace
      ensures ports.progress == WithLedger(old(ports.progress), CurrentLedger(old(ports.progress)).(finishes := [Aborted]))
      ensures Abandoned(ports.trace, |old(ports.trace)|, plan, token, nextIndex, error)
    {
      hide Safe, After, Next, Allowed;
      var at := ports.MonotonicNow();
      var persisted := ports.FinishOperation(token, OperationFinish(Aborted, LastStep(nextIndex)));
      var ended := ports.SessionAbortRestore(plan.operationId, plan.planHash);
      ports.Disarm();
      if !persisted || !ended {
        ports.DegradeAuditAndDisarm();
        return Some(RestoreFinalizationFailed);
      }
      return None;
    }

    /** Gives a restore up. The permit is spent whatever the answer. */
    method AbortRestore(permit: RestorePermit) returns (error: Option<RestoreError>)
      requires Valid() && permit.Consistent(ports.progress)
      modifies ports, permit
      ensures Valid() && permit.Consistent(ports.progress) && old(ports.trace) < ports.trace
      ensures !permit.active && permit.nextIndex == old(permit.nextIndex)
      ensures ports.progress.writtenPlans == old(ports.progress).writtenPlans
      ensures |ports.progress.ledgers| == |old(ports.progress).ledgers|
      ensures ports.progress.ledgers == old(ports.progress).ledgers[permit.key := ports.progress.ledgers[permit.key]]
      ensures ports.progress.ledgers[permit.key].finishes ==
              if old(permit.token).Some? then [Aborted] else old(ports.progress).ledgers[permit.key].finishes
      ensures if old(permit.token).Some?
              then Abandoned(ports.trace, |old(ports.trace)| + 1, permit.plan, old(permit.token).value, permit.nextIndex, error)
              else error == Some(InvalidRestorePermit) && |ports.trace| == |old(ports.trace)| + 1
    {
      hide Safe, After, Next, Allowed, Advanced, Granted, Agrees, StoreSound, IdsFresh, Abandoned;
      ports.Enter(Call.AbortRestore(permit.key));
      var plan, nextIndex := permit.plan, permit.nextIndex;
      ghost var l := old(ports.progress).ledgers[permit.key];
      AgreesMeans(l, plan, permit.token, nextIndex, permit.results, permit.active);
      SpentAgrees(l.(closed := true), plan, nextIndex, permit.results);
      SpentAgrees(l.(closed := true, finishes := [Aborted]), plan, nextIndex, permit.results);
      var token := permit.TakeToken();
      if token.None? {
        return Some(InvalidRestorePermit);
      }
      error := AbandonRestore(plan, token.value, nextIndex);
    }
  }
}
