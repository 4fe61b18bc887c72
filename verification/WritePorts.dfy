/** The ports of the write coordinator. Every answer is arbitrary: a port may fail, change its mind between
    two calls, or return a token for something else. Only the trace of calls is remembered. */
module WritePorts {
  import opened Domain
  import opened Profiles
  import RP = RestorePlanning
  import opened WriteTypes
  import opened WriteProtocol

  class Ports {
    ghost var trace: Trace
    ghost var progress: Progress

    /** The calls made so far respect the reference protocol. */
    ghost predicate Valid()
      reads this
    {
      Safe(trace) && progress == After(trace)
    }

    constructor ()
      ensures Valid() && trace == [] && progress == START
    {
      trace, progress := [], START;
    }

    ghost method Emit(e: Event)
      requires Valid() && Allowed(progress, trace, e)
      modifies this
      ensures Valid() && trace == old(trace) + [e] && progress == Next(old(progress), |old(trace)|, e)
    {
      hide Safe, After, Allowed, Next;
      Extend(trace, e);
      progress := Next(progress, |trace|, e);
      trace := trace + [e];
    }

    ghost method Enter(call: Call)
      requires Valid() && progress.phase.NoWrite? && progress.single != Open
      requires call.BeginRestore? ==> call.permit == |progress.ledgers|
      requires call.ExecuteStep? || call.FinishRestore? || call.AbortRestore? ==> call.permit < |progress.ledgers|
      modifies this
      ensures Valid() && trace == old(trace) + [Called(call)]
      ensures progress == WriteProtocol.Enter(old(progress), call)
    {
      hide Safe, After;
      Emit(Called(call));
    }

    /** The plan store gives a plan up to the confirmation under way. */
    ghost method Consume(stored: StoredPlan)
      requires Valid() && progress.phase.NoWrite?
      requires progress.call.Some? && progress.call.value.ConfirmWrite? && progress.call.value.planId == stored.plan.planId
      requires stored.plan.planId in progress.openPlans && progress.openPlans[stored.plan.planId] == stored
      modifies this
      ensures Valid() && trace == old(trace) + [PlanConsumed(stored)]
      ensures progress == old(progress).(openPlans := old(progress).openPlans - {stored.plan.planId})
    {
      hide Safe, After;
      Emit(PlanConsumed(stored));
    }

    method MonotonicNow() returns (now: U128)
      requires Valid() && progress.phase.NoWrite?
      modifies this
      ensures Valid() && trace == old(trace) + [ClockRead(now)] && progress == old(progress)
    {
      hide Safe, After;
      now := *;
      Emit(ClockRead(now));
    }

    method Sleep()
      requires Valid() && progress.phase.Written?
      modifies this
      ensures Valid() && trace == old(trace) + [Slept] && progress == old(progress)
    {
      hide Safe, After;
      Emit(Slept);
    }

    method SessionSnapshot() returns (session: RP.SessionSnapshot)
      requires Valid() && !progress.phase.Prepared?
      modifies this
      ensures Valid() && trace == old(trace) + [Snapshot(session)] && progress == old(progress)
    {
      hide Safe, After;
      session := *;
      Emit(Snapshot(session));
    }

    method ActiveProfileByHash(hash: string) returns (profile: Option<ValidatedProfile>)
      requires Valid() && progress.phase.NoWrite?
      modifies this
      ensures Valid() && trace == old(trace) + [ProfileLookup(hash, profile)] && progress == old(progress)
    {
      hide Safe, After;
      profile := *;
      Emit(ProfileLookup(hash, profile));
    }

    method IsTrusted(profileId: string) returns (trusted: bool)
      requires Valid() && progress.phase.NoWrite?
      modifies this
      ensures Valid() && trace == old(trace) + [TrustChecked(profileId, trusted)] && progress == old(progress)
    {
      hide Safe, After;
      trusted := *;
      Emit(TrustChecked(profileId, trusted));
    }

    method ReadBus(request: ReadRequest) returns (value: Option<RawRegisters>)
      requires Valid() && MayRead(progress.phase) && NewRequest(progress, request.requestId)
      requires trace != [] && trace[|trace| - 1].Snapshot? && request.slaveId == trace[|trace| - 1].session.slaveId
      modifies this
      ensures Valid() && trace == old(trace) + [BusReadDone(request, value)]
      ensures progress == Next(old(progress), |old(trace)|, BusReadDone(request, value))
    {
      hide Safe, After;
      value := *;
      Emit(BusReadDone(request, value));
    }

    method ExecuteWrite(write: BusWrite, parameter: Parameter) returns (result: WriteResult)
      requires Valid() && Allowed(progress, trace, BusWritten(write, parameter, WriteOk))
      modifies this
      ensures Valid() && trace == old(trace) + [BusWritten(write, parameter, result)]
      ensures progress == Next(old(progress), |old(trace)|, BusWritten(write, parameter, result))
    {
      hide Safe, After, BeginEvidence, StepEvidence, ManualEvidence, IssueEvidence, Next;
      result := *;
      Emit(BusWritten(write, parameter, result));
    }

    method AuditAvailable() returns (up: bool)
      requires Valid() && progress.phase.NoWrite?
      modifies this
      ensures Valid() && trace == old(trace) + [AuditAvailability(up)] && progress == old(progress)
    {
      hide Safe, After;
      up := *;
      Emit(AuditAvailability(up));
    }

    method RecordDecision(decision: Decision) returns (persisted: bool)
      requires Valid() && progress.phase.NoWrite?
      modifies this
      ensures Valid() && trace == old(trace) + [DecisionRecorded(decision, persisted)] && progress == old(progress)
    {
      hide Safe, After;
      persisted := *;
      Emit(DecisionRecorded(decision, persisted));
    }

    method PrepareDeviceWrite(record: Preparation) returns (token: Option<PreparedToken>)
      requires Valid() && progress.phase.NoWrite? && progress.call.Some?
      requires match progress.call.value
               case ConfirmWrite(_, _) => progress.single == Open
               case ExecuteStep(permit, index) =>
                 permit < |progress.ledgers| && Advanced(progress.ledgers[permit], index) && index < |progress.ledgers[permit].plan.steps|
               case _ => false
      modifies this
      ensures Valid() && trace == old(trace) + [WritePrepared(record, token)]
      ensures progress == if Accepted(record, token) then old(progress).(phase := Prepared(record, token.value)) else old(progress)
    {
      hide Safe, After, BeginEvidence, StepEvidence, ManualEvidence, IssueEvidence;
      token := *;
      Emit(WritePrepared(record, token));
    }

    method FinalizeDeviceWrite(token: PreparedToken, outcome: DeviceOutcome, evidence: Evidence) returns (persisted: bool)
      requires Valid() && !progress.phase.NoWrite? && token == progress.phase.token
      requires Concludes(progress.phase, outcome, evidence)
      modifies this
      ensures Valid() && trace == old(trace) + [WriteFinalized(token, outcome, evidence, persisted)]
      ensures progress == Next(old(progress), |old(trace)|, WriteFinalized(token, outcome, evidence, persisted))
    {
      hide Safe, After, BeginEvidence, StepEvidence, ManualEvidence, IssueEvidence, Next;
      persisted := *;
      Emit(WriteFinalized(token, outcome, evidence, persisted));
    }

    method BeginOperation(start: OperationStart) returns (token: Option<OperationToken>)
      requires Valid() && progress.phase.NoWrite? && progress.call.Some? && progress.call.value.BeginRestore?
      requires HasLedger(progress) && CurrentLedger(progress) == Untouched(CurrentLedger(progress).plan)
      requires start == StartOf(CurrentLedger(progress).plan)
      requires |trace| >= 10 + 2 * |CurrentLedger(progress).plan.steps|
      requires BeginEvidence(trace, |trace| - 10 - 2 * |CurrentLedger(progress).plan.steps|, CurrentLedger(progress).plan)
      modifies this
      ensures Valid() && trace == old(trace) + [OperationBegun(start, token)]
      ensures progress ==
              if token.Some? && token.value.MatchesStart(start)
              then WithLedger(old(progress), CurrentLedger(old(progress)).(durable := true)) else old(progress)
    {
      hide Safe, After, BeginEvidence, StepEvidence, ManualEvidence, IssueEvidence;
      token := *;
      Emit(OperationBegun(start, token));
    }

    method FinishOperation(token: OperationToken, finish: OperationFinish) returns (persisted: bool)
      requires Valid() && progress.phase.NoWrite? && HasLedger(progress)
      requires CurrentLedger(progress).durable && CurrentLedger(progress).finishes == []
      requires token.MatchesStart(StartOf(CurrentLedger(progress).plan))
      requires finish.outcome == Completed ==>
                 CurrentLedger(progress).closed
                 && Advanced(CurrentLedger(progress).(closed := false), |CurrentLedger(progress).plan.steps|)
      modifies this
      ensures Valid() && trace == old(trace) + [OperationFinished(token, finish, persisted)]
      ensures progress == WithLedger(old(progress), CurrentLedger(old(progress)).(finishes := [finish.outcome]))
    {
      hide Safe, After, BeginEvidence, StepEvidence, ManualEvidence, IssueEvidence;
      persisted := *;
      assert CurrentLedger(progress).finishes + [finish.outcome] == [finish.outcome];
      Emit(OperationFinished(token, finish, persisted));
    }

    method BeginSingleWrite(operationId: nat, planId: nat) returns (accepted: bool)
      requires Valid() && progress.phase.NoWrite? && progress.single == NotBegun
      requires progress.call.Some? && progress.call.value.ConfirmWrite?
      modifies this
      ensures Valid() && trace == old(trace) + [SingleWriteBegun(operationId, planId, accepted)]
      ensures progress == if accepted then old(progress).(single := Open) else old(progress)
    {
      hide Safe, After, BeginEvidence, StepEvidence, ManualEvidence, IssueEvidence;
      accepted := *;
      Emit(SingleWriteBegun(operationId, planId, accepted));
    }

    method FinishSingleWrite(outcome: WriteOutcome)
      requires Valid() && progress.phase.NoWrite? && progress.single == Open
      modifies this
      ensures Valid() && trace == old(trace) + [SingleWriteFinished(outcome)]
      ensures progress == old(progress).(single := Closed)
    {
      hide Safe, After;
      Emit(SingleWriteFinished(outcome));
    }

    method SessionBeginRestore(operationId: nat, planHash: Digest) returns (accepted: bool)
      requires Valid() && progress.phase.NoWrite? && progress.call.Some? && progress.call.value.BeginRestore?
      requires HasLedger(progress)
      requires CurrentLedger(progress) == Untouched(CurrentLedger(progress).plan).(durable := true)
      requires operationId == CurrentLedger(progress).plan.operationId && planHash == CurrentLedger(progress).plan.planHash
      modifies this
      ensures Valid() && trace == old(trace) + [RestoreBegun(operationId, planHash, accepted)]
      ensures progress ==
              if accepted then WithLedger(old(progress), CurrentLedger(old(progress)).(granted := true)) else old(progress)
    {
      hide Safe, After, BeginEvidence, StepEvidence, ManualEvidence, IssueEvidence;
      accepted := *;
      Emit(RestoreBegun(operationId, planHash, accepted));
    }

    method RestoreMatches(operationId: nat, planHash: Digest, nextIndex: nat) returns (matched: bool)
      requires Valid() && progress.phase.NoWrite?
      modifies this
      ensures Valid() && trace == old(trace) + [RestoreMatched(operationId, planHash, nextIndex, matched)]
      ensures progress == old(progress)
    {
      hide Safe, After;
      matched := *;
      Emit(RestoreMatched(operationId, planHash, nextIndex, matched));
    }

    method AdvanceRestore(operationId: nat, planHash: Digest, nextIndex: nat) returns (accepted: bool)
      requires Valid() && progress.phase.NoWrite?
      modifies this
      ensures Valid() && trace == old(trace) + [RestoreAdvanced(operationId, planHash, nextIndex, accepted)]
      ensures progress == old(progress)
    {
      hide Safe, After;
      accepted := *;
      Emit(RestoreAdvanced(operationId, planHash, nextIndex, accepted));
    }

    method SessionFinishRestore(operationId: nat, planHash: Digest) returns (accepted: bool)
      requires Valid() && progress.phase.NoWrite?
      modifies this
      ensures Valid() && trace == old(trace) + [RestoreFinishedInSession(operationId, planHash, accepted)]
      ensures progress == old(progress)
    {
      hide Safe, After;
      accepted := *;
      Emit(RestoreFinishedInSession(operationId, planHash, accepted));
    }

    method SessionAbortRestore(operationId: nat, planHash: Digest) returns (accepted: bool)
      requires Valid() && progress.phase.NoWrite?
      modifies this
      ensures Valid() && trace == old(trace) + [RestoreAbortedInSession(operationId, planHash, accepted)]
      ensures progress == old(progress)
    {
      hide Safe, After;
      accepted := *;
      Emit(RestoreAbortedInSession(operationId, planHash, accepted));
    }

    method Disarm()
      requires Valid() && progress.phase.NoWrite?
      modifies this
      ensures Valid() && trace == old(trace) + [Disarmed] && progress == old(progress)
    {
      hide Safe, After;
      Emit(Disarmed);
    }

    method DegradeAuditAndDisarm()
      requires Valid() && progress.phase.NoWrite? && progress.single != Closed
      modifies this
      ensures Valid() && trace == old(trace) + [AuditDegradedAndDisarmed]
      ensures progress == if old(progress).single == Open then old(progress).(single := Closed) else old(progress)
    {
      hide Safe, After;
      Emit(AuditDegradedAndDisarmed);
    }

    method ReportDiagnostic()
      requires Valid() && progress.phase.NoWrite?
      modifies this
      ensures Valid() && trace == old(trace) + [Diagnostic] && progress == old(progress)
    {
      hide Safe, After;
      Emit(Diagnostic);
    }
  }
}
