/** What stands behind every physical write, every issued plan and every verdict, told event by event and field
    by field, without the coordinator's own checks. */
module WriteMeanings {
  import opened Domain
  import Modbus
  import opened Profiles
  import RP = RestorePlanning
  import PH = PlanHash
  import RS = RestoreScopes
  import opened WriteTypes
  import opened WriteProtocol
  import opened WriteRefusals
  import opened WriteGuarantees
  import opened WritePolicies

  // ---------------------------------------------------------------- what the events must say

  /** A session that can carry a write of this plan; `idle` or in the middle of the restore. */
  ghost predicate SessionFits(session: RP.SessionSnapshot, sessionId: nat, fingerprint: Fingerprint, hash: string, idle: bool) {
    && session.connected && session.armed && session.auditHealthy && session.operationIdle == idle
    && session.sessionId == sessionId && session.fingerprint == fingerprint && session.profileHash == hash
  }

  /** Event `n + 1` read exactly the registers of `parameter`, from the slave of the session seen at event `n`. */
  ghost predicate ReadAt(t: Trace, n: nat, parameter: Parameter, sessionId: nat, operationId: nat) {
    && n + 1 < |t| && t[n].Snapshot? && t[n + 1].BusReadDone?
    && t[n + 1].request == ReadRequest(t[n + 1].request.requestId, sessionId, operationId, t[n].session.slaveId,
                                       if parameter.block.table.InputRegisters? then Modbus.ReadInputRegisters else Modbus.ReadHoldingRegisters,
                                       parameter.block)
  }

  /** That read brought back `raw`. */
  ghost predicate FreshValue(t: Trace, n: nat, parameter: Parameter, sessionId: nat, operationId: nat, raw: RawRegisters) {
    ReadAt(t, n, parameter, sessionId, operationId) && t[n + 1].value == Some(raw)
  }

  /** The parameter that tells the drive state was read, and its words are among those that mean stopped. */
  ghost predicate StandsStill(t: Trace, n: nat, profile: Profile, sessionId: nat, operationId: nat) {
    && profile.driveStateSource.Some?
    && var source := profile.driveStateSource.value;
    && source.parameterId in profile.parameters
    && exists k :: 0 <= k < |source.stoppedRaw|
        && FreshValue(t, n, profile.parameters[source.parameterId], sessionId, operationId, source.stoppedRaw[k])
  }

  /** `profile` is the active profile with this hash, and trusted. */
  ghost predicate TrustedHere(t: Trace, n: nat, hash: string, profile: ValidatedProfile) {
    && n + 1 < |t| && profile.hash == hash
    && t[n] == ProfileLookup(hash, Some(profile)) && t[n + 1] == TrustChecked(profile.profileId, true)
  }

  /** The words the operator has to give to confirm `plan`. */
  function Expected(plan: PreparedPlan): Confirmation {
    match plan.confirmation
    case StandardModel => ConfirmStandard(plan.challenge)
    case CommissioningModel(code, requested) => ConfirmCommissioning(plan.challenge, code, requested)
  }

  /** Every read goes to the slave of a session looked at right before. */
  lemma ReadsGoToTheSession(t: Trace, n: nat)
    requires Safe(t) && n < |t| && t[n].BusReadDone?
    ensures n > 0 && t[n - 1].Snapshot? && t[n].request.slaveId == t[n - 1].session.slaveId
  {
    hide Safe, After, Next, ManualEvidence, StepEvidence, IssueEvidence, BeginEvidence;
    At(t, n);
  }

  lemma ReadMeans(t: Trace, n: nat, parameter: Parameter, sessionId: nat, operationId: nat)
    requires Safe(t) && n + 1 < |t| && t[n].Snapshot?
    ensures t[n + 1].BusReadDone? && ReadsBlock(t[n + 1].request, parameter, sessionId, operationId)
            <==> ReadAt(t, n, parameter, sessionId, operationId)
  {
    hide Safe;
    if t[n + 1].BusReadDone? {
      ReadsGoToTheSession(t, n + 1);
    }
  }

  lemma ValueMeans(t: Trace, n: nat, parameter: Parameter, sessionId: nat, operationId: nat, raw: RawRegisters)
    requires Safe(t) && n + 1 < |t| && t[n].Snapshot?
    ensures ReadValue(t[n + 1], parameter, sessionId, operationId, raw) <==> FreshValue(t, n, parameter, sessionId, operationId, raw)
  {
    hide Safe;
    ReadMeans(t, n, parameter, sessionId, operationId);
    hide ReadsBlock;
  }

  lemma StoppedMeans(t: Trace, n: nat, profile: Profile, sessionId: nat, operationId: nat)
    requires Safe(t) && n + 1 < |t| && t[n].Snapshot?
    ensures ReadStopped(t[n + 1], profile, sessionId, operationId) <==> StandsStill(t, n, profile, sessionId, operationId)
  {
    hide Safe;
    if profile.driveStateSource.Some? && profile.driveStateSource.value.parameterId in profile.parameters {
      var source := profile.driveStateSource.value;
      ReadMeans(t, n, profile.parameters[source.parameterId], sessionId, operationId);
      hide ReadsBlock;
      if t[n + 1].BusReadDone? && t[n + 1].value.Some? && t[n + 1].value.value in source.stoppedRaw {
        var k :| 0 <= k < |source.stoppedRaw| && source.stoppedRaw[k] == t[n + 1].value.value;
        assert ReadAt(t, n, profile.parameters[source.parameterId], sessionId, operationId) ==>
                 FreshValue(t, n, profile.parameters[source.parameterId], sessionId, operationId, source.stoppedRaw[k]);
      }
    }
  }

  // ---------------------------------------------------------------- manual writes

  /** Events `s .. s + 10` of a confirmation: the plan, its exact and timely confirmation, a fitting session, the
      trusted profile with the request in its policy, the drive at rest, the old value in place, and the session
      still exactly the same. */
  ghost predicate ManualStands(t: Trace, s: nat, stored: StoredPlan, profile: ValidatedProfile, parameter: Parameter) {
    && s + 11 <= |t|
    && var plan := stored.plan;
    && t[s] == Called(ConfirmWrite(plan.planId, Expected(plan)))
    && t[s + 1] == PlanConsumed(stored)
    && t[s + 2].ClockRead? && t[s + 2].now <= plan.expiresAt
    && t[s + 3].Snapshot? && SessionFits(t[s + 3].session, plan.sessionId, plan.fingerprint, plan.profileHash, true)
    && t[s + 3].session.guardRevision == stored.guardRevision
    && TrustedHere(t, s + 4, plan.profileHash, profile)
    && plan.parameterId in profile.parameters && profile.parameters[plan.parameterId] == parameter
    && InPolicy(parameter, plan.requested, plan.targetRaw)
    && StandsStill(t, s + 6, profile, plan.sessionId, plan.operationId)
    && FreshValue(t, s + 8, parameter, plan.sessionId, plan.operationId, plan.previousRaw)
    && parameter.codec.decode(plan.previousRaw) == Some(plan.previousEngineering)
    && t[s + 10] == t[s + 3]
  }

  lemma ConfirmationMeans(plan: PreparedPlan, confirmation: Confirmation)
    ensures ConfirmationMatches(plan, confirmation) <==> confirmation == Expected(plan)
  {
  }

  lemma SessionMeans(plan: PreparedPlan, session: RP.SessionSnapshot)
    ensures PlanMatchesSession(plan, session) <==> SessionFits(session, plan.sessionId, plan.fingerprint, plan.profileHash, true)
  {
  }

  lemma ContextMeans(left: RP.SessionSnapshot, right: RP.SessionSnapshot)
    ensures SameContext(left, right) <==> left == right
  {
  }

  /** The coordinator's own checks of phase 2 hold exactly if the events say all that. */
  lemma ManualStandsExactlyWhen(t: Trace, s: nat, stored: StoredPlan, profile: ValidatedProfile, parameter: Parameter)
    requires Safe(t) && s + 11 <= |t| && t[s + 1] == PlanConsumed(stored)
    ensures ManualChecked(t, s, parameter) && t[s + 4].profile == Some(profile) <==> ManualStands(t, s, stored, profile, parameter)
  {
    hide Safe, AuthoritativeTarget, InPolicy, ReadStopped, StandsStill, ReadValue, FreshValue, ConfirmationMatches, PlanMatchesSession, SessionFits, SameContext, Expected;
    var plan := stored.plan;
    if t[s].Called? && t[s].call.ConfirmWrite? {
      ConfirmationMeans(plan, t[s].call.confirmation);
    }
    if t[s + 3].Snapshot? {
      SessionMeans(plan, t[s + 3].session);
      if t[s + 10].Snapshot? {
        ContextMeans(t[s + 3].session, t[s + 10].session);
      }
    }
    TargetExactlyWhen(parameter, plan.requested, plan.targetRaw);
    if t[s + 6].Snapshot? {
      StoppedMeans(t, s + 6, profile, plan.sessionId, plan.operationId);
    } else {
      ReadsNeedSnapshots(t, s + 6, profile, parameter, plan.sessionId, plan.operationId, plan.previousRaw);
    }
    if t[s + 8].Snapshot? {
      ValueMeans(t, s + 8, parameter, plan.sessionId, plan.operationId, plan.previousRaw);
    } else {
      ReadsNeedSnapshots(t, s + 8, profile, parameter, plan.sessionId, plan.operationId, plan.previousRaw);
    }
  }

  lemma ReadsNeedSnapshots(t: Trace, n: nat, profile: Profile, parameter: Parameter, sessionId: nat, operationId: nat, raw: RawRegisters)
    requires n + 1 < |t| && !t[n].Snapshot?
    ensures !StandsStill(t, n, profile, sessionId, operationId) && !FreshValue(t, n, parameter, sessionId, operationId, raw)
  {
  }

  /** Between those checks and write `n` the session began the write, the audit was available, and the record of
      exactly this plan was asked for; the write sends the words of the plan to the registers of the parameter, by
      its own write function, at the slave of the checked session. */
  ghost predicate ManualWritten(t: Trace, n: nat, plan: PreparedPlan) {
    && 14 <= n < |t| && t[n].BusWritten?
    && var s, write, parameter := n - 14, t[n].write, t[n].parameter;
    && t[s + 3].Snapshot? && parameter.writeFunction.Some?
    && t[s + 11] == SingleWriteBegun(plan.operationId, plan.planId, true)
    && t[s + 12] == AuditAvailability(true)
    && t[s + 13].WritePrepared? && t[s + 13].record ==
         Preparation(plan.planId, plan.operationId, write.requestId, plan.sessionId, plan.fingerprint, plan.profileHash, plan.parameterId,
                     plan.contextHash, plan.previousRaw, plan.previousEngineering, plan.targetRaw, plan.requested, write.function_)
    && write == BusWrite(write.requestId, plan.sessionId, plan.operationId, t[s + 3].session.slaveId,
                         parameter.writeFunction.value, parameter.block, plan.targetRaw)
  }

  /** Behind every physical write that belongs to no restore stands all of this, and nothing else comes between. */
  lemma ManualWritesMean(t: Trace, n: nat) returns (stored: StoredPlan, profile: ValidatedProfile)
    requires Safe(t) && n < |t| && t[n].BusWritten? && PermitAt(t[..n]).None?
    ensures n >= 14 && ManualStands(t, n - 14, stored, profile, t[n].parameter) && ManualWritten(t, n, stored.plan)
  {
    hide Safe, After, Next, IssueEvidence, StepEvidence, BeginEvidence, ManualStands, ManualChecked;
    var issue := ManualWritesAreGuarded(t, n);
    WriteAhead(t, n);
    var s := n - 14;
    ManualFront(t, s, t[n].parameter);
    stored, profile := t[s + 1].stored, t[s + 4].profile.value;
    ManualStandsExactlyWhen(t, s, stored, profile, t[n].parameter);
    StandsMeans(t, s, stored, profile, t[n].parameter);
  }

  /** The checks seen from the write are those of the whole trace. */
  lemma ManualFront(t: Trace, s: nat, parameter: Parameter)
    requires s + 14 < |t| && ManualChecked(t[..s + 14], s, parameter)
    ensures ManualChecked(t, s, parameter) && t[s + 1].PlanConsumed? && t[s + 4].ProfileLookup? && t[s + 4].profile.Some?
  {
    ManualStable(t[..s + 14], t, s, parameter);
  }

  lemma StandsMeans(t: Trace, s: nat, stored: StoredPlan, profile: ValidatedProfile, parameter: Parameter)
    requires ManualStands(t, s, stored, profile, parameter)
    ensures s + 11 <= |t| && t[s + 1] == PlanConsumed(stored) && t[s + 3].Snapshot? && t[s + 10] == t[s + 3]
    ensures parameter.writeFunction.Some?
  {
  }

  /** Where all this holds and the session begins the write, no reason against the confirmation is justified. */
  lemma StandingPlansAreNotRefused(t: Trace, n: nat, stored: StoredPlan, profile: ValidatedProfile, parameter: Parameter, decision: DecisionOutcome)
    requires Safe(t) && n >= 2 && n + 9 < |t| && ManualStands(t, n - 2, stored, profile, parameter)
    requires t[n + 9] == SingleWriteBegun(stored.plan.operationId, stored.plan.planId, true)
    ensures !ConfirmationRefused(t, n, stored, Expected(stored.plan), decision)
  {
    hide Safe, ManualStands, ManualChecked, ConfirmationRefused, Expected;
    StandsMeans(t, n - 2, stored, profile, parameter);
    ManualStandsExactlyWhen(t, n - 2, stored, profile, parameter);
    ManualCalls(t, n - 2, stored, profile, parameter);
    WrittenPlansAreNotRefused(t, n, stored, Expected(stored.plan), parameter, decision);
  }

  lemma ManualCalls(t: Trace, s: nat, stored: StoredPlan, profile: ValidatedProfile, parameter: Parameter)
    requires ManualStands(t, s, stored, profile, parameter)
    ensures s < |t| && t[s] == Called(ConfirmWrite(stored.plan.planId, Expected(stored.plan)))
  {
  }

  // ---------------------------------------------------------------- issued plans

  /** How a write of `parameter` has to be confirmed. */
  ghost predicate ConfirmedLike(model: ConfirmationModel, parameter: Parameter, requested: EngineeringValue) {
    if parameter.access.Commissioning? then model == CommissioningModel(parameter.code, requested) else model == StandardModel
  }

  /** Events `s .. s + 8` of a preparation: a fitting session that the intent was made for, the trusted profile with
      the request in its policy, the drive at rest, the old value the operator saw, and the session unchanged. */
  ghost predicate IssueStands(t: Trace, s: nat, stored: StoredPlan, intent: WriteIntent, profile: ValidatedProfile) {
    && s + 9 <= |t|
    && var plan := stored.plan;
    && t[s] == Called(PrepareWrite(intent))
    && t[s + 1].Snapshot? && SessionFits(t[s + 1].session, plan.sessionId, intent.fingerprint, plan.profileHash, true)
    && t[s + 1].session.guardRevision == stored.guardRevision
    && intent.sessionId == plan.sessionId && intent.profileHash == plan.profileHash && intent.fingerprint == plan.fingerprint
    && intent.parameterId == plan.parameterId && intent.requested == plan.requested
    && intent.previousRaw == plan.previousRaw && intent.previousEngineering == plan.previousEngineering
    && (intent.previewRaw == None || intent.previewRaw == Some(plan.targetRaw))
    && TrustedHere(t, s + 2, plan.profileHash, profile)
    && plan.parameterId in profile.parameters
    && var parameter := profile.parameters[plan.parameterId];
    && InPolicy(parameter, plan.requested, plan.targetRaw)
    && ConfirmedLike(plan.confirmation, parameter, plan.requested)
    && plan.challenge == "write:" + plan.contextHash[..12]
    && StandsStill(t, s + 4, profile, plan.sessionId, plan.operationId)
    && FreshValue(t, s + 6, parameter, plan.sessionId, plan.operationId, plan.previousRaw)
    && parameter.codec.decode(plan.previousRaw) == Some(plan.previousEngineering)
    && t[s + 8] == t[s + 1]
  }

  lemma ReadyMeans(session: RP.SessionSnapshot, sessionId: nat, fingerprint: Fingerprint, hash: string)
    ensures Ready(session) && session.operationIdle && session.sessionId == sessionId && session.fingerprint == fingerprint && session.profileHash == hash
            <==> SessionFits(session, sessionId, fingerprint, hash, true)
  {
  }

  lemma ConfirmationModelMeans(model: ConfirmationModel, parameter: Parameter, requested: EngineeringValue)
    ensures model == ConfirmationFor(parameter, requested) <==> ConfirmedLike(model, parameter, requested)
  {
  }

  /** The coordinator's own checks of phase 1 hold exactly if the events say all that. */
  lemma IssueStandsExactlyWhen(t: Trace, s: nat, stored: StoredPlan, intent: WriteIntent, profile: ValidatedProfile)
    requires Safe(t) && s + 9 <= |t| && t[s] == Called(PrepareWrite(intent))
    ensures IssueChecked(t, s, stored) && t[s + 2].profile == Some(profile) <==> IssueStands(t, s, stored, intent, profile)
  {
    hide Safe, AuthoritativeTarget, InPolicy, ReadStopped, StandsStill, ReadValue, FreshValue, Ready, SessionFits, SameContext, ConfirmationFor, ConfirmedLike;
    var plan := stored.plan;
    if t[s + 1].Snapshot? {
      ReadyMeans(t[s + 1].session, plan.sessionId, intent.fingerprint, plan.profileHash);
      if t[s + 8].Snapshot? {
        ContextMeans(t[s + 1].session, t[s + 8].session);
      }
    }
    IssueReadsMean(t, s, plan, profile);
    if plan.parameterId in profile.parameters {
      var parameter := profile.parameters[plan.parameterId];
      TargetExactlyWhen(parameter, plan.requested, plan.targetRaw);
      ConfirmationModelMeans(plan.confirmation, parameter, plan.requested);
      if IssueStands(t, s, stored, intent, profile) {
        assert IssueOpened(t, s, plan.sessionId, plan.operationId, plan.profileHash);
      }
    }
  }

  /** The two reads of phase 1. */
  lemma IssueReadsMean(t: Trace, s: nat, plan: PreparedPlan, profile: ValidatedProfile)
    requires Safe(t) && s + 9 <= |t|
    ensures t[s + 4].Snapshot? && ReadStopped(t[s + 5], profile, plan.sessionId, plan.operationId)
            <==> StandsStill(t, s + 4, profile, plan.sessionId, plan.operationId)
    ensures plan.parameterId in profile.parameters ==>
              var parameter := profile.parameters[plan.parameterId];
              t[s + 6].Snapshot? && ReadValue(t[s + 7], parameter, plan.sessionId, plan.operationId, plan.previousRaw)
              <==> FreshValue(t, s + 6, parameter, plan.sessionId, plan.operationId, plan.previousRaw)
  {
    hide Safe, ReadStopped, ReadValue;
    if t[s + 4].Snapshot? {
      StoppedMeans(t, s + 4, profile, plan.sessionId, plan.operationId);
    }
    if plan.parameterId in profile.parameters && t[s + 6].Snapshot? {
      ValueMeans(t, s + 6, profile.parameters[plan.parameterId], plan.sessionId, plan.operationId, plan.previousRaw);
    }
  }

  /** Every plan is issued on all of this, and before it expires. */
  lemma PlansAreIssuedOn(t: Trace, i: nat) returns (intent: WriteIntent, profile: ValidatedProfile)
    requires Safe(t) && i < |t| && t[i].PlanIssued?
    ensures i >= 10 && IssueStands(t, i - 10, t[i].issued, intent, profile)
    ensures t[i - 1].ClockRead? && t[i - 1].now <= t[i].issued.plan.expiresAt
  {
    hide Safe, After, Next, ManualEvidence, StepEvidence, BeginEvidence, IssueStands, IssueChecked;
    At(t, i);
    var s := i - 10;
    IssueFront(t, s, t[i].issued);
    intent, profile := t[s].call.intent, t[s + 2].profile.value;
    IssueStandsExactlyWhen(t, s, t[i].issued, intent, profile);
  }

  lemma IssueFront(t: Trace, s: nat, stored: StoredPlan)
    requires s + 10 < |t| && IssueChecked(t[..s + 10], s, stored)
    ensures IssueChecked(t, s, stored) && t[s].Called? && t[s].call.PrepareWrite? && t[s + 2].ProfileLookup? && t[s + 2].profile.Some?
  {
    IssueStable(t[..s + 10], t, s, stored, stored);
  }

  /** Where all this holds, no reason against the intent is justified. */
  lemma StandingIntentsAreNotRefused(t: Trace, s: nat, stored: StoredPlan, intent: WriteIntent, profile: ValidatedProfile, decision: DecisionOutcome)
    requires Safe(t) && s + 9 <= |t| && t[s] == Called(PrepareWrite(intent)) && IssueStands(t, s, stored, intent, profile)
    ensures !IntentRefused(t, s + 1, intent, true, stored.plan.operationId, decision)
  {
    hide Safe, IssueStands, IssueChecked, IntentRefused;
    IssueStandsExactlyWhen(t, s, stored, intent, profile);
    IssuedPlansAreNotRefused(t, s, stored, decision);
  }

  /** A request in policy is never refused as out of policy: with writing enabled, a ready and idle session and a
      trusted profile, such an intent is rejected by policy only because the drive was not seen at rest. */
  lemma InPolicyRequestsAreNotRejected(t: Trace, n: nat, intent: WriteIntent, profile: ValidatedProfile, operationId: nat, raw: RawRegisters)
    requires n + 2 < |t| && t[n].Snapshot? && SessionFits(t[n].session, intent.sessionId, intent.fingerprint, intent.profileHash, true)
    requires TrustedHere(t, n + 1, intent.profileHash, profile)
    requires intent.parameterId in profile.parameters && InPolicy(profile.parameters[intent.parameterId], intent.requested, raw)
    requires IntentRefused(t, n, intent, true, operationId, RejectedByPolicy)
    ensures NotStopped(t, n + 3, profile, intent.sessionId, operationId)
  {
    hide InPolicy, AuthoritativeTarget, NotStopped, ReadStopped, OldValueDiffers, ContextChanged;
    TargetExactlyWhen(profile.parameters[intent.parameterId], intent.requested, raw);
    TargetNeedsPermission(profile.parameters[intent.parameterId], intent.requested);
  }

  lemma TargetNeedsPermission(parameter: Parameter, value: EngineeringValue)
    ensures AuthoritativeTarget(parameter, value).Some? ==> ManualAllowed(parameter)
  {
  }

  /** A plan whose request is still in policy for the same words never has its target reported as changed. */
  lemma InPolicyTargetsAreUnchanged(profile: ValidatedProfile, plan: PreparedPlan)
    ensures TargetChanged(profile, plan) <==>
            !(plan.parameterId in profile.parameters && InPolicy(profile.parameters[plan.parameterId], plan.requested, plan.targetRaw))
  {
    hide InPolicy, AuthoritativeTarget;
    if plan.parameterId in profile.parameters {
      TargetExactlyWhen(profile.parameters[plan.parameterId], plan.requested, plan.targetRaw);
    }
  }

  // ---------------------------------------------------------------- restore steps

  /** The profile still lets the step write: an ordinary parameter, words of the right number, none forbidden. */
  ghost predicate StepInPolicy(step: PH.Step, parameter: Parameter) {
    && RS.Ordinary(parameter)
    && |step.expectedOldRaw| == parameter.block.count && |step.targetRaw| == parameter.block.count
    && forall i :: 0 <= i < |parameter.forbiddenRaw| ==> step.targetRaw != parameter.forbiddenRaw[i]
  }

  lemma StepPolicyMeans(step: PH.Step, parameter: Parameter)
    ensures StepPolicyHolds(step, parameter) <==> StepInPolicy(step, parameter)
  {
    RS.EligibleExactlyWhen(parameter);
  }

  /** Events `s .. s + 10` of a restore step: it is asked for by its index, in a fitting session that still grants
      it before and after, with the trusted profile, the drive at rest and the old value in place. */
  ghost predicate StepStands(t: Trace, s: nat, plan: RP.ApprovedPlan, index: nat, profile: ValidatedProfile, parameter: Parameter) {
    && s + 11 <= |t| && index < |plan.steps|
    && var step := plan.steps[index];
    && t[s].Called? && t[s].call.ExecuteStep? && t[s].call.index == index
    && t[s + 1].Snapshot? && SessionFits(t[s + 1].session, plan.sessionId, plan.fingerprint, plan.profileHash, false)
    && t[s + 2] == RestoreMatched(plan.operationId, plan.planHash, index, true)
    && TrustedHere(t, s + 3, plan.profileHash, profile)
    && step.parameterId in profile.parameters && profile.parameters[step.parameterId] == parameter
    && StepInPolicy(step, parameter)
    && StandsStill(t, s + 5, profile, plan.sessionId, plan.operationId)
    && FreshValue(t, s + 7, parameter, plan.sessionId, plan.operationId, step.expectedOldRaw)
    && t[s + 9].Snapshot? && SessionFits(t[s + 9].session, plan.sessionId, plan.fingerprint, plan.profileHash, false)
    && t[s + 10] == RestoreMatched(plan.operationId, plan.planHash, index, true)
  }

  lemma RestoreSessionMeans(plan: RP.ApprovedPlan, session: RP.SessionSnapshot, idle: bool)
    ensures RestoreMatchesSession(plan, session, idle) <==> SessionFits(session, plan.sessionId, plan.fingerprint, plan.profileHash, idle)
  {
  }

  lemma StepReadsMean(t: Trace, s: nat, plan: RP.ApprovedPlan, step: PH.Step, profile: ValidatedProfile, parameter: Parameter)
    requires Safe(t) && s + 9 <= |t|
    ensures t[s + 5].Snapshot? && ReadStopped(t[s + 6], profile, plan.sessionId, plan.operationId)
            <==> StandsStill(t, s + 5, profile, plan.sessionId, plan.operationId)
    ensures t[s + 7].Snapshot? && ReadValue(t[s + 8], parameter, plan.sessionId, plan.operationId, step.expectedOldRaw)
            <==> FreshValue(t, s + 7, parameter, plan.sessionId, plan.operationId, step.expectedOldRaw)
  {
    hide Safe, ReadStopped, ReadValue;
    if t[s + 5].Snapshot? {
      StoppedMeans(t, s + 5, profile, plan.sessionId, plan.operationId);
    }
    if t[s + 7].Snapshot? {
      ValueMeans(t, s + 7, parameter, plan.sessionId, plan.operationId, step.expectedOldRaw);
    }
  }

  /** The coordinator's own checks of a step hold exactly if the events say all that. */
  lemma StepStandsExactlyWhen(t: Trace, s: nat, plan: RP.ApprovedPlan, index: nat, profile: ValidatedProfile, parameter: Parameter)
    requires Safe(t) && s + 11 <= |t| && t[s].Called? && t[s].call.ExecuteStep? && t[s].call.index == index
    ensures StepChecked(t, s, plan, parameter) && t[s + 3].profile == Some(profile) <==> StepStands(t, s, plan, index, profile, parameter)
  {
    hide Safe, ReadStopped, StandsStill, ReadValue, FreshValue, RestoreMatchesSession, SessionFits, StepPolicyHolds, StepInPolicy;
    if index < |plan.steps| {
      StepReadsMean(t, s, plan, plan.steps[index], profile, parameter);
      StepPolicyMeans(plan.steps[index], parameter);
    }
    if t[s + 1].Snapshot? {
      RestoreSessionMeans(plan, t[s + 1].session, false);
    }
    if t[s + 9].Snapshot? {
      RestoreSessionMeans(plan, t[s + 9].session, false);
    }
  }

  /** Between those checks and write `n` the audit was available and the record of exactly this step was asked for;
      the write sends the words of the step to the registers of the parameter, by its own write function, at the
      slave of the checked session. */
  ghost predicate StepWritten(t: Trace, n: nat, plan: RP.ApprovedPlan, step: PH.Step) {
    && 13 <= n < |t| && t[n].BusWritten?
    && var s, write, parameter := n - 13, t[n].write, t[n].parameter;
    && t[s + 1].Snapshot? && parameter.writeFunction.Some?
    && t[s + 11] == AuditAvailability(true) && t[s + 12].WritePrepared?
    && var record := t[s + 12].record;
    && record == Preparation(record.planId, plan.operationId, write.requestId, plan.sessionId, plan.fingerprint, plan.profileHash,
                             step.parameterId, record.contextHash, step.expectedOldRaw, record.oldEngineering, step.targetRaw,
                             record.targetEngineering, write.function_)
    && parameter.codec.decode(step.expectedOldRaw) == Some(record.oldEngineering)
    && parameter.codec.decode(step.targetRaw) == Some(record.targetEngineering)
    && write == BusWrite(write.requestId, plan.sessionId, plan.operationId, t[s + 1].session.slaveId,
                         parameter.writeFunction.value, parameter.block, step.targetRaw)
  }

  /** Behind every physical write under a permit stands all of this for the next step of its plan, of an ordinary
      parameter, and nothing else comes between. */
  lemma RestoreWritesMean(t: Trace, n: nat) returns (plan: RP.ApprovedPlan, index: nat, profile: ValidatedProfile)
    requires Safe(t) && n < |t| && t[n].BusWritten? && PermitAt(t[..n]).Some?
    ensures n >= 13 && PermitAt(t[..n]).value < |After(t[..n]).ledgers|
    ensures var l := After(t[..n]).ledgers[PermitAt(t[..n]).value]; plan == l.plan && index == |l.writes|
    ensures StepStands(t, n - 13, plan, index, profile, t[n].parameter) && RS.Ordinary(t[n].parameter)
    ensures index < |plan.steps| && StepWritten(t, n, plan, plan.steps[index])
  {
    hide Safe, After, Next, IssueEvidence, ManualEvidence, BeginEvidence, StepStands, StepChecked;
    RestoreWritesAreGuarded(t, n);
    WriteAhead(t, n);
    var s := n - 13;
    var l := After(t[..n]).ledgers[PermitAt(t[..n]).value];
    plan, index := l.plan, |l.writes|;
    StepFront(t, s, plan, t[n].parameter);
    profile := t[s + 3].profile.value;
    StepStandsExactlyWhen(t, s, plan, index, profile, t[n].parameter);
    StepStandsMeans(t, s, plan, index, profile, t[n].parameter);
  }

  lemma StepFront(t: Trace, s: nat, plan: RP.ApprovedPlan, parameter: Parameter)
    requires s + 13 < |t| && StepChecked(t[..s + 13], s, plan, parameter)
    ensures StepChecked(t, s, plan, parameter) && t[s + 3].ProfileLookup? && t[s + 3].profile.Some?
  {
    StepStable(t[..s + 13], t, s, plan, parameter);
  }

  lemma StepStandsMeans(t: Trace, s: nat, plan: RP.ApprovedPlan, index: nat, profile: ValidatedProfile, parameter: Parameter)
    requires StepStands(t, s, plan, index, profile, parameter)
    ensures s + 11 <= |t| && index < |plan.steps| && t[s + 1].Snapshot? && RS.Ordinary(parameter) && parameter.writeFunction.Some?
    ensures t[s].Called? && t[s].call.ExecuteStep? && t[s].call.index == index
  {
  }

  /** Where all this holds and both values of the step have a meaning, no guard is reported as failed. */
  lemma StandingStepsAreNotBlocked(t: Trace, s: nat, plan: RP.ApprovedPlan, index: nat, profile: ValidatedProfile, parameter: Parameter)
    requires Safe(t) && StepStands(t, s, plan, index, profile, parameter) && index < |plan.steps|
    requires parameter.codec.decode(plan.steps[index].expectedOldRaw).Some? && parameter.codec.decode(plan.steps[index].targetRaw).Some?
    ensures !StepGuardFails(t, s + 1, plan, index)
  {
    hide Safe, StepStands, StepChecked, StepGuardFails;
    StepStandsMeans(t, s, plan, index, profile, parameter);
    StepStandsExactlyWhen(t, s, plan, index, profile, parameter);
    CheckedStepsAreNotBlocked(t, s, plan, parameter);
  }

  // ---------------------------------------------------------------- the start of a restore

  /** Events `s .. s + 6`: the exact confirmation in time, a fitting and idle session, the trusted profile and the
      drive at rest. */
  ghost predicate RestoreOpens(t: Trace, s: nat, permit: nat, plan: RP.ApprovedPlan, profile: ValidatedProfile) {
    && s + 7 <= |t|
    && t[s] == Called(BeginRestore(permit, plan, ConfirmRestore(plan.challenge)))
    && t[s + 1].ClockRead? && t[s + 1].now <= plan.expiresAt
    && t[s + 2].Snapshot? && SessionFits(t[s + 2].session, plan.sessionId, plan.fingerprint, plan.profileHash, true)
    && TrustedHere(t, s + 3, plan.profileHash, profile)
    && StandsStill(t, s + 5, profile, plan.sessionId, plan.operationId)
  }

  /** Events `n` and `n + 1` confirm step `i`: its parameter may be restored, and the old value is in place. */
  ghost predicate StepConfirmed(t: Trace, n: nat, plan: RP.ApprovedPlan, profile: Profile, i: nat) {
    && i < |plan.steps|
    && var step := plan.steps[i];
    && step.parameterId in profile.parameters
    && StepInPolicy(step, profile.parameters[step.parameterId])
    && FreshValue(t, n, profile.parameters[step.parameterId], plan.sessionId, plan.operationId, step.expectedOldRaw)
  }

  /** Behind every durable start stands all of this for the whole plan, every step of it confirmed in turn, and then
      the session exactly as before and an available audit; and the start names exactly the plan. */
  ghost predicate RestoreStands(t: Trace, s: nat, permit: nat, plan: RP.ApprovedPlan, profile: ValidatedProfile) {
    var end := s + 7 + 2 * |plan.steps|;
    && end + 3 <= |t|
    && RestoreOpens(t, s, permit, plan, profile)
    && (forall i :: 0 <= i < |plan.steps| ==> StepConfirmed(t, s + 7 + 2 * i, plan, profile, i))
    && t[end] == t[s + 2]
    && t[end + 1] == AuditAvailability(true)
  }

  lemma StepConfirmedMeans(t: Trace, n: nat, plan: RP.ApprovedPlan, profile: Profile, i: nat)
    requires Safe(t) && i < |plan.steps| && n + 1 < |t|
    requires plan.steps[i].parameterId in profile.parameters
    requires StepPolicyHolds(plan.steps[i], profile.parameters[plan.steps[i].parameterId])
    requires ReadValue(t[n + 1], profile.parameters[plan.steps[i].parameterId], plan.sessionId, plan.operationId, plan.steps[i].expectedOldRaw)
    ensures StepConfirmed(t, n, plan, profile, i)
  {
    hide Safe, FreshValue, StepInPolicy, StepPolicyHolds, ReadsBlock;
    StepPolicyMeans(plan.steps[i], profile.parameters[plan.steps[i].parameterId]);
    ReadsGoToTheSession(t, n + 1);
    ValueMeans(t, n, profile.parameters[plan.steps[i].parameterId], plan.sessionId, plan.operationId, plan.steps[i].expectedOldRaw);
  }

  lemma RestoreStandsIf(t: Trace, s: nat, plan: RP.ApprovedPlan) returns (permit: nat, profile: ValidatedProfile)
    requires Safe(t) && s + 10 + 2 * |plan.steps| == |t| && BeginEvidence(t, s, plan)
    ensures RestoreStands(t, s, permit, plan, profile)
  {
    hide Safe, ReadStopped, StandsStill, ReadValue, RestoreMatchesSession, SessionFits, SameContext, StepPolicyHolds, StepConfirmed;
    permit, profile := t[s].call.permit, t[s + 3].profile.value;
    var end := s + 7 + 2 * |plan.steps|;
    RestoreSessionMeans(plan, t[s + 2].session, true);
    ContextMeans(t[s + 2].session, t[end].session);
    StoppedMeans(t, s + 5, profile, plan.sessionId, plan.operationId);
    forall i | 0 <= i < |plan.steps| ensures StepConfirmed(t, s + 7 + 2 * i, plan, profile, i) {
      StepConfirmedMeans(t, s + 7 + 2 * i, plan, profile, i);
    }
  }

  lemma RestoresStartOn(t: Trace, n: nat) returns (permit: nat, plan: RP.ApprovedPlan, profile: ValidatedProfile)
    requires Safe(t) && n < |t| && t[n].OperationBegun?
    ensures n >= 10 + 2 * |plan.steps| && RestoreStands(t[..n], n - 10 - 2 * |plan.steps|, permit, plan, profile)
    ensures t[n].start ==
            OperationStart(plan.operationId, plan.backupId, plan.planHash, plan.sessionId, plan.fingerprint, plan.profileHash)
  {
    hide Safe, After, Next, ManualEvidence, StepEvidence, IssueEvidence, BeginEvidence, RestoreStands;
    At(t, n);
    SafePrefix(t, n);
    plan := CurrentLedger(After(t[..n])).plan;
    permit, profile := RestoreStandsIf(t[..n], n - 10 - 2 * |plan.steps|, plan);
  }

  /** A restore that opens like this is not refused by any opening guard. */
  lemma OpeningRestoresAreNotRefused(t: Trace, s: nat, permit: nat, plan: RP.ApprovedPlan, profile: ValidatedProfile, error: RestoreError)
    requires Safe(t) && RestoreOpens(t, s, permit, plan, profile)
    ensures !OpeningRefused(t, s + 1, plan, ConfirmRestore(plan.challenge), error)
  {
    hide Safe, ReadsBlock, StandsStill, RestoreMatchesSession, SessionFits;
    StillNeedsSnapshot(t, s + 5, profile, plan.sessionId, plan.operationId);
    RestoreSessionMeans(plan, t[s + 2].session, true);
    StoppedMeans(t, s + 5, profile, plan.sessionId, plan.operationId);
  }

  lemma StillNeedsSnapshot(t: Trace, n: nat, profile: Profile, sessionId: nat, operationId: nat)
    requires StandsStill(t, n, profile, sessionId, operationId)
    ensures n + 1 < |t| && t[n].Snapshot?
  {
  }

  // ---------------------------------------------------------------- verdicts

  /** The bus errors that leave open whether the device took the write. */
  const UNDECIDED := {OutcomeUnknownError, ResponseTimeout, InvalidResponse}

  /** `raw` is what the parameter's read-back policy accepts after `sent` was written. */
  ghost predicate Confirms(parameter: Parameter, sent: RawRegisters, raw: RawRegisters) {
    match parameter.readBack
    case ExactRaw => raw == sent
    case FloatExactBits => raw == sent
    case AcceptedRawSet(accepted) => exists i :: 0 <= i < |accepted| && accepted[i] == raw
    case FloatAbsRelTolerance(within) => within(sent, raw)
  }

  lemma ReadBackMeans(parameter: Parameter, sent: RawRegisters, raw: RawRegisters)
    ensures parameter.ReadBackMatches(sent, raw) <==> Confirms(parameter, sent, raw)
  {
  }

  /** Event `r` reads the written registers back and finds what the policy accepts. */
  ghost predicate ReadsBack(t: Trace, w: nat, r: nat)
    requires w < |t| && r < |t| && t[w].BusWritten?
  {
    && t[r].BusReadDone? && t[r].request.block == t[w].parameter.block
    && t[r].value.Some? && Confirms(t[w].parameter, t[w].write.values, t[r].value.value)
  }

  /** What the transaction knows after the events between the write `w` and event `i`. */
  ghost predicate Knows(t: Trace, w: nat, i: nat, phase: Phase)
    requires w < i <= |t| && t[w].BusWritten?
  {
    && phase.Written? && phase.parameter == t[w].parameter && phase.result == t[w].result
    && phase.record.targetRaw == t[w].write.values
    && (phase.matched.Some? <==> exists r :: w < r < i && ReadsBack(t, w, r))
    && (phase.mismatch.Some? <==> exists r :: w < r < i && Disagrees(t, w, r))
    && (phase.attempts > 0 <==> exists r :: w < r < i && t[r].BusReadDone?)
    && (phase.result.WriteErr? ==> phase.attempts == 0)
    && phase.attempts == ReadsBetween(t, w + 1, i) <= 4
    && (if phase.matched.Some? then Some(phase.matched.value.raw) else phase.mismatch) == LastWords(t, w + 1, i)
  }

  /** How many reads the bus answered or failed from event `lo` up to `hi`. */
  function ReadsBetween(t: Trace, lo: nat, hi: nat): nat
    requires lo <= hi <= |t|
    decreases hi
  {
    if lo == hi then 0 else ReadsBetween(t, lo, hi - 1) + if t[hi - 1].BusReadDone? then 1 else 0
  }

  /** The last words a read brought back there, if any. */
  function LastWords(t: Trace, lo: nat, hi: nat): Option<RawRegisters>
    requires lo <= hi <= |t|
    decreases hi
  {
    if lo == hi then None
    else if t[hi - 1].BusReadDone? && t[hi - 1].value.Some? then t[hi - 1].value
    else LastWords(t, lo, hi - 1)
  }

  /** Event `r` brings back words, but not from the written registers or not what the policy accepts. */
  ghost predicate Disagrees(t: Trace, w: nat, r: nat)
    requires w < |t| && r < |t| && t[w].BusWritten?
  {
    t[r].BusReadDone? && t[r].value.Some? && !ReadsBack(t, w, r)
  }

  lemma KnowsAtFirst(t: Trace, w: nat)
    requires Safe(t) && w < |t| && t[w].BusWritten?
    ensures Knows(t, w, w + 1, After(t[..w + 1]).phase)
  {
    hide Safe, After, Allowed, Next;
    PhaseMoves(t, w);
    WriteAhead(t, w);
  }

  lemma ReadsAreAllowed(t: Trace, n: nat)
    requires Safe(t) && n < |t| && t[n].BusReadDone?
    ensures MayRead(After(t[..n]).phase)
  {
    hide Safe, After, Next, ManualEvidence, StepEvidence, IssueEvidence, BeginEvidence;
    At(t, n);
  }

  lemma KnowsMore(t: Trace, w: nat, i: nat)
    requires Safe(t) && w < i < |t| && t[w].BusWritten? && !t[i].WriteFinalized?
    requires Knows(t, w, i, After(t[..i]).phase)
    ensures Knows(t, w, i + 1, After(t[..i + 1]).phase)
  {
    hide Safe, After, Allowed, Next, Parameter.ReadBackMatches, Confirms;
    PhaseMoves(t, i);
    var before, after := After(t[..i]).phase, After(t[..i + 1]).phase;
    if t[i].BusReadDone? {
      ReadsAreAllowed(t, i);
      if t[i].value.Some? {
        ReadBackMeans(t[w].parameter, t[w].write.values, t[i].value.value);
      }
      assert ReadsBack(t, w, i) || Disagrees(t, w, i) || t[i].value.None?;
    } else {
      assert !ReadsBack(t, w, i) && !Disagrees(t, w, i);
    }
  }

  lemma {:induction false} KnowsThroughout(t: Trace, w: nat, i: nat)
    requires Safe(t) && w < i <= |t| && t[w].BusWritten?
    requires forall k :: w < k < i ==> !t[k].WriteFinalized?
    ensures Knows(t, w, i, After(t[..i]).phase)
    decreases i
  {
    hide Safe, After, Knows;
    if i == w + 1 {
      KnowsAtFirst(t, w);
    } else {
      KnowsThroughout(t, w, i - 1);
      KnowsMore(t, w, i - 1);
    }
  }

  /** The verdict on a write that reached the bus. Refused by the bus: rejected exactly if the device answered with
      an exception, unknown exactly for the errors that leave it open, else transport lost, and no read-back.
      Accepted by the bus: verified exactly if some read-back met the policy for the words that were sent,
      mismatched exactly if none did and some brought back words, transport lost exactly if all failed; the evidence
      counts the read-backs, one to four, and holds the last words they brought. */
  lemma VerdictsMean(t: Trace, w: nat, f: nat)
    requires Safe(t) && w < f < |t| && t[w].BusWritten? && t[f].WriteFinalized?
    requires forall k :: w < k < f ==> !t[k].WriteFinalized?
    ensures t[w].result.WriteErr? ==>
              && t[f].outcome == (if t[w].result.error == ProtocolException then DeviceRejected
                                  else if t[w].result.error in UNDECIDED then OutcomeUnknown else TransportLost)
              && t[f].evidence == NotAttempted
              && forall r :: w < r < f ==> !t[r].BusReadDone?
    ensures t[w].result.WriteOk? ==>
              && (t[f].outcome == Verified <==> exists r :: w < r < f && ReadsBack(t, w, r))
              && (t[f].outcome == ReadBackMismatch <==>
                    (forall r :: w < r < f ==> !ReadsBack(t, w, r)) && exists r :: w < r < f && Disagrees(t, w, r))
              && (t[f].outcome == TransportLost <==> forall r :: w < r < f && t[r].BusReadDone? ==> t[r].value.None?)
              && t[f].outcome in {Verified, ReadBackMismatch, TransportLost}
              && var count, words := ReadsBetween(t, w + 1, f), LastWords(t, w + 1, f);
              && 1 <= count <= 4
              && (words.None? <==> t[f].outcome == TransportLost)
              && t[f].evidence == (if t[f].outcome == Verified then VerifiedEvidence(count, words.value)
                                   else if t[f].outcome == ReadBackMismatch then MismatchEvidence(count, words.value)
                                   else UnavailableEvidence(count))
  {
    hide Safe, After, Knows, ReadsBack, Disagrees, ReadsBetween, LastWords;
    KnowsThroughout(t, w, f);
    FinalizedConcludes(t, f);
    if t[w].result.WriteErr? {
      ErrorVerdict(t, w, f, After(t[..f]).phase);
    } else {
      ReadBackVerdict(t, w, f, After(t[..f]).phase);
    }
  }

  lemma FinalizedConcludes(t: Trace, f: nat)
    requires Safe(t) && f < |t| && t[f].WriteFinalized?
    ensures !After(t[..f]).phase.NoWrite? && Concludes(After(t[..f]).phase, t[f].outcome, t[f].evidence)
  {
    hide Safe, After, Next, ManualEvidence, StepEvidence, IssueEvidence, BeginEvidence, Advanced, Concludes;
    At(t, f);
  }

  lemma ErrorVerdict(t: Trace, w: nat, f: nat, phase: Phase)
    requires w < f < |t| && t[w].BusWritten? && t[f].WriteFinalized? && t[w].result.WriteErr?
    requires Knows(t, w, f, phase) && Concludes(phase, t[f].outcome, t[f].evidence)
    ensures t[f].outcome == (if t[w].result.error == ProtocolException then DeviceRejected
                             else if t[w].result.error in UNDECIDED then OutcomeUnknown else TransportLost)
    ensures t[f].evidence == NotAttempted
    ensures forall r :: w < r < f ==> !t[r].BusReadDone?
  {
    hide ReadsBack, Disagrees;
  }

  lemma ReadBackVerdict(t: Trace, w: nat, f: nat, phase: Phase)
    requires w < f < |t| && t[w].BusWritten? && t[f].WriteFinalized? && t[w].result.WriteOk?
    requires Knows(t, w, f, phase) && Concludes(phase, t[f].outcome, t[f].evidence)
    ensures t[f].outcome == Verified <==> exists r :: w < r < f && ReadsBack(t, w, r)
    ensures t[f].outcome == ReadBackMismatch <==>
              (forall r :: w < r < f ==> !ReadsBack(t, w, r)) && exists r :: w < r < f && Disagrees(t, w, r)
    ensures t[f].outcome == TransportLost <==> forall r :: w < r < f && t[r].BusReadDone? ==> t[r].value.None?
    ensures t[f].outcome in {Verified, ReadBackMismatch, TransportLost}
    ensures var count, words := ReadsBetween(t, w + 1, f), LastWords(t, w + 1, f);
            && 1 <= count <= 4
            && (words.None? <==> t[f].outcome == TransportLost)
            && t[f].evidence == (if t[f].outcome == Verified then VerifiedEvidence(count, words.value)
                                 else if t[f].outcome == ReadBackMismatch then MismatchEvidence(count, words.value)
                                 else UnavailableEvidence(count))
  {
    hide Confirms;
    assert forall r :: w < r < f && t[r].BusReadDone? && t[r].value.Some? ==> ReadsBack(t, w, r) || Disagrees(t, w, r);
    assert forall r :: w < r < f && ReadsBack(t, w, r) ==> t[r].BusReadDone? && t[r].value.Some?;
  }

  // ---------------------------------------------------------------- hashed contexts

  /** The hashed context of a stored plan names everything the plan will do and what it was made for: two plans
      with the same context differ at most in how and until when they are to be confirmed. */
  lemma ContextNamesThePlan(a: StoredPlan, b: StoredPlan)
    requires ContextOf(a) == ContextOf(b)
    ensures a.guardRevision == b.guardRevision
    ensures a.plan == b.plan.(contextHash := a.plan.contextHash, confirmation := a.plan.confirmation, challenge := a.plan.challenge,
                              expiresAt := a.plan.expiresAt)
  {
  }
}
