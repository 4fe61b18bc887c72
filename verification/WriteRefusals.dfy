/** Why an operation was turned down, as its trace shows it. Positions count from the first event after the
    entry, so what is said here stays true whatever is called next. */
module WriteRefusals {
  import opened Domain
  import opened Profiles
  import RP = RestorePlanning
  import PH = PlanHash
  import opened WriteTypes
  import opened WriteProtocol

  // ---------------------------------------------------------------- single guards

  /** The lookup at event `n` did not lead to a trusted active profile with `hash`. */
  ghost predicate Untrusted(t: Trace, n: nat, hash: string) {
    && n < |t| && t[n].ProfileLookup? && t[n].hash == hash
    && (t[n].profile.Some? && t[n].profile.value.hash == hash ==>
          n + 1 < |t| && t[n + 1] == TrustChecked(t[n].profile.value.profileId, false))
  }

  /** The events from `n` on do not show the drive as stopped. */
  ghost predicate NotStopped(t: Trace, n: nat, profile: Profile, sessionId: nat, operationId: nat) {
    profile.driveStateSource.Some? && profile.driveStateSource.value.parameterId in profile.parameters ==>
      && n + 1 < |t| && t[n + 1].BusReadDone?
      && ReadsBlock(t[n + 1].request, profile.parameters[profile.driveStateSource.value.parameterId], sessionId, operationId)
      && !ReadStopped(t[n + 1], profile, sessionId, operationId)
  }

  /** The read at event `n + 1` failed or came back with anything but `raw`, which decodes to `engineering`. */
  ghost predicate OldValueDiffers(t: Trace, n: nat, parameter: Parameter, sessionId: nat, operationId: nat,
                                  raw: RawRegisters, engineering: EngineeringValue)
  {
    && n + 1 < |t| && t[n + 1].BusReadDone?
    && ReadsBlock(t[n + 1].request, parameter, sessionId, operationId)
    && !(t[n + 1].value == Some(raw) && parameter.codec.decode(raw) == Some(engineering))
  }

  ghost predicate ContextChanged(t: Trace, n: nat, before: RP.SessionSnapshot) {
    n < |t| && t[n].Snapshot? && !SameContext(before, t[n].session)
  }

  // ---------------------------------------------------------------- phase 1

  predicate IntentMatches(intent: WriteIntent, session: RP.SessionSnapshot) {
    session.sessionId == intent.sessionId && session.fingerprint == intent.fingerprint && session.profileHash == intent.profileHash
  }

  /** The guards on the requested value and on the old value, from event `n` on. */
  ghost predicate TargetRefused(t: Trace, n: nat, parameter: Parameter, intent: WriteIntent, before: RP.SessionSnapshot,
                                operationId: nat, decision: DecisionOutcome)
  {
    var target := AuthoritativeTarget(parameter, intent.requested);
    if target.None? then decision == RejectedByPolicy
    else if intent.previewRaw.Some? && intent.previewRaw != target then decision == PreconditionChanged
    else
      && decision == PreconditionChanged
      && (OldValueDiffers(t, n, parameter, before.sessionId, operationId, intent.previousRaw, intent.previousEngineering)
          || ContextChanged(t, n + 2, before))
  }

  /** The guards that need the profile, from event `n` on. */
  ghost predicate ValueRefused(t: Trace, n: nat, profile: Profile, intent: WriteIntent, before: RP.SessionSnapshot, operationId: nat,
                               decision: DecisionOutcome)
  {
    if intent.parameterId !in profile.parameters || !ManualAllowed(profile.parameters[intent.parameterId])
    then decision == RejectedByPolicy
    else
      || (NotStopped(t, n, profile, before.sessionId, operationId) && decision == RejectedByPolicy)
      || (&& n + 1 < |t| && ReadStopped(t[n + 1], profile, before.sessionId, operationId)
          && TargetRefused(t, n + 2, profile.parameters[intent.parameterId], intent, before, operationId, decision))
  }

  /** `decision` is what the first failing guard of phase 1 calls for. */
  ghost predicate IntentRefused(t: Trace, n: nat, intent: WriteIntent, enabled: bool, operationId: nat, decision: DecisionOutcome) {
    if !enabled then decision == RejectedByPolicy
    else
      && n < |t| && t[n].Snapshot?
      && var before := t[n].session;
         if !Ready(before) || !before.operationIdle then decision == RejectedByPolicy
         else if !IntentMatches(intent, before) then decision == PreconditionChanged
         else if Untrusted(t, n + 1, intent.profileHash) then decision == ProfileNotTrusted
         else
           && n + 2 < |t| && TrustedProfileAt(t, n + 1, intent.profileHash)
           && ValueRefused(t, n + 3, t[n + 1].profile.value, intent, before, operationId, decision)
  }

  // ---------------------------------------------------------------- phase 2

  predicate TargetChanged(profile: Profile, plan: PreparedPlan) {
    || plan.parameterId !in profile.parameters
    || AuthoritativeTarget(profile.parameters[plan.parameterId], plan.requested) != Some(plan.targetRaw)
  }

  ghost predicate ResolutionRefused(t: Trace, n: nat, plan: PreparedPlan, decision: DecisionOutcome) {
    if Untrusted(t, n, plan.profileHash) then decision == ProfileNotTrusted
    else
      && n + 1 < |t| && TrustedProfileAt(t, n, plan.profileHash)
      && TargetChanged(t[n].profile.value, plan) && decision == PreconditionChanged
  }

  /** A guard before the first bus read failed. */
  ghost predicate AuthorizationRefused(t: Trace, n: nat, stored: StoredPlan, confirmation: Confirmation, decision: DecisionOutcome) {
    && n < |t| && t[n].ClockRead?
    && if t[n].now > stored.plan.expiresAt then decision == Expired
       else if confirmation == CancelledByOperator then decision == Cancelled
       else if !ConfirmationMatches(stored.plan, confirmation) then decision == RejectedByPolicy
       else
         && n + 1 < |t| && t[n + 1].Snapshot?
         && if !PlanMatchesSession(stored.plan, t[n + 1].session) || t[n + 1].session.guardRevision != stored.guardRevision
            then decision == PreconditionChanged
            else ResolutionRefused(t, n + 2, stored.plan, decision)
  }

  /** All those held, but a fresh read or the second snapshot disagrees with the plan. */
  ghost predicate FreshChecksFail(t: Trace, n: nat, stored: StoredPlan, before: RP.SessionSnapshot, profile: Profile, parameter: Parameter) {
    var plan := stored.plan;
    || NotStopped(t, n, profile, plan.sessionId, plan.operationId)
    || OldValueDiffers(t, n + 2, parameter, plan.sessionId, plan.operationId, plan.previousRaw, plan.previousEngineering)
    || ContextChanged(t, n + 4, before)
  }

  ghost predicate RecheckRefused(t: Trace, n: nat, stored: StoredPlan) {
    && n >= 2 && n + 4 <= |t|
    && t[n - 1] == PlanConsumed(stored)
    && t[n + 1].Snapshot? && t[n + 2].ProfileLookup? && t[n + 2].profile.Some?
    && var profile := t[n + 2].profile.value;
    && stored.plan.parameterId in profile.parameters
    && var parameter := profile.parameters[stored.plan.parameterId];
    && ManualAuthorized(t, n - 2, parameter)
    && FreshChecksFail(t, n + 4, stored, t[n + 1].session, profile, parameter)
  }

  /** Every guard held, but the session does not begin the write. */
  ghost predicate SessionDeclined(t: Trace, n: nat, stored: StoredPlan) {
    && n >= 2 && n + 9 < |t|
    && t[n - 1] == PlanConsumed(stored)
    && t[n + 2].ProfileLookup? && t[n + 2].profile.Some?
    && stored.plan.parameterId in t[n + 2].profile.value.parameters
    && ManualChecked(t, n - 2, t[n + 2].profile.value.parameters[stored.plan.parameterId])
    && t[n + 9] == SingleWriteBegun(stored.plan.operationId, stored.plan.planId, false)
  }

  /** `decision` is what the first failing guard of phase 2 calls for. */
  ghost predicate ConfirmationRefused(t: Trace, n: nat, stored: StoredPlan, confirmation: Confirmation, decision: DecisionOutcome) {
    || AuthorizationRefused(t, n, stored, confirmation, decision)
    || (decision == PreconditionChanged && (RecheckRefused(t, n, stored) || SessionDeclined(t, n, stored)))
  }

  // ---------------------------------------------------------------- planning a restore

  /** Events `n .. n + 4`: a ready and idle session, a trusted profile and a stopped drive. */
  ghost predicate PlanningOpenedAt(t: Trace, n: nat, operationId: nat, before: RP.SessionSnapshot, profile: ValidatedProfile) {
    && n + 5 <= |t|
    && t[n] == Snapshot(before) && Ready(before) && before.operationIdle
    && TrustedProfileAt(t, n + 1, before.profileHash) && t[n + 1].profile == Some(profile)
    && t[n + 3].Snapshot? && ReadStopped(t[n + 4], profile, before.sessionId, operationId)
  }

  /** The first of these guards that failed calls for `error`. */
  ghost predicate PlanningRefused(t: Trace, n: nat, enabled: bool, operationId: nat, error: RP.PlanError) {
    if !enabled then error == RP.SessionUnavailable
    else
      && n < |t| && t[n].Snapshot?
      && var before := t[n].session;
         if !Ready(before) || !before.operationIdle then error == RP.SessionUnavailable
         else if Untrusted(t, n + 1, before.profileHash) then error == RP.ProfileMismatch
         else
           && error == RP.PreconditionChanged
           && n + 2 < |t| && TrustedProfileAt(t, n + 1, before.profileHash)
           && NotStopped(t, n + 3, t[n + 1].profile.value, before.sessionId, operationId)
  }

  lemma PlanningStaysOpened(t: Trace, u: Trace, n: nat, operationId: nat, before: RP.SessionSnapshot, profile: ValidatedProfile)
    requires t <= u && PlanningOpenedAt(t, n, operationId, before, profile)
    ensures PlanningOpenedAt(u, n, operationId, before, profile)
  {
    hide ReadStopped;
    assert forall i :: 0 <= i < |t| ==> u[i] == t[i];
  }

  // ---------------------------------------------------------------- starting a restore

  /** Why a restore was not opened, from event `n` on. Every refusal disarms writing, except when the profile
      is not found at all. */
  ghost predicate OpeningRefused(t: Trace, n: nat, plan: RP.ApprovedPlan, confirmation: RestoreConfirmation, error: RestoreError) {
    && n < |t| && t[n].ClockRead?
    && if t[n].now > plan.expiresAt || confirmation != ConfirmRestore(plan.challenge)
       then error == RestoreRejected && t[n + 1..] == [Disarmed]
       else
         && n + 1 < |t| && t[n + 1].Snapshot?
         && if !RestoreMatchesSession(plan, t[n + 1].session, true)
            then error == RestorePlanError(RP.PreconditionChanged) && t[n + 2..] == [Disarmed]
            else ProfileRefused(t, n + 2, plan, error)
  }

  ghost predicate ProfileRefused(t: Trace, n: nat, plan: RP.ApprovedPlan, error: RestoreError) {
    && n < |t| && t[n].ProfileLookup? && t[n].hash == plan.profileHash
    && if t[n].profile.None? then error == RestorePlanError(RP.ProfileMismatch) && |t| == n + 1
       else
         && t[|t| - 1] == Disarmed
         && if Untrusted(t, n, plan.profileHash) then error == RestorePlanError(RP.ProfileMismatch)
            else
              && n + 1 < |t| && TrustedProfileAt(t, n, plan.profileHash)
              && NotStopped(t, n + 2, t[n].profile.value, plan.sessionId, plan.operationId)
              && error == RestorePlanError(RP.PreconditionChanged)
  }

  /** Why `step` was not confirmed, from event `n` on, which is where the trace ends. A missing parameter and
      a failed read leave writing armed; everything else disarms it. */
  ghost predicate StepUnconfirmed(t: Trace, n: nat, step: PH.Step, profile: Profile, plan: RP.ApprovedPlan, error: RP.PlanError) {
    if step.parameterId !in profile.parameters then error == RP.InvalidBackupParameter(step.parameterId) && |t| == n
    else if !StepPolicyHolds(step, profile.parameters[step.parameterId]) then
      error == RP.InvalidBackupParameter(step.parameterId) && n <= |t| && t[n..] == [Disarmed]
    else
      && error == RP.PreconditionChanged
      && n + 1 < |t| && t[n + 1].BusReadDone?
      && ReadsBlock(t[n + 1].request, profile.parameters[step.parameterId], plan.sessionId, plan.operationId)
      && if t[n + 1].value.None? then |t| == n + 2
         else t[n + 1].value.value != step.expectedOldRaw && t[n + 2..] == [Disarmed]
  }

  /** Some step, after a confirmed prefix of the steps, was not confirmed. */
  ghost predicate StepsUnconfirmed(t: Trace, n: nat, plan: RP.ApprovedPlan, profile: Profile, error: RP.PlanError) {
    exists i {:trigger plan.steps[i]} :: 0 <= i < |plan.steps|
      && n + 2 * i <= |t| && StepsReadFrom(t, n, plan, profile, i)
      && StepUnconfirmed(t, n + 2 * i, plan.steps[i], profile, plan, error)
  }

  /** The start of the operation was not made durable, from event `n` on. */
  ghost predicate StartNotDurable(t: Trace, n: nat, plan: RP.ApprovedPlan) {
    && n < |t| && t[|t| - 1] == AuditDegradedAndDisarmed
    && if t[n] == AuditAvailability(false) then |t| == n + 2
       else
         && |t| == n + 4 && t[n] == AuditAvailability(true) && t[n + 1].ClockRead?
         && t[n + 2].OperationBegun? && t[n + 2].start == StartOf(plan)
         && (t[n + 2].operationToken.Some? ==> !t[n + 2].operationToken.value.MatchesStart(StartOf(plan)))
  }

  /** The start was made durable as event `n`, but the session did not grant it; the operation is aborted. */
  ghost predicate GrantDeclined(t: Trace, n: nat, plan: RP.ApprovedPlan) {
    && |t| == n + 5
    && t[n].OperationBegun? && t[n].operationToken.Some?
    && t[n + 1] == RestoreBegun(plan.operationId, plan.planHash, false)
    && t[n + 2].ClockRead?
    && t[n + 3].OperationFinished? && t[n + 3].finishedToken == t[n].operationToken.value
    && t[n + 3].finish == OperationFinish(Aborted, None)
    && t[n + 4] == AuditDegradedAndDisarmed
  }

  /** Why an opened restore was not granted, from event `n` on. */
  ghost predicate GrantRefused(t: Trace, n: nat, plan: RP.ApprovedPlan, before: RP.SessionSnapshot, profile: Profile, error: RestoreError) {
    || (error.RestorePlanError? && StepsUnconfirmed(t, n, plan, profile, error.error))
    || (var end := n + 2 * |plan.steps|;
        && end < |t| && StepsReadFrom(t, n, plan, profile, |plan.steps|) && t[end].Snapshot?
        && if !SameContext(before, t[end].session) then error == RestorePlanError(RP.PreconditionChanged) && t[end + 1..] == [Disarmed]
           else
             || (error == RestoreAuditUnavailable && StartNotDurable(t, end + 1, plan))
             || (error == InvalidRestorePermit && GrantDeclined(t, end + 3, plan)))
  }

  /** Why a restore did not start: it was not opened, or it was opened and then not granted. */
  ghost predicate NotStarted(t: Trace, n: nat, plan: RP.ApprovedPlan, confirmation: RestoreConfirmation, error: RestoreError) {
    || OpeningRefused(t, n, plan, confirmation, error)
    || (&& 1 <= n && n + 6 <= |t|
        && t[n + 1].Snapshot? && t[n + 2].ProfileLookup? && t[n + 2].profile.Some?
        && RestoreOpenedWith(t[..n + 6], plan, t[n + 1].session, t[n + 2].profile.value)
        && GrantRefused(t, n + 6, plan, t[n + 1].session, t[n + 2].profile.value, error))
  }

  /** A restore is opened exactly if no opening guard fails: the two never hold of one trace. */
  lemma OpenedRestoresAreNotRefused(t: Trace, u: Trace, plan: RP.ApprovedPlan, confirmation: RestoreConfirmation,
                                    before: RP.SessionSnapshot, profile: ValidatedProfile, error: RestoreError)
    requires RestoreOpenedWith(t, plan, before, profile) && t <= u
    requires t[|t| - 7].call.restoreConfirmation == confirmation
    ensures !OpeningRefused(u, |t| - 6, plan, confirmation, error)
  {
    hide RestoreMatchesSession, ReadsBlock;
    var s := |t| - 7;
    assert forall i :: s <= i < s + 7 ==> u[i] == t[i];
  }

  // ---------------------------------------------------------------- what a refused start leaves armed

  /** The last thing that happened is that writing was disarmed. */
  ghost predicate EndsDisarmed(t: Trace) {
    t != [] && (t[|t| - 1] == Disarmed || t[|t| - 1] == AuditDegradedAndDisarmed)
  }

  /** The parameter of `step` is missing, or its read, due as event `n + 1`, answered nothing. */
  ghost predicate StepLeftEarly(t: Trace, n: nat, step: PH.Step, profile: Profile) {
    || step.parameterId !in profile.parameters
    || (n + 1 < |t| && t[n + 1].BusReadDone? && t[n + 1].value.None?)
  }

  /** One of the three returns that do not disarm: no profile was found; or, after a confirmed prefix of the
      steps of an opened restore, a parameter is missing or cannot be read. */
  ghost predicate LeftEarly(t: Trace, n: nat, plan: RP.ApprovedPlan) {
    && n + 2 < |t| && t[n + 1].Snapshot? && t[n + 2].ProfileLookup?
    && match t[n + 2].profile
       case None => true
       case Some(profile) =>
         && n + 6 <= |t| && RestoreOpenedWith(t[..n + 6], plan, t[n + 1].session, profile)
         && exists i {:trigger plan.steps[i]} :: 0 <= i < |plan.steps|
              && n + 6 + 2 * i <= |t| && StepsReadFrom(t, n + 6, plan, profile, i)
              && StepLeftEarly(t, n + 6 + 2 * i, plan.steps[i], profile)
  }

  /** A restore that does not start leaves writing disarmed exactly unless it was left early. */
  lemma RefusedRestoreDisarmsExactlyWhen(t: Trace, n: nat, plan: RP.ApprovedPlan, permit: nat, confirmation: RestoreConfirmation,
                                         error: RestoreError)
    requires 1 <= n <= |t| && t[n - 1] == Called(BeginRestore(permit, plan, confirmation))
    requires NotStarted(t, n, plan, confirmation, error)
    ensures EndsDisarmed(t) <==> !LeftEarly(t, n, plan)
  {
    hide GrantRefused, OpeningRefused, RestoreOpenedWith, StepsReadFrom, StepLeftEarly;
    if OpeningRefused(t, n, plan, confirmation, error) {
      RefusedOpeningDisarms(t, n, plan, permit, confirmation, error);
    } else {
      RefusedGrantDisarms(t, n, plan, t[n + 1].session, t[n + 2].profile.value, error);
    }
  }

  lemma RefusedOpeningDisarms(t: Trace, n: nat, plan: RP.ApprovedPlan, permit: nat, confirmation: RestoreConfirmation, error: RestoreError)
    requires 1 <= n <= |t| && t[n - 1] == Called(BeginRestore(permit, plan, confirmation))
    requires OpeningRefused(t, n, plan, confirmation, error)
    ensures EndsDisarmed(t) <==> !LeftEarly(t, n, plan)
  {
    hide RestoreMatchesSession, ReadsBlock, StepsReadFrom, StepLeftEarly, RestoreOpenedWith;
    if n + 6 <= |t| && t[n + 1].Snapshot? && t[n + 2].ProfileLookup? && t[n + 2].profile.Some? {
      var before, profile := t[n + 1].session, t[n + 2].profile.value;
      if RestoreOpenedWith(t[..n + 6], plan, before, profile) {
        OpenedRestoresAreNotRefused(t[..n + 6], t, plan, confirmation, before, profile, error);
      }
    }
  }

  lemma RefusedGrantDisarms(t: Trace, n: nat, plan: RP.ApprovedPlan, before: RP.SessionSnapshot, profile: ValidatedProfile,
                            error: RestoreError)
    requires 1 <= n && n + 6 <= |t| && t[n + 1] == Snapshot(before) && t[n + 2].ProfileLookup? && t[n + 2].profile == Some(profile)
    requires RestoreOpenedWith(t[..n + 6], plan, before, profile)
    requires GrantRefused(t, n + 6, plan, before, profile, error)
    ensures EndsDisarmed(t) <==> !LeftEarly(t, n, plan)
  {
    hide RestoreOpenedWith, StepsReadFrom, StepLeftEarly, StepUnconfirmed, StartNotDurable, SameContext;
    if error.RestorePlanError? && StepsUnconfirmed(t, n + 6, plan, profile, error.error) {
      var i :| 0 <= i < |plan.steps| && n + 6 + 2 * i <= |t| && StepsReadFrom(t, n + 6, plan, profile, i)
               && StepUnconfirmed(t, n + 6 + 2 * i, plan.steps[i], profile, plan, error.error);
      ReadBefore(t, n, plan, before, profile, i);
      UnconfirmedDisarms(t, n + 6 + 2 * i, plan.steps[i], profile, plan, error.error);
      forall j | 0 <= j < |plan.steps| && n + 6 + 2 * j <= |t| && StepsReadFrom(t, n + 6, plan, profile, j)
                 && StepLeftEarly(t, n + 6 + 2 * j, plan.steps[j], profile)
        ensures j == i
      {
        OneStepStops(t, n + 6, plan, profile, error.error, i, j);
      }
    } else {
      forall j | 0 <= j < |plan.steps| ensures !StepLeftEarly(t, n + 6 + 2 * j, plan.steps[j], profile) {
        ReadStepsAreNotLeft(t, n + 6, plan, profile, |plan.steps|, j);
      }
      NotDurableDisarms(t, n + 6 + 2 * |plan.steps| + 1, plan);
    }
  }

  lemma NotDurableDisarms(t: Trace, n: nat, plan: RP.ApprovedPlan)
    ensures StartNotDurable(t, n, plan) ==> EndsDisarmed(t)
  {
  }

  /** The event before the first unread step is a read. */
  lemma ReadBefore(t: Trace, n: nat, plan: RP.ApprovedPlan, before: RP.SessionSnapshot, profile: ValidatedProfile, i: nat)
    requires i < |plan.steps| && n + 6 + 2 * i <= |t| && StepsReadFrom(t, n + 6, plan, profile, i)
    requires RestoreOpenedWith(t[..n + 6], plan, before, profile)
    ensures t[n + 6 + 2 * i - 1].BusReadDone?
  {
    hide RestoreMatchesSession, ReadsBlock, StepPolicyHolds;
    if i > 0 {
      assert ReadValue(t[n + 6 + 2 * (i - 1) + 1], profile.parameters[plan.steps[i - 1].parameterId], plan.sessionId, plan.operationId,
                       plan.steps[i - 1].expectedOldRaw);
    }
  }

  lemma UnconfirmedDisarms(t: Trace, n: nat, step: PH.Step, profile: Profile, plan: RP.ApprovedPlan, error: RP.PlanError)
    requires 1 <= n <= |t| && t[n - 1].BusReadDone? && StepUnconfirmed(t, n, step, profile, plan, error)
    ensures EndsDisarmed(t) <==> !StepLeftEarly(t, n, step, profile)
  {
    hide StepPolicyHolds, ReadsBlock;
  }

  lemma ReadStepsAreNotLeft(t: Trace, n: nat, plan: RP.ApprovedPlan, profile: Profile, done: nat, j: nat)
    requires j < done <= |plan.steps| && n + 2 * done <= |t| && StepsReadFrom(t, n, plan, profile, done)
    ensures !StepLeftEarly(t, n + 2 * j, plan.steps[j], profile)
  {
    hide StepPolicyHolds, ReadsBlock;
  }

  lemma OneStepStops(t: Trace, n: nat, plan: RP.ApprovedPlan, profile: Profile, error: RP.PlanError, i: nat, j: nat)
    requires i < |plan.steps| && n + 2 * i <= |t| && StepsReadFrom(t, n, plan, profile, i)
    requires StepUnconfirmed(t, n + 2 * i, plan.steps[i], profile, plan, error)
    requires j < |plan.steps| && n + 2 * j <= |t| && StepsReadFrom(t, n, plan, profile, j)
    requires StepLeftEarly(t, n + 2 * j, plan.steps[j], profile)
    ensures i == j
  {
    hide StepPolicyHolds, ReadsBlock;
    if j < i {
      ReadStepsAreNotLeft(t, n, plan, profile, i, j);
    }
  }

  /** The exception is real: this run of the protocol refuses to begin a restore for want of a profile and
      leaves an armed session armed. */
  lemma MissingProfileLeavesArmed(plan: RP.ApprovedPlan) returns (t: Trace)
    ensures Safe(t) && |t| == 4 && t[0] == Called(BeginRestore(0, plan, ConfirmRestore(plan.challenge)))
    ensures t[2].Snapshot? && t[2].session.armed
    ensures NotStarted(t, 1, plan, ConfirmRestore(plan.challenge), RestorePlanError(RP.ProfileMismatch))
    ensures forall k :: 0 <= k < |t| ==> t[k] != Disarmed && t[k] != AuditDegradedAndDisarmed
  {
    hide Safe, After;
    var session := RP.SessionSnapshot(plan.sessionId, plan.fingerprint, plan.profileHash, true, true, true, true, 0, 1);
    t := EnteredRestore(plan);
    t := Observed(t, ClockRead(0));
    t := Observed(t, Snapshot(session));
    t := Observed(t, ProfileLookup(plan.profileHash, None));
  }

  lemma EnteredRestore(plan: RP.ApprovedPlan) returns (t: Trace)
    ensures t == [Called(BeginRestore(0, plan, ConfirmRestore(plan.challenge)))]
    ensures Safe(t) && After(t).phase.NoWrite?
  {
    Extend([], Called(BeginRestore(0, plan, ConfirmRestore(plan.challenge))));
    t := [] + [Called(BeginRestore(0, plan, ConfirmRestore(plan.challenge)))];
  }

  /** Looking at clock, session and profile is always allowed between writes. */
  lemma Observed(t: Trace, e: Event) returns (u: Trace)
    requires Safe(t) && After(t).phase.NoWrite? && (e.ClockRead? || e.Snapshot? || e.ProfileLookup?)
    ensures u == t + [e] && Safe(u) && After(u) == After(t)
  {
    hide Safe, After;
    Extend(t, e);
    u := t + [e];
  }

  // ---------------------------------------------------------------- restore steps

  /** The value a step replaces was not read back as planned, or one of its two values has no meaning. */
  ghost predicate StepValueDiffers(t: Trace, n: nat, parameter: Parameter, plan: RP.ApprovedPlan, index: nat)
    requires index < |plan.steps|
  {
    var step := plan.steps[index];
    && n + 1 < |t| && t[n + 1].BusReadDone?
    && ReadsBlock(t[n + 1].request, parameter, plan.sessionId, plan.operationId)
    && (|| t[n + 1].value != Some(step.expectedOldRaw)
        || parameter.codec.decode(step.expectedOldRaw).None?
        || parameter.codec.decode(step.targetRaw).None?)
  }

  /** Events `n` and `n + 1` do not show the session still holding the grant for step `index`. */
  ghost predicate NotGranted(t: Trace, n: nat, plan: RP.ApprovedPlan, index: nat) {
    && n < |t| && t[n].Snapshot?
    && (RestoreMatchesSession(plan, t[n].session, false) ==>
          n + 1 < |t| && t[n + 1] == RestoreMatched(plan.operationId, plan.planHash, index, false))
  }

  /** The first part of the guards of a step failed, from event `n` on. */
  ghost predicate StepUnopened(t: Trace, n: nat, plan: RP.ApprovedPlan, index: nat)
    requires index < |plan.steps|
  {
    || NotGranted(t, n, plan, index)
    || Untrusted(t, n + 2, plan.profileHash)
    || (&& n + 3 < |t| && TrustedProfileAt(t, n + 2, plan.profileHash)
        && var profile := t[n + 2].profile.value;
           var id := plan.steps[index].parameterId;
           id in profile.parameters ==> !StepPolicyHolds(plan.steps[index], profile.parameters[id]))
  }

  /** A guard of a step failed, from event `n` on. */
  ghost predicate StepGuardFails(t: Trace, n: nat, plan: RP.ApprovedPlan, index: nat)
    requires index < |plan.steps|
  {
    || StepUnopened(t, n, plan, index)
    || (&& n + 3 < |t| && TrustedProfileAt(t, n + 2, plan.profileHash)
        && var profile := t[n + 2].profile.value;
           var id := plan.steps[index].parameterId;
        && id in profile.parameters
        && (|| NotStopped(t, n + 4, profile, plan.sessionId, plan.operationId)
            || StepValueDiffers(t, n + 6, profile.parameters[id], plan, index)
            || NotGranted(t, n + 8, plan, index)))
  }

  // ---------------------------------------------------------------- what is reported

  /** The audit answered that it is unavailable, or did not make its record durable. */
  ghost predicate AuditFailed(e: Event) {
    || e == AuditAvailability(false)
    || (e.DecisionRecorded? && !e.persisted)
    || (e.WritePrepared? && !Accepted(e.record, e.token))
  }

  ghost predicate Degraded(t: Trace) {
    |t| >= 3 && AuditFailed(t[|t| - 3]) && t[|t| - 2] == AuditDegradedAndDisarmed && t[|t| - 1] == Diagnostic
  }

  ghost predicate Recorded(t: Trace, decided: Decision) {
    t != [] && t[|t| - 1] == DecisionRecorded(decided, true)
  }

  /** `final` is the finalized outcome, or says that the outcome could not be made durable. */
  ghost predicate Settled(t: Trace, final: DeviceOutcome) {
    || (t != [] && t[|t| - 1].WriteFinalized? && t[|t| - 1].persisted && t[|t| - 1].outcome == final)
    || (|t| >= 2 && t[|t| - 2].WriteFinalized? && !t[|t| - 2].persisted && t[|t| - 1] == Diagnostic && final == AuditDegraded)
  }

  function PlanDecision(plan: PreparedPlan, decision: DecisionOutcome): Decision {
    Decision(plan.planId, plan.sessionId, plan.parameterId, Some(plan.contextHash), decision)
  }

  /** A confirmed plan is turned down for the reason that was durably recorded; without a usable audit, the
      session is degraded and the audit is the reason. */
  ghost predicate Declined(t: Trace, n: nat, stored: StoredPlan, confirmation: Confirmation, reported: DecisionOutcome) {
    if reported == AuditUnavailable then Degraded(t)
    else ConfirmationRefused(t, n, stored, confirmation, reported) && Recorded(t, PlanDecision(stored.plan, reported))
  }

  ghost predicate IntentDeclined(t: Trace, n: nat, intent: WriteIntent, enabled: bool, operationId: nat, planId: nat,
                                 reported: DecisionOutcome)
  {
    if reported == AuditUnavailable then Degraded(t)
    else
      && IntentRefused(t, n, intent, enabled, operationId, reported)
      && Recorded(t, Decision(planId, intent.sessionId, intent.parameterId, None, reported))
  }

  // ---------------------------------------------------------------- ending a restore

  function LastStep(nextIndex: nat): Option<nat> {
    if nextIndex == 0 then None else Some(nextIndex - 1)
  }

  /** From event `n` on, the operation of `token` was finished as aborted after `nextIndex` steps, the session
      was told so, and writing was disarmed. */
  ghost predicate GaveUp(t: Trace, n: nat, plan: RP.ApprovedPlan, token: OperationToken, nextIndex: nat) {
    && n + 4 <= |t|
    && t[n].ClockRead?
    && t[n + 1].OperationFinished? && t[n + 1].finishedToken == token
    && t[n + 1].finish == OperationFinish(Aborted, LastStep(nextIndex))
    && t[n + 2].RestoreAbortedInSession? && t[n + 2].operationId == plan.operationId && t[n + 2].planHash == plan.planHash
    && t[n + 3] == Disarmed
  }

  /** From event `n` on, the operation was finished as completed, durably and in the session, and writing
      was disarmed; nothing else happened. */
  ghost predicate Ends(t: Trace, n: nat, plan: RP.ApprovedPlan, token: OperationToken) {
    && |t| == n + 4
    && t[n].ClockRead?
    && t[n + 1] == OperationFinished(token, OperationFinish(Completed, LastStep(|plan.steps|)), true)
    && t[n + 2] == RestoreFinishedInSession(plan.operationId, plan.planHash, true)
    && t[n + 3] == Disarmed
  }

  /** From event `n` on, the end of the operation was refused, by the audit or by the session. */
  ghost predicate DoesNotEnd(t: Trace, n: nat, plan: RP.ApprovedPlan, token: OperationToken) {
    && n + 2 < |t| && t[|t| - 1] == AuditDegradedAndDisarmed
    && (|| t[n + 1] == OperationFinished(token, OperationFinish(Completed, LastStep(|plan.steps|)), false)
        || t[n + 2] == RestoreFinishedInSession(plan.operationId, plan.planHash, false))
  }

  /** The session still held the whole restore, and then it ended. */
  ghost predicate Completes(t: Trace, n: nat, plan: RP.ApprovedPlan, token: OperationToken) {
    n < |t| && t[n] == RestoreMatched(plan.operationId, plan.planHash, |plan.steps|, true) && Ends(t, n + 1, plan, token)
  }

  /** Writing was disarmed at event `n` or later. */
  ghost predicate DisarmedSince(t: Trace, n: nat) {
    exists i :: n <= i < |t| && t[i] == Disarmed
  }

  lemma GivingUpDisarms(t: Trace, n: nat, plan: RP.ApprovedPlan, token: OperationToken, nextIndex: nat)
    requires GaveUp(t, n, plan, token, nextIndex)
    ensures DisarmedSince(t, n)
  {
    assert t[n + 3] == Disarmed;
  }

  lemma StillDisarmed(t: Trace, u: Trace, n: nat, m: nat)
    requires DisarmedSince(t, n) && t <= u && m <= n
    ensures DisarmedSince(u, m)
  {
    var i :| n <= i < |t| && t[i] == Disarmed;
    assert u[i] == Disarmed;
  }

  // ---------------------------------------------------------------- late refusals

  /** Events `s .. s + 3` of phase 1, naming the values the checks came up with. */
  ghost predicate IntentResolvedAt(t: Trace, s: nat, intent: WriteIntent, before: RP.SessionSnapshot, profile: ValidatedProfile,
                                   parameter: Parameter)
  {
    && s + 4 <= |t|
    && t[s] == Called(PrepareWrite(intent))
    && t[s + 1] == Snapshot(before) && Ready(before) && before.operationIdle && IntentMatches(intent, before)
    && TrustedProfileAt(t, s + 2, intent.profileHash) && t[s + 2].profile == Some(profile)
    && profile.Find(intent.parameterId) == Some(parameter) && ManualAllowed(parameter)
  }

  /** Events `s .. s + 5` of phase 1. */
  ghost predicate IntentOpenedAt(t: Trace, s: nat, intent: WriteIntent, operationId: nat, before: RP.SessionSnapshot, parameter: Parameter) {
    && s + 6 <= |t|
    && t[s] == Called(PrepareWrite(intent)) && t[s + 1] == Snapshot(before)
    && before.fingerprint == intent.fingerprint
    && IssueOpened(t, s, before.sessionId, operationId, intent.profileHash)
    && t[s + 2].profile.value.Find(intent.parameterId) == Some(parameter) && ManualAllowed(parameter)
  }

  lemma OpenedMeans(t: Trace, s: nat, intent: WriteIntent, operationId: nat, before: RP.SessionSnapshot, parameter: Parameter)
    requires IntentOpenedAt(t, s, intent, operationId, before, parameter)
    ensures s + 6 <= |t| && t[s] == Called(PrepareWrite(intent)) && t[s + 1] == Snapshot(before)
    ensures before.sessionId == intent.sessionId && before.fingerprint == intent.fingerprint
    ensures IssueOpened(t, s, before.sessionId, operationId, intent.profileHash)
    ensures t[s + 2].profile.value.Find(intent.parameterId) == Some(parameter) && parameter.Valid()
  {
    hide ManualAllowed, ReadStopped;
  }

  lemma ResolvedThenOpened(front: Trace, t: Trace, s: nat, intent: WriteIntent, operationId: nat, before: RP.SessionSnapshot,
                           profile: ValidatedProfile, parameter: Parameter)
    requires |front| == s + 4 && |t| == s + 6 && front <= t
    requires IntentResolvedAt(front, s, intent, before, profile, parameter)
    requires t[s + 4].Snapshot? && ReadStopped(t[s + 5], profile, before.sessionId, operationId)
    ensures IntentOpenedAt(t, s, intent, operationId, before, parameter)
  {
    hide ManualAllowed, ReadStopped;
    assert forall i :: s <= i < s + 4 ==> t[i] == front[i];
  }

  lemma ResolvedThenRefused(front: Trace, t: Trace, s: nat, intent: WriteIntent, operationId: nat, before: RP.SessionSnapshot,
                            profile: ValidatedProfile, parameter: Parameter)
    requires |front| == s + 4 && front <= t
    requires IntentResolvedAt(front, s, intent, before, profile, parameter)
    requires NotStopped(t, s + 4, profile, before.sessionId, operationId)
    ensures IntentRefused(t, s + 1, intent, true, operationId, RejectedByPolicy)
  {
    hide ManualAllowed, NotStopped, TargetRefused, IntentMatches;
    assert forall i :: s <= i < s + 4 ==> t[i] == front[i];
  }

  /** Phase 1 opened, and then refused the value. */
  lemma OpenedThenRefused(front: Trace, t: Trace, s: nat, intent: WriteIntent, operationId: nat, before: RP.SessionSnapshot,
                          parameter: Parameter, decision: DecisionOutcome)
    requires |front| == s + 6 && front <= t
    requires IntentOpenedAt(front, s, intent, operationId, before, parameter)
    requires TargetRefused(t, s + 6, parameter, intent, before, operationId, decision)
    ensures IntentRefused(t, s + 1, intent, true, operationId, decision)
  {
    hide TargetRefused, ManualAllowed, ReadStopped;
    assert forall i :: s <= i < s + 6 ==> t[i] == front[i];
  }

  /** Phase 2 authorized the plan, and then found a fresh check to disagree. */
  lemma AuthorizedThenRefused(front: Trace, t: Trace, stored: StoredPlan, confirmation: Confirmation, before: RP.SessionSnapshot,
                              profile: ValidatedProfile, parameter: Parameter)
    requires AuthorizedWith(front, stored, before, profile, parameter) && front <= t
    requires FreshChecksFail(t, |front|, stored, before, profile, parameter)
    ensures ConfirmationRefused(t, |front| - 4, stored, confirmation, PreconditionChanged)
  {
    hide FreshChecksFail, PlanMatchesSession, ConfirmationMatches, AuthoritativeTarget;
    assert forall i :: 0 <= i < |front| ==> t[i] == front[i];
    assert RecheckRefused(t, |front| - 4, stored);
  }

  /** Every guard held, and then the session did not begin the write. */
  lemma RecheckedThenDeclined(front: Trace, t: Trace, stored: StoredPlan, profile: ValidatedProfile, parameter: Parameter,
                              after: RP.SessionSnapshot)
    requires RecheckedWith(front, stored, profile, parameter, after)
    requires front + [SingleWriteBegun(stored.plan.operationId, stored.plan.planId, false)] <= t
    ensures |front| >= 11 && SessionDeclined(t, |front| - 9, stored)
  {
    hide PlanMatchesSession, ConfirmationMatches, AuthoritativeTarget, ReadValue, ReadStopped, SameContext;
    assert t[|front|] == SingleWriteBegun(stored.plan.operationId, stored.plan.planId, false);
    assert forall i :: 0 <= i < |front| ==> t[i] == front[i];
    assert ManualAuthorized(t, |front| - 11, parameter);
  }

  /** A step was opened, and then one of the later guards failed. */
  lemma StepOpenedThenBlocked(front: Trace, t: Trace, plan: RP.ApprovedPlan, index: nat, before: RP.SessionSnapshot,
                              profile: ValidatedProfile, parameter: Parameter)
    requires StepOpenedWith(front, plan, index, before, profile, parameter) && front <= t
    requires || NotStopped(t, |front|, profile, plan.sessionId, plan.operationId)
             || StepValueDiffers(t, |front| + 2, parameter, plan, index)
             || NotGranted(t, |front| + 4, plan, index)
    ensures |front| >= 5 && index < |plan.steps| && StepGuardFails(t, |front| - 4, plan, index)
  {
    hide StepPolicyHolds, RestoreMatchesSession, NotStopped, StepValueDiffers, NotGranted, StepUnopened;
    assert forall i :: 0 <= i < |front| ==> t[i] == front[i];
  }

  lemma StepGuardFailureStays(t: Trace, u: Trace, n: nat, plan: RP.ApprovedPlan, index: nat)
    requires t <= u && index < |plan.steps| && StepGuardFails(t, n, plan, index)
    ensures StepGuardFails(u, n, plan, index)
  {
    hide StepPolicyHolds, RestoreMatchesSession, ReadStopped, ReadsBlock;
    assert forall i :: 0 <= i < |t| ==> u[i] == t[i];
  }

  /** A step is checked exactly if no guard fails: the two never hold of one trace. */
  lemma CheckedStepsAreNotBlocked(t: Trace, s: nat, plan: RP.ApprovedPlan, parameter: Parameter)
    requires s + 11 <= |t| && StepChecked(t, s, plan, parameter)
    requires parameter.codec.decode(plan.steps[t[s].call.index].expectedOldRaw).Some?
    requires parameter.codec.decode(plan.steps[t[s].call.index].targetRaw).Some?
    ensures !StepGuardFails(t, s + 1, plan, t[s].call.index)
  {
    hide StepPolicyHolds, RestoreMatchesSession, ReadsBlock;
  }

  lemma OpenedThenNotGranted(front: Trace, t: Trace, plan: RP.ApprovedPlan, confirmation: RestoreConfirmation,
                             before: RP.SessionSnapshot, profile: ValidatedProfile, error: RestoreError)
    requires RestoreOpenedWith(front, plan, before, profile) && front <= t
    requires GrantRefused(t, |front|, plan, before, profile, error)
    ensures |front| >= 7 && NotStarted(t, |front| - 6, plan, confirmation, error)
  {
    hide GrantRefused, RestoreMatchesSession, ReadStopped;
    assert t[..|front|] == front;
  }

  /** The steps before number `i` were confirmed in `t`, and in the end `u` step `i` was not. */
  lemma StepsStopAt(t: Trace, u: Trace, n: nat, plan: RP.ApprovedPlan, profile: Profile, i: nat, error: RP.PlanError)
    requires i < |plan.steps| && n + 2 * i <= |t| && StepsReadFrom(t, n, plan, profile, i) && t <= u
    requires StepUnconfirmed(u, n + 2 * i, plan.steps[i], profile, plan, error)
    ensures StepsUnconfirmed(u, n, plan, profile, error)
  {
    hide StepsReadFrom, StepUnconfirmed;
    StepsReadStable(t, u, n, plan, profile, i);
  }

  lemma ConfirmationRefusalIsNotAudit(t: Trace, n: nat, stored: StoredPlan, confirmation: Confirmation, decision: DecisionOutcome)
    requires ConfirmationRefused(t, n, stored, confirmation, decision)
    ensures decision != AuditUnavailable
  {
  }

  lemma RefusalIsNotAudit(t: Trace, n: nat, intent: WriteIntent, enabled: bool, operationId: nat, decision: DecisionOutcome)
    requires IntentRefused(t, n, intent, enabled, operationId, decision)
    ensures decision != AuditUnavailable
  {
  }

  // ---------------------------------------------------------------- reasons outlive what follows

  lemma IntentRefusalStays(t: Trace, u: Trace, n: nat, intent: WriteIntent, enabled: bool, operationId: nat, decision: DecisionOutcome)
    requires t <= u && IntentRefused(t, n, intent, enabled, operationId, decision)
    ensures IntentRefused(u, n, intent, enabled, operationId, decision)
  {
    hide ReadsBlock, ReadStopped, SameContext, AuthoritativeTarget, ManualAllowed, Ready, IntentMatches;
    assert forall i :: 0 <= i < |t| ==> u[i] == t[i];
  }

  lemma ConfirmationRefusalStays(t: Trace, u: Trace, n: nat, stored: StoredPlan, confirmation: Confirmation, decision: DecisionOutcome)
    requires t <= u && ConfirmationRefused(t, n, stored, confirmation, decision)
    ensures ConfirmationRefused(u, n, stored, confirmation, decision)
  {
    hide AuthorizationRefused, RecheckRefused, ManualChecked;
    if AuthorizationRefused(t, n, stored, confirmation, decision) {
      AuthorizationRefusalStays(t, u, n, stored, confirmation, decision);
    } else if RecheckRefused(t, n, stored) {
      RecheckRefusalStays(t, u, n, stored);
    } else {
      ManualStable(t, u, n - 2, t[n + 2].profile.value.parameters[stored.plan.parameterId]);
    }
  }

  lemma RecheckRefusalStays(t: Trace, u: Trace, n: nat, stored: StoredPlan)
    requires t <= u && RecheckRefused(t, n, stored)
    ensures RecheckRefused(u, n, stored)
  {
    hide PlanMatchesSession, ConfirmationMatches, AuthoritativeTarget, ReadsBlock, ReadStopped, SameContext;
    assert forall i :: 0 <= i < |t| ==> u[i] == t[i];
  }

  lemma AuthorizationRefusalStays(t: Trace, u: Trace, n: nat, stored: StoredPlan, confirmation: Confirmation, decision: DecisionOutcome)
    requires t <= u && AuthorizationRefused(t, n, stored, confirmation, decision)
    ensures AuthorizationRefused(u, n, stored, confirmation, decision)
  {
    hide PlanMatchesSession, ConfirmationMatches, TargetChanged;
    assert forall i :: 0 <= i < |t| ==> u[i] == t[i];
  }

  // ---------------------------------------------------------------- reasons are exact

  /** One trace never justifies two different reasons for turning down a confirmation. */
  lemma OneReason(t: Trace, n: nat, stored: StoredPlan, confirmation: Confirmation, decision: DecisionOutcome, other: DecisionOutcome)
    requires n >= 2 && n <= |t| && t[n - 2] == Called(ConfirmWrite(stored.plan.planId, confirmation)) && t[n - 1] == PlanConsumed(stored)
    requires ConfirmationRefused(t, n, stored, confirmation, decision)
    requires ConfirmationRefused(t, n, stored, confirmation, other)
    ensures decision == other
  {
    hide FreshChecksFail, PlanMatchesSession, AuthoritativeTarget, ReadsBlock, ReadStopped, SameContext;
  }

  /** A write and a reason against it exclude each other: where the guards held and the session began the
      write, no reason is justified. */
  lemma WrittenPlansAreNotRefused(t: Trace, n: nat, stored: StoredPlan, confirmation: Confirmation, parameter: Parameter,
                                  decision: DecisionOutcome)
    requires n >= 2 && n + 9 < |t| && t[n - 2] == Called(ConfirmWrite(stored.plan.planId, confirmation))
    requires t[n - 1] == PlanConsumed(stored) && ManualChecked(t, n - 2, parameter)
    requires t[n + 9] == SingleWriteBegun(stored.plan.operationId, stored.plan.planId, true)
    ensures !ConfirmationRefused(t, n, stored, confirmation, decision)
  {
    hide PlanMatchesSession, AuthoritativeTarget, ReadsBlock, SameContext;
  }

  /** The same for phase 1: a plan is issued on checks none of which calls for a refusal. */
  lemma IssuedPlansAreNotRefused(t: Trace, s: nat, stored: StoredPlan, decision: DecisionOutcome)
    requires s + 9 <= |t| && IssueChecked(t, s, stored)
    ensures !IntentRefused(t, s + 1, t[s].call.intent, true, stored.plan.operationId, decision)
  {
    hide RequestAccepted, ReadsBlock, SameContext;
  }
}
