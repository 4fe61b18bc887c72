/** Which parameters a restore may touch, and why each other one is skipped, told from the profile alone. */
module RestoreScopes {
  import opened Domain
  import opened Profiles
  import Modbus
  import PH = PlanHash
  import opened RestorePlanning

  /** A parameter of the kind a restore writes: ordinary, writable while the drive stands still, and writable at all. */
  ghost predicate Ordinary(parameter: Parameter) {
    && parameter.access == WritableWhenStopped
    && parameter.restorePolicy == Normal
    && parameter.requiredDriveState == StoppedState
    && parameter.writeFunction in {Some(Modbus.WriteSingleRegister), Some(Modbus.WriteMultipleRegisters)}
  }

  lemma EligibleExactlyWhen(parameter: Parameter)
    ensures RestoreEligibility(parameter) == Eligible <==> Ordinary(parameter)
  {
  }

  /** Why a parameter that is in both backups is not eligible. Access counts before policy, policy before the
      required drive state, and that before the write function. */
  ghost predicate IneligibleBecause(e: Eligibility, parameter: Parameter) {
    match e
    case ReadOnlyParameter => parameter.access == ReadOnly
    case CommissioningParameter => parameter.access == Commissioning
    case DangerousParameter => parameter.access == Dangerous
    case LinkCriticalParameter => parameter.access == WritableWhenStopped && parameter.restorePolicy == LinkCritical
    case RestartRequiredParameter => parameter.access == WritableWhenStopped && parameter.restorePolicy == RestartRequired
    case ManualOnlyParameter => parameter.access == WritableWhenStopped && parameter.restorePolicy == ManualOnly
    case GuardNotStopped =>
      parameter.access == WritableWhenStopped && parameter.restorePolicy == Normal && parameter.requiredDriveState in {AnyState, FaultedState}
    case MissingWriteFunction =>
      && parameter.access == WritableWhenStopped && parameter.restorePolicy == Normal && parameter.requiredDriveState == StoppedState
      && parameter.writeFunction in {None, Some(Modbus.ReadHoldingRegisters), Some(Modbus.ReadInputRegisters)}
    case Eligible => false
  }

  lemma IneligibleExactlyWhen(e: Eligibility, parameter: Parameter)
    requires e != Eligible
    ensures RestoreEligibility(parameter) == e <==> IneligibleBecause(e, parameter)
  {
  }

  // ---------------------------------------------------------------- steps

  /** The parameter `id` has to be restored: it is an ordinary parameter, both backups hold it in the same
      quantity, and the words differ. */
  ghost predicate ToRestore(id: ParameterId, source: Backup, current: Backup, profile: Profile) {
    && id in source.values && id in current.values && id in profile.parameters
    && source.values[id].quantity == current.values[id].quantity
    && source.values[id].raw != current.values[id].raw
    && Ordinary(profile.parameters[id])
  }

  lemma RestorableMeans(id: ParameterId, source: Backup, current: Backup, profile: Profile)
    requires BackupConsistent(source, profile)
    ensures Restorable(source, current, profile, id) <==> ToRestore(id, source, current, profile)
  {
    if id in source.values {
      assert EntryConsistent(source, profile, id);
      EligibleExactlyWhen(profile.parameters[id]);
    }
  }

  lemma StepsAreForIds(steps: seq<PH.Step>, ids: seq<ParameterId>, source: Backup, current: Backup, id: ParameterId)
    requires StepsFor(steps, ids, source, current)
    ensures (exists i :: 0 <= i < |steps| && steps[i].parameterId == id) <==> id in ids
    ensures forall i :: 0 <= i < |steps| && steps[i].parameterId == id ==>
              && id in source.values && id in current.values
              && steps[i].expectedOldRaw == current.values[id].raw && steps[i].targetRaw == source.values[id].raw
  {
    if id in ids {
      var i :| 0 <= i < |ids| && ids[i] == id;
      assert steps[i].parameterId == id;
    }
    forall i | 0 <= i < |steps| && steps[i].parameterId == id ensures id in ids {
      assert ids[i] == id;
    }
  }

  /** A plan has a step exactly for each parameter of the restore order that has to be restored, and the step
      writes the words of the source backup over those of the current one. */
  lemma StepsRestoreExactly(plan: RestorePlan, source: Backup, current: Backup, profile: ValidatedProfile, session: SessionSnapshot,
                            operationId: nat, expiresAt: nat, digest: seq<PH.Byte> -> Digest, diff: Diff, id: ParameterId)
    requires Plannable(source, current, profile, session)
    requires IsDiff(diff, source, current, profile)
    requires PlanFor(plan, source, current, profile, session, operationId, expiresAt, digest, diff)
    ensures (exists i :: 0 <= i < |plan.steps| && plan.steps[i].parameterId == id)
            <==> id in profile.restoreOrder && ToRestore(id, source, current, profile)
    ensures forall i :: 0 <= i < |plan.steps| && plan.steps[i].parameterId == id ==>
              && id in profile.parameters && Ordinary(profile.parameters[id])
              && id in source.values && id in current.values
              && plan.steps[i].expectedOldRaw == current.values[id].raw && plan.steps[i].targetRaw == source.values[id].raw
  {
    hide Restorable, ToRestore, Selected, IsDiff, BackupConsistent, SkipsFor, StepsFor, Ordinary;
    AllSelectedMean(source, current, profile, diff);
    RestorableMeans(id, source, current, profile);
    StepsAreForIds(plan.steps, SelectedIds(profile.restoreOrder, diff), source, current, id);
    ToRestoreIsOrdinary(id, source, current, profile);
  }

  lemma ToRestoreIsOrdinary(id: ParameterId, source: Backup, current: Backup, profile: Profile)
    ensures ToRestore(id, source, current, profile) ==>
              id in source.values && id in current.values && id in profile.parameters && Ordinary(profile.parameters[id])
  {
  }

  // ---------------------------------------------------------------- skips

  /** Why a parameter is skipped, from the two backups, the profile and its restore order. */
  ghost predicate SkippedBecause(reason: SkipReason, id: ParameterId, source: Backup, current: Backup, profile: Profile) {
    var both := id in source.values && id in current.values;
    match reason
    case NotInRestoreOrder => id !in profile.restoreOrder && (id in source.values || id in current.values)
    case OnlyInSourceBackup => id in profile.restoreOrder && id in source.values && id !in current.values
    case OnlyOnDevice => id in profile.restoreOrder && id !in source.values && id in current.values
    case SkipIncompatible =>
      && id in profile.restoreOrder
      && (|| (id !in source.values && id !in current.values)
          || (both && source.values[id].quantity != current.values[id].quantity))
    case SkipUnreadable => false
    case SkipUnchanged =>
      && id in profile.restoreOrder && both && source.values[id].quantity == current.values[id].quantity
      && id in profile.parameters && Ordinary(profile.parameters[id])
      && source.values[id].raw == current.values[id].raw
    case NotEligible(e) =>
      && id in profile.restoreOrder && both && source.values[id].quantity == current.values[id].quantity
      && id in profile.parameters && IneligibleBecause(e, profile.parameters[id])
  }

  /** At most one reason applies to a parameter. */
  lemma OneSkipReason(r: SkipReason, s: SkipReason, id: ParameterId, source: Backup, current: Backup, profile: Profile)
    requires SkippedBecause(r, id, source, current, profile) && SkippedBecause(s, id, source, current, profile)
    ensures r == s
  {
  }

  lemma ReasonInOrder(id: ParameterId, source: Backup, current: Backup, profile: Profile, diff: Diff)
    requires BackupConsistent(source, profile) && BackupConsistent(current, profile)
    requires source.profileHash == current.profileHash
    requires IsDiff(diff, source, current, profile)
    requires id in profile.restoreOrder && !Selected(diff, id)
    ensures SkippedBecause(ReasonSkipped(diff, id), id, source, current, profile)
  {
    if id in diff {
      assert diff[id] == Compare(source, current, Some(profile), id);
      if id in source.values && id in current.values {
        assert EntryConsistent(source, profile, id) && EntryConsistent(current, profile, id);
        var parameter := profile.parameters[id];
        EligibleExactlyWhen(parameter);
        if RestoreEligibility(parameter) != Eligible {
          IneligibleExactlyWhen(RestoreEligibility(parameter), parameter);
        }
      }
    }
  }

  lemma {:induction false} SkippedAreUnselected(order: seq<ParameterId>, diff: Diff)
    ensures forall id :: id in SkippedIds(order, diff) ==> id in order && !Selected(diff, id)
  {
    hide Selected;
    if order != [] {
      SkippedAreUnselected(order[..|order| - 1], diff);
    }
  }

  lemma InOrderIsJustified(id: ParameterId, source: Backup, current: Backup, profile: Profile, diff: Diff)
    requires BackupConsistent(source, profile) && BackupConsistent(current, profile)
    requires source.profileHash == current.profileHash
    requires IsDiff(diff, source, current, profile) && id in SkippedIds(profile.restoreOrder, diff)
    ensures SkippedBecause(ReasonSkipped(diff, id), id, source, current, profile)
  {
    hide SkippedBecause, ReasonSkipped, SkippedIds, BackupConsistent, IsDiff, Selected;
    SkippedAreUnselected(profile.restoreOrder, diff);
    ReasonInOrder(id, source, current, profile, diff);
  }

  lemma OutsideIsJustified(id: ParameterId, source: Backup, current: Backup, profile: Profile, diff: Diff)
    requires IsDiff(diff, source, current, profile) && id in OutsideIds(profile.restoreOrder, diff)
    ensures SkippedBecause(NotInRestoreOrder, id, source, current, profile)
  {
    hide SkippedBecause, OutsideIds;
    OutsideIdsAreOrdered(profile.restoreOrder, diff);
    OutsideIsSkipped(id, source, current, profile);
  }

  /** Every skip of a plan gives the one reason that applies. */
  lemma SkipsAreJustified(plan: RestorePlan, source: Backup, current: Backup, profile: ValidatedProfile, session: SessionSnapshot,
                          operationId: nat, expiresAt: nat, digest: seq<PH.Byte> -> Digest, diff: Diff, k: nat)
    requires Plannable(source, current, profile, session)
    requires IsDiff(diff, source, current, profile)
    requires PlanFor(plan, source, current, profile, session, operationId, expiresAt, digest, diff)
    requires k < |plan.skipped|
    ensures SkippedBecause(plan.skipped[k].reason, plan.skipped[k].parameterId, source, current, profile)
  {
    hide BackupConsistent, StepsFor, SkippedBecause, ReasonSkipped, SkippedIds, OutsideIds, IsDiff;
    var inOrder, outside := SkippedIds(profile.restoreOrder, diff), OutsideIds(profile.restoreOrder, diff);
    if k < |inOrder| {
      assert inOrder[k] in inOrder;
      InOrderIsJustified(inOrder[k], source, current, profile, diff);
    } else {
      var id := outside[k - |inOrder|];
      assert plan.skipped[|inOrder| + (k - |inOrder|)] == Skipped(id, NotInRestoreOrder);
      OutsideIsJustified(id, source, current, profile, diff);
    }
  }

  lemma OutsideIsSkipped(id: ParameterId, source: Backup, current: Backup, profile: Profile)
    requires id !in profile.restoreOrder && (id in source.values || id in current.values)
    ensures SkippedBecause(NotInRestoreOrder, id, source, current, profile)
  {
  }

  // ---------------------------------------------------------------- what is compared

  /** A backed-up value that may be relied on: of a known parameter, good, under the same code and unit, with the
      right number of words, none of them forbidden, and worth exactly the recorded engineering value. */
  ghost predicate Reliable(value: BackupValue, parameter: Parameter) {
    && value.quality == Good && value.code == parameter.code && value.unit == parameter.unit
    && |value.raw| == parameter.block.count
    && parameter.codec.decode(value.raw) == Some(value.engineering)
    && forall i :: 0 <= i < |parameter.forbiddenRaw| ==> value.raw != parameter.forbiddenRaw[i]
  }

  ghost predicate AllReliable(backup: Backup, profile: Profile) {
    forall id :: id in backup.values ==> id in profile.parameters && Reliable(backup.values[id], profile.parameters[id])
  }

  lemma ReliableExactlyWhen(backup: Backup, profile: Profile)
    ensures BackupConsistent(backup, profile) <==> AllReliable(backup, profile)
  {
    forall id | id in backup.values
      ensures EntryConsistent(backup, profile, id) <==> id in profile.parameters && Reliable(backup.values[id], profile.parameters[id])
    {
      if id in profile.parameters {
        var parameter := profile.parameters[id];
        assert backup.values[id].raw in parameter.forbiddenRaw <==>
               exists i :: 0 <= i < |parameter.forbiddenRaw| && parameter.forbiddenRaw[i] == backup.values[id].raw;
      }
    }
  }

  /** `backup` was taken of this device under this revision of this profile, and is complete. */
  ghost predicate TakenOf(backup: Backup, profile: Profile, fingerprint: Fingerprint) {
    && backup.complete && backup.fingerprint == fingerprint
    && backup.profileId == profile.profileId && backup.profileRevision == profile.revision && backup.profileHash == profile.hash
  }

  /** A restore can be planned exactly between two complete and reliable backups of the session's own device, under
      the session's own profile, while the session is connected, audited and idle. */
  lemma PlannableExactlyWhen(source: Backup, current: Backup, profile: Profile, session: SessionSnapshot)
    ensures Plannable(source, current, profile, session) <==>
            && session.connected && session.auditHealthy && session.operationIdle && session.profileHash == profile.hash
            && TakenOf(source, profile, session.fingerprint) && TakenOf(current, profile, session.fingerprint)
            && AllReliable(source, profile) && AllReliable(current, profile)
  {
    hide BackupConsistent, AllReliable;
    ReliableExactlyWhen(source, profile);
    ReliableExactlyWhen(current, profile);
  }

  // ---------------------------------------------------------------- what the plan names

  /** The number a decimal text spells. */
  function Spelled(text: string): int {
    if text == "" then 0 else 10 * Spelled(text[..|text| - 1]) + (text[|text| - 1] as int - '0' as int)
  }

  /** Decimal texts are digits only, spell their number, and have no leading zero. */
  lemma {:induction false} DecimalSpells(n: nat)
    ensures forall c :: c in Decimal(n) ==> '0' <= c <= '9'
    ensures Decimal(n) != "" && Spelled(Decimal(n)) == n
    ensures n > 0 ==> Decimal(n)[0] != '0'
  {
    if n < 10 {
      assert Spelled("") == 0;
      assert Decimal(n)[..0] == "";
    } else {
      DecimalSpells(n / 10);
      assert Decimal(n)[..|Decimal(n)| - 1] == Decimal(n / 10);
    }
  }

  /** `text` names `hash` in short and `count`. */
  ghost predicate Names(text: string, hash: Digest, count: nat) {
    && |text| > 21 && text[..8] == "restore:" && text[8..20] == hash[..12] && text[20] == ':'
    && (forall c :: c in text[21..] ==> '0' <= c <= '9') && Spelled(text[21..]) == count
  }

  lemma ChallengeNames(hash: Digest, count: nat)
    ensures Names(RestoreChallenge(hash, count), hash, count)
  {
    hide Decimal;
    DecimalSpells(count);
    var text := RestoreChallenge(hash, count);
    assert text == "restore:" + (hash[..12] + (":" + Decimal(count)));
    assert text[21..] == Decimal(count);
  }

  /** A plan carries the operation, both backups, the session and the profile it was made for; its hash is over
      exactly its steps; and the challenge names that hash and the number of steps. */
  lemma PlansNameTheirInputs(plan: RestorePlan, source: Backup, current: Backup, profile: ValidatedProfile, session: SessionSnapshot,
                             operationId: nat, expiresAt: nat, digest: seq<PH.Byte> -> Digest, diff: Diff)
    requires PlanFor(plan, source, current, profile, session, operationId, expiresAt, digest, diff)
    ensures plan.operationId == operationId && plan.expiresAt == expiresAt
    ensures plan.backupId == source.backupId && plan.preRestoreBackupId == current.backupId
    ensures plan.sessionId == session.sessionId && plan.fingerprint == session.fingerprint && plan.profileHash == profile.hash
    ensures plan.planHash == digest(PH.PreImage(plan.steps))
    ensures Names(plan.challenge, plan.planHash, |plan.steps|)
  {
    hide RestoreChallenge, SkipsFor, StepsFor, Names;
    ChallengeNames(plan.planHash, |plan.steps|);
  }
}
