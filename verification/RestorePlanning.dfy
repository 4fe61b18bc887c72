/** Backups, their semantic diff, and the ordered restore plan built from it. */
module RestorePlanning {
  import opened Domain
  import opened Profiles
  import TextOrder
  import Sorting
  import PH = PlanHash

  datatype Quality = Good | Stale | Timeout | ProtocolException | DecodeError | Disconnected | Unavailable

  datatype BackupValue = BackupValue(
    code: string,
    raw: RawRegisters,
    engineering: EngineeringValue,
    quantity: string,
    unit: string,
    quality: Quality)

  datatype Backup = Backup(
    backupId: nat,
    profileId: string,
    profileRevision: nat,
    profileHash: string,
    fingerprint: Fingerprint,
    complete: bool,
    values: map<ParameterId, BackupValue>)

  datatype SessionSnapshot = SessionSnapshot(
    sessionId: nat,
    fingerprint: Fingerprint,
    profileHash: string,
    connected: bool,
    armed: bool,
    auditHealthy: bool,
    operationIdle: bool,
    guardRevision: nat,
    slaveId: nat)

  datatype Eligibility =
    | Eligible
    | ReadOnlyParameter
    | CommissioningParameter
    | DangerousParameter
    | LinkCriticalParameter
    | RestartRequiredParameter
    | ManualOnlyParameter
    | GuardNotStopped
    | MissingWriteFunction

  function RestoreEligibility(parameter: Parameter): Eligibility {
    match parameter.access
    case ReadOnly => ReadOnlyParameter
    case Commissioning => CommissioningParameter
    case Dangerous => DangerousParameter
    case WritableWhenStopped =>
      match parameter.restorePolicy
      case LinkCritical => LinkCriticalParameter
      case RestartRequired => RestartRequiredParameter
      case ManualOnly => ManualOnlyParameter
      case Normal =>
        if parameter.requiredDriveState != StoppedState then GuardNotStopped
        else if parameter.writeFunction.None? || !parameter.writeFunction.value.IsWrite() then MissingWriteFunction
        else Eligible
  }

  datatype DiffStatus = Unchanged | Changed | OnlyLeft | OnlyRight | Unreadable | Incompatible | NotRestorable

  datatype Difference = Difference(
    status: DiffStatus, eligibility: Eligibility, left: Option<BackupValue>, right: Option<BackupValue>)

  function Lookup(backup: Backup, id: ParameterId): Option<BackupValue> {
    if id in backup.values then Some(backup.values[id]) else None
  }

  function Compare(left: Backup, right: Backup, profile: Option<Profile>, id: ParameterId): Difference
    requires id in left.values || id in right.values
  {
    var l, r := Lookup(left, id), Lookup(right, id);
    var eligibility :=
      if profile.Some? && id in profile.value.parameters then RestoreEligibility(profile.value.parameters[id]) else Eligible;
    var status :=
      if r.None? then OnlyLeft
      else if l.None? then OnlyRight
      else if left.profileHash != right.profileHash then Incompatible
      else if l.value.code != r.value.code || l.value.quantity != r.value.quantity || l.value.unit != r.value.unit then Incompatible
      else if l.value.quality != Good || r.value.quality != Good then Unreadable
      else if eligibility != Eligible then NotRestorable
      else if l.value.raw == r.value.raw && l.value.engineering == r.value.engineering then Unchanged
      else Changed;
    Difference(status, eligibility, l, r)
  }

  type Diff = map<ParameterId, Difference>

  function SemanticDiff(left: Backup, right: Backup, profile: Option<Profile>): Diff {
    map id | id in left.values.Keys + right.values.Keys :: Compare(left, right, profile, id)
  }

  /** `diff` holds exactly the comparison of every id of either backup. */
  ghost predicate IsDiff(diff: Diff, left: Backup, right: Backup, profile: Profile) {
    && diff.Keys == left.values.Keys + right.values.Keys
    && forall id :: id in diff ==> diff[id] == Compare(left, right, Some(profile), id)
  }

  datatype SkipReason =
    | SkipUnchanged
    | OnlyInSourceBackup
    | OnlyOnDevice
    | SkipUnreadable
    | SkipIncompatible
    | NotInRestoreOrder
    | NotEligible(eligibility: Eligibility)

  datatype Skipped = Skipped(parameterId: ParameterId, reason: SkipReason)

  datatype RestorePlan = RestorePlan(
    operationId: nat,
    backupId: nat,
    preRestoreBackupId: nat,
    sessionId: nat,
    fingerprint: Fingerprint,
    profileHash: Digest,
    steps: seq<PH.Step>,
    planHash: Digest,
    skipped: seq<Skipped>,
    challenge: string,
    expiresAt: nat)
  {
    /** What the crate-private construction guarantees about every plan value. */
    ghost predicate Sealed() {
      && 0 < |steps| < 0x8000_0000_0000_0000
      && forall i :: 0 <= i < |steps| ==> steps[i].index == i
    }
  }

  type ApprovedPlan = p: RestorePlan | p.Sealed()
    witness RestorePlan(0, 0, 0, 0, "f", seq(64, _ => '0'), [PH.Step(0, "p", [0], [0])], seq(64, _ => '0'), [], "", 0)

  datatype PlanError =
    | IncompleteBackup
    | SessionUnavailable
    | ProfileMismatch
    | FingerprintMismatch
    | InvalidBackupParameter(parameterId: ParameterId)
    | NoEligibleChanges
    | PreconditionChanged

  datatype PlanResult = Planned(plan: RestorePlan) | Refused(error: PlanError)

  // ---------------------------------------------------------------- validation

  predicate ValueConsistent(value: BackupValue, parameter: Parameter) {
    && value.quality == Good
    && value.code == parameter.code
    && value.unit == parameter.unit
    && |value.raw| == parameter.block.count
    && parameter.codec.decode(value.raw) == Some(value.engineering)
    && value.raw !in parameter.forbiddenRaw
  }

  predicate EntryConsistent(backup: Backup, profile: Profile, id: ParameterId)
    requires id in backup.values
  {
    id in profile.parameters && ValueConsistent(backup.values[id], profile.parameters[id])
  }

  ghost predicate BackupConsistent(backup: Backup, profile: Profile) {
    forall id :: id in backup.values ==> EntryConsistent(backup, profile, id)
  }

  /** The first inconsistent entry in id order, if any. */
  method ValidateBackupValues(backup: Backup, profile: Profile) returns (bad: Option<ParameterId>)
    ensures bad.None? <==> BackupConsistent(backup, profile)
    ensures bad.Some? ==> bad.value in backup.values && !EntryConsistent(backup, profile, bad.value)
  {
    var ids := TextOrder.InTextOrder(backup.values.Keys);
    for i := 0 to |ids|
      invariant forall k :: 0 <= k < i ==> EntryConsistent(backup, profile, ids[k])
    {
      if !EntryConsistent(backup, profile, ids[i]) {
        return Some(ids[i]);
      }
    }
    return None;
  }

  // ---------------------------------------------------------------- planning

  /** Whether the ordered loop turns `id` into a step. */
  predicate Selected(diff: Diff, id: ParameterId) {
    id in diff && diff[id].status == Changed && diff[id].eligibility == Eligible
  }

  function ReasonSkipped(diff: Diff, id: ParameterId): SkipReason {
    if id !in diff then SkipIncompatible
    else match diff[id].status
      case Unchanged => SkipUnchanged
      case OnlyLeft => OnlyInSourceBackup
      case OnlyRight => OnlyOnDevice
      case Unreadable => SkipUnreadable
      case Incompatible => SkipIncompatible
      case NotRestorable => NotEligible(diff[id].eligibility)
      case Changed => NotEligible(diff[id].eligibility)
  }

  function SelectedIds(order: seq<ParameterId>, diff: Diff): (ids: seq<ParameterId>)
    ensures forall id :: id in ids <==> id in order && Selected(diff, id)
  {
    if order == [] then []
    else
      var n := |order| - 1;
      SelectedIds(order[..n], diff) + if Selected(diff, order[n]) then [order[n]] else []
  }

  function SkippedIds(order: seq<ParameterId>, diff: Diff): (ids: seq<ParameterId>)
  {
    if order == [] then []
    else
      var n := |order| - 1;
      SkippedIds(order[..n], diff) + if Selected(diff, order[n]) then [] else [order[n]]
  }

  /** The steps for `ids`: source raw replaces current raw, numbered from zero. */
  ghost predicate StepsFor(steps: seq<PH.Step>, ids: seq<ParameterId>, source: Backup, current: Backup) {
    && |steps| == |ids|
    && forall i :: 0 <= i < |ids| ==>
        && ids[i] in source.values && ids[i] in current.values
        && steps[i] == PH.Step(i, ids[i], current.values[ids[i]].raw, source.values[ids[i]].raw)
  }

  ghost predicate SkipsFor(skipped: seq<Skipped>, inOrder: seq<ParameterId>, diff: Diff, outside: seq<ParameterId>) {
    && |skipped| == |inOrder| + |outside|
    && (forall i :: 0 <= i < |inOrder| ==> skipped[i] == Skipped(inOrder[i], ReasonSkipped(diff, inOrder[i])))
    && (forall i :: 0 <= i < |outside| ==> skipped[|inOrder| + i] == Skipped(outside[i], NotInRestoreOrder))
  }

  /** Ids of the diff that the restore order does not mention, in text order. */
  ghost predicate OutsideOrder(outside: seq<ParameterId>, order: seq<ParameterId>, diff: Diff) {
    && (forall id :: id in outside <==> id in diff && id !in order)
    && (forall i, j :: 0 <= i < j < |outside| ==> outside[i] != outside[j] && TextOrder.TextLe(outside[i], outside[j]))
  }

  function OutsideIds(order: seq<ParameterId>, diff: Diff): (outside: seq<ParameterId>) {
    Without(TextOrder.InTextOrder(diff.Keys), order)
  }

  /** The elements of `ids` that are not in `order`. */
  function Without(ids: seq<ParameterId>, order: seq<ParameterId>): (rest: seq<ParameterId>)
    ensures forall id :: id in rest <==> id in ids && id !in order
  {
    if ids == [] then []
    else
      var n := |ids| - 1;
      Without(ids[..n], order) + if ids[n] in order then [] else [ids[n]]
  }

  lemma OutsideIdsAreOrdered(order: seq<ParameterId>, diff: Diff)
    ensures OutsideOrder(OutsideIds(order, diff), order, diff)
  {
    TextOrder.ListedInOrder(diff.Keys);
    WithoutKeepsOrder(TextOrder.InTextOrder(diff.Keys), order);
  }

  lemma {:induction false} WithoutKeepsOrder(ids: seq<ParameterId>, order: seq<ParameterId>)
    requires forall i, j :: 0 <= i < j < |ids| ==> ids[i] != ids[j] && TextOrder.TextLe(ids[i], ids[j])
    ensures forall i, j :: 0 <= i < j < |Without(ids, order)| ==>
              Without(ids, order)[i] != Without(ids, order)[j] && TextOrder.TextLe(Without(ids, order)[i], Without(ids, order)[j])
  {
    if ids != [] {
      var n := |ids| - 1;
      WithoutKeepsOrder(ids[..n], order);
      forall i | 0 <= i < |Without(ids[..n], order)|
        ensures Without(ids[..n], order)[i] != ids[n] && TextOrder.TextLe(Without(ids[..n], order)[i], ids[n])
      {
        assert Without(ids[..n], order)[i] in ids[..n];
      }
    }
  }

  ghost predicate IdentityMatches(source: Backup, current: Backup, profile: Profile, session: SessionSnapshot) {
    && source.profileHash == current.profileHash == session.profileHash == profile.hash
    && source.profileId == current.profileId == profile.profileId
    && source.profileRevision == current.profileRevision == profile.revision
  }

  ghost predicate SessionReady(session: SessionSnapshot) {
    session.connected && session.auditHealthy && session.operationIdle
  }

  /** Everything that is checked before the diff is looked at. */
  ghost predicate Plannable(source: Backup, current: Backup, profile: Profile, session: SessionSnapshot) {
    && source.complete && current.complete
    && SessionReady(session)
    && IdentityMatches(source, current, profile, session)
    && source.fingerprint == current.fingerprint == session.fingerprint
    && BackupConsistent(source, profile) && BackupConsistent(current, profile)
  }

  ghost predicate RefusedBefore(error: PlanError, source: Backup, current: Backup, profile: Profile, session: SessionSnapshot) {
    match error
    case IncompleteBackup => !source.complete || !current.complete
    case SessionUnavailable => source.complete && current.complete && !SessionReady(session)
    case ProfileMismatch =>
      source.complete && current.complete && SessionReady(session) && !IdentityMatches(source, current, profile, session)
    case FingerprintMismatch =>
      && source.complete && current.complete && SessionReady(session) && IdentityMatches(source, current, profile, session)
      && !(source.fingerprint == current.fingerprint == session.fingerprint)
    case InvalidBackupParameter(id) =>
      && source.complete && current.complete && SessionReady(session) && IdentityMatches(source, current, profile, session)
      && source.fingerprint == current.fingerprint == session.fingerprint
      && ((id in source.values && !EntryConsistent(source, profile, id)) || (id in current.values && !EntryConsistent(current, profile, id)))
    case _ => false
  }

  function Decimal(n: nat): string
    decreases n
  {
    if n < 10 then [('0' as int + n) as char] else Decimal(n / 10) + [('0' as int + n % 10) as char]
  }

  /** What the operator has to repeat: the plan's hash in short, and how many steps it has. */
  function RestoreChallenge(planHash: Digest, count: nat): string {
    "restore:" + planHash[..12] + ":" + Decimal(count)
  }

  /** The plan the source promises for plannable inputs. */
  ghost predicate PlanFor(plan: RestorePlan, source: Backup, current: Backup, profile: Profile, session: SessionSnapshot,
                          operationId: nat, expiresAt: nat, digest: seq<PH.Byte> -> Digest, diff: Diff)
  {
    && plan.operationId == operationId && plan.expiresAt == expiresAt
    && plan.backupId == source.backupId && plan.preRestoreBackupId == current.backupId
    && plan.sessionId == session.sessionId && plan.fingerprint == session.fingerprint
    && plan.profileHash == profile.hash
    && StepsFor(plan.steps, SelectedIds(profile.restoreOrder, diff), source, current)
    && plan.planHash == digest(PH.PreImage(plan.steps))
    && plan.challenge == RestoreChallenge(plan.planHash, |plan.steps|)
    && plan.Sealed()
    && SkipsFor(plan.skipped, SkippedIds(profile.restoreOrder, diff), diff, OutsideIds(profile.restoreOrder, diff))
  }

  /** A plan that was built is a plan that may be approved. */
  lemma PlanIsSealed(plan: RestorePlan, source: Backup, current: Backup, profile: Profile, session: SessionSnapshot,
                     operationId: nat, expiresAt: nat, digest: seq<PH.Byte> -> Digest, diff: Diff)
    requires PlanFor(plan, source, current, profile, session, operationId, expiresAt, digest, diff)
    ensures plan.Sealed() && plan.expiresAt == expiresAt
  {
  }

  method BuildRestorePlan(source: Backup, current: Backup, profile: ValidatedProfile, session: SessionSnapshot,
                          operationId: nat, expiresAt: nat, digest: seq<PH.Byte> -> Digest)
    returns (result: PlanResult, ghost diff: Diff)
    ensures Plannable(source, current, profile, session) <==>
            (result.Planned? || result.error == NoEligibleChanges)
    ensures result.Planned? ==>
              && IsDiff(diff, source, current, profile)
              && PlanFor(result.plan, source, current, profile, session, operationId, expiresAt, digest, diff)
    ensures result == Refused(NoEligibleChanges) ==>
              IsDiff(diff, source, current, profile) && SelectedIds(profile.restoreOrder, diff) == []
    ensures result.Refused? && result.error != NoEligibleChanges ==>
              RefusedBefore(result.error, source, current, profile, session)
  {
    diff := map[];
    var refusal := Precheck(source, current, profile, session);
    if refusal.Some? {
      return Refused(refusal.value), diff;
    }
    var differences := SemanticDiff(source, current, Some(profile));
    diff := differences;
    assert IsDiff(diff, source, current, profile);
    result := AssemblePlan(source, current, profile, session, operationId, expiresAt, digest, differences);
  }

  method Precheck(source: Backup, current: Backup, profile: ValidatedProfile, session: SessionSnapshot)
    returns (refusal: Option<PlanError>)
    ensures refusal.None? <==> Plannable(source, current, profile, session)
    ensures refusal.Some? ==> RefusedBefore(refusal.value, source, current, profile, session)
  {
    if !source.complete || !current.complete {
      return Some(IncompleteBackup);
    }
    if !session.connected || !session.auditHealthy || !session.operationIdle {
      return Some(SessionUnavailable);
    }
    if source.profileHash != profile.hash || current.profileHash != profile.hash || session.profileHash != profile.hash
       || source.profileId != profile.profileId || current.profileId != profile.profileId
       || source.profileRevision != profile.revision || current.profileRevision != profile.revision
    {
      return Some(ProfileMismatch);
    }
    if source.fingerprint != session.fingerprint || current.fingerprint != session.fingerprint {
      return Some(FingerprintMismatch);
    }
    var bad := ValidateBackupValues(source, profile);
    if bad.Some? {
      return Some(InvalidBackupParameter(bad.value));
    }
    bad := ValidateBackupValues(current, profile);
    if bad.Some? {
      return Some(InvalidBackupParameter(bad.value));
    }
    return None;
  }

  method AssemblePlan(source: Backup, current: Backup, profile: ValidatedProfile, session: SessionSnapshot,
                      operationId: nat, expiresAt: nat, digest: seq<PH.Byte> -> Digest, diff: Diff)
    returns (result: PlanResult)
    requires IsDiff(diff, source, current, profile)
    ensures result.Planned? ==>
              PlanFor(result.plan, source, current, profile, session, operationId, expiresAt, digest, diff)
    ensures result.Refused? ==>
              result.error == NoEligibleChanges && SelectedIds(profile.restoreOrder, diff) == []
  {
    hide OutsideIds, SkippedIds, SelectedIds, ReasonSkipped, Decimal, IsDiff, StepsFor, SkipsFor;
    var steps, skipped := WalkRestoreOrder(source, current, profile, diff);
    skipped := SkipOutsideOrder(skipped, profile.restoreOrder, diff);
    if steps == [] {
      return Refused(NoEligibleChanges);
    }
    var planHash := PH.OrderedPlanHash(steps, digest);
    var challenge := RestoreChallenge(planHash, |steps|);
    SelectedAtMost(profile.restoreOrder, diff);
    result := Planned(RestorePlan(operationId, source.backupId, current.backupId, session.sessionId, session.fingerprint,
                                  profile.hash, steps, planHash, skipped, challenge, expiresAt));
  }

  lemma {:induction false} SelectedAtMost(order: seq<ParameterId>, diff: Diff)
    ensures |SelectedIds(order, diff)| <= |order|
  {
    if order != [] { SelectedAtMost(order[..|order| - 1], diff); }
  }

  method WalkRestoreOrder(source: Backup, current: Backup, profile: Profile, diff: Diff)
    returns (steps: seq<PH.Step>, skipped: seq<Skipped>)
    requires IsDiff(diff, source, current, profile)
    ensures StepsFor(steps, SelectedIds(profile.restoreOrder, diff), source, current)
    ensures SkipsFor(skipped, SkippedIds(profile.restoreOrder, diff), diff, [])
  {
    var order := profile.restoreOrder;
    steps, skipped := [], [];
    for k := 0 to |order|
      invariant StepsFor(steps, SelectedIds(order[..k], diff), source, current)
      invariant SkipsFor(skipped, SkippedIds(order[..k], diff), diff, [])
    {
      var id := order[k];
      assert order[..k + 1][..k] == order[..k];
      if Selected(diff, id) {
        steps := steps + [PH.Step(|steps|, id, diff[id].right.value.raw, diff[id].left.value.raw)];
      } else {
        skipped := skipped + [Skipped(id, ReasonSkipped(diff, id))];
      }
    }
    assert order[..|order|] == order;
  }

  method SkipOutsideOrder(already: seq<Skipped>, order: seq<ParameterId>, diff: Diff) returns (skipped: seq<Skipped>)
    requires SkipsFor(already, SkippedIds(order, diff), diff, [])
    ensures SkipsFor(skipped, SkippedIds(order, diff), diff, OutsideIds(order, diff))
  {
    hide SkipsFor, TextOrder.InTextOrder, SkippedIds;
    skipped := already;
    ghost var inOrder := SkippedIds(order, diff);
    var ids := TextOrder.InTextOrder(diff.Keys);
    for k := 0 to |ids|
      invariant SkipsFor(skipped, inOrder, diff, Without(ids[..k], order))
    {
      assert ids[..k + 1][..k] == ids[..k];
      if ids[k] !in order {
        SkipsOneMore(skipped, inOrder, diff, Without(ids[..k], order), ids[k]);
        skipped := skipped + [Skipped(ids[k], NotInRestoreOrder)];
      } else {
        assert Without(ids[..k], order) + [] == Without(ids[..k], order);
      }
    }
    assert ids[..|ids|] == ids;
  }

  lemma SkipsOneMore(skipped: seq<Skipped>, inOrder: seq<ParameterId>, diff: Diff, outside: seq<ParameterId>, id: ParameterId)
    requires SkipsFor(skipped, inOrder, diff, outside)
    ensures SkipsFor(skipped + [Skipped(id, NotInRestoreOrder)], inOrder, diff, outside + [id])
  {
    hide ReasonSkipped;
  }

  // ---------------------------------------------------------------- the plan partitions the ids

  function StepIds(steps: seq<PH.Step>): (ids: seq<ParameterId>)
    ensures |ids| == |steps|
    ensures forall i :: 0 <= i < |ids| ==> ids[i] == steps[i].parameterId
  {
    seq(|steps|, i requires 0 <= i < |steps| => steps[i].parameterId)
  }

  function SkipIds(skipped: seq<Skipped>): (ids: seq<ParameterId>)
    ensures |ids| == |skipped|
    ensures forall i :: 0 <= i < |ids| ==> ids[i] == skipped[i].parameterId
  {
    seq(|skipped|, i requires 0 <= i < |skipped| => skipped[i].parameterId)
  }

  lemma {:induction false} OrderSplits(order: seq<ParameterId>, diff: Diff)
    ensures multiset(SelectedIds(order, diff)) + multiset(SkippedIds(order, diff)) == multiset(order)
  {
    if order != [] {
      var n := |order| - 1;
      OrderSplits(order[..n], diff);
      assert order == order[..n] + [order[n]];
    }
  }

  /** Every id of either backup and of the restore order appears exactly once, as a step or as a skip. */
  lemma PlanPartitionsIds(plan: RestorePlan, source: Backup, current: Backup, profile: ValidatedProfile,
                          session: SessionSnapshot, operationId: nat, expiresAt: nat, digest: seq<PH.Byte> -> Digest, diff: Diff)
    requires diff.Keys == source.values.Keys + current.values.Keys
    requires PlanFor(plan, source, current, profile, session, operationId, expiresAt, digest, diff)
    ensures multiset(StepIds(plan.steps)) + multiset(SkipIds(plan.skipped))
            == multiset(source.values.Keys + current.values.Keys + set id | id in profile.restoreOrder)
  {
    OutsideIdsAreOrdered(profile.restoreOrder, diff);
    ListsPartition(plan.steps, plan.skipped, source, current, profile.restoreOrder, diff, OutsideIds(profile.restoreOrder, diff));
  }

  lemma ListsPartition(steps: seq<PH.Step>, skipped: seq<Skipped>, source: Backup, current: Backup,
                       order: seq<ParameterId>, diff: Diff, outside: seq<ParameterId>)
    requires forall i, j :: 0 <= i < j < |order| ==> order[i] != order[j]
    requires StepsFor(steps, SelectedIds(order, diff), source, current)
    requires OutsideOrder(outside, order, diff) && SkipsFor(skipped, SkippedIds(order, diff), diff, outside)
    ensures multiset(StepIds(steps)) + multiset(SkipIds(skipped)) == multiset(diff.Keys + set id | id in order)
  {
    assert StepIds(steps) == SelectedIds(order, diff);
    assert SkipIds(skipped) == SkippedIds(order, diff) + outside;
    OrderSplits(order, diff);
    ListsCover(order, outside, diff.Keys);
    assert multiset(SkippedIds(order, diff) + outside) == multiset(SkippedIds(order, diff)) + multiset(outside);
  }

  lemma ListsCover(order: seq<ParameterId>, outside: seq<ParameterId>, all: set<ParameterId>)
    requires forall i, j :: 0 <= i < j < |order| ==> order[i] != order[j]
    requires forall i, j :: 0 <= i < j < |outside| ==> outside[i] != outside[j]
    requires forall id :: id in outside <==> id in all && id !in order
    ensures multiset(order) + multiset(outside) == multiset(all + set id | id in order)
  {
    var ordered := set id | id in order;
    Sorting.DistinctAsSet(order, ordered);
    Sorting.DistinctAsSet(outside, all - ordered);
    assert all + ordered == ordered + (all - ordered);
    assert multiset(ordered + (all - ordered)) == multiset(ordered) + multiset(all - ordered);
  }

  // ---------------------------------------------------------------- steps are real, ordered changes

  ghost predicate Increasing(positions: seq<nat>) {
    forall i, j :: 0 <= i < j < |positions| ==> positions[i] < positions[j]
  }

  ghost predicate Subsequence(ids: seq<ParameterId>, order: seq<ParameterId>, positions: seq<nat>) {
    && |positions| == |ids|
    && Increasing(positions)
    && forall i :: 0 <= i < |ids| ==> positions[i] < |order| && order[positions[i]] == ids[i]
  }

  lemma {:induction false} SelectedFollowOrder(order: seq<ParameterId>, diff: Diff) returns (positions: seq<nat>)
    ensures Subsequence(SelectedIds(order, diff), order, positions)
  {
    positions := [];
    if order != [] {
      var n := |order| - 1;
      positions := SelectedFollowOrder(order[..n], diff);
      if Selected(diff, order[n]) { positions := positions + [n]; }
    }
  }

  /** What one step does to one parameter. */
  ghost predicate RealChange(step: PH.Step, source: Backup, current: Backup, profile: Profile) {
    && step.parameterId in source.values && step.targetRaw == source.values[step.parameterId].raw
    && step.parameterId in current.values && step.expectedOldRaw == current.values[step.parameterId].raw
    && step.targetRaw != step.expectedOldRaw
    && step.parameterId in profile.parameters
    && RestoreEligibility(profile.parameters[step.parameterId]) == Eligible
    && step.targetRaw !in profile.parameters[step.parameterId].forbiddenRaw
  }

  /** Both backups hold `id`, and restoring it would really change an eligible parameter. */
  ghost predicate Restorable(source: Backup, current: Backup, profile: Profile, id: ParameterId) {
    && id in source.values && id in current.values
    && source.values[id].quantity == current.values[id].quantity
    && source.values[id].raw != current.values[id].raw
    && id in profile.parameters
    && RestoreEligibility(profile.parameters[id]) == Eligible
    && source.values[id].raw !in profile.parameters[id].forbiddenRaw
  }

  /** For consistent backups, being selected depends on the raw words only. */
  lemma SelectedMeans(source: Backup, current: Backup, profile: Profile, diff: Diff, id: ParameterId)
    requires BackupConsistent(source, profile) && BackupConsistent(current, profile)
    requires source.profileHash == current.profileHash
    requires IsDiff(diff, source, current, profile)
    ensures Selected(diff, id) <==> Restorable(source, current, profile, id)
  {
    if id in source.values && id in current.values {
      assert EntryConsistent(source, profile, id) && EntryConsistent(current, profile, id);
      assert diff[id] == Compare(source, current, Some(profile), id);
    } else if id in diff {
      assert diff[id] == Compare(source, current, Some(profile), id);
    }
  }

  lemma AllSelectedMean(source: Backup, current: Backup, profile: Profile, diff: Diff)
    requires BackupConsistent(source, profile) && BackupConsistent(current, profile)
    requires source.profileHash == current.profileHash
    requires IsDiff(diff, source, current, profile)
    ensures forall id :: Selected(diff, id) <==> Restorable(source, current, profile, id)
  {
    forall id ensures Selected(diff, id) <==> Restorable(source, current, profile, id) {
      SelectedMeans(source, current, profile, diff, id);
    }
  }

  /** Steps follow the restore order, and each one replaces the current words by different words, taken
      from the source backup, of an eligible parameter that does not forbid them. */
  lemma StepsAreOrderedChanges(plan: RestorePlan, source: Backup, current: Backup, profile: ValidatedProfile,
                               session: SessionSnapshot, operationId: nat, expiresAt: nat, digest: seq<PH.Byte> -> Digest, diff: Diff)
    returns (positions: seq<nat>)
    requires Plannable(source, current, profile, session)
    requires IsDiff(diff, source, current, profile)
    requires PlanFor(plan, source, current, profile, session, operationId, expiresAt, digest, diff)
    ensures Subsequence(StepIds(plan.steps), profile.restoreOrder, positions)
    ensures forall i :: 0 <= i < |plan.steps| ==>
              plan.steps[i].index == i && RealChange(plan.steps[i], source, current, profile)
  {
    AllSelectedMean(source, current, profile, diff);
    positions := OrderedChanges(plan.steps, source, current, profile, diff);
  }

  lemma OrderedChanges(steps: seq<PH.Step>, source: Backup, current: Backup, profile: Profile, diff: Diff)
    returns (positions: seq<nat>)
    requires StepsFor(steps, SelectedIds(profile.restoreOrder, diff), source, current)
    requires forall id :: Selected(diff, id) <==> Restorable(source, current, profile, id)
    ensures Subsequence(StepIds(steps), profile.restoreOrder, positions)
    ensures forall i :: 0 <= i < |steps| ==> steps[i].index == i && RealChange(steps[i], source, current, profile)
  {
    var ids := SelectedIds(profile.restoreOrder, diff);
    positions := SelectedFollowOrder(profile.restoreOrder, diff);
    assert StepIds(steps) == ids;
    forall i | 0 <= i < |steps| ensures RealChange(steps[i], source, current, profile) {
      assert ids[i] in ids;
      assert Restorable(source, current, profile, ids[i]);
    }
  }

  // ---------------------------------------------------------------- replanning converges

  /** `after` is a backup of the same device taken when exactly the first `done` steps had been applied. */
  ghost predicate TakenAfter(after: Backup, current: Backup, steps: seq<PH.Step>, done: nat)
    requires done <= |steps|
  {
    && after.values.Keys == current.values.Keys
    && (forall i :: 0 <= i < done && steps[i].parameterId in after.values ==>
          after.values[steps[i].parameterId].raw == steps[i].targetRaw)
    && (forall id :: id in after.values && id !in StepIds(steps[..done]) ==> after.values[id].raw == current.values[id].raw)
    && (forall id :: id in after.values ==> after.values[id].quantity == current.values[id].quantity)
  }

  ghost predicate NoRepeats(ids: seq<ParameterId>) {
    forall i, j :: 0 <= i < j < |ids| ==> ids[i] != ids[j]
  }

  lemma LastIsNew(ids: seq<ParameterId>)
    requires ids != [] && NoRepeats(ids)
    ensures NoRepeats(ids[..|ids| - 1]) && ids[|ids| - 1] !in ids[..|ids| - 1]
  {
  }

  /** Deselecting the first of the selected ids leaves exactly the others, in their order. */
  lemma {:induction false} FilterDropsPrefix(order: seq<ParameterId>, before: Diff, after: Diff,
                                             dropped: seq<ParameterId>, rest: seq<ParameterId>)
    requires NoRepeats(order)
    requires SelectedIds(order, before) == dropped + rest
    requires forall id :: id in order ==> (Selected(after, id) <==> Selected(before, id) && id !in dropped)
    ensures SelectedIds(order, after) == rest
  {
    hide Selected, NoRepeats;
    if rest == [] {
      assert forall id :: id in order && Selected(before, id) ==> id in dropped + rest;
      NothingSelected(order, after);
    } else {
      var last, front := order[|order| - 1], order[..|order| - 1];
      LastIsNew(order);
      if Selected(before, last) {
        var shorter := rest[..|rest| - 1];
        LastSplits(SelectedIds(front, before), last, dropped, rest);
        FilterDropsPrefix(front, before, after, dropped, shorter);
      } else {
        FilterDropsPrefix(front, before, after, dropped, rest);
      }
    }
  }

  lemma LastSplits(ids: seq<ParameterId>, last: ParameterId, dropped: seq<ParameterId>, rest: seq<ParameterId>)
    requires rest != [] && ids + [last] == dropped + rest && last !in ids
    ensures ids == dropped + rest[..|rest| - 1] && rest[|rest| - 1] == last && last !in dropped
  {
    var shorter := rest[..|rest| - 1];
    assert (ids + [last])[..|ids|] == (dropped + rest)[..|ids|] == dropped + shorter;
    assert forall id :: id in dropped ==> id in dropped + shorter;
    assert (ids + [last])[|ids|] == (dropped + rest)[|ids|];
  }

  lemma {:induction false} NothingSelected(order: seq<ParameterId>, diff: Diff)
    requires forall id :: id in order ==> !Selected(diff, id)
    ensures SelectedIds(order, diff) == []
  {
    hide Selected;
    if order != [] {
      NothingSelected(order[..|order| - 1], diff);
    }
  }

  lemma RestorableAfterwards(source: Backup, current: Backup, after: Backup, profile: Profile,
                             steps: seq<PH.Step>, done: nat, id: ParameterId)
    requires done <= |steps| && TakenAfter(after, current, steps, done)
    requires forall i :: 0 <= i < done ==>
               steps[i].parameterId in source.values && steps[i].targetRaw == source.values[steps[i].parameterId].raw
    ensures Restorable(source, after, profile, id)
            <==> Restorable(source, current, profile, id) && id !in StepIds(steps[..done])
  {
    if id in StepIds(steps[..done]) {
      var i :| 0 <= i < done && StepIds(steps[..done])[i] == id;
      assert steps[i].parameterId == id;
    }
  }

  /** `rest` is what remains of `steps` after the first `done`, numbered from zero again. */
  ghost predicate Remainder(rest: seq<PH.Step>, steps: seq<PH.Step>, done: nat) {
    && done <= |steps|
    && |rest| == |steps| - done
    && forall i :: 0 <= i < |rest| ==> rest[i] == steps[done + i].(index := i)
  }

  /** A restore that stopped after any number of verified steps is resumed exactly by replanning: the new
      plan consists of the steps that had not run, and nothing is left after the last one. */
  lemma ReplanningResumes(source: Backup, current: Backup, after: Backup, profile: ValidatedProfile,
                          session: SessionSnapshot, before: Diff, later: Diff,
                          steps: seq<PH.Step>, done: nat, rest: seq<PH.Step>)
    requires Plannable(source, current, profile, session) && Plannable(source, after, profile, session)
    requires IsDiff(before, source, current, profile) && IsDiff(later, source, after, profile)
    requires StepsFor(steps, SelectedIds(profile.restoreOrder, before), source, current)
    requires done <= |steps| && TakenAfter(after, current, steps, done)
    requires StepsFor(rest, SelectedIds(profile.restoreOrder, later), source, after)
    ensures Remainder(rest, steps, done)
    ensures done == |steps| ==> rest == []
  {
    hide SelectedIds, IsDiff, SessionReady;
    AllSelectedMean(source, current, profile, before);
    AllSelectedMean(source, after, profile, later);
    SelectsRemainder(source, current, after, profile, before, later, steps, done);
    forall i | 0 <= i < |rest| ensures rest[i] == steps[done + i].(index := i) {
      StepRemains(source, current, after, profile, later, steps, done, rest, i);
    }
  }

  lemma StepRemains(source: Backup, current: Backup, after: Backup, profile: Profile, later: Diff,
                    steps: seq<PH.Step>, done: nat, rest: seq<PH.Step>, i: nat)
    requires forall id :: Selected(later, id) <==> Restorable(source, after, profile, id)
    requires done <= |steps| && TakenAfter(after, current, steps, done)
    requires forall k :: 0 <= k < |steps| ==>
               && steps[k].parameterId in source.values && steps[k].targetRaw == source.values[steps[k].parameterId].raw
               && steps[k].parameterId in current.values && steps[k].expectedOldRaw == current.values[steps[k].parameterId].raw
    requires StepsFor(rest, SelectedIds(profile.restoreOrder, later), source, after)
    requires SelectedIds(profile.restoreOrder, later) == StepIds(steps)[done..]
    requires i < |rest|
    ensures rest[i] == steps[done + i].(index := i)
  {
    var id := rest[i].parameterId;
    assert id == StepIds(steps)[done + i];
    assert id in SelectedIds(profile.restoreOrder, later);
    RestorableAfterwards(source, current, after, profile, steps, done, id);
  }

  lemma SelectsRemainder(source: Backup, current: Backup, after: Backup, profile: ValidatedProfile,
                         before: Diff, later: Diff, steps: seq<PH.Step>, done: nat)
    requires forall id :: Selected(before, id) <==> Restorable(source, current, profile, id)
    requires forall id :: Selected(later, id) <==> Restorable(source, after, profile, id)
    requires StepsFor(steps, SelectedIds(profile.restoreOrder, before), source, current)
    requires done <= |steps| && TakenAfter(after, current, steps, done)
    ensures SelectedIds(profile.restoreOrder, later) == StepIds(steps)[done..]
  {
    var order := profile.restoreOrder;
    assert StepIds(steps) == SelectedIds(order, before);
    assert StepIds(steps[..done]) == SelectedIds(order, before)[..done];
    forall id | id in order
      ensures Selected(later, id) <==> Selected(before, id) && id !in SelectedIds(order, before)[..done]
    {
      RestorableAfterwards(source, current, after, profile, steps, done, id);
    }
    FilterDropsPrefix(order, before, later, StepIds(steps)[..done], StepIds(steps)[done..]);
  }
}
