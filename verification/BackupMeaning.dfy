/** What a backup holds, and when it is complete, told from its readings alone. */
module BackupMeanings {
  import opened Domain
  import Modbus
  import opened Profiles
  import TextOrder
  import RP = RestorePlanning
  import opened Backups

  /** Both snapshots are of one connected session with one device, profile and address. */
  ghost predicate Steady(a: RP.SessionSnapshot, b: RP.SessionSnapshot) {
    && a.connected && b.connected
    && (a.sessionId, a.fingerprint, a.profileHash, a.slaveId) == (b.sessionId, b.fingerprint, b.profileHash, b.slaveId)
  }

  /** The parameters a backup is made of. */
  ghost predicate Wanted(profile: Profile, id: ParameterId) {
    id in profile.parameters && profile.parameters[id].includedInBackup
  }

  /** The words of one parameter, read as the profile says from the device the capture began with. */
  ghost predicate Addressed(r: Reading, before: RP.SessionSnapshot, profile: Profile) {
    && r.parameterId in profile.parameters
    && var block := profile.parameters[r.parameterId].block;
       && r.request.block == block && r.request.sessionId == before.sessionId && r.request.slaveId == before.slaveId
       && r.request.function_ == if block.table.InputRegisters? then Modbus.ReadInputRegisters else Modbus.ReadHoldingRegisters
  }

  /** Why a reading is worth nothing; None if it is good. */
  ghost predicate Fails(r: Reading, before: RP.SessionSnapshot, profile: Profile, reason: ReadFailure) {
    match reason
    case ReadFailed => r.raw.None?
    case SessionChanged => r.raw.Some? && !Steady(before, r.after)
    case Undecodable =>
      && r.raw.Some? && Steady(before, r.after)
      && r.parameterId in profile.parameters && profile.parameters[r.parameterId].codec.decode(r.raw.value).None?
  }

  ghost predicate Good(r: Reading, before: RP.SessionSnapshot, profile: Profile) {
    && r.raw.Some? && Steady(before, r.after)
    && r.parameterId in profile.parameters && profile.parameters[r.parameterId].codec.decode(r.raw.value).Some?
  }

  /** The value that a good reading leaves. */
  ghost predicate Holds(value: RP.BackupValue, r: Reading, profile: Profile) {
    && r.raw == Some(value.raw) && r.parameterId in profile.parameters
    && var parameter := profile.parameters[r.parameterId];
       && parameter.codec.decode(value.raw) == Some(value.engineering)
       && value.code == parameter.code && value.quantity == parameter.quantity && value.unit == parameter.unit && value.quality == RP.Good
  }

  /** A capture begins exactly under a connected session that knows its profile and its device. */
  lemma AvailableExactlyWhen(session: RP.SessionSnapshot)
    ensures SessionAvailable(session) <==> session.connected && session.profileHash != "" && session.fingerprint != ""
  {
  }

  lemma SelectedExactlyWhen(profile: Profile, id: ParameterId)
    ensures id in SelectedSet(profile) <==> Wanted(profile, id)
  {
  }

  lemma SteadyExactlyWhen(a: RP.SessionSnapshot, b: RP.SessionSnapshot)
    ensures SameBackupContext(a, b) <==> Steady(a, b)
  {
  }

  lemma FailsExactlyWhen(r: Reading, before: RP.SessionSnapshot, profile: Profile, reason: ReadFailure)
    requires r.parameterId in profile.parameters
    ensures FailureOf(r, before, profile) == Some(reason) <==> Fails(r, before, profile, reason)
    ensures FailureOf(r, before, profile).None? <==> Good(r, before, profile)
  {
  }

  lemma {:induction false} ErrorsMean(readings: seq<Reading>, before: RP.SessionSnapshot, profile: Profile, e: ReadError)
    requires Known(readings, profile)
    ensures e in ErrorsOf(readings, before, profile) <==>
            exists i :: 0 <= i < |readings| && readings[i].parameterId == e.parameterId && Fails(readings[i], before, profile, e.reason)
  {
    hide Fails, FailureOf;
    if readings != [] {
      var n := |readings| - 1;
      ErrorsMean(readings[..n], before, profile, e);
      FailsExactlyWhen(readings[n], before, profile, e.reason);
      if i :| 0 <= i < |readings| && readings[i].parameterId == e.parameterId && Fails(readings[i], before, profile, e.reason) {
        if i < n { assert readings[..n][i] == readings[i]; }
      }
      if i :| 0 <= i < n && readings[..n][i].parameterId == e.parameterId && Fails(readings[..n][i], before, profile, e.reason) {
        assert readings[i] == readings[..n][i];
      }
    }
  }

  /** Every parameter read is wanted, none is read twice, and each is read as the profile says. */
  lemma ReadingsMean(backup: RP.Backup, errors: seq<ReadError>, readings: seq<Reading>, before: RP.SessionSnapshot,
                     last: RP.SessionSnapshot, profile: ValidatedProfile, backupId: nat, firstRequest: nat)
    requires IsCapture(backup, errors, readings, before, last, profile, backupId, firstRequest)
    ensures forall i :: 0 <= i < |readings| ==> Wanted(profile, readings[i].parameterId) && Addressed(readings[i], before, profile)
    ensures forall i, j :: 0 <= i < j < |readings| ==> readings[i].parameterId != readings[j].parameterId
    ensures forall i :: 0 <= i < |readings| - 1 && readings[i].raw.Some? ==> Steady(before, readings[i].after)
  {
    hide TextOrder.InTextOrder, ValuesOf, ErrorsOf, SameBackupContext;
    VisitsAreDistinct(readings, profile, before, firstRequest);
    var ids := TextOrder.InTextOrder(SelectedSet(profile));
    forall i | 0 <= i < |readings|
      ensures Wanted(profile, readings[i].parameterId) && Addressed(readings[i], before, profile)
      ensures i < |readings| - 1 && readings[i].raw.Some? ==> Steady(before, readings[i].after)
    {
      assert ids[i] in ids && Visited(readings[i], ids[i], before, profile, SaturatingAdd(firstRequest, i, U64_MAX));
      SteadyExactlyWhen(before, readings[i].after);
    }
  }

  lemma GoodExactlyWhen(readings: seq<Reading>, before: RP.SessionSnapshot, profile: Profile)
    requires Known(readings, profile)
    ensures forall i :: 0 <= i < |readings| ==> (FailureOf(readings[i], before, profile).None? <==> Good(readings[i], before, profile))
  {
    hide FailureOf, Good;
    forall i | 0 <= i < |readings| ensures FailureOf(readings[i], before, profile).None? <==> Good(readings[i], before, profile) {
      FailsExactlyWhen(readings[i], before, profile, ReadFailed);
    }
  }

  /** A backup holds exactly the values of its good readings. */
  lemma ValuesMean(backup: RP.Backup, errors: seq<ReadError>, readings: seq<Reading>, before: RP.SessionSnapshot,
                   last: RP.SessionSnapshot, profile: ValidatedProfile, backupId: nat, firstRequest: nat)
    requires IsCapture(backup, errors, readings, before, last, profile, backupId, firstRequest)
    ensures forall i :: 0 <= i < |readings| && Good(readings[i], before, profile) ==>
              readings[i].parameterId in backup.values && Holds(backup.values[readings[i].parameterId], readings[i], profile)
    ensures forall id :: id in backup.values ==>
              exists i :: 0 <= i < |readings| && readings[i].parameterId == id && Good(readings[i], before, profile)
  {
    hide Good, FailureOf, ValueOf, Holds, TextOrder.InTextOrder, ValuesOf, ErrorsOf, Visits, Exhausted, SameBackupContext, ContributionOf;
    VisitsAreDistinct(readings, profile, before, firstRequest);
    ValuesAreContributions(readings, before, profile);
    GoodExactlyWhen(readings, before, profile);
    forall i | 0 <= i < |readings| && Good(readings[i], before, profile)
      ensures Holds(ContributionOf(readings[i], before, profile), readings[i], profile)
    {
      GoodHolds(readings[i], before, profile);
    }
  }

  /** Its errors are exactly the reasons why the other readings are not good, and one more if the session has changed
      at last. */
  lemma CaptureErrorsMean(backup: RP.Backup, errors: seq<ReadError>, readings: seq<Reading>, before: RP.SessionSnapshot,
                   last: RP.SessionSnapshot, profile: ValidatedProfile, backupId: nat, firstRequest: nat)
    requires IsCapture(backup, errors, readings, before, last, profile, backupId, firstRequest)
    ensures forall e :: e in errors <==>
              || (!Steady(before, last) && e == ReadError("backup.session", SessionChanged))
              || exists i :: 0 <= i < |readings| && readings[i].parameterId == e.parameterId && Fails(readings[i], before, profile, e.reason)
  {
    hide Fails, Steady, ValuesOf, ErrorsOf, Visits, Exhausted, SameBackupContext;
    SteadyExactlyWhen(before, last);
    forall e
      ensures e in ErrorsOf(readings, before, profile) <==>
              exists i :: 0 <= i < |readings| && readings[i].parameterId == e.parameterId && Fails(readings[i], before, profile, e.reason)
    {
      ErrorsMean(readings, before, profile, e);
    }
  }

  /** It is complete exactly if every wanted parameter was read well and the session is still the same; and it names
      the profile and the device it is of. */
  lemma CompletenessMeans(backup: RP.Backup, errors: seq<ReadError>, readings: seq<Reading>, before: RP.SessionSnapshot,
                   last: RP.SessionSnapshot, profile: ValidatedProfile, backupId: nat, firstRequest: nat)
    requires IsCapture(backup, errors, readings, before, last, profile, backupId, firstRequest)
    ensures backup.complete <==>
            && Steady(before, last)
            && forall id :: Wanted(profile, id) ==>
                 exists i :: 0 <= i < |readings| && readings[i].parameterId == id && Good(readings[i], before, profile)
    ensures backup.backupId == backupId && backup.profileId == profile.profileId && backup.profileRevision == profile.revision
    ensures backup.profileHash == profile.hash && backup.fingerprint == before.fingerprint
  {
    hide Good, Steady, FailureOf, Holds, TextOrder.InTextOrder, ValuesOf, ErrorsOf, Visits, Exhausted, SameBackupContext, Wanted;
    CompleteExactlyWhen(backup, errors, readings, before, last, profile, backupId, firstRequest);
    VisitsAreDistinct(readings, profile, before, firstRequest);
    SteadyExactlyWhen(before, last);
    ReadingsMean(backup, errors, readings, before, last, profile, backupId, firstRequest);
    ValuesMean(backup, errors, readings, before, last, profile, backupId, firstRequest);
    GoodExactlyWhen(readings, before, profile);
    EveryWantedIsGood(backup, readings, before, profile);
  }

  lemma GoodHolds(r: Reading, before: RP.SessionSnapshot, profile: Profile)
    requires Good(r, before, profile) && FailureOf(r, before, profile).None?
    ensures Holds(ContributionOf(r, before, profile), r, profile)
  {
  }

  /** All readings are good exactly if every wanted parameter has a good one, provided that complete captures read
      everything wanted. */
  lemma EveryWantedIsGood(backup: RP.Backup, readings: seq<Reading>, before: RP.SessionSnapshot, profile: Profile)
    requires Known(readings, profile) && DistinctReadings(readings)
    requires forall i :: 0 <= i < |readings| ==> Wanted(profile, readings[i].parameterId)
    requires forall i :: 0 <= i < |readings| ==> (FailureOf(readings[i], before, profile).None? <==> Good(readings[i], before, profile))
    requires forall id :: id in backup.values ==>
               exists i :: 0 <= i < |readings| && readings[i].parameterId == id && Good(readings[i], before, profile)
    requires backup.complete ==> Flawless(readings, before, profile) && backup.values.Keys == SelectedSet(profile)
    ensures (forall id :: Wanted(profile, id) ==>
               exists i :: 0 <= i < |readings| && readings[i].parameterId == id && Good(readings[i], before, profile))
            ==> Flawless(readings, before, profile)
    ensures backup.complete ==>
              forall id :: Wanted(profile, id) ==>
                exists i :: 0 <= i < |readings| && readings[i].parameterId == id && Good(readings[i], before, profile)
  {
    hide Good, FailureOf;
    if forall id :: Wanted(profile, id) ==>
         exists i :: 0 <= i < |readings| && readings[i].parameterId == id && Good(readings[i], before, profile)
    {
      forall i | 0 <= i < |readings| ensures FailureOf(readings[i], before, profile).None? {
        var j :| 0 <= j < |readings| && readings[j].parameterId == readings[i].parameterId && Good(readings[j], before, profile);
        assert i == j;
      }
    }
    if backup.complete {
      forall id | Wanted(profile, id)
        ensures exists i :: 0 <= i < |readings| && readings[i].parameterId == id && Good(readings[i], before, profile)
      {
        assert id in SelectedSet(profile);
      }
    }
  }
}
