/** Capturing a backup: one read per selected parameter, under one unchanged session. */
module Backups {
  import opened Domain
  import Modbus
  import opened Profiles
  import TextOrder
  import RP = RestorePlanning
  import Sorting

  const MAX_BACKUP_VALUES := 20_000

  datatype BackupRequest = BackupRequest(
    requestId: nat, sessionId: nat, slaveId: nat, function_: Modbus.Function, block: Modbus.RegisterBlock)

  datatype Event =
    | Snapshot(session: RP.SessionSnapshot)
    | ProfileLookup(hash: string, profile: Option<ValidatedProfile>)
    | BusReadDone(request: BackupRequest, value: Option<RawRegisters>)

  datatype ReadFailure = ReadFailed | SessionChanged | Undecodable

  datatype ReadError = ReadError(parameterId: ParameterId, reason: ReadFailure)

  datatype BackupError = SessionUnavailable | ProfileUnavailable | TooManyValues

  datatype CaptureResult = Captured(backup: RP.Backup, errors: seq<ReadError>) | NotCaptured(error: BackupError)

  datatype Outcome = Value(value: RP.BackupValue) | Failure(failure: ReadFailure)

  /** One visited parameter: the answer of the bus and, if there was one, the session right after it. */
  datatype Reading = Reading(parameterId: ParameterId, request: BackupRequest, raw: Option<RawRegisters>, after: RP.SessionSnapshot)

  predicate SessionAvailable(session: RP.SessionSnapshot) {
    session.connected && session.profileHash != "" && session.fingerprint != ""
  }

  predicate SameBackupContext(left: RP.SessionSnapshot, right: RP.SessionSnapshot) {
    && left.connected && right.connected
    && left.sessionId == right.sessionId && left.fingerprint == right.fingerprint
    && left.profileHash == right.profileHash && left.slaveId == right.slaveId
  }

  function SelectedSet(profile: Profile): (ids: set<ParameterId>) {
    set id | id in profile.parameters && profile.parameters[id].includedInBackup
  }

  lemma SelectedAreParameters(profile: Profile)
    ensures SelectedSet(profile) <= profile.parameters.Keys
  {
  }

  lemma SelectedOnce(profile: Profile)
    ensures SelectedSet(profile) <= profile.parameters.Keys
    ensures |TextOrder.InTextOrder(SelectedSet(profile))| == |SelectedSet(profile)|
  {
    var listed := TextOrder.InTextOrder(SelectedSet(profile));
    Sorting.DistinctAsSet(listed, SelectedSet(profile));
    assert |multiset(listed)| == |multiset(SelectedSet(profile))|;
  }

  function ValueOf(parameter: Parameter, raw: RawRegisters, engineering: EngineeringValue): RP.BackupValue {
    RP.BackupValue(parameter.code, raw, engineering, parameter.quantity, parameter.unit, RP.Good)
  }

  // ---------------------------------------------------------------- what readings amount to

  /** Why a reading contributes no value; None when it contributes one. */
  function FailureOf(r: Reading, before: RP.SessionSnapshot, profile: Profile): Option<ReadFailure>
    requires r.parameterId in profile.parameters
  {
    if r.raw.None? then Some(ReadFailed)
    else if !SameBackupContext(before, r.after) then Some(SessionChanged)
    else if profile.parameters[r.parameterId].codec.decode(r.raw.value).None? then Some(Undecodable)
    else None
  }

  /** The read the profile prescribes for `id`, addressed to the slave the capture began with. */
  predicate Visited(r: Reading, id: ParameterId, before: RP.SessionSnapshot, profile: Profile, requestId: nat) {
    && r.parameterId == id && id in profile.parameters
    && var block := profile.parameters[id].block;
       r.request == BackupRequest(requestId, before.sessionId, before.slaveId, Modbus.ReadFunction(block.table), block)
  }

  predicate StopsAt(r: Reading, before: RP.SessionSnapshot) {
    r.raw.Some? && !SameBackupContext(before, r.after)
  }

  /** The readings visit a prefix of `ids`, in order and with new request ids; none but the last stops. */
  ghost predicate Visits(readings: seq<Reading>, ids: seq<ParameterId>, before: RP.SessionSnapshot, profile: Profile, firstRequest: nat) {
    && |readings| <= |ids|
    && (forall i :: 0 <= i < |readings| ==> Visited(readings[i], ids[i], before, profile, SaturatingAdd(firstRequest, i, U64_MAX)))
    && (forall i :: 0 <= i < |readings| - 1 ==> !StopsAt(readings[i], before))
  }

  /** Everything was visited, or the last reading found the session changed. */
  ghost predicate Exhausted(readings: seq<Reading>, ids: seq<ParameterId>, before: RP.SessionSnapshot) {
    |readings| == |ids| || (readings != [] && StopsAt(readings[|readings| - 1], before))
  }

  ghost predicate Known(readings: seq<Reading>, profile: Profile) {
    forall i :: 0 <= i < |readings| ==> readings[i].parameterId in profile.parameters
  }

  function ErrorsOf(readings: seq<Reading>, before: RP.SessionSnapshot, profile: Profile): (errors: seq<ReadError>)
    requires Known(readings, profile)
  {
    if readings == [] then []
    else
      var n := |readings| - 1;
      ErrorsOf(readings[..n], before, profile) + ErrorsOfOne(readings[n], before, profile)
  }

  function ErrorsOfOne(r: Reading, before: RP.SessionSnapshot, profile: Profile): (errors: seq<ReadError>)
    requires r.parameterId in profile.parameters
  {
    var failure := FailureOf(r, before, profile);
    if failure.Some? then [ReadError(r.parameterId, failure.value)] else []
  }

  function WithValue(values: map<ParameterId, RP.BackupValue>, r: Reading, before: RP.SessionSnapshot, profile: Profile)
    : map<ParameterId, RP.BackupValue>
    requires r.parameterId in profile.parameters
  {
    if FailureOf(r, before, profile).Some? then values
    else
      var parameter := profile.parameters[r.parameterId];
      values[r.parameterId := ValueOf(parameter, r.raw.value, parameter.codec.decode(r.raw.value).value)]
  }

  function ValuesOf(readings: seq<Reading>, before: RP.SessionSnapshot, profile: Profile): (values: map<ParameterId, RP.BackupValue>)
    requires Known(readings, profile)
  {
    if readings == [] then map[]
    else
      var n := |readings| - 1;
      WithValue(ValuesOf(readings[..n], before, profile), readings[n], before, profile)
  }

  function EventsOf(r: Reading): seq<Event> {
    [BusReadDone(r.request, r.raw)] + if r.raw.Some? then [Snapshot(r.after)] else []
  }

  function LogOf(readings: seq<Reading>): seq<Event> {
    if readings == [] then [] else LogOf(readings[..|readings| - 1]) + EventsOf(readings[|readings| - 1])
  }

  /** The errors of a whole capture: those of its readings, and one more if the session changed at last. */
  function AllErrors(readings: seq<Reading>, before: RP.SessionSnapshot, last: RP.SessionSnapshot, profile: Profile): seq<ReadError>
    requires Known(readings, profile)
  {
    ErrorsOf(readings, before, profile)
    + if SameBackupContext(before, last) then [] else [ReadError("backup.session", SessionChanged)]
  }

  /** The backup `readings` amount to. */
  ghost predicate CaptureOf(backup: RP.Backup, errors: seq<ReadError>, readings: seq<Reading>, before: RP.SessionSnapshot,
                            last: RP.SessionSnapshot, profile: Profile, backupId: nat)
  {
    && Known(readings, profile)
    && errors == AllErrors(readings, before, last, profile)
    && backup == RP.Backup(backupId, profile.profileId, profile.revision, profile.hash, before.fingerprint, errors == [],
                           ValuesOf(readings, before, profile))
  }

  /** `backup` is what some capture under `profile` returned. */
  ghost predicate IsCapture(backup: RP.Backup, errors: seq<ReadError>, readings: seq<Reading>, before: RP.SessionSnapshot,
                            last: RP.SessionSnapshot, profile: ValidatedProfile, backupId: nat, firstRequest: nat)
  {
    && Visits(readings, TextOrder.InTextOrder(SelectedSet(profile)), before, profile, firstRequest)
    && Exhausted(readings, TextOrder.InTextOrder(SelectedSet(profile)), before)
    && CaptureOf(backup, errors, readings, before, last, profile, backupId)
  }

  lemma {:induction false} VisitsAreKnown(readings: seq<Reading>, ids: seq<ParameterId>, before: RP.SessionSnapshot, profile: Profile,
                                          firstRequest: nat)
    requires Visits(readings, ids, before, profile, firstRequest)
    ensures Known(readings, profile)
  {
    forall i | 0 <= i < |readings| ensures readings[i].parameterId in profile.parameters {
      assert Visited(readings[i], ids[i], before, profile, SaturatingAdd(firstRequest, i, U64_MAX));
    }
  }

  /** One more reading, and what it adds. */
  lemma OneMore(readings: seq<Reading>, r: Reading, ids: seq<ParameterId>, before: RP.SessionSnapshot, profile: Profile, firstRequest: nat)
    requires Visits(readings, ids, before, profile, firstRequest) && |readings| < |ids|
    requires readings == [] || !StopsAt(readings[|readings| - 1], before)
    requires Visited(r, ids[|readings|], before, profile, SaturatingAdd(firstRequest, |readings|, U64_MAX))
    ensures Visits(readings + [r], ids, before, profile, firstRequest)
    ensures Known(readings, profile) && Known(readings + [r], profile)
    ensures LogOf(readings + [r]) == LogOf(readings) + EventsOf(r)
    ensures ErrorsOf(readings + [r], before, profile) == ErrorsOf(readings, before, profile) + ErrorsOfOne(r, before, profile)
    ensures ValuesOf(readings + [r], before, profile) == WithValue(ValuesOf(readings, before, profile), r, before, profile)
  {
    hide Visited, StopsAt, FailureOf, SaturatingAdd;
    VisitsAreKnown(readings, ids, before, profile, firstRequest);
    VisitedIsKnown(r, ids[|readings|], before, profile, SaturatingAdd(firstRequest, |readings|, U64_MAX));
    assert (readings + [r])[..|readings|] == readings;
  }

  /** What the outcome of one reading does to the values and the errors. */
  lemma OutcomeMeans(outcome: Outcome, r: Reading, values: map<ParameterId, RP.BackupValue>, before: RP.SessionSnapshot, profile: Profile)
    requires r.parameterId in profile.parameters
    requires outcome.Failure? ==> FailureOf(r, before, profile) == Some(outcome.failure)
    requires outcome.Value? ==>
               && FailureOf(r, before, profile).None?
               && var codec := profile.parameters[r.parameterId].codec;
                  outcome.value == ValueOf(profile.parameters[r.parameterId], r.raw.value, codec.decode(r.raw.value).value)
    ensures ErrorsOfOne(r, before, profile) == if outcome.Failure? then [ReadError(r.parameterId, outcome.failure)] else []
    ensures WithValue(values, r, before, profile) == if outcome.Value? then values[r.parameterId := outcome.value] else values
  {
  }

  lemma Associates<T>(a: seq<T>, b: seq<T>, c: seq<T>)
    ensures a + b + c == a + (b + c)
  {
  }

  lemma NoReadings(ids: seq<ParameterId>, before: RP.SessionSnapshot, profile: Profile, firstRequest: nat)
    ensures Visits([], ids, before, profile, firstRequest) && Known([], profile)
    ensures ValuesOf([], before, profile) == map[] && ErrorsOf([], before, profile) == [] && LogOf([]) == []
  {
  }

  lemma VisitedIsKnown(r: Reading, id: ParameterId, before: RP.SessionSnapshot, profile: Profile, requestId: nat)
    requires Visited(r, id, before, profile, requestId)
    ensures r.parameterId == id && id in profile.parameters
  {
  }

  lemma Assembled(readings: seq<Reading>, errors: seq<ReadError>, before: RP.SessionSnapshot, last: RP.SessionSnapshot,
                  profile: ValidatedProfile, backupId: nat, firstRequest: nat)
    requires Visits(readings, TextOrder.InTextOrder(SelectedSet(profile)), before, profile, firstRequest)
    requires Exhausted(readings, TextOrder.InTextOrder(SelectedSet(profile)), before)
    requires Known(readings, profile)
    requires errors == ErrorsOf(readings, before, profile)
                       + if SameBackupContext(before, last) then [] else [ReadError("backup.session", SessionChanged)]
    ensures IsCapture(RP.Backup(backupId, profile.profileId, profile.revision, profile.hash, before.fingerprint, errors == [],
                                ValuesOf(readings, before, profile)),
                      errors, readings, before, last, profile, backupId, firstRequest)
  {
    hide Visits, Exhausted, Known, ErrorsOf, ValuesOf, SameBackupContext;
  }

  // ---------------------------------------------------------------- the coordinator

  /** Every answer of the ports is arbitrary; the log remembers the calls. */
  class BackupCoordinator {
    ghost var log: seq<Event>
    var nextBackupId: nat
    var nextRequestId: nat

    constructor ()
      ensures log == [] && nextBackupId == 1 && nextRequestId == 1
    {
      log, nextBackupId, nextRequestId := [], 1, 1;
    }

    method SessionSnapshot() returns (session: RP.SessionSnapshot)
      modifies this`log
      ensures log == old(log) + [Snapshot(session)]
    {
      session := *;
      log := log + [Snapshot(session)];
    }

    method ActiveProfileByHash(hash: string) returns (profile: Option<ValidatedProfile>)
      modifies this`log
      ensures log == old(log) + [ProfileLookup(hash, profile)]
    {
      profile := *;
      log := log + [ProfileLookup(hash, profile)];
    }

    method ReadParameterRaw(parameter: Parameter, sessionId: nat, slaveId: nat) returns (value: Option<RawRegisters>, ghost request: BackupRequest)
      requires parameter.block.ValidFor(Modbus.ReadFunction(parameter.block.table)) && nextRequestId <= U64_MAX
      modifies this`log, this`nextRequestId
      ensures nextRequestId == SaturatingAdd(old(nextRequestId), 1, U64_MAX)
      ensures request == BackupRequest(old(nextRequestId), sessionId, slaveId, Modbus.ReadFunction(parameter.block.table), parameter.block)
      ensures log == old(log) + [BusReadDone(request, value)]
    {
      var read := BackupRequest(nextRequestId, sessionId, slaveId, Modbus.ReadFunction(parameter.block.table), parameter.block);
      nextRequestId := SaturatingAdd(nextRequestId, 1, U64_MAX);
      value := *;
      request := read;
      log := log + [BusReadDone(read, value)];
    }

    /** Reads one parameter; a value needs an answer, an unchanged session and a meaning. */
    method ReadOne(id: ParameterId, before: RP.SessionSnapshot, profile: ValidatedProfile)
      returns (outcome: Outcome, ghost r: Reading)
      requires id in profile.parameters && nextRequestId <= U64_MAX
      modifies this`log, this`nextRequestId
      ensures Visited(r, id, before, profile, old(nextRequestId))
      ensures StopsAt(r, before) <==> outcome == Failure(SessionChanged)
      ensures outcome.Failure? ==> FailureOf(r, before, profile) == Some(outcome.failure)
      ensures outcome.Value? ==>
                && FailureOf(r, before, profile).None?
                && outcome.value == ValueOf(profile.parameters[id], r.raw.value, profile.parameters[id].codec.decode(r.raw.value).value)
      ensures log == old(log) + EventsOf(r)
      ensures nextRequestId == SaturatingAdd(old(nextRequestId), 1, U64_MAX)
    {
      var parameter := profile.parameters[id];
      var raw;
      ghost var request;
      raw, request := ReadParameterRaw(parameter, before.sessionId, before.slaveId);
      r := Reading(id, request, raw, before);
      if raw.None? {
        return Failure(ReadFailed), r;
      }
      var after := SessionSnapshot();
      r := r.(after := after);
      if !SameBackupContext(before, after) {
        return Failure(SessionChanged), r;
      }
      var engineering := parameter.codec.decode(raw.value);
      if engineering.None? {
        return Failure(Undecodable), r;
      }
      return Value(ValueOf(parameter, raw.value, engineering.value)), r;
    }

    /** Visits the parameters in order until all are visited or the session has changed. */
    method ReadAll(ids: seq<ParameterId>, before: RP.SessionSnapshot, profile: ValidatedProfile)
      returns (values: map<ParameterId, RP.BackupValue>, errors: seq<ReadError>, ghost readings: seq<Reading>)
      requires forall id :: id in ids ==> id in profile.parameters
      requires nextRequestId <= U64_MAX
      modifies this`log, this`nextRequestId
      ensures Visits(readings, ids, before, profile, old(nextRequestId)) && Exhausted(readings, ids, before)
      ensures Known(readings, profile)
      ensures values == ValuesOf(readings, before, profile) && errors == ErrorsOf(readings, before, profile)
      ensures log == old(log) + LogOf(readings)
      ensures nextRequestId == SaturatingAdd(old(nextRequestId), |readings|, U64_MAX) && nextRequestId <= U64_MAX
    {
      hide Visits, Visited, ErrorsOf, ErrorsOfOne, ValuesOf, WithValue, FailureOf, StopsAt, LogOf, EventsOf, Known, SameBackupContext, ValueOf;
      ghost var first := nextRequestId;
      values, errors, readings := map[], [], [];
      NoReadings(ids, before, profile, first);
      for i := 0 to |ids|
        invariant |readings| == i && Visits(readings, ids, before, profile, first) && Known(readings, profile)
        invariant readings == [] || !StopsAt(readings[|readings| - 1], before)
        invariant values == ValuesOf(readings, before, profile) && errors == ErrorsOf(readings, before, profile)
        invariant log == old(log) + LogOf(readings)
        invariant nextRequestId == SaturatingAdd(first, i, U64_MAX)
      {
        var outcome;
        ghost var r;
        outcome, r := ReadOne(ids[i], before, profile);
        OneMore(readings, r, ids, before, profile, first);
        VisitedIsKnown(r, ids[i], before, profile, SaturatingAdd(first, i, U64_MAX));
        OutcomeMeans(outcome, r, values, before, profile);
        assert errors + [] == errors;
        assert old(log) + LogOf(readings) + EventsOf(r) == old(log) + LogOf(readings + [r]) by {
          Associates(old(log), LogOf(readings), EventsOf(r));
        }
        readings := readings + [r];
        if outcome.Failure? {
          errors := errors + [ReadError(ids[i], outcome.failure)];
          if outcome.failure == SessionChanged {
            break;
          }
        } else {
          values := values[ids[i] := outcome.value];
        }
      }
    }

    /** A backup of every selected parameter, complete exactly if nothing went wrong. */
    method Capture()
      returns (result: CaptureResult, ghost before: RP.SessionSnapshot, ghost profile: Option<ValidatedProfile>, ghost readings: seq<Reading>,
               ghost last: RP.SessionSnapshot)
      requires nextRequestId <= U64_MAX && nextBackupId <= U128_MAX
      modifies this
      ensures nextRequestId <= U64_MAX && nextBackupId <= U128_MAX
      ensures result == NotCaptured(SessionUnavailable) <==> !SessionAvailable(before)
      ensures result == NotCaptured(ProfileUnavailable) <==>
              SessionAvailable(before) && (profile.None? || profile.value.hash != before.profileHash)
      ensures result == NotCaptured(TooManyValues) <==>
              && SessionAvailable(before) && profile.Some? && profile.value.hash == before.profileHash
              && |SelectedSet(profile.value)| > 20_000
      ensures result.NotCaptured? ==> nextBackupId == old(nextBackupId) && nextRequestId == old(nextRequestId)
      ensures result.Captured? ==>
                && profile.Some?
                && IsCapture(result.backup, result.errors, readings, before, last, profile.value, old(nextBackupId), old(nextRequestId))
                && log == old(log) + [Snapshot(before), ProfileLookup(before.profileHash, profile)] + LogOf(readings) + [Snapshot(last)]
                && nextBackupId == SaturatingAdd(old(nextBackupId), 1, U128_MAX)
    {
      hide Visits, Visited, Known, ErrorsOf, ValuesOf, LogOf, Exhausted, SelectedSet, SameBackupContext, SessionAvailable, IsCapture,
           TextOrder.InTextOrder;
      profile, readings, last := None, [], *;
      var session := SessionSnapshot();
      before := session;
      if !SessionAvailable(session) {
        return NotCaptured(SessionUnavailable), before, profile, readings, last;
      }
      var active := ActiveProfileByHash(session.profileHash);
      profile := active;
      assert log == old(log) + [Snapshot(before), ProfileLookup(before.profileHash, profile)];
      if active.None? || active.value.hash != session.profileHash {
        return NotCaptured(ProfileUnavailable), before, profile, readings, last;
      }
      SelectedOnce(active.value);
      var selected := TextOrder.InTextOrder(SelectedSet(active.value));
      if |selected| > MAX_BACKUP_VALUES {
        return NotCaptured(TooManyValues), before, profile, readings, last;
      }
      var values, errors;
      values, errors, readings := ReadAll(selected, session, active.value);
      var final := SessionSnapshot();
      last := final;
      if !SameBackupContext(session, final) {
        errors := errors + [ReadError("backup.session", SessionChanged)];
      }
      Assembled(readings, errors, session, final, active.value, nextBackupId, old(nextRequestId));
      var backup := RP.Backup(nextBackupId, active.value.profileId, active.value.revision, active.value.hash, session.fingerprint,
                              errors == [], values);
      nextBackupId := SaturatingAdd(nextBackupId, 1, U128_MAX);
      result := Captured(backup, errors);
    }
  }

  // ---------------------------------------------------------------- what a captured backup is worth

  ghost predicate Flawless(readings: seq<Reading>, before: RP.SessionSnapshot, profile: Profile)
    requires Known(readings, profile)
  {
    forall i :: 0 <= i < |readings| ==> FailureOf(readings[i], before, profile).None?
  }

  lemma {:induction false} NoErrorsExactlyWhenFlawless(readings: seq<Reading>, before: RP.SessionSnapshot, profile: Profile)
    requires Known(readings, profile)
    ensures ErrorsOf(readings, before, profile) == [] <==> Flawless(readings, before, profile)
  {
    hide FailureOf;
    if readings != [] {
      NoErrorsExactlyWhenFlawless(readings[..|readings| - 1], before, profile);
    }
  }

  ghost predicate DistinctReadings(readings: seq<Reading>) {
    forall i, j :: 0 <= i < j < |readings| ==> readings[i].parameterId != readings[j].parameterId
  }

  /** The value `r` contributes, if it does not fail. */
  function ContributionOf(r: Reading, before: RP.SessionSnapshot, profile: Profile): RP.BackupValue
    requires r.parameterId in profile.parameters && FailureOf(r, before, profile).None?
  {
    var parameter := profile.parameters[r.parameterId];
    ValueOf(parameter, r.raw.value, parameter.codec.decode(r.raw.value).value)
  }

  /** The values are exactly the contributions of the readings that did not fail. */
  lemma {:induction false} ValuesAreContributions(readings: seq<Reading>, before: RP.SessionSnapshot, profile: Profile)
    requires Known(readings, profile) && DistinctReadings(readings)
    ensures forall i :: 0 <= i < |readings| && FailureOf(readings[i], before, profile).None? ==>
              && readings[i].parameterId in ValuesOf(readings, before, profile)
              && ValuesOf(readings, before, profile)[readings[i].parameterId] == ContributionOf(readings[i], before, profile)
    ensures forall id :: id in ValuesOf(readings, before, profile) ==>
              exists i :: 0 <= i < |readings| && readings[i].parameterId == id && FailureOf(readings[i], before, profile).None?
  {
    hide FailureOf;
    if readings != [] {
      var n := |readings| - 1;
      var front := readings[..n];
      ValuesAreContributions(front, before, profile);
      forall id | id in ValuesOf(readings, before, profile)
        ensures exists i :: 0 <= i < |readings| && readings[i].parameterId == id && FailureOf(readings[i], before, profile).None?
      {
        if id in ValuesOf(front, before, profile) {
          var i :| 0 <= i < n && front[i].parameterId == id && FailureOf(front[i], before, profile).None?;
          assert readings[i] == front[i];
        } else {
          assert readings[n].parameterId == id;
        }
      }
    }
  }

  lemma VisitsAreDistinct(readings: seq<Reading>, profile: Profile, before: RP.SessionSnapshot, firstRequest: nat)
    requires Visits(readings, TextOrder.InTextOrder(SelectedSet(profile)), before, profile, firstRequest)
    ensures DistinctReadings(readings) && Known(readings, profile)
    ensures |readings| <= |TextOrder.InTextOrder(SelectedSet(profile))|
    ensures forall i :: 0 <= i < |readings| ==> readings[i].parameterId == TextOrder.InTextOrder(SelectedSet(profile))[i]
  {
    hide TextOrder.InTextOrder, SelectedSet;
    var ids := TextOrder.InTextOrder(SelectedSet(profile));
    VisitsAreKnown(readings, ids, before, profile, firstRequest);
    forall i | 0 <= i < |readings| ensures readings[i].parameterId == ids[i] {
      assert Visited(readings[i], ids[i], before, profile, SaturatingAdd(firstRequest, i, U64_MAX));
    }
  }

  /** A backup is complete exactly if every selected parameter was read, under one unchanged session, and
      means something; it then holds a value for every selected parameter and no other. */
  lemma CompleteExactlyWhen(backup: RP.Backup, errors: seq<ReadError>, readings: seq<Reading>, before: RP.SessionSnapshot,
                            last: RP.SessionSnapshot, profile: ValidatedProfile, backupId: nat, firstRequest: nat)
    requires IsCapture(backup, errors, readings, before, last, profile, backupId, firstRequest)
    ensures Known(readings, profile)
    ensures backup.complete <==> Flawless(readings, before, profile) && SameBackupContext(before, last)
    ensures backup.complete ==> backup.values.Keys == SelectedSet(profile)
  {
    hide FailureOf, SameBackupContext, TextOrder.InTextOrder, SelectedSet, Visits, ValuesOf, ErrorsOf;
    NoErrorsExactlyWhenFlawless(readings, before, profile);
    VisitsAreDistinct(readings, profile, before, firstRequest);
    ValuesAreContributions(readings, before, profile);
    if backup.complete {
      FlawlessVisitsAll(readings, TextOrder.InTextOrder(SelectedSet(profile)), before, profile);
      forall id ensures id in backup.values <==> id in SelectedSet(profile) {
        if id in SelectedSet(profile) {
          var i :| 0 <= i < |readings| && TextOrder.InTextOrder(SelectedSet(profile))[i] == id;
          assert readings[i].parameterId == id;
        }
      }
    }
  }

  lemma FlawlessVisitsAll(readings: seq<Reading>, ids: seq<ParameterId>, before: RP.SessionSnapshot, profile: Profile)
    requires Known(readings, profile) && Flawless(readings, before, profile) && Exhausted(readings, ids, before)
    ensures |readings| == |ids|
  {
    if readings != [] {
      assert FailureOf(readings[|readings| - 1], before, profile).None?;
    }
  }

  /** A value that was read, decoded and labelled as the profile says. */
  predicate Genuine(value: RP.BackupValue, parameter: Parameter) {
    && parameter.codec.decode(value.raw) == Some(value.engineering)
    && value == ValueOf(parameter, value.raw, value.engineering)
  }

  lemma ContributionsAreGenuine(r: Reading, before: RP.SessionSnapshot, profile: Profile)
    requires r.parameterId in profile.parameters && FailureOf(r, before, profile).None?
    ensures Genuine(ContributionOf(r, before, profile), profile.parameters[r.parameterId])
  {
  }

  lemma GenuineMeansConsistent(value: RP.BackupValue, id: ParameterId, profile: ValidatedProfile)
    requires id in profile.parameters && Genuine(value, profile.parameters[id])
    ensures RP.ValueConsistent(value, profile.parameters[id]) <==> value.raw !in profile.parameters[id].forbiddenRaw
  {
  }

  lemma CapturedValuesAreGenuine(backup: RP.Backup, errors: seq<ReadError>, readings: seq<Reading>, before: RP.SessionSnapshot,
                                 last: RP.SessionSnapshot, profile: ValidatedProfile, backupId: nat, firstRequest: nat, id: ParameterId)
    requires IsCapture(backup, errors, readings, before, last, profile, backupId, firstRequest)
    requires id in backup.values
    ensures id in SelectedSet(profile) && id in profile.parameters && Genuine(backup.values[id], profile.parameters[id])
  {
    hide SameBackupContext, TextOrder.InTextOrder, SelectedSet, Visits, ValuesOf, ErrorsOf, FailureOf, Genuine, ContributionOf;
    VisitsAreDistinct(readings, profile, before, firstRequest);
    ValuesAreContributions(readings, before, profile);
    var i :| 0 <= i < |readings| && readings[i].parameterId == id && FailureOf(readings[i], before, profile).None?;
    assert id == TextOrder.InTextOrder(SelectedSet(profile))[i];
    assert id in TextOrder.InTextOrder(SelectedSet(profile));
    ContributionsAreGenuine(readings[i], before, profile);
  }

  /** Every value of a capture agrees with the profile; planning can object to it only for being a
      forbidden raw value. */
  lemma CapturesAreConsistent(backup: RP.Backup, errors: seq<ReadError>, readings: seq<Reading>, before: RP.SessionSnapshot,
                              last: RP.SessionSnapshot, profile: ValidatedProfile, backupId: nat, firstRequest: nat)
    requires IsCapture(backup, errors, readings, before, last, profile, backupId, firstRequest)
    ensures forall id :: id in backup.values ==> id in SelectedSet(profile) && id in profile.parameters
    ensures RP.BackupConsistent(backup, profile) <==>
            forall id :: id in backup.values ==> backup.values[id].raw !in profile.parameters[id].forbiddenRaw
  {
    hide IsCapture, SelectedSet, Genuine, RP.ValueConsistent;
    forall id | id in backup.values
      ensures id in SelectedSet(profile) && id in profile.parameters
      ensures RP.EntryConsistent(backup, profile, id) <==> backup.values[id].raw !in profile.parameters[id].forbiddenRaw
    {
      CapturedValuesAreGenuine(backup, errors, readings, before, last, profile, backupId, firstRequest, id);
      GenuineMeansConsistent(backup.values[id], id, profile);
    }
  }

  /** A complete capture, whatever the readings behind it. */
  ghost predicate CompleteCapture(backup: RP.Backup, profile: ValidatedProfile) {
    && backup.complete
    && exists errors, readings, before, last, backupId, firstRequest ::
        IsCapture(backup, errors, readings, before, last, profile, backupId, firstRequest)
  }

  lemma CompleteCaptureMeans(backup: RP.Backup, profile: ValidatedProfile)
    requires CompleteCapture(backup, profile)
    ensures backup.values.Keys == SelectedSet(profile) && SelectedSet(profile) <= profile.parameters.Keys
    ensures forall id :: id in backup.values ==> Genuine(backup.values[id], profile.parameters[id])
    ensures backup.profileId == profile.profileId && backup.profileRevision == profile.revision && backup.profileHash == profile.hash
  {
    hide SelectedSet, Genuine, Visits, Exhausted;
    SelectedAreParameters(profile);
    var errors, readings, before, last, backupId, firstRequest :|
      IsCapture(backup, errors, readings, before, last, profile, backupId, firstRequest);
    CompleteExactlyWhen(backup, errors, readings, before, last, profile, backupId, firstRequest);
    forall id | id in backup.values ensures Genuine(backup.values[id], profile.parameters[id]) {
      CapturedValuesAreGenuine(backup, errors, readings, before, last, profile, backupId, firstRequest, id);
    }
  }

  /** Two complete captures under one profile cover the same parameters and are comparable throughout: what
      differs, differs in its raw words. */
  lemma CompleteCapturesCompare(left: RP.Backup, right: RP.Backup, profile: ValidatedProfile, diff: RP.Diff)
    requires CompleteCapture(left, profile) && CompleteCapture(right, profile)
    requires RP.IsDiff(diff, left, right, profile)
    ensures diff.Keys == SelectedSet(profile) == left.values.Keys == right.values.Keys
    ensures forall id :: id in diff ==>
              diff[id].status ==
              (if RP.RestoreEligibility(profile.parameters[id]) != RP.Eligible then RP.NotRestorable
               else if left.values[id].raw == right.values[id].raw then RP.Unchanged
               else RP.Changed)
  {
    hide SelectedSet, CompleteCapture, RP.RestoreEligibility;
    CompleteCaptureMeans(left, profile);
    CompleteCaptureMeans(right, profile);
    forall id | id in diff
      ensures diff[id].status ==
              (if RP.RestoreEligibility(profile.parameters[id]) != RP.Eligible then RP.NotRestorable
               else if left.values[id].raw == right.values[id].raw then RP.Unchanged
               else RP.Changed)
    {
      assert diff[id] == RP.Compare(left, right, Some(profile), id);
      assert Genuine(left.values[id], profile.parameters[id]) && Genuine(right.values[id], profile.parameters[id]);
    }
  }

  /** A device whose eligible words are those of the backup needs no restore, and only such a device: a step
      is planned exactly if an eligible parameter of the restore order reads differently. */
  lemma RestoreNeededExactlyWhen(source: RP.Backup, current: RP.Backup, profile: ValidatedProfile, diff: RP.Diff)
    requires CompleteCapture(source, profile) && CompleteCapture(current, profile)
    requires RP.IsDiff(diff, source, current, profile)
    ensures forall id :: id in RP.SelectedIds(profile.restoreOrder, diff) <==>
              && id in profile.restoreOrder && id in source.values && id in current.values && id in profile.parameters
              && RP.RestoreEligibility(profile.parameters[id]) == RP.Eligible
              && source.values[id].raw != current.values[id].raw
  {
    hide SelectedSet, CompleteCapture, RP.RestoreEligibility, RP.SelectedIds;
    CompleteCaptureMeans(source, profile);
    CompleteCapturesCompare(source, current, profile, diff);
    forall id
      ensures RP.Selected(diff, id) <==>
              && id in source.values && id in current.values && id in profile.parameters
              && RP.RestoreEligibility(profile.parameters[id]) == RP.Eligible
              && source.values[id].raw != current.values[id].raw
    {
      if id in diff {
        assert diff[id] == RP.Compare(source, current, Some(profile), id);
      }
    }
  }
}
