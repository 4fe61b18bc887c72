/** The bounded fault timeline, kept in step with the raw samples of the profile's fault source. */
module Faults {
  import opened Domain

  const MAX_FAULT_EVENTS: nat := 256
  const MAX_FREEZE_FRAME_PARAMETERS: nat := 64

  /** A 64-bit raw value, as the set of its one bits. */
  type Raw = bits: set<nat> | forall bit :: bit in bits ==> bit < 64

  datatype SourceKind = ScalarCode | BitSet

  datatype FaultSource = FaultSource(parameterId: ParameterId, kind: SourceKind, noFault: Raw)

  datatype Definition = Definition(code: string, name: string, freezeFrame: seq<ParameterId>)

  /** `rawBits` is None when the fault source has no parameter or its words cannot be read as raw bits. */
  datatype FaultProfile = FaultProfile(
    source: Option<FaultSource>, rawBits: RawRegisters -> Option<Raw>, faults: map<Raw, Definition>)

  datatype Meaning = Meaning(raw: Raw, definition: Option<Definition>)

  datatype FaultTransition =
    | Raised(current: Meaning)
    | Changed(previous: Meaning, current: Meaning)
    | Cleared(previous: Meaning)
    | BitsChanged(raised: seq<Meaning>, cleared: seq<Meaning>)

  datatype Quality = Good | NotGood

  datatype FreezeValue = FreezeValue(parameterId: ParameterId, raw: Option<RawRegisters>, quality: Quality)

  datatype Completeness = Pending | Complete | Partial | Unavailable

  datatype FreezeFrame = FreezeFrame(
    preFault: seq<FreezeValue>, captured: seq<FreezeValue>, completeness: Completeness, errors: seq<string>)

  /** Which session of which device, under which profile, an event belongs to. */
  datatype FaultIdentity = FaultIdentity(sessionId: nat, fingerprint: Fingerprint, profileHash: string)

  datatype FaultEvent = FaultEvent(
    eventId: nat,
    identity: FaultIdentity,
    transition: FaultTransition,
    firstObservedAt: int,
    lastObservedAt: int,
    acknowledged: bool,
    freezeFrame: FreezeFrame)

  datatype Sample = Sample(raw: RawRegisters, utcTime: int)

  datatype Telemetry = Telemetry(sessionId: nat, parameterId: ParameterId, quality: Quality, sample: Option<Sample>)

  datatype LatestValue = LatestValue(lastGood: Option<RawRegisters>, quality: Quality)

  datatype Detection = Detection(eventId: nat, sessionId: nat, freezeFrameParameters: seq<ParameterId>)

  datatype Observation = Ignored | Undecodable | Quiet | Detected(detection: Detection)

  function MeaningOf(profile: FaultProfile, raw: Raw): Meaning {
    Meaning(raw, if raw in profile.faults then Some(profile.faults[raw]) else None)
  }

  // ---------------------------------------------------------------- bits

  lemma {:induction false} HasLowest(bits: Raw)
    requires bits != {}
    ensures exists bit :: bit in bits && forall other :: other in bits ==> bit <= other
  {
    var some :| some in bits;
    if bits != {some} {
      HasLowest(bits - {some});
      var rest :| rest in bits - {some} && forall other :: other in bits - {some} ==> rest <= other;
      var lowest := Min(some, rest);
      assert lowest in bits;
      forall other | other in bits ensures lowest <= other {
        if other != some { assert other in bits - {some}; }
      }
    }
  }

  /** The number of trailing zeros: the index of the lowest one bit. */
  function TrailingZeros(bits: Raw): (index: nat)
    requires bits != {}
    ensures index in bits && forall other :: other in bits ==> index <= other
  {
    HasLowest(bits);
    var bit :| bit in bits && forall other :: other in bits ==> bit <= other;
    bit
  }

  /** One meaning per one bit, lowest first. */
  function BitMeanings(profile: FaultProfile, bits: Raw): seq<Meaning>
    decreases |bits|
  {
    if bits == {} then []
    else [MeaningOf(profile, {TrailingZeros(bits)})] + BitMeanings(profile, bits - {TrailingZeros(bits)})
  }

  method ListBitMeanings(profile: FaultProfile, bits: Raw) returns (result: seq<Meaning>)
    ensures result == BitMeanings(profile, bits)
  {
    result := [];
    var left: Raw := bits;
    while left != {}
      invariant result + BitMeanings(profile, left) == BitMeanings(profile, bits)
      decreases |left|
    {
      var bit: Raw := {TrailingZeros(left)};
      result := result + [MeaningOf(profile, bit)];
      left := left - bit;
    }
  }

  /** All bits named by a list of meanings. */
  function AllBits(meanings: seq<Meaning>): Raw {
    if meanings == [] then {} else meanings[0].raw + AllBits(meanings[1..])
  }

  lemma {:induction false} MeaningsCoverBits(profile: FaultProfile, bits: Raw)
    ensures AllBits(BitMeanings(profile, bits)) == bits
    decreases |bits|
  {
    if bits != {} {
      var bit := TrailingZeros(bits);
      MeaningsCoverBits(profile, bits - {bit});
      assert BitMeanings(profile, bits)[1..] == BitMeanings(profile, bits - {bit});
      assert bits == {bit} + (bits - {bit});
    }
  }

  // ---------------------------------------------------------------- transitions

  function ScalarTransition(profile: FaultProfile, noFault: Raw, previous: Raw, current: Raw): Option<FaultTransition> {
    if previous == noFault then
      if current == noFault then None else Some(Raised(MeaningOf(profile, current)))
    else if current == noFault then Some(Cleared(MeaningOf(profile, previous)))
    else if previous != current then Some(Changed(MeaningOf(profile, previous), MeaningOf(profile, current)))
    else None
  }

  function BitsetTransition(profile: FaultProfile, previous: Raw, current: Raw): Option<FaultTransition> {
    if current - previous == {} && previous - current == {} then None
    else Some(BitsChanged(BitMeanings(profile, current - previous), BitMeanings(profile, previous - current)))
  }

  function TransitionFor(profile: FaultProfile, source: FaultSource, previous: Raw, current: Raw): Option<FaultTransition> {
    if source.kind.ScalarCode? then ScalarTransition(profile, source.noFault, previous, current)
    else BitsetTransition(profile, previous, current)
  }

  /** The raw value a reader of the timeline infers from a transition. */
  function Apply(noFault: Raw, raw: Raw, transition: FaultTransition): Raw {
    match transition
    case Raised(current) => current.raw
    case Changed(_, current) => current.raw
    case Cleared(_) => noFault
    case BitsChanged(raised, cleared) => (raw + AllBits(raised)) - AllBits(cleared)
  }

  /** There is a transition exactly when the raw value moves, and it tells where to. */
  lemma TransitionsAreFaithful(profile: FaultProfile, source: FaultSource, previous: Raw, current: Raw)
    ensures TransitionFor(profile, source, previous, current).Some? <==> previous != current
    ensures previous != current ==>
              Apply(source.noFault, previous, TransitionFor(profile, source, previous, current).value) == current
  {
    if source.kind.BitSet? {
      MeaningsCoverBits(profile, current - previous);
      MeaningsCoverBits(profile, previous - current);
      assert previous + (current - previous) - (previous - current) == current;
    }
  }

  /** The raw values a reader goes through when applying `history` one by one. */
  function Replay(noFault: Raw, history: seq<FaultTransition>): (values: seq<Raw>)
    ensures |values| == |history|
  {
    if history == [] then []
    else
      var values := Replay(noFault, history[..|history| - 1]);
      values + [Apply(noFault, Latest(noFault, values), history[|history| - 1])]
  }

  function Latest(first: Raw, values: seq<Raw>): Raw {
    if values == [] then first else values[|values| - 1]
  }

  /** `stream` without the values that only repeat the one before; `first` is what came before it. */
  function WithoutRepeats(first: Raw, stream: seq<Raw>): seq<Raw> {
    if stream == [] then []
    else
      var n := |stream| - 1;
      var kept := WithoutRepeats(first, stream[..n]);
      if stream[n] == Latest(first, stream[..n]) then kept else kept + [stream[n]]
  }

  lemma {:induction false} KeptEndsTheSame(first: Raw, stream: seq<Raw>)
    ensures Latest(first, WithoutRepeats(first, stream)) == Latest(first, stream)
  {
    if stream != [] {
      KeptEndsTheSame(first, stream[..|stream| - 1]);
    }
  }

  /** What is kept never repeats itself, and every value of the stream is the kept value its position stands
      for: positions start at `first`, move by at most one, and end at the last kept value. */
  lemma {:induction false} OnlyRepeatsAreDropped(first: Raw, stream: seq<Raw>) returns (positions: seq<nat>)
    ensures |positions| == |stream| + 1 && positions[0] == 0 && positions[|stream|] == |WithoutRepeats(first, stream)|
    ensures forall i :: 0 <= i < |stream| ==> positions[i] <= positions[i + 1] <= positions[i] + 1
    ensures var kept := [first] + WithoutRepeats(first, stream);
            && (forall i :: 0 <= i < |kept| - 1 ==> kept[i] != kept[i + 1])
            && forall i :: 0 <= i <= |stream| ==> positions[i] < |kept| && ([first] + stream)[i] == kept[positions[i]]
  {
    positions := [0];
    if stream != [] {
      var n := |stream| - 1;
      var before := OnlyRepeatsAreDropped(first, stream[..n]);
      KeptEndsTheSame(first, stream[..n]);
      positions := before + [|WithoutRepeats(first, stream)|];
      var earlier := [first] + WithoutRepeats(first, stream[..n]);
      assert earlier <= [first] + WithoutRepeats(first, stream);
      forall i | 0 <= i <= n
        ensures positions[i] < |earlier| && ([first] + stream)[i] == earlier[positions[i]]
      {
        assert positions[i] == before[i] && ([first] + stream)[i] == ([first] + stream[..n])[i];
      }
      assert Latest(first, stream[..n]) == ([first] + stream[..n])[n];
    }
  }

  /** Applying the recorded transitions one by one gives the stream without its repetitions. */
  predicate Tells(noFault: Raw, history: seq<FaultTransition>, stream: seq<Raw>) {
    Replay(noFault, history) == WithoutRepeats(noFault, stream)
  }

  lemma MoveIsTold(noFault: Raw, history: seq<FaultTransition>, stream: seq<Raw>, transition: FaultTransition, raw: Raw)
    requires Tells(noFault, history, stream)
    requires Apply(noFault, Latest(noFault, stream), transition) == raw && raw != Latest(noFault, stream)
    ensures Tells(noFault, history + [transition], stream + [raw]) && Latest(noFault, stream + [raw]) == raw
  {
    KeptEndsTheSame(noFault, stream);
    assert (history + [transition])[..|history|] == history;
    assert (stream + [raw])[..|stream|] == stream;
  }

  lemma RepetitionIsSilent(noFault: Raw, history: seq<FaultTransition>, stream: seq<Raw>, raw: Raw)
    requires Tells(noFault, history, stream) && raw == Latest(noFault, stream)
    ensures Tells(noFault, history, stream + [raw]) && Latest(noFault, stream + [raw]) == raw
  {
    assert (stream + [raw])[..|stream|] == stream;
  }

  // ---------------------------------------------------------------- freeze frames

  function Meanings(transition: FaultTransition): seq<Meaning> {
    match transition
    case Raised(current) => [current]
    case Changed(previous, current) => [previous, current]
    case Cleared(previous) => [previous]
    case BitsChanged(raised, cleared) => raised + cleared
  }

  function FrameOf(profile: FaultProfile, meaning: Meaning): seq<ParameterId> {
    if meaning.raw in profile.faults then
      var listed := profile.faults[meaning.raw].freezeFrame;
      listed[..Min(|listed|, MAX_FREEZE_FRAME_PARAMETERS)]
    else []
  }

  function Frames(profile: FaultProfile, meanings: seq<Meaning>): seq<ParameterId> {
    if meanings == [] then [] else Frames(profile, meanings[..|meanings| - 1]) + FrameOf(profile, meanings[|meanings| - 1])
  }

  /** The first occurrence of every id, in order. */
  function Distinct(ids: seq<ParameterId>): seq<ParameterId> {
    if ids == [] then []
    else
      var n := |ids| - 1;
      var distinct := Distinct(ids[..n]);
      if ids[n] in distinct then distinct else distinct + [ids[n]]
  }

  lemma {:induction false} DistinctMeans(ids: seq<ParameterId>)
    ensures forall id :: id in Distinct(ids) <==> id in ids
    ensures forall i, j :: 0 <= i < j < |Distinct(ids)| ==> Distinct(ids)[i] != Distinct(ids)[j]
    ensures ids != [] ==> Distinct(ids) != [] && Distinct(ids)[0] == ids[0]
  {
    if ids != [] {
      var n := |ids| - 1;
      assert ids == ids[..n] + [ids[n]];
      DistinctMeans(ids[..n]);
    }
  }

  /** One more candidate, as `Push` treats it. */
  lemma PushIsDistinct(seen: seq<ParameterId>, id: ParameterId)
    ensures Cut(Distinct(seen + [id])) == Push(Cut(Distinct(seen)), id)
  {
    assert (seen + [id])[..|seen|] == seen;
    var distinct := Distinct(seen);
    if |distinct| < MAX_FREEZE_FRAME_PARAMETERS {
      assert Cut(distinct) == distinct;
    }
  }

  /** Adds an id that is new, while there is room. */
  function Push(result: seq<ParameterId>, id: ParameterId): seq<ParameterId> {
    if |result| < MAX_FREEZE_FRAME_PARAMETERS && id !in result then result + [id] else result
  }

  lemma {:induction false} DistinctGrows(ids: seq<ParameterId>, more: seq<ParameterId>)
    ensures Distinct(ids) <= Distinct(ids + more)
  {
    if more == [] {
      assert ids + more == ids;
    } else {
      var n := |more| - 1;
      DistinctGrows(ids, more[..n]);
      assert (ids + more)[..|ids| + n] == ids + more[..n];
    }
  }

  /** The parameters to capture: the source, then what the definitions of the transition list, without
      repetition, cut off at the limit. */
  function Capture(profile: FaultProfile, source: ParameterId, transition: FaultTransition): seq<ParameterId> {
    Cut(Distinct(Candidates(profile, source, Meanings(transition))))
  }

  function Candidates(profile: FaultProfile, source: ParameterId, meanings: seq<Meaning>): seq<ParameterId> {
    [source] + Frames(profile, meanings)
  }

  /** What is captured is bounded, free of repetition, led by the source, and complete unless it is full. */
  lemma CaptureIsBoundedAndDistinct(profile: FaultProfile, source: ParameterId, transition: FaultTransition)
    ensures var captured := Capture(profile, source, transition);
            && 0 < |captured| <= MAX_FREEZE_FRAME_PARAMETERS && captured[0] == source
            && (forall i, j :: 0 <= i < j < |captured| ==> captured[i] != captured[j])
            && (forall id :: id in captured ==> id in Candidates(profile, source, Meanings(transition)))
            && (|captured| < MAX_FREEZE_FRAME_PARAMETERS ==> forall id :: id in Candidates(profile, source, Meanings(transition)) ==> id in captured)
  {
    DistinctMeans(Candidates(profile, source, Meanings(transition)));
  }

  function Cut(ids: seq<ParameterId>): seq<ParameterId> {
    ids[..Min(|ids|, MAX_FREEZE_FRAME_PARAMETERS)]
  }

  method FreezeFrameParameters(profile: FaultProfile, source: ParameterId, transition: FaultTransition) returns (result: seq<ParameterId>)
    ensures result == Capture(profile, source, transition)
  {
    hide Distinct, Cut, Push, FrameOf, Meanings;
    var meanings := Meanings(transition);
    result := Push([], source);
    SourceFirst(source);
    ghost var seen := [source];
    for m := 0 to |meanings|
      invariant seen == Candidates(profile, source, meanings[..m])
      invariant result == Cut(Distinct(seen))
    {
      var frame := FrameOf(profile, meanings[m]);
      ghost var before := seen;
      for k := 0 to |frame|
        invariant seen == before + frame[..k]
        invariant result == Cut(Distinct(seen))
      {
        result := Push(result, frame[k]);
        PushIsDistinct(seen, frame[k]);
        seen := seen + [frame[k]];
        if |result| >= MAX_FREEZE_FRAME_PARAMETERS {
          assert frame[..k + 1] == frame[..k] + [frame[k]];
          RestIsCut(profile, source, meanings, seen, m, k + 1);
          return;
        }
      }
      assert frame[..|frame|] == frame;
      assert meanings[..m + 1][..m] == meanings[..m];
    }
    assert meanings[..|meanings|] == meanings;
  }

  lemma SourceFirst(source: ParameterId)
    ensures Push([], source) == Cut(Distinct([source]))
    ensures forall meanings: seq<Meaning>, profile: FaultProfile :: Candidates(profile, source, meanings[..0]) == [source]
  {
    assert Distinct([source]) == [source];
  }

  /** Once the limit is reached, what follows cannot change the result. */
  lemma RestIsCut(profile: FaultProfile, source: ParameterId, meanings: seq<Meaning>, seen: seq<ParameterId>, m: nat, k: nat)
    requires m < |meanings| && k <= |FrameOf(profile, meanings[m])|
    requires seen == Candidates(profile, source, meanings[..m]) + FrameOf(profile, meanings[m])[..k]
    requires |Cut(Distinct(seen))| >= MAX_FREEZE_FRAME_PARAMETERS
    ensures Cut(Distinct(seen)) == Cut(Distinct(Candidates(profile, source, meanings)))
  {
    hide Distinct;
    var frame := FrameOf(profile, meanings[m]);
    assert meanings[..m + 1][..m] == meanings[..m];
    assert frame == frame[..k] + frame[k..];
    var rest := FramesGrow(profile, meanings, m + 1);
    var more := frame[k..] + rest;
    assert seen + more == Candidates(profile, source, meanings);
    DistinctGrows(seen, more);
  }

  lemma {:induction false} FramesGrow(profile: FaultProfile, meanings: seq<Meaning>, m: nat) returns (rest: seq<ParameterId>)
    requires m <= |meanings|
    ensures Frames(profile, meanings) == Frames(profile, meanings[..m]) + rest
    decreases |meanings|
  {
    if m == |meanings| {
      assert meanings[..m] == meanings;
      rest := [];
    } else {
      var n := |meanings| - 1;
      var front := FramesGrow(profile, meanings[..n], m);
      assert meanings[..n][..m] == meanings[..m];
      rest := front + FrameOf(profile, meanings[n]);
    }
  }

  function PreFault(latest: map<ParameterId, LatestValue>, ids: seq<ParameterId>): (values: seq<FreezeValue>)
    ensures |values| == |ids|
    ensures forall i :: 0 <= i < |ids| ==> values[i].parameterId == ids[i]
  {
    seq(|ids|, i requires 0 <= i < |ids| =>
      if ids[i] in latest then FreezeValue(ids[i], latest[ids[i]].lastGood, latest[ids[i]].quality) else FreezeValue(ids[i], None, NotGood))
  }

  function GoodCount(captured: seq<FreezeValue>): (count: nat)
    ensures count <= |captured|
  {
    if captured == [] then 0
    else
      var last := captured[|captured| - 1];
      GoodCount(captured[..|captured| - 1]) + (if last.quality.Good? && last.raw.Some? then 1 else 0)
  }

  function CompletenessOf(expected: nat, captured: seq<FreezeValue>, errors: seq<string>): Completeness {
    if errors == [] && GoodCount(captured) == expected then Complete
    else if GoodCount(captured) == 0 then Unavailable
    else Partial
  }

  // ---------------------------------------------------------------- the tracker

  /** The first event with `id`, if any. */
  function Find(events: seq<FaultEvent>, id: nat): (index: Option<nat>)
    ensures index.Some? ==> index.value < |events| && events[index.value].eventId == id
    ensures index.Some? ==> forall i :: 0 <= i < index.value ==> events[i].eventId != id
    ensures index.None? ==> forall i :: 0 <= i < |events| ==> events[i].eventId != id
  {
    if events == [] then None
    else
      var found := Find(events[..|events| - 1], id);
      if found.Some? then found
      else if events[|events| - 1].eventId == id then Some(|events| - 1)
      else None
  }

  /** The newest events, as many as the timeline keeps. */
  function Newest(events: seq<FaultEvent>): seq<FaultEvent> {
    events[|events| - Min(|events|, MAX_FAULT_EVENTS)..]
  }

  /** The events after event `id` was seen again at `at`. */
  function SeenAgain(events: seq<FaultEvent>, id: nat, at: int): seq<FaultEvent> {
    var found := Find(events, id);
    if found.None? then events else events[found.value := events[found.value].(lastObservedAt := at)]
  }

  /** The id the `n`-th event (from zero) is issued under. */
  function IdOf(n: nat): nat {
    Min(n + 1, U128_MAX)
  }

  /** Event `i` is the one recorded for the transition at the same distance from the end, under its id. */
  ghost predicate Numbered(events: seq<FaultEvent>, history: seq<FaultTransition>) {
    && |events| <= |history|
    && forall i :: 0 <= i < |events| ==>
        && events[i].eventId == IdOf(|history| - |events| + i)
        && events[i].transition == history[|history| - |events| + i]
  }

  lemma OneMoreIsNumbered(events: seq<FaultEvent>, event: FaultEvent, history: seq<FaultTransition>)
    requires history != [] && Numbered(events, history[..|history| - 1])
    requires event.eventId == IdOf(|history| - 1) && event.transition == history[|history| - 1]
    ensures Numbered(events + [event], history)
  {
  }

  lemma SuffixIsNumbered(events: seq<FaultEvent>, history: seq<FaultTransition>, start: nat)
    requires start <= |events| && Numbered(events, history)
    ensures Numbered(events[start..], history)
  {
  }

  lemma SuffixOfSuffix(events: seq<FaultEvent>, start: nat)
    requires start < |events|
    ensures events[start..][1..] == events[start + 1..]
  {
  }

  class FaultTracker {
    var events: seq<FaultEvent>
    var evictedEvents: nat
    var lastRaw: Option<Raw>
    var activeEventId: Option<nat>
    var nextEventId: nat
    /** Every transition ever recorded, and the good samples that were looked at. */
    ghost var history: seq<FaultTransition>
    ghost var stream: seq<Raw>

    /** The retained events are the newest of all recorded ones, under consecutive ids. */
    ghost predicate Retained()
      reads this
    {
      && nextEventId == IdOf(|history|)
      && |events| == Min(|history|, MAX_FAULT_EVENTS)
      && evictedEvents == Min(|history| - |events|, U64_MAX)
      && Numbered(events, history)
    }

    /** The timeline tells the stream of raw samples of `source`, and knows which event is active. */
    ghost predicate InStep(source: FaultSource)
      reads this
    {
      && Tells(source.noFault, history, stream)
      && lastRaw == (if stream == [] then None else Some(Latest(source.noFault, stream)))
      && (activeEventId.Some? <==> lastRaw.Some? && lastRaw.value != source.noFault)
      && (activeEventId.Some? ==> history != [] && activeEventId.value == IdOf(|history| - 1))
    }

    constructor ()
      ensures Retained() && history == [] && stream == []
      ensures forall source: FaultSource :: InStep(source)
    {
      events, evictedEvents, lastRaw, activeEventId, nextEventId := [], 0, None, None, 1;
      history, stream := [], [];
    }

    /** A good sample of the fault source in the session `sessionId`. */
    static predicate Counts(profile: FaultProfile, event: Telemetry, sessionId: nat) {
      && profile.source.Some? && event.sessionId == sessionId
      && event.parameterId == profile.source.value.parameterId && event.quality == Good && event.sample.Some?
    }

    /** One telemetry event. Only good samples of the fault source in the current session count; each of them
        extends the stream; one that moves the raw value is recorded as exactly one new event, and one that
        repeats it is a new sighting of the active event. */
    method Observe(profile: FaultProfile, event: Telemetry, latest: map<ParameterId, LatestValue>, identity: FaultIdentity)
      returns (observation: Observation)
      requires Retained() && (profile.source.Some? ==> InStep(profile.source.value))
      modifies this
      ensures Retained() && (profile.source.Some? ==> InStep(profile.source.value))
      ensures observation.Ignored? <==>
              || profile.source == None || event.sessionId != identity.sessionId
              || event.parameterId != profile.source.value.parameterId || event.quality == NotGood || event.sample == None
      ensures observation.Undecodable? <==>
              Counts(profile, event, identity.sessionId) && profile.rawBits(event.sample.value.raw).None?
      ensures observation.Ignored? || observation.Undecodable? ==> unchanged(this)
      ensures !observation.Ignored? && !observation.Undecodable? ==>
                && stream == old(stream) + [profile.rawBits(event.sample.value.raw).value]
                && lastRaw == profile.rawBits(event.sample.value.raw)
      ensures observation.Quiet? ==>
                && history == old(history)
                && events == (if old(activeEventId).Some? then SeenAgain(old(events), old(activeEventId).value, event.sample.value.utcTime)
                              else old(events))
      ensures observation.Detected? ==>
                && |history| == |old(history)| + 1 && old(history) <= history
                && Some(history[|old(history)|]) == TransitionFor(profile, profile.source.value,
                                                                  if old(lastRaw).Some? then old(lastRaw).value else profile.source.value.noFault,
                                                                  profile.rawBits(event.sample.value.raw).value)
                && var captured := Capture(profile, profile.source.value.parameterId, history[|history| - 1]);
                && observation.detection == Detection(old(nextEventId), identity.sessionId, captured)
                && var at := event.sample.value.utcTime;
                   events == Newest(old(events) + [FaultEvent(old(nextEventId), identity, history[|history| - 1], at, at, false,
                                                              FreezeFrame(PreFault(latest, captured), [], Pending, []))])
    {
      hide Tells, Apply, Capture, TransitionFor, PreFault, Newest;
      if profile.source.None? {
        return Ignored;
      }
      var source := profile.source.value;
      if event.sessionId != identity.sessionId || event.parameterId != source.parameterId {
        return Ignored;
      }
      if event.quality != Good {
        return Ignored;
      }
      if event.sample.None? {
        return Ignored;
      }
      var sample := event.sample.value;
      var raw := profile.rawBits(sample.raw);
      if raw.None? {
        return Undecodable;
      }
      var previous := if lastRaw.Some? then lastRaw.value else source.noFault;
      if lastRaw.None? && raw.value == source.noFault {
        lastRaw := raw;
        RepetitionIsSilent(source.noFault, history, stream, raw.value);
        stream := stream + [raw.value];
        return Quiet;
      }
      if lastRaw == raw {
        if activeEventId.Some? {
          Touch(activeEventId.value, sample.utcTime);
        }
        RepetitionIsSilent(source.noFault, history, stream, raw.value);
        stream := stream + [raw.value];
        return Quiet;
      }
      TransitionsAreFaithful(profile, source, previous, raw.value);
      var transition := TransitionFor(profile, source, previous, raw.value);
      if transition.None? {
        // A value that moved always has a transition.
        assert false;
      }
      var detection := Record(profile, source, identity, sample.utcTime, latest, raw.value, transition.value);
      return Detected(detection);
    }

    /** Appends one event and evicts the oldest ones above the limit. */
    method Record(profile: FaultProfile, source: FaultSource, identity: FaultIdentity, utcTime: int, latest: map<ParameterId, LatestValue>,
                  raw: Raw, transition: FaultTransition)
      returns (detection: Detection)
      requires Retained() && InStep(source)
      requires Apply(source.noFault, Latest(source.noFault, stream), transition) == raw && raw != Latest(source.noFault, stream)
      modifies this
      ensures Retained() && InStep(source)
      ensures history == old(history) + [transition] && stream == old(stream) + [raw] && lastRaw == Some(raw)
      ensures var captured := Capture(profile, source.parameterId, transition);
              && detection == Detection(old(nextEventId), identity.sessionId, captured)
              && events == Newest(old(events) + [FaultEvent(old(nextEventId), identity, transition, utcTime, utcTime, false,
                                                            FreezeFrame(PreFault(latest, captured), [], Pending, []))])
    {
      hide Tells, Apply, Latest, Capture, PreFault, Newest;
      var eventId := nextEventId;
      nextEventId := SaturatingAdd(nextEventId, 1, U128_MAX);
      var parameters := FreezeFrameParameters(profile, source.parameterId, transition);
      var event := FaultEvent(eventId, identity, transition, utcTime, utcTime, false,
                              FreezeFrame(PreFault(latest, parameters), [], Pending, []));
      MoveIsTold(source.noFault, history, stream, transition, raw);
      history, stream := history + [transition], stream + [raw];
      assert history[..|history| - 1] == old(history);
      Append(event);
      lastRaw := Some(raw);
      activeEventId := if raw == source.noFault then None else Some(eventId);
      return Detection(eventId, identity.sessionId, parameters);
    }

    /** The bounded queue: push at the back, then pop from the front while it is too long. */
    method Append(event: FaultEvent)
      requires |history| > 0 && |events| == Min(|history| - 1, MAX_FAULT_EVENTS)
      requires evictedEvents == Min(|history| - 1 - |events|, U64_MAX)
      requires nextEventId == IdOf(|history|) && Numbered(events, history[..|history| - 1])
      requires event.eventId == IdOf(|history| - 1) && event.transition == history[|history| - 1]
      modifies this`events, this`evictedEvents
      ensures Retained() && events == Newest(old(events) + [event])
    {
      OneMoreIsNumbered(events, event, history);
      hide Numbered;
      events := events + [event];
      ghost var all := events;
      while |events| > MAX_FAULT_EVENTS
        invariant Min(|all|, MAX_FAULT_EVENTS) <= |events| <= |all| && events == all[|all| - |events|..]
        invariant evictedEvents == Min(|history| - |events|, U64_MAX)
      {
        SuffixOfSuffix(all, |all| - |events|);
        events := events[1..];
        evictedEvents := SaturatingAdd(evictedEvents, 1, U64_MAX);
      }
      SuffixIsNumbered(all, history, |all| - |events|);
    }

    method Touch(eventId: nat, observedAt: int)
      requires Retained()
      modifies this`events
      ensures Retained() && events == SeenAgain(old(events), eventId, observedAt)
    {
      var found := Find(events, eventId);
      if found.Some? {
        events := events[found.value := events[found.value].(lastObservedAt := observedAt)];
      }
    }

    /** Attaches what was captured to the event it was captured for, and to no other. */
    method CompleteFreezeFrame(eventId: nat, captured: seq<FreezeValue>, errors: seq<string>)
      requires Retained()
      modifies this`events
      ensures Retained() && |events| == |old(events)|
      ensures forall i :: 0 <= i < |events| ==>
                var e := old(events)[i];
                events[i] ==
                if Find(old(events), eventId) == Some(i)
                then e.(freezeFrame := FreezeFrame(e.freezeFrame.preFault, captured,
                                                   CompletenessOf(|e.freezeFrame.preFault|, captured, errors), errors))
                else e
    {
      var found := Find(events, eventId);
      if found.None? {
        return;
      }
      var event := events[found.value];
      var expected := |event.freezeFrame.preFault|;
      var good := CountGood(captured);
      var completeness :=
        if errors == [] && good == expected then Complete
        else if good == 0 then Unavailable
        else Partial;
      events := events[found.value := event.(freezeFrame := FreezeFrame(event.freezeFrame.preFault, captured, completeness, errors))];
    }

    method Acknowledge(eventId: nat)
      requires Retained()
      modifies this`events
      ensures Retained() && |events| == |old(events)|
      ensures forall i :: 0 <= i < |events| ==>
                events[i] == if Find(old(events), eventId) == Some(i) then old(events)[i].(acknowledged := true) else old(events)[i]
    {
      var found := Find(events, eventId);
      if found.Some? {
        events := events[found.value := events[found.value].(acknowledged := true)];
      }
    }
  }

  method CountGood(captured: seq<FreezeValue>) returns (good: nat)
    ensures good == GoodCount(captured)
  {
    good := 0;
    for i := 0 to |captured|
      invariant good == GoodCount(captured[..i])
    {
      assert captured[..i + 1][..i] == captured[..i];
      if captured[i].quality.Good? && captured[i].raw.Some? {
        good := good + 1;
      }
    }
    assert captured[..|captured|] == captured;
  }

  /** Below saturation the retained ids are a consecutive interval that ends at the newest event, and retained
      plus evicted events are all that were ever issued. */
  lemma RetainedIdsAreConsecutive(tracker: FaultTracker)
    requires tracker.Retained() && tracker.nextEventId < U128_MAX && tracker.evictedEvents < U64_MAX
    ensures tracker.evictedEvents + |tracker.events| == tracker.nextEventId - 1
    ensures forall i :: 0 <= i < |tracker.events| ==> tracker.events[i].eventId == tracker.evictedEvents + i + 1
  {
  }

  /** The active event is the newest one exactly while the last raw value is a fault. */
  lemma ActiveIsNewest(tracker: FaultTracker, source: FaultSource)
    requires tracker.Retained() && tracker.InStep(source)
    ensures (tracker.activeEventId.Some? && tracker.events != [] && tracker.activeEventId.value == tracker.events[|tracker.events| - 1].eventId)
            <==> tracker.lastRaw.Some? && tracker.lastRaw.value != source.noFault
    ensures tracker.activeEventId.None? <==> !(tracker.lastRaw.Some? && tracker.lastRaw.value != source.noFault)
  {
  }
}
