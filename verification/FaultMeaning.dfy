/** What a recorded fault says: the transition, the declared meanings, what is captured and how complete it is. */
module FaultMeanings {
  import opened Domain
  import opened Faults

  /** What the profile declares about a raw value. */
  function Declared(profile: FaultProfile, raw: Raw): Meaning {
    Meaning(raw, if raw in profile.faults.Keys then Some(profile.faults[raw]) else None)
  }

  /** `order` holds the one bits of `bits`, ascending. */
  ghost predicate Ascends(order: seq<nat>, bits: Raw) {
    && (forall i, j :: 0 <= i < j < |order| ==> order[i] < order[j])
    && (forall bit :: bit in order <==> bit in bits)
    && (forall i :: 0 <= i < |order| ==> order[i] < 64)
  }

  /** The declared meanings of these bits, each alone. */
  ghost predicate DeclaredOf(meanings: seq<Meaning>, profile: FaultProfile, order: seq<nat>) {
    && |meanings| == |order|
    && forall i :: 0 <= i < |order| ==> order[i] < 64 && meanings[i] == Declared(profile, {order[i]})
  }

  /** One declared meaning for each one bit of `bits`, the lowest bit first. */
  ghost predicate Lists(meanings: seq<Meaning>, profile: FaultProfile, bits: Raw) {
    exists order: seq<nat> :: Ascends(order, bits) && DeclaredOf(meanings, profile, order)
  }

  lemma NothingListed(profile: FaultProfile)
    ensures Lists([], profile, {})
  {
    var order: seq<nat> := [];
    assert Ascends(order, {}) && DeclaredOf([], profile, order);
  }

  lemma AscendsFrom(rest: seq<nat>, bits: Raw, lowest: nat)
    requires lowest in bits && forall bit :: bit in bits ==> lowest <= bit
    requires Ascends(rest, bits - {lowest})
    ensures Ascends([lowest] + rest, bits)
  {
    assert forall i :: 0 <= i < |rest| ==> rest[i] in rest;
    forall bit ensures bit in [lowest] + rest <==> bit in bits {
      assert bit in rest <==> bit in bits - {lowest};
    }
  }

  lemma OneMoreListed(profile: FaultProfile, bits: Raw, lowest: nat, meanings: seq<Meaning>)
    requires lowest in bits && forall bit :: bit in bits ==> lowest <= bit
    requires Lists(meanings, profile, bits - {lowest})
    ensures Lists([Declared(profile, {lowest})] + meanings, profile, bits)
  {
    hide Ascends, Declared;
    var rest: seq<nat> :| Ascends(rest, bits - {lowest}) && DeclaredOf(meanings, profile, rest);
    AscendsFrom(rest, bits, lowest);
    assert DeclaredOf([Declared(profile, {lowest})] + meanings, profile, [lowest] + rest);
  }

  /** The bit loop lists exactly the one bits, in order, each with what the profile declares about it alone. */
  lemma {:induction false} BitMeaningsMean(profile: FaultProfile, bits: Raw)
    ensures Lists(BitMeanings(profile, bits), profile, bits)
    decreases |bits|
  {
    hide Lists;
    if bits == {} {
      NothingListed(profile);
    } else {
      var lowest := TrailingZeros(bits);
      BitMeaningsMean(profile, bits - {lowest});
      OneMoreListed(profile, bits, lowest, BitMeanings(profile, bits - {lowest}));
    }
  }

  /** What `transition` tells about a step from `previous` to `current`: a scalar fault is raised from no fault,
      cleared back to it, or changed in between; of a bit set it lists the bits that came and those that went. */
  ghost predicate Describes(transition: FaultTransition, profile: FaultProfile, source: FaultSource, previous: Raw, current: Raw) {
    match source.kind
    case ScalarCode =>
      if previous == source.noFault then transition == Raised(Declared(profile, current))
      else if current == source.noFault then transition == Cleared(Declared(profile, previous))
      else transition == Changed(Declared(profile, previous), Declared(profile, current))
    case BitSet =>
      transition.BitsChanged? && Lists(transition.raised, profile, current - previous) && Lists(transition.cleared, profile, previous - current)
  }

  lemma TransitionsMean(profile: FaultProfile, source: FaultSource, previous: Raw, current: Raw)
    requires previous != current
    ensures TransitionFor(profile, source, previous, current).Some?
    ensures Describes(TransitionFor(profile, source, previous, current).value, profile, source, previous, current)
  {
    hide Lists;
    if source.kind.BitSet? {
      assert current - previous == {} && previous - current == {} ==> previous == current;
      BitMeaningsMean(profile, current - previous);
      BitMeaningsMean(profile, previous - current);
    }
  }

  // ---------------------------------------------------------------- captures

  /** The meanings a transition names, what went before what came for a scalar, what came first for a bit set. */
  function Named(transition: FaultTransition): seq<Meaning> {
    match transition
    case Raised(current) => [current]
    case Cleared(previous) => [previous]
    case Changed(previous, current) => [previous, current]
    case BitsChanged(raised, cleared) => raised + cleared
  }

  /** The profile declares `raw` and lists `id` among the first 64 parameters of its freeze frame. */
  ghost predicate AmongFirst(profile: FaultProfile, raw: Raw, id: ParameterId) {
    raw in profile.faults
    && var listed := profile.faults[raw].freezeFrame;
    exists k :: 0 <= k < 64 && k < |listed| && listed[k] == id
  }

  ghost predicate ListedBy(profile: FaultProfile, transition: FaultTransition, id: ParameterId) {
    exists m :: 0 <= m < |Named(transition)| && AmongFirst(profile, Named(transition)[m].raw, id)
  }

  lemma {:induction false} FramesMean(profile: FaultProfile, meanings: seq<Meaning>, id: ParameterId)
    ensures id in Frames(profile, meanings) <==> exists m :: 0 <= m < |meanings| && id in FrameOf(profile, meanings[m])
  {
    hide FrameOf;
    if meanings != [] {
      var n := |meanings| - 1;
      FramesMean(profile, meanings[..n], id);
      if m :| 0 <= m < |meanings| && id in FrameOf(profile, meanings[m]) {
        if m < n { assert meanings[..n][m] == meanings[m]; }
      }
      if m :| 0 <= m < n && id in FrameOf(profile, meanings[..n][m]) {
        assert id in FrameOf(profile, meanings[m]);
      }
    }
  }

  lemma FrameMeans(profile: FaultProfile, meaning: Meaning, id: ParameterId)
    ensures id in FrameOf(profile, meaning) <==> AmongFirst(profile, meaning.raw, id)
  {
    if meaning.raw in profile.faults {
      var listed, frame := profile.faults[meaning.raw].freezeFrame, FrameOf(profile, meaning);
      if id in frame {
        var k :| 0 <= k < |frame| && frame[k] == id;
        assert listed[k] == id;
      }
      if k :| 0 <= k < 64 && k < |listed| && listed[k] == id {
        assert frame[k] == id;
      }
    }
  }

  lemma ListedMeans(profile: FaultProfile, transition: FaultTransition, id: ParameterId)
    ensures id in Frames(profile, Meanings(transition)) <==> ListedBy(profile, transition, id)
  {
    hide FrameOf, Frames, AmongFirst;
    var named := Named(transition);
    assert Meanings(transition) == named;
    FramesMean(profile, named, id);
    forall m | 0 <= m < |named| ensures id in FrameOf(profile, named[m]) <==> AmongFirst(profile, named[m].raw, id) {
      FrameMeans(profile, named[m], id);
    }
  }

  /** What is captured for a transition: the fault source first, at most 64 parameters, none twice; besides the
      source only what the definitions of the named meanings list, and all of it unless the capture is full. */
  lemma CaptureMeans(profile: FaultProfile, source: ParameterId, transition: FaultTransition)
    ensures var captured := Capture(profile, source, transition);
            && 0 < |captured| <= 64 && captured[0] == source
            && (forall i, j :: 0 <= i < j < |captured| ==> captured[i] != captured[j])
            && (forall id :: id in captured ==> id == source || ListedBy(profile, transition, id))
            && (|captured| < 64 ==> forall id :: ListedBy(profile, transition, id) ==> id in captured)
  {
    hide Capture, ListedBy, Frames;
    CaptureIsBoundedAndDistinct(profile, source, transition);
    forall id ensures id in Frames(profile, Meanings(transition)) <==> ListedBy(profile, transition, id) {
      ListedMeans(profile, transition, id);
    }
  }

  /** What is known of a parameter before the fault: its last good words and their quality, or nothing. */
  lemma PreFaultMeans(latest: map<ParameterId, LatestValue>, ids: seq<ParameterId>, i: nat)
    requires i < |ids|
    ensures var value := PreFault(latest, ids)[i];
            && value.parameterId == ids[i]
            && value.raw == (if ids[i] in latest.Keys then latest[ids[i]].lastGood else None)
            && value.quality == (if ids[i] in latest.Keys then latest[ids[i]].quality else NotGood)
  {
  }

  /** A captured value that counts: good, with words. */
  ghost predicate Useful(value: FreezeValue) {
    value.quality == Good && value.raw != None
  }

  /** The positions of the captured values that count. */
  ghost function UsefulAt(captured: seq<FreezeValue>): set<nat> {
    set i: nat | i < |captured| && Useful(captured[i])
  }

  lemma {:induction false} GoodCountIsSize(captured: seq<FreezeValue>)
    ensures GoodCount(captured) == |UsefulAt(captured)|
  {
    if captured != [] {
      var n := |captured| - 1;
      GoodCountIsSize(captured[..n]);
      assert UsefulAt(captured) == UsefulAt(captured[..n]) + if Useful(captured[n]) then {n} else {};
    }
  }

  /** A capture is complete exactly if nothing failed and as many values came back good as are expected, unavailable
      exactly if none did and it is not complete, and partial in between. */
  lemma CompletenessMeans(expected: nat, captured: seq<FreezeValue>, errors: seq<string>)
    ensures var completeness := CompletenessOf(expected, captured, errors);
            && (completeness == Complete <==> errors == [] && |UsefulAt(captured)| == expected)
            && (completeness == Unavailable <==> UsefulAt(captured) == {} && !(errors == [] && expected == 0))
            && (completeness == Partial <==> UsefulAt(captured) != {} && !(errors == [] && |UsefulAt(captured)| == expected))
  {
    GoodCountIsSize(captured);
  }

  /** Seeing an event again moves the last sighting of the first event with that id and changes nothing else. */
  lemma SeenAgainMeans(events: seq<FaultEvent>, id: nat, at: int)
    ensures var after := SeenAgain(events, id, at);
            && |after| == |events|
            && forall i :: 0 <= i < |events| ==>
                after[i] == if events[i].eventId == id && (forall j :: 0 <= j < i ==> events[j].eventId != id)
                            then events[i].(lastObservedAt := at) else events[i]
  {
  }

  /** The timeline keeps the last 256 events. */
  lemma NewestMeans(events: seq<FaultEvent>)
    ensures |Newest(events)| == Min(|events|, 256)
    ensures forall i :: 0 <= i < |Newest(events)| ==> Newest(events)[i] == events[|events| - |Newest(events)| + i]
  {
  }
}
