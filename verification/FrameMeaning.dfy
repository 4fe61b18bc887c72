/** What a freeze-frame plan reads: every parameter once, nothing it may not read, in no more reads than needed. */
module FrameMeanings {
  import opened Domain
  import Modbus
  import Sorting
  import opened PollDemands
  import G = PollGrouping
  import opened FaultPlans

  // ---------------------------------------------------------------- every parameter once

  function Names(slices: seq<FrameSlice>): (ids: seq<ParameterId>)
    ensures |ids| == |slices|
    ensures forall i :: 0 <= i < |slices| ==> ids[i] == slices[i].parameterId
  {
    seq(|slices|, i requires 0 <= i < |slices| => slices[i].parameterId)
  }

  function NamesIn(block: FrameBlock): multiset<ParameterId> {
    multiset(Names(block.slices))
  }

  function NameOfSlice(slice: FrameSlice): multiset<ParameterId> {
    multiset{slice.parameterId}
  }

  function NameOf(c: Candidate): multiset<ParameterId> {
    multiset{c.parameterId}
  }

  function NamesOf(group: Candidates): multiset<ParameterId> {
    Sorting.Gather(NameOf, group)
  }

  lemma {:induction false} GatheredNames(slices: seq<FrameSlice>)
    ensures Sorting.Gather(NameOfSlice, slices) == multiset(Names(slices))
  {
    if slices != [] {
      GatheredNames(slices[1..]);
      assert Names(slices) == [slices[0].parameterId] + Names(slices[1..]);
    }
  }

  /** The slices of a block are those of its group. */
  lemma BlockNamesItsGroup(group: Candidates)
    ensures NamesIn(FrameBlockOf(group)) == NamesOf(group)
  {
    hide StartOf, EndOf, FrameSliceLe;
    var slices := FrameSlices(group);
    Sorting.SortKeepsGathered(NameOfSlice, slices, FrameSliceLe);
    GatheredNames(FrameBlockOf(group).slices);
    Sorting.SameGathered(NameOfSlice, slices, NameOf, group);
  }

  lemma NamesOfOne(next: Candidate)
    ensures NamesOf([next]) == NameOf(next)
  {
    var alone: seq<Candidate> := [next];
    assert alone[1..] == [];
    assert Sorting.Gather(NameOf, alone[1..]) == multiset{};
  }

  lemma NamesOfMore(group: Candidates, next: Candidate)
    ensures NamesOf(group + [next]) == NamesOf(group) + NameOf(next)
  {
    Sorting.GatherAppends(NameOf, group, next);
  }

  lemma JoinKeepsNames(groups: seq<Candidates>, next: Candidate)
    ensures Sorting.Gather(NamesOf, Join(groups, next)) == Sorting.Gather(NamesOf, groups) + NameOf(next)
  {
    hide MayJoin, NameOf, NamesOf;
    var n := |groups| - 1;
    if groups != [] && MayJoin(groups[n], next) {
      var grown: Candidates := groups[n] + [next];
      assert groups == groups[..n] + [groups[n]];
      assert groups[n := grown] == groups[..n] + [grown];
      Sorting.GatherAppends<Candidates, ParameterId>(NamesOf, groups[..n], groups[n]);
      Sorting.GatherAppends<Candidates, ParameterId>(NamesOf, groups[..n], grown);
      NamesOfMore(groups[n], next);
    } else {
      var alone: Candidates := [next];
      Sorting.GatherAppends<Candidates, ParameterId>(NamesOf, groups, alone);
      NamesOfOne(next);
    }
  }

  lemma {:induction false} GroupsKeepNames(sorted: seq<Candidate>)
    ensures Sorting.Gather(NamesOf, GroupsOf(sorted)) == Sorting.Gather(NameOf, sorted)
  {
    hide Join, NamesOf, NameOf;
    if sorted != [] {
      var n := |sorted| - 1;
      GroupsKeepNames(sorted[..n]);
      JoinKeepsNames(GroupsOf(sorted[..n]), sorted[n]);
      Sorting.GatherAppends(NameOf, sorted[..n], sorted[n]);
      assert sorted == sorted[..n] + [sorted[n]];
    }
  }

  function Mentioned(ids: seq<ParameterId>): set<ParameterId> {
    set id | id in ids
  }

  lemma MentionedGrows(before: seq<ParameterId>, id: ParameterId)
    ensures multiset(Mentioned(before + [id])) == if id in before then multiset(Mentioned(before)) else multiset(Mentioned(before)) + multiset{id}
  {
    assert Mentioned(before + [id]) == Mentioned(before) + {id};
  }

  lemma {:induction false} CandidatesAreDistinct(profile: PollProfile, ids: seq<ParameterId>)
    requires forall id :: id in ids ==> id in profile.parameters
    ensures Sorting.Gather(NameOf, CandidatesFor(profile, ids)) == multiset(Mentioned(ids))
  {
    hide Mentioned;
    if ids == [] {
      assert Mentioned(ids) == {} by { NothingMentioned(); }
    } else {
      var n := |ids| - 1;
      var before := ids[..n];
      CandidatesAreDistinct(profile, before);
      MentionedGrows(before, ids[n]);
      assert ids == before + [ids[n]];
      if ids[n] !in before {
        Sorting.GatherAppends(NameOf, CandidatesFor(profile, before), CandidateFor(ids[n], profile.parameters[ids[n]]));
      }
    }
  }

  lemma NothingMentioned()
    ensures Mentioned([]) == {}
  {
  }

  /** Every parameter asked for, however often, is one slice of one block, and nothing else is. */
  lemma FrameAnswersEachOnce(profile: PollProfile, ids: seq<ParameterId>)
    requires forall id :: id in ids ==> id in profile.parameters
    ensures Sorting.Gather(NamesIn, FrameBlocks(FrameGroups(profile, ids))) == multiset(Mentioned(ids))
  {
    hide GroupsOf, FrameBlockOf, NamesIn, NamesOf, NameOf, CandidateLe, CandidatesFor;
    var candidates := CandidatesFor(profile, ids);
    var groups := FrameGroups(profile, ids);
    forall i | 0 <= i < |groups| ensures NamesIn(FrameBlocks(groups)[i]) == NamesOf(groups[i]) {
      BlockNamesItsGroup(groups[i]);
    }
    Sorting.SameGathered(NamesIn, FrameBlocks(groups), NamesOf, groups);
    GroupsKeepNames(Sorting.Sort(candidates, CandidateLe));
    Sorting.SortKeepsGathered(NameOf, candidates, CandidateLe);
    CandidatesAreDistinct(profile, ids);
  }

  // ---------------------------------------------------------------- nothing that may not be read along

  /** Register `at` of the block belongs to no slice. */
  ghost predicate Unasked(block: FrameBlock, at: int) {
    && 0 <= at < block.block.count
    && forall s :: s in block.slices ==> !(s.offset <= at < s.offset + s.count)
  }

  /** `at` lies between two slices, and the right one and everything that starts before `at` allow a gap that wide. */
  ghost predicate Bridged(profile: PollProfile, block: FrameBlock, at: int) {
    exists left, right ::
      && left in block.slices && right in block.slices
      && left.offset + left.count <= at < right.offset
      && (forall s :: s in block.slices && s.offset < at ==> s.offset + s.count <= left.offset + left.count)
      && (forall s :: s in block.slices && s.offset > at ==> right.offset <= s.offset)
      && forall s :: s in block.slices && (s.offset < at || s == right) ==>
          && s.parameterId in profile.parameters && var parameter := profile.parameters[s.parameterId];
             !parameter.doNotBridge && right.offset - left.offset - left.count <= parameter.maximumBridgeGap
  }

  /** The slice of a member. */
  function SliceOf(d: Demand, group: G.Group): FrameSlice {
    FrameSlice(d.parameterId, d.block.start - G.GroupStart(group), d.block.count)
  }

  /** A slice is that of a member, and every member has one. */
  lemma SlicesOfGroup(group: G.Group)
    ensures var slices := FrameBlockOf(AsCandidates(group)).slices;
            && (forall s :: s in slices ==> exists d :: d in group && s == SliceOf(d, group))
            && forall d :: d in group ==> SliceOf(d, group) in slices
  {
    hide StartOf, EndOf, FrameSliceLe, G.GroupStart;
    SameExtent(group);
    var unsorted := FrameSlices(AsCandidates(group));
    var slices := FrameBlockOf(AsCandidates(group)).slices;
    FrameSliceOrder();
    Sorting.SortSorts(unsorted, FrameSliceLe);
    Sorting.SameElements(slices, unsorted);
    forall s | s in slices ensures exists d :: d in group && s == SliceOf(d, group) {
      assert s in unsorted;
      var k :| 0 <= k < |unsorted| && unsorted[k] == s;
      assert group[k] in group && s == SliceOf(group[k], group);
    }
    forall d | d in group ensures SliceOf(d, group) in slices {
      var k :| 0 <= k < |group| && group[k] == d;
      assert unsorted[k] == SliceOf(d, group) && unsorted[k] in unsorted;
    }
  }

  /** The block of a frame: the function that reads its table, from the first register of a slice to the last. */
  lemma FrameBlocksMean(profile: PollProfile, ids: seq<ParameterId>, i: nat)
    requires profile.Valid() && forall id :: id in ids ==> id in profile.parameters
    requires i < |FrameGroups(profile, ids)|
    ensures var block := FrameBlockOf(FrameGroups(profile, ids)[i]);
            && block.function_ == (if block.block.table.InputRegisters? then Modbus.ReadInputRegisters else Modbus.ReadHoldingRegisters)
            && (exists s :: s in block.slices && s.offset == 0)
            && (exists s :: s in block.slices && s.offset + s.count == block.block.count)
            && (forall s :: s in block.slices ==>
                  && s.parameterId in ids && var asked := profile.parameters[s.parameterId].block;
                     asked.table == block.block.table && asked.start == block.block.start + s.offset && asked.count == s.count)
            && forall at :: Unasked(block, at) ==> Bridged(profile, block, at)
  {
    hide FrameGroups, G.Readable, G.GroupStart, G.GroupEnd, FrameBlockOf, Bridged, Unasked;
    var group := FrameGroupsAreReadable(profile, ids, i);
    var block := FrameBlockOf(FrameGroups(profile, ids)[i]);
    BlockOfGroup(group);
    SlicesOfGroup(group);
    G.GroupedBlockIsValid(group);
    var first := G.StartMeans(group);
    var last := G.EndMeans(group);
    assert SliceOf(first, group) in block.slices && SliceOf(last, group) in block.slices;
    forall at | Unasked(block, at) ensures Bridged(profile, block, at) {
      UnaskedIsBridged(profile, group, at);
    }
  }

  lemma BlockOfGroup(group: G.Group)
    requires G.Readable(group)
    ensures var block := FrameBlockOf(AsCandidates(group));
            && G.GroupEnd(group) >= G.GroupStart(group) && block.block == G.BlockOf(group)
            && block.function_ == (if block.block.table.InputRegisters? then Modbus.ReadInputRegisters else Modbus.ReadHoldingRegisters)
  {
    hide Sorting.Sort;
    SameExtent(group);
    G.GroupedBlockIsValid(group);
    assert AsCandidates(group)[0] == AsCandidate(group[0]);
  }

  lemma UnaskedIsBridged(profile: PollProfile, group: G.Group, at: int)
    requires G.Readable(group) && Unasked(FrameBlockOf(AsCandidates(group)), at)
    requires forall d :: d in group ==>
               && d.parameterId in profile.parameters && var parameter := profile.parameters[d.parameterId];
                  d.doNotBridge == parameter.doNotBridge && d.maximumBridgeGap == parameter.maximumBridgeGap
    ensures Bridged(profile, FrameBlockOf(AsCandidates(group)), at)
  {
    hide G.Readable, G.GroupStart, G.GroupEnd, FrameBlockOf;
    var block, address := FrameBlockOf(AsCandidates(group)), G.GroupStart(group) + at;
    BlockOfGroup(group);
    SlicesOfGroup(group);
    forall d | d in group ensures !(d.block.start <= address <= d.block.End()) {
      assert SliceOf(d, group) in block.slices;
    }
    var k := G.BridgedGapsAreAllowed(group, address);
    var before := group[..k];
    var last := G.EndMeans(before);
    MembersInOrder(group, k);
    assert last in group && group[k] in group && group[k] in group[..k + 1];
    GapIsBridged(profile, group, at, last, group[k]);
  }

  /** `right` is the member after the gap at `at`, `last` the one that ends it on the left. */
  lemma GapIsBridged(profile: PollProfile, group: G.Group, at: int, last: Demand, right: Demand)
    requires last in group && right in group && last.block.End() < G.GroupStart(group) + at < right.block.start
    requires forall d :: d in group ==> d.block.start >= right.block.start || d.block.End() <= last.block.End()
    requires forall d :: d in group && (d == right || d.block.start < right.block.start) ==>
               && d.parameterId in profile.parameters && var parameter := profile.parameters[d.parameterId];
                  !parameter.doNotBridge && right.block.start - last.block.End() - 1 <= parameter.maximumBridgeGap
    ensures Bridged(profile, FrameBlockOf(AsCandidates(group)), at)
  {
    hide G.GroupStart, FrameBlockOf;
    SlicesOfGroup(group);
    var slices := FrameBlockOf(AsCandidates(group)).slices;
    var l, r := SliceOf(last, group), SliceOf(right, group);
    assert l in slices && r in slices;
    forall s | s in slices
      ensures s.offset < at ==> s.offset + s.count <= l.offset + l.count
      ensures s.offset > at ==> r.offset <= s.offset
      ensures s.offset < at || s == r ==>
                && s.parameterId in profile.parameters && var parameter := profile.parameters[s.parameterId];
                   !parameter.doNotBridge && r.offset - l.offset - l.count <= parameter.maximumBridgeGap
    {
      var d :| d in group && s == SliceOf(d, group);
      if s == r { assert d.parameterId == right.parameterId; }
    }
  }

  /** What starts before member `k` comes before it, and what starts later does not. */
  lemma MembersInOrder(group: G.Group, k: nat)
    requires G.Readable(group) && 0 < k < |group| && G.GroupEnd(group[..k]) < group[k].block.start
    ensures forall d :: d in group ==> d in group[..k] || d.block.start >= group[k].block.start
    ensures forall d :: d in group[..k] ==> d in group[..k + 1] && d in group && d.block.End() <= G.GroupEnd(group[..k])
    ensures forall d :: d in group && d !in group[..k] ==> d.block.start >= group[k].block.start
  {
    hide G.Grown, G.GroupEnd;
    var last := G.EndMeans(group[..k]);
    forall d | d in group ensures d in group[..k] || d.block.start >= group[k].block.start {
      var j :| 0 <= j < |group| && group[j] == d;
      if j < k { assert group[..k][j] == d; }
    }
    forall d | d in group[..k] ensures d in group[..k + 1] && d in group {
      var j :| 0 <= j < k && group[..k][j] == d;
      assert group[..k + 1][j] == d;
    }
  }

  // ---------------------------------------------------------------- no more reads than needed

  /** Why `next` cannot join: another table, more than 125 registers, or a gap that one of them does not allow. */
  ghost predicate MustSplit(group: Candidates, next: Candidate) {
    || next.block.table != group[0].block.table
    || EndOf(group + [next]) - StartOf(group + [next]) + 1 > 125
    || (var gap := next.block.start - EndOf(group) - 1;
        gap > 0 && exists c :: c in group + [next] && (c.doNotBridge || c.maximumBridgeGap < gap))
  }

  lemma SameSplit(group: G.Group, next: Demand, class_: RequestClass, frequency: FrequencyClass)
    requires Uniform(group, class_, frequency) && next.requestClass == class_ && next.frequency == frequency
    ensures G.MustSplit(group, next) <==> MustSplit(AsCandidates(group), AsCandidate(next))
  {
    hide StartOf, EndOf, G.GroupStart, G.GroupEnd;
    SameExtent(group);
    SameExtent(group + [next]);
    assert AsCandidates(group + [next]) == AsCandidates(group) + [AsCandidate(next)];
    assert group[0] in group;
    var gap := next.block.start - G.GroupEnd(group) - 1;
    SameGaps(group + [next], gap);
  }

  lemma GroupIsUniform(sorted: seq<Demand>, i: nat, class_: RequestClass, frequency: FrequencyClass)
    requires Uniform(sorted, class_, frequency) && i < |G.Groups(sorted)|
    ensures Uniform(G.Groups(sorted)[i], class_, frequency)
  {
    hide G.Groups;
    G.GroupsKeepDemands(sorted);
    var groups := G.Groups(sorted);
    var offset := G.PiecesOfFlatten(groups, i);
    forall d | d in groups[i] ensures d in sorted {
      assert d in G.Flatten(groups)[offset..offset + |groups[i]|];
    }
  }

  lemma UniformMember(group: seq<Demand>, k: nat, class_: RequestClass, frequency: FrequencyClass)
    requires Uniform(group, class_, frequency) && k < |group|
    ensures Uniform(group[..k], class_, frequency) && group[k].requestClass == class_ && group[k].frequency == frequency
  {
    assert group[k] in group;
    assert forall d :: d in group[..k] ==> d in group;
  }

  /** The reads of a frame are apart only where they must be, and none was joined that had to be apart. */
  lemma FrameSplitsOnlyWhereItMust(profile: PollProfile, ids: seq<ParameterId>)
    requires forall id :: id in ids ==> id in profile.parameters
    ensures var groups := FrameGroups(profile, ids);
            && (forall i, k :: 0 <= i < |groups| && 0 < k < |groups[i]| ==> !MustSplit(groups[i][..k], groups[i][k]))
            && forall i :: 0 < i < |groups| ==> MustSplit(groups[i - 1], groups[i][0])
  {
    hide MustSplit, G.MustSplit, G.Groups, G.Sorted, GroupsOf, Uniform, CandidateLe, CandidatesFor;
    var demands := AsDemands(CandidatesFor(profile, ids));
    assert AsCandidates(demands) == CandidatesFor(profile, ids);
    AskedUniformly(CandidatesFor(profile, ids));
    GroupersAgree(demands, Interactive, Fast);
    SameSort(demands, Interactive, Fast);
    G.GroupsSplitOnlyWhereTheyMust(demands);
    var groups, cyclic := FrameGroups(profile, ids), G.Groups(G.Sorted(demands));
    assert groups == AsCandidateGroups(cyclic);
    forall i, k | 0 <= i < |groups| && 0 < k < |groups[i]| ensures !MustSplit(groups[i][..k], groups[i][k]) {
      GroupIsUniform(G.Sorted(demands), i, Interactive, Fast);
      UniformMember(cyclic[i], k, Interactive, Fast);
      SameSplit(cyclic[i][..k], cyclic[i][k], Interactive, Fast);
      assert AsCandidates(cyclic[i])[..k] == AsCandidates(cyclic[i][..k]);
    }
    forall i | 0 < i < |groups| ensures MustSplit(groups[i - 1], groups[i][0]) {
      GroupIsUniform(G.Sorted(demands), i - 1, Interactive, Fast);
      GroupIsUniform(G.Sorted(demands), i, Interactive, Fast);
      UniformMember(cyclic[i], 0, Interactive, Fast);
      SameSplit(cyclic[i - 1], cyclic[i][0], Interactive, Fast);
    }
  }

  lemma AskedUniformly(candidates: seq<Candidate>)
    ensures Uniform(AsDemands(candidates), Interactive, Fast)
  {
  }
}
