/** The one-shot read plan of a diagnostic freeze frame, and its agreement with the cyclic planner's grouping. */
module FaultPlans {
  import opened Domain
  import Modbus
  import opened TextOrder
  import Sorting
  import opened PollDemands
  import G = PollGrouping

  const MAX_FREEZE_FRAME_PARAMETERS: nat := 64

  datatype Candidate = Candidate(parameterId: ParameterId, block: Modbus.RegisterBlock, doNotBridge: bool, maximumBridgeGap: nat)

  type Candidates = cs: seq<Candidate> | cs != []
    witness [Candidate("", Modbus.RegisterBlock(Modbus.InputRegisters, 0, 1), false, 0)]

  datatype FrameSlice = FrameSlice(parameterId: ParameterId, offset: int, count: nat)

  datatype FrameBlock = FrameBlock(function_: Modbus.Function, block: Modbus.RegisterBlock, slices: seq<FrameSlice>)

  datatype FramePlan =
    | Frame(blocks: seq<FrameBlock>)
    | TooManyParameters(count: nat)
    | UnknownParameter(parameterId: ParameterId)
    | InvalidBlock

  // ---------------------------------------------------------------- candidates

  function CandidateFor(id: ParameterId, parameter: PollParameter): Candidate {
    Candidate(id, parameter.block, parameter.doNotBridge, parameter.maximumBridgeGap)
  }

  /** One candidate per distinct id, in order of first mention. */
  function CandidatesFor(profile: PollProfile, ids: seq<ParameterId>): seq<Candidate>
    requires forall id :: id in ids ==> id in profile.parameters
  {
    if ids == [] then []
    else
      var n := |ids| - 1;
      var before := CandidatesFor(profile, ids[..n]);
      if ids[n] in ids[..n] then before else before + [CandidateFor(ids[n], profile.parameters[ids[n]])]
  }

  lemma {:induction false} CandidatesMean(profile: PollProfile, ids: seq<ParameterId>)
    requires forall id :: id in ids ==> id in profile.parameters
    ensures forall c :: c in CandidatesFor(profile, ids) <==>
              c.parameterId in ids && c == CandidateFor(c.parameterId, profile.parameters[c.parameterId])
    ensures |CandidatesFor(profile, ids)| <= |ids|
  {
    if ids != [] {
      var n := |ids| - 1;
      CandidatesMean(profile, ids[..n]);
      assert ids == ids[..n] + [ids[n]];
    }
  }

  predicate CandidateLe(a: Candidate, b: Candidate) {
    if G.TableRank(a.block.table) != G.TableRank(b.block.table) then G.TableRank(a.block.table) < G.TableRank(b.block.table)
    else if a.block.start != b.block.start then a.block.start < b.block.start
    else TextLe(a.parameterId, b.parameterId)
  }

  // ---------------------------------------------------------------- grouping, written a second time

  function StartOf(group: Candidates): nat {
    var n := |group| - 1;
    if n == 0 then group[n].block.start else Min(StartOf(group[..n]), group[n].block.start)
  }

  function EndOf(group: Candidates): int {
    var n := |group| - 1;
    if n == 0 then group[n].block.End() else Max(EndOf(group[..n]), group[n].block.End())
  }

  predicate MayJoin(group: Candidates, next: Candidate) {
    && group[0].block.table == next.block.table
    && Max(EndOf(group), next.block.End()) - StartOf(group) + 1 <= 125
    && (|| next.block.start <= EndOf(group) + 1
        || forall c :: c in group + [next] ==> !c.doNotBridge && next.block.start - EndOf(group) - 1 <= c.maximumBridgeGap)
  }

  function GroupsOf(sorted: seq<Candidate>): seq<Candidates> {
    if sorted == [] then []
    else
      var n := |sorted| - 1;
      Join(GroupsOf(sorted[..n]), sorted[n])
  }

  function Join(groups: seq<Candidates>, next: Candidate): seq<Candidates> {
    if groups != [] && MayJoin(groups[|groups| - 1], next)
    then groups[|groups| - 1 := groups[|groups| - 1] + [next]]
    else groups + [[next]]
  }

  method CollectCandidates(sorted: seq<Candidate>) returns (groups: seq<Candidates>)
    ensures groups == GroupsOf(sorted)
  {
    hide MayJoin;
    groups := [];
    for i := 0 to |sorted|
      invariant groups == GroupsOf(sorted[..i])
    {
      assert sorted[..i + 1][..i] == sorted[..i];
      if groups != [] && MayJoin(groups[|groups| - 1], sorted[i]) {
        groups := groups[|groups| - 1 := groups[|groups| - 1] + [sorted[i]]];
      } else {
        groups := groups + [[sorted[i]]];
      }
    }
    assert sorted[..|sorted|] == sorted;
  }

  // ---------------------------------------------------------------- the two groupers agree

  function AsCandidate(d: Demand): Candidate {
    Candidate(d.parameterId, d.block, d.doNotBridge, d.maximumBridgeGap)
  }

  function AsCandidates(demands: seq<Demand>): (candidates: seq<Candidate>)
    ensures |candidates| == |demands|
    ensures forall i :: 0 <= i < |demands| ==> candidates[i] == AsCandidate(demands[i])
  {
    seq(|demands|, i requires 0 <= i < |demands| => AsCandidate(demands[i]))
  }

  function AsCandidateGroups(groups: seq<G.Group>): (candidates: seq<Candidates>)
    ensures |candidates| == |groups|
    ensures forall i :: 0 <= i < |groups| ==> candidates[i] == AsCandidates(groups[i])
  {
    seq(|groups|, i requires 0 <= i < |groups| => AsCandidates(groups[i]))
  }

  /** All demands have one class and one frequency. */
  ghost predicate Uniform(demands: seq<Demand>, class_: RequestClass, frequency: FrequencyClass) {
    forall d :: d in demands ==> d.requestClass == class_ && d.frequency == frequency
  }

  lemma {:induction false} SameExtent(group: G.Group)
    ensures StartOf(AsCandidates(group)) == G.GroupStart(group) && EndOf(AsCandidates(group)) == G.GroupEnd(group)
  {
    var n := |group| - 1;
    if n > 0 {
      SameExtent(group[..n]);
      assert AsCandidates(group)[..n] == AsCandidates(group[..n]);
    }
  }

  lemma SameGaps(group: seq<Demand>, gap: int)
    ensures G.AllowsGap(group, gap) <==> forall c :: c in AsCandidates(group) ==> !c.doNotBridge && gap <= c.maximumBridgeGap
  {
    var candidates := AsCandidates(group);
    if forall c :: c in candidates ==> !c.doNotBridge && gap <= c.maximumBridgeGap {
      forall d | d in group ensures !d.doNotBridge && gap <= d.maximumBridgeGap {
        var i :| 0 <= i < |group| && group[i] == d;
        assert candidates[i] in candidates;
      }
    }
    if G.AllowsGap(group, gap) {
      forall c | c in candidates ensures !c.doNotBridge && gap <= c.maximumBridgeGap {
        var i :| 0 <= i < |candidates| && candidates[i] == c;
        assert group[i] in group;
      }
    }
  }

  lemma SameAppend(group: G.Group, next: Demand, class_: RequestClass, frequency: FrequencyClass)
    requires Uniform(group, class_, frequency) && next.requestClass == class_ && next.frequency == frequency
    ensures G.CanAppend(group, next) <==> MayJoin(AsCandidates(group), AsCandidate(next))
  {
    hide G.AllowsGap;
    SameExtent(group);
    SameGaps(group + [next], next.block.start - G.GroupEnd(group) - 1);
    assert AsCandidates(group + [next]) == AsCandidates(group) + [AsCandidate(next)];
    assert group[0] in group;
  }

  lemma {:induction false} SameGroups(sorted: seq<Demand>, class_: RequestClass, frequency: FrequencyClass)
    requires Uniform(sorted, class_, frequency)
    ensures AsCandidateGroups(G.Groups(sorted)) == GroupsOf(AsCandidates(sorted))
  {
    hide G.CanAppend, MayJoin, Uniform;
    if sorted != [] {
      var n := |sorted| - 1;
      UniformParts(sorted, class_, frequency);
      SameGroups(sorted[..n], class_, frequency);
      assert AsCandidates(sorted)[..n] == AsCandidates(sorted[..n]);
      var groups := G.Groups(sorted[..n]);
      if groups != [] {
        UniformGroup(sorted[..n], class_, frequency);
        SameAppend(groups[|groups| - 1], sorted[n], class_, frequency);
      }
      SameJoin(groups, sorted[n]);
    }
  }

  lemma UniformParts(demands: seq<Demand>, class_: RequestClass, frequency: FrequencyClass)
    requires Uniform(demands, class_, frequency) && demands != []
    ensures Uniform(demands[..|demands| - 1], class_, frequency)
    ensures demands[|demands| - 1].requestClass == class_ && demands[|demands| - 1].frequency == frequency
  {
    assert demands[|demands| - 1] in demands;
    assert forall d :: d in demands[..|demands| - 1] ==> d in demands;
  }

  lemma UniformGroup(sorted: seq<Demand>, class_: RequestClass, frequency: FrequencyClass)
    requires Uniform(sorted, class_, frequency) && G.Groups(sorted) != []
    ensures Uniform(G.Groups(sorted)[|G.Groups(sorted)| - 1], class_, frequency)
  {
    hide G.Groups;
    var groups := G.Groups(sorted);
    var n := |groups| - 1;
    G.GroupsKeepDemands(sorted);
    assert G.Flatten(groups) == G.Flatten(groups[..n]) + groups[n];
    forall d | d in groups[n] ensures d in sorted {
      assert d in G.Flatten(groups);
    }
  }

  lemma SameJoin(groups: seq<G.Group>, next: Demand)
    requires groups != [] ==>
               (G.CanAppend(groups[|groups| - 1], next) <==> MayJoin(AsCandidates(groups[|groups| - 1]), AsCandidate(next)))
    ensures AsCandidateGroups(G.Place(groups, next)) == Join(AsCandidateGroups(groups), AsCandidate(next))
  {
    hide G.CanAppend, MayJoin;
    var n := |groups| - 1;
    if groups != [] && G.CanAppend(groups[n], next) {
      assert AsCandidates(groups[n] + [next]) == AsCandidates(groups[n]) + [AsCandidate(next)];
    } else {
      assert AsCandidates([next]) == [AsCandidate(next)];
    }
  }

  lemma SameOrder(a: Demand, b: Demand)
    requires a.requestClass == b.requestClass && a.frequency == b.frequency
    ensures G.DemandLe(a, b) <==> CandidateLe(AsCandidate(a), AsCandidate(b))
  {
  }

  lemma {:induction false} SameInsert(d: Demand, demands: seq<Demand>)
    requires forall x :: x in demands ==> x.requestClass == d.requestClass && x.frequency == d.frequency
    ensures AsCandidates(Sorting.Insert(d, demands, G.DemandLe)) == Sorting.Insert(AsCandidate(d), AsCandidates(demands), CandidateLe)
  {
    hide G.DemandLe, CandidateLe, AsCandidate;
    if demands != [] {
      SameOrder(d, demands[0]);
      assert AsCandidates(demands)[1..] == AsCandidates(demands[1..]);
      SameInsert(d, demands[1..]);
      if !G.DemandLe(d, demands[0]) {
        assert AsCandidates([demands[0]] + Sorting.Insert(d, demands[1..], G.DemandLe))
            == [AsCandidate(demands[0])] + AsCandidates(Sorting.Insert(d, demands[1..], G.DemandLe));
      }
    }
  }

  lemma {:induction false} SameSort(demands: seq<Demand>, class_: RequestClass, frequency: FrequencyClass)
    requires Uniform(demands, class_, frequency)
    ensures AsCandidates(G.Sorted(demands)) == Sorting.Sort(AsCandidates(demands), CandidateLe)
    ensures Uniform(G.Sorted(demands), class_, frequency)
  {
    G.DemandOrder();
    Sorting.SortSorts(demands, G.DemandLe);
    Sorting.SameElements(G.Sorted(demands), demands);
    if demands != [] {
      assert forall x :: x in demands[1..] ==> x in demands;
      SameSort(demands[1..], class_, frequency);
      assert AsCandidates(demands)[1..] == AsCandidates(demands[1..]);
      SameInsert(demands[0], G.Sorted(demands[1..]));
    }
  }

  /** On demands of one class and one frequency the cyclic planner and the freeze-frame planner, which were written
      separately, make the same groups. */
  lemma GroupersAgree(demands: seq<Demand>, class_: RequestClass, frequency: FrequencyClass)
    requires Uniform(demands, class_, frequency)
    ensures AsCandidateGroups(G.Groups(G.Sorted(demands))) == GroupsOf(Sorting.Sort(AsCandidates(demands), CandidateLe))
  {
    hide G.Groups, GroupsOf;
    SameSort(demands, class_, frequency);
    SameGroups(G.Sorted(demands), class_, frequency);
  }

  // ---------------------------------------------------------------- the freeze-frame plan

  predicate FrameSliceLe(a: FrameSlice, b: FrameSlice) {
    if a.offset != b.offset then a.offset < b.offset else TextLe(a.parameterId, b.parameterId)
  }

  function FrameSliceOf(c: Candidate, start: nat): FrameSlice {
    FrameSlice(c.parameterId, c.block.start - start, c.block.count)
  }

  function FrameSlices(group: Candidates): (slices: seq<FrameSlice>)
    ensures |slices| == |group|
    ensures forall i :: 0 <= i < |group| ==> slices[i] == FrameSliceOf(group[i], StartOf(group))
  {
    seq(|group|, i requires 0 <= i < |group| => FrameSliceOf(group[i], StartOf(group)))
  }

  function FrameBlockOf(group: Candidates): FrameBlock {
    var block := Modbus.RegisterBlock(group[0].block.table, StartOf(group), Max(EndOf(group) - StartOf(group) + 1, 0));
    FrameBlock(Modbus.ReadFunction(block.table), block, Sorting.Sort(FrameSlices(group), FrameSliceLe))
  }

  function FrameBlocks(groups: seq<Candidates>): (blocks: seq<FrameBlock>)
    ensures |blocks| == |groups|
    ensures forall i :: 0 <= i < |groups| ==> blocks[i] == FrameBlockOf(groups[i])
  {
    seq(|groups|, i requires 0 <= i < |groups| => FrameBlockOf(groups[i]))
  }

  function FrameGroups(profile: PollProfile, ids: seq<ParameterId>): seq<Candidates>
    requires forall id :: id in ids ==> id in profile.parameters
  {
    GroupsOf(Sorting.Sort(CandidatesFor(profile, ids), CandidateLe))
  }

  /** A candidate as the cyclic planner would see it. */
  function AsDemand(c: Candidate): Demand {
    Demand(c.parameterId, c.block, Fast, Interactive, 0, {}, {}, false, c.doNotBridge, c.maximumBridgeGap, 0)
  }

  function AsDemands(candidates: seq<Candidate>): (demands: seq<Demand>)
    ensures |demands| == |candidates|
    ensures forall i :: 0 <= i < |candidates| ==> demands[i] == AsDemand(candidates[i])
  {
    seq(|candidates|, i requires 0 <= i < |candidates| => AsDemand(candidates[i]))
  }

  /** Every group of the freeze-frame planner is a readable group of the cyclic planner. */
  lemma FrameGroupsAreReadable(profile: PollProfile, ids: seq<ParameterId>, i: nat) returns (group: G.Group)
    requires profile.Valid() && forall id :: id in ids ==> id in profile.parameters
    requires i < |FrameGroups(profile, ids)|
    ensures G.Readable(group) && AsCandidates(group) == FrameGroups(profile, ids)[i]
    ensures forall d :: d in group ==>
              && d.parameterId in ids && var parameter := profile.parameters[d.parameterId];
                 d.block == parameter.block && d.doNotBridge == parameter.doNotBridge && d.maximumBridgeGap == parameter.maximumBridgeGap
  {
    hide G.Groups, GroupsOf, G.DemandLe, CandidateLe;
    var candidates := CandidatesFor(profile, ids);
    var demands := AsDemands(candidates);
    CandidatesMean(profile, ids);
    assert AsCandidates(demands) == candidates;
    forall d | d in demands
      ensures d.parameterId in ids && AsCandidate(d) == CandidateFor(d.parameterId, profile.parameters[d.parameterId])
      ensures G.ReadableBlock(d.block)
    {
      var k :| 0 <= k < |demands| && demands[k] == d;
      assert candidates[k] in candidates;
    }
    GroupersAgree(demands, Interactive, Fast);
    var sorted := G.Sorted(demands);
    group := G.Groups(sorted)[i];
    GroupOfSorted(demands, i);
  }

  lemma GroupOfSorted(demands: seq<Demand>, i: nat)
    requires (forall d :: d in demands ==> G.ReadableBlock(d.block)) && i < |G.Groups(G.Sorted(demands))|
    ensures G.Readable(G.Groups(G.Sorted(demands))[i])
    ensures forall d :: d in G.Groups(G.Sorted(demands))[i] ==> d in demands
  {
    hide G.Groups, G.DemandLe, G.ReadableBlock, G.Grown, Sorting.Sort;
    var sorted := G.Sorted(demands);
    var groups := G.Groups(sorted);
    G.DemandOrder();
    Sorting.SortSorts(demands, G.DemandLe);
    Sorting.SameElements(sorted, demands);
    G.GroupsAreGrown(sorted);
    G.GroupsKeepDemands(sorted);
    var offset := G.PiecesOfFlatten(groups, i);
    var g := groups[i];
    assert G.Grown(g);
    G.GrownHasOneKey(g);
    G.PieceIsReadable(sorted, offset, g);
    forall d | d in g ensures d in demands {
      assert d in G.Flatten(groups)[offset..offset + |g|];
      assert d in sorted;
    }
  }

  datatype Collected = Known(candidates: seq<Candidate>) | Unknown(parameterId: ParameterId)

  /** The first parameter of the list that the profile does not have. */
  ghost predicate FirstUnknown(profile: PollProfile, parameters: seq<ParameterId>, id: ParameterId) {
    exists k :: 0 <= k < |parameters| && parameters[k] == id && id !in profile.parameters
      && forall j :: 0 <= j < k ==> parameters[j] in profile.parameters
  }

  method CollectParameters(profile: PollProfile, parameters: seq<ParameterId>) returns (collected: Collected)
    ensures collected.Known? <==> forall id :: id in parameters ==> id in profile.parameters
    ensures collected.Known? ==> collected.candidates == CandidatesFor(profile, parameters)
    ensures collected.Unknown? ==> FirstUnknown(profile, parameters, collected.parameterId)
  {
    var unique: set<ParameterId> := {};
    var candidates: seq<Candidate> := [];
    for i := 0 to |parameters|
      invariant forall id :: id in unique <==> id in parameters[..i]
      invariant forall id :: id in parameters[..i] ==> id in profile.parameters
      invariant candidates == CandidatesFor(profile, parameters[..i])
    {
      var id := parameters[i];
      assert parameters[..i + 1][..i] == parameters[..i];
      assert id in parameters;
      if id !in unique {
        if id !in profile.parameters {
          assert forall j :: 0 <= j < i ==> parameters[j] in parameters[..i];
          return Unknown(id);
        }
        candidates := candidates + [CandidateFor(id, profile.parameters[id])];
      }
      unique := unique + {id};
    }
    assert parameters[..|parameters|] == parameters;
    return Known(candidates);
  }

  /** Distinct known parameters, at most 64 of them, grouped into as few reads as the greedy pass finds. */
  method BuildFaultFreezeFrame(profile: PollProfile, parameters: seq<ParameterId>) returns (plan: FramePlan)
    requires profile.Valid()
    ensures plan.TooManyParameters? <==> |parameters| > 64
    ensures |parameters| <= 64 ==>
              if forall id :: id in parameters ==> id in profile.parameters
              then plan == Frame(FrameBlocks(FrameGroups(profile, parameters)))
              else plan.UnknownParameter? && FirstUnknown(profile, parameters, plan.parameterId)
  {
    hide GroupsOf, FrameBlockOf, CandidateLe, Sorting.Sort, CandidatesFor, StartOf, EndOf;
    if |parameters| > MAX_FREEZE_FRAME_PARAMETERS {
      return TooManyParameters(|parameters|);
    }
    var collected := CollectParameters(profile, parameters);
    if collected.Unknown? {
      return FramePlan.UnknownParameter(collected.parameterId);
    }
    var groups := CollectCandidates(Sorting.Sort(collected.candidates, CandidateLe));
    var blocks := [];
    for i := 0 to |groups|
      invariant blocks == FrameBlocks(groups)[..i]
    {
      FrameBlockIsValid(profile, parameters, i);
      var table := groups[i][0].block.table;
      if EndOf(groups[i]) < StartOf(groups[i])
         || !Modbus.RegisterBlock(table, StartOf(groups[i]), EndOf(groups[i]) - StartOf(groups[i]) + 1).ValidFor(Modbus.ReadFunction(table))
      {
        // Every group is a readable group of the cyclic planner.
        assert false;
      }
      blocks := blocks + [FrameBlockOf(groups[i])];
    }
    return Frame(blocks);
  }

  lemma FrameBlockIsValid(profile: PollProfile, ids: seq<ParameterId>, i: nat)
    requires profile.Valid() && forall id :: id in ids ==> id in profile.parameters
    requires i < |FrameGroups(profile, ids)|
    ensures var group := FrameGroups(profile, ids)[i];
            && StartOf(group) <= EndOf(group)
            && G.ReadableBlock(Modbus.RegisterBlock(group[0].block.table, StartOf(group), EndOf(group) - StartOf(group) + 1))
  {
    hide FrameGroups, G.Readable;
    var group := FrameGroupsAreReadable(profile, ids, i);
    G.GroupedBlockIsValid(group);
    SameExtent(group);
    assert AsCandidates(group)[0] == AsCandidate(group[0]);
  }

  /** Every block of a freeze-frame plan is one valid read of at most 125 registers, and each of its slices cuts out
      exactly the words of reading the parameter alone. */
  lemma FrameReadsRefine(profile: PollProfile, ids: seq<ParameterId>, i: nat, slice: FrameSlice, memory: (Modbus.Table, nat) -> Word)
    requires profile.Valid() && forall id :: id in ids ==> id in profile.parameters
    requires i < |FrameGroups(profile, ids)| && slice in FrameBlockOf(FrameGroups(profile, ids)[i]).slices
    ensures var block := FrameBlockOf(FrameGroups(profile, ids)[i]).block;
            && G.ReadableBlock(block) && block.count <= 125
            && slice.parameterId in ids && 0 <= slice.offset && slice.offset + slice.count <= block.count
            && G.ReadWords(memory, block)[slice.offset..slice.offset + slice.count]
               == G.ReadWords(memory, profile.parameters[slice.parameterId].block)
  {
    hide FrameGroups, G.Readable, G.ReadWords, Sorting.Sort, FrameSlices;
    var group := FrameGroupsAreReadable(profile, ids, i);
    var member := FrameSliceHasMember(group, slice);
    SameExtent(group);
    G.GroupedBlockIsValid(group);
    G.GroupedReadRefines(group, member, memory);
    assert AsCandidates(group)[0] == AsCandidate(group[0]);
  }

  lemma FrameSliceHasMember(group: G.Group, slice: FrameSlice) returns (member: Demand)
    requires slice in FrameBlockOf(AsCandidates(group)).slices
    ensures member in group && slice == FrameSliceOf(AsCandidate(member), StartOf(AsCandidates(group)))
  {
    var unsorted := FrameSlices(AsCandidates(group));
    FrameSliceOrder();
    Sorting.SortSorts(unsorted, FrameSliceLe);
    Sorting.SameElements(Sorting.Sort(unsorted, FrameSliceLe), unsorted);
    assert slice in unsorted;
    var k :| 0 <= k < |unsorted| && unsorted[k] == slice;
    member := group[k];
  }

  lemma FrameSliceOrder()
    ensures Sorting.TotalPreorder(FrameSliceLe)
  {
    forall a: FrameSlice, b: FrameSlice ensures FrameSliceLe(a, b) || FrameSliceLe(b, a) {
      TextLeTotal(a.parameterId, b.parameterId);
    }
    forall a: FrameSlice, b: FrameSlice, c: FrameSlice | FrameSliceLe(a, b) && FrameSliceLe(b, c) ensures FrameSliceLe(a, c) {
      if TextLe(a.parameterId, b.parameterId) && TextLe(b.parameterId, c.parameterId) {
        TextLeTransitive(a.parameterId, b.parameterId, c.parameterId);
      }
    }
  }
}
