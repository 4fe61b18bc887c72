/** The final poll plan and what it guarantees. */
module PollPlans {
  import opened Domain
  import Modbus
  import opened TextOrder
  import Sorting
  import opened PollDemands
  import opened PollGrouping
  import opened PollPlanning

  datatype Slice = Slice(
    parameterId: ParameterId, offset: int, count: nat, subscribers: set<string>, reasons: set<Reason>, historyRequired: bool,
    maximumAge: Nanos)

  datatype PollBlock = PollBlock(
    index: nat, block: Modbus.RegisterBlock, requestClass: RequestClass, frequency: FrequencyClass, period: Nanos, nextDue: nat,
    maximumAge: Nanos, cost: Nanos, ppm: nat, slices: seq<Slice>)

  datatype PollPlan = PollPlan(
    version: nat, createdAt: nat, blocks: seq<PollBlock>, degradations: seq<Degradation>, rejections: seq<Rejection>,
    utilizationPpm: nat, budgetPpm: nat)

  // ---------------------------------------------------------------- slices

  predicate SliceLe(a: Slice, b: Slice) {
    if a.offset != b.offset then a.offset < b.offset else TextLe(a.parameterId, b.parameterId)
  }

  lemma SliceOrder()
    ensures Sorting.TotalPreorder(SliceLe)
  {
    forall a: Slice, b: Slice ensures SliceLe(a, b) || SliceLe(b, a) {
      TextLeTotal(a.parameterId, b.parameterId);
    }
    forall a: Slice, b: Slice, c: Slice | SliceLe(a, b) && SliceLe(b, c) ensures SliceLe(a, c) {
      if TextLe(a.parameterId, b.parameterId) && TextLe(b.parameterId, c.parameterId) {
        TextLeTransitive(a.parameterId, b.parameterId, c.parameterId);
      }
    }
  }

  function SliceOf(member: Demand, start: nat): Slice {
    Slice(member.parameterId, member.block.start - start, member.block.count, member.subscribers, member.reasons,
          member.historyRequired, member.maximumAge)
  }

  function SlicesOf(members: seq<Demand>, start: nat): (slices: seq<Slice>)
    ensures |slices| == |members|
    ensures forall i :: 0 <= i < |members| ==> slices[i] == SliceOf(members[i], start)
  {
    seq(|members|, i requires 0 <= i < |members| => SliceOf(members[i], start))
  }

  function SortedSlices(draft: Draft): seq<Slice> {
    Sorting.Sort(SlicesOf(draft.members, draft.block.start), SliceLe)
  }

  /** The slices of a block are its members, ordered by offset, none lost and none made up. */
  lemma SlicesAreMembers(draft: Draft)
    ensures Sorting.SortedBy(SortedSlices(draft), SliceLe)
    ensures forall slice :: slice in SortedSlices(draft) <==>
              exists member :: member in draft.members && slice == SliceOf(member, draft.block.start)
    ensures multiset(SliceIds(SortedSlices(draft))) == multiset(Ids(draft.members))
  {
    SliceOrder();
    var unsorted := SlicesOf(draft.members, draft.block.start);
    Sorting.SortSorts(unsorted, SliceLe);
    Sorting.SameElements(SortedSlices(draft), unsorted);
    forall slice ensures slice in SortedSlices(draft) <==>
                           exists member :: member in draft.members && slice == SliceOf(member, draft.block.start)
    {
      if slice in unsorted {
        var i :| 0 <= i < |unsorted| && unsorted[i] == slice;
        assert draft.members[i] in draft.members;
      }
    }
    Sorting.SortKeepsGathered(IdOf, unsorted, SliceLe);
    GatheredIds(SortedSlices(draft));
    GatheredIds(unsorted);
    assert SliceIds(unsorted) == Ids(draft.members);
  }

  function SliceIds(slices: seq<Slice>): (ids: seq<ParameterId>)
    ensures |ids| == |slices|
    ensures forall i :: 0 <= i < |slices| ==> ids[i] == slices[i].parameterId
  {
    seq(|slices|, i requires 0 <= i < |slices| => slices[i].parameterId)
  }

  function IdOf(slice: Slice): multiset<ParameterId> {
    multiset{slice.parameterId}
  }

  lemma {:induction false} GatheredIds(slices: seq<Slice>)
    ensures Sorting.Gather(IdOf, slices) == multiset(SliceIds(slices))
  {
    if slices != [] {
      GatheredIds(slices[1..]);
      assert SliceIds(slices) == [slices[0].parameterId] + SliceIds(slices[1..]);
    }
  }

  // ---------------------------------------------------------------- final blocks

  predicate DraftLe(a: Draft, b: Draft) {
    if a.period != b.period then a.period < b.period
    else if a.requestClass.Rank() != b.requestClass.Rank() then a.requestClass.Rank() > b.requestClass.Rank()
    else if TableRank(a.block.table) != TableRank(b.block.table) then TableRank(a.block.table) < TableRank(b.block.table)
    else a.block.start <= b.block.start
  }

  lemma DraftOrder()
    ensures Sorting.TotalPreorder(DraftLe)
  {
  }

  /** The share of the period after which block `seen` of `total` with this period starts. */
  function PhaseOf(period: Nanos, seen: nat, total: nat): Nanos {
    if seen == 0 || total <= 1 then 0 else Min(Min(period * seen, U128_MAX) / total, U64_MAX)
  }

  function CountPeriod(drafts: seq<Draft>, period: Nanos): nat {
    if drafts == [] then 0
    else CountPeriod(drafts[..|drafts| - 1], period) + (if drafts[|drafts| - 1].period == period then 1 else 0)
  }

  function MakeBlock(draft: Draft, index: nat, seen: nat, total: nat, now: nat, slices: seq<Slice>): PollBlock {
    PollBlock(Min(index, U32_MAX), draft.block, draft.requestClass, draft.frequency, draft.period,
              now + PhaseOf(draft.period, seen, total), draft.maximumAge, draft.cost, draft.ppm, slices)
  }

  function FinalBlock(draft: Draft, index: nat, seen: nat, total: nat, now: nat): PollBlock {
    MakeBlock(draft, index, seen, total, now, SortedSlices(draft))
  }

  function FinalBlocks(drafts: seq<Draft>, now: nat): (blocks: seq<PollBlock>)
    ensures |blocks| == |drafts|
    ensures forall i :: 0 <= i < |drafts| ==>
              blocks[i] == FinalBlock(drafts[i], i, CountPeriod(drafts[..i], drafts[i].period), CountPeriod(drafts, drafts[i].period), now)
  {
    seq(|drafts|, i requires 0 <= i < |drafts| =>
      FinalBlock(drafts[i], i, CountPeriod(drafts[..i], drafts[i].period), CountPeriod(drafts, drafts[i].period), now))
  }

  function CountOf(counts: map<Nanos, nat>, period: Nanos): nat {
    if period in counts then counts[period] else 0
  }

  ghost predicate Counted(counts: map<Nanos, nat>, drafts: seq<Draft>) {
    forall period: Nanos :: CountOf(counts, period) == CountPeriod(drafts, period)
  }

  lemma NothingCounted(drafts: seq<Draft>)
    ensures Counted(map[], drafts[..0])
  {
  }

  lemma CountedNext(counts: map<Nanos, nat>, drafts: seq<Draft>, i: nat)
    requires i < |drafts| && Counted(counts, drafts[..i])
    ensures CountOf(counts, drafts[i].period) == CountPeriod(drafts[..i], drafts[i].period)
    ensures Counted(counts[drafts[i].period := CountOf(counts, drafts[i].period) + 1], drafts[..i + 1])
  {
    var next := counts[drafts[i].period := CountOf(counts, drafts[i].period) + 1];
    assert drafts[..i + 1][..i] == drafts[..i];
    forall period: Nanos ensures CountOf(next, period) == CountPeriod(drafts[..i + 1], period) {
      assert CountOf(counts, period) == CountPeriod(drafts[..i], period);
    }
  }

  lemma CountedAt(counts: map<Nanos, nat>, drafts: seq<Draft>, period: Nanos)
    requires Counted(counts, drafts)
    ensures CountOf(counts, period) == CountPeriod(drafts, period)
  {
  }

  method CountPeriods(drafts: seq<Draft>) returns (counts: map<Nanos, nat>)
    ensures Counted(counts, drafts)
  {
    hide Counted, CountOf;
    NothingCounted(drafts);
    counts := map[];
    for i := 0 to |drafts|
      invariant Counted(counts, drafts[..i])
    {
      CountedNext(counts, drafts, i);
      counts := counts[drafts[i].period := CountOf(counts, drafts[i].period) + 1];
    }
    assert drafts[..|drafts|] == drafts;
  }

  /** Every member starts inside its block. */
  ghost predicate Aligned(draft: Draft) {
    forall member :: member in draft.members ==> member.block.start >= draft.block.start
  }

  /** Cuts a block into the slices of its members. A member never starts before its block. */
  method BuildSlices(draft: Draft) returns (slices: seq<Slice>)
    requires Aligned(draft)
    ensures slices == SortedSlices(draft)
  {
    slices := [];
    for k := 0 to |draft.members|
      invariant |slices| == k && forall i :: 0 <= i < k ==> slices[i] == SliceOf(draft.members[i], draft.block.start)
    {
      var member := draft.members[k];
      assert member in draft.members;
      if member.block.start < draft.block.start {
        assert false;
      }
      slices := slices + [SliceOf(member, draft.block.start)];
    }
    assert slices == SlicesOf(draft.members, draft.block.start);
    slices := Sorting.Sort(slices, SliceLe);
  }

  /** Numbers the ordered drafts and spreads the first due times of equal periods over one period. */
  method SpreadBlocks(sorted: seq<Draft>, now: nat) returns (blocks: seq<PollBlock>)
    requires forall d :: d in sorted ==> Aligned(d)
    ensures blocks == FinalBlocks(sorted, now)
  {
    hide SortedSlices, PhaseOf, Aligned, Counted, CountOf, MakeBlock, FinalBlock, CountPeriod;
    NothingCounted(sorted);
    var totalPerPeriod := CountPeriods(sorted);
    var seenPerPeriod: map<Nanos, nat> := map[];
    blocks := [];
    ghost var final := FinalBlocks(sorted, now);
    for index := 0 to |sorted|
      invariant Counted(seenPerPeriod, sorted[..index])
      invariant blocks == final[..index]
    {
      var draft := sorted[index];
      assert draft in sorted;
      CountedNext(seenPerPeriod, sorted, index);
      CountedAt(totalPerPeriod, sorted, draft.period);
      var seen := CountOf(seenPerPeriod, draft.period);
      var slices := BuildSlices(draft);
      var block := MakeBlock(draft, index, seen, CountOf(totalPerPeriod, draft.period), now, slices);
      BlockAt(sorted, now, index);
      assert final[..index + 1] == final[..index] + [block];
      blocks := blocks + [block];
      seenPerPeriod := seenPerPeriod[draft.period := seen + 1];
    }
  }

  lemma BlockAt(sorted: seq<Draft>, now: nat, index: nat)
    requires index < |sorted|
    ensures var draft := sorted[index];
            FinalBlocks(sorted, now)[index] ==
            MakeBlock(draft, index, CountPeriod(sorted[..index], draft.period), CountPeriod(sorted, draft.period), now, SortedSlices(draft))
  {
    hide SortedSlices, MakeBlock;
  }

  /** Orders the drafts and turns them into numbered, spread blocks. */
  method FinalizeBlocks(drafts: seq<Draft>, now: nat) returns (blocks: seq<PollBlock>)
    requires forall d :: d in drafts ==> Aligned(d)
    ensures blocks == FinalBlocks(Sorting.Sort(drafts, DraftLe), now)
  {
    hide Aligned;
    SortedDrafts(drafts);
    blocks := SpreadBlocks(Sorting.Sort(drafts, DraftLe), now);
  }

  lemma SortedDrafts(drafts: seq<Draft>)
    ensures forall d :: d in Sorting.Sort(drafts, DraftLe) <==> d in drafts
    ensures |Sorting.Sort(drafts, DraftLe)| == |drafts|
    ensures Sorting.SortedBy(Sorting.Sort(drafts, DraftLe), DraftLe)
  {
    DraftOrder();
    Sorting.SortSorts(drafts, DraftLe);
    Sorting.SameElements(Sorting.Sort(drafts, DraftLe), drafts);
  }

  lemma {:induction false} CountGrows(drafts: seq<Draft>, i: nat, period: Nanos)
    requires i <= |drafts|
    ensures CountPeriod(drafts[..i], period) <= CountPeriod(drafts, period)
    ensures i < |drafts| && drafts[i].period == period ==> CountPeriod(drafts[..i], period) < CountPeriod(drafts, period)
    decreases |drafts|
  {
    var n := |drafts| - 1;
    if i == |drafts| {
      assert drafts[..i] == drafts;
    } else if i == n {
    } else {
      CountGrows(drafts[..n], i, period);
      assert drafts[..n][..i] == drafts[..i];
    }
  }

  /** Blocks with the same period start spread over one period from now, in order, the k-th of n after k/n of it. */
  lemma FirstDueIsSpread(drafts: seq<Draft>, now: nat, i: nat)
    requires i < |drafts| && 0 < drafts[i].period && drafts[i].period <= U64_MAX && |drafts| <= U64_MAX
    ensures var b := FinalBlocks(drafts, now)[i];
            var seen, total := CountPeriod(drafts[..i], b.period), CountPeriod(drafts, b.period);
            && seen < total && b.nextDue == now + b.period * seen / total
            && now <= b.nextDue < now + b.period
  {
    var period := drafts[i].period;
    var seen, total := CountPeriod(drafts[..i], period), CountPeriod(drafts, period);
    CountGrows(drafts, i, period);
    CountAtMost(drafts, period);
    ShareIsSmall(period, seen, total);
  }

  lemma {:induction false} CountAtMost(drafts: seq<Draft>, period: Nanos)
    ensures CountPeriod(drafts, period) <= |drafts|
  {
    if drafts != [] { CountAtMost(drafts[..|drafts| - 1], period); }
  }

  lemma ShareIsSmall(period: nat, seen: nat, total: nat)
    requires 0 < period <= U64_MAX && seen < total <= U64_MAX
    ensures period * seen / total < period && PhaseOf(period, seen, total) == period * seen / total
  {
    ProductGrows(period, seen, period, total);
    ProductGrows(period, seen, U64_MAX, U64_MAX);
    assert period * seen < period * total by { assert period * (total - seen) > 0; }
    QuotientBelow(period * seen, period, total);
  }

  lemma ProductGrows(a: nat, b: nat, c: nat, d: nat)
    requires a <= c && b <= d
    ensures a * b <= c * d
  {
    assert (c - a) * b >= 0 && c * (d - b) >= 0;
  }

  lemma QuotientBelow(x: nat, bound: nat, d: nat)
    requires d > 0 && x < bound * d
    ensures x / d < bound
  {
    var q := x / d;
    assert x == q * d + x % d;
    CancelBelow(q, bound, d);
  }

  lemma CancelBelow(a: nat, b: nat, d: nat)
    requires d > 0 && a * d < b * d
    ensures a < b
  {
  }

  // ---------------------------------------------------------------- the plan

  function TakenIn(profile: PollProfile, subscriptions: seq<Subscription>, config: Config): Taken {
    Intake(InTextOrder(SubscribedIds(subscriptions)), profile, subscriptions, config.cadences)
  }

  function Settled(profile: PollProfile, subscriptions: seq<Subscription>, config: Config): Settlement
    requires config.link.Valid()
  {
    Settle(Settlement(TakenIn(profile, subscriptions, config).active, [], []), profile, config)
  }

  function Refusals(dropped: seq<Demand>): (rejections: seq<Rejection>)
    ensures |rejections| == |dropped|
    ensures forall i :: 0 <= i < |dropped| ==> rejections[i] == Rejection(dropped[i].parameterId, dropped[i].subscribers, BudgetExceeded)
  {
    seq(|dropped|, i requires 0 <= i < |dropped| => Rejection(dropped[i].parameterId, dropped[i].subscribers, BudgetExceeded))
  }

  function PlanOf(version: nat, profile: PollProfile, subscriptions: seq<Subscription>, config: Config, now: nat): PollPlan
    requires config.link.Valid()
  {
    var settled := Settled(profile, subscriptions, config);
    var drafts := DraftPlan(settled.active, profile, config);
    PollPlan(version, now, FinalBlocks(Sorting.Sort(drafts, DraftLe), now), settled.degradations,
             TakenIn(profile, subscriptions, config).rejections + Refusals(settled.dropped), TotalPpm(drafts), config.budgetPpm)
  }

  datatype Planned = PlanBuilt(plan: PollPlan) | PlanInvalid

  method TakeSubscriptions(profile: PollProfile, subscriptions: seq<Subscription>, config: Config) returns (taken: Taken)
    ensures taken == TakenIn(profile, subscriptions, config)
  {
    hide TakeIn, SubscriptionsTo, Subscribers;
    var ids := InTextOrder(SubscribedIds(subscriptions));
    taken := Taken([], []);
    for i := 0 to |ids|
      invariant taken == Intake(ids[..i], profile, subscriptions, config.cadences)
    {
      assert ids[..i + 1][..i] == ids[..i];
      var merged := TakeIn(ids[i], profile, subscriptions, config.cadences);
      match merged
      case Merged(demand) => taken := taken.(active := taken.active + [demand]);
      case Unmet(reason) =>
        taken := taken.(rejections := taken.rejections + [Rejection(ids[i], Subscribers(SubscriptionsTo(ids[i], subscriptions)), reason)]);
    }
    assert ids[..|ids|] == ids;
  }

  lemma TakenIsUsable(profile: PollProfile, subscriptions: seq<Subscription>, config: Config)
    requires profile.Valid() && config.Valid()
    ensures var taken := TakenIn(profile, subscriptions, config);
            && DistinctIds(taken.active) && AllPlannable(taken.active, config.cadences)
            && Fair(taken.active, Settlement(taken.active, [], []), config.cadences)
            && multiset(Ids(taken.active)) + multiset(RejectedIds(taken.rejections)) == multiset(SubscribedIds(subscriptions))
  {
    hide Intake, Fair;
    var ids := InTextOrder(SubscribedIds(subscriptions));
    var taken := TakenIn(profile, subscriptions, config);
    IntakePartitions(ids, profile, subscriptions, config.cadences);
    DistinctByIds(taken.active, taken.rejections, ids);
    FairAtFirst(taken.active, config.cadences);
    Sorting.DistinctAsSet(ids, SubscribedIds(subscriptions));
  }

  lemma DraftsAreAligned(active: seq<Demand>, profile: PollProfile, config: Config)
    requires config.Valid() && AllPlannable(active, config.cadences)
    ensures forall d :: d in DraftPlan(active, profile, config) ==>
              && Draftable(d.members, config.cadences) && d == DraftOf(d.members, profile, config) && Aligned(d)
  {
    hide Readable, AllPlannable, DraftOf, Groups, Sorted, Aligned;
    var groups := Groups(Sorted(active));
    GroupsAreDraftable(active, config.cadences);
    DraftsAreOfGroups(groups, profile, config);
    forall d | d in DraftPlan(active, profile, config)
      ensures Draftable(d.members, config.cadences) && d == DraftOf(d.members, profile, config) && Aligned(d)
    {
      var g :| g in groups && d == DraftOf(g, profile, config);
      DraftMeans(g, profile, config);
    }
  }

  lemma {:induction false} DraftsAreOfGroups(groups: seq<Group>, profile: PollProfile, config: Config)
    requires config.link.Valid()
    ensures forall d :: d in DraftsOf(groups, profile, config) ==> exists g :: g in groups && d == DraftOf(g, profile, config)
  {
    hide DraftOf;
    if groups != [] {
      var n := |groups| - 1;
      DraftsAreOfGroups(groups[..n], profile, config);
      assert groups == groups[..n] + [groups[n]];
    }
  }

  /** The draft of a readable group is its one valid block, with the period and the youngest age of its members. */
  lemma DraftMeans(g: Group, profile: PollProfile, config: Config)
    requires config.Valid() && Draftable(g, config.cadences)
    ensures var draft := DraftOf(g, profile, config);
            && draft.members == g && Aligned(draft)
            && GroupEnd(g) >= GroupStart(g) && draft.block == BlockOf(g) && ReadableBlock(draft.block) && draft.block.count <= 125
            && 0 < draft.period <= DURATION_MAX
            && draft.ppm == UtilizationPpm(draft.cost, draft.period) && draft.cost <= DURATION_MAX
            && (forall d :: d in g ==> d.frequency == draft.frequency && draft.period <= d.maximumAge && draft.maximumAge <= d.maximumAge)
  {
    hide ProtocolT35, WireBytes;
    GroupedBlockIsValid(g);
    GroupHasOneKey(g);
    YoungestAgeMeans(g);
    assert g[0] in g;
  }

  /** The whole planner: intake, then relaxing the least important demand until the budget holds, then blocks. */
  method BuildPlan(version: nat, profile: PollProfile, subscriptions: seq<Subscription>, config: Config, now: nat)
    returns (planned: Planned)
    requires profile.Valid() && config.Valid()
    ensures planned == PlanBuilt(PlanOf(version, profile, subscriptions, config, now))
  {
    hide Fair, DraftPlan, TakenIn, Lowest, TotalPpm, Aligned, FinalBlocks;
    var taken := TakeSubscriptions(profile, subscriptions, config);
    TakenIsUsable(profile, subscriptions, config);
    var state := Settlement(taken.active, [], []);
    while true
      invariant Fair(taken.active, state, config.cadences)
      invariant Settle(state, profile, config) == Settled(profile, subscriptions, config)
      decreases StepsLeft(state.active)
    {
      FairIsPlannable(taken.active, state, config.cadences);
      var draft := BuildBlocks(state.active, profile, config);
      if draft.totalPpm <= config.budgetPpm || state.active == [] {
        DraftsAreAligned(state.active, profile, config);
        var blocks := FinalizeBlocks(draft.drafts, now);
        return PlanBuilt(PollPlan(version, now, blocks, state.degradations, taken.rejections + Refusals(state.dropped),
                                  draft.totalPpm, config.budgetPpm));
      }
      RelaxShrinks(state, config.cadences);
      RelaxKeepsFair(taken.active, state, config.cadences);
      var candidate := Lowest(state.active);
      var slowed := Slowed(state.active[candidate], config.cadences);
      if slowed.Some? {
        state := Settlement(
          state.active[candidate := slowed.value],
          state.degradations + [Degradation(state.active[candidate].parameterId, state.active[candidate].frequency, slowed.value.frequency)],
          state.dropped);
      } else {
        state := Settlement(Without(state.active, candidate), state.degradations, state.dropped + [state.active[candidate]]);
      }
    }
  }

  lemma FairIsPlannable(initial: seq<Demand>, s: Settlement, cadences: Cadences)
    requires Fair(initial, s, cadences)
    ensures AllPlannable(s.active, cadences)
  {
  }

  // ---------------------------------------------------------------- order does not matter

  /** The plan is the same for any two lists of the same subscriptions, whatever their order and repetition. */
  lemma PlanIgnoresSubscriptionOrder(version: nat, profile: PollProfile, xs: seq<Subscription>, ys: seq<Subscription>, config: Config, now: nat)
    requires config.link.Valid() && SameMembers(xs, ys)
    ensures PlanOf(version, profile, xs, config, now) == PlanOf(version, profile, ys, config, now)
  {
    assert SubscribedIds(xs) == SubscribedIds(ys);
    IntakeIgnoresOrder(InTextOrder(SubscribedIds(xs)), profile, xs, ys, config.cadences);
  }

  // ---------------------------------------------------------------- where blocks come from

  /** Every block of a plan is made from one draft of the demands that were kept. */
  lemma BlockOrigin(version: nat, profile: PollProfile, subscriptions: seq<Subscription>, config: Config, now: nat, i: nat)
    returns (draft: Draft)
    requires profile.Valid() && config.Valid()
    requires i < |PlanOf(version, profile, subscriptions, config, now).blocks|
    ensures var block := PlanOf(version, profile, subscriptions, config, now).blocks[i];
            && Draftable(draft.members, config.cadences) && draft == DraftOf(draft.members, profile, config)
            && block.slices == SortedSlices(draft) && block.block == draft.block && block.period == draft.period
            && block.cost == draft.cost && block.ppm == draft.ppm
            && block.requestClass == draft.requestClass && block.maximumAge == draft.maximumAge && block.frequency == draft.frequency
    ensures forall d :: d in draft.members ==> d in Settled(profile, subscriptions, config).active
  {
    hide Fair, DraftOf, SortedSlices, Groups, Sorted, TakenIn, Draftable, Readable, Aligned, DraftLe;
    var active := Settled(profile, subscriptions, config).active;
    SettledIsFair(profile, subscriptions, config);
    DraftsAreAligned(active, profile, config);
    var drafts := DraftPlan(active, profile, config);
    SortedDrafts(drafts);
    draft := Sorting.Sort(drafts, DraftLe)[i];
    assert draft in Sorting.Sort(drafts, DraftLe);
    DraftMembersAreActive(active, profile, config, draft);
  }

  lemma SettledIsFair(profile: PollProfile, subscriptions: seq<Subscription>, config: Config)
    requires profile.Valid() && config.Valid()
    ensures Fair(TakenIn(profile, subscriptions, config).active, Settled(profile, subscriptions, config), config.cadences)
    ensures AllPlannable(Settled(profile, subscriptions, config).active, config.cadences)
    ensures Affordable(Settled(profile, subscriptions, config).active, profile, config)
  {
    hide Fair, TakenIn, Settle;
    TakenIsUsable(profile, subscriptions, config);
    var active := TakenIn(profile, subscriptions, config).active;
    SettlingIsFair(active, Settlement(active, [], []), profile, config);
    FairIsPlannable(active, Settled(profile, subscriptions, config), config.cadences);
  }

  lemma DraftKeepsMembers(g: Group, profile: PollProfile, config: Config)
    requires config.link.Valid()
    ensures DraftOf(g, profile, config).members == g
  {
  }

  lemma DraftMembersAreActive(active: seq<Demand>, profile: PollProfile, config: Config, draft: Draft)
    requires config.Valid() && draft in DraftPlan(active, profile, config)
    ensures forall d :: d in draft.members ==> d in active
  {
    hide DraftOf, Sorted, Groups;
    var groups := Groups(Sorted(active));
    DraftsAreOfGroups(groups, profile, config);
    var g :| g in groups && draft == DraftOf(g, profile, config);
    DraftKeepsMembers(g, profile, config);
    var i :| 0 <= i < |groups| && groups[i] == g;
    var offset := PiecesOfFlatten(groups, i);
    GroupsKeepDemands(Sorted(active));
    SortedMeans(active);
    forall d | d in g ensures d in active {
      assert d in Flatten(groups)[offset..offset + |g|];
      assert d in Sorted(active);
    }
  }

  // ---------------------------------------------------------------- every request is answered once

  function IdOfDemand(d: Demand): multiset<ParameterId> {
    multiset{d.parameterId}
  }

  function IdsOfDraft(draft: Draft): multiset<ParameterId> {
    multiset(Ids(draft.members))
  }

  function IdsOfBlock(block: PollBlock): multiset<ParameterId> {
    multiset(SliceIds(block.slices))
  }

  lemma {:induction false} GatheredDemands(demands: seq<Demand>)
    ensures Sorting.Gather(IdOfDemand, demands) == multiset(Ids(demands))
  {
    if demands != [] {
      GatheredDemands(demands[1..]);
      assert Ids(demands) == [demands[0].parameterId] + Ids(demands[1..]);
    }
  }

  lemma {:induction false} GatheredDrafts(groups: seq<Group>, profile: PollProfile, config: Config)
    requires config.link.Valid()
    ensures Sorting.Gather(IdsOfDraft, DraftsOf(groups, profile, config)) == multiset(Ids(Flatten(groups)))
  {
    hide TransactionCost, UtilizationPpm, GroupStart, GroupEnd, YoungestAge;
    if groups != [] {
      var n := |groups| - 1;
      GatheredDrafts(groups[..n], profile, config);
      Sorting.GatherAppends(IdsOfDraft, DraftsOf(groups[..n], profile, config), DraftOf(groups[n], profile, config));
      assert Ids(Flatten(groups)) == Ids(Flatten(groups[..n])) + Ids(groups[n]);
    }
  }

  lemma GatheredBlocks(drafts: seq<Draft>, now: nat)
    ensures Sorting.Gather(IdsOfBlock, FinalBlocks(drafts, now)) == Sorting.Gather(IdsOfDraft, drafts)
  {
    hide SortedSlices, PhaseOf;
    var blocks := FinalBlocks(drafts, now);
    forall i | 0 <= i < |drafts| ensures IdsOfBlock(blocks[i]) == IdsOfDraft(drafts[i]) {
      SlicesAreMembers(drafts[i]);
    }
    Sorting.SameGathered(IdsOfBlock, blocks, IdsOfDraft, drafts);
  }

  lemma BlocksHoldDemands(active: seq<Demand>, profile: PollProfile, config: Config, now: nat)
    requires config.link.Valid()
    ensures Sorting.Gather(IdsOfBlock, FinalBlocks(Sorting.Sort(DraftPlan(active, profile, config), DraftLe), now)) == multiset(Ids(active))
  {
    hide DraftLe, DemandLe, Groups, SortedSlices;
    var drafts := DraftPlan(active, profile, config);
    var sorted := Sorting.Sort(drafts, DraftLe);
    GatheredBlocks(sorted, now);
    Sorting.SortKeepsGathered(IdsOfDraft, drafts, DraftLe);
    GatheredDrafts(Groups(Sorted(active)), profile, config);
    GroupsKeepDemands(Sorted(active));
    Sorting.SortKeepsGathered(IdOfDemand, active, DemandLe);
    GatheredDemands(active);
    GatheredDemands(Sorted(active));
  }

  /** Every parameter that was subscribed to ends up in exactly one slice of one block or in exactly one
      rejection, and nothing else does. */
  lemma EveryRequestIsAnsweredOnce(version: nat, profile: PollProfile, subscriptions: seq<Subscription>, config: Config, now: nat)
    requires profile.Valid() && config.Valid()
    ensures var plan := PlanOf(version, profile, subscriptions, config, now);
            Sorting.Gather(IdsOfBlock, plan.blocks) + multiset(RejectedIds(plan.rejections)) == multiset(SubscribedIds(subscriptions))
  {
    hide DraftLe, DraftPlan, TakenIn, Settle, FinalBlocks, AllPlannable, Affordable;
    var taken, settled := TakenIn(profile, subscriptions, config), Settled(profile, subscriptions, config);
    TakenIsUsable(profile, subscriptions, config);
    SettledIsFair(profile, subscriptions, config);
    BlocksHoldDemands(settled.active, profile, config, now);
    assert RejectedIds(taken.rejections + Refusals(settled.dropped)) == RejectedIds(taken.rejections) + Ids(settled.dropped);
  }

  // ---------------------------------------------------------------- freshness

  lemma {:induction false} TakenDemandsAreMerged(ids: seq<ParameterId>, profile: PollProfile, subscriptions: seq<Subscription>, cadences: Cadences)
    requires cadences.Valid()
    ensures forall d :: d in Intake(ids, profile, subscriptions, cadences).active ==>
              d.parameterId in profile.parameters
              && MergeSubscriptions(d.parameterId, profile.parameters[d.parameterId], SubscriptionsTo(d.parameterId, subscriptions), cadences) == Merged(d)
  {
    hide MergeSubscriptions, SubscriptionsTo, Subscribers;
    if ids != [] {
      var n := |ids| - 1;
      TakenDemandsAreMerged(ids[..n], profile, subscriptions, cadences);
      if ids[n] in profile.parameters {
        MergeMeans(ids[n], profile.parameters[ids[n]], SubscriptionsTo(ids[n], subscriptions), cadences);
      }
    }
  }

  /** A demand that was kept still reads its parameter's block, within the age of all its subscriptions. */
  lemma KeptDemandMeans(profile: PollProfile, subscriptions: seq<Subscription>, config: Config, d: Demand)
    requires profile.Valid() && config.Valid() && d in Settled(profile, subscriptions, config).active
    ensures d.parameterId in profile.parameters && d.block == profile.parameters[d.parameterId].block
    ensures d.requestClass.Periodic()
    ensures forall s :: s in subscriptions && s.parameterId == d.parameterId && !s.frequency.OnDemand? ==> d.maximumAge <= s.maximumAge
  {
    hide MergeSubscriptions, Settle, Intake, AllPlannable, Affordable;
    SettledIsFair(profile, subscriptions, config);
    TakenDemandsAreMerged(InTextOrder(SubscribedIds(subscriptions)), profile, subscriptions, config.cadences);
    var initial := TakenIn(profile, subscriptions, config).active;
    assert SlowedFrom(initial, d);
    var source :| source in initial && d == source.(frequency := d.frequency) && source.frequency.Rank() <= d.frequency.Rank();
    MergeMeans(source.parameterId, profile.parameters[source.parameterId], SubscriptionsTo(source.parameterId, subscriptions), config.cadences);
  }

  lemma SliceHasMember(draft: Draft, slice: Slice) returns (member: Demand)
    requires slice in SortedSlices(draft)
    ensures member in draft.members && slice == SliceOf(member, draft.block.start)
  {
    SlicesAreMembers(draft);
    member :| member in draft.members && slice == SliceOf(member, draft.block.start);
  }

  /** Whatever was upgraded, degraded or shared, a planned parameter is read at least as often as the age of each
      of its cyclic subscriptions asks for. */
  lemma PlannedSlicesAreFresh(version: nat, profile: PollProfile, subscriptions: seq<Subscription>, config: Config, now: nat,
                              i: nat, slice: Slice, s: Subscription)
    requires profile.Valid() && config.Valid()
    requires i < |PlanOf(version, profile, subscriptions, config, now).blocks|
    requires slice in PlanOf(version, profile, subscriptions, config, now).blocks[i].slices
    requires s in subscriptions && s.parameterId == slice.parameterId && !s.frequency.OnDemand?
    ensures var block := PlanOf(version, profile, subscriptions, config, now).blocks[i];
            0 < block.period <= slice.maximumAge <= s.maximumAge && block.maximumAge <= slice.maximumAge
  {
    hide PlanOf, DraftOf, SortedSlices, Draftable, Settled;
    var draft := BlockOrigin(version, profile, subscriptions, config, now, i);
    var member := SliceHasMember(draft, slice);
    DraftMeans(draft.members, profile, config);
    KeptDemandMeans(profile, subscriptions, config, member);
  }

  // ---------------------------------------------------------------- reads

  /** Every planned block is one valid read of at most 125 registers, and cutting a slice out of what it returns
      gives exactly the words of reading that parameter alone. */
  lemma PlannedReadsRefine(version: nat, profile: PollProfile, subscriptions: seq<Subscription>, config: Config, now: nat,
                           i: nat, slice: Slice, memory: (Modbus.Table, nat) -> Word)
    requires profile.Valid() && config.Valid()
    requires i < |PlanOf(version, profile, subscriptions, config, now).blocks|
    requires slice in PlanOf(version, profile, subscriptions, config, now).blocks[i].slices
    ensures var block := PlanOf(version, profile, subscriptions, config, now).blocks[i].block;
            && ReadableBlock(block) && block.count <= 125
            && slice.parameterId in profile.parameters
            && 0 <= slice.offset && slice.offset + slice.count <= block.count
            && ReadWords(memory, block)[slice.offset..slice.offset + slice.count]
               == ReadWords(memory, profile.parameters[slice.parameterId].block)
  {
    hide PlanOf, DraftOf, SortedSlices, Readable, Settled, ReadWords;
    var draft := BlockOrigin(version, profile, subscriptions, config, now, i);
    var member := SliceHasMember(draft, slice);
    DraftMeans(draft.members, profile, config);
    KeptDemandMeans(profile, subscriptions, config, member);
    GroupedReadRefines(draft.members, member, memory);
  }

  /** Every planned block is a request the bus accepts as a cyclic read, at a positive period. */
  lemma PlannedBlocksAreCyclicReads(version: nat, profile: PollProfile, subscriptions: seq<Subscription>, config: Config, now: nat, i: nat)
    requires profile.Valid() && config.Valid()
    requires i < |PlanOf(version, profile, subscriptions, config, now).blocks|
    ensures var block := PlanOf(version, profile, subscriptions, config, now).blocks[i];
            block.requestClass.Periodic() && ReadableBlock(block.block) && block.period > 0
  {
    hide PlanOf, SortedSlices, Draftable, Settled;
    var draft := BlockOrigin(version, profile, subscriptions, config, now, i);
    DraftMeans(draft.members, profile, config);
    assert draft.members[0] in draft.members;
    KeptDemandMeans(profile, subscriptions, config, draft.members[0]);
  }

  // ---------------------------------------------------------------- priority

  /** What the budget costs is paid from the bottom: every demand dropped for the budget is strictly less
      important than every demand kept, and of those kept only the least important one can be slower than
      it came in. */
  lemma BudgetTakesTheLeastImportant(profile: PollProfile, subscriptions: seq<Subscription>, config: Config)
    requires profile.Valid() && config.Valid()
    ensures var settled, initial := Settled(profile, subscriptions, config), TakenIn(profile, subscriptions, config).active;
            && (forall x, y :: x in settled.dropped && y in settled.active ==> Below(x, y))
            && (forall i :: 0 <= i < |settled.active| && settled.active[i] !in initial ==> IsLowest(settled.active, i))
            && (forall d :: d in settled.active ==> SlowedFrom(initial, d))
            && multiset(Ids(settled.active)) + multiset(Ids(settled.dropped)) == multiset(Ids(initial))
  {
    hide TakenIn, Settle, AllPlannable, Affordable;
    SettledIsFair(profile, subscriptions, config);
  }

  // ---------------------------------------------------------------- budget

  function PpmOfBlock(block: PollBlock): nat {
    block.ppm
  }

  lemma SummedBlocks(drafts: seq<Draft>, now: nat)
    ensures Sorting.SumOf(PpmOfBlock, FinalBlocks(drafts, now)) == Sorting.SumOf(PpmOf, drafts)
  {
    hide SortedSlices, PhaseOf;
    Sorting.SameSum(PpmOfBlock, FinalBlocks(drafts, now), PpmOf, drafts);
  }

  /** The share of bus time the blocks really take. */
  function TrueShare(blocks: seq<PollBlock>): real
    requires forall b :: b in blocks ==> b.period > 0
  {
    if blocks == [] then 0.0 else blocks[0].cost as real / blocks[0].period as real + TrueShare(blocks[1..])
  }

  lemma {:induction false} ShareIsCovered(blocks: seq<PollBlock>)
    requires forall b :: b in blocks ==> 0 < b.period && b.cost * ONE_MILLION_PPM <= b.ppm * b.period
    ensures TrueShare(blocks) * 1000000.0 <= Sorting.SumOf(PpmOfBlock, blocks) as real
  {
    if blocks != [] {
      ShareIsCovered(blocks[1..]);
      assert blocks[0] in blocks;
      QuotientIsCovered(blocks[0].cost, blocks[0].period, blocks[0].ppm);
    }
  }

  lemma QuotientIsCovered(cost: nat, period: nat, ppm: nat)
    requires period > 0 && cost * ONE_MILLION_PPM <= ppm * period
    ensures cost as real / period as real * 1000000.0 <= ppm as real
  {
    var c, p, m := cost as real, period as real, ppm as real;
    var z := c / p;
    assert z * p == c;
    assert (z * 1000000.0) * p == c * 1000000.0;
    assert (z * 1000000.0) * p <= m * p;
  }

  /** The reported utilization is within the budget, is the exact sum over the blocks, and covers the true share of
      bus time the blocks take. */
  lemma BudgetIsSound(version: nat, profile: PollProfile, subscriptions: seq<Subscription>, config: Config, now: nat)
    requires profile.Valid() && config.Valid()
    ensures var plan := PlanOf(version, profile, subscriptions, config, now);
            && plan.utilizationPpm <= plan.budgetPpm == config.budgetPpm
            && plan.utilizationPpm == Sorting.SumOf(PpmOfBlock, plan.blocks)
            && (forall b :: b in plan.blocks ==> b.period > 0)
            && TrueShare(plan.blocks) * 1000000.0 <= config.budgetPpm as real
  {
    hide DraftPlan, TakenIn, Settle, DraftLe, AllPlannable, Fair, TotalPpm;
    var plan := PlanOf(version, profile, subscriptions, config, now);
    var active := Settled(profile, subscriptions, config).active;
    var drafts := DraftPlan(active, profile, config);
    var sorted := Sorting.Sort(drafts, DraftLe);
    SettledIsFair(profile, subscriptions, config);
    NothingCostsNothing(active, profile, config);
    TotalIsExact(drafts);
    Sorting.SortKeepsSum(PpmOf, drafts, DraftLe);
    SummedBlocks(sorted, now);
    forall b | b in plan.blocks ensures 0 < b.period && b.cost * ONE_MILLION_PPM <= b.ppm * b.period {
      BlockIsCovered(version, profile, subscriptions, config, now, b);
    }
    ShareIsCovered(plan.blocks);
  }

  lemma NothingCostsNothing(active: seq<Demand>, profile: PollProfile, config: Config)
    requires config.link.Valid()
    ensures active == [] ==> TotalPpm(DraftPlan(active, profile, config)) == 0
  {
  }

  lemma BlockIsCovered(version: nat, profile: PollProfile, subscriptions: seq<Subscription>, config: Config, now: nat, b: PollBlock)
    requires profile.Valid() && config.Valid()
    requires var plan := PlanOf(version, profile, subscriptions, config, now);
             b in plan.blocks && Sorting.SumOf(PpmOfBlock, plan.blocks) <= 700_000
    ensures 0 < b.period && b.cost * ONE_MILLION_PPM <= b.ppm * b.period
  {
    hide PlanOf, DraftOf, SortedSlices, Draftable, Settled;
    var blocks := PlanOf(version, profile, subscriptions, config, now).blocks;
    var i :| 0 <= i < |blocks| && blocks[i] == b;
    var draft := BlockOrigin(version, profile, subscriptions, config, now, i);
    DraftMeans(draft.members, profile, config);
    PartOfSum(blocks, i);
    PpmIsSound(b.cost, b.period);
  }

  lemma {:induction false} PartOfSum(blocks: seq<PollBlock>, i: nat)
    requires i < |blocks|
    ensures blocks[i].ppm <= Sorting.SumOf(PpmOfBlock, blocks)
  {
    if i > 0 { PartOfSum(blocks[1..], i - 1); }
  }
}
