/** The cyclic read plan: intake of subscriptions, the budget loop, and the final blocks. */
module PollPlanning {
  import opened Domain
  import Modbus
  import opened TextOrder
  import Sorting
  import opened PollDemands
  import opened PollGrouping

  datatype Config = Config(cadences: Cadences, link: Link, measuredResponseTime: Nanos, deviceMargin: Nanos, budgetPpm: nat)
  {
    predicate Valid() {
      cadences.Valid() && cadences.slow <= DURATION_MAX && link.Valid() && 0 < budgetPpm <= 700_000
    }
  }

  datatype Degradation = Degradation(parameterId: ParameterId, before: FrequencyClass, after: FrequencyClass)

  // ---------------------------------------------------------------- drafts

  datatype Draft = Draft(
    block: Modbus.RegisterBlock, requestClass: RequestClass, frequency: FrequencyClass, period: Nanos, maximumAge: Nanos,
    cost: Nanos, ppm: nat, members: Group)

  /** A demand the planner works with: valid block, and polled often enough. */
  ghost predicate Plannable(d: Demand, cadences: Cadences) {
    ReadableBlock(d.block) && Fresh(d, cadences)
  }

  ghost predicate AllPlannable(demands: seq<Demand>, cadences: Cadences) {
    forall d :: d in demands ==> Plannable(d, cadences)
  }

  function CostModelOf(profile: PollProfile, config: Config): CostModel {
    CostModel(config.link, profile.minimumInterFrameDelay, config.measuredResponseTime, config.deviceMargin)
  }

  function YoungestAge(group: Group): Nanos {
    var n := |group| - 1;
    if n == 0 then group[n].maximumAge else Min(YoungestAge(group[..n]), group[n].maximumAge)
  }

  lemma {:induction false} YoungestAgeMeans(group: Group)
    ensures forall d :: d in group ==> YoungestAge(group) <= d.maximumAge
    ensures exists d :: d in group && d.maximumAge == YoungestAge(group)
  {
    var n := |group| - 1;
    assert group[n] in group;
    if n > 0 {
      YoungestAgeMeans(group[..n]);
      assert group == group[..n] + [group[n]];
    }
  }

  /** A group that can be turned into one block. */
  ghost predicate Draftable(group: Group, cadences: Cadences) {
    Readable(group) && AllPlannable(group, cadences)
  }

  function PeriodOf(frequency: FrequencyClass, cadences: Cadences): Nanos {
    var period := cadences.Period(frequency);
    if period.Some? then period.value else 0
  }

  function DraftOf(group: Group, profile: PollProfile, config: Config): Draft
    requires config.link.Valid()
  {
    var first := group[0];
    var block := Modbus.RegisterBlock(first.block.table, GroupStart(group), Max(GroupEnd(group) - GroupStart(group) + 1, 0));
    var period := PeriodOf(first.frequency, config.cadences);
    var cost := TransactionCost(CostModelOf(profile, config), block);
    Draft(block, first.requestClass, first.frequency, period, YoungestAge(group), cost, UtilizationPpm(cost, period), group)
  }

  function DraftsOf(groups: seq<Group>, profile: PollProfile, config: Config): seq<Draft>
    requires config.link.Valid()
  {
    if groups == [] then []
    else DraftsOf(groups[..|groups| - 1], profile, config) + [DraftOf(groups[|groups| - 1], profile, config)]
  }

  function TotalPpm(drafts: seq<Draft>): nat {
    if drafts == [] then 0 else SaturatingAdd(TotalPpm(drafts[..|drafts| - 1]), drafts[|drafts| - 1].ppm, U32_MAX)
  }

  function DraftPlan(active: seq<Demand>, profile: PollProfile, config: Config): seq<Draft>
    requires config.link.Valid()
  {
    DraftsOf(Groups(Sorted(active)), profile, config)
  }

  datatype Drafting = Drafted(drafts: seq<Draft>, totalPpm: nat) | InvalidGroupedBlock

  /** Sorts, groups and costs the demands. No group of valid demands makes an invalid block. */
  method BuildBlocks(active: seq<Demand>, profile: PollProfile, config: Config) returns (drafting: Drafting)
    requires config.Valid() && AllPlannable(active, config.cadences)
    ensures drafting.Drafted? && drafting.drafts == DraftPlan(active, profile, config) && drafting.totalPpm == TotalPpm(drafting.drafts)
  {
    hide Readable, DraftOf, TransactionCost, UtilizationPpm, GroupStart, GroupEnd, AllPlannable, Groups, Sorted;
    var groups := CollectGroups(Sorted(active));
    GroupsAreDraftable(active, config.cadences);
    var drafts: seq<Draft> := [];
    var totalPpm := 0;
    for i := 0 to |groups|
      invariant drafts == DraftsOf(groups[..i], profile, config)
      invariant totalPpm == TotalPpm(drafts)
    {
      assert groups[..i + 1][..i] == groups[..i];
      assert groups[i] in groups && Draftable(groups[i], config.cadences);
      GroupedBlockIsValid(groups[i]);
      if GroupEnd(groups[i]) < GroupStart(groups[i]) || !BlockOf(groups[i]).ValidFor(Modbus.ReadFunction(groups[i][0].block.table)) {
        // Every group spans between one and 125 addresses of the register space.
        assert false;
      }
      var draft := DraftOf(groups[i], profile, config);
      totalPpm := SaturatingAdd(totalPpm, draft.ppm, U32_MAX);
      assert (drafts + [draft])[..|drafts|] == drafts;
      drafts := drafts + [draft];
    }
    assert groups[..|groups|] == groups;
    return Drafted(drafts, totalPpm);
  }

  lemma SortedMeans(active: seq<Demand>)
    ensures multiset(Sorted(active)) == multiset(active)
    ensures forall d :: d in Sorted(active) <==> d in active
    ensures Sorting.SortedBy(Sorted(active), DemandLe)
  {
    DemandOrder();
    Sorting.SortSorts(active, DemandLe);
    Sorting.SameElements(Sorted(active), active);
  }

  lemma GroupsAreDraftable(active: seq<Demand>, cadences: Cadences)
    requires AllPlannable(active, cadences)
    ensures forall g :: g in Groups(Sorted(active)) ==> Draftable(g, cadences)
  {
    hide Grown, CanAppend, Groups, Sorted, DemandLe;
    var sorted := Sorted(active);
    var groups := Groups(sorted);
    SortedMeans(active);
    GroupsAreGrown(sorted);
    GroupsKeepDemands(sorted);
    forall i | 0 <= i < |groups| ensures Draftable(groups[i], cadences) {
      var g := groups[i];
      var offset := PiecesOfFlatten(groups, i);
      assert Grown(g);
      GrownHasOneKey(g);
      PieceIsDraftable(sorted, offset, g, cadences);
    }
  }

  lemma PieceIsDraftable(sorted: seq<Demand>, offset: nat, g: Group, cadences: Cadences)
    requires Sorting.SortedBy(sorted, DemandLe) && AllPlannable(sorted, cadences)
    requires offset + |g| <= |sorted| && sorted[offset..offset + |g|] == g
    requires Grown(g) && forall k :: 0 <= k < |g| ==> SameKey(g[0], g[k])
    ensures Draftable(g, cadences)
  {
    hide Grown;
    forall d | d in g ensures Plannable(d, cadences) {
      assert d in sorted;
    }
    PieceIsReadable(sorted, offset, g);
  }

  // ---------------------------------------------------------------- priority

  /** Strictly lower in class, then budget rank, then id. */
  predicate Below(a: Demand, b: Demand) {
    if a.requestClass.Rank() != b.requestClass.Rank() then a.requestClass.Rank() < b.requestClass.Rank()
    else if a.budgetRank != b.budgetRank then a.budgetRank < b.budgetRank
    else a.parameterId != b.parameterId && TextLe(a.parameterId, b.parameterId)
  }

  lemma BelowIsTransitive(a: Demand, b: Demand, c: Demand)
    requires Below(a, b) && Below(b, c)
    ensures Below(a, c)
  {
    if TextLe(a.parameterId, b.parameterId) && TextLe(b.parameterId, c.parameterId) {
      TextLeTransitive(a.parameterId, b.parameterId, c.parameterId);
      if a.parameterId == c.parameterId { TextLeAntisymmetric(a.parameterId, b.parameterId); }
    }
  }

  lemma BelowIsTotal(a: Demand, b: Demand)
    requires a.parameterId != b.parameterId
    ensures Below(a, b) || Below(b, a)
  {
    TextLeTotal(a.parameterId, b.parameterId);
  }

  ghost predicate DistinctIds(demands: seq<Demand>) {
    forall i, j :: 0 <= i < j < |demands| ==> demands[i].parameterId != demands[j].parameterId
  }

  ghost predicate IsLowest(demands: seq<Demand>, i: nat) {
    i < |demands| && forall j :: 0 <= j < |demands| && j != i ==> Below(demands[i], demands[j])
  }

  /** The index of the demand of least priority. */
  function Lowest(demands: seq<Demand>): (i: nat)
    requires demands != []
    ensures i < |demands|
  {
    var n := |demands| - 1;
    if n == 0 then 0
    else
      var i := Lowest(demands[..n]);
      if Below(demands[n], demands[i]) then n else i
  }

  lemma {:induction false} LowestMeans(demands: seq<Demand>)
    requires demands != [] && DistinctIds(demands)
    ensures IsLowest(demands, Lowest(demands))
  {
    hide Below;
    var n := |demands| - 1;
    if n > 0 {
      LowestMeans(demands[..n]);
      var i := Lowest(demands[..n]);
      BelowIsTotal(demands[n], demands[i]);
      if Below(demands[n], demands[i]) {
        forall j | 0 <= j < n ensures Below(demands[n], demands[j]) {
          if j != i {
            assert Below(demands[..n][i], demands[..n][j]);
            BelowIsTransitive(demands[n], demands[i], demands[j]);
          }
        }
      } else {
        assert forall j :: 0 <= j < n && j != i ==> Below(demands[..n][i], demands[..n][j]);
      }
    }
  }

  // ---------------------------------------------------------------- the budget loop

  datatype Settlement = Settlement(active: seq<Demand>, degradations: seq<Degradation>, dropped: seq<Demand>)

  function StepsOf(d: Demand): nat {
    match d.frequency
    case Fast => 3
    case Normal => 2
    case Slow => 1
    case OnDemand => 1
  }

  /** How many more steps of the budget loop the demands can give. */
  function StepsLeft(demands: seq<Demand>): nat {
    if demands == [] then 0 else StepsLeft(demands[..|demands| - 1]) + StepsOf(demands[|demands| - 1])
  }

  lemma {:induction false} StepsSplit(a: seq<Demand>, b: seq<Demand>)
    ensures StepsLeft(a + b) == StepsLeft(a) + StepsLeft(b)
  {
    if b == [] {
      assert a + b == a;
    } else {
      var n := |b| - 1;
      StepsSplit(a, b[..n]);
      assert (a + b)[..|a| + n] == a + b[..n];
    }
  }

  lemma StepsAround(demands: seq<Demand>, i: nat)
    requires i < |demands|
    ensures StepsLeft(demands) == StepsLeft(demands[..i]) + StepsOf(demands[i]) + StepsLeft(demands[i + 1..])
  {
    assert demands == demands[..i] + ([demands[i]] + demands[i + 1..]);
    StepsSplit(demands[..i], [demands[i]] + demands[i + 1..]);
    StepsSplit([demands[i]], demands[i + 1..]);
    assert [demands[i]][..0] == [];
  }

  /** The demand at the next slower frequency, if there is one that its age allows. */
  function Slowed(d: Demand, cadences: Cadences): Option<Demand> {
    var slower := d.frequency.NextSlower();
    if slower.Some? && cadences.Period(slower.value).Some? && cadences.Period(slower.value).value <= d.maximumAge
    then Some(d.(frequency := slower.value)) else None
  }

  function Without(demands: seq<Demand>, i: nat): seq<Demand>
    requires i < |demands|
  {
    demands[..i] + demands[i + 1..]
  }

  /** Slows the least important demand down, or drops it. */
  function Relax(s: Settlement, cadences: Cadences): Settlement
    requires s.active != []
  {
    var i := Lowest(s.active);
    var slowed := Slowed(s.active[i], cadences);
    if slowed.Some?
    then Settlement(s.active[i := slowed.value],
                    s.degradations + [Degradation(s.active[i].parameterId, s.active[i].frequency, slowed.value.frequency)], s.dropped)
    else Settlement(Without(s.active, i), s.degradations, s.dropped + [s.active[i]])
  }

  lemma RelaxShrinks(s: Settlement, cadences: Cadences)
    requires s.active != []
    ensures StepsLeft(Relax(s, cadences).active) < StepsLeft(s.active)
  {
    var i := Lowest(s.active);
    StepsAround(s.active, i);
    var slowed := Slowed(s.active[i], cadences);
    if slowed.Some? {
      var slower := s.active[i := slowed.value];
      StepsAround(slower, i);
      assert slower[..i] == s.active[..i] && slower[i + 1..] == s.active[i + 1..];
    } else {
      StepsSplit(s.active[..i], s.active[i + 1..]);
    }
  }

  predicate Affordable(active: seq<Demand>, profile: PollProfile, config: Config)
    requires config.link.Valid()
  {
    TotalPpm(DraftPlan(active, profile, config)) <= config.budgetPpm || active == []
  }

  function Settle(s: Settlement, profile: PollProfile, config: Config): Settlement
    requires config.link.Valid()
    decreases StepsLeft(s.active)
  {
    if Affordable(s.active, profile, config) then s
    else
      RelaxShrinks(s, config.cadences);
      Settle(Relax(s, config.cadences), profile, config)
  }

  function Ids(demands: seq<Demand>): (ids: seq<ParameterId>)
    ensures |ids| == |demands|
    ensures forall i :: 0 <= i < |demands| ==> ids[i] == demands[i].parameterId
  {
    seq(|demands|, i requires 0 <= i < |demands| => demands[i].parameterId)
  }

  /** `d` is one of the initial demands, possibly at a slower frequency. */
  ghost predicate SlowedFrom(initial: seq<Demand>, d: Demand) {
    exists source :: source in initial && d == source.(frequency := d.frequency) && source.frequency.Rank() <= d.frequency.Rank()
  }

  /** What holds of any stage of the budget loop, relative to the demands it started with. */
  ghost predicate Fair(initial: seq<Demand>, s: Settlement, cadences: Cadences) {
    && DistinctIds(s.active)
    && AllPlannable(s.active, cadences)
    && (forall x, y :: x in s.dropped && y in s.active ==> Below(x, y))
    && (forall i :: 0 <= i < |s.active| ==> s.active[i] in initial || IsLowest(s.active, i))
    && (forall d :: d in s.active ==> SlowedFrom(initial, d))
    && multiset(Ids(s.active)) + multiset(Ids(s.dropped)) == multiset(Ids(initial))
  }

  lemma BelowIgnoresFrequency(a: Demand, b: Demand, f: FrequencyClass)
    ensures Below(a.(frequency := f), b) == Below(a, b) && Below(b, a.(frequency := f)) == Below(b, a)
  {
  }

  lemma LowestIsUnique(demands: seq<Demand>, i: nat, j: nat)
    requires IsLowest(demands, i) && IsLowest(demands, j) && DistinctIds(demands)
    ensures i == j
  {
    if i != j {
      assert Below(demands[i], demands[j]) && Below(demands[j], demands[i]);
      if TextLe(demands[i].parameterId, demands[j].parameterId) && TextLe(demands[j].parameterId, demands[i].parameterId) {
        TextLeAntisymmetric(demands[i].parameterId, demands[j].parameterId);
      }
    }
  }

  lemma OthersAreInitial(initial: seq<Demand>, s: Settlement, cadences: Cadences)
    requires Fair(initial, s, cadences) && s.active != []
    ensures IsLowest(s.active, Lowest(s.active))
    ensures forall j :: 0 <= j < |s.active| && j != Lowest(s.active) ==> s.active[j] in initial
  {
    hide IsLowest;
    LowestMeans(s.active);
    forall j | 0 <= j < |s.active| && j != Lowest(s.active) ensures s.active[j] in initial {
      if IsLowest(s.active, j) { LowestIsUnique(s.active, j, Lowest(s.active)); }
    }
  }

  lemma SlowedAgain(initial: seq<Demand>, d: Demand, cadences: Cadences)
    requires SlowedFrom(initial, d) && Slowed(d, cadences).Some?
    ensures SlowedFrom(initial, Slowed(d, cadences).value)
  {
    var source :| source in initial && d == source.(frequency := d.frequency) && source.frequency.Rank() <= d.frequency.Rank();
    assert Slowed(d, cadences).value == source.(frequency := Slowed(d, cadences).value.frequency);
  }

  lemma SlowingKeepsFair(initial: seq<Demand>, s: Settlement, cadences: Cadences, i: nat, slowed: Demand)
    requires Fair(initial, s, cadences) && s.active != [] && i == Lowest(s.active)
    requires Slowed(s.active[i], cadences) == Some(slowed)
    ensures Fair(initial, s.(active := s.active[i := slowed]), cadences)
  {
    hide Below, ReadableBlock, Lowest, SlowedFrom;
    OthersAreInitial(initial, s, cadences);
    assert s.active[i] in s.active;
    SlowedAgain(initial, s.active[i], cadences);
    var after := s.active[i := slowed];
    assert slowed == s.active[i].(frequency := slowed.frequency);
    forall d: Demand ensures Below(slowed, d) == Below(s.active[i], d) && Below(d, slowed) == Below(d, s.active[i]) {
      BelowIgnoresFrequency(s.active[i], d, slowed.frequency);
    }
    assert IsLowest(after, i);
    assert Ids(after) == Ids(s.active);
    forall d | d in after ensures Plannable(d, cadences) {
      if d != slowed { assert d in s.active; } else { assert s.active[i] in s.active; }
    }
    forall x, y | x in s.dropped && y in after ensures Below(x, y) {
      if y != slowed { assert y in s.active; } else { assert s.active[i] in s.active; }
    }
  }

  lemma DroppingKeepsFair(initial: seq<Demand>, s: Settlement, cadences: Cadences, i: nat)
    requires Fair(initial, s, cadences) && s.active != [] && i == Lowest(s.active)
    ensures Fair(initial, s.(active := Without(s.active, i), dropped := s.dropped + [s.active[i]]), cadences)
  {
    hide Below, Plannable, Lowest, SlowedFrom, IsLowest;
    OthersAreInitial(initial, s, cadences);
    LowestIsBelow(s.active, i);
    var after := Without(s.active, i);
    assert s.active[i] in s.active;
    forall j | 0 <= j < |after| ensures after[j] in initial && after[j] in s.active && Below(s.active[i], after[j]) {
      assert after[j] == s.active[if j < i then j else j + 1];
    }
    IdsWithout(s.active, i);
    assert Ids(s.dropped + [s.active[i]]) == Ids(s.dropped) + [s.active[i].parameterId];
    DistinctWithout(s.active, i);
  }

  lemma LowestIsBelow(demands: seq<Demand>, i: nat)
    requires IsLowest(demands, i)
    ensures forall j :: 0 <= j < |demands| && j != i ==> Below(demands[i], demands[j])
  {
  }

  lemma IdsWithout(demands: seq<Demand>, i: nat)
    requires i < |demands|
    ensures multiset(Ids(demands)) == multiset(Ids(Without(demands, i))) + multiset{demands[i].parameterId}
  {
    assert Ids(demands) == Ids(demands[..i]) + [demands[i].parameterId] + Ids(demands[i + 1..]);
    assert Ids(Without(demands, i)) == Ids(demands[..i]) + Ids(demands[i + 1..]);
  }

  lemma DistinctWithout(demands: seq<Demand>, i: nat)
    requires DistinctIds(demands) && i < |demands|
    ensures DistinctIds(Without(demands, i))
  {
    var after := Without(demands, i);
    forall j, k | 0 <= j < k < |after| ensures after[j].parameterId != after[k].parameterId {
      assert after[j] == demands[if j < i then j else j + 1];
      assert after[k] == demands[if k < i then k else k + 1];
    }
  }

  lemma RelaxKeepsFair(initial: seq<Demand>, s: Settlement, cadences: Cadences)
    requires Fair(initial, s, cadences) && s.active != []
    ensures Fair(initial, Relax(s, cadences), cadences)
  {
    hide Fair, Lowest;
    var i := Lowest(s.active);
    var slowed := Slowed(s.active[i], cadences);
    var next := Relax(s, cadences);
    if slowed.Some? {
      SlowingKeepsFair(initial, s, cadences, i, slowed.value);
      FairIgnoresRecords(initial, s.(active := next.active), next, cadences);
    } else {
      DroppingKeepsFair(initial, s, cadences, i);
    }
  }

  lemma {:induction false} SettlingIsFair(initial: seq<Demand>, s: Settlement, profile: PollProfile, config: Config)
    requires config.Valid() && Fair(initial, s, config.cadences)
    ensures Fair(initial, Settle(s, profile, config), config.cadences)
    ensures Affordable(Settle(s, profile, config).active, profile, config)
    decreases StepsLeft(s.active)
  {
    hide Fair, DraftPlan, Lowest, TotalPpm;
    if !Affordable(s.active, profile, config) {
      RelaxKeepsFair(initial, s, config.cadences);
      RelaxShrinks(s, config.cadences);
      SettlingIsFair(initial, Relax(s, config.cadences), profile, config);
    }
  }

  lemma FairIgnoresRecords(initial: seq<Demand>, s: Settlement, t: Settlement, cadences: Cadences)
    requires Fair(initial, s, cadences) && t.active == s.active && t.dropped == s.dropped
    ensures Fair(initial, t, cadences)
  {
  }

  lemma FairAtFirst(active: seq<Demand>, cadences: Cadences)
    requires DistinctIds(active) && AllPlannable(active, cadences)
    ensures Fair(active, Settlement(active, [], []), cadences)
  {
    forall d | d in active ensures SlowedFrom(active, d) {
      assert d == d.(frequency := d.frequency);
    }
    assert multiset(Ids([])) == multiset{};
  }

  // ---------------------------------------------------------------- the budget is real

  function PpmOf(draft: Draft): nat {
    draft.ppm
  }

  lemma {:induction false} TotalIsExact(drafts: seq<Draft>)
    ensures TotalPpm(drafts) == Min(Sorting.SumOf(PpmOf, drafts), U32_MAX)
  {
    if drafts != [] {
      var n := |drafts| - 1;
      TotalIsExact(drafts[..n]);
      Sorting.SumAppends(PpmOf, drafts[..n], drafts[n]);
      assert drafts == drafts[..n] + [drafts[n]];
    }
  }

  // ---------------------------------------------------------------- intake

  function SubscribedIds(subscriptions: seq<Subscription>): set<ParameterId> {
    set s | s in subscriptions :: s.parameterId
  }

  /** The subscriptions to one parameter, in the order they came. */
  function SubscriptionsTo(id: ParameterId, subscriptions: seq<Subscription>): (found: seq<Subscription>)
    ensures forall s :: s in found <==> s in subscriptions && s.parameterId == id
  {
    if subscriptions == [] then []
    else (if subscriptions[0].parameterId == id then [subscriptions[0]] else []) + SubscriptionsTo(id, subscriptions[1..])
  }

  datatype Taken = Taken(active: seq<Demand>, rejections: seq<Rejection>)

  function TakeIn(id: ParameterId, profile: PollProfile, subscriptions: seq<Subscription>, cadences: Cadences): Merged {
    if id in profile.parameters then MergeSubscriptions(id, profile.parameters[id], SubscriptionsTo(id, subscriptions), cadences)
    else Unmet(UnknownParameter)
  }

  function Intake(ids: seq<ParameterId>, profile: PollProfile, subscriptions: seq<Subscription>, cadences: Cadences): Taken {
    if ids == [] then Taken([], [])
    else
      var id := ids[|ids| - 1];
      var taken := Intake(ids[..|ids| - 1], profile, subscriptions, cadences);
      match TakeIn(id, profile, subscriptions, cadences)
      case Merged(demand) => taken.(active := taken.active + [demand])
      case Unmet(reason) => taken.(rejections := taken.rejections + [Rejection(id, Subscribers(SubscriptionsTo(id, subscriptions)), reason)])
  }

  function RejectedIds(rejections: seq<Rejection>): (ids: seq<ParameterId>)
    ensures |ids| == |rejections|
    ensures forall i :: 0 <= i < |rejections| ==> ids[i] == rejections[i].parameterId
  {
    seq(|rejections|, i requires 0 <= i < |rejections| => rejections[i].parameterId)
  }

  lemma {:induction false} IntakePartitions(ids: seq<ParameterId>, profile: PollProfile, subscriptions: seq<Subscription>, cadences: Cadences)
    requires profile.Valid() && cadences.Valid()
    ensures var taken := Intake(ids, profile, subscriptions, cadences);
            && multiset(Ids(taken.active)) + multiset(RejectedIds(taken.rejections)) == multiset(ids)
            && AllPlannable(taken.active, cadences)
            && (forall d :: d in taken.active ==> d.parameterId in ids)
  {
    hide MergeSubscriptions, SubscriptionsTo, Subscribers;
    if ids != [] {
      var n := |ids| - 1;
      var before := Intake(ids[..n], profile, subscriptions, cadences);
      IntakePartitions(ids[..n], profile, subscriptions, cadences);
      assert ids == ids[..n] + [ids[n]];
      if ids[n] in profile.parameters {
        var parameter := profile.parameters[ids[n]];
        MergeMeans(ids[n], parameter, SubscriptionsTo(ids[n], subscriptions), cadences);
      }
      var taken := Intake(ids, profile, subscriptions, cadences);
      match TakeIn(ids[n], profile, subscriptions, cadences)
      case Merged(demand) => assert Ids(taken.active) == Ids(before.active) + [ids[n]];
      case Unmet(reason) => assert RejectedIds(taken.rejections) == RejectedIds(before.rejections) + [ids[n]];
    }
  }

  lemma DistinctByIds(demands: seq<Demand>, rejections: seq<Rejection>, ids: seq<ParameterId>)
    requires multiset(Ids(demands)) + multiset(RejectedIds(rejections)) == multiset(ids)
    requires forall i, j :: 0 <= i < j < |ids| ==> ids[i] != ids[j]
    ensures DistinctIds(demands)
  {
    forall i, j | 0 <= i < j < |demands| ensures demands[i].parameterId != demands[j].parameterId {
      if demands[i].parameterId == demands[j].parameterId {
        var id := demands[i].parameterId;
        TwiceInMultiset(Ids(demands), i, j);
        OnceInMultiset(ids, id);
      }
    }
  }

  lemma TwiceInMultiset(ids: seq<ParameterId>, i: nat, j: nat)
    requires i < j < |ids| && ids[i] == ids[j]
    ensures multiset(ids)[ids[i]] >= 2
  {
    assert ids == ids[..i] + [ids[i]] + ids[i + 1..j] + [ids[j]] + ids[j + 1..];
  }

  lemma {:induction false} OnceInMultiset(ids: seq<ParameterId>, id: ParameterId)
    requires forall i, j :: 0 <= i < j < |ids| ==> ids[i] != ids[j]
    ensures multiset(ids)[id] <= 1
  {
    if ids != [] {
      var n := |ids| - 1;
      OnceInMultiset(ids[..n], id);
      assert ids == ids[..n] + [ids[n]];
      if id == ids[n] { assert id !in ids[..n]; }
    }
  }

  lemma {:induction false} IntakeIgnoresOrder(ids: seq<ParameterId>, profile: PollProfile, xs: seq<Subscription>, ys: seq<Subscription>,
                                              cadences: Cadences)
    requires SameMembers(xs, ys)
    ensures Intake(ids, profile, xs, cadences) == Intake(ids, profile, ys, cadences)
  {
    hide MergeSubscriptions;
    if ids != [] {
      var id := ids[|ids| - 1];
      IntakeIgnoresOrder(ids[..|ids| - 1], profile, xs, ys, cadences);
      var fx, fy := SubscriptionsTo(id, xs), SubscriptionsTo(id, ys);
      assert SameMembers(fx, fy);
      SameReasons(fx, fy);
      if id in profile.parameters {
        MergeIgnoresOrder(id, profile.parameters[id], fx, fy, cadences);
      }
    }
  }
}
