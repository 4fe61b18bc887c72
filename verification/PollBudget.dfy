/** The planner seen from outside: what a demand asks for, who is turned away and why, and that nothing is
    given up for the budget unless it has to be. */
module PollBudgets {
  import opened Domain
  import opened TextOrder
  import Sorting
  import opened PollDemands
  import opened PollGrouping
  import opened PollPlanning
  import opened PollPlans

  // ---------------------------------------------------------------- what a demand asks for

  /** Request classes, the least important first. */
  const IMPORTANCE := [Background, Telemetry, TelemetryCritical, Interactive, SafetyOneShot]

  /** Reasons to subscribe, the first to suffer from a tight budget first. Reasons in one group rank equally. */
  const SACRIFICES: seq<set<Reason>> :=
    [{Diagnostics}, {Backup}, {Csv}, {Scope}, {Dashboard, ParameterBrowser}, {Fault}, {DriveState}]

  /** The class of the demand, from the reasons of the cyclic subscriptions. */
  ghost predicate ClassFor(class_: RequestClass, reasons: set<Reason>) {
    if DriveState in reasons || Fault in reasons then class_ == TelemetryCritical
    else if reasons <= {Backup, Diagnostics} then class_ == Background
    else class_ == Telemetry
  }

  /** The budget rank of the demand is that of its most protected reason. */
  ghost predicate RankFor(rank: nat, reasons: set<Reason>) {
    && rank < |SACRIFICES|
    && (exists r :: r in reasons && r in SACRIFICES[rank])
    && forall r, i :: r in reasons && 0 <= i < |SACRIFICES| && r in SACRIFICES[i] ==> i <= rank
  }

  /** The frequency of the demand: of those at least as fast as `fastest` whose period stays within the age,
      the slowest. */
  ghost predicate FrequencyFor(frequency: FrequencyClass, fastest: FrequencyClass, maximumAge: Nanos, cadences: Cadences) {
    match fastest
    case Fast => frequency == Fast && cadences.fast <= maximumAge
    case Normal =>
      if cadences.normal <= maximumAge then frequency == Normal else frequency == Fast && cadences.fast <= maximumAge
    case Slow =>
      if cadences.slow <= maximumAge then frequency == Slow
      else if cadences.normal <= maximumAge then frequency == Normal
      else frequency == Fast && cadences.fast <= maximumAge
    case OnDemand => false
  }

  /** `f` is the fastest frequency among `subscriptions`. */
  ghost predicate FastestOf(f: FrequencyClass, subscriptions: set<Subscription>) {
    && (exists s :: s in subscriptions && s.frequency == f)
    && (f.Normal? ==> forall s :: s in subscriptions ==> !s.frequency.Fast?)
    && (f.Slow? ==> forall s :: s in subscriptions ==> !s.frequency.Fast? && !s.frequency.Normal?)
  }

  function CyclicTo(id: ParameterId, subscriptions: seq<Subscription>): set<Subscription> {
    set s | s in subscriptions && s.parameterId == id && s.frequency != OnDemand
  }

  /** The demand for a parameter, told from the set of its subscriptions. */
  ghost predicate DemandMeans(d: Demand, parameter: PollParameter, subscriptions: seq<Subscription>, cadences: Cadences) {
    var cyclic := CyclicTo(d.parameterId, subscriptions);
    && d.block == parameter.block && d.doNotBridge == parameter.doNotBridge && d.maximumBridgeGap == parameter.maximumBridgeGap
    && (exists s :: s in cyclic && s.maximumAge == d.maximumAge)
    && (forall s :: s in cyclic ==> d.maximumAge <= s.maximumAge)
    && (exists f :: FastestOf(f, cyclic) && FrequencyFor(d.frequency, f, d.maximumAge, cadences))
    && d.reasons == (set s | s in cyclic :: s.reason)
    && ClassFor(d.requestClass, d.reasons) && RankFor(d.budgetRank, d.reasons)
    && d.subscribers == (set s | s in subscriptions && s.parameterId == d.parameterId :: s.subscriberId)
    && (d.historyRequired <==> exists s :: s in subscriptions && s.parameterId == d.parameterId && s.historyRequired)
  }

  lemma FrequencyIsFor(fastest: FrequencyClass, maximumAge: Nanos, cadences: Cadences)
    requires cadences.Valid() && !fastest.OnDemand? && FrequencyForAge(fastest, maximumAge, cadences).Some?
    ensures FrequencyFor(FrequencyForAge(fastest, maximumAge, cadences).value, fastest, maximumAge, cadences)
  {
  }

  lemma HasReason(cyclic: seq<Subscription>, r: Reason)
    requires cyclic != []
    ensures r in Reasons(cyclic) <==> exists s :: s in cyclic && s.reason == r
    ensures r in Reasons(cyclic) ==> r.PeriodicClass().Rank() <= HighestClass(cyclic).Rank()
  {
  }

  lemma ClassIsFor(cyclic: seq<Subscription>)
    requires cyclic != []
    ensures ClassFor(HighestClass(cyclic), Reasons(cyclic))
  {
    var class_ := HighestClass(cyclic);
    var s :| s in cyclic && s.reason.PeriodicClass() == class_;
    hide HighestClass;
    HasReason(cyclic, s.reason);
    HasReason(cyclic, DriveState);
    HasReason(cyclic, Fault);
    hide Reasons;
    if !(Reasons(cyclic) <= {Backup, Diagnostics}) {
      var r :| r in Reasons(cyclic) && r !in {Backup, Diagnostics};
      HasReason(cyclic, r);
    }
  }

  lemma RankIsPosition(r: Reason, i: nat)
    requires i < |SACRIFICES|
    ensures r in SACRIFICES[i] <==> r.BudgetRank() == i
  {
    assert i == 0 || i == 1 || i == 2 || i == 3 || i == 4 || i == 5 || i == 6;
  }

  lemma RankIsFor(cyclic: seq<Subscription>)
    requires cyclic != []
    ensures RankFor(HighestBudgetRank(cyclic), Reasons(cyclic))
  {
    var rank := HighestBudgetRank(cyclic);
    var s :| s in cyclic && s.reason.BudgetRank() == rank;
    assert rank < 7;
    RankIsPosition(s.reason, rank);
    assert s.reason in Reasons(cyclic);
    forall r, i | r in Reasons(cyclic) && 0 <= i < |SACRIFICES| && r in SACRIFICES[i] ensures i <= rank {
      RankIsPosition(r, i);
      var t :| t in cyclic && t.reason == r;
    }
  }

  /** The merged demand, field by field, from the ordered list of cyclic subscriptions. */
  lemma MergedShape(id: ParameterId, parameter: PollParameter, to: seq<Subscription>, cadences: Cadences) returns (cyclic: seq<Subscription>)
    requires MergeSubscriptions(id, parameter, to, cadences).Merged?
    ensures cyclic != [] && SameMembers(cyclic, Cyclic(to))
    ensures forall s :: s in cyclic ==> cyclic[0].frequency.Rank() <= s.frequency.Rank() && !s.frequency.OnDemand?
    ensures FrequencyForAge(cyclic[0].frequency, OldestAllowed(cyclic), cadences).Some?
    ensures MergeSubscriptions(id, parameter, to, cadences).demand ==
            Demand(id, parameter.block, FrequencyForAge(cyclic[0].frequency, OldestAllowed(cyclic), cadences).value, HighestClass(cyclic),
                   OldestAllowed(cyclic), Subscribers(to), Reasons(cyclic), NeedsHistory(to), parameter.doNotBridge,
                   parameter.maximumBridgeGap, HighestBudgetRank(cyclic))
  {
    hide FrequencyForAge, SubscriptionLe, Sorting.Sort, OldestAllowed, HighestClass, HighestBudgetRank, Subscribers, Reasons, NeedsHistory;
    cyclic := Sorting.Sort(Cyclic(to), SubscriptionLe);
    SortKeepsMembers(Cyclic(to));
    forall s | s in cyclic ensures cyclic[0].frequency.Rank() <= s.frequency.Rank() && !s.frequency.OnDemand? {
      assert s in Cyclic(to);
    }
  }

  /** What merging the subscriptions to one parameter amounts to. */
  lemma MergedDemandMeans(id: ParameterId, parameter: PollParameter, subscriptions: seq<Subscription>, cadences: Cadences)
    requires cadences.Valid()
    requires MergeSubscriptions(id, parameter, SubscriptionsTo(id, subscriptions), cadences).Merged?
    ensures DemandMeans(MergeSubscriptions(id, parameter, SubscriptionsTo(id, subscriptions), cadences).demand, parameter, subscriptions, cadences)
    ensures MergeSubscriptions(id, parameter, SubscriptionsTo(id, subscriptions), cadences).demand.parameterId == id
  {
    hide ClassFor, RankFor, FrequencyFor, FrequencyForAge, MergeSubscriptions, SubscriptionsTo, Cyclic, SameMembers, FastestOf, CyclicTo;
    hide OldestAllowed, HighestClass, HighestBudgetRank;
    var to := SubscriptionsTo(id, subscriptions);
    var cyclic := MergedShape(id, parameter, to, cadences);
    CyclicIsSorted(id, subscriptions, cyclic);
    assert cyclic[0] in cyclic;
    FrequencyIsFor(cyclic[0].frequency, OldestAllowed(cyclic), cadences);
    ClassIsFor(cyclic);
    RankIsFor(cyclic);
    FirstIsFastest(cyclic, CyclicTo(id, subscriptions));
    assert Reasons(cyclic) == set s | s in CyclicTo(id, subscriptions) :: s.reason;
    assert Subscribers(to) == set s | s in subscriptions && s.parameterId == id :: s.subscriberId;
  }

  lemma CyclicIsSorted(id: ParameterId, subscriptions: seq<Subscription>, cyclic: seq<Subscription>)
    requires SameMembers(cyclic, Cyclic(SubscriptionsTo(id, subscriptions)))
    ensures forall s :: s in cyclic <==> s in CyclicTo(id, subscriptions)
  {
  }

  lemma FirstIsFastest(cyclic: seq<Subscription>, members: set<Subscription>)
    requires cyclic != [] && forall s :: s in cyclic <==> s in members
    requires forall s :: s in cyclic ==> cyclic[0].frequency.Rank() <= s.frequency.Rank()
    requires forall s :: s in cyclic ==> !s.frequency.OnDemand?
    ensures FastestOf(cyclic[0].frequency, members)
  {
    assert cyclic[0] in members;
  }

  // ---------------------------------------------------------------- who is turned away before the budget

  /** Why a request is turned away before the budget is looked at. */
  ghost predicate TurnedAway(r: Rejection, profile: PollProfile, subscriptions: seq<Subscription>, cadences: Cadences) {
    var cyclic := CyclicTo(r.parameterId, subscriptions);
    && r.subscribers == (set s | s in subscriptions && s.parameterId == r.parameterId :: s.subscriberId)
    && match r.reason
       case UnknownParameter => r.parameterId !in profile.parameters
       case OnDemandOnly => r.parameterId in profile.parameters && cyclic == {}
       case MaximumAgeBelowFastCadence =>
         r.parameterId in profile.parameters && exists s :: s in cyclic && s.maximumAge < cadences.fast
       case BudgetExceeded => false
  }

  lemma UnmetMeans(id: ParameterId, profile: PollProfile, subscriptions: seq<Subscription>, cadences: Cadences)
    requires cadences.Valid() && TakeIn(id, profile, subscriptions, cadences).Unmet?
    ensures TurnedAway(Rejection(id, Subscribers(SubscriptionsTo(id, subscriptions)), TakeIn(id, profile, subscriptions, cadences).reason),
                       profile, subscriptions, cadences)
  {
    var to := SubscriptionsTo(id, subscriptions);
    assert Subscribers(to) == set s | s in subscriptions && s.parameterId == id :: s.subscriberId;
    if id in profile.parameters {
      MergeMeans(id, profile.parameters[id], to, cadences);
      UnmetReasons(id, profile.parameters[id], to, cadences);
      TurnedAwayMembers(id, subscriptions, to, cadences);
    }
  }

  lemma UnmetReasons(id: ParameterId, parameter: PollParameter, to: seq<Subscription>, cadences: Cadences)
    requires MergeSubscriptions(id, parameter, to, cadences).Unmet?
    ensures MergeSubscriptions(id, parameter, to, cadences).reason in {OnDemandOnly, MaximumAgeBelowFastCadence}
  {
  }

  lemma TurnedAwayMembers(id: ParameterId, subscriptions: seq<Subscription>, to: seq<Subscription>, cadences: Cadences)
    requires to == SubscriptionsTo(id, subscriptions)
    ensures CyclicTo(id, subscriptions) == {} <==> forall s :: s in to ==> s.frequency.OnDemand?
    ensures (exists s :: s in CyclicTo(id, subscriptions) && s.maximumAge < cadences.fast) <==>
            exists s :: s in to && !s.frequency.OnDemand? && s.maximumAge < cadences.fast
  {
    if s :| s in CyclicTo(id, subscriptions) {
      assert s in to;
    }
    if exists s :: s in to && !s.frequency.OnDemand? && s.maximumAge < cadences.fast {
      var s :| s in to && !s.frequency.OnDemand? && s.maximumAge < cadences.fast;
      assert s in CyclicTo(id, subscriptions);
    }
    if exists s :: s in CyclicTo(id, subscriptions) && s.maximumAge < cadences.fast {
      var s :| s in CyclicTo(id, subscriptions) && s.maximumAge < cadences.fast;
      assert s in to;
    }
    forall s | s in to && !s.frequency.OnDemand? ensures s in CyclicTo(id, subscriptions) {
    }
  }

  lemma {:induction false} IntakeMeans(ids: seq<ParameterId>, profile: PollProfile, subscriptions: seq<Subscription>, cadences: Cadences)
    requires cadences.Valid()
    ensures forall r :: r in Intake(ids, profile, subscriptions, cadences).rejections ==> TurnedAway(r, profile, subscriptions, cadences)
    ensures forall d :: d in Intake(ids, profile, subscriptions, cadences).active ==>
              d.parameterId in profile.parameters && DemandMeans(d, profile.parameters[d.parameterId], subscriptions, cadences)
  {
    hide TakeIn, TurnedAway, DemandMeans, Subscribers;
    if ids != [] {
      var n := |ids| - 1;
      IntakeMeans(ids[..n], profile, subscriptions, cadences);
      if TakeIn(ids[n], profile, subscriptions, cadences).Unmet? {
        UnmetMeans(ids[n], profile, subscriptions, cadences);
      } else {
        TakenMeans(ids[n], profile, subscriptions, cadences);
      }
    }
  }

  lemma TakenMeans(id: ParameterId, profile: PollProfile, subscriptions: seq<Subscription>, cadences: Cadences)
    requires cadences.Valid() && TakeIn(id, profile, subscriptions, cadences).Merged?
    ensures id in profile.parameters && TakeIn(id, profile, subscriptions, cadences).demand.parameterId == id
    ensures DemandMeans(TakeIn(id, profile, subscriptions, cadences).demand, profile.parameters[id], subscriptions, cadences)
  {
    hide DemandMeans, MergeSubscriptions;
    MergedDemandMeans(id, profile.parameters[id], subscriptions, cadences);
  }

  // ---------------------------------------------------------------- nothing is given up without need

  /** `a` is less important than `b`: by class, then budget rank, then id. */
  ghost predicate LessImportant(a: Demand, b: Demand) {
    || (exists i, j :: 0 <= i < j < |IMPORTANCE| && a.requestClass == IMPORTANCE[i] && b.requestClass == IMPORTANCE[j])
    || (a.requestClass == b.requestClass
        && (|| a.budgetRank < b.budgetRank
            || (a.budgetRank == b.budgetRank && a.parameterId != b.parameterId && TextLe(a.parameterId, b.parameterId))))
  }

  lemma ClassPosition(c: RequestClass, i: nat)
    requires i < |IMPORTANCE|
    ensures c == IMPORTANCE[i] <==> c.Rank() == i
    ensures c.Rank() < |IMPORTANCE| && IMPORTANCE[c.Rank()] == c
  {
    assert i == 0 || i == 1 || i == 2 || i == 3 || i == 4;
  }

  lemma BelowMeans(a: Demand, b: Demand)
    ensures Below(a, b) <==> LessImportant(a, b)
  {
    var x, y := a.requestClass, b.requestClass;
    ClassPosition(x, 0);
    ClassPosition(y, 0);
    RanksIdentify(Fast, Fast, x, y);
    if x.Rank() < y.Rank() {
      assert x == IMPORTANCE[x.Rank()] && y == IMPORTANCE[y.Rank()];
    }
    if exists i, j :: 0 <= i < j < |IMPORTANCE| && x == IMPORTANCE[i] && y == IMPORTANCE[j] {
      var i, j :| 0 <= i < j < |IMPORTANCE| && x == IMPORTANCE[i] && y == IMPORTANCE[j];
      ClassPosition(x, i);
      ClassPosition(y, j);
    }
  }

  /** The next slower cyclic frequency. */
  const SLOWER: map<FrequencyClass, FrequencyClass> := map[Fast := Normal, Normal := Slow]

  /** The slower frequency the age of `d` still allows it, if any. */
  ghost predicate MaySlow(d: Demand, frequency: FrequencyClass, cadences: Cadences) {
    && d.frequency in SLOWER && frequency == SLOWER[d.frequency]
    && (if frequency.Normal? then cadences.normal else cadences.slow) <= d.maximumAge
  }

  /** The bus share the demands would take. */
  function Load(active: seq<Demand>, profile: PollProfile, config: Config): nat
    requires config.link.Valid()
  {
    TotalPpm(DraftPlan(active, profile, config))
  }

  /** How demands that exceed the budget come down to those that are kept: `victim`, number `at` of `demands`, is
      slowed or dropped, and so on with what is left. */
  datatype Course =
    | Kept(demands: seq<Demand>)
    | GivenUp(demands: seq<Demand>, at: nat, victim: Demand, slowed: Option<Demand>, rest: Course)

  function LeftOver(course: Course): seq<Demand> {
    match course
    case Kept(demands) => demands
    case GivenUp(_, _, _, _, rest) => LeftOver(rest)
  }

  function SlowedIn(course: Course): seq<Degradation> {
    match course
    case Kept(_) => []
    case GivenUp(_, _, victim, None, rest) => SlowedIn(rest)
    case GivenUp(_, _, victim, Some(slowed), rest) =>
      [Degradation(victim.parameterId, victim.frequency, slowed.frequency)] + SlowedIn(rest)
  }

  function DroppedIn(course: Course): seq<Demand> {
    match course
    case Kept(_) => []
    case GivenUp(_, _, victim, None, rest) => [victim] + DroppedIn(rest)
    case GivenUp(_, _, victim, Some(_), rest) => DroppedIn(rest)
  }

  /** The least important demand is slowed by one class if its age allows that, and dropped otherwise. */
  ghost predicate Sacrifices(demands: seq<Demand>, at: nat, victim: Demand, slowed: Option<Demand>, after: seq<Demand>, cadences: Cadences) {
    && at < |demands| && demands[at] == victim
    && (forall j :: 0 <= j < |demands| && j != at ==> LessImportant(victim, demands[j]))
    && match slowed
       case Some(slower) =>
         && MaySlow(victim, slower.frequency, cadences) && slower == victim.(frequency := slower.frequency)
         && after == demands[at := slower]
       case None =>
         && (forall f :: !MaySlow(victim, f, cadences))
         && after == demands[..at] + demands[at + 1..]
  }

  /** Every sacrifice of the course is of that kind, and was made because the demands were over the budget. */
  ghost predicate Forced(course: Course, profile: PollProfile, config: Config)
    requires config.link.Valid()
  {
    match course
    case Kept(demands) => true
    case GivenUp(demands, at, victim, slowed, rest) =>
      && Load(demands, profile, config) > config.budgetPpm
      && Sacrifices(demands, at, victim, slowed, rest.demands, config.cadences)
      && Forced(rest, profile, config)
  }

  lemma RelaxIsForced(s: Settlement, profile: PollProfile, config: Config) returns (victim: Demand, slowed: Option<Demand>)
    requires config.Valid() && DistinctIds(s.active) && !Affordable(s.active, profile, config)
    ensures Load(s.active, profile, config) > config.budgetPpm
    ensures Sacrifices(s.active, Lowest(s.active), victim, slowed, Relax(s, config.cadences).active, config.cadences)
    ensures Relax(s, config.cadences).degradations
            == s.degradations + (if slowed.Some? then [Degradation(victim.parameterId, victim.frequency, slowed.value.frequency)] else [])
    ensures Relax(s, config.cadences).dropped == s.dropped + (if slowed.Some? then [] else [victim])
  {
    hide Below, LessImportant, DraftPlan, Lowest, TotalPpm;
    LowestMeans(s.active);
    var i := Lowest(s.active);
    victim, slowed := s.active[i], Slowed(s.active[i], config.cadences);
    forall j | 0 <= j < |s.active| && j != i ensures LessImportant(victim, s.active[j]) {
      BelowMeans(victim, s.active[j]);
    }
  }

  lemma RelaxKeepsDistinct(s: Settlement, cadences: Cadences)
    requires s.active != [] && DistinctIds(s.active)
    ensures DistinctIds(Relax(s, cadences).active)
  {
    hide Lowest;
    DistinctWithout(s.active, Lowest(s.active));
  }

  /** The budget loop takes a forced course. */
  lemma {:induction false} SettlingIsForced(s: Settlement, profile: PollProfile, config: Config) returns (course: Course)
    requires config.Valid() && DistinctIds(s.active)
    ensures Forced(course, profile, config) && course.demands == s.active
    ensures LeftOver(course) == Settle(s, profile, config).active
    ensures Settle(s, profile, config).degradations == s.degradations + SlowedIn(course)
    ensures Settle(s, profile, config).dropped == s.dropped + DroppedIn(course)
    decreases StepsLeft(s.active)
  {
    hide Load, DraftPlan, TotalPpm, Lowest, Sacrifices, Relax;
    if Affordable(s.active, profile, config) {
      course := Kept(s.active);
    } else {
      var next := Relax(s, config.cadences);
      RelaxShrinks(s, config.cadences);
      RelaxKeepsDistinct(s, config.cadences);
      var victim, slowed := RelaxIsForced(s, profile, config);
      var rest := SettlingIsForced(next, profile, config);
      course := GivenUp(s.active, Lowest(s.active), victim, slowed, rest);
    }
  }

  /** From intake to the finished plan every degradation and every refusal for the budget is a link of one forced
      course: what the plan keeps is what the course leaves over, and it is within the budget. */
  lemma EverySacrificeIsForced(version: nat, profile: PollProfile, subscriptions: seq<Subscription>, config: Config, now: nat)
    returns (course: Course)
    requires profile.Valid() && config.Valid()
    ensures Forced(course, profile, config) && course.demands == TakenIn(profile, subscriptions, config).active
    ensures var plan := PlanOf(version, profile, subscriptions, config, now);
            && plan.degradations == SlowedIn(course)
            && plan.rejections == TakenIn(profile, subscriptions, config).rejections + Refusals(DroppedIn(course))
            && plan.blocks == FinalBlocks(Sorting.Sort(DraftPlan(LeftOver(course), profile, config), DraftLe), now)
            && plan.utilizationPpm == Load(LeftOver(course), profile, config) <= config.budgetPpm
  {
    hide TakenIn, Settle, DraftPlan, FinalBlocks, Sorting.Sort, Fair, Forced;
    TakenIsUsable(profile, subscriptions, config);
    course := SettlingIsForced(Settlement(TakenIn(profile, subscriptions, config).active, [], []), profile, config);
    BudgetIsSound(version, profile, subscriptions, config, now);
  }

  /** Demands within the budget are all kept as they came: a plan degrades something or refuses something for
      the budget exactly if the demands taken in exceed it. */
  lemma NothingIsGivenUpWithinBudget(version: nat, profile: PollProfile, subscriptions: seq<Subscription>, config: Config, now: nat)
    requires profile.Valid() && config.Valid()
    ensures var plan, taken := PlanOf(version, profile, subscriptions, config, now), TakenIn(profile, subscriptions, config);
            var fits := Load(taken.active, profile, config) <= config.budgetPpm;
            && (fits <==> plan.degradations == [] && forall r :: r in plan.rejections ==> !r.reason.BudgetExceeded?)
            && (fits ==> plan.rejections == taken.rejections && plan.utilizationPpm == Load(taken.active, profile, config))
  {
    hide TakenIn, Load, FinalBlocks, PlanOf, Sacrifices;
    var plan, taken := PlanOf(version, profile, subscriptions, config, now), TakenIn(profile, subscriptions, config);
    var course := EverySacrificeIsForced(version, profile, subscriptions, config, now);
    IntakeRefusalsMean(profile, subscriptions, config);
    match course
    case Kept(_) =>
      assert Refusals([]) == [];
    case GivenUp(_, _, victim, Some(slowed), rest) =>
      assert plan.degradations != [];
    case GivenUp(_, _, victim, None, rest) =>
      var refusals := Refusals(DroppedIn(course));
      assert refusals[0] in plan.rejections;
  }

  lemma IntakeRefusalsMean(profile: PollProfile, subscriptions: seq<Subscription>, config: Config)
    requires config.Valid()
    ensures forall r :: r in TakenIn(profile, subscriptions, config).rejections ==>
              TurnedAway(r, profile, subscriptions, config.cadences) && !r.reason.BudgetExceeded?
  {
    IntakeMeans(InTextOrder(SubscribedIds(subscriptions)), profile, subscriptions, config.cadences);
  }

  /** Nothing but frequencies changes on the way: whatever is dropped came in as a demand of the same parameter for
      the same subscribers. */
  lemma {:induction false} DroppedCameIn(course: Course, profile: PollProfile, config: Config, d: Demand) returns (source: Demand)
    requires config.link.Valid() && Forced(course, profile, config) && d in DroppedIn(course)
    ensures source in course.demands && d == source.(frequency := d.frequency)
    decreases course
  {
    hide Load, LessImportant, MaySlow;
    var GivenUp(demands, at, victim, slowed, rest) := course;
    if slowed.None? && d == victim {
      source := victim;
    } else {
      var later := DroppedCameIn(rest, profile, config, d);
      source := if slowed.Some? && later == slowed.value then victim else later;
    }
  }

  /** Every rejection names exactly the subscribers of its parameter and the reason that applies: one that can be
      read off the subscriptions, or else the budget, which the demands then exceed. */
  lemma RejectionsAreJustified(version: nat, profile: PollProfile, subscriptions: seq<Subscription>, config: Config, now: nat, r: Rejection)
    requires profile.Valid() && config.Valid() && r in PlanOf(version, profile, subscriptions, config, now).rejections
    ensures r.subscribers == set s | s in subscriptions && s.parameterId == r.parameterId :: s.subscriberId
    ensures r.reason.BudgetExceeded? <==> !TurnedAway(r, profile, subscriptions, config.cadences)
    ensures r.reason.BudgetExceeded? ==>
              r.parameterId in profile.parameters && Load(TakenIn(profile, subscriptions, config).active, profile, config) > config.budgetPpm
  {
    hide TakenIn, Load, PlanOf, Sacrifices;
    var taken := TakenIn(profile, subscriptions, config);
    var course := EverySacrificeIsForced(version, profile, subscriptions, config, now);
    IntakeRefusalsMean(profile, subscriptions, config);
    NothingIsGivenUpWithinBudget(version, profile, subscriptions, config, now);
    if r !in taken.rejections {
      var refusals := Refusals(DroppedIn(course));
      var i :| 0 <= i < |refusals| && refusals[i] == r;
      var source := DroppedCameIn(course, profile, config, DroppedIn(course)[i]);
      TakenDemandsMean(profile, subscriptions, config, source);
    }
  }

  /** Every demand the planner starts from is what the subscriptions to its parameter ask for. */
  lemma TakenDemandsMean(profile: PollProfile, subscriptions: seq<Subscription>, config: Config, d: Demand)
    requires config.Valid() && d in TakenIn(profile, subscriptions, config).active
    ensures d.parameterId in profile.parameters
    ensures DemandMeans(d, profile.parameters[d.parameterId], subscriptions, config.cadences)
  {
    hide DemandMeans, TurnedAway;
    IntakeMeans(InTextOrder(SubscribedIds(subscriptions)), profile, subscriptions, config.cadences);
  }

  // ---------------------------------------------------------------- what is in a block

  /** A slice carries what the subscriptions to its parameter ask for. */
  ghost predicate SliceMeans(slice: Slice, parameter: PollParameter, subscriptions: seq<Subscription>) {
    var cyclic := CyclicTo(slice.parameterId, subscriptions);
    && slice.count == parameter.block.count
    && (exists s :: s in cyclic && s.maximumAge == slice.maximumAge)
    && (forall s :: s in cyclic ==> slice.maximumAge <= s.maximumAge)
    && slice.reasons == (set s | s in cyclic :: s.reason)
    && slice.subscribers == (set s | s in subscriptions && s.parameterId == slice.parameterId :: s.subscriberId)
    && (slice.historyRequired <==> exists s :: s in subscriptions && s.parameterId == slice.parameterId && s.historyRequired)
  }

  /** The demand behind a slice, as the planner took it in. */
  lemma SliceSource(profile: PollProfile, subscriptions: seq<Subscription>, config: Config, draft: Draft, slice: Slice)
    returns (member: Demand, source: Demand)
    requires profile.Valid() && config.Valid() && slice in SortedSlices(draft)
    requires forall d :: d in draft.members ==> d in Settled(profile, subscriptions, config).active
    ensures member in draft.members && slice == SliceOf(member, draft.block.start)
    ensures source in TakenIn(profile, subscriptions, config).active && member == source.(frequency := member.frequency)
    ensures member.parameterId in profile.parameters
    ensures DemandMeans(source, profile.parameters[member.parameterId], subscriptions, config.cadences)
  {
    hide TakenIn, Settled, DemandMeans, SortedSlices, AllPlannable;
    member := SliceHasMember(draft, slice);
    SettledIsFair(profile, subscriptions, config);
    assert SlowedFrom(TakenIn(profile, subscriptions, config).active, member);
    source :| source in TakenIn(profile, subscriptions, config).active && member == source.(frequency := member.frequency);
    TakenDemandsMean(profile, subscriptions, config, source);
  }

  /** Every slice carries what its subscribers ask for, of the class their reasons call for; its block runs at the
      cadence of its frequency, and its requests are as old as the youngest of its slices allows. */
  lemma PlannedSlicesMean(version: nat, profile: PollProfile, subscriptions: seq<Subscription>, config: Config, now: nat, i: nat, slice: Slice)
    requires profile.Valid() && config.Valid()
    requires i < |PlanOf(version, profile, subscriptions, config, now).blocks|
    requires slice in PlanOf(version, profile, subscriptions, config, now).blocks[i].slices
    ensures var block := PlanOf(version, profile, subscriptions, config, now).blocks[i];
            && slice.parameterId in profile.parameters && SliceMeans(slice, profile.parameters[slice.parameterId], subscriptions)
            && ClassFor(block.requestClass, slice.reasons)
            && slice.offset == profile.parameters[slice.parameterId].block.start - block.block.start
            && profile.parameters[slice.parameterId].block.table == block.block.table
            && Some(block.period) == config.cadences.Period(block.frequency)
            && (exists other :: other in block.slices && other.maximumAge == block.maximumAge)
  {
    hide PlanOf, SortedSlices, Draftable, Settled, ClassFor, TransactionCost, UtilizationPpm, GroupStart, GroupEnd;
    var draft := BlockOrigin(version, profile, subscriptions, config, now, i);
    var member, source := SliceSource(profile, subscriptions, config, draft, slice);
    DraftKey(draft, profile, config, member);
    YoungestAgeMeans(draft.members);
    var d :| d in draft.members && d.maximumAge == YoungestAge(draft.members);
    SlicesAreMembers(draft);
    assert SliceOf(d, draft.block.start) in SortedSlices(draft);
  }

  lemma DraftKey(draft: Draft, profile: PollProfile, config: Config, member: Demand)
    requires config.Valid() && Draftable(draft.members, config.cadences) && draft == DraftOf(draft.members, profile, config)
    requires member in draft.members
    ensures draft.requestClass == member.requestClass && draft.frequency == member.frequency && draft.block.table == member.block.table
    ensures Some(draft.period) == config.cadences.Period(draft.frequency)
  {
    hide TransactionCost, UtilizationPpm, GroupStart, GroupEnd;
    GroupHasOneKey(draft.members);
    RanksIdentify(Fast, Fast, draft.requestClass, member.requestClass);
    assert draft.members[0] in draft.members;
    assert Plannable(draft.members[0], config.cadences);
  }

  /** `a` comes before `b` in a plan: shorter period first, then the more important class, then input registers,
      then the lower address. */
  ghost predicate RunsBefore(a: PollBlock, b: PollBlock) {
    || a.period < b.period
    || (a.period == b.period
        && (|| (exists i, j :: 0 <= i < j < |IMPORTANCE| && b.requestClass == IMPORTANCE[i] && a.requestClass == IMPORTANCE[j])
            || (a.requestClass == b.requestClass
                && (|| (a.block.table.InputRegisters? && b.block.table.HoldingRegisters?)
                    || (a.block.table == b.block.table && a.block.start <= b.block.start)))))
  }

  lemma DraftOrderMeans(a: Draft, b: Draft, x: PollBlock, y: PollBlock)
    requires DraftLe(a, b)
    requires x.period == a.period && x.requestClass == a.requestClass && x.block == a.block
    requires y.period == b.period && y.requestClass == b.requestClass && y.block == b.block
    ensures RunsBefore(x, y)
  {
    RanksIdentify(Fast, Fast, a.requestClass, b.requestClass);
    if a.requestClass != b.requestClass {
      ClassPosition(a.requestClass, 0);
      ClassPosition(b.requestClass, 0);
      assert b.requestClass == IMPORTANCE[b.requestClass.Rank()] && a.requestClass == IMPORTANCE[a.requestClass.Rank()];
    }
  }

  /** Blocks are numbered in this order. */
  lemma BlocksAreOrdered(version: nat, profile: PollProfile, subscriptions: seq<Subscription>, config: Config, now: nat, i: nat, j: nat)
    requires config.link.Valid()
    requires i < j < |PlanOf(version, profile, subscriptions, config, now).blocks|
    ensures var blocks := PlanOf(version, profile, subscriptions, config, now).blocks;
            RunsBefore(blocks[i], blocks[j]) && blocks[i].index == Min(i, U32_MAX)
  {
    hide Settled, DraftPlan, DraftLe, RunsBefore, SortedSlices, PhaseOf, CountPeriod;
    var drafts := DraftPlan(Settled(profile, subscriptions, config).active, profile, config);
    SortedDrafts(drafts);
    var sorted := Sorting.Sort(drafts, DraftLe);
    var blocks := PlanOf(version, profile, subscriptions, config, now).blocks;
    DraftOrderMeans(sorted[i], sorted[j], blocks[i], blocks[j]);
  }

  /** The cost a planned block is charged: the characters of request and response, rounded up to a microsecond, the
      silence or the device's own delay, the response time and the margin. */
  lemma PlannedCostMeans(version: nat, profile: PollProfile, subscriptions: seq<Subscription>, config: Config, now: nat, i: nat)
    requires profile.Valid() && config.Valid()
    requires i < |PlanOf(version, profile, subscriptions, config, now).blocks|
    requires PlanOf(version, profile, subscriptions, config, now).blocks[i].cost < DURATION_MAX
    ensures var block := PlanOf(version, profile, subscriptions, config, now).blocks[i];
            var wire := block.cost - Max(ProtocolT35(config.link), profile.minimumInterFrameDelay) - config.measuredResponseTime - config.deviceMargin;
            && wire % MICROSECOND == 0
            && (wire - MICROSECOND) * config.link.baudRate
               < (13 + 2 * block.block.count) * config.link.BitsPerCharacter() * 1_000_000_000
               <= wire * config.link.baudRate
  {
    hide PlanOf, SortedSlices, Draftable, Settled, TransactionCost, GroupStart, GroupEnd, ProtocolT35;
    var draft := BlockOrigin(version, profile, subscriptions, config, now, i);
    CostCoversTransaction(CostModelOf(profile, config), draft.block);
  }

  /** The blocks before number `i` with the same period. */
  ghost function Earlier(blocks: seq<PollBlock>, i: nat, period: Nanos): set<nat> {
    set j: nat | j < i && j < |blocks| && blocks[j].period == period
  }

  lemma {:induction false} CountIsSize(drafts: seq<Draft>, blocks: seq<PollBlock>, i: nat, period: Nanos)
    requires i <= |drafts| == |blocks| && forall j :: 0 <= j < |drafts| ==> blocks[j].period == drafts[j].period
    ensures CountPeriod(drafts[..i], period) == |Earlier(blocks, i, period)|
  {
    if i > 0 {
      CountIsSize(drafts, blocks, i - 1, period);
      assert drafts[..i][..i - 1] == drafts[..i - 1];
      assert Earlier(blocks, i, period) == Earlier(blocks, i - 1, period) + if blocks[i - 1].period == period then {i - 1} else {};
    } else {
      assert Earlier(blocks, 0, period) == {};
    }
  }

  /** Blocks with the same period start spread over one period from now: the k-th of n such blocks after k/n of it. */
  lemma PlannedBlocksAreSpread(version: nat, profile: PollProfile, subscriptions: seq<Subscription>, config: Config, now: nat, i: nat)
    requires profile.Valid() && config.Valid()
    requires i < |PlanOf(version, profile, subscriptions, config, now).blocks| <= U64_MAX
    requires PlanOf(version, profile, subscriptions, config, now).blocks[i].period <= U64_MAX
    ensures var blocks := PlanOf(version, profile, subscriptions, config, now).blocks;
            var k, n := |Earlier(blocks, i, blocks[i].period)|, |Earlier(blocks, |blocks|, blocks[i].period)|;
            && k < n && blocks[i].nextDue == now + blocks[i].period * k / n < now + blocks[i].period
  {
    hide Settled, DraftPlan, DraftLe, SortedSlices, PhaseOf, CountPeriod, Earlier;
    PlannedBlocksAreCyclicReads(version, profile, subscriptions, config, now, i);
    var sorted := Sorting.Sort(DraftPlan(Settled(profile, subscriptions, config).active, profile, config), DraftLe);
    var blocks := PlanOf(version, profile, subscriptions, config, now).blocks;
    assert blocks == FinalBlocks(sorted, now);
    FirstDueIsSpread(sorted, now, i);
    CountIsSize(sorted, blocks, i, blocks[i].period);
    CountIsSize(sorted, blocks, |blocks|, blocks[i].period);
    assert sorted[..|sorted|] == sorted;
  }
}
