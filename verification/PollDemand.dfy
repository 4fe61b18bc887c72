/** What the telemetry consumers ask for, merged into one demand per parameter. */
module PollDemands {
  import opened Domain
  import Modbus
  import opened TextOrder
  import Sorting

  /** All durations are in nanoseconds. */
  type Nanos = nat

  datatype FrequencyClass = Fast | Normal | Slow | OnDemand
  {
    function Rank(): (rank: nat)
      ensures rank <= 3
    {
      match this
      case Fast => 0
      case Normal => 1
      case Slow => 2
      case OnDemand => 3
    }

    function NextSlower(): Option<FrequencyClass> {
      match this
      case Fast => Some(Normal)
      case Normal => Some(Slow)
      case _ => None
    }
  }

  datatype RequestClass = Background | Telemetry | TelemetryCritical | Interactive | SafetyOneShot
  {
    function Rank(): nat {
      match this
      case Background => 0
      case Telemetry => 1
      case TelemetryCritical => 2
      case Interactive => 3
      case SafetyOneShot => 4
    }

    /** The classes a cyclic read may carry. */
    predicate Periodic() {
      !SafetyOneShot? && !Interactive?
    }
  }

  datatype Reason = DriveState | Fault | Dashboard | Scope | Csv | ParameterBrowser | Backup | Diagnostics
  {
    function Rank(): nat {
      match this
      case DriveState => 0
      case Fault => 1
      case Dashboard => 2
      case Scope => 3
      case Csv => 4
      case ParameterBrowser => 5
      case Backup => 6
      case Diagnostics => 7
    }

    function PeriodicClass(): RequestClass {
      match this
      case DriveState => TelemetryCritical
      case Fault => TelemetryCritical
      case Backup => Background
      case Diagnostics => Background
      case _ => Telemetry
    }

    function BudgetRank(): nat {
      match this
      case Diagnostics => 0
      case Backup => 1
      case Csv => 2
      case Scope => 3
      case Dashboard => 4
      case ParameterBrowser => 4
      case Fault => 5
      case DriveState => 6
    }
  }

  datatype Subscription = Subscription(
    parameterId: ParameterId,
    frequency: FrequencyClass,
    subscriberId: string,
    reason: Reason,
    historyRequired: bool,
    maximumAge: Nanos)

  datatype Cadences = Cadences(fast: Nanos, normal: Nanos, slow: Nanos)
  {
    predicate Valid() {
      0 < fast <= normal <= slow
    }

    function Period(frequency: FrequencyClass): Option<Nanos> {
      match frequency
      case Fast => Some(fast)
      case Normal => Some(normal)
      case Slow => Some(slow)
      case OnDemand => None
    }
  }

  /** A readable parameter of a validated profile. */
  datatype PollParameter = PollParameter(block: Modbus.RegisterBlock, doNotBridge: bool, maximumBridgeGap: nat)
  {
    predicate Valid() {
      block.ValidFor(Modbus.ReadFunction(block.table))
    }
  }

  datatype PollProfile = PollProfile(parameters: map<ParameterId, PollParameter>, minimumInterFrameDelay: Nanos)
  {
    predicate Valid() {
      forall id :: id in parameters ==> parameters[id].Valid()
    }
  }

  datatype RejectionReason = UnknownParameter | OnDemandOnly | MaximumAgeBelowFastCadence | BudgetExceeded

  datatype Rejection = Rejection(parameterId: ParameterId, subscribers: set<string>, reason: RejectionReason)

  datatype Demand = Demand(
    parameterId: ParameterId,
    block: Modbus.RegisterBlock,
    frequency: FrequencyClass,
    requestClass: RequestClass,
    maximumAge: Nanos,
    subscribers: set<string>,
    reasons: set<Reason>,
    historyRequired: bool,
    doNotBridge: bool,
    maximumBridgeGap: nat,
    budgetRank: nat)

  // ---------------------------------------------------------------- frequency and age

  /** The slowest frequency, at least as fast as requested, whose period respects the age. */
  function FrequencyForAge(requested: FrequencyClass, maximumAge: Nanos, cadences: Cadences): Option<FrequencyClass>
    decreases requested.Rank()
  {
    var period := cadences.Period(requested);
    if period.None? || period.value <= maximumAge then Some(requested)
    else match requested
      case Slow => FrequencyForAge(Normal, maximumAge, cadences)
      case Normal => FrequencyForAge(Fast, maximumAge, cadences)
      case _ => None
  }

  /** `f` respects the age, and nothing slower up to `requested` does. */
  predicate SlowestWithin(f: FrequencyClass, requested: FrequencyClass, maximumAge: Nanos, cadences: Cadences) {
    && f.Rank() <= requested.Rank()
    && cadences.Period(f).Some? && cadences.Period(f).value <= maximumAge
    && forall g: FrequencyClass ::
        f.Rank() < g.Rank() <= requested.Rank() ==> cadences.Period(g).Some? && cadences.Period(g).value > maximumAge
  }

  lemma FrequencyForAgeMeans(requested: FrequencyClass, maximumAge: Nanos, cadences: Cadences)
    requires cadences.Valid() && !requested.OnDemand?
    ensures FrequencyForAge(requested, maximumAge, cadences).None? <==> cadences.fast > maximumAge
    ensures FrequencyForAge(requested, maximumAge, cadences).Some? ==>
              SlowestWithin(FrequencyForAge(requested, maximumAge, cadences).value, requested, maximumAge, cadences)
  {
  }

  method ChooseFrequency(requested: FrequencyClass, maximumAge: Nanos, cadences: Cadences) returns (chosen: Option<FrequencyClass>)
    ensures chosen == FrequencyForAge(requested, maximumAge, cadences)
  {
    var effective := requested;
    while cadences.Period(effective).Some? && cadences.Period(effective).value > maximumAge
      invariant FrequencyForAge(effective, maximumAge, cadences) == FrequencyForAge(requested, maximumAge, cadences)
      decreases effective.Rank()
    {
      match effective
      case Slow => effective := Normal;
      case Normal => effective := Fast;
      case Fast => return None;
    }
    return Some(effective);
  }

  // ---------------------------------------------------------------- merging subscriptions

  predicate SubscriptionLe(a: Subscription, b: Subscription) {
    || a.frequency.Rank() < b.frequency.Rank()
    || (a.frequency.Rank() == b.frequency.Rank()
        && (|| a.reason.Rank() < b.reason.Rank()
            || (a.reason.Rank() == b.reason.Rank() && TextLe(a.subscriberId, b.subscriberId))))
  }

  lemma SubscriptionOrder()
    ensures Sorting.TotalPreorder(SubscriptionLe)
  {
    forall a: Subscription, b: Subscription ensures SubscriptionLe(a, b) || SubscriptionLe(b, a) {
      TextLeTotal(a.subscriberId, b.subscriberId);
    }
    forall a: Subscription, b: Subscription, c: Subscription | SubscriptionLe(a, b) && SubscriptionLe(b, c)
      ensures SubscriptionLe(a, c)
    {
      if TextLe(a.subscriberId, b.subscriberId) && TextLe(b.subscriberId, c.subscriberId) {
        TextLeTransitive(a.subscriberId, b.subscriberId, c.subscriberId);
      }
    }
  }

  function Cyclic(subscriptions: seq<Subscription>): (cyclic: seq<Subscription>)
    ensures forall s :: s in cyclic <==> s in subscriptions && !s.frequency.OnDemand?
  {
    if subscriptions == [] then []
    else (if subscriptions[0].frequency.OnDemand? then [] else [subscriptions[0]]) + Cyclic(subscriptions[1..])
  }

  function OldestAllowed(subscriptions: seq<Subscription>): (age: Nanos)
    requires subscriptions != []
    ensures exists s :: s in subscriptions && s.maximumAge == age
    ensures forall s :: s in subscriptions ==> age <= s.maximumAge
  {
    var first := subscriptions[0];
    if |subscriptions| == 1 then first.maximumAge
    else
      var rest := OldestAllowed(subscriptions[1..]);
      assert subscriptions == [first] + subscriptions[1..];
      if first.maximumAge <= rest then first.maximumAge else rest
  }

  function HighestClass(subscriptions: seq<Subscription>): (class_: RequestClass)
    requires subscriptions != []
    ensures exists s :: s in subscriptions && s.reason.PeriodicClass() == class_
    ensures forall s :: s in subscriptions ==> s.reason.PeriodicClass().Rank() <= class_.Rank()
  {
    var first := subscriptions[0];
    if |subscriptions| == 1 then first.reason.PeriodicClass()
    else
      var rest := HighestClass(subscriptions[1..]);
      assert subscriptions == [first] + subscriptions[1..];
      if rest.Rank() >= first.reason.PeriodicClass().Rank() then rest else first.reason.PeriodicClass()
  }

  function HighestBudgetRank(subscriptions: seq<Subscription>): (rank: nat)
    requires subscriptions != []
    ensures exists s :: s in subscriptions && s.reason.BudgetRank() == rank
    ensures forall s :: s in subscriptions ==> s.reason.BudgetRank() <= rank
  {
    var first := subscriptions[0];
    if |subscriptions| == 1 then first.reason.BudgetRank()
    else
      var rest := HighestBudgetRank(subscriptions[1..]);
      assert subscriptions == [first] + subscriptions[1..];
      Max(first.reason.BudgetRank(), rest)
  }

  function Subscribers(subscriptions: seq<Subscription>): set<string> {
    set s | s in subscriptions :: s.subscriberId
  }

  datatype Merged = Merged(demand: Demand) | Unmet(reason: RejectionReason)

  function Reasons(subscriptions: seq<Subscription>): set<Reason> {
    set s | s in subscriptions :: s.reason
  }

  predicate NeedsHistory(subscriptions: seq<Subscription>) {
    exists s :: s in subscriptions && s.historyRequired
  }

  function DemandFor(id: ParameterId, parameter: PollParameter, requested: FrequencyClass, maximumAge: Nanos, class_: RequestClass,
                     rank: nat, subscribers: set<string>, reasons: set<Reason>, history: bool, cadences: Cadences): Merged
  {
    var frequency := FrequencyForAge(requested, maximumAge, cadences);
    if frequency.None? then Unmet(MaximumAgeBelowFastCadence)
    else
      Merged(Demand(id, parameter.block, frequency.value, class_, maximumAge, subscribers, reasons, history,
                    parameter.doNotBridge, parameter.maximumBridgeGap, rank))
  }

  /** One demand for all subscriptions to a parameter; unmet if none of them is cyclic or one is too young. */
  function MergeSubscriptions(id: ParameterId, parameter: PollParameter, subscriptions: seq<Subscription>, cadences: Cadences): Merged {
    var cyclic := Sorting.Sort(Cyclic(subscriptions), SubscriptionLe);
    if cyclic == [] then Unmet(OnDemandOnly)
    else
      DemandFor(id, parameter, cyclic[0].frequency, OldestAllowed(cyclic), HighestClass(cyclic), HighestBudgetRank(cyclic),
                Subscribers(subscriptions), Reasons(cyclic), NeedsHistory(subscriptions), cadences)
  }

  ghost predicate SameMembers<T(!new)>(xs: seq<T>, ys: seq<T>) {
    forall x :: x in xs <==> x in ys
  }

  lemma SortKeepsMembers(xs: seq<Subscription>)
    ensures SameMembers(Sorting.Sort(xs, SubscriptionLe), xs)
    ensures xs != [] <==> Sorting.Sort(xs, SubscriptionLe) != []
    ensures forall s :: s in xs ==> Sorting.Sort(xs, SubscriptionLe)[0].frequency.Rank() <= s.frequency.Rank()
  {
    SubscriptionOrder();
    Sorting.SortSorts(xs, SubscriptionLe);
    Sorting.SameElements(Sorting.Sort(xs, SubscriptionLe), xs);
    var sorted := Sorting.Sort(xs, SubscriptionLe);
    forall s | s in xs ensures sorted[0].frequency.Rank() <= s.frequency.Rank() {
      assert s in sorted;
      var i :| 0 <= i < |sorted| && sorted[i] == s;
      if i > 0 { assert SubscriptionLe(sorted[0], sorted[i]); }
    }
  }

  lemma RanksIdentify(f: FrequencyClass, g: FrequencyClass, c: RequestClass, d: RequestClass)
    ensures f.Rank() == g.Rank() ==> f == g
    ensures c.Rank() == d.Rank() ==> c == d
  {
  }

  lemma SameFolds(xs: seq<Subscription>, ys: seq<Subscription>)
    requires xs != [] && ys != [] && SameMembers(xs, ys)
    ensures OldestAllowed(xs) == OldestAllowed(ys)
    ensures HighestClass(xs) == HighestClass(ys)
    ensures HighestBudgetRank(xs) == HighestBudgetRank(ys)
  {
    RanksIdentify(Fast, Fast, HighestClass(xs), HighestClass(ys));
  }

  lemma SameReasons(xs: seq<Subscription>, ys: seq<Subscription>)
    requires SameMembers(xs, ys)
    ensures Reasons(xs) == Reasons(ys) && Subscribers(xs) == Subscribers(ys)
    ensures NeedsHistory(xs) <==> NeedsHistory(ys)
  {
  }

  lemma SameFirst(xs: seq<Subscription>, ys: seq<Subscription>)
    requires SameMembers(xs, ys)
    ensures var cx, cy := Sorting.Sort(Cyclic(xs), SubscriptionLe), Sorting.Sort(Cyclic(ys), SubscriptionLe);
            SameMembers(cx, cy) && (cx == [] <==> cy == []) && (cx != [] && cy != [] ==> cx[0].frequency == cy[0].frequency)
  {
    hide Sorting.Sort, SubscriptionLe;
    SortKeepsMembers(Cyclic(xs));
    SortKeepsMembers(Cyclic(ys));
    var cx, cy := Sorting.Sort(Cyclic(xs), SubscriptionLe), Sorting.Sort(Cyclic(ys), SubscriptionLe);
    SameEmptiness(cx, cy);
    if cx != [] {
      assert cx[0] in Cyclic(xs) && cx[0] in Cyclic(ys);
      assert cy[0] in Cyclic(ys) && cy[0] in Cyclic(xs);
      RanksIdentify(cx[0].frequency, cy[0].frequency, Background, Background);
    }
  }

  lemma SameEmptiness(xs: seq<Subscription>, ys: seq<Subscription>)
    requires SameMembers(xs, ys)
    ensures xs == [] <==> ys == []
  {
    if xs != [] { assert xs[0] in ys; }
    if ys != [] { assert ys[0] in xs; }
  }

  /** The demand depends only on which subscriptions there are, not on their order or repetition. */
  lemma MergeIgnoresOrder(id: ParameterId, parameter: PollParameter, xs: seq<Subscription>, ys: seq<Subscription>, cadences: Cadences)
    requires SameMembers(xs, ys)
    ensures MergeSubscriptions(id, parameter, xs, cadences) == MergeSubscriptions(id, parameter, ys, cadences)
  {
    hide Sorting.Sort, SubscriptionLe, FrequencyForAge, OldestAllowed, HighestClass, HighestBudgetRank, SameMembers, Subscribers, Reasons, NeedsHistory, DemandFor;
    var cx, cy := Sorting.Sort(Cyclic(xs), SubscriptionLe), Sorting.Sort(Cyclic(ys), SubscriptionLe);
    SameFirst(xs, ys);
    SameReasons(xs, ys);
    SameReasons(cx, cy);
    if cx != [] {
      SameFolds(cx, cy);
    }
  }

  /** A demand is fresh when its period is no longer than the age all its cyclic subscriptions allow. */
  ghost predicate Fresh(d: Demand, cadences: Cadences) {
    !d.frequency.OnDemand? && cadences.Period(d.frequency).value <= d.maximumAge
  }

  lemma MergeMeans(id: ParameterId, parameter: PollParameter, subscriptions: seq<Subscription>, cadences: Cadences)
    requires cadences.Valid()
    ensures var merged := MergeSubscriptions(id, parameter, subscriptions, cadences);
            && (merged == Unmet(OnDemandOnly) <==> forall s :: s in subscriptions ==> s.frequency.OnDemand?)
            && (merged == Unmet(MaximumAgeBelowFastCadence) <==>
                  exists s :: s in subscriptions && !s.frequency.OnDemand? && s.maximumAge < cadences.fast)
            && (merged.Merged? ==>
                  && merged.demand.parameterId == id && merged.demand.block == parameter.block
                  && Fresh(merged.demand, cadences)
                  && merged.demand.requestClass.Periodic()
                  && merged.demand.subscribers == Subscribers(subscriptions)
                  && (forall s :: s in subscriptions && !s.frequency.OnDemand? ==> merged.demand.maximumAge <= s.maximumAge))
  {
    var cyclic := Sorting.Sort(Cyclic(subscriptions), SubscriptionLe);
    SortKeepsMembers(Cyclic(subscriptions));
    if cyclic != [] {
      assert cyclic[0] in Cyclic(subscriptions);
      FrequencyForAgeMeans(cyclic[0].frequency, OldestAllowed(cyclic), cadences);
      var oldest :| oldest in cyclic && oldest.maximumAge == OldestAllowed(cyclic);
      assert forall s :: s in subscriptions && !s.frequency.OnDemand? ==> s in cyclic;
    } else {
      assert forall s :: s in subscriptions && !s.frequency.OnDemand? ==> s in cyclic;
    }
  }
}
