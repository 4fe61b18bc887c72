/** The executor running a plan that the planner made. */
module PlannedRuns {
  import opened Domain
  import opened PollDemands
  import opened PollGrouping
  import opened PollPlanning
  import opened PollPlans
  import opened Executor

  /** A planned block with its first due time. */
  function RuntimeBlock(block: PollBlock): PlannedBlock {
    PlannedBlock(block.index, block.nextDue, block.period, block.maximumAge, block.requestClass, block.block)
  }

  function RuntimeOf(blocks: seq<PollBlock>): (plan: seq<PlannedBlock>)
    ensures |plan| == |blocks|
    ensures forall i :: 0 <= i < |blocks| ==> plan[i] == RuntimeBlock(blocks[i])
  {
    seq(|blocks|, i requires 0 <= i < |blocks| => RuntimeBlock(blocks[i]))
  }

  /** The blocks the planner hands to the executor. */
  function RuntimePlan(version: nat, profile: PollProfile, subscriptions: seq<Subscription>, config: Config, now: nat): seq<PlannedBlock>
    requires config.Valid()
  {
    RuntimeOf(PlanOf(version, profile, subscriptions, config, now).blocks)
  }

  /** A planned block always makes a request, so a cycle of it is skipped or reaches the bus; and the executor runs
      it as the plan says. */
  lemma PlannedBlocksAreRequestable(version: nat, profile: PollProfile, subscriptions: seq<Subscription>, config: Config, now: nat)
    requires profile.Valid() && config.Valid()
    ensures forall i :: 0 <= i < |RuntimePlan(version, profile, subscriptions, config, now)| ==>
              && RuntimePlan(version, profile, subscriptions, config, now)[i].Requestable()
              && RuntimePlan(version, profile, subscriptions, config, now)[i].period > 0
    ensures var plan, blocks := RuntimePlan(version, profile, subscriptions, config, now), PlanOf(version, profile, subscriptions, config, now).blocks;
            && |plan| == |blocks|
            && forall i :: 0 <= i < |plan| ==>
                && plan[i].index == blocks[i].index && plan[i].block == blocks[i].block && plan[i].requestClass == blocks[i].requestClass
                && plan[i].firstDue == blocks[i].nextDue && plan[i].period == blocks[i].period && plan[i].maximumAge == blocks[i].maximumAge
  {
    hide PlanOf;
    forall i | 0 <= i < |RuntimePlan(version, profile, subscriptions, config, now)|
      ensures RuntimePlan(version, profile, subscriptions, config, now)[i].Requestable()
      ensures RuntimePlan(version, profile, subscriptions, config, now)[i].period > 0
    {
      PlannedBlocksAreCyclicReads(version, profile, subscriptions, config, now, i);
    }
  }

  /** Every plan the planner makes meets what the scheduling results ask for, as long as the clock of the run stays
      within 64 bits of nanoseconds. */
  lemma PlannedRunsAreMeasurable(version: nat, profile: PollProfile, subscriptions: seq<Subscription>, config: Config, now: nat,
                                 log: seq<Cycle>)
    requires profile.Valid() && config.Valid()
    ensures Measurable(RuntimePlan(version, profile, subscriptions, config, now), log)
            <==> ClockInRange(RuntimePlan(version, profile, subscriptions, config, now), log)
  {
    hide RuntimePlan;
    PlannedBlocksAreRequestable(version, profile, subscriptions, config, now);
  }

  /** What subscribing buys: whenever the block of a planned parameter has run, it is due again within the maximum
      age of every cyclic subscription to the parameter; and a read that is not skipped starts, and has its
      deadline, within that age of the block's due time. */
  lemma SubscriptionsStayFresh(version: nat, profile: PollProfile, subscriptions: seq<Subscription>, config: Config, now: nat,
                               start: nat, log: seq<Cycle>, n: nat, slice: Slice, s: Subscription)
    requires profile.Valid() && config.Valid()
    requires var plan := RuntimePlan(version, profile, subscriptions, config, now);
             IsRun(plan, start, log) && ClockInRange(plan, log)
    requires n < |log| && log[n].block < |PlanOf(version, profile, subscriptions, config, now).blocks|
    requires slice in PlanOf(version, profile, subscriptions, config, now).blocks[log[n].block].slices
    requires s in subscriptions && s.parameterId == slice.parameterId && !s.frequency.OnDemand?
    ensures var plan, c := RuntimePlan(version, profile, subscriptions, config, now), log[n];
            && c.completed < DueAfter(plan, log[..n + 1])[c.block] <= c.completed + s.maximumAge
            && (!c.skipped ==> c.started < c.due + plan[c.block].maximumAge <= c.due + s.maximumAge)
  {
    hide PlanOf, IsRun, DueAfter, Measurable, ClockInRange;
    var plan := RuntimePlan(version, profile, subscriptions, config, now);
    PlannedRunsAreMeasurable(version, profile, subscriptions, config, now, log);
    PlannedSlicesAreFresh(version, profile, subscriptions, config, now, log[n].block, slice, s);
    CycleMovesOneBlock(plan, start, log, n);
    SkipsTheStale(plan, start, log, n);
  }
}
