/** The poll executor for one fixed plan: earliest deadline first, without catch-up bursts. */
module Executor {
  import opened Domain
  import Modbus
  import PollDemands

  /** A block of the plan as the executor schedules and reads it. */
  datatype PlannedBlock = PlannedBlock(
    index: nat, firstDue: nat, period: nat, maximumAge: nat, requestClass: PollDemands.RequestClass, block: Modbus.RegisterBlock)
  {
    /** The bus accepts this block as a cyclic read. */
    predicate Requestable() {
      && requestClass.Periodic()
      && Modbus.ReadFunction(block.table).ValidatesTable(block.table)
      && Modbus.ReadFunction(block.table).ValidatesCount(block.count)
    }
  }

  /** A block makes a cyclic read exactly if its class is one of the three cyclic ones and it has at most 125
      registers. */
  lemma RequestableExactlyWhen(b: PlannedBlock)
    ensures b.Requestable() <==>
            b.requestClass in {PollDemands.Background, PollDemands.Telemetry, PollDemands.TelemetryCritical} && b.block.count <= 125
  {
  }

  /** The due time after a cycle that completed at `now`: the next point of the grid after it. */
  function AdvanceWithoutBurst(due: nat, period: nat, now: nat): nat {
    if now < due then due
    else
      var nanos := Max(period, 1);
      var steps := (now - due) / nanos + 1;
      due + Min(Min(nanos * steps, U128_MAX), U64_MAX)
  }

  /** The advance neither hits the 64-bit limit of a duration. */
  predicate InRange(due: nat, period: nat, now: nat) {
    due <= now ==> now - due + Max(period, 1) <= U64_MAX
  }

  ghost predicate OnGrid(start: nat, period: nat, due: nat) {
    exists k: nat :: due == start + k * period
  }

  lemma AdvanceMeans(due: nat, period: nat, now: nat)
    requires due <= now && period > 0 && InRange(due, period, now)
    ensures now < AdvanceWithoutBurst(due, period, now) <= now + period
    ensures OnGrid(due, period, AdvanceWithoutBurst(due, period, now))
  {
    var elapsed := now - due;
    var steps := elapsed / period + 1;
    NextMultiple(elapsed, period, steps);
    assert AdvanceWithoutBurst(due, period, now) == due + period * steps;
    GridPoint(due, period, steps, due + period * steps);
  }

  lemma NextMultiple(elapsed: nat, period: nat, steps: nat)
    requires period > 0 && steps == elapsed / period + 1
    ensures elapsed < period * steps <= elapsed + period
  {
    var q := elapsed / period;
    assert elapsed == q * period + elapsed % period;
    assert period * steps == q * period + period by { Distributes(period, q); }
  }

  lemma Distributes(period: nat, q: nat)
    ensures period * (q + 1) == q * period + period
  {
  }

  lemma GridPoint(start: nat, period: nat, k: nat, due: nat)
    requires due == start + period * k
    ensures OnGrid(start, period, due)
  {
    assert due == start + k * period;
  }

  lemma GridTransitive(start: nat, period: nat, a: nat, b: nat)
    requires OnGrid(start, period, a) && OnGrid(a, period, b)
    ensures OnGrid(start, period, b)
  {
    var j: nat :| a == start + j * period;
    var k: nat :| b == a + k * period;
    assert b == start + (j + k) * period;
  }

  // ---------------------------------------------------------------- runs

  /** One completed cycle of block `block`. */
  datatype Cycle = Cycle(block: nat, due: nat, started: nat, completed: nat, skipped: bool)

  /** The index of the block with the least due time; the first of several. */
  function Earliest(due: seq<nat>): (index: nat)
    requires due != []
    ensures index < |due|
    ensures forall i :: 0 <= i < |due| ==> due[index] <= due[i]
    ensures forall i :: 0 <= i < index ==> due[index] < due[i]
  {
    var n := |due| - 1;
    if n == 0 then 0
    else
      var i := Earliest(due[..n]);
      if due[n] < due[i] then n else i
  }

  function FirstDue(plan: seq<PlannedBlock>): (due: seq<nat>)
    ensures |due| == |plan|
    ensures forall i :: 0 <= i < |plan| ==> due[i] == plan[i].firstDue
  {
    seq(|plan|, i requires 0 <= i < |plan| => plan[i].firstDue)
  }

  /** The due times after the cycles of `log`. */
  function DueAfter(plan: seq<PlannedBlock>, log: seq<Cycle>): (due: seq<nat>)
    ensures |due| == |plan|
  {
    if log == [] then FirstDue(plan)
    else
      var before := DueAfter(plan, log[..|log| - 1]);
      var last := log[|log| - 1];
      if last.block < |plan|
      then before[last.block := AdvanceWithoutBurst(last.due, plan[last.block].period, last.completed)] else before
  }

  /** The cycle follows the executor's rules: the earliest block, not before it is due, and skipped exactly when its
      sample would already be too old. */
  ghost predicate Follows(plan: seq<PlannedBlock>, due: seq<nat>, since: nat, c: Cycle)
    requires |due| == |plan|
  {
    && plan != [] && c.block == Earliest(due) && c.due == due[c.block]
    && since <= c.started <= c.completed && c.due <= c.started
    && (c.skipped <==> c.started >= c.due + plan[c.block].maximumAge)
  }

  function LastTime(log: seq<Cycle>, start: nat): nat {
    if log == [] then start else log[|log| - 1].completed
  }

  /** Every cycle of the log follows from those before it. */
  ghost predicate IsRun(plan: seq<PlannedBlock>, start: nat, log: seq<Cycle>) {
    forall n {:trigger FollowsAt(plan, start, log, n)} :: 0 <= n < |log| ==> FollowsAt(plan, start, log, n)
  }

  ghost predicate FollowsAt(plan: seq<PlannedBlock>, start: nat, log: seq<Cycle>, n: nat)
    requires n < |log|
  {
    Follows(plan, DueAfter(plan, log[..n]), LastTime(log[..n], start), log[n])
  }

  /** The clock of the run stays within what a 64-bit number of nanoseconds can measure. */
  ghost predicate ClockInRange(plan: seq<PlannedBlock>, log: seq<Cycle>) {
    forall n :: 0 <= n < |log| ==> log[n].block < |plan| ==> InRange(log[n].due, plan[log[n].block].period, log[n].completed)
  }

  ghost predicate Measurable(plan: seq<PlannedBlock>, log: seq<Cycle>) {
    (forall i :: 0 <= i < |plan| ==> plan[i].period > 0) && ClockInRange(plan, log)
  }

  class Clock {
    var time: nat

    constructor ()
    {
      time := 0;
    }

    method Now() returns (now: nat)
      modifies this
      ensures old(time) <= now == time
    {
      var passed: nat :| passed >= 0;
      time := time + passed;
      now := time;
    }

    method SleepUntil(due: nat)
      modifies this
      ensures time >= old(time) && time >= due
    {
      var late: nat :| late >= 0;
      time := Max(time, due) + late;
    }
  }

  datatype CyclicRead = CyclicRead(
    requestId: nat, sessionId: nat, slaveId: nat, requestClass: PollDemands.RequestClass, deadline: nat,
    function_: Modbus.Function, block: Modbus.RegisterBlock)

  /** What became of one cycle. The answer of the bus is None when the read failed. */
  datatype Outcome = SkippedDeadline | NotRequestable | Read(answer: Option<RawRegisters>)

  datatype ExecutionResult = ExecutionResult(planVersion: nat, blockIndex: nat, requestId: nat, completedAt: nat, outcome: Outcome)

  datatype Statistics = Statistics(requestsStarted: nat, requestsCompleted: nat, deadlinesSkipped: nat, resultsDropped: nat)

  function Counting(counter: nat, event: bool): nat {
    if event then SaturatingAdd(counter, 1, U64_MAX) else counter
  }

  /** One cycle of block `b` starts a request unless it is skipped or of the wrong class, completes it unless
      the block cannot be read, and drops its result unless it is delivered. */
  function Counted(stats: Statistics, b: PlannedBlock, skipped: bool, delivered: bool): Statistics {
    Statistics(Counting(stats.requestsStarted, !skipped && b.requestClass.Periodic()),
               Counting(stats.requestsCompleted, !skipped && b.Requestable()),
               Counting(stats.deadlinesSkipped, skipped),
               Counting(stats.resultsDropped, !delivered))
  }

  class PollExecutor {
    const planVersion: nat
    const plan: seq<PlannedBlock>
    const sessionId: nat
    const slaveId: nat
    const clock: Clock
    var nextDue: seq<nat>
    var nextRequestId: nat
    var stats: Statistics
    ghost const start: nat
    ghost var log: seq<Cycle>
    /** The reads that went to the bus, each with its answer, and the results that were delivered. */
    ghost var busReads: seq<(CyclicRead, Option<RawRegisters>)>
    ghost var delivered: seq<ExecutionResult>

    ghost predicate Valid()
      reads this, clock
    {
      && plan != []
      && IsRun(plan, start, log) && nextDue == DueAfter(plan, log)
      && LastTime(log, start) <= clock.time
    }

    constructor (planVersion: nat, plan: seq<PlannedBlock>, sessionId: nat, slaveId: nat, clock: Clock)
      requires plan != []
      ensures Valid() && this.plan == plan && this.clock == clock && log == [] && start == clock.time
      ensures this.planVersion == planVersion && this.sessionId == sessionId && this.slaveId == slaveId
      ensures nextRequestId == 1 && stats == Statistics(0, 0, 0, 0) && busReads == [] && delivered == []
    {
      this.planVersion, this.plan, this.sessionId, this.slaveId, this.clock := planVersion, plan, sessionId, slaveId, clock;
      nextDue, nextRequestId, stats := FirstDue(plan), 1, Statistics(0, 0, 0, 0);
      start, log, busReads, delivered := clock.time, [], [], [];
    }

    method ReadBus(request: CyclicRead) returns (answer: Option<RawRegisters>)
      modifies this`busReads
      ensures busReads == old(busReads) + [(request, answer)]
    {
      answer := *;
      busReads := busReads + [(request, answer)];
    }

    /** Sending to the result channel succeeds or not; a result that does not fit is dropped and counted. */
    method Publish(result: ExecutionResult) returns (sent: bool)
      modifies this`delivered, this`stats
      ensures delivered == if sent then old(delivered) + [result] else old(delivered)
      ensures stats == old(stats).(resultsDropped := Counting(old(stats).resultsDropped, !sent))
    {
      sent := *;
      if sent {
        delivered := delivered + [result];
      } else {
        stats := stats.(resultsDropped := SaturatingAdd(stats.resultsDropped, 1, U64_MAX));
      }
    }

    /** The cyclic read of one block, unless its class or its block does not make a request. */
    method Attempt(b: PlannedBlock, requestId: nat, deadline: nat) returns (outcome: Outcome)
      modifies this`busReads, this`stats
      ensures !outcome.SkippedDeadline? && (outcome.NotRequestable? <==> !b.Requestable())
      ensures busReads == old(busReads) +
                if !b.Requestable() then []
                else [(CyclicRead(requestId, sessionId, slaveId, b.requestClass, deadline,
                                  if b.block.table.InputRegisters? then Modbus.ReadInputRegisters else Modbus.ReadHoldingRegisters, b.block),
                       outcome.answer)]
      ensures stats == old(stats).(requestsStarted := Counting(old(stats).requestsStarted, b.requestClass.Periodic()),
                                   requestsCompleted := Counting(old(stats).requestsCompleted, b.Requestable()))
    {
      if !b.requestClass.Periodic() {
        return NotRequestable;
      }
      stats := stats.(requestsStarted := SaturatingAdd(stats.requestsStarted, 1, U64_MAX));
      var function_ := Modbus.ReadFunction(b.block.table);
      if !function_.ValidatesTable(b.block.table) || !function_.ValidatesCount(b.block.count) {
        return NotRequestable;
      }
      var answer := ReadBus(CyclicRead(requestId, sessionId, slaveId, b.requestClass, deadline, function_, b.block));
      stats := stats.(requestsCompleted := SaturatingAdd(stats.requestsCompleted, 1, U64_MAX));
      return Read(answer);
    }

    /** One pass of the loop with no new plan: wait for the earliest block, read it unless it is too late, publish
        the result, and schedule the block's next cycle. */
    method RunCycle() returns (result: ExecutionResult, sent: bool)
      requires Valid()
      modifies this, clock
      ensures Valid() && |log| == |old(log)| + 1 && old(log) <= log
      ensures var c := log[|old(log)|];
              && c.block == Earliest(old(nextDue))
              && var b := plan[c.block];
                 && result.planVersion == planVersion && result.blockIndex == b.index
                 && result.requestId == old(nextRequestId) && nextRequestId == SaturatingAdd(result.requestId, 1, U64_MAX)
                 && (result.outcome.SkippedDeadline? <==> c.skipped)
                 && (result.outcome.NotRequestable? <==> !c.skipped && !b.Requestable())
                 && c.started <= result.completedAt <= c.completed
                 && (!result.outcome.NotRequestable? ==> result.completedAt == c.completed)
                 && busReads == old(busReads) +
                      (if !result.outcome.Read? then []
                       else [(CyclicRead(result.requestId, sessionId, slaveId, b.requestClass, c.due + b.maximumAge,
                                         if b.block.table.InputRegisters? then Modbus.ReadInputRegisters else Modbus.ReadHoldingRegisters,
                                         b.block),
                              result.outcome.answer)])
                 && delivered == (if sent then old(delivered) + [result] else old(delivered))
                 && stats == Counted(old(stats), b, c.skipped, sent)
    {
      hide IsRun, DueAfter, AdvanceWithoutBurst;
      var index := Earliest(nextDue);
      DueCovers(plan, log);
      var due := nextDue[index];
      var b := plan[index];
      clock.SleepUntil(due);
      var requestId := nextRequestId;
      nextRequestId := SaturatingAdd(nextRequestId, 1, U64_MAX);
      var now := clock.Now();
      var deadline := due + b.maximumAge;
      var skipped := now >= deadline;
      var outcome := SkippedDeadline;
      if skipped {
        stats := stats.(deadlinesSkipped := SaturatingAdd(stats.deadlinesSkipped, 1, U64_MAX));
      } else {
        outcome := Attempt(b, requestId, deadline);
      }
      var completedAt := clock.Now();
      result := ExecutionResult(planVersion, b.index, requestId, completedAt, outcome);
      sent := Publish(result);
      if outcome.NotRequestable? {
        // The early return looks at the clock again.
        completedAt := clock.Now();
      }
      ghost var cycle := Cycle(index, due, now, completedAt, skipped);
      RunExtends(plan, start, log, cycle);
      log := log + [cycle];
      nextDue := nextDue[index := AdvanceWithoutBurst(due, b.period, completedAt)];
    }
  }

  lemma DueCovers(plan: seq<PlannedBlock>, log: seq<Cycle>)
    ensures |DueAfter(plan, log)| == |plan|
  {
  }

  lemma RunExtends(plan: seq<PlannedBlock>, start: nat, log: seq<Cycle>, c: Cycle)
    requires IsRun(plan, start, log) && plan != []
    requires Follows(plan, DueAfter(plan, log), LastTime(log, start), c)
    ensures IsRun(plan, start, log + [c])
    ensures DueAfter(plan, log + [c]) == DueAfter(plan, log)[c.block := AdvanceWithoutBurst(c.due, plan[c.block].period, c.completed)]
    ensures LastTime(log + [c], start) == c.completed
  {
    hide Follows, DueAfter;
    var longer := log + [c];
    assert longer[..|log|] == log;
    forall n | 0 <= n < |longer| ensures FollowsAt(plan, start, longer, n) {
      if n < |log| {
        assert longer[..n] == log[..n] && longer[n] == log[n];
        assert FollowsAt(plan, start, log, n);
      }
    }
    DueMoves(plan, longer, |log|);
    assert longer[..|longer|] == longer;
    FollowsInPlan(plan, DueAfter(plan, log), LastTime(log, start), c);
  }

  lemma FollowsInPlan(plan: seq<PlannedBlock>, due: seq<nat>, since: nat, c: Cycle)
    requires |due| == |plan| && Follows(plan, due, since, c)
    ensures c.block < |plan|
  {
  }

  lemma DueMoves(plan: seq<PlannedBlock>, log: seq<Cycle>, n: nat)
    requires n < |log|
    ensures var before, after, c := DueAfter(plan, log[..n]), DueAfter(plan, log[..n + 1]), log[n];
            after == if c.block < |plan| then before[c.block := AdvanceWithoutBurst(c.due, plan[c.block].period, c.completed)] else before
  {
    assert log[..n + 1][..n] == log[..n];
  }

  // ---------------------------------------------------------------- due times

  /** What one cycle of a run does: its own block moves to the first grid point after its completion, within one
      period of it; no other block moves. */
  lemma CycleMovesOneBlock(plan: seq<PlannedBlock>, start: nat, log: seq<Cycle>, n: nat)
    requires IsRun(plan, start, log) && Measurable(plan, log) && n < |log|
    ensures var before, after, c := DueAfter(plan, log[..n]), DueAfter(plan, log[..n + 1]), log[n];
            && c.block < |plan| && before[c.block] == c.due <= c.completed
            && c.completed < after[c.block] <= c.completed + plan[c.block].period
            && OnGrid(c.due, plan[c.block].period, after[c.block])
            && forall i :: 0 <= i < |plan| && i != c.block ==> after[i] == before[i]
  {
    hide DueAfter, OnGrid, AdvanceWithoutBurst;
    var c := log[n];
    assert FollowsAt(plan, start, log, n);
    DueMoves(plan, log, n);
    AdvanceMeans(c.due, plan[c.block].period, c.completed);
  }

  /** A cycle that starts at its deadline or later is skipped, and only such a cycle. */
  lemma SkipsTheStale(plan: seq<PlannedBlock>, start: nat, log: seq<Cycle>, n: nat)
    requires IsRun(plan, start, log) && n < |log|
    ensures log[n].block < |plan| && (log[n].skipped <==> log[n].started >= log[n].due + plan[log[n].block].maximumAge)
  {
    assert FollowsAt(plan, start, log, n);
  }

  lemma FirstOnGrid(plan: seq<PlannedBlock>, log: seq<Cycle>, i: nat)
    requires i < |plan|
    ensures OnGrid(plan[i].firstDue, plan[i].period, DueAfter(plan, log[..0])[i])
  {
    assert plan[i].firstDue == plan[i].firstDue + 0 * plan[i].period;
  }

  /** Every due time a block ever has lies on the grid of its period from its first due time. */
  lemma {:induction false} DueTimesStayOnGrid(plan: seq<PlannedBlock>, start: nat, log: seq<Cycle>, n: nat, i: nat)
    requires IsRun(plan, start, log) && Measurable(plan, log) && n <= |log| && i < |plan|
    ensures OnGrid(plan[i].firstDue, plan[i].period, DueAfter(plan, log[..n])[i])
    decreases n
  {
    hide OnGrid, DueAfter, IsRun, Measurable;
    if n == 0 {
      FirstOnGrid(plan, log, i);
    } else {
      DueTimesStayOnGrid(plan, start, log, n - 1, i);
      CycleMovesOneBlock(plan, start, log, n - 1);
      if log[n - 1].block == i {
        GridTransitive(plan[i].firstDue, plan[i].period, log[n - 1].due, DueAfter(plan, log[..n])[i]);
      }
    }
  }

  lemma {:induction false} DueNeverFalls(plan: seq<PlannedBlock>, start: nat, log: seq<Cycle>, m: nat, n: nat, i: nat)
    requires IsRun(plan, start, log) && Measurable(plan, log) && m <= n <= |log| && i < |plan|
    ensures DueAfter(plan, log[..m])[i] <= DueAfter(plan, log[..n])[i]
    decreases n - m
  {
    hide DueAfter;
    if m < n {
      DueNeverFalls(plan, start, log, m, n - 1, i);
      CycleMovesOneBlock(plan, start, log, n - 1);
    }
  }

  /** Two cycles of the same block never share a due time, and the later one is due only after the earlier one was
      completed: there is no burst to catch up. */
  lemma NoBursts(plan: seq<PlannedBlock>, start: nat, log: seq<Cycle>, m: nat, n: nat)
    requires IsRun(plan, start, log) && Measurable(plan, log) && m < n < |log| && log[m].block == log[n].block
    ensures log[m].due <= log[m].completed < log[n].due
  {
    hide DueAfter;
    var i := log[m].block;
    CycleMovesOneBlock(plan, start, log, m);
    CycleMovesOneBlock(plan, start, log, n);
    DueNeverFalls(plan, start, log, m + 1, n, i);
  }

  lemma {:induction false} TimeNeverFalls(plan: seq<PlannedBlock>, start: nat, log: seq<Cycle>, m: nat, n: nat)
    requires IsRun(plan, start, log) && m <= n <= |log|
    ensures LastTime(log[..m], start) <= LastTime(log[..n], start)
    decreases n - m
  {
    if m < n {
      TimeNeverFalls(plan, start, log, m, n - 1);
      assert FollowsAt(plan, start, log, n - 1);
      assert log[..n][n - 1] == log[n - 1];
    }
  }

  // ---------------------------------------------------------------- fairness

  /** From cycle `first` up to cycle `until` block `b` does not run. */
  ghost predicate Waits(log: seq<Cycle>, b: nat, first: nat, until: nat)
    requires first <= until <= |log|
  {
    forall n :: first <= n < until ==> log[n].block != b
  }

  lemma {:induction false} WaitingKeepsDue(plan: seq<PlannedBlock>, start: nat, log: seq<Cycle>, b: nat, first: nat, until: nat)
    requires IsRun(plan, start, log) && Measurable(plan, log) && first <= until <= |log| && b < |plan|
    requires Waits(log, b, first, until)
    ensures DueAfter(plan, log[..until])[b] == DueAfter(plan, log[..first])[b]
    decreases until - first
  {
    hide DueAfter;
    if first < until {
      WaitingKeepsDue(plan, start, log, b, first, until - 1);
      CycleMovesOneBlock(plan, start, log, until - 1);
    }
  }

  /** Once a block is overdue, every other block completes at most one more cycle before it runs. */
  lemma OverdueBlockWaitsForEachOtherOnce(plan: seq<PlannedBlock>, start: nat, log: seq<Cycle>, b: nat, first: nat, until: nat,
                                          m: nat, n: nat)
    requires IsRun(plan, start, log) && Measurable(plan, log) && first <= until <= |log| && b < |plan|
    requires DueAfter(plan, log[..first])[b] <= LastTime(log[..first], start) && Waits(log, b, first, until)
    requires first <= m < n < until
    ensures log[m].block != log[n].block
  {
    hide DueAfter, LastTime;
    var due := DueAfter(plan, log[..first])[b];
    WaitingKeepsDue(plan, start, log, b, first, n);
    TimeNeverFalls(plan, start, log, first, m);
    CompletesLater(plan, start, log, m);
    if log[m].block == log[n].block {
      NoBursts(plan, start, log, m, n);
      RunsEarliest(plan, start, log, n, b);
    }
  }

  lemma CompletesLater(plan: seq<PlannedBlock>, start: nat, log: seq<Cycle>, m: nat)
    requires IsRun(plan, start, log) && m < |log|
    ensures LastTime(log[..m], start) <= log[m].completed
  {
    hide LastTime, DueAfter;
    assert FollowsAt(plan, start, log, m);
  }

  lemma RunsEarliest(plan: seq<PlannedBlock>, start: nat, log: seq<Cycle>, n: nat, b: nat)
    requires IsRun(plan, start, log) && n < |log| && b < |plan|
    ensures log[n].due <= DueAfter(plan, log[..n])[b]
  {
    hide LastTime, DueAfter;
    assert FollowsAt(plan, start, log, n);
  }

  /** The blocks run in a stretch of the log, as a set. */
  function RunIn(log: seq<Cycle>, first: nat, until: nat): set<nat>
    requires first <= until <= |log|
  {
    set n | first <= n < until :: log[n].block
  }

  lemma {:induction false} DistinctCycles(log: seq<Cycle>, first: nat, until: nat)
    requires first <= until <= |log|
    requires forall m, n :: first <= m < n < until ==> log[m].block != log[n].block
    ensures |RunIn(log, first, until)| == until - first
    decreases until - first
  {
    if first == until {
      assert RunIn(log, first, until) == {};
    } else {
      DistinctCycles(log, first, until - 1);
      assert RunIn(log, first, until) == RunIn(log, first, until - 1) + {log[until - 1].block};
    }
  }

  lemma {:induction false} SmallSet(s: set<nat>, n: nat)
    requires forall x :: x in s ==> x < n
    ensures |s| <= n
  {
    if n > 0 {
      SmallSet(s - {n - 1}, n - 1);
    } else {
      assert s == {};
    }
  }

  /** An overdue block runs after at most one cycle of each other block. */
  lemma OverdueBlockRunsSoon(plan: seq<PlannedBlock>, start: nat, log: seq<Cycle>, b: nat, first: nat, until: nat)
    requires IsRun(plan, start, log) && Measurable(plan, log) && first <= until <= |log| && b < |plan|
    requires DueAfter(plan, log[..first])[b] <= LastTime(log[..first], start) && Waits(log, b, first, until)
    ensures until - first <= |plan| - 1
  {
    hide DueAfter, LastTime, IsRun, Measurable;
    forall m, n | first <= m < n < until ensures log[m].block != log[n].block {
      OverdueBlockWaitsForEachOtherOnce(plan, start, log, b, first, until, m, n);
    }
    DistinctCycles(log, first, until);
    var others := RunIn(log, first, until);
    forall x | x in others ensures x < |plan| {
      var n :| first <= n < until && log[n].block == x;
      CycleMovesOneBlock(plan, start, log, n);
    }
    SmallSet(others + {b}, |plan|);
  }
}
