/** Any run of the write coordinator: its operations in any order and number, with any arguments, against
    ports that answer as they like. */
module WriteRuns {
  import opened Domain
  import RP = RestorePlanning
  import opened WriteTypes
  import opened WriteProtocol
  import opened WritePorts
  import opened WriteRefusals
  import opened RestorePermits
  import opened WriteCoordinators

  datatype Command =
    | DoPrepareWrite(intent: WriteIntent)
    | DoConfirmWrite(planId: nat, confirmation: Confirmation)
    | DoPrepareRestore(source: RP.Backup, preRestore: RP.Backup)
    | DoBeginRestore(plan: RP.ApprovedPlan, restoreConfirmation: RestoreConfirmation)
    | DoStep(permit: nat, index: nat)
    | DoFinish(permit: nat)
    | DoAbort(permit: nat)

  /** Every permit handed out agrees with its own ledger. */
  ghost predicate PermitsConsistent(permits: seq<RestorePermit>, p: Progress)
    reads permits
  {
    && (forall i :: 0 <= i < |permits| ==> permits[i].Consistent(p) && permits[i].key < |p.ledgers|)
    && (forall i, j :: 0 <= i < j < |permits| ==> permits[i].key < permits[j].key)
  }

  /** No ledger was touched. */
  ghost predicate LedgersKept(p: Progress, q: Progress) {
    p.ledgers <= q.ledgers
  }

  lemma PermitsKept(permits: seq<RestorePermit>, p: Progress, q: Progress)
    requires PermitsConsistent(permits, p)
    requires LedgersKept(p, q)
    ensures PermitsConsistent(permits, q)
  {
  }

  /** One command. A permit that was never handed out, or a store that does not know the plan, is answered
      as the coordinator answers it. */
  method Obey(coordinator: WriteCoordinator, permits: seq<RestorePermit>, command: Command) returns (after: seq<RestorePermit>)
    requires coordinator.Valid() && PermitsConsistent(permits, coordinator.ports.progress)
    modifies coordinator, coordinator.ports, permits
    ensures coordinator.Valid() && old(coordinator.ports.trace) <= coordinator.ports.trace
    ensures permits <= after && fresh(after[|permits|..])
    ensures PermitsConsistent(after, coordinator.ports.progress)
  {
    hide RestorePermit.Consistent, WriteCoordinator.Valid, IntentDeclined, Declined, Finished, PlanningRefused, BuildRefused, PlannedFor,
         PlanningOpenedAt, NotStarted, EndsDisarmed, LeftEarly;
    after := permits;
    match command
    case DoPrepareWrite(intent) =>
      var result := coordinator.PrepareWrite(intent);
      PermitsKept(permits, old(coordinator.ports.progress), coordinator.ports.progress);
    case DoConfirmWrite(planId, confirmation) =>
      var result := coordinator.ConfirmWrite(planId, confirmation);
      PermitsKept(permits, old(coordinator.ports.progress), coordinator.ports.progress);
    case DoPrepareRestore(source, preRestore) =>
      var result, diff, draft, opening := coordinator.PrepareRestorePlan(source, preRestore);
      PermitsKept(permits, old(coordinator.ports.progress), coordinator.ports.progress);
    case DoBeginRestore(plan, confirmation) =>
      var result := coordinator.BeginRestore(plan, confirmation);
      PermitsKept(permits, old(coordinator.ports.progress), coordinator.ports.progress);
      if result.RestoreStarted? {
        after := permits + [result.permit];
      }
    case DoStep(permit, _) =>
      if permit < |permits| { UsePermit(coordinator, permits, permit, command); }
    case DoFinish(permit) =>
      if permit < |permits| { UsePermit(coordinator, permits, permit, command); }
    case DoAbort(permit) =>
      if permit < |permits| { UsePermit(coordinator, permits, permit, command); }
  }

  /** Using one permit leaves all others consistent. */
  lemma OnePermitMoved(permits: seq<RestorePermit>, i: nat, p: Progress, q: Progress)
    requires i < |permits|
    requires forall j :: 0 <= j < |permits| ==> permits[j].key < |p.ledgers|
    requires forall j :: 0 <= j < |permits| && j != i ==> permits[j].Consistent(p)
    requires forall j, k :: 0 <= j < k < |permits| ==> permits[j].key < permits[k].key
    requires permits[i].Consistent(q) && |p.ledgers| == |q.ledgers|
    requires q.ledgers == p.ledgers[permits[i].key := q.ledgers[permits[i].key]]
    ensures PermitsConsistent(permits, q)
  {
  }

  method UsePermit(coordinator: WriteCoordinator, permits: seq<RestorePermit>, i: nat, command: Command)
    requires coordinator.Valid() && PermitsConsistent(permits, coordinator.ports.progress)
    requires i < |permits| && (command.DoStep? || command.DoFinish? || command.DoAbort?)
    modifies coordinator, coordinator.ports, permits[i]
    ensures coordinator.Valid() && old(coordinator.ports.trace) <= coordinator.ports.trace
    ensures PermitsConsistent(permits, coordinator.ports.progress)
  {
    hide RestorePermit.Consistent, WriteCoordinator.Valid, StepEffect, StepGuardFails, DisarmedSince, Completes, NotCompleted, Abandoned;
    var permit := permits[i];
    assert forall j :: 0 <= j < |permits| && j != i ==> permits[j] != permit;
    if command.DoStep? {
      var report := coordinator.ExecuteRestoreStep(permit, command.index);
    } else if command.DoFinish? {
      var error := coordinator.FinishRestore(permit);
    } else {
      var error := coordinator.AbortRestore(permit);
    }
    OnePermitMoved(permits, i, old(coordinator.ports.progress), coordinator.ports.progress);
  }

  /** Whatever is asked of the coordinator, in whatever order, every port call it makes is allowed by the
      protocol, and every permit keeps agreeing with what was done under it. */
  method Drive(coordinator: WriteCoordinator, commands: seq<Command>) returns (permits: seq<RestorePermit>)
    requires coordinator.Valid()
    modifies coordinator, coordinator.ports
    ensures coordinator.Valid() && Safe(coordinator.ports.trace)
    ensures old(coordinator.ports.trace) <= coordinator.ports.trace
    ensures fresh(permits) && PermitsConsistent(permits, coordinator.ports.progress)
  {
    permits := [];
    for n := 0 to |commands|
      invariant coordinator.Valid()
      invariant old(coordinator.ports.trace) <= coordinator.ports.trace
      invariant fresh(permits) && PermitsConsistent(permits, coordinator.ports.progress)
    {
      var more := Obey(coordinator, permits, commands[n]);
      assert more == permits + more[|permits|..];
      permits := more;
    }
  }
}
