# VFD Lantern: a verified model

VFD Lantern talks to motor drives over Modbus RTU. This project models its decision logic in Dafny and proves what
its operations promise:

- **Guarded writes and restores.** `WriteProtocol.dfy` is a reference protocol: which port call may follow which
  trace of port calls. `WriteCoordinator.dfy` is the coordinator, with the plan store, the id counters and the restore
  permit as mutable state; every call it makes is proved to be allowed. The ports (`WritePorts.dfy`) are adversarial:
  each answer is arbitrary, so every await may see another session, another clock, another profile or a failure.
  `WriteGuarantees.dfy` says what every trace of the protocol guarantees, `WriteRefusals.dfy` says exactly when each
  refusal is justified, and `WriteRuns.dfy` drives the coordinator with any sequence of calls. `WritePolicy.dfy` tells
  the limits on values from the profile's fields, and `WriteMeaning.dfy` tells what stands behind every write, plan and
  verdict event by event.
- **Restore planning and backups.** `RestorePlanning.dfy`, `PlanHash.dfy`, `Backup.dfy`; `RestoreScope.dfy` and
  `BackupMeaning.dfy` tell which parameters are restored, skipped and captured, and why.
- **Poll planning and execution.** `PollDemand.dfy` (merging subscriptions), `PollGrouping.dfy` (blocks and their
  cost), `PollPlanner.dfy` (the budget loop), `PollPlans.dfy` (whole plans), `PollBudget.dfy` (what is asked for and
  what is given up, and why), `FaultPlan.dfy` (the second grouper) with `FrameMeaning.dfy`, `Executor.dfy` (the
  schedule and the requests), `PlannedRuns.dfy` (planner and executor together).
- **Session state machine** (`Session.dfy`, and field by field in `SessionChange.dfy`), **fault timeline**
  (`Faults.dfy`, `FaultMeaning.dfy`), **register codec and scale** (`Codec.dfy`, `Scale.dfy`, and by place value in
  `CodecMeaning.dfy`), **RTU framing and CRC** (`Wire.dfy`, `Checksum.dfy`, and byte by byte in `WireMeaning.dfy`). Framing follows sections 2.5.1.1 and 2.5.1.2 and
  the CRC section 6.2.2 of the MODBUS over Serial Line specification V1.02; the limits of 125, 123 and 1 registers are
  those of sections 6.3, 6.4, 6.6 and 6.12 of the MODBUS Application Protocol V1.1b3.

Code that changes state step by step is modelled by methods with loops and classes with fields, each proved against a
specification function or against the trace; the properties are then proved of the specification. Each specification
is in turn told from outside, from the fields and events alone and without its own vocabulary, by the files named
after it with Meaning, Policy, Scope, Change or Budget.

Four promises one might expect are false of the code; each is stated as it is:

- Refusing to begin a restore disarms writing, except when the profile or a parameter is not found or a read fails:
  those three return early (`WriteRefusals.RefusedRestoreDisarmsExactlyWhen`, with a concrete armed session in
  `WriteRefusals.MissingProfileLeavesArmed`).
- A dropped operation is announced as aborted, except when a reconnect identification arrives in the middle of it
  (`Sessions.DroppedOperationsAreAborted`, with the concrete run in `Sessions.UnannouncedDrop`).
- A scale gives raw values back only under a condition on its parameters (`Scales.ReversibleExactlyWhen`, with a
  concrete loss in `Scales.ThirdsAreLost`).
- An unscaled encoding accepts a fixed-point value with a fraction and rounds it away
  (`Codecs.EncodedValuesDecodeBack`, with a concrete loss in `Codecs.HalfIsLost`).

The profile a member works with is a validated one: its blocks are valid reads, codec width and block width agree,
and its restore order has no duplicates. Ids are proved unique below saturation of their counters, which saturate as
in the source. `dafny verify dfyconfig.toml` checks the project.

## Model

| member | source | states |
|---|---|---|
| `WriteRuns.Drive` | crates/lantern-app/src/write_coordinator.rs:375-1196 | any number of coordinator calls, in any order and with any arguments, against ports that may answer anything or fail at any point, produces only port calls the reference protocol allows, and leaves every restore permit in agreement with what was done under it |
| `WriteRuns.Obey` | crates/lantern-app/src/write_coordinator.rs:375-1196 | one such call keeps the coordinator, the trace and all permits consistent; permits are only ever added |
| `WriteRuns.UsePermit` | crates/lantern-app/src/write_coordinator.rs:914-1164 | using one permit leaves the ledgers of all others untouched |
| `WriteGuarantees.WriteAhead` | crates/lantern-app/src/write_coordinator.rs:676-711 | over any run every bus write directly follows one accepted durable preparation, with no port call between, and carries its request, session, operation, function and words |
| `WriteGuarantees.OneFinalizationPerPreparation` | crates/lantern-app/src/write_coordinator.rs:709-734 | over any run each accepted preparation gets exactly one finalization with its own token, and at most one bus write, which comes first |
| `WriteGuarantees.PreparationsDoNotOverlap` | crates/lantern-app/src/write_coordinator.rs:676-734 | a new preparation is only asked for once the previous transaction is finalized |
| `WriteGuarantees.VerifiedMeansReadBack` | crates/lantern-app/src/write_coordinator.rs:1258-1313 | Verified is recorded only if the bus accepted the write and a later read of the same block met the read-back policy for the words that were sent |
| `WriteGuarantees.PlanIdsAreSingleUse` | crates/lantern-app/src/write_coordinator.rs:547-552 | no plan id stands behind two physical writes, manual or restore, below saturation of the counter |
| `WriteGuarantees.RequestIdsIncrease` | crates/lantern-app/src/write_coordinator.rs:1441-1445 | request ids on the bus strictly increase over a whole run, reads and writes together, until the counter saturates |
| `WriteGuarantees.SingleWriteIsClosedOnce` | crates/lantern-app/src/write_coordinator.rs:642-734 | every single-write operation the session accepted is closed by exactly one finish or degradation before the coordinator is entered again |
| `WriteGuarantees.StoredPlansWereIssued` | crates/lantern-app/src/write_coordinator.rs:525-540 | every plan in the store was issued on the complete set of fresh checks of phase 1, and is stored as issued |
| `WriteGuarantees.ManualWritesAreGuarded` | crates/lantern-app/src/write_coordinator.rs:543-711 | every manual physical write belongs to an issued plan that was taken out by an exact and timely confirmation; the reads of drive state and old value lie between two equal snapshots of a ready session with the stored guard revision |
| `WriteGuarantees.RestoreWritesAreGuarded` | crates/lantern-app/src/write_coordinator.rs:914-1046 | every physical write under a permit is the next step of its plan, asked for by its index, with every guard checked afresh right before |
| `WriteGuarantees.RestoresAreSound` | crates/lantern-app/src/write_coordinator.rs:800-1164 | the ledger invariant of restores holds after every run of the protocol |
| `WriteGuarantees.LedgersAreRecorded` | crates/lantern-app/src/restore_permit.rs:31-117 | the ledger of a permit is exactly what the trace wrote and finished under it |
| `WriteGuarantees.RestoreWritesAPrefix` | crates/lantern-app/src/write_coordinator.rs:914-1133 | under one permit the words written are the targets of a prefix of the steps, in order, each once; every step before the last written one was verified; at most one durable finish is recorded, and Completed only after all steps verified |
| `WriteGuarantees.NothingAfterTheFirstFailure` | crates/lantern-app/src/write_coordinator.rs:1061-1094 | after the first outcome but Verified, after a finish and after an abort, nothing more is ever written under the permit |
| `WriteGuarantees.RestoreStartsDurably` | crates/lantern-app/src/write_coordinator.rs:800-910 | a permit is backed by a durable start of exactly its plan, preceded by the exact confirmation in time and by a fresh check of every step |
| `WritePolicies.AcceptedExactlyWhen` | crates/lantern-app/src/write_coordinator.rs:1585-1626 | the limits on a value, from the profile fields: within minimum and maximum and a whole number of steps above the minimum, a declared enum value, a mask with declared flags only, a finite float |
| `WritePolicies.TargetExactlyWhen` | crates/lantern-app/src/write_coordinator.rs:1568-1631 | the target of a manual write is exactly the codec's encoding of a request within those limits, of a parameter writable by hand, and not forbidden |
| `WritePolicies.DeclaredExactlyWhen` | crates/lantern-app/src/write_coordinator.rs:1610-1619 | a mask is accepted exactly if 64 binary digits spell it with ones at declared flags only |
| `WritePolicies.FiniteExactlyWhen` | crates/lantern-app/src/write_coordinator.rs:1605-1606 | a float is accepted exactly if its magnitude is below the pattern of infinity |
| `WritePolicies.GridExactlyWhen` | crates/lantern-app/src/write_coordinator.rs:1592-1603 | the remainder test holds exactly for a whole number of steps from the origin |
| `WriteMeanings.ManualWritesMean` | crates/lantern-app/src/write_coordinator.rs:543-711 | behind every manual physical write stand, event by event: the plan taken out by its exact and timely confirmation, one fitting session before and after, the trusted profile with a request in policy for exactly these words, a drive at rest, the old value in place, a begun session operation and a record of exactly this write; and the write goes to that parameter's registers by its own function at the slave of the checked session |
| `WriteMeanings.ManualStandsExactlyWhen` | crates/lantern-app/src/write_coordinator.rs:543-663 | the coordinator's own checks of phase 2 hold exactly if the events say all that |
| `WriteMeanings.StandingPlansAreNotRefused` | crates/lantern-app/src/write_coordinator.rs:543-663 | where they do and the session begins the write, no reason against the confirmation is justified |
| `WriteMeanings.PlansAreIssuedOn` | crates/lantern-app/src/write_coordinator.rs:381-541 | the same of every issued plan: fitting session, trusted profile, request in policy, drive at rest, seen value in place, the confirmation model the parameter calls for, before it expires |
| `WriteMeanings.IssueStandsExactlyWhen` | crates/lantern-app/src/write_coordinator.rs:381-491 | the coordinator's own checks of phase 1 hold exactly if the events say all that |
| `WriteMeanings.StandingIntentsAreNotRefused` | crates/lantern-app/src/write_coordinator.rs:381-491 | where they do, no reason against the intent is justified |
| `WriteMeanings.InPolicyRequestsAreNotRejected` | crates/lantern-app/src/write_coordinator.rs:388-441 | a request in policy, under a fitting session and a trusted profile, is rejected by policy only if the drive was not found at rest |
| `WriteMeanings.InPolicyTargetsAreUnchanged` | crates/lantern-app/src/write_coordinator.rs:598-617 | a confirmed plan has its target reported as changed exactly if its request is not in policy for the stored words any more |
| `WriteMeanings.RestoreWritesMean` | crates/lantern-app/src/write_coordinator.rs:914-1059 | the same of every physical write under a permit: it is of the next step, asked for by index, of an ordinary parameter (writable when stopped, restore policy normal, drive at rest required, a write function), between two looks at a session that grants it |
| `WriteMeanings.StepStandsExactlyWhen` | crates/lantern-app/src/write_coordinator.rs:931-1015 | the coordinator's own checks of a step hold exactly if the events say all that |
| `WriteMeanings.StandingStepsAreNotBlocked` | crates/lantern-app/src/write_coordinator.rs:931-1015 | where they do and both values decode, no guard is reported as failed |
| `WriteMeanings.RestoresStartOn` | crates/lantern-app/src/write_coordinator.rs:800-902 | the same of every durable start: exact confirmation in time, fitting and idle session, trusted profile, drive at rest, every step confirmed in turn, and a start record of exactly this plan |
| `WriteMeanings.OpeningRestoresAreNotRefused` | crates/lantern-app/src/write_coordinator.rs:805-847 | a restore that opens like this is refused by no opening guard |
| `WriteMeanings.VerdictsMean` | crates/lantern-app/src/write_coordinator.rs:1264-1313 | the verdict on a write that reached the bus: device rejected exactly for a protocol exception, outcome unknown exactly for an unknown outcome, a response timeout or an invalid response, transport lost for every other error; for an accepted write, Verified, ReadBackMismatch or TransportLost exactly by what the reads after it brought back, with the evidence that says so |
| `WriteMeanings.ReadBackMeans` | crates/lantern-app/src/write_coordinator.rs:1758-1788 | the read-back policies: equal words, words of a declared set, or the tolerance |
| `WriteMeanings.ReadsGoToTheSession` | crates/lantern-app/src/write_coordinator.rs:1337-1369 | every read goes to the slave of a session looked at right before |
| `WriteMeanings.ContextNamesThePlan` | crates/lantern-app/src/write_coordinator.rs:1686-1720 | two stored plans with the same hashed context are of the same write, made for the same session, profile and guard revision |
| `WriteCoordinators.WriteCoordinator.PrepareWrite` | crates/lantern-app/src/write_coordinator.rs:381-541 | a plan is issued under the next id, with the configured expiry, exactly when every fresh check holds, spelled out in WriteMeanings.IssueStands with the value limits of WritePolicies.Declared; otherwise the reported decision is the one the first failing check calls for, durably recorded, or AuditUnavailable after degrading; the store changes by that plan only and nothing is written |
| `WriteCoordinators.WriteCoordinator.CheckIntent` | crates/lantern-app/src/write_coordinator.rs:388-487 | issues a draft only on the full evidence of phase 1, and otherwise names the decision of the first failing check |
| `WriteCoordinators.WriteCoordinator.ResolveIntent` | crates/lantern-app/src/write_coordinator.rs:388-430 | the checks that need no bus, with the decision of the first that fails |
| `WriteCoordinators.WriteCoordinator.OpenIntent` | crates/lantern-app/src/write_coordinator.rs:388-441 | adds the fresh drive-state read |
| `WriteCoordinators.WriteCoordinator.CheckOldValue` | crates/lantern-app/src/write_coordinator.rs:463-491 | true exactly if a fresh read brought back the words and value the operator saw and the session is unchanged |
| `WriteCoordinators.WriteCoordinator.IssuePlan` | crates/lantern-app/src/write_coordinator.rs:518-540 | stores the draft with an expiry counted from a fresh clock reading |
| `WriteCoordinators.WriteCoordinator.ConfirmWrite` | crates/lantern-app/src/write_coordinator.rs:543-734 | the plan is consumed whatever happens; an unknown id is reported as such and nothing else happens; a plan is written at most once, exactly if the outcome is an executed one, and that outcome is the finalized one; what a write rests on is spelled out in WriteMeanings.ManualStands, with a request still in policy for exactly the words sent; otherwise the reported decision is the one the first failing guard calls for, durably recorded, or AuditUnavailable after degrading |
| `WriteCoordinators.WriteCoordinator.AuthorizePlan` | crates/lantern-app/src/write_coordinator.rs:554-617 | expiry, cancellation, confirmation, session, trust and target in this order; two-sided for each |
| `WriteCoordinators.WriteCoordinator.ResolvePlan` | crates/lantern-app/src/write_coordinator.rs:581-617 | the plan still resolves to the same words in the trusted active profile, or the reason why not |
| `WriteCoordinators.WriteCoordinator.FinalReads` | crates/lantern-app/src/write_coordinator.rs:619-663 | the last reads and the second snapshot agree with the plan, or which of them does not |
| `WriteCoordinators.WriteCoordinator.RecheckPlan` | crates/lantern-app/src/write_coordinator.rs:554-663 | all guards of phase 2; success is complete evidence, refusal carries the decision of the first failing guard |
| `WriteCoordinators.WriteCoordinator.RunConfirmed` | crates/lantern-app/src/write_coordinator.rs:554-734 | the recomputed context hash always equals the stored one once the guards hold, so its own refusal branch is unreachable |
| `WriteCoordinators.WriteCoordinator.ExecutePlan` | crates/lantern-app/src/write_coordinator.rs:690-734 | write-ahead record, the one write, finalization and closing of the session operation; a refusal is the session's or the audit's |
| `WriteCoordinators.WriteCoordinator.PerformPlan` | crates/lantern-app/src/write_coordinator.rs:709-734 | the write of a recorded plan and the closing of the session operation with the finalized outcome |
| `WriteCoordinators.WriteCoordinator.PersistDecision` | crates/lantern-app/src/write_coordinator.rs:1409-1422 | the decision is reported as made only if it was durably recorded; otherwise the session is degraded and AuditUnavailable is reported |
| `WriteCoordinators.WriteCoordinator.RecordPlan` | crates/lantern-app/src/write_coordinator.rs:652-707 | a rechecked plan is recorded under exactly its own values, which entitles to exactly its write |
| `WriteCoordinators.WriteCoordinator.PrepareManual` | crates/lantern-app/src/write_coordinator.rs:676-707 | an accepted preparation, or a degraded session and a closed operation |
| `WriteCoordinators.WriteCoordinator.ExecuteOnce` | crates/lantern-app/src/write_coordinator.rs:1198-1313 | at most one bus write, the one its authority can mint, then a verdict that the read-backs justify; nothing is sent when a kernel guard fails |
| `WriteCoordinators.WriteCoordinator.ReadBack` | crates/lantern-app/src/write_coordinator.rs:1264-1313 | at most the configured number of reads; Verified as soon as one meets the policy, else mismatch with the last words read, else transport lost |
| `WriteCoordinators.WriteCoordinator.FinalizeWrite` | crates/lantern-app/src/write_coordinator.rs:718-733 | the verdict is reported as finalized, or as AuditDegraded when finalization is not durable |
| `WriteCoordinators.WriteCoordinator.WriteAndFinalize` | crates/lantern-app/src/write_coordinator.rs:709-733 | one write under an accepted preparation and its finalization |
| `WriteCoordinators.WriteCoordinator.ReadDriveState` | crates/lantern-app/src/write_coordinator.rs:1315-1335 | Stopped exactly if a fresh read of the declared source classifies as stopped |
| `WriteCoordinators.WriteCoordinator.ReadParameterRaw` | crates/lantern-app/src/write_coordinator.rs:1337-1369 | one read of exactly the parameter's block under a new request id |
| `WriteCoordinators.WriteCoordinator.AllocatePlanId` | crates/lantern-app/src/write_coordinator.rs:1429-1433 | the id was never written under, below saturation |
| `WriteCoordinators.PlanSendable` | crates/lantern-app/src/write_coordinator.rs:1198-1245 | the kernel's own guards never refuse a manual plan whose guards were rechecked |
| `WriteCoordinators.StepSendable` | crates/lantern-app/src/write_coordinator.rs:1198-1245 | the kernel's own guards never refuse a checked restore step |
| `WriteCoordinators.WriteCoordinator.PrepareRestorePlan` | crates/lantern-app/src/write_coordinator.rs:738-797 | a plan comes out only for a ready idle session, a trusted profile, a stopped drive, two plannable backups and old values all read back afresh; every error is the one its first failing check calls for; no permit is handed out and nothing is written |
| `WriteCoordinators.WriteCoordinator.OpenPlanning` | crates/lantern-app/src/write_coordinator.rs:743-768 | the checks before the backups are looked at, two-sided |
| `WriteCoordinators.WriteCoordinator.BuildAndConfirm` | crates/lantern-app/src/write_coordinator.rs:769-796 | the plan for the two backups with every old value confirmed by a fresh read, or why not |
| `WriteCoordinators.WriteCoordinator.ConfirmOldValues` | crates/lantern-app/src/write_coordinator.rs:782-793 | every step's old value was read afresh, or the first that could not be confirmed and its error |
| `WriteCoordinators.WriteCoordinator.BeginRestore` | crates/lantern-app/src/write_coordinator.rs:800-910 | a permit is handed out only for a durable start the session granted; a refusal is justified by the first failing check, and ends disarmed exactly unless it was one of the three early returns |
| `WriteCoordinators.WriteCoordinator.OpenRestore` | crates/lantern-app/src/write_coordinator.rs:805-847 | expiry, confirmation, session, profile and drive state, two-sided, with what is disarmed |
| `WriteCoordinators.WriteCoordinator.ResolveRestore` | crates/lantern-app/src/write_coordinator.rs:826-847 | the trusted profile and a stopped drive, or why not |
| `WriteCoordinators.WriteCoordinator.CheckOneStep` | crates/lantern-app/src/write_coordinator.rs:848-876 | one step against policy and a fresh read, or why not |
| `WriteCoordinators.WriteCoordinator.CheckSteps` | crates/lantern-app/src/write_coordinator.rs:848-876 | all steps were confirmed in order, or a confirmed prefix and the error of the next |
| `WriteCoordinators.WriteCoordinator.StartOperation` | crates/lantern-app/src/write_coordinator.rs:881-902 | the durable start of exactly this plan, or a degraded session |
| `WriteCoordinators.WriteCoordinator.RequestGrant` | crates/lantern-app/src/write_coordinator.rs:890-908 | the session's grant; without it the durable operation is finished as aborted and the session degraded |
| `WriteCoordinators.WriteCoordinator.GrantRestore` | crates/lantern-app/src/write_coordinator.rs:848-908 | everything between opening and permit, with the reason when it is refused |
| `WriteCoordinators.WriteCoordinator.ExecuteRestoreStep` | crates/lantern-app/src/write_coordinator.rs:914-1095 | only the next step of an active permit has any effect; what it adds to the ledger is the step's target and its outcome; anything but Verified ends the permit, finishes the operation as aborted and disarms; a refusal without a write is justified by a failing guard |
| `WriteCoordinators.WriteCoordinator.OpenStep` | crates/lantern-app/src/write_coordinator.rs:931-974 | session, grant, trust and policy of a step, two-sided |
| `WriteCoordinators.WriteCoordinator.StillGranted` | crates/lantern-app/src/write_coordinator.rs:933-941 | the session is the plan's and still grants this step, two-sided |
| `WriteCoordinators.WriteCoordinator.FinalStepReads` | crates/lantern-app/src/write_coordinator.rs:975-1015 | drive state, old value, both decodings and the second grant check, two-sided |
| `WriteCoordinators.WriteCoordinator.CheckStep` | crates/lantern-app/src/write_coordinator.rs:931-1015 | all guards of a step: complete evidence, or a failing guard |
| `WriteCoordinators.WriteCoordinator.PrepareStep` | crates/lantern-app/src/write_coordinator.rs:1041-1059 | the write-ahead record of a step, or an operation given up, disarmed and degraded |
| `WriteCoordinators.WriteCoordinator.RecordStep` | crates/lantern-app/src/write_coordinator.rs:1017-1059 | the record carries exactly the step's values and context hash under a fresh plan id, which entitles to exactly its write |
| `WriteCoordinators.WriteCoordinator.SettleStep` | crates/lantern-app/src/write_coordinator.rs:1078-1094 | a verified step is advanced in permit and session; otherwise the operation is given up, with the audit event order stated |
| `WriteCoordinators.WriteCoordinator.AbortInPlace` | crates/lantern-app/src/write_coordinator.rs:1166-1196 | the operation is finished as aborted after its last verified step, the session is told, writing is disarmed, and degraded when the finish is not durable |
| `WriteCoordinators.WriteCoordinator.FinishRestore` | crates/lantern-app/src/write_coordinator.rs:1097-1133 | no error exactly when all steps verified, the session still held the restore and both ends took place; otherwise the session is degraded and the error says which failed |
| `WriteCoordinators.WriteCoordinator.EndOperation` | crates/lantern-app/src/write_coordinator.rs:1111-1132 | the audit end and then the session end, or which of them failed |
| `WriteCoordinators.WriteCoordinator.AbortRestore` | crates/lantern-app/src/write_coordinator.rs:1135-1164 | the operation is finished as aborted and writing disarmed; no error exactly when both ends took place |
| `RestorePermits.RestorePermit.RecordVerifiedStep` | crates/lantern-app/src/restore_permit.rs:73-81 | adds the next step's result and moves on by one |
| `RestorePermits.RestorePermit.RecordTerminalStep` | crates/lantern-app/src/restore_permit.rs:83-95 | adds a result and deactivates |
| `RestorePermits.RestorePermit.TakeToken` | crates/lantern-app/src/restore_permit.rs:101-117 | the token can be taken once |
| `WriteRefusals.OneReason` | crates/lantern-app/src/write_coordinator.rs:554-650 | one trace never justifies two different reasons against a confirmation |
| `WriteRefusals.WrittenPlansAreNotRefused` | crates/lantern-app/src/write_coordinator.rs:554-650 | where the guards held and the session began the write, no reason against it is justified |
| `WriteRefusals.IssuedPlansAreNotRefused` | crates/lantern-app/src/write_coordinator.rs:388-491 | no reason against an intent is justified by the trace its plan was issued on |
| `WriteRefusals.CheckedStepsAreNotBlocked` | crates/lantern-app/src/write_coordinator.rs:931-1015 | a step whose guards all held is never reported as blocked by one |
| `WriteRefusals.OpenedRestoresAreNotRefused` | crates/lantern-app/src/write_coordinator.rs:805-847 | an opened restore is never reported as refused by an opening guard |
| `WriteRefusals.RefusedRestoreDisarmsExactlyWhen` | crates/lantern-app/src/write_coordinator.rs:800-910 | a restore that does not start ends disarmed, or degraded and disarmed, exactly unless the profile was not found, or after a confirmed prefix a step's parameter is missing from the profile or its read failed |
| `WriteRefusals.MissingProfileLeavesArmed` | crates/lantern-app/src/write_coordinator.rs:819-822 | a concrete allowed trace, for any plan, on which an armed session is refused a restore and nothing disarms it |
| `RestorePlanning.BuildRestorePlan` | crates/lantern-app/src/restore.rs:168-293 | a plan, or no eligible changes, exactly for plannable inputs; otherwise the error of the first failing check; steps, skips with their order and reasons, hash over the steps, and the challenge that ties hash and number of steps are those of the diff; which parameters and inputs these are is told from the profile by RestoreScopes.StepsRestoreExactly, SkipsAreJustified and PlannableExactlyWhen |
| `RestorePlanning.SkipOutsideOrder` | crates/lantern-app/src/restore.rs:265-273 | the loop appends one skip for each parameter that differs and is not in the restore order, in its order |
| `RestorePlanning.OutsideIdsAreOrdered` | crates/lantern-app/src/restore.rs:265-273 | those skips cover exactly the parameters of the diff outside the restore order, each once, in text order |
| `RestorePlanning.ValidateBackupValues` | crates/lantern-app/src/restore.rs:295-322 | accepts exactly the backups all of whose values agree with the profile, and else names one that does not |
| `RestorePlanning.Precheck` | crates/lantern-app/src/restore.rs:175-225 | no refusal exactly for plannable inputs |
| `RestorePlanning.PlanPartitionsIds` | crates/lantern-app/src/restore.rs:226-293 | every id of either backup and of the restore order appears exactly once, as a step or as a skip |
| `RestorePlanning.StepsAreOrderedChanges` | crates/lantern-app/src/restore.rs:228-262 | steps follow the restore order, are numbered without gaps, and each replaces the current words by different, allowed words of the source backup |
| `RestorePlanning.ReplanningResumes` | crates/lantern-app/src/restore.rs:168-293 | replanning after any number of applied steps gives exactly the remaining steps, and none after the last |
| `RestorePlanning.SelectedMeans` | crates/lantern-app/src/backup.rs:257-311 | for consistent backups being a step depends on the raw words and the eligibility only |
| `RestoreScopes.StepsRestoreExactly` | crates/lantern-app/src/restore.rs:202-263 | a plan has a step exactly for each parameter of the restore order that is writable when stopped, of restore policy normal, to be written at rest, with a write function, and whose words differ; and the step replaces the one by the other |
| `RestoreScopes.SkipsAreJustified` | crates/lantern-app/src/restore.rs:211-273 | every skip gives the one reason that applies, told from access, policy, drive state, write function and the two backups |
| `RestoreScopes.OneSkipReason` | crates/lantern-app/src/restore.rs:211-273 | no two reasons apply to one parameter |
| `RestoreScopes.EligibleExactlyWhen` | crates/lantern-app/src/backup.rs:229-253 | which parameters may be restored, from their fields |
| `RestoreScopes.IneligibleExactlyWhen` | crates/lantern-app/src/backup.rs:229-253 | why each other one may not, from its fields, access before policy before drive state before function |
| `RestoreScopes.PlannableExactlyWhen` | crates/lantern-app/src/restore.rs:175-200 | a restore can be planned exactly between two complete and reliable backups of the session's own device under its own profile |
| `RestoreScopes.ReliableExactlyWhen` | crates/lantern-app/src/restore.rs:295-322 | a backup is consistent exactly if every value is of a known parameter, good, under its code, quantity and unit, decodes to what is stored and is not forbidden |
| `RestoreScopes.PlansNameTheirInputs` | crates/lantern-app/src/restore.rs:275-292 | a plan carries its operation, expiry, backups, session, device and profile; its hash is over its steps, and the challenge names the hash and, in decimal, how many there are |
| `PlanHash.OrderedPlanHash` | crates/lantern-app/src/restore.rs:324-348 | the incremental hashing digests exactly the byte encoding of the step list |
| `PlanHash.PreImageInjective` | crates/lantern-app/src/restore.rs:324-348 | different step lists never share a pre-image |
| `PlanHash.StepSplits` | crates/lantern-app/src/restore.rs:327-348 | an encoded step can be read back off the front of any byte string |
| `PlanHash.StepLayout` | crates/lantern-app/src/restore.rs:324-348 | the layout of an encoded step: index, id, old and new words, with lengths of eight bytes, the most significant first |
| `Backups.BackupCoordinator.Capture` | crates/lantern-app/src/backup.rs:81-193 | each refusal exactly in its case; otherwise one read per selected parameter in id order under new request ids, stopped only by a changed session, and a backup that is exactly what those readings amount to |
| `Backups.BackupCoordinator.ReadAll` | crates/lantern-app/src/backup.rs:110-157 | the values and errors of the loop are those of its readings |
| `Backups.CompleteExactlyWhen` | crates/lantern-app/src/backup.rs:159-171 | a backup is complete exactly if every reading succeeded under one unchanged session, and then holds exactly the selected parameters |
| `Backups.CapturesAreConsistent` | crates/lantern-app/src/backup.rs:81-193 | restore planning can object to a captured value only for being a forbidden raw value |
| `Backups.CompleteCapturesCompare` | crates/lantern-app/src/backup.rs:257-311 | two complete captures under one profile are comparable throughout: only raw words make a difference |
| `Backups.RestoreNeededExactlyWhen` | crates/lantern-app/src/restore.rs:228-262 | a step is planned between two complete captures exactly for the eligible ordered parameters whose words differ |
| `BackupMeanings.ValuesMean` | crates/lantern-app/src/backup.rs:110-157 | a backup holds exactly the values of its good readings: words read by the profile's block and function from the device the capture began with, under an unchanged session, that decode |
| `BackupMeanings.CaptureErrorsMean` | crates/lantern-app/src/backup.rs:110-166 | its errors are exactly the reasons why the other readings are not good, and one more if the session changed at last |
| `BackupMeanings.CompletenessMeans` | crates/lantern-app/src/backup.rs:159-193 | it is complete exactly if every parameter marked for backup was read well and the session is still the same; it names profile, revision and device |
| `BackupMeanings.ReadingsMean` | crates/lantern-app/src/backup.rs:100-136 | only parameters marked for backup are read, none twice, each as the profile says, and nothing after the session changed |
| `PollDemands.FrequencyForAgeMeans` | crates/lantern-app/src/poll.rs:802-819 | the slowest frequency, not slower than requested, whose period stays within the age; none exactly if even the fast one does not |
| `PollDemands.ChooseFrequency` | crates/lantern-app/src/poll.rs:802-819 | the loop finds that frequency |
| `PollDemands.MergeMeans` | crates/lantern-app/src/poll.rs:580-640 | when subscriptions merge, the demand is as fresh as the strictest of them asks for; each refusal exactly in its case |
| `PollDemands.MergeIgnoresOrder` | crates/lantern-app/src/poll.rs:580-640 | the demand depends only on which subscriptions there are |
| `PollBudgets.TakenDemandsMean` | crates/lantern-app/src/poll.rs:580-728 | the demand of a parameter, from the set of its subscriptions: class and budget rank by the reasons, age the strictest, frequency the slowest that is as fast as the fastest asked for and within the age |
| `PollBudgets.MergedDemandMeans` | crates/lantern-app/src/poll.rs:580-640 | the same of one merge |
| `PollGrouping.CollectGroups` | crates/lantern-app/src/poll.rs:855-864 | the grouping loop computes the specified groups |
| `PollGrouping.GroupsKeepDemands` | crates/lantern-app/src/poll.rs:847-864 | grouping loses, repeats and reorders nothing |
| `PollGrouping.GroupsAreGrown` | crates/lantern-app/src/poll.rs:944-974 | every group grew one allowed member at a time |
| `PollGrouping.GroupedBlockIsValid` | crates/lantern-app/src/poll.rs:868-892 | every grouped block is one valid read of at most 125 registers that covers its members |
| `PollGrouping.GroupedReadRefines` | crates/lantern-app/src/poll.rs:976-1036 | for any register memory a slice of the grouped read is the parameter's own read |
| `PollGrouping.BridgedGapsAreAllowed` | crates/lantern-app/src/poll.rs:944-974 | every address read without being asked for lies in a gap that the member after it and all before it allow to be bridged |
| `PollGrouping.GroupsSplitOnlyWhereTheyMust` | crates/lantern-app/src/poll.rs:847-974 | neighbouring groups are apart only because of class, frequency, table, 125 registers or a gap that some member does not allow, and no member joined against one of these |
| `PollGrouping.SilenceMeans` | crates/lantern-app/src/poll.rs:1119-1126 | the silent interval: 1750 microseconds above 19200 baud, and else three and a half characters, rounded up |
| `PollGrouping.CostCoversTransaction` | crates/lantern-app/src/poll.rs:1085-1126 | the estimate covers the characters on the wire and all other parts by exact ceiling arithmetic, and exceeds the characters by less than a microsecond |
| `PollGrouping.PpmIsSound` | crates/lantern-app/src/poll.rs:1128-1138 | the reported share is never below the true one and above it by less than one part |
| `PollPlanning.BuildBlocks` | crates/lantern-app/src/poll.rs:841-927 | valid demands never make an invalid block; drafts and total are the specified ones |
| `PollPlanning.LowestMeans` | crates/lantern-app/src/poll.rs:746-790 | the demand chosen for degradation is the least one of the priority order |
| `PollPlanning.RelaxShrinks` | crates/lantern-app/src/poll.rs:746-782 | every turn of the budget loop lowers the number of remaining slower steps, so the loop ends |
| `PollPlanning.RelaxKeepsFair` | crates/lantern-app/src/poll.rs:746-782 | every turn keeps the priority closure |
| `PollPlanning.SettlingIsFair` | crates/lantern-app/src/poll.rs:730-782 | the loop ends within the budget and priority-closed |
| `PollPlanning.TotalIsExact` | crates/lantern-app/src/poll.rs:866-926 | the saturating total is the exact sum, capped |
| `PollPlanning.IntakePartitions` | crates/lantern-app/src/poll.rs:691-728 | every requested id ends in exactly one demand or one rejection |
| `PollPlans.BuildPlan` | crates/lantern-app/src/poll.rs:674-782 | the planner never fails on valid input and its loops compute the specified plan; what is given up for the budget, and when, is told by PollBudgets.EverySacrificeIsForced and NothingIsGivenUpWithinBudget without the loop's own test |
| `PollPlans.FinalizeBlocks` | crates/lantern-app/src/poll.rs:976-1066 | blocks are ordered, numbered and sliced as specified |
| `PollPlans.FirstDueIsSpread` | crates/lantern-app/src/poll.rs:991-1074 | the k-th of n blocks of one period starts k/n of the period after now |
| `PollPlans.SlicesAreMembers` | crates/lantern-app/src/poll.rs:1003-1037 | the slices of a block are its members, ordered by offset |
| `PollPlans.PlanIgnoresSubscriptionOrder` | crates/lantern-app/src/poll.rs:674-782 | equal plans for any order and repetition of the same subscriptions |
| `PollPlans.EveryRequestIsAnsweredOnce` | crates/lantern-app/src/poll.rs:674-782 | every subscribed id ends in exactly one slice or exactly one rejection |
| `PollPlans.PlannedSlicesAreFresh` | crates/lantern-app/src/poll.rs:691-781 | the period of a planned block, and the age its requests carry, are within the age of every cyclic subscription it serves, through upgrades and degradations |
| `PollPlans.PlannedReadsRefine` | crates/lantern-app/src/poll.rs:976-1036 | every planned block is a valid read and every slice of it is the parameter's own read |
| `PollPlans.PlannedBlocksAreCyclicReads` | crates/lantern-app/src/poll.rs:976-1066 | every planned block is of a periodic class, a valid read, and has a positive period |
| `PollPlans.BudgetTakesTheLeastImportant` | crates/lantern-app/src/poll.rs:746-800 | every demand dropped for the budget is below every kept one, and of the kept ones only the least important can be degraded |
| `PollPlans.BudgetIsSound` | crates/lantern-app/src/poll.rs:730-782 | reported utilization is within budget, is the exact sum of the blocks, and bounds the true rational share of bus time |
| `PollBudgets.EverySacrificeIsForced` | crates/lantern-app/src/poll.rs:730-782 | from intake to plan leads one chain of demand sets, each link slowing the least important demand by one class if its age allows and dropping it otherwise, every set but the last over the budget; the plan's degradations and budget rejections are exactly those links |
| `PollBudgets.NothingIsGivenUpWithinBudget` | crates/lantern-app/src/poll.rs:730-744 | a plan degrades or refuses something for the budget exactly if the demands taken in exceed it |
| `PollBudgets.RejectionsAreJustified` | crates/lantern-app/src/poll.rs:691-782 | every rejection names exactly the subscribers and the reason that applies |
| `PollBudgets.BelowMeans` | crates/lantern-app/src/poll.rs:784-800 | the priority order: request class, then budget rank, then id |
| `PollBudgets.PlannedSlicesMean` | crates/lantern-app/src/poll.rs:976-1037 | every slice carries what its subscribers asked for, of the class their reasons call for, in a block at the frequency that remained |
| `PollBudgets.BlocksAreOrdered` | crates/lantern-app/src/poll.rs:976-990 | blocks are numbered by period, class, table and start |
| `PollBudgets.PlannedCostMeans` | crates/lantern-app/src/poll.rs:1085-1126 | what a planned block is charged: characters of request and response, turnaround, frame delay and two silences |
| `PollBudgets.PlannedBlocksAreSpread` | crates/lantern-app/src/poll.rs:991-1074 | the k-th of n blocks of one period is first due k/n of it after now |
| `PollPlans.KeptDemandMeans` | crates/lantern-app/src/poll.rs:691-781 | a kept demand reads its parameter's block within the age of all its subscriptions |
| `Executor.PollExecutor.RunCycle` | crates/lantern-app/src/poll.rs:1332-1457 | each pass runs the earliest block under the next request id; it is skipped exactly at or after its deadline, and otherwise the bus is read once with exactly its request, unless it makes none; the result says which, is delivered or counted as dropped, and all four counters move accordingly |
| `Executor.PollExecutor.Attempt` | crates/lantern-app/src/poll.rs:1375-1441 | one bus read exactly for a block that makes a request, with the class, deadline, slave, session and table of that block; started and completed counted as in the source |
| `Executor.PollExecutor.Publish` | crates/lantern-app/src/poll.rs:1459-1468 | a result is delivered, or dropped and counted |
| `Executor.RequestableExactlyWhen` | crates/lantern-app/src/poll.rs:1375-1441 | a block makes a request exactly if its class is cyclic and it has at most 125 registers |
| `Executor.AdvanceMeans` | crates/lantern-app/src/poll.rs:1470-1482 | the next due time is the first grid point after now, within one period |
| `Executor.CycleMovesOneBlock` | crates/lantern-app/src/poll.rs:1332-1457 | a cycle moves its own block to within one period of its completion and no other block |
| `Executor.SkipsTheStale` | crates/lantern-app/src/poll.rs:1370-1379 | in any run a cycle is skipped exactly if it starts at its deadline or later |
| `Executor.DueTimesStayOnGrid` | crates/lantern-app/src/poll.rs:1470-1482 | every due time a block ever has is its first one plus a multiple of its period |
| `Executor.NoBursts` | crates/lantern-app/src/poll.rs:1470-1482 | two cycles of one block never share a due time, and the later is due only after the earlier completed |
| `Executor.OverdueBlockWaitsForEachOtherOnce` | crates/lantern-app/src/poll.rs:1305-1315 | while a block is overdue no other block completes two cycles |
| `Executor.OverdueBlockRunsSoon` | crates/lantern-app/src/poll.rs:1305-1457 | an overdue block of n runs after at most n - 1 other cycles |
| `PlannedRuns.PlannedBlocksAreRequestable` | crates/lantern-app/src/poll.rs:1290-1437 | a planned block always makes a request, so the two error results of the executor are never produced for it; and the executor runs each block at the due time, period, age and class of the plan |
| `PlannedRuns.PlannedRunsAreMeasurable` | crates/lantern-app/src/poll.rs:1290-1482 | every plan of the planner meets the premise of the scheduling results exactly when the clock of the run stays in range |
| `PlannedRuns.SubscriptionsStayFresh` | crates/lantern-app/src/poll.rs:674-1482 | planner and executor together: after every cycle of its block a subscribed parameter is due again within the age of each of its cyclic subscriptions, and a read that is not skipped starts within that age of its due time |
| `FaultPlans.BuildFaultFreezeFrame` | crates/lantern-app/src/fault_plan.rs:51-154 | each refusal exactly in its case, naming the first unknown parameter; otherwise the specified blocks |
| `FaultPlans.GroupersAgree` | crates/lantern-app/src/fault_plan.rs:77-194 | on demands of one class and frequency the two separately written groupers make the same groups |
| `FaultPlans.FrameReadsRefine` | crates/lantern-app/src/fault_plan.rs:97-154 | every freeze-frame block is a valid read of at most 125 registers and every slice is the parameter's own read |
| `FaultPlans.FrameGroupsAreReadable` | crates/lantern-app/src/fault_plan.rs:77-115 | every freeze-frame group is a group the cyclic planner would accept |
| `FrameMeanings.FrameAnswersEachOnce` | crates/lantern-app/src/fault_plan.rs:61-154 | every parameter asked for, however often, is one slice of one block, and nothing else is |
| `FrameMeanings.FrameBlocksMean` | crates/lantern-app/src/fault_plan.rs:97-154 | a block is read by the function of its table from its first slice to its last; a register in between that no slice covers lies in a gap that the parameter after it and all before it allow |
| `FrameMeanings.FrameSplitsOnlyWhereItMust` | crates/lantern-app/src/fault_plan.rs:84-94 | neighbouring reads are apart only because of the table, 125 registers or a gap that is not allowed, and no parameter joined against one of these |
| `Sessions.SessionStateMachine.Step` | crates/lantern-app/src/session.rs:257-262 | one input moves the machine as the reduction says and keeps every invariant; what the reduction changes, field by field and effect by effect, is told in SessionChanges |
| `Sessions.StepStaysSane` | crates/lantern-app/src/session.rs:264-586 | ProcessDisabled exactly when process writes are off; armed or arming needs a healthy connection; so does a running operation |
| `Sessions.EveryRunIsSane` | crates/lantern-app/src/session.rs:264-586 | the same over every input sequence |
| `Sessions.SessionKeepsIdentity` | crates/lantern-app/src/session.rs:320-416 | session id and verified identity are constant over a stretch of active states, through losses and reconnects |
| `Sessions.StartsAreArmed` | crates/lantern-app/src/session.rs:417-541 | every operation start is preceded, since the last loss, reconnect or disarm, by an arming request and a timely confirmation of the same challenge |
| `Sessions.ArmedSince` | crates/lantern-app/src/session.rs:417-452 | an armed session was confirmed in time and has been armed ever since |
| `Sessions.DegradedNeverStarts` | crates/lantern-app/src/session.rs:470-566 | after audit degradation no operation starts until a new active session |
| `Sessions.DroppedOperationsAreAborted` | crates/lantern-app/src/session.rs:264-586 | an abort is announced exactly when an operation is dropped, except on a reconnect identification in the middle of it, and on shutdown |
| `Sessions.UnannouncedDrop` | crates/lantern-app/src/session.rs:386-416 | a concrete run in which that exception drops a write without an announcement |
| `Sessions.EffectsAreOrdered` | crates/lantern-app/src/session.rs:264-677 | in every transition the effects come in one fixed order, each at most once: abort before planner stop before port close before reconnect |
| `Sessions.PlannerStopsWithTheSession` | crates/lantern-app/src/session.rs:264-616 | the planner is stopped exactly when an active session ends or comes back as another device |
| `Sessions.ArmedAfterWrite` | crates/lantern-app/src/session.rs:483-511 | after a write the session stays armed exactly when the device state is known and the audit is durable, and is degraded exactly when it is not durable |
| `Sessions.DelayDoublesUpToCap` | crates/lantern-app/src/session.rs:708-713 | the shift with its bound is doubling from 250 ms capped at 8 s |
| `Sessions.BackoffCountsFailures` | crates/lantern-app/src/session.rs:618-677 | after a loss and n failed reconnects the next try is n doublings away and is announced |
| `Sessions.NoEarlyReconnect` | crates/lantern-app/src/session.rs:330-372 | an active session opens the port exactly when its retry is due or asked for |
| `SessionChanges.ReconnectIsVerified` | crates/lantern-app/src/session.rs:386-416 | a reconnect brings the session back, disarmed and idle, exactly if the report matched and the verified fingerprint, profile id and profile hash are the session's; otherwise it is faulted as IdentityChanged, planner and port stopped |
| `SessionChanges.SessionBeginsExactlyWhen` | crates/lantern-app/src/session.rs:287-319 | a session begins exactly with a matching report about a verified device, disarmed and idle with healthy audit |
| `SessionChanges.ConnectedOnlyWhenVerified` | crates/lantern-app/src/session.rs:264-586 | over any run, whenever a session becomes connected, such a report about the same device was the input |
| `SessionChanges.ConnectivityChanges` | crates/lantern-app/src/session.rs:324-416 | the connectivity after any input, with every retry and its delay |
| `SessionChanges.AuthorizationChanges` | crates/lantern-app/src/session.rs:417-566 | the authorization after any input: armed exactly by a timely and equal confirmation, disarmed exactly for the stated reasons |
| `SessionChanges.OperationChanges` | crates/lantern-app/src/session.rs:453-566 | the running operation after any input: which starts, which steps, which ends |
| `SessionChanges.RestOfSessionChanges` | crates/lantern-app/src/session.rs:264-586 | audit health, port and identity after any input |
| `SessionChanges.LifeChanges` | crates/lantern-app/src/session.rs:264-323 | the moves between disconnected, opening, identifying, faulted and shutting down |
| `SessionChanges.EffectsExactlyWhen` | crates/lantern-app/src/session.rs:264-677 | when each effect is asked for |
| `Faults.FaultTracker.Observe` | crates/lantern-app/src/faults.rs:118-210 | only good samples of the source in this session count; a moved raw value is recorded as exactly one event under the next id, with the transition from the last raw value, its times and what was known before it; a repeated one moves the last sighting of the active event; the told history replays the good raw stream |
| `Faults.FaultTracker.Record` | crates/lantern-app/src/faults.rs:150-208 | a move keeps the history in step with the stream and adds the event with its session, times, values before the fault and list of parameters to capture; only the newest events stay |
| `Faults.FaultTracker.Append` | crates/lantern-app/src/faults.rs:193-197 | what remains is exactly the newest events with the new one last, and the others are counted |
| `Faults.FaultTracker.CompleteFreezeFrame` | crates/lantern-app/src/faults.rs:212-240 | the capture reaches the event it was made for, and no other |
| `Faults.FaultTracker.Acknowledge` | crates/lantern-app/src/faults.rs:242-251 | marks that event and no other |
| `Faults.FaultTracker.Touch` | crates/lantern-app/src/faults.rs:275-283 | moves the last sighting of that event and changes nothing else |
| `Faults.TransitionsAreFaithful` | crates/lantern-app/src/faults.rs:303-339 | there is a transition exactly when the raw value moves, and it leads from the one to the other; the fallback arm is unreachable |
| `Faults.OnlyRepeatsAreDropped` | crates/lantern-app/src/faults.rs:118-210 | what is kept of the stream is the stream without consecutive repeats |
| `Faults.ListBitMeanings` | crates/lantern-app/src/faults.rs:360-368 | the bit loop lists the specified meanings |
| `Faults.MeaningsCoverBits` | crates/lantern-app/src/faults.rs:360-368 | the meanings of a bit set cover exactly its bits |
| `Faults.FreezeFrameParameters` | crates/lantern-app/src/faults.rs:370-414 | the collecting loop computes the specified capture |
| `Faults.CaptureIsBoundedAndDistinct` | crates/lantern-app/src/faults.rs:370-414 | the capture is bounded, without repetition, led by the source, and complete unless full |
| `Faults.RetainedIdsAreConsecutive` | crates/lantern-app/src/faults.rs:186-208 | retained ids are consecutive up to the newest, and evicted plus retained are all ids issued, below saturation |
| `Faults.ActiveIsNewest` | crates/lantern-app/src/faults.rs:118-210 | the active event is the newest one exactly while the last raw value is a fault |
| `FaultMeanings.TransitionsMean` | crates/lantern-app/src/faults.rs:303-368 | what a recorded transition tells: raised, cleared or changed for a scalar, the bits that came and went for a set, each with exactly what the profile declares for it |
| `FaultMeanings.CaptureMeans` | crates/lantern-app/src/faults.rs:370-414 | what is captured: the source first, then what the definitions of the named faults list, at most 64, none twice |
| `FaultMeanings.PreFaultMeans` | crates/lantern-app/src/faults.rs:416-440 | what is known of each captured parameter before the fault |
| `FaultMeanings.CompletenessMeans` | crates/lantern-app/src/faults.rs:225-236 | complete, unavailable and partial captures, by errors and number of good values |
| `FaultMeanings.SeenAgainMeans` | crates/lantern-app/src/faults.rs:275-283 | a repeated fault moves the last sighting of its own event only |
| `FaultMeanings.NewestMeans` | crates/lantern-app/src/faults.rs:193-197 | the last 256 events are kept |
| `Codecs.RegisterCodec.Decode` | crates/lantern-domain/src/codec.rs:114-139 | succeeds exactly on the specified words, which CodecMeanings.DecodedMeans tells by place value; a failure is a wrong width or an invalid BCD digit |
| `Codecs.RegisterCodec.Encode` | crates/lantern-domain/src/codec.rs:142-193 | succeeds exactly on the specified values, with words that CodecMeanings.EncodedMeans tells by place value; a failure tells a wrong kind from a number out of range |
| `Codecs.NewCodec` | crates/lantern-domain/src/codec.rs:54-80 | a codec is made of exactly the given parts, or refused exactly for a scale on an encoding that takes none |
| `Codecs.CheckedUnsigned` | crates/lantern-domain/src/codec.rs:257-262 | the cast gives the bits of exactly the numbers in range and refuses the others |
| `Codecs.CheckedSigned` | crates/lantern-domain/src/codec.rs:264-269 | the cast gives the two's-complement bits of exactly the numbers in range and refuses the others |
| `Codecs.WordsToBits` | crates/lantern-domain/src/codec.rs:220-236 | the loop computes the positional value, in both byte and both word orders, as CodecMeanings.BitsArePlaceValue spells it out |
| `Codecs.BitsToWords` | crates/lantern-domain/src/codec.rs:238-254 | the loop computes the words with that positional value |
| `Codecs.WordsOfRawBits` | crates/lantern-domain/src/codec.rs:220-254 | words survive the way through bits in every byte and word order |
| `Codecs.RawBitsOfWords` | crates/lantern-domain/src/codec.rs:220-254 | bits that fit survive the way through words in every byte and word order |
| `Codecs.DecodeBcd` | crates/lantern-domain/src/codec.rs:271-284 | succeeds exactly on decimal digits, and otherwise reports the most significant bad one |
| `Codecs.EncodeBcd` | crates/lantern-domain/src/codec.rs:286-300 | succeeds exactly on values of that many digits |
| `Codecs.DecodedBcdEncodes` | crates/lantern-domain/src/codec.rs:271-300 | what decodes encodes back |
| `Codecs.EncodedBcdDecodes` | crates/lantern-domain/src/codec.rs:271-300 | what encodes decodes back |
| `Codecs.IntegerRange` | crates/lantern-domain/src/codec.rs:257-269 | the checked casts accept exactly the range of the encoding, signed, unsigned and BCD |
| `Codecs.DecodedWordsEncodeBack` | fuzz/fuzz_targets/codec.rs:33-35 | for all encodings and orders, words that decode encode back to themselves exactly when the codec has no scale or its scale gives their raw integer back |
| `Codecs.AllWordsReturnExactlyWhen` | crates/lantern-domain/src/codec.rs:114-193 | all decodable words come back exactly when the scale gives back every raw integer in the range of the encoding |
| `Codecs.UnscaledCodecsReturnWords` | fuzz/fuzz_targets/codec.rs:31-35 | the property the fuzz target asserts: every unscaled codec can be made, and every word list it decodes encodes back to itself |
| `Codecs.ReversibleScalesReturnWords` | crates/lantern-domain/src/codec.rs:114-193 | so does every codec with a reversible scale |
| `Codecs.EncodedValuesDecodeBack` | crates/lantern-domain/src/codec.rs:114-193 | without a scale, what encodes decodes back exactly when it is not a fixed-point value with a fraction |
| `Codecs.HalfIsLost` | crates/lantern-domain/src/codec.rs:211-218 | a concrete loss: an unscaled 16-bit codec encodes one half, and the words decode to zero |
| `Codecs.EncodableExactlyWhen` | crates/lantern-domain/src/codec.rs:142-193 | a value can be encoded exactly when its kind suits and its number is in range |
| `CodecMeanings.DecodedMeans` | crates/lantern-domain/src/codec.rs:114-139 | decoding by place value, in every byte and word order: register i of n counts 65536 to the n-1-i or to the i, its high byte 256 or 1; integers as themselves, two's complement or decimal digits |
| `CodecMeanings.EncodedMeans` | crates/lantern-domain/src/codec.rs:142-193 | encoded registers stand, by the same place values, for the value that was encoded |
| `CodecMeanings.BitsArePlaceValue` | crates/lantern-domain/src/codec.rs:220-254 | the bits of a register group are its number by place value |
| `CodecMeanings.PackedMeans` | crates/lantern-domain/src/codec.rs:271-284 | packed digits decode exactly if all are decimal, to the number with these digits |
| `CodecMeanings.IntegersMean` | crates/lantern-domain/src/codec.rs:114-139 | the integer that bits stand for in each encoding |
| `CodecMeanings.ReferenceWords` | crates/lantern-domain/src/codec.rs:332-356 | the reference words of the repository in both extreme orders |
| `Scales.NewScale` | crates/lantern-domain/src/value.rs:83-107 | accepted exactly when the scale is valid, and then with exactly the given parameters; otherwise the error of the first failing check |
| `Scales.ReversibleExactlyWhen` | crates/lantern-domain/src/value.rs:122-143 | for all six rounding modes, every raw integer survives decoding and encoding exactly when a stated condition on the parameters holds |
| `Scales.FittingRawSurvives` | crates/lantern-domain/src/value.rs:122-143 | a raw value whose engineering value fits the decimal places survives in any mode |
| `Scales.ThirdsAreLost` | crates/lantern-domain/src/value.rs:122-143 | a concrete valid scale that loses a raw value |
| `CodecMeanings.RoundExactlyWhen` | crates/lantern-domain/src/value.rs:122-143 | the six rounding modes by their defining inequalities |
| `CodecMeanings.ScaledValueMeans` | crates/lantern-domain/src/value.rs:122-132 | a raw integer stands for raw times multiplier by divisor plus offset, rounded by the mode to the decimal places |
| `CodecMeanings.ScaledRawMeans` | crates/lantern-domain/src/value.rs:134-143 | a value encodes to value less offset times divisor by multiplier, rounded by the mode |
| `Checksums.ModbusCrc` | crates/lantern-sim/src/wire.rs:357-370 | the nested loops compute the specified shift register |
| `Checksums.OneByteChangesCrc` | crates/lantern-sim/src/wire.rs:357-370 | equal-length messages that differ in one byte have different checksums |
| `Checksums.TwoBytesChangeCrc` | crates/lantern-sim/src/wire.rs:357-370 | so do messages that differ within two adjacent bytes |
| `Checksums.SealedHasNoResidue` | crates/lantern-sim/src/wire.rs:352-370 | a frame that ends with its own checksum has checksum zero |
| `Checksums.ReferenceChecksum` | crates/lantern-sim/src/wire.rs:395-399 | the reference vector of the repository |
| `Checksums.ReferenceFrame` | crates/lantern-sim/src/wire.rs:352-355 | the same vector as a frame, the low byte of the checksum first |
| `Wire.BadCrcIsNoticed` | crates/lantern-sim/src/wire.rs:278-286 | the bad-checksum fault always leaves a non-zero residue |
| `Wire.LyingFaultsAreSealed` | crates/lantern-sim/src/wire.rs:287-343 | the faults that change content leave a frame with a right checksum |
| `Wire.WireFrame.ApplyFault` | crates/lantern-sim/src/wire.rs:272-343 | the frame becomes the specified mutation; failure exactly where the fault does not apply |
| `Wire.WireFrame.AppendCrc` | crates/lantern-sim/src/wire.rs:352-355 | appends the two checksum bytes, low byte first |
| `Wire.WireFrame.ReplaceCrc` | crates/lantern-sim/src/wire.rs:345-350 | reseals the body; a frame too short is left alone |
| `Wire.ReadResponseFrame` | crates/lantern-sim/src/wire.rs:219-253 | takes exactly one well-framed response off the stream, ends only at a stream end inside the header, and breaks exactly on a cut response |
| `Wire.ReadMore` | crates/lantern-sim/src/wire.rs:255-270 | takes exactly the bytes asked for or breaks |
| `Wire.SplitResponses` | crates/lantern-sim/src/wire.rs:219-270 | any concatenation of well-framed responses is split back into exactly those responses |
| `Wire.FramingIsUnique` | crates/lantern-sim/src/wire.rs:219-253 | a stream can be cut into responses in one way only |
| `Wire.FaultProxy.ForwardResponses` | crates/lantern-sim/src/wire.rs:163-217 | bytes, delays, gaps and records are exactly those of the responses taken off the stream; on a cut response everything before it was forwarded; on an inapplicable fault everything before that response, and nothing of it; on a failing write a prefix of what the last response calls for |
| `Wire.FaultProxy.ForwardOne` | crates/lantern-sim/src/wire.rs:175-215 | one response is refused exactly if its fault cannot be applied, and then nothing happens; otherwise it is recorded and emitted with its delay or gaps |
| `Wire.FaultProxy.WriteSpaced` | crates/lantern-sim/src/wire.rs:199-206 | one pause after each byte, up to the first failing write |
| `Wire.EmittedIsReceived` | crates/lantern-sim/src/wire.rs:163-217 | for any frames and schedule, the bytes the client receives are the mutated responses one after another: timing never changes content |
| `Wire.TimingKeepsTheBytes` | crates/lantern-sim/src/wire.rs:163-217 | a schedule of delays and gaps refuses no response and leaves the whole stream as it was |
| `WireMeanings.FaultsMean` | crates/lantern-sim/src/wire.rs:272-343 | what each fault changes, byte by byte: the last bit, the tail, the byte count, the function byte, the slave byte, or the words; and that everything else but the checksum stays |
| `WireMeanings.AppliesExactlyWhen` | crates/lantern-sim/src/wire.rs:272-343 | to which frames each fault applies |
| `WireMeanings.FrameLengthMeans` | crates/lantern-sim/src/wire.rs:219-253 | how long a response is by its function code |
| `WireMeanings.ActionsMean` | crates/lantern-sim/src/wire.rs:175-215 | how a response is sent: in one piece, after its own delay, or with its own gap after every byte |
| `WireMeanings.EmittedMeans` | crates/lantern-sim/src/wire.rs:163-217 | what the client gets for each response in order, by the schedule's count from one |
| `WireMeanings.RecordsMean` | crates/lantern-sim/src/wire.rs:174-195 | the log holds exactly one record for each scheduled response, in stream order, of what came in and what went out |

## Left out

- Tasks, channels, locks, serial and PTY I/O, storage, the user interface and release tooling: plumbing, or behaviour of libraries that are not part of this model.
- Cancellation: every coordinator call is taken to run to its return; a dropped future is not modelled.
- SHA-256 and the byte encoding of context hashes: digests are arbitrary functions; injectivity is proved of the plan hash's pre-image only.
- Decimal arithmetic: fixed-point values are exact rationals, so overflow and loss of precision in the decimal library are not modelled.
- The IEEE tolerance of the read-back policy and the bit classification of float formats beyond their finite test: the tolerance is an arbitrary relation.
- Profile parsing and validation: what it guarantees is a precondition.
- Audit record texts, diagnostics, abort causes, timestamps and per-outcome wording.
- Transport test authorities for writing outside the coordinator, which only tests can construct.
- The session as the coordinator's port: session answers to the coordinator are arbitrary, not those of the session state machine.
- Backup metadata that is only copied (application version, origin, adapter, times, drive state, slave id) and the texts of read errors.
- Plan replacement while the executor runs: it runs one fixed plan under a clock that never goes back.
- Overflow of durations and instants beyond the longest duration, and of the executor's counters beyond saturation.
- Block rationale, which repeats the slices, and the planner's own version counter.
- Fault export, pre-fault value texts and the error field of the fault timeline view.
- Fault raw values are sets of bit positions below 64, not machine words; the two are in one-to-one correspondence.
- The request direction of the simulator's proxy, which is copied unchanged, read errors other than a stream that ends, and the hexadecimal spelling of its records.
- Easy members: settings ranges, identifier character checks, unit tables, search text and view projections.
