/** What every trace of the write protocol guarantees, whatever the ports answered and however manual and
    restore calls were mixed. */
module WriteGuarantees {
  import opened Domain
  import opened Profiles
  import RP = RestorePlanning
  import opened WriteTypes
  import opened WriteProtocol

  predicate Prepares(e: Event) {
    e.WritePrepared? && Accepted(e.record, e.token)
  }

  predicate PreparesAt(t: Trace, n: nat) {
    n < |t| && Prepares(t[n])
  }

  /** `write` is the request that `record` announced. */
  predicate Announces(record: Preparation, write: BusWrite) {
    && write.requestId == record.requestId && write.operationId == record.operationId && write.sessionId == record.sessionId
    && write.function_ == record.writeFunction && write.function_.IsWrite()
    && write.values == record.targetRaw && |write.values| == write.block.count
  }

  /** How an allowed event moves the device-write transaction. */
  ghost predicate PhaseStep(before: Phase, n: nat, e: Event, after: Phase) {
    match before
    case NoWrite =>
      && !e.WriteFinalized? && !e.BusWritten?
      && after == if Prepares(e) then Prepared(e.record, e.token.value) else NoWrite
    case Prepared(record, token) =>
      && !Prepares(e)
      && if e.WriteFinalized? then e.finalized == token && after.NoWrite? && e.outcome != Verified
         else
           && e.BusWritten? && Announces(record, e.write)
           && after == Written(n, record, token, e.parameter, e.result, 0, None, None)
    case Written(_, record, token, _, _, _, _, _) =>
      && !Prepares(e) && !e.BusWritten?
      && if e.WriteFinalized? then
           e.finalized == token && after.NoWrite? && (e.outcome == Verified ==> before.result.WriteOk? && before.matched.Some?)
         else if e.BusReadDone? then after == AfterReadBack(before, n, e.request, e.value) && before.result.WriteOk? && before.matched.None?
         else after == before
  }

  lemma PhaseMoves(t: Trace, n: nat)
    requires Safe(t) && n < |t|
    ensures PhaseStep(After(t[..n]).phase, n, t[n], After(t[..n + 1]).phase)
  {
    hide Safe, After, ManualEvidence, StepEvidence, IssueEvidence, BeginEvidence, AfterReadBack, Advanced, StartOf;
    At(t, n);
    NextMovesPhase(After(t[..n]), t[..n], t[n]);
  }

  lemma NextMovesPhase(p: Progress, t: Trace, e: Event)
    requires Allowed(p, t, e)
    ensures PhaseStep(p.phase, |t|, e, Next(p, |t|, e).phase)
  {
    hide ManualEvidence, StepEvidence, IssueEvidence, BeginEvidence, AfterReadBack, Advanced, StartOf;
  }

  // ---------------------------------------------------------------- write-ahead

  /** Nothing comes between an accepted preparation and what it is for. */
  lemma PreparedIsLast(t: Trace)
    requires Safe(t) && After(t).phase.Prepared?
    ensures t != [] && PreparesAt(t, |t| - 1)
    ensures After(t).phase == Prepared(t[|t| - 1].record, t[|t| - 1].token.value)
  {
    hide Safe, Allowed, Next;
    if t != [] {
      PhaseMoves(t, |t| - 1);
      assert t[..|t|] == t;
    }
  }

  /** Every bus write immediately follows the accepted durable record that announced it. */
  lemma WriteAhead(t: Trace, n: nat)
    requires Safe(t) && n < |t| && t[n].BusWritten?
    ensures n > 0 && PreparesAt(t, n - 1) && Announces(t[n - 1].record, t[n].write)
    ensures After(t[..n]).phase == Prepared(t[n - 1].record, t[n - 1].token.value)
  {
    hide Safe, After, Allowed, Next;
    PhaseMoves(t, n);
    SafePrefix(t, n);
    PreparedIsLast(t[..n]);
  }

  // ---------------------------------------------------------------- one finalization per preparation

  lemma {:induction false} StaysIdle(t: Trace, lo: nat, hi: nat)
    requires Safe(t) && lo <= hi <= |t|
    requires After(t[..lo]).phase.NoWrite?
    requires forall n :: lo <= n < hi ==> !PreparesAt(t, n)
    ensures After(t[..hi]).phase.NoWrite?
    ensures forall n :: lo <= n < hi ==> !t[n].WriteFinalized?
    decreases hi - lo
  {
    hide Safe, After, Allowed, Next;
    if lo < hi {
      PhaseMoves(t, lo);
      assert !PreparesAt(t, lo);
      StaysIdle(t, lo + 1, hi);
    }
  }

  lemma {:induction false} StaysOpen(t: Trace, lo: nat, hi: nat, token: PreparedToken)
    requires Safe(t) && lo <= hi <= |t|
    requires !After(t[..lo]).phase.NoWrite? && After(t[..lo]).phase.token == token
    requires forall n :: lo <= n < hi ==> !PreparesAt(t, n) && !t[n].WriteFinalized?
    ensures !After(t[..hi]).phase.NoWrite? && After(t[..hi]).phase.token == token
    decreases hi - lo
  {
    hide Safe, After, Allowed, Next;
    if lo < hi {
      PhaseMoves(t, lo);
      assert !PreparesAt(t, lo);
      StaysOpen(t, lo + 1, hi, token);
    }
  }

  /** The first finalization in a range that has one. */
  lemma {:induction false} FirstFinalization(t: Trace, lo: nat, hi: nat) returns (first: nat)
    requires lo <= hi <= |t|
    ensures lo <= first <= hi
    ensures forall n :: lo <= n < first ==> !t[n].WriteFinalized?
    ensures first < hi ==> t[first].WriteFinalized?
    decreases hi - lo
  {
    first := lo;
    if lo < hi && !t[lo].WriteFinalized? {
      first := FirstFinalization(t, lo + 1, hi);
    }
  }

  /** Up to the next accepted preparation, or to the end of the operation, an accepted preparation gets
      exactly one finalization, with its own token, and at most one write, right after it. */
  lemma OneFinalizationPerPreparation(t: Trace, i: nat, j: nat) returns (final: nat)
    requires Safe(t) && i < j <= |t| && PreparesAt(t, i)
    requires forall n :: i < n < j ==> !PreparesAt(t, n)
    requires After(t[..j]).phase.NoWrite?
    ensures i < final < j && t[final].WriteFinalized? && t[final].finalized == t[i].token.value
    ensures forall n :: i < n < j && t[n].WriteFinalized? ==> n == final
    ensures forall n :: i < n < j && t[n].BusWritten? ==> n == i + 1 && n < final
  {
    hide Safe, After, Allowed, Next;
    PhaseMoves(t, i);
    final := FirstFinalization(t, i + 1, j);
    StaysOpen(t, i + 1, final, t[i].token.value);
    PhaseMoves(t, final);
    StaysIdle(t, final + 1, j);
    forall n | i < n < j && t[n].BusWritten? ensures n == i + 1 && n < final {
      WriteAhead(t, n);
    }
  }

  /** The next preparation is only asked for when the last one is finalized. */
  lemma PreparationsDoNotOverlap(t: Trace, j: nat)
    requires Safe(t) && j < |t| && t[j].WritePrepared?
    ensures After(t[..j]).phase.NoWrite?
  {
    hide Safe, After, Next, ManualEvidence, StepEvidence, IssueEvidence, BeginEvidence;
    At(t, j);
  }

  // ---------------------------------------------------------------- Verified means verified

  /** The write under way, as the trace shows it. */
  ghost predicate WriteUnderWay(t: Trace, phase: Phase)
    requires phase.Written?
  {
    && 0 < phase.at < |t|
    && PreparesAt(t, phase.at - 1)
    && t[phase.at - 1] == WritePrepared(phase.record, Some(phase.token))
    && t[phase.at].BusWritten? && t[phase.at].parameter == phase.parameter && t[phase.at].result == phase.result
    && t[phase.at].write.values == phase.record.targetRaw
    && (phase.matched.Some? ==> ReadBackAt(t, phase.at, phase.matched.value.index))
  }

  /** At `w` the bus accepted a write, and event `r` read the words the parameter's policy wants back. */
  ghost predicate ReadBackAt(t: Trace, w: nat, r: nat) {
    && 0 < w < r < |t|
    && t[w].BusWritten? && t[w].result.WriteOk?
    && t[r].BusReadDone? && t[r].request.block == t[w].parameter.block
    && t[r].value.Some? && t[w].parameter.ReadBackMatches(t[w].write.values, t[r].value.value)
  }

  lemma {:induction false} WrittenIsUnderWay(t: Trace)
    requires Safe(t) && After(t).phase.Written?
    ensures WriteUnderWay(t, After(t).phase)
  {
    hide Safe, Allowed, Next, Parameter.ReadBackMatches;
    if t != [] {
      var n := |t| - 1;
      PhaseMoves(t, n);
      assert t[..|t|] == t;
      SafePrefix(t, n);
      if t[n].BusWritten? {
        WriteAhead(t, n);
      } else {
        WrittenIsUnderWay(t[..n]);
        WriteAhead(t, After(t[..n]).phase.at);
      }
    }
  }

  /** A write is recorded as verified only if the bus accepted it and a later read of the same block, before
      the record was made, satisfied the read-back policy for exactly the words that were sent. */
  lemma VerifiedMeansReadBack(t: Trace, f: nat) returns (w: nat, r: nat)
    requires Safe(t) && f < |t| && t[f].WriteFinalized? && t[f].outcome == Verified
    ensures w < r < f && ReadBackAt(t, w, r)
    ensures PreparesAt(t, w - 1) && t[w - 1].token == Some(t[f].finalized)
  {
    hide Safe, After, Allowed, Next, Parameter.ReadBackMatches;
    PhaseMoves(t, f);
    SafePrefix(t, f);
    var phase := After(t[..f]).phase;
    WrittenIsUnderWay(t[..f]);
    w, r := phase.at, phase.matched.value.index;
  }

  // ---------------------------------------------------------------- plan ids and request ids

  lemma PlansMove(t: Trace, n: nat)
    requires Safe(t) && n < |t|
    ensures After(t[..n + 1]).writtenPlans ==
            After(t[..n]).writtenPlans + (if t[n].BusWritten? && n > 0 && t[n - 1].WritePrepared? then {t[n - 1].record.planId} else {})
    ensures t[n].BusWritten? && n > 0 && t[n - 1].WritePrepared? ==>
              t[n - 1].record.planId == U128_MAX || t[n - 1].record.planId !in After(t[..n]).writtenPlans
  {
    hide Safe, After, ManualEvidence, StepEvidence, IssueEvidence, BeginEvidence, AfterReadBack, Advanced, StartOf;
    At(t, n);
    if t[n].BusWritten? {
      WriteAhead(t, n);
    }
  }

  lemma {:induction false} PlansGrow(t: Trace, lo: nat, hi: nat)
    requires Safe(t) && lo <= hi <= |t|
    ensures After(t[..lo]).writtenPlans <= After(t[..hi]).writtenPlans
    decreases hi - lo
  {
    hide Safe, After, Allowed, Next;
    if lo < hi {
      PlansMove(t, lo);
      PlansGrow(t, lo + 1, hi);
    }
  }

  /** No plan id is behind two physical writes, manual or restore, as long as the counter is not saturated. */
  lemma PlanIdsAreSingleUse(t: Trace, i: nat, j: nat)
    requires Safe(t) && i < j < |t| && t[i].BusWritten? && t[j].BusWritten?
    ensures i > 0 && t[i - 1].WritePrepared? && t[j - 1].WritePrepared?
    ensures t[i - 1].record.planId != t[j - 1].record.planId || t[j - 1].record.planId == U128_MAX
  {
    hide Safe, After, Allowed, Next;
    WriteAhead(t, i);
    WriteAhead(t, j);
    PlansMove(t, i);
    PlansGrow(t, i + 1, j);
    PlansMove(t, j);
  }

  predicate OnBus(e: Event) {
    e.BusReadDone? || e.BusWritten?
  }

  function RequestOf(e: Event): nat
    requires OnBus(e)
  {
    if e.BusReadDone? then e.request.requestId else e.write.requestId
  }

  lemma RequestsMove(t: Trace, n: nat)
    requires Safe(t) && n < |t|
    ensures After(t[..n + 1]).lastRequest == if OnBus(t[n]) then RequestOf(t[n]) else After(t[..n]).lastRequest
    ensures OnBus(t[n]) ==> NewRequest(After(t[..n]), RequestOf(t[n]))
  {
    hide Safe, After, ManualEvidence, StepEvidence, IssueEvidence, BeginEvidence, AfterReadBack, Advanced, StartOf;
    At(t, n);
  }

  lemma {:induction false} RequestsGrow(t: Trace, lo: nat, hi: nat)
    requires Safe(t) && lo <= hi <= |t|
    requires After(t[..lo]).lastRequest <= U64_MAX
    ensures After(t[..lo]).lastRequest <= After(t[..hi]).lastRequest <= U64_MAX
    decreases hi - lo
  {
    hide Safe, After, Allowed, Next;
    if lo < hi {
      RequestsMove(t, lo);
      RequestsGrow(t, lo + 1, hi);
    }
  }

  /** Every request to the bus carries a larger id than all before it, until the counter saturates. */
  lemma RequestIdsIncrease(t: Trace, i: nat, j: nat)
    requires Safe(t) && i < j < |t| && OnBus(t[i]) && OnBus(t[j])
    ensures RequestOf(t[i]) < RequestOf(t[j]) || RequestOf(t[j]) == U64_MAX
  {
    hide Safe, After, Allowed, Next;
    RequestsMove(t, i);
    RequestsGrow(t, i + 1, j);
    RequestsMove(t, j);
  }

  // ---------------------------------------------------------------- session operations are closed

  predicate OpensSingle(e: Event) {
    e.SingleWriteBegun? && e.accepted
  }

  predicate ClosesSingle(e: Event) {
    e.SingleWriteFinished? || e.AuditDegradedAndDisarmed?
  }

  lemma SingleMoves(t: Trace, n: nat)
    requires Safe(t) && n < |t|
    ensures !t[n].Called? && After(t[..n]).single == Closed ==>
              After(t[..n + 1]).single == Closed && !ClosesSingle(t[n]) && !OpensSingle(t[n])
    ensures !t[n].Called? && After(t[..n]).single == Open ==>
              !OpensSingle(t[n]) && After(t[..n + 1]).single == if ClosesSingle(t[n]) then Closed else Open
    ensures OpensSingle(t[n]) ==> After(t[..n + 1]).single == Open
    ensures t[n].Called? ==> After(t[..n]).single != Open && After(t[..n + 1]).single == NotBegun
  {
    hide Safe, After, ManualEvidence, StepEvidence, IssueEvidence, BeginEvidence, AfterReadBack, Advanced, StartOf;
    At(t, n);
  }

  lemma {:induction false} ClosedStays(t: Trace, lo: nat, hi: nat)
    requires Safe(t) && lo <= hi <= |t| && After(t[..lo]).single == Closed
    requires forall n :: lo <= n < hi ==> !t[n].Called?
    ensures forall n :: lo <= n < hi ==> !ClosesSingle(t[n])
    decreases hi - lo
  {
    hide Safe, After, Allowed, Next;
    if lo < hi {
      SingleMoves(t, lo);
      ClosedStays(t, lo + 1, hi);
    }
  }

  lemma {:induction false} OpenCloses(t: Trace, lo: nat, hi: nat) returns (close: nat)
    requires Safe(t) && lo <= hi <= |t| && After(t[..lo]).single == Open && After(t[..hi]).single != Open
    requires forall n :: lo <= n < hi ==> !t[n].Called?
    ensures lo <= close < hi && ClosesSingle(t[close])
    ensures forall n :: lo <= n < hi && ClosesSingle(t[n]) ==> n == close
    decreases hi - lo
  {
    hide Safe, After, Allowed, Next;
    SingleMoves(t, lo);
    if ClosesSingle(t[lo]) {
      close := lo;
      ClosedStays(t, lo + 1, hi);
    } else {
      close := OpenCloses(t, lo + 1, hi);
    }
  }

  /** A single-write operation the session accepted is ended by exactly one finish or degradation before
      the coordinator is entered again. */
  lemma SingleWriteIsClosedOnce(t: Trace, i: nat, j: nat) returns (close: nat)
    requires Safe(t) && i < j < |t| && OpensSingle(t[i]) && t[j].Called?
    requires forall n :: i < n < j ==> !t[n].Called?
    ensures i < close < j && ClosesSingle(t[close])
    ensures forall n :: i < n < j && ClosesSingle(t[n]) ==> n == close
  {
    hide Safe, After, Allowed, Next;
    SingleMoves(t, i);
    SingleMoves(t, j);
    close := OpenCloses(t, i + 1, j);
  }

  // ---------------------------------------------------------------- restores write a prefix of their plan

  /** What holds of a permit's ledger at any moment: the words written are the targets of the first steps,
      in order; all but the last of these writes are known to be verified; there is at most one durable
      finish, and it says Completed only if every step was written and verified. */
  ghost predicate Sound(l: Ledger) {
    && |l.writes| <= |l.plan.steps| && l.writes == Targets(l.plan, |l.writes|)
    && |l.writes| - 1 <= |l.outcomes| && (forall i :: 0 <= i < |l.writes| - 1 ==> l.outcomes[i] == Verified)
    && |l.finishes| <= 1
    && (l.finishes == [Completed] ==> l.closed && |l.writes| == |l.outcomes| == |l.plan.steps| && AllVerified(l.outcomes))
    && (l.writes != [] ==> l.durable && l.granted)
    && (l.finishes != [] ==> l.durable)
  }

  /** During a restore transaction the permit is live and everything before the write at hand is verified. */
  ghost predicate InFlight(l: Ledger, phase: Phase) {
    && l.durable && l.granted && !l.closed && l.finishes == [] && AllVerified(l.outcomes)
    && |l.writes| == |l.outcomes| + (if phase.Written? then 1 else 0)
  }

  ghost predicate AllSound(p: Progress) {
    forall k :: 0 <= k < |p.ledgers| ==> Sound(p.ledgers[k])
  }

  ghost predicate LedgersSound(p: Progress) {
    && AllSound(p)
    && (!p.phase.NoWrite? && HasLedger(p) ==> InFlight(CurrentLedger(p), p.phase))
  }

  lemma SoundUpdate(p: Progress, q: Progress, l: Ledger)
    requires LedgersSound(p) && HasLedger(p) && Sound(l)
    requires q.ledgers == p.ledgers[CurrentPermit(p).value := l]
    ensures forall k :: 0 <= k < |q.ledgers| ==> Sound(q.ledgers[k])
  {
    hide Sound;
  }

  lemma WriteKeepsSound(l: Ledger, index: nat, values: RawRegisters)
    requires Sound(l) && Advanced(l, index) && index < |l.plan.steps|
    requires values == l.plan.steps[index].targetRaw
    ensures Sound(l.(writes := l.writes + [values]))
  {
    var writes := l.writes + [values];
    assert writes == Targets(l.plan, |writes|);
  }

  lemma OutcomeKeepsSound(l: Ledger, phase: Phase, final: DeviceOutcome)
    requires Sound(l) && InFlight(l, phase)
    ensures Sound(l.(outcomes := l.outcomes + [final]))
  {
  }

  lemma FinishKeepsSound(l: Ledger, outcome: OperationOutcome)
    requires Sound(l) && l.durable && l.finishes == []
    requires outcome == Completed ==> l.closed && Advanced(l.(closed := false), |l.plan.steps|)
    ensures Sound(l.(finishes := l.finishes + [outcome]))
  {
    assert (l.finishes + [outcome])[0] == outcome;
  }

  lemma FlagsKeepSound(l: Ledger, m: Ledger)
    requires Sound(l) && m == l.(durable := m.durable, granted := m.granted, closed := m.closed)
    requires (l.durable ==> m.durable) && (l.granted ==> m.granted) && (l.closed ==> m.closed)
    ensures Sound(m)
  {
  }

  lemma EnterKeepsSound(p: Progress, call: Call)
    requires LedgersSound(p)
    ensures forall k :: 0 <= k < |Enter(p, call).ledgers| ==> Sound(Enter(p, call).ledgers[k])
  {
    hide Sound;
    var q := p.(call := Some(call), single := NotBegun);
    match call
    case BeginRestore(_, approved, _) => assert Sound(Untouched(approved)) by { UntouchedSound(approved); }
    case FinishRestore(_) => if HasLedger(q) { FlagsKeepSound(CurrentLedger(q), CurrentLedger(q).(closed := true)); }
    case AbortRestore(_) => if HasLedger(q) { FlagsKeepSound(CurrentLedger(q), CurrentLedger(q).(closed := true)); }
    case _ =>
  }

  lemma UntouchedSound(plan: RP.ApprovedPlan)
    ensures Sound(Untouched(plan))
  {
  }

  lemma WriteKeepsLedgers(p: Progress, t: Trace, e: Event)
    requires LedgersSound(p) && Allowed(p, t, e) && e.BusWritten?
    ensures AllSound(Next(p, |t|, e))
  {
    hide ManualEvidence, StepEvidence, IssueEvidence, BeginEvidence, AfterReadBack, StartOf, Concludes, Sound, InFlight, Enter, Advanced;
    var q := Next(p, |t|, e);
    if HasLedger(p) {
      RestoreWriteIsNext(p, t, e);
      WriteKeepsSound(CurrentLedger(p), p.call.value.index, e.write.values);
      SoundUpdate(p, q, CurrentLedger(q));
    }
  }

  lemma OutcomeKeepsLedgers(p: Progress, t: Trace, e: Event)
    requires LedgersSound(p) && Allowed(p, t, e) && e.WriteFinalized?
    ensures AllSound(Next(p, |t|, e))
  {
    hide ManualEvidence, StepEvidence, IssueEvidence, BeginEvidence, AfterReadBack, StartOf, Concludes, Sound, InFlight, Enter, Advanced;
    var q := Next(p, |t|, e);
    if HasLedger(p) {
      OutcomeKeepsSound(CurrentLedger(p), p.phase, if e.persisted then e.outcome else AuditDegraded);
      SoundUpdate(p, q, CurrentLedger(q));
    }
  }

  lemma FlagsKeepLedgers(p: Progress, t: Trace, e: Event)
    requires LedgersSound(p) && Allowed(p, t, e) && (e.OperationFinished? || e.OperationBegun? || e.RestoreBegun?)
    ensures AllSound(Next(p, |t|, e))
  {
    hide ManualEvidence, StepEvidence, IssueEvidence, BeginEvidence, AfterReadBack, StartOf, Concludes, Sound, InFlight, Enter, Advanced;
    var q := Next(p, |t|, e);
    if e.OperationFinished? {
      FinishKeepsSound(CurrentLedger(p), e.finish.outcome);
    } else {
      FlagsKeepSound(CurrentLedger(p), CurrentLedger(q));
    }
    SoundUpdate(p, q, CurrentLedger(q));
  }

  lemma NextKeepsLedgers(p: Progress, t: Trace, e: Event)
    requires LedgersSound(p) && Allowed(p, t, e)
    ensures AllSound(Next(p, |t|, e))
  {
    hide Allowed, Sound, InFlight, Enter, Advanced;
    match e
    case BusWritten(_, _, _) => WriteKeepsLedgers(p, t, e);
    case WriteFinalized(_, _, _, _) => OutcomeKeepsLedgers(p, t, e);
    case OperationFinished(_, _, _) => FlagsKeepLedgers(p, t, e);
    case OperationBegun(_, _) => FlagsKeepLedgers(p, t, e);
    case RestoreBegun(_, _, _) => FlagsKeepLedgers(p, t, e);
    case Called(call) => EnterKeepsSound(p, call);
    case _ =>
  }

  lemma NextKeepsFlight(p: Progress, t: Trace, e: Event)
    requires LedgersSound(p) && Allowed(p, t, e)
    ensures var q := Next(p, |t|, e); !q.phase.NoWrite? && HasLedger(q) ==> InFlight(CurrentLedger(q), q.phase)
  {
    hide ManualEvidence, StepEvidence, IssueEvidence, BeginEvidence, StartOf, Concludes, Sound;
  }

  /** The invariant of restores, on every trace of the protocol. */
  lemma {:induction false} RestoresAreSound(t: Trace)
    requires Safe(t)
    ensures LedgersSound(After(t))
  {
    hide Safe, Allowed, Next, Sound;
    if t != [] {
      var n := |t| - 1;
      At(t, n);
      assert t[..|t|] == t;
      SafePrefix(t, n);
      RestoresAreSound(t[..n]);
      NextKeepsLedgers(After(t[..n]), t[..n], t[n]);
      NextKeepsFlight(After(t[..n]), t[..n], t[n]);
    }
  }

  // ---------------------------------------------------------------- ledgers are what the trace says

  /** The permit the most recently entered operation works on. */
  function PermitAt(t: Trace): Option<nat> {
    PermitOf(LastCall(t))
  }

  function LastCall(t: Trace): Option<Call> {
    if t == [] then None else if t[|t| - 1].Called? then Some(t[|t| - 1].call) else LastCall(t[..|t| - 1])
  }

  /** The words physically written on behalf of permit `k`, read off the trace. */
  function WritesUnder(t: Trace, k: nat): seq<RawRegisters> {
    if t == [] then []
    else
      var n := |t| - 1;
      WritesUnder(t[..n], k) + if t[n].BusWritten? && PermitAt(t[..n]) == Some(k) then [t[n].write.values] else []
  }

  /** The durable finishes requested on behalf of permit `k`, read off the trace. */
  function FinishesUnder(t: Trace, k: nat): seq<OperationOutcome> {
    if t == [] then []
    else
      var n := |t| - 1;
      FinishesUnder(t[..n], k) + if t[n].OperationFinished? && PermitAt(t[..n]) == Some(k) then [t[n].finish.outcome] else []
  }

  ghost predicate LedgersRecord(t: Trace) {
    && After(t).call == LastCall(t)
    && (forall k: nat :: k >= |After(t).ledgers| ==> WritesUnder(t, k) == [] && FinishesUnder(t, k) == [])
    && (forall k :: 0 <= k < |After(t).ledgers| ==>
          After(t).ledgers[k].writes == WritesUnder(t, k) && After(t).ledgers[k].finishes == FinishesUnder(t, k))
  }

  /** What event `e` adds to the ledger of permit `k`. */
  ghost predicate Recorded(p: Progress, e: Event, q: Progress, k: nat) {
    && q.call == (if e.Called? then Some(e.call) else p.call)
    && |p.ledgers| <= |q.ledgers|
    && (k >= |q.ledgers| ==>
          !(e.BusWritten? && CurrentPermit(p) == Some(k)) && !(e.OperationFinished? && CurrentPermit(p) == Some(k)))
    && (|p.ledgers| <= k < |q.ledgers| ==> q.ledgers[k].writes == [] && q.ledgers[k].finishes == [] && e.Called?)
    && (k < |p.ledgers| ==>
          && q.ledgers[k].writes == p.ledgers[k].writes + (if e.BusWritten? && CurrentPermit(p) == Some(k) then [e.write.values] else [])
          && q.ledgers[k].finishes ==
             p.ledgers[k].finishes + (if e.OperationFinished? && CurrentPermit(p) == Some(k) then [e.finish.outcome] else []))
  }

  lemma EnterRecords(p: Progress, t: Trace, e: Event, k: nat)
    requires Allowed(p, t, e) && e.Called?
    ensures Recorded(p, e, Enter(p, e.call), k)
  {
    hide ManualEvidence, StepEvidence, IssueEvidence, BeginEvidence, AfterReadBack, StartOf, Concludes, Advanced;
  }

  lemma NextRecords(p: Progress, t: Trace, e: Event, k: nat)
    requires Allowed(p, t, e)
    ensures Recorded(p, e, Next(p, |t|, e), k)
  {
    hide ManualEvidence, StepEvidence, IssueEvidence, BeginEvidence, AfterReadBack, StartOf, Concludes, Advanced, Enter;
    if e.Called? {
      EnterRecords(p, t, e, k);
    }
  }

  lemma {:induction false} LedgersAreRecorded(t: Trace)
    requires Safe(t)
    ensures LedgersRecord(t)
  {
    hide Safe, Allowed, Next;
    if t != [] {
      var n := |t| - 1;
      At(t, n);
      assert t[..|t|] == t;
      SafePrefix(t, n);
      LedgersAreRecorded(t[..n]);
      NextRecords(After(t[..n]), t[..n], t[n], 0);
      forall k: nat | k < |After(t).ledgers|
        ensures After(t).ledgers[k].writes == WritesUnder(t, k) && After(t).ledgers[k].finishes == FinishesUnder(t, k)
      {
        NextRecords(After(t[..n]), t[..n], t[n], k);
      }
      forall k: nat | k >= |After(t).ledgers| ensures WritesUnder(t, k) == [] && FinishesUnder(t, k) == [] {
        NextRecords(After(t[..n]), t[..n], t[n], k);
      }
    }
  }

  /** Under one permit the trace writes a prefix of the approved targets, each once and in order, and records
      at most one durable finish; the finish says Completed only after all of them. */
  lemma RestoreWritesAPrefix(t: Trace, k: nat)
    requires Safe(t) && k < |After(t).ledgers|
    ensures |WritesUnder(t, k)| <= |After(t).ledgers[k].plan.steps|
    ensures WritesUnder(t, k) == Targets(After(t).ledgers[k].plan, |WritesUnder(t, k)|)
    ensures |FinishesUnder(t, k)| <= 1
    ensures FinishesUnder(t, k) == [Completed] ==>
              |WritesUnder(t, k)| == |After(t).ledgers[k].plan.steps| == |After(t).ledgers[k].outcomes|
              && AllVerified(After(t).ledgers[k].outcomes)
    ensures |WritesUnder(t, k)| - 1 <= |After(t).ledgers[k].outcomes|
    ensures forall i :: 0 <= i < |WritesUnder(t, k)| - 1 ==> After(t).ledgers[k].outcomes[i] == Verified
  {
    hide Safe, After;
    RestoresAreSound(t);
    LedgersAreRecorded(t);
    var l := After(t).ledgers[k];
    assert l.writes == WritesUnder(t, k) && l.finishes == FinishesUnder(t, k);
    assert Sound(l);
  }

  /** The permit can no longer write: a step did not verify, the operation has its finish, or the permit was
      handed in. */
  ghost predicate Spent(l: Ledger) {
    !AllVerified(l.outcomes) || l.finishes != [] || l.closed
  }

  lemma SpentStays(p: Progress, t: Trace, e: Event, k: nat)
    requires Allowed(p, t, e) && k < |p.ledgers| && Spent(p.ledgers[k])
    ensures k < |Next(p, |t|, e).ledgers|
    ensures Next(p, |t|, e).ledgers[k].writes == p.ledgers[k].writes && Spent(Next(p, |t|, e).ledgers[k])
  {
    hide ManualEvidence, StepEvidence, IssueEvidence, BeginEvidence, AfterReadBack, StartOf, Concludes;
    if e.WriteFinalized? && !AllVerified(p.ledgers[k].outcomes) {
      var i :| 0 <= i < |p.ledgers[k].outcomes| && p.ledgers[k].outcomes[i] != Verified;
      assert Next(p, |t|, e).ledgers[k].outcomes[i] == p.ledgers[k].outcomes[i];
    }
  }

  /** After the first outcome other than Verified, after a finish and after an abort, nothing more is written
      under the permit. */
  lemma {:induction false} NothingAfterTheFirstFailure(t: Trace, n: nat, k: nat)
    requires Safe(t) && n <= |t|
    requires k < |After(t[..n]).ledgers| && Spent(After(t[..n]).ledgers[k])
    ensures k < |After(t).ledgers| && WritesUnder(t, k) == WritesUnder(t[..n], k)
    decreases |t| - n
  {
    hide Safe, Allowed, Next, Spent;
    assert t[..|t|] == t;
    SafePrefix(t, n);
    LedgersAreRecorded(t);
    LedgersAreRecorded(t[..n]);
    if n < |t| {
      At(t, n);
      SpentStays(After(t[..n]), t[..n], t[n], k);
      NothingAfterTheFirstFailure(t, n + 1, k);
      SafePrefix(t, n + 1);
      LedgersAreRecorded(t[..n + 1]);
    }
  }

  // ---------------------------------------------------------------- nothing is written without its evidence

  /** A restore permit writes only after its operation was durably started, which in turn needs the exact
      confirmation, in time, and every precondition of every step checked afresh. */
  lemma {:induction false} RestoreStartsDurably(t: Trace, k: nat) returns (n: nat)
    requires Safe(t) && k < |After(t).ledgers| && After(t).ledgers[k].durable
    ensures n < |t| && t[n].OperationBegun? && t[n].start == StartOf(After(t).ledgers[k].plan)
    ensures t[n].operationToken.Some? && t[n].operationToken.value.MatchesStart(t[n].start)
    ensures n >= 10 + 2 * |After(t).ledgers[k].plan.steps|
    ensures BeginEvidence(t[..n], n - 10 - 2 * |After(t).ledgers[k].plan.steps|, After(t).ledgers[k].plan)
  {
    hide Safe, Allowed, Next, BeginEvidence;
    assert t[..|t|] == t;
    n := |t| - 1;
    At(t, n);
    NextStartsDurably(After(t[..n]), t[..n], t[n], k);
    if k < |After(t[..n]).ledgers| && After(t[..n]).ledgers[k].durable {
      SafePrefix(t, n);
      var m := RestoreStartsDurably(t[..n], k);
      assert t[..n][..m] == t[..m];
      n := m;
    }
  }

  lemma NextStartsDurably(p: Progress, t: Trace, e: Event, k: nat)
    requires Allowed(p, t, e)
    requires k < |Next(p, |t|, e).ledgers| && Next(p, |t|, e).ledgers[k].durable
    ensures k < |p.ledgers| && Next(p, |t|, e).ledgers[k].plan == p.ledgers[k].plan
    ensures p.ledgers[k].durable || (
              && e.OperationBegun? && e.start == StartOf(p.ledgers[k].plan)
              && e.operationToken.Some? && e.operationToken.value.MatchesStart(e.start)
              && |t| >= 10 + 2 * |p.ledgers[k].plan.steps|
              && BeginEvidence(t, |t| - 10 - 2 * |p.ledgers[k].plan.steps|, p.ledgers[k].plan))
  {
    hide ManualEvidence, StepEvidence, IssueEvidence, BeginEvidence, AfterReadBack, StartOf, Concludes, Advanced;
  }

  lemma {:induction false} StoredPlansWereIssued(t: Trace, id: nat) returns (i: nat)
    requires Safe(t) && id in After(t).openPlans
    ensures 10 <= i < |t| && t[i] == PlanIssued(After(t).openPlans[id])
    ensures IssueEvidence(t[..i], i - 10, After(t).openPlans[id])
  {
    hide Safe, Allowed, Next, IssueEvidence;
    assert t[..|t|] == t;
    i := |t| - 1;
    At(t, i);
    NextStoresIssued(After(t[..i]), t[..i], t[i], id);
    if !(t[i].PlanIssued? && t[i].issued == After(t).openPlans[id]) {
      SafePrefix(t, i);
      var m := StoredPlansWereIssued(t[..i], id);
      assert t[..i][..m] == t[..m];
      i := m;
    }
  }

  lemma NextStoresIssued(p: Progress, t: Trace, e: Event, id: nat)
    requires Allowed(p, t, e) && id in Next(p, |t|, e).openPlans
    ensures var stored := Next(p, |t|, e).openPlans[id];
            if e.PlanIssued? && e.issued == stored then |t| >= 10 && IssueEvidence(t, |t| - 10, stored)
            else id in p.openPlans && p.openPlans[id] == stored
  {
    hide ManualEvidence, StepEvidence, IssueEvidence, BeginEvidence, AfterReadBack, StartOf, Concludes, Advanced;
  }

  /** A physical write that no restore step stands behind belongs to a stored plan that was issued on fresh
      checks, then taken out by an exact and timely confirmation, and rechecked: the reads of the drive state
      and of the old value lie between two equal snapshots of a ready session that still has the guard
      revision of the issued plan. */
  lemma ManualWritesAreGuarded(t: Trace, n: nat) returns (issue: nat)
    requires Safe(t) && n < |t| && t[n].BusWritten? && PermitAt(t[..n]).None?
    ensures n >= 14 && ManualEvidence(t[..n], n - 14, t[n].write, t[n].parameter)
    ensures 10 <= issue < n - 14 && t[n - 13].PlanConsumed? && t[issue] == PlanIssued(t[n - 13].stored)
    ensures IssueEvidence(t[..issue], issue - 10, t[n - 13].stored)
  {
    hide Safe, After, Next, IssueEvidence, StepEvidence, BeginEvidence, ManualEvidence;
    At(t, n);
    SafePrefix(t, n);
    LedgersAreRecorded(t[..n]);
    assert ManualEvidence(t[..n], n - 14, t[n].write, t[n].parameter);
    EvidenceConsumes(t[..n], n - 14, t[n].write, t[n].parameter);
    At(t, n - 13);
    var stored := t[n - 13].stored;
    SafePrefix(t, n - 13);
    issue := StoredPlansWereIssued(t[..n - 13], stored.plan.planId);
    assert t[..n - 13][..issue] == t[..issue];
    assert t[n - 14].Called?;
  }

  lemma EvidenceConsumes(t: Trace, s: nat, write: BusWrite, parameter: Parameter)
    requires s + 14 == |t| && ManualEvidence(t, s, write, parameter)
    ensures t[s].Called? && t[s + 1].PlanConsumed?
  {
  }

  lemma {:induction false} LastCallIs(t: Trace, s: nat)
    requires s < |t| && t[s].Called? && forall i :: s < i < |t| ==> !t[i].Called?
    ensures LastCall(t) == Some(t[s].call)
  {
    if s + 1 < |t| {
      LastCallIs(t[..|t| - 1], s);
    }
  }

  lemma StepEvidenceCalls(t: Trace, plan: RP.ApprovedPlan, write: BusWrite, parameter: Parameter)
    requires |t| >= 13 && StepEvidence(t, |t| - 13, plan, write, parameter)
    ensures t[|t| - 13].Called? && t[|t| - 13].call.ExecuteStep?
    ensures forall i :: |t| - 13 < i < |t| ==> !t[i].Called?
  {
    hide StepPolicyHolds, RestoreMatchesSession, RecordsStep;
  }

  lemma RestoreWriteIsNext(p: Progress, t: Trace, e: Event)
    requires Allowed(p, t, e) && e.BusWritten? && CurrentPermit(p).Some?
    ensures HasLedger(p) && p.call.value.ExecuteStep?
    ensures var l := CurrentLedger(p);
            && |t| >= 13 && StepEvidence(t, |t| - 13, l.plan, e.write, e.parameter)
            && Advanced(l, |l.writes|) && p.call.value.index == |l.writes| < |l.plan.steps| && e.write.values == l.plan.steps[|l.writes|].targetRaw
  {
    hide StepEvidence, IssueEvidence, BeginEvidence, ManualEvidence;
  }

  /** A physical write under a permit is the next step of its plan, called by its index, with every guard
      checked afresh right before. */
  lemma RestoreWritesAreGuarded(t: Trace, n: nat)
    requires Safe(t) && n < |t| && t[n].BusWritten? && PermitAt(t[..n]).Some?
    ensures n >= 13 && PermitAt(t[..n]).value < |After(t[..n]).ledgers|
    ensures var l := After(t[..n]).ledgers[PermitAt(t[..n]).value];
            && |l.writes| < |l.plan.steps| && t[n].write.values == l.plan.steps[|l.writes|].targetRaw
            && StepEvidence(t[..n], n - 13, l.plan, t[n].write, t[n].parameter)
            && t[n - 13] == Called(ExecuteStep(PermitAt(t[..n]).value, |l.writes|))
  {
    hide Safe, After, Next, Allowed, StepEvidence;
    At(t, n);
    SafePrefix(t, n);
    LedgersAreRecorded(t[..n]);
    RestoreWriteIsNext(After(t[..n]), t[..n], t[n]);
    StepEvidenceCalls(t[..n], CurrentLedger(After(t[..n])).plan, t[n].write, t[n].parameter);
    LastCallIs(t[..n], n - 13);
  }
}
