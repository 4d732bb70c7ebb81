/** Whole runs of a session: commands applied one after another, each either committed by the
    store or leaving the ledger as it was. */
module LedgerRuns {
  import opened Basics
  import opened TaskNames
  import opened NativeSpawn
  import opened Records
  import opened Retention
  import opened Transitions
  import opened LedgerLaws
  import opened Validity

  /** The store's write check: strict validation, the soft limit for new tasks, the hard one. */
  ghost predicate Accepts(l: Ledger, op: Op, bytes: Ledger -> nat) {
    && ValidLedger(l)
    && (op.Prepare? ==> bytes(l) <= NEW_TASK_SOFT_LIMIT_BYTES)
    && bytes(l) <= MAX_STATE_BYTES
  }

  ghost predicate Commits(l: Ledger, op: Op, bytes: Ledger -> nat) {
    Succeeds(l, op, bytes) && Accepts(Outcome(l, op, bytes), op, bytes)
  }

  /** The stored ledger after one command. */
  ghost function Next(l: Ledger, op: Op, bytes: Ledger -> nat): Ledger {
    if Commits(l, op, bytes) then Outcome(l, op, bytes) else l
  }

  ghost predicate IsRun(ls: seq<Ledger>, ops: seq<Op>, bytes: Ledger -> nat) {
    && |ls| == |ops| + 1
    && forall i :: 0 <= i < |ops| ==> ls[i + 1] == Next(ls[i], ops[i], bytes)
  }

  lemma NextAdvances(l: Ledger, op: Op, bytes: Ledger -> nat)
    requires ValidLedger(l)
    ensures ValidLedger(Next(l, op, bytes)) && Advances(l, Next(l, op, bytes))
  {
    if Commits(l, op, bytes) {
      StepAdvances(l, op, bytes);
    } else {
      assert Touches(l, l, "");
    }
  }

  /** Every ledger of a run is well formed: in particular no two open bound records of it ever
      share a target, and no two records a reference. */
  lemma {:induction false} RunStaysValid(ls: seq<Ledger>, ops: seq<Op>, bytes: Ledger -> nat, j: nat)
    requires IsRun(ls, ops, bytes) && ValidLedger(ls[0]) && j < |ls|
    ensures ValidLedger(ls[j]) && UniqueRefs(ls[j]) && ExclusiveTargets(ls[j])
  {
    if j > 0 {
      RunStaysValid(ls, ops, bytes, j - 1);
      NextAdvances(ls[j - 1], ops[j - 1], bytes);
    }
  }

  lemma NextIsLater(l: Ledger, op: Op, bytes: Ledger -> nat, id: string)
    requires ValidLedger(l) && id in l && id in Next(l, op, bytes)
    ensures Later(l[id], Next(l, op, bytes)[id])
  {
    NextAdvances(l, op, bytes);
  }

  /** Facts along a run: while a record lives, it is always a later state of what it was, over
      any number of commands. */
  lemma {:induction false} FactsNeverChange(ls: seq<Ledger>, ops: seq<Op>, bytes: Ledger -> nat, id: string, i: nat, j: nat)
    requires IsRun(ls, ops, bytes) && ValidLedger(ls[0]) && i <= j < |ls|
    requires forall k :: i <= k <= j ==> id in ls[k]
    ensures Later(ls[i][id], ls[j][id])
  {
    if i < j {
      FactsNeverChange(ls, ops, bytes, id, i, j - 1);
      FactsStep(ls, ops, bytes, id, j);
      LaterIsTransitive(ls[i][id], ls[j - 1][id], ls[j][id]);
    }
  }

  lemma FactsStep(ls: seq<Ledger>, ops: seq<Op>, bytes: Ledger -> nat, id: string, j: nat)
    requires IsRun(ls, ops, bytes) && ValidLedger(ls[0]) && 0 < j < |ls| && id in ls[j - 1] && id in ls[j]
    ensures Later(ls[j - 1][id], ls[j][id])
  {
    RunStaysValid(ls, ops, bytes, j - 1);
    NextIsLater(ls[j - 1], ops[j - 1], bytes, id);
  }

  lemma OpenWithTarget(id: string, t: Task)
    requires Accepted(id, t) && t.target.Some? && t.phase != Closed
    ensures OwnsTarget(t)
  {
    assert ValidShape(t) by { AcceptedIsValid(id, t); }
  }

  /** A target once bound stays with its record, and a record that holds it while open keeps
      every other open record off it, at every later moment of the record's life. */
  lemma TargetIsOwnedForLife(ls: seq<Ledger>, ops: seq<Op>, bytes: Ledger -> nat, id: string, i: nat, j: nat, other: string)
    requires IsRun(ls, ops, bytes) && ValidLedger(ls[0]) && i <= j < |ls|
    requires forall k :: i <= k <= j ==> id in ls[k]
    requires ls[i][id].target.Some? && ls[j][id].phase != Closed
    requires other in ls[j] && other != id && OwnsTarget(ls[j][other])
    ensures ls[j][id].target == ls[i][id].target && OwnsTarget(ls[j][id])
    ensures ls[j][other].target != ls[i][id].target
  {
    FactsNeverChange(ls, ops, bytes, id, i, j);
    RunStaysValid(ls, ops, bytes, j);
    OpenWithTarget(id, ls[j][id]);
  }

  // ----- retention over runs ---------------------------------------------------------------

  lemma CountSubset(a: set<string>, b: set<string>)
    requires a <= b
    ensures |a| <= |b|
  {
    assert b == a + (b - a);
  }

  /** Commands that do not prune afterwards close nothing. */
  lemma OnlyPrunedClose(p: Ledger, id: string, op: Op)
    requires id in p && !op.Prepare? && !PrunesLast(op) && Revise(p, id, op).Ok?
    ensures Revise(p, id, op).value.task.phase == Closed ==> p[id].phase == Closed
  {
  }

  lemma RevisedCount(l: Ledger, op: Op, l': Ledger, id: string)
    requires RevisedAt(l, op, l', id)
    ensures PrunesLast(op) ==> |ClosedIds(l')| <= CLOSED_TASK_RETENTION
    ensures !PrunesLast(op) ==> |ClosedIds(l')| <= |ClosedIds(Before(l, op))|
  {
    var p := Before(l, op);
    var l1 := p[id := Revise(p, id, op).value.task];
    if PrunesLast(op) {
      PruneMeetsLimits(l1, NoPressure());
    } else {
      OnlyPrunedClose(p, id, op);
      assert ClosedIds(l') <= ClosedIds(p);
      CountSubset(ClosedIds(l'), ClosedIds(p));
    }
  }

  lemma RevisedRetention(l: Ledger, op: Op, l': Ledger, id: string)
    requires RevisedAt(l, op, l', id)
    requires |ClosedIds(l)| <= CLOSED_TASK_RETENTION || PrunesFirst(op) || PrunesLast(op)
    ensures |ClosedIds(l')| <= CLOSED_TASK_RETENTION
  {
    RevisedCount(l, op, l', id);
    PruneMeetsLimits(l, NoPressure());
  }

  lemma NextRetention(l: Ledger, op: Op, bytes: Ledger -> nat)
    requires |ClosedIds(l)| <= CLOSED_TASK_RETENTION && Succeeds(l, op, bytes)
    ensures |ClosedIds(Outcome(l, op, bytes))| <= CLOSED_TASK_RETENTION
  {
    if op.Prepare? {
      var (id, ref) := ChooseIdentity(l, op.request.first, op.request.second).value;
      PruneMeetsLimits(l[id := PreparedRecord(op.request, ref).value], Pressure(bytes));
    } else {
      TransitionShape(l, op, bytes);
      RevisedRetention(l, op, Outcome(l, op, bytes), Subject(l, op));
    }
  }

  ghost predicate Retained(l: Ledger) { |ClosedIds(l)| <= CLOSED_TASK_RETENTION }

  lemma NextRetains(l: Ledger, op: Op, bytes: Ledger -> nat)
    requires Retained(l)
    ensures Retained(Next(l, op, bytes))
  {
    if Succeeds(l, op, bytes) {
      NextRetention(l, op, bytes);
    }
  }

  lemma {:induction false} RunRetains(ls: seq<Ledger>, ops: seq<Op>, bytes: Ledger -> nat, j: nat)
    requires IsRun(ls, ops, bytes) && Retained(ls[0]) && j < |ls|
    ensures Retained(ls[j])
  {
    if j > 0 {
      RunRetains(ls, ops, bytes, j - 1);
      NextRetains(ls[j - 1], ops[j - 1], bytes);
    }
  }

  /** From an empty ledger, no committed ledger ever holds more than 64 closed records. */
  lemma RetentionHolds(ls: seq<Ledger>, ops: seq<Op>, bytes: Ledger -> nat, j: nat)
    requires IsRun(ls, ops, bytes) && ls[0] == map[] && j < |ls|
    ensures ValidLedger(ls[j]) && |set id | id in ls[j] && ls[j][id].phase == Closed| <= 64
  {
    assert ClosedIds(ls[0]) == {};
    RunRetains(ls, ops, bytes, j);
    RunStaysValid(ls, ops, bytes, j);
    assert ClosedIds(ls[j]) == set id | id in ls[j] && ls[j][id].phase == Closed;
  }

  // ----- repeating a command -----------------------------------------------------------------

  /** The same command, submitted again with any other time and any material answer. */
  predicate Resubmits(op: Op, again: Op) {
    match op
    case Prepare(_) => false
    case Claim(ref, toolUseId, input, _, _) => again.Claim? && again.ref == ref && again.toolUseId == toolUseId && again.input == input
    case Confirm(id, ref, target, _) => again.Confirm? && again.id == id && again.ref == ref && again.target == target
    case DispatchResult(id, ref, result, _) => again.DispatchResult? && again.id == id && again.ref == ref && again.result == result
    case Learn(id, ref, target, evidence, _) =>
      again.Learn? && again.id == id && again.ref == ref && again.target == target && again.evidence == evidence
    case Close(id, ref, reason, _) => again.Close? && again.id == id && again.ref == ref && again.reason == reason
  }

  lemma EvidenceTwice(t: Task, e: Evidence, now: int, later: int)
    requires IsEvidence(e) && ReviseEvidence(t, e, now).Ok?
    ensures var t' := ReviseEvidence(t, e, now).value.task;
            ReviseEvidence(t', e, later).Ok? ==> ReviseEvidence(t', e, later).value.task == t'
  {
  }

  lemma ConfirmTwice(t: Task, ref: string, target: string, taken: bool, now: int, takenLater: bool, later: int)
    requires ReviseConfirm(t, ref, target, taken, now).Ok?
    ensures var t' := ReviseConfirm(t, ref, target, taken, now).value.task;
            var r := ReviseConfirm(t', ref, target, takenLater, later);
            r.Ok? ==> r.value.task == t'
  {
  }

  lemma ReviseTwice(p: Ledger, id: string, op: Op, l': Ledger, again: Op)
    requires id in p && !op.Prepare? && Revise(p, id, op).Ok? && Resubmits(op, again)
    requires op.Learn? ==> IsEvidence(op.evidence)
    requires id in l' && l'[id] == Revise(p, id, op).value.task
    ensures Revise(l', id, again).Ok? ==> Revise(l', id, again).value.task == l'[id]
  {
    match op
    case Confirm(_, ref, target, now) =>
      ConfirmTwice(p[id], ref, target, TargetTaken(p, id, target), now, TargetTaken(l', id, target), again.now);
    case Learn(_, _, _, evidence, now) => EvidenceTwice(p[id], evidence, now, again.now);
    case _ =>
  }

  /** In a ledger without duplicate references, the resubmitted command finds the same record. */
  lemma SameSubject(l: Ledger, op: Op, l': Ledger, id: string, again: Op, l'': Ledger, id': string)
    requires ValidLedger(l) && RevisedAt(l, op, l', id) && UniqueRefs(l') && Prune(l', NoPressure()) == l'
    requires Resubmits(op, again) && RevisedAt(l', again, l'', id')
    ensures id' == id && id in l'
  {
    if op.Claim? {
      PruningKeeps(l, op);
      RevisionIsLater(Before(l, op), id, op);
      assert l'[id].task_ref == op.ref && l'[id'].task_ref == op.ref;
    }
  }

  lemma StoredAgain(l': Ledger, again: Op, l'': Ledger, id: string)
    requires RevisedAt(l', again, l'', id) && id in l' && Prune(l', NoPressure()) == l'
    requires Revise(l', id, again).Ok? ==> Revise(l', id, again).value.task == l'[id]
    ensures l'' == l'
  {
    assert l'[id := l'[id]] == l';
  }

  lemma RevisedTwice(l: Ledger, op: Op, l': Ledger, id: string, again: Op, l'': Ledger, id': string)
    requires ValidLedger(l) && RevisedAt(l, op, l', id) && UniqueRefs(l')
    requires Resubmits(op, again) && RevisedAt(l', again, l'', id')
    requires PrunesFirst(op) || PrunesLast(op)
    ensures l'' == l'
  {
    RevisedRetention(l, op, l', id);
    PruneIsStable(l', NoPressure());
    SameSubject(l, op, l', id, again, l'', id');
    var p := Before(l, op);
    PruneKeeps(p[id := Revise(p, id, op).value.task], NoPressure());
    ReviseTwice(p, id, op, l', again);
    StoredAgain(l', again, l'', id);
  }

  lemma RevisionReplay(l: Ledger, op: Op, l': Ledger, id: string, again: Op, bytes: Ledger -> nat)
    requires ValidLedger(l) && RevisedAt(l, op, l', id) && UniqueRefs(l') && (PrunesFirst(op) || PrunesLast(op))
    requires Resubmits(op, again) && Succeeds(l', again, bytes)
    ensures Outcome(l', again, bytes) == l'
  {
    TransitionShape(l', again, bytes);
    RevisedTwice(l, op, l', id, again, Outcome(l', again, bytes), Subject(l', again));
  }

  /** Replay: a command that was committed, submitted again at once, is refused or changes
      nothing, whatever the two times are. */
  lemma ReplayIsHarmless(l: Ledger, op: Op, again: Op, bytes: Ledger -> nat)
    requires ValidLedger(l) && Commits(l, op, bytes) && Resubmits(op, again)
    ensures Next(Next(l, op, bytes), again, bytes) == Next(l, op, bytes)
  {
    var l' := Next(l, op, bytes);
    if Succeeds(l', again, bytes) {
      if op.Learn? && IsReadOnly(op.evidence) {
        ReadOnlyOutcome(l', again, bytes);
      } else {
        TransitionShape(l, op, bytes);
        RevisionReplay(l, op, l', Subject(l, op), again, bytes);
      }
    }
  }

  lemma ReadOnlyOutcome(l: Ledger, op: Op, bytes: Ledger -> nat)
    requires op.Learn? && IsReadOnly(op.evidence) && Succeeds(l, op, bytes)
    ensures Outcome(l, op, bytes) == l
  {
  }

  // ----- the operations a record offers --------------------------------------------------------

  datatype OperationName = ConfirmDispatchOp | TerminalNotificationOp | PlatformObservationOp | CloseTaskOp

  /** `operation_inputs`: the commands whose identity fields a status view fills in. */
  function OperationInputs(t: Task): set<OperationName> {
    match t.phase
    case Prepared => {ConfirmDispatchOp}
    case Claimed => {ConfirmDispatchOp}
    case Closed => {}
    case Bound => {TerminalNotificationOp, PlatformObservationOp, CloseTaskOp}
    case _ => {CloseTaskOp}
  }

  /** Confirming is offered until a record is bound, notes on its agent while it is bound, closing
      from then on; a closed record offers nothing. */
  lemma OffersAre(t: Task)
    ensures ConfirmDispatchOp in OperationInputs(t) <==> t.phase in {Prepared, Claimed}
    ensures TerminalNotificationOp in OperationInputs(t) <==> t.phase == Bound
    ensures PlatformObservationOp in OperationInputs(t) <==> t.phase == Bound
    ensures CloseTaskOp in OperationInputs(t) <==> t.phase in {Bound, Terminal, Reconcile}
  {
  }

  /** `op` completes the offered input with well-formed fields of the caller's choice. */
  ghost predicate Completes(op: Op, name: OperationName, id: string, t: Task) {
    match name
    case ConfirmDispatchOp => op.Confirm? && op.id == id && op.ref == t.task_ref && Text(op.target, 1024)
    case TerminalNotificationOp =>
      op.Learn? && op.id == id && op.ref == t.task_ref && t.target == Some(op.target) && op.evidence.Notified? && IsEvidence(op.evidence)
    case PlatformObservationOp =>
      op.Learn? && op.id == id && op.ref == t.task_ref && t.target == Some(op.target) && op.evidence.Observed? && IsEvidence(op.evidence)
    case CloseTaskOp => op.Close? && op.id == id && op.ref == t.task_ref && Text(op.reason, 1024)
  }

  lemma OfferedRevision(l: Ledger, id: string, name: OperationName, op: Op)
    requires id in l && Accepted(id, l[id]) && name in OperationInputs(l[id]) && Completes(op, name, id, l[id])
    ensures Revise(l, id, op).Ok?
  {
    assert ValidShape(l[id]) by { AcceptedIsValid(id, l[id]); }
  }

  lemma OfferedSucceeds(l: Ledger, id: string, name: OperationName, op: Op, bytes: Ledger -> nat)
    requires id in l && Accepted(id, l[id]) && name in OperationInputs(l[id]) && Completes(op, name, id, l[id])
    requires Stamp(op) >= 0
    ensures Succeeds(l, op, bytes)
  {
    OfferedTexts(l, id);
    PruneKeeps(l, NoPressure());
    OfferedRevision(Before(l, op), id, name, op);
  }

  lemma OfferedTexts(l: Ledger, id: string)
    requires id in l && Accepted(id, l[id])
    ensures Text(id, 256) && Text(l[id].task_ref, 20) && (l[id].target.Some? ==> Text(l[id].target.value, 1024))
  {
    AcceptedIsValid(id, l[id]);
    RefIsText(l[id].task_ref);
  }

  lemma RefIsText(ref: string)
    requires IsTaskRef(ref)
    ensures Text(ref, 20)
  {
  }

  /** Every offered operation succeeds and is valid to write, however it is completed. */
  lemma OfferedOperationsSucceed(l: Ledger, id: string, name: OperationName, op: Op, bytes: Ledger -> nat)
    requires ValidLedger(l) && id in l && name in OperationInputs(l[id]) && Completes(op, name, id, l[id])
    requires Stamp(op) >= l[id].created_at
    ensures Succeeds(l, op, bytes) && ValidLedger(Outcome(l, op, bytes))
  {
    assert l[id].created_at >= 0 by { AcceptedIsValid(id, l[id]); }
    OfferedSucceeds(l, id, name, op, bytes);
    InductiveValidity(l, op, bytes);
    assert Subject(l, op) == id;
  }
}
