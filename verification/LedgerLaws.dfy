/** What every transition keeps: facts written once, phases that only advance, validity of the
    whole ledger, and what a repeated command does. */
module LedgerLaws {
  import opened Basics
  import opened TaskNames
  import opened NativeSpawn
  import opened Records
  import opened Retention
  import opened Transitions

  // ----- a transition is one revision between prunings -----------------------------------

  predicate PrunesFirst(op: Op) { op.Claim? || op.Confirm? }

  predicate PrunesLast(op: Op) { op.DispatchResult? || op.Close? || (op.Learn? && !IsReadOnly(op.evidence)) }

  ghost function Before(l: Ledger, op: Op): Ledger { if PrunesFirst(op) then Prune(l, NoPressure()) else l }

  ghost function After(l: Ledger, op: Op): Ledger { if PrunesLast(op) then Prune(l, NoPressure()) else l }

  /** What the command makes of the record `id`. */
  ghost function Revise(l: Ledger, id: string, op: Op): Result<Revision, Error>
    requires id in l && !op.Prepare?
  {
    match op
    case Claim(_, toolUseId, input, now, material) => ReviseClaim(l[id], toolUseId, input, now, material)
    case Confirm(_, ref, target, now) => ReviseConfirm(l[id], ref, target, TargetTaken(l, id, target), now)
    case DispatchResult(_, _, result, now) => ReviseDispatchResult(l[id], result, now)
    case Learn(_, _, _, evidence, now) => ReviseEvidence(l[id], evidence, now)
    case Close(_, _, reason, now) => ReviseClose(l[id], reason, now)
  }

  ghost predicate Succeeds(l: Ledger, op: Op, bytes: Ledger -> nat) { Apply(l, op, bytes).Ok? }

  ghost function Outcome(l: Ledger, op: Op, bytes: Ledger -> nat): Ledger
    requires Succeeds(l, op, bytes)
  {
    Apply(l, op, bytes).value.ledger
  }

  /** `l'` is `l` with the record `id` revised by the command, between prunings. */
  ghost predicate RevisedAt(l: Ledger, op: Op, l': Ledger, id: string) {
    && !op.Prepare? && Stamp(op) >= 0
    && id in Before(l, op) && Revise(Before(l, op), id, op).Ok?
    && (op.Claim? ==> ValidToolUseId(op.toolUseId) && Before(l, op)[id].task_ref == op.ref)
    && (op.Confirm? ==> op.id == id && Text(op.target, 1024))
    && (op.DispatchResult? ==> op.id == id)
    && (op.Learn? ==> op.id == id && IsEvidence(op.evidence) && l[id].target == Some(op.target))
    && (op.Close? ==> op.id == id && Text(op.reason, 1024))
    && l' == After(Before(l, op)[id := Revise(Before(l, op), id, op).value.task], op)
  }

  /** The record a successful command other than prepare is about. */
  ghost function Subject(l: Ledger, op: Op): string
    requires !op.Prepare? && (op.Claim? ==> |RefHolders(Before(l, op), op.ref)| == 1)
  {
    if op.Claim? then Holder(Before(l, op), op.ref) else op.id
  }

  lemma TransitionShape(l: Ledger, op: Op, bytes: Ledger -> nat)
    requires Succeeds(l, op, bytes) && !op.Prepare?
    ensures op.Claim? ==> |RefHolders(Before(l, op), op.ref)| == 1
    ensures RevisedAt(l, op, Outcome(l, op, bytes), Subject(l, op))
    ensures Apply(l, op, bytes).value.result == Revise(Before(l, op), Subject(l, op), op).value.result
  {
    if op.Learn? && IsReadOnly(op.evidence) {
      assert l[op.id := l[op.id]] == l;
    }
  }

  /** The time a command is stamped with; a read-only answer writes none. */
  function Stamp(op: Op): int {
    match op
    case Prepare(r) => if Admissible(r) then r.created_at else 0
    case Claim(_, _, _, now, _) => now
    case Confirm(_, _, _, now) => now
    case DispatchResult(_, _, _, now) => now
    case Learn(_, _, _, evidence, now) => if IsReadOnly(evidence) then 0 else now
    case Close(_, _, _, now) => now
  }

  // ----- facts written once ------------------------------------------------------------------

  function Rank(p: Phase): nat {
    match p
    case Prepared => 0
    case Claimed => 1
    case Bound => 2
    case Terminal => 3
    case Reconcile => 4
    case Closed => 5
  }

  /** `b` is a later state of the record `a`. */
  ghost predicate Later(a: Task, b: Task) {
    // identity
    && b.task_ref == a.task_ref && b.native_interface == a.native_interface
    && b.contract_digest == a.contract_digest && b.contract_summary == a.contract_summary && b.created_at == a.created_at
    // the phase only advances, and a closed record is frozen
    && (a.phase != b.phase ==> Rank(a.phase) < Rank(b.phase))
    && (a.phase == Closed ==> b == a)
    // the capability and its consumer
    && (b.prepared.Some? ==> b.prepared == a.prepared)
    && (a.phase == Claimed && b.phase == Claimed ==> b.claimed_tool_use_id == a.claimed_tool_use_id)
    // bindings and first receipts
    && (a.target.Some? ==> b.target == a.target && b.bound_at == a.bound_at)
    && (forall c <- UnknownFacts(a) :: c in UnknownFacts(b) && UnknownFacts(b)[c] == UnknownFacts(a)[c])
    && (a.reconcile.Some? ==> b.reconcile == a.reconcile)
    && (a.terminal_fact.Some? ==> b.terminal_fact.Some?)
    && (a.terminal_fact.Some? && a.terminal_fact.value.status != Inactive ==> b.terminal_fact == a.terminal_fact)
  }

  lemma LaterIsTransitive(a: Task, b: Task, c: Task)
    requires Later(a, b) && Later(b, c)
    ensures Later(a, c)
  {
  }

  lemma ReviseClaimIsLater(t: Task, toolUseId: string, input: ToolInput, now: int, material: Material)
    requires ValidShape(t) && ReviseClaim(t, toolUseId, input, now, material).Ok?
    ensures Later(t, ReviseClaim(t, toolUseId, input, now, material).value.task)
  {
  }

  lemma ReviseConfirmIsLater(t: Task, ref: string, target: string, taken: bool, now: int)
    requires ValidShape(t) && ReviseConfirm(t, ref, target, taken, now).Ok?
    ensures Later(t, ReviseConfirm(t, ref, target, taken, now).value.task)
  {
  }

  lemma UnknownIsLater(t: Task, code: UnknownCode, now: int)
    requires t.phase != Closed
    ensures Later(t, RecordUnknown(t, code, now).task)
  {
  }

  lemma EndedIsLater(t: Task, source: Source, status: Word, now: int)
    requires ValidShape(t) && IsConcrete(status) && (t.phase == Bound || t.phase == Terminal)
    requires ReviseEnded(t, source, status, now).Ok?
    ensures Later(t, ReviseEnded(t, source, status, now).value.task)
  {
  }

  lemma ActiveIsLater(t: Task, status: Word, now: int)
    requires ReviseActive(t, status, now).Ok?
    ensures Later(t, ReviseActive(t, status, now).value.task)
  {
  }

  lemma InterruptIsLater(t: Task, result: Word, now: int)
    requires ValidShape(t) && (t.phase == Bound || t.phase == Terminal) && ReviseInterrupt(t, result, now).Ok?
    ensures Later(t, ReviseInterrupt(t, result, now).value.task)
  {
  }

  lemma ReviseEvidenceIsLater(t: Task, e: Evidence, now: int)
    requires ValidShape(t) && IsEvidence(e) && ReviseEvidence(t, e, now).Ok?
    ensures Later(t, ReviseEvidence(t, e, now).value.task)
  {
    if t.phase == Reconcile {
    } else if Uncertain(e).Some? {
      UnknownIsLater(t, Uncertain(e).value, now);
    } else {
      match e
      case Observed(s) => if IsConcrete(s) { EndedIsLater(t, Platform, s, now); } else { ActiveIsLater(t, s, now); }
      case Notified(s) => EndedIsLater(t, Notification, s, now);
      case InterruptReturned(r) => InterruptIsLater(t, r, now);
      case CallReturned(r) =>
    }
  }

  lemma RevisionIsLater(l: Ledger, id: string, op: Op)
    requires id in l && !op.Prepare? && Accepted(id, l[id]) && Revise(l, id, op).Ok?
    requires op.Learn? ==> IsEvidence(op.evidence)
    ensures Later(l[id], Revise(l, id, op).value.task)
  {
    assert ValidShape(l[id]) by { AcceptedIsValid(id, l[id]); }
    match op
    case Claim(_, toolUseId, input, now, material) => ReviseClaimIsLater(l[id], toolUseId, input, now, material);
    case Confirm(_, ref, target, now) => ReviseConfirmIsLater(l[id], ref, target, TargetTaken(l, id, target), now);
    case Learn(_, _, _, evidence, now) => ReviseEvidenceIsLater(l[id], evidence, now);
    case DispatchResult(_, _, _, _) =>
    case Close(_, _, _, _) =>
  }

  /** The record a command inserts or revises; every other one is left as it is. */
  ghost predicate Touches(l: Ledger, l': Ledger, id: string) {
    forall other <- l' :: other != id ==> other in l && l'[other] == l[other]
  }

  /** One step of a ledger: surviving records are later states of themselves, at most one
      differs, and what disappears was closed before or is closed by this very step. */
  ghost predicate Advances(l: Ledger, l': Ledger) {
    && (forall id :: id in l && id in l' ==> Later(l[id], l'[id]))
    && exists subject :: Touches(l, l', subject)
                         && forall id <- l :: l[id].phase != Closed && id !in l' ==> id == subject
  }

  /** A revision of one record of a pruned ledger, pruned again, is such a step. */
  lemma RevisionAdvances(l: Ledger, p: Ledger, id: string, t: Task, l': Ledger)
    requires p.Keys <= l.Keys && (forall other <- p :: p[other] == l[other])
    requires forall other <- l :: l[other].phase != Closed ==> other in p
    requires id in p && Later(p[id], t)
    requires l'.Keys <= p.Keys && (forall other <- l' :: l'[other] == p[id := t][other])
    requires forall other <- p :: p[id := t][other].phase != Closed ==> other in l'
    ensures Advances(l, l')
  {
    assert Touches(l, l', id);
    forall other | other in l && other in l' ensures Later(l[other], l'[other]) {
    }
    forall other | other in l && l[other].phase != Closed && other !in l' ensures other == id {
      assert other in p;
    }
  }

  lemma PruningKeeps(l: Ledger, op: Op)
    ensures forall p :: p == Before(l, op) || p == After(l, op) ==>
              && p.Keys <= l.Keys && (forall id <- p :: p[id] == l[id])
              && (forall id <- l :: l[id].phase != Closed ==> id in p) && |p| <= |l|
  {
    PruneKeeps(l, NoPressure());
  }

  lemma RevisedAdvances(l: Ledger, op: Op, l': Ledger, id: string)
    requires ValidLedger(l) && RevisedAt(l, op, l', id)
    ensures Advances(l, l')
  {
    var p := Before(l, op);
    PruningKeeps(l, op);
    RevisionIsLater(p, id, op);
    var t' := Revise(p, id, op).value.task;
    PruningKeeps(p[id := t'], op);
    RevisionAdvances(l, p, id, t', l');
  }

  /** Every successful command advances the ledger. */
  lemma StepAdvances(l: Ledger, op: Op, bytes: Ledger -> nat)
    requires ValidLedger(l) && Succeeds(l, op, bytes)
    ensures Advances(l, Outcome(l, op, bytes))
  {
    if op.Prepare? {
      PreparedIsNew(l, op.request, bytes);
      var id := ChooseIdentity(l, op.request.first, op.request.second).value.0;
      assert Touches(l, Outcome(l, op, bytes), id);
    } else {
      TransitionShape(l, op, bytes);
      RevisedAdvances(l, op, Outcome(l, op, bytes), Subject(l, op));
    }
  }

  lemma PreparedIsNew(l: Ledger, r: Request, bytes: Ledger -> nat)
    requires ApplyPrepare(l, r, bytes).Ok?
    ensures ChooseIdentity(l, r.first, r.second).Some?
    ensures var id := ChooseIdentity(l, r.first, r.second).value.0;
            var l' := ApplyPrepare(l, r, bytes).value.ledger;
            && id !in l && id in l' && (forall other <- l' :: other != id ==> other in l && l'[other] == l[other])
            && (forall other <- l :: l[other].phase != Closed ==> other in l')
            && l'[id].phase == Prepared
  {
    var (id, ref) := ChooseIdentity(l, r.first, r.second).value;
    var record := PreparedRecord(r, ref).value;
    PruneKeeps(l[id := record], Pressure(bytes));
    assert record.phase == Prepared;
  }
}
