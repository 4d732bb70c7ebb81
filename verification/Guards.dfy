/** What a caller can check before a command: from the record, the ledger and the input alone,
    whether the strict validator will accept what the command makes of the ledger. */
module Guards {
  import opened Basics
  import opened TaskNames
  import opened NativeSpawn
  import opened Contracts
  import opened Records
  import opened Retention
  import opened Transitions
  import opened LedgerLaws
  import opened Validity
  import opened ClaimTruth

  // ----- which closed records survive pruning ----------------------------------------------------

  /** The closed records, other than `id`, that are younger than `age`. */
  function Younger(l: Ledger, id: string, age: Age): set<string> {
    set c | c in ClosedIds(l) && c != id && NoYounger(age, AgeOf(c, l[c]))
  }

  lemma Smaller(a: set<string>, b: set<string>)
    requires a <= b
    ensures |a| <= |b|
  {
    assert b == a + (b - a);
  }

  /** Pruning to the retention number keeps exactly the youngest closed records. */
  lemma {:induction false} PruneKeepsYoungest(l: Ledger, id: string)
    requires id in l
    ensures id in Prune(l, NoPressure())
            <==> l[id].phase != Closed || |Younger(l, id, AgeOf(id, l[id]))| < CLOSED_TASK_RETENTION
    decreases |ClosedIds(l)|
  {
    PruneKeeps(l, NoPressure());
    if l[id].phase == Closed {
      Smaller(Younger(l, id, AgeOf(id, l[id])), ClosedIds(l) - {id});
      if |ClosedIds(l)| > CLOSED_TASK_RETENTION {
        YoungestStep(l, id);
      }
    }
  }

  lemma YoungerWithout(l: Ledger, m: string, id: string)
    requires id in l && id != m && m !in Younger(l, id, AgeOf(id, l[id]))
    ensures Younger(l - {m}, id, AgeOf(id, l[id])) == Younger(l, id, AgeOf(id, l[id]))
  {
    ClosedWithout(l, {m});
    var age := AgeOf(id, l[id]);
    forall c ensures c in Younger(l - {m}, id, age) <==> c in Younger(l, id, age) {
    }
  }

  lemma YoungestStep(l: Ledger, id: string)
    requires id in l && l[id].phase == Closed && |ClosedIds(l)| > CLOSED_TASK_RETENTION
    ensures id in Prune(l, NoPressure()) <==> |Younger(l, id, AgeOf(id, l[id]))| < CLOSED_TASK_RETENTION
    decreases |ClosedIds(l)|, 0
  {
    var m := Oldest(l);
    ClosedWithout(l, {m});
    if m == id {
      assert Younger(l, id, AgeOf(id, l[id])) == ClosedIds(l) - {id};
      PruneKeeps(l - {m}, NoPressure());
    } else {
      assert id in ClosedIds(l) && NoYoungerIn(l, m, id);
      AgesAreTotal(AgeOf(m, l[m]), AgeOf(id, l[id]));
      assert m !in Younger(l, id, AgeOf(id, l[id]));
      YoungerWithout(l, m, id);
      PruneKeepsYoungest(l - {m}, id);
    }
  }

  // ----- what leaves a record as it is -------------------------------------------------------------

  /** Evidence the record already holds. */
  predicate Unmoved(t: Task, e: Evidence) {
    || t.phase == Reconcile
    || (Uncertain(e).Some? && Uncertain(e).value in UnknownFacts(t))
    || match e
       case Observed(s) =>
         ObservedStatus(t) == Some(s) && (IsConcrete(s) ==> t.phase == Terminal && TerminalStatus(t) == Some(s))
       case Notified(s) => t.phase == Terminal && TerminalStatus(t) == Some(s)
       case InterruptReturned(r) => InterruptResultOf(t) == Some(r) && (t.phase == Bound ==> r != Inactive)
       case CallReturned(r) => r != Unknown
  }

  lemma UnmovedIsExact(t: Task, e: Evidence, now: int)
    requires IsEvidence(e) && ReviseEvidence(t, e, now).Ok? && ValidShape(t)
    ensures ReviseEvidence(t, e, now).value.task == t <==> Unmoved(t, e)
  {
    if t.phase != Reconcile && Uncertain(e).Some? {
      assert Uncertain(e).value in UnknownFacts(t)[Uncertain(e).value := now];
    }
  }

  predicate AlreadyConfirmed(t: Task, ref: string, target: string) {
    t.phase == Reconcile || t.phase == Closed
    || (t.task_ref == ref && (t.phase == Bound || t.phase == Terminal) && t.target == Some(target))
  }

  lemma AlreadyConfirmedIsExact(t: Task, ref: string, target: string, taken: bool, now: int)
    requires ReviseConfirm(t, ref, target, taken, now).Ok?
    ensures ReviseConfirm(t, ref, target, taken, now).value.task == t <==> AlreadyConfirmed(t, ref, target)
  {
  }

  // ----- the guards ----------------------------------------------------------------------------------

  /** A record closed now would be among the youngest. */
  predicate StaysWhenClosed(l: Ledger, id: string, now: int)
    requires id in l
  {
    |Younger(l, id, Age(now, l[id].created_at, id))| < CLOSED_TASK_RETENTION
  }

  /** The command on the record `id` is safe to write. */
  predicate Guard(l: Ledger, id: string, op: Op)
    requires id in l
  {
    var t := l[id];
    match op
    case Prepare(_) => true
    case Claim(_, toolUseId, _, now, _) => t.phase == Claimed || (now >= t.created_at && Stripped(toolUseId))
    case Confirm(_, ref, target, now) => now >= t.created_at || AlreadyConfirmed(t, ref, target)
    case DispatchResult(_, _, result, now) => now >= t.created_at || (result == Failed && !StaysWhenClosed(l, id, now))
    case Learn(_, _, _, evidence, now) => now >= t.created_at || IsReadOnly(evidence) || Unmoved(t, evidence)
    case Close(_, _, _, now) => now >= t.created_at || t.phase == Closed || !StaysWhenClosed(l, id, now)
  }

  lemma ClosedNowSurvives(l: Ledger, id: string, t': Task, now: int)
    requires id in l && t'.phase == Closed && t'.closed_at == Some(now) && t'.created_at == l[id].created_at
    ensures id in Prune(l[id := t'], NoPressure()) <==> StaysWhenClosed(l, id, now)
  {
    var l1 := l[id := t'];
    PruneKeepsYoungest(l1, id);
    assert Younger(l1, id, AgeOf(id, t')) == Younger(l, id, Age(now, l[id].created_at, id));
  }

  lemma StoredUnlessPruned(l1: Ledger, id: string)
    requires id in l1
    ensures id in Prune(l1, NoPressure()) ==> Prune(l1, NoPressure())[id] == l1[id]
    ensures l1[id].phase != Closed ==> id in Prune(l1, NoPressure())
  {
    PruneKeeps(l1, NoPressure());
  }

  /** Claims and confirmations prune first, so what they revise is stored. */
  lemma FirstPruned(l: Ledger, op: Op, l': Ledger, id: string)
    requires ValidLedger(l) && RevisedAt(l, op, l', id) && PrunesFirst(op)
    ensures id in l && id in l' && (Timely(l[id], l'[id], op) <==> Guard(l, id, op))
  {
    PruneKeeps(l, NoPressure());
    match op
    case Claim(_, toolUseId, input, now, material) => ClaimMoves(l[id], toolUseId, input, now, material);
    case Confirm(_, ref, target, now) => AlreadyConfirmedIsExact(l[id], ref, target, TargetTaken(Before(l, op), id, target), now);
  }

  lemma ClaimMoves(t: Task, toolUseId: string, input: ToolInput, now: int, material: Material)
    requires ReviseClaim(t, toolUseId, input, now, material).Ok?
    ensures ReviseClaim(t, toolUseId, input, now, material).value.task == t <==> t.phase == Claimed
  {
  }

  lemma LearnGuard(l: Ledger, op: Op, l': Ledger, id: string)
    requires RevisedAt(l, op, l', id) && op.Learn? && id in l && ValidShape(l[id])
    ensures id in l' ==> (Timely(l[id], l'[id], op) <==> Guard(l, id, op))
    ensures id in l'
  {
    EvidenceStaysOpen(l[id], op.evidence, op.now);
    UnmovedIsExact(l[id], op.evidence, op.now);
    StoredUnlessPruned(l[id := Revise(l, id, op).value.task], id);
  }

  lemma EvidenceStaysOpen(t: Task, e: Evidence, now: int)
    requires ReviseEvidence(t, e, now).Ok?
    ensures ReviseEvidence(t, e, now).value.task.phase != Closed
  {
  }

  lemma ClosingGuard(l: Ledger, op: Op, l': Ledger, id: string)
    requires RevisedAt(l, op, l', id) && (op.Close? || op.DispatchResult?) && id in l
    ensures (id in l' ==> Timely(l[id], l'[id], op)) <==> Guard(l, id, op)
  {
    var t' := Revise(l, id, op).value.task;
    StoredUnlessPruned(l[id := t'], id);
    if t' != l[id] && t'.phase == Closed {
      ClosedNowSurvives(l, id, t', Stamp(op));
    }
  }

  lemma GuardDecides(l: Ledger, op: Op, l': Ledger, id: string)
    requires ValidLedger(l) && RevisedAt(l, op, l', id)
    ensures id in l && ((id in l' ==> Timely(l[id], l'[id], op)) <==> Guard(l, id, op))
  {
    PruneKeeps(l, NoPressure());
    if PrunesFirst(op) {
      FirstPruned(l, op, l', id);
    } else if op.Learn? {
      assert ValidShape(l[id]) by { AcceptedIsValid(id, l[id]); }
      LearnGuard(l, op, l', id);
    } else {
      ClosingGuard(l, op, l', id);
    }
  }

  /** Inductive validity, decided beforehand: the validator accepts what a successful command
      makes of a ledger it accepts exactly when the guard held. */
  lemma GuardedValidity(l: Ledger, op: Op, bytes: Ledger -> nat)
    requires ValidLedger(l) && !op.Prepare? && Succeeds(l, op, bytes)
    ensures op.Claim? ==> |RefHolders(Before(l, op), op.ref)| == 1
    ensures Subject(l, op) in l && (ValidLedger(Outcome(l, op, bytes)) <==> Guard(l, Subject(l, op), op))
  {
    TransitionShape(l, op, bytes);
    InductiveValidity(l, op, bytes);
    GuardDecides(l, op, Outcome(l, op, bytes), Subject(l, op));
  }

  // ----- the padded call id ----------------------------------------------------------------------------

  /** Any call id with surrounding whitespace claims a task that was just prepared, as far as the
      callback goes, and the ledger it leaves is refused: nothing is written. */
  lemma PaddedClaimIsRefused(l: Ledger, id: string, r: Request, ref: string, toolUseId: string, now: int, material: Material,
                             bytes: Ledger -> nat)
    requires ValidLedger(l) && id in l && Admissible(r) && IsTaskRef(ref)
    requires PreparedRecord(r, ref).Ok? && l[id] == PreparedRecord(r, ref).value && r.contract.business.verified.None?
    requires 0 <= now < r.created_at + PREPARED_EXPIRY_SECONDS && ValidToolUseId(toolUseId) && !Stripped(toolUseId)
    ensures HandedOut(r, ref).Ok?
    ensures var op := Claim(ref, toolUseId, HandedOut(r, ref).value, now, material);
            Succeeds(l, op, bytes) && !ValidLedger(Outcome(l, op, bytes))
  {
    PreparedIsClaimable(l, id, r, ref, toolUseId, now, material, bytes);
    var op := Claim(ref, toolUseId, HandedOut(r, ref).value, now, material);
    GuardedValidity(l, op, bytes);
    PruneKeeps(l, NoPressure());
    assert UniqueRefs(Before(l, op));
    HolderIs(Before(l, op), ref, id);
  }

  /** And such ids exist. */
  lemma CallWithASpace()
    ensures ValidToolUseId("call ") && !Stripped("call ")
  {
    assert StripRight("call ") == "call" by {
      assert "call "[..4] == "call";
      assert StripRight("call") == "call";
    }
    assert StripLeft("call ") == "call ";
    assert IsSpace("call "[4]);
  }
}
