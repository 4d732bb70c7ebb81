/** Inductive validity: when the ledger a command produces passes the strict validator, and
    when a new task is refused. */
module Validity {
  import opened Basics
  import opened TaskNames
  import opened NativeSpawn
  import opened Contracts
  import opened Records
  import opened Retention
  import opened Transitions
  import opened LedgerLaws

  // ----- one record ----------------------------------------------------------------------

  /** A rewritten record must not be stamped before its creation, and a first claim must name
      its call without surrounding whitespace. Records left alone need nothing. */
  ghost predicate Timely(t: Task, t': Task, op: Op) {
    t' == t || (Stamp(op) >= t.created_at && (op.Claim? ==> Stripped(op.toolUseId)))
  }

  lemma UnknownValid(id: string, t: Task, code: UnknownCode, now: int)
    requires ValidTask(id, t) && now >= 0 && (t.phase == Bound || t.phase == Terminal)
    ensures var t' := RecordUnknown(t, code, now).task; ValidTask(id, t') <==> t' == t || now >= t.created_at
  {
  }

  /** Only evidence and the time of the last update may differ. */
  predicate SameRecord(t: Task, t': Task, now: int) {
    && t'.task_ref == t.task_ref && t'.native_interface == t.native_interface && t'.contract_digest == t.contract_digest
    && t'.contract_summary == t.contract_summary && t'.created_at == t.created_at
    && (t' == t || t'.updated_at == now)
  }

  lemma UpdatedValid(id: string, t: Task, t': Task, now: int)
    requires ValidTask(id, t) && SameRecord(t, t', now) && ValidShape(t')
    ensures ValidTask(id, t') <==> t' == t || now >= t.created_at
  {
  }

  lemma EndedBoundShape(t: Task, source: Source, status: Word, now: int)
    requires ValidShape(t) && now >= 0 && IsConcrete(status) && t.phase == Bound && ReviseEnded(t, source, status, now).Ok?
    ensures var t' := ReviseEnded(t, source, status, now).value.task; SameRecord(t, t', now) && ValidShape(t')
  {
  }

  lemma UpgradedShape(t: Task, source: Source, status: Word, now: int)
    requires ValidShape(t) && now >= 0 && IsConcrete(status) && t.phase == Terminal && TerminalStatus(t) == Some(Inactive)
    ensures ReviseEnded(t, source, status, now).Ok?
    ensures var t' := ReviseEnded(t, source, status, now).value.task; SameRecord(t, t', now) && ValidShape(t')
  {
  }

  lemma ConflictShape(t: Task, now: int)
    requires ValidShape(t) && now >= 0 && t.phase == Terminal
    ensures var t' := EnterReconcile(t, TerminalStatusConflict, now).value.task; SameRecord(t, t', now) && ValidShape(t')
  {
  }

  lemma ObservedShape(t: Task, source: Source, status: Word, now: int)
    requires ValidShape(t) && now >= 0 && IsConcrete(status) && t.phase == Terminal
    ensures var t' := Observe(t, source, status, now); SameRecord(t, t', now) && ValidShape(t')
  {
  }

  lemma EndedTerminalShape(t: Task, source: Source, status: Word, now: int)
    requires ValidShape(t) && now >= 0 && IsConcrete(status) && t.phase == Terminal && ReviseEnded(t, source, status, now).Ok?
    ensures var t' := ReviseEnded(t, source, status, now).value.task; SameRecord(t, t', now) && ValidShape(t')
  {
    if TerminalStatus(t) == Some(Inactive) {
      UpgradedShape(t, source, status, now);
    } else if TerminalStatus(t) != Some(status) {
      ConflictShape(t, now);
    } else {
      ObservedShape(t, source, status, now);
    }
  }

  lemma EndedValid(id: string, t: Task, source: Source, status: Word, now: int)
    requires ValidTask(id, t) && now >= 0 && IsConcrete(status) && (t.phase == Bound || t.phase == Terminal)
    requires ReviseEnded(t, source, status, now).Ok?
    ensures var t' := ReviseEnded(t, source, status, now).value.task; ValidTask(id, t') <==> t' == t || now >= t.created_at
  {
    if t.phase == Bound {
      EndedBoundShape(t, source, status, now);
    } else {
      EndedTerminalShape(t, source, status, now);
    }
    UpdatedValid(id, t, ReviseEnded(t, source, status, now).value.task, now);
  }

  lemma InterruptValid(id: string, t: Task, result: Word, now: int)
    requires ValidTask(id, t) && now >= 0 && IsPersistedInterruptResult(result) && (t.phase == Bound || t.phase == Terminal)
    requires ReviseInterrupt(t, result, now).Ok?
    ensures var t' := ReviseInterrupt(t, result, now).value.task; ValidTask(id, t') <==> t' == t || now >= t.created_at
  {
  }

  lemma ActiveValid(id: string, t: Task, status: Word, now: int)
    requires ValidTask(id, t) && now >= 0 && IsPersistedPlatformStatus(status) && ReviseActive(t, status, now).Ok?
    ensures var t' := ReviseActive(t, status, now).value.task; ValidTask(id, t') <==> t' == t || now >= t.created_at
  {
  }

  lemma EvidenceValid(id: string, t: Task, e: Evidence, now: int)
    requires ValidTask(id, t) && IsEvidence(e) && now >= 0 && ReviseEvidence(t, e, now).Ok?
    ensures var t' := ReviseEvidence(t, e, now).value.task;
            ValidTask(id, t') <==> t' == t || now >= t.created_at
  {
    if t.phase == Reconcile {
    } else if Uncertain(e).Some? {
      UnknownValid(id, t, Uncertain(e).value, now);
    } else {
      match e
      case Observed(s) => if IsConcrete(s) { EndedValid(id, t, Platform, s, now); } else { ActiveValid(id, t, s, now); }
      case Notified(s) => EndedValid(id, t, Notification, s, now);
      case InterruptReturned(r) => InterruptValid(id, t, r, now);
      case CallReturned(r) =>
    }
  }

  lemma ReconcileValid(id: string, t: Task, code: ReconcileCode, now: int)
    requires ValidTask(id, t) && now >= 0 && EnterReconcile(t, code, now).Ok?
    ensures var t' := EnterReconcile(t, code, now).value.task;
            ValidTask(id, t') <==> t' == t || now >= t.created_at
  {
  }

  lemma BoundValid(id: string, t: Task, target: string, now: int)
    requires ValidTask(id, t) && t.phase == Claimed && Text(target, 1024) && now >= 0
    ensures var t' := Cleared(t, Bound, now).(target := Some(target), bound_at := Some(now));
            t' != t && (ValidTask(id, t') <==> now >= t.created_at)
  {
  }

  lemma ConfirmValid(id: string, t: Task, ref: string, target: string, taken: bool, now: int)
    requires ValidTask(id, t) && Text(target, 1024) && now >= 0 && ReviseConfirm(t, ref, target, taken, now).Ok?
    ensures var t' := ReviseConfirm(t, ref, target, taken, now).value.task;
            ValidTask(id, t') <==> t' == t || now >= t.created_at
  {
    if t.task_ref == ref && t.phase == Claimed && !taken {
      BoundValid(id, t, target, now);
    } else {
      ConfirmElsewhere(t, ref, target, taken, now);
      if t.phase != Closed {
        var code :| ReviseConfirm(t, ref, target, taken, now).value.task == t
                    || ReviseConfirm(t, ref, target, taken, now) == EnterReconcile(t, code, now);
        ReconcileValid(id, t, code, now);
      }
    }
  }

  /** Other than binding, a confirmation leaves the record alone or sends it to reconcile. */
  lemma ConfirmElsewhere(t: Task, ref: string, target: string, taken: bool, now: int)
    requires ReviseConfirm(t, ref, target, taken, now).Ok? && (t.task_ref != ref || t.phase != Claimed || taken)
    ensures ReviseConfirm(t, ref, target, taken, now).value.task == t
            || exists code :: ReviseConfirm(t, ref, target, taken, now) == EnterReconcile(t, code, now)
    ensures t.phase == Closed ==> ReviseConfirm(t, ref, target, taken, now).value.task == t
  {
  }

  lemma ClaimValid(id: string, t: Task, toolUseId: string, input: ToolInput, now: int, material: Material)
    requires ValidTask(id, t) && ValidToolUseId(toolUseId) && now >= 0
    requires ReviseClaim(t, toolUseId, input, now, material).Ok?
    ensures var t' := ReviseClaim(t, toolUseId, input, now, material).value.task;
            ValidTask(id, t') <==> t' == t || (now >= t.created_at && Stripped(toolUseId))
  {
  }

  lemma CloseValid(id: string, t: Task, reason: string, now: int)
    requires ValidTask(id, t) && Text(reason, 1024) && now >= 0 && ReviseClose(t, reason, now).Ok?
    ensures var t' := ReviseClose(t, reason, now).value.task;
            ValidTask(id, t') <==> t' == t || now >= t.created_at
  {
  }

  lemma DispatchResultValid(id: string, t: Task, result: Word, now: int)
    requires ValidTask(id, t) && now >= 0 && ReviseDispatchResult(t, result, now).Ok?
    ensures var t' := ReviseDispatchResult(t, result, now).value.task;
            ValidTask(id, t') <==> now >= t.created_at
    ensures ReviseDispatchResult(t, result, now).value.task != t
  {
  }

  /** What the commands check about their input before revising a record. */
  ghost predicate CheckedInput(op: Op) {
    match op
    case Prepare(_) => false
    case Claim(_, toolUseId, _, now, _) => ValidToolUseId(toolUseId) && now >= 0
    case Confirm(_, _, target, now) => Text(target, 1024) && now >= 0
    case DispatchResult(_, _, _, now) => now >= 0
    case Learn(_, _, _, evidence, now) => IsEvidence(evidence) && (IsReadOnly(evidence) || now >= 0)
    case Close(_, _, reason, now) => Text(reason, 1024) && now >= 0
  }

  lemma RevisedRecordValid(p: Ledger, id: string, op: Op)
    requires id in p && Accepted(id, p[id]) && CheckedInput(op) && Revise(p, id, op).Ok?
    ensures var t' := Revise(p, id, op).value.task; Accepted(id, t') <==> Timely(p[id], t', op)
  {
    AcceptedIsValid(id, p[id]);
    AcceptedIsValid(id, Revise(p, id, op).value.task);
    match op
    case Claim(_, toolUseId, input, now, material) => ClaimValid(id, p[id], toolUseId, input, now, material);
    case Confirm(_, ref, target, now) => ConfirmValid(id, p[id], ref, target, TargetTaken(p, id, target), now);
    case DispatchResult(_, _, result, now) => DispatchResultValid(id, p[id], result, now);
    case Learn(_, _, _, evidence, now) =>
      if IsReadOnly(evidence) { ReadOnlyLeaves(p[id], evidence, now); } else { EvidenceValid(id, p[id], evidence, now); }
    case Close(_, _, reason, now) => CloseValid(id, p[id], reason, now);
  }

  lemma ReadOnlyLeaves(t: Task, e: Evidence, now: int)
    requires IsReadOnly(e) && ReviseEvidence(t, e, now).Ok?
    ensures ReviseEvidence(t, e, now).value.task == t
  {
  }

  // ----- the whole ledger ------------------------------------------------------------------

  lemma SubLedgerValid(l: Ledger, l': Ledger)
    requires ValidLedger(l) && l'.Keys <= l.Keys && |l'| <= |l| && forall id <- l' :: l'[id] == l[id]
    ensures ValidLedger(l')
  {
  }

  lemma UpdateAllValid(l: Ledger, id: string, t': Task)
    requires AllTasksValid(l) && Accepted(id, t')
    ensures AllTasksValid(l[id := t'])
  {
  }

  lemma UpdateUniqueRefs(l: Ledger, id: string, t': Task)
    requires UniqueRefs(l) && (if id in l then t'.task_ref == l[id].task_ref else t'.task_ref !in OccupiedRefs(l))
    ensures UniqueRefs(l[id := t'])
  {
  }

  lemma UpdateExclusiveTargets(l: Ledger, id: string, t': Task)
    requires ExclusiveTargets(l)
    requires OwnsTarget(t') && t'.target.Some? ==>
               (id in l && OwnsTarget(l[id]) && l[id].target == t'.target) || !TargetTaken(l, id, t'.target.value)
    ensures ExclusiveTargets(l[id := t'])
  {
  }

  /** Replacing one record keeps the ledger well formed, if the record is and brings no target
      that another record owns. */
  lemma UpdateValid(l: Ledger, id: string, t': Task)
    requires ValidLedger(l) && id in l && Accepted(id, t') && t'.task_ref == l[id].task_ref
    requires OwnsTarget(t') && t'.target.Some? ==>
               (OwnsTarget(l[id]) && l[id].target == t'.target) || !TargetTaken(l, id, t'.target.value)
    ensures ValidLedger(l[id := t'])
  {
    UpdateAllValid(l, id, t');
    UpdateUniqueRefs(l, id, t');
    UpdateExclusiveTargets(l, id, t');
    assert l[id := t'].Keys == l.Keys;
  }

  /** A revised record owns a target only if it owned it before or the target was free. */
  lemma TargetsStayExclusive(l: Ledger, id: string, op: Op)
    requires id in l && !op.Prepare? && Accepted(id, l[id]) && Revise(l, id, op).Ok?
    ensures var t' := Revise(l, id, op).value.task;
            OwnsTarget(t') && t'.target.Some? ==>
              (OwnsTarget(l[id]) && l[id].target == t'.target) || !TargetTaken(l, id, t'.target.value)
  {
    assert ValidShape(l[id]) by { AcceptedIsValid(id, l[id]); }
    match op
    case Confirm(_, ref, target, now) =>
    case Learn(_, _, _, evidence, now) => EvidenceKeepsTarget(l[id], evidence, now);
    case _ =>
  }

  lemma EvidenceKeepsTarget(t: Task, e: Evidence, now: int)
    requires ReviseEvidence(t, e, now).Ok?
    ensures ReviseEvidence(t, e, now).value.task.target == t.target && OwnsTarget(t)
  {
  }

  /** Inductive validity: the validator accepts what a successful command makes of a ledger it
      accepts, exactly when the revised record, if it survives, is timely. */
  lemma InductiveValidity(l: Ledger, op: Op, bytes: Ledger -> nat)
    requires ValidLedger(l) && !op.Prepare? && Succeeds(l, op, bytes)
    ensures op.Claim? ==> |RefHolders(Before(l, op), op.ref)| == 1
    ensures var l', id := Outcome(l, op, bytes), Subject(l, op);
            id in l && (ValidLedger(l') <==> (id in l' ==> Timely(l[id], l'[id], op)))
  {
    TransitionShape(l, op, bytes);
    RevisedValidity(l, op, Outcome(l, op, bytes), Subject(l, op));
  }

  lemma RevisedValidity(l: Ledger, op: Op, l': Ledger, id: string)
    requires ValidLedger(l) && RevisedAt(l, op, l', id)
    ensures id in l && (ValidLedger(l') <==> (id in l' ==> Timely(l[id], l'[id], op)))
  {
    PruningKeeps(l, op);
    var p := Before(l, op);
    SubLedgerValid(l, p);
    var t' := Revise(p, id, op).value.task;
    PruningKeeps(p[id := t'], op);
    RevisedRecordValid(p, id, op);
    if Accepted(id, t') {
      SurvivorsValid(p, id, op, l');
    } else if id !in l' {
      DroppedValid(p, id, t', l');
    }
  }

  lemma SurvivorsValid(p: Ledger, id: string, op: Op, l': Ledger)
    requires ValidLedger(p) && id in p && !op.Prepare? && Revise(p, id, op).Ok? && Accepted(id, Revise(p, id, op).value.task)
    requires op.Learn? ==> IsEvidence(op.evidence)
    requires var p' := p[id := Revise(p, id, op).value.task];
             l'.Keys <= p'.Keys && |l'| <= |p'| && forall other <- l' :: l'[other] == p'[other]
    ensures ValidLedger(l')
  {
    RevisionIsLater(p, id, op);
    TargetsStayExclusive(p, id, op);
    UpdateValid(p, id, Revise(p, id, op).value.task);
    SubLedgerValid(p[id := Revise(p, id, op).value.task], l');
  }

  lemma DroppedValid(p: Ledger, id: string, t': Task, l': Ledger)
    requires ValidLedger(p) && id in p && l'.Keys <= p.Keys && id !in l'
    requires forall other <- l' :: l'[other] == p[id := t'][other]
    ensures ValidLedger(l')
  {
    KeptPart(p, l');
    SubLedgerValid(p, l');
  }

  // ----- admitting a new task ----------------------------------------------------------------

  /** The write check of a new task: the validator, then the soft byte limit. */
  ghost predicate Admitted(l: Ledger, bytes: Ledger -> nat) {
    ValidLedger(l) && bytes(l) <= NEW_TASK_SOFT_LIMIT_BYTES
  }

  function MessageOf(r: Request, ref: string): string
    requires PreparedRecord(r, ref).Ok?
  {
    PreparedRecord(r, ref).value.prepared.value.expected_native_parameters.message
  }

  lemma PreparedMessageIsStripped(name: string, c: Contract, v: Option<Verification>)
    ensures var m := MessageFor(name, RenderDispatchPrompt(c, v)); m != "" && Stripped(m)
  {
    PromptEndsWell(c.business, if v.Some? then Some(v.value.evidence) else None);
  }

  /** The record for a name that parses: only its message may be too long. */
  lemma InitialRecordValid(id: string, ref: string, r: Request, taskName: string)
    requires Admissible(r) && Text(id, 256) && IsTaskRef(ref) && Text(taskName, TASK_NAME_MAX_LENGTH)
    requires var m := MessageFor(taskName, RenderDispatchPrompt(r.contract, Verify(r.contract, r.material)));
             m != "" && Stripped(m)
    ensures var t := InitialTaskRecord(ref, r.contract, taskName, Verify(r.contract, r.material), r.created_at,
                                       r.native_interface, r.created_at + PREPARED_EXPIRY_SECONDS);
            ValidTask(id, t) <==> |t.prepared.value.expected_native_parameters.message| <= MAX_MESSAGE
  {
  }

  /** The name a record is prepared with, and the record. */
  lemma PreparedName(r: Request, ref: string) returns (taskName: string)
    requires Admissible(r) && IsTaskRef(ref)
    ensures ParseTaskName(taskName).Some? && Text(taskName, TASK_NAME_MAX_LENGTH)
    ensures PreparedRecord(r, ref) == Ok(InitialTaskRecord(ref, r.contract, taskName, Verify(r.contract, r.material), r.created_at,
                                                           r.native_interface, r.created_at + PREPARED_EXPIRY_SECONDS))
  {
    var name := NormalizeSemanticName(r.contract.business.objective);
    assert IsProfile(r.contract.business.profile) by { ValidBusinessIs(r.contract.business); }
    BuildThenParse(r.contract.business.profile, name, ref);
    taskName := BuildTaskName(r.contract.business.profile, name, ref).value;
    ParsedNamesAreOneLine(taskName);
  }

  lemma PreparedRecordValid(id: string, ref: string, r: Request)
    requires Admissible(r) && Text(id, 256) && IsTaskRef(ref)
    ensures PreparedRecord(r, ref).Ok?
    ensures Accepted(id, PreparedRecord(r, ref).value) <==> |MessageOf(r, ref)| <= MAX_MESSAGE
    ensures !OwnsTarget(PreparedRecord(r, ref).value) && PreparedRecord(r, ref).value.task_ref == ref
  {
    var taskName := PreparedName(r, ref);
    PreparedMessageIsStripped(taskName, r.contract, Verify(r.contract, r.material));
    InitialRecordValid(id, ref, r, taskName);
    AcceptedIsValid(id, PreparedRecord(r, ref).value);
  }

  lemma InsertValid(l: Ledger, id: string, t: Task, l': Ledger)
    requires ValidLedger(l) && id !in l && Accepted(id, t) && t.task_ref !in OccupiedRefs(l) && !OwnsTarget(t)
    requires l'.Keys <= l.Keys + {id} && (forall other <- l' :: l'[other] == l[id := t][other])
    ensures ValidLedger(l') <==> |l'| <= MAX_TASKS_PER_SESSION
  {
    UpdateAllValid(l, id, t);
    UpdateUniqueRefs(l, id, t);
    UpdateExclusiveTargets(l, id, t);
    PartOf(l[id := t], l');
  }

  lemma PartOf(l: Ledger, l': Ledger)
    requires AllTasksValid(l) && UniqueRefs(l) && ExclusiveTargets(l)
    requires l'.Keys <= l.Keys && forall id <- l' :: l'[id] == l[id]
    ensures AllTasksValid(l') && UniqueRefs(l') && ExclusiveTargets(l')
  {
  }

  lemma InsertedAdmission(l: Ledger, id: string, t: Task, bytes: Ledger -> nat)
    requires ValidLedger(l) && SizeIsMonotone(bytes)
    requires id !in l && t.phase == Prepared && t.task_ref !in OccupiedRefs(l) && !OwnsTarget(t)
    ensures Admitted(Prune(l[id := t], Pressure(bytes)), bytes)
            <==> Accepted(id, t) && !ExceedsCapacity(OpenOnly(l[id := t]), bytes)
  {
    var inserted := l[id := t];
    var l' := Prune(inserted, Pressure(bytes));
    PruneKeeps(inserted, Pressure(bytes));
    AdmissionIsExact(inserted, bytes);
    assert id in l' && l'[id] == t;
    if Accepted(id, t) {
      InsertValid(l, id, t, l');
    } else {
      assert !AllTasksValid(l');
    }
  }

  /** A prepare that finds a free identity produces a record the validator accepts exactly when
      its message fits, and the write is then admitted exactly when the new record and the
      open records alone fit both limits: closed history never costs a new task its place. */
  lemma PrepareAdmission(l: Ledger, r: Request, bytes: Ledger -> nat)
    requires ValidLedger(l) && SizeIsMonotone(bytes) && ApplyPrepare(l, r, bytes).Ok?
    ensures ChooseIdentity(l, r.first, r.second).Some?
    ensures var (id, ref) := ChooseIdentity(l, r.first, r.second).value;
            && PreparedRecord(r, ref).Ok?
            && (Admitted(ApplyPrepare(l, r, bytes).value.ledger, bytes)
                <==> |MessageOf(r, ref)| <= MAX_MESSAGE
                     && !ExceedsCapacity(OpenOnly(l[id := PreparedRecord(r, ref).value]), bytes))
  {
    var (id, ref) := ChooseIdentity(l, r.first, r.second).value;
    PreparedRecordValid(id, ref, r);
    InsertedAdmission(l, id, PreparedRecord(r, ref).value, bytes);
  }

  /** Preparing can fail before that only for its own input or for want of an identity: two
      candidates, each ill formed, in use, or with both of its references taken. */
  lemma PrepareNeedsIdentity(l: Ledger, r: Request, bytes: Ledger -> nat)
    requires Admissible(r)
    ensures ApplyPrepare(l, r, bytes).Ok? <==> ChooseIdentity(l, r.first, r.second).Some?
    ensures ChooseIdentity(l, r.first, r.second).Some? ==>
              var (id, ref) := ChooseIdentity(l, r.first, r.second).value;
              Text(id, 256) && id !in l && IsTaskRef(ref) && ref !in OccupiedRefs(l)
  {
    if ChooseIdentity(l, r.first, r.second).Some? {
      var (id, ref) := ChooseIdentity(l, r.first, r.second).value;
      PreparedRecordValid(id, ref, r);
    }
  }
}
