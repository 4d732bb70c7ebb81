/** What each command does to one record, told field by field: when it succeeds, why it is
    refused, what it stores, and what it answers (scripts/governance_dispatch.py,
    scripts/governance_lifecycle.py). */
module Effects {
  import opened Basics
  import opened TaskNames
  import opened NativeSpawn
  import opened Contracts
  import opened Records
  import opened Transitions

  // ----- claim -----------------------------------------------------------------------------------

  /** Declared materials check to exactly the stored verification. */
  predicate MaterialsStand(p: Capability, material: Material) {
    match p.contract.business.verified
    case None => true
    case Some(manifest) =>
      material.Checked? && p.context_verification.Some?
      && p.context_verification.value.manifest == manifest && p.context_verification.value.evidence == material.evidence
  }

  predicate SameCall(t: Task, input: ToolInput)
    requires t.prepared.Some?
  {
    ClaimParametersMatch(t.native_interface, input, t.prepared.value.expected_native_parameters) == Ok(true)
  }

  /** The call may be compared: it is the claimant, or the preparation is still open. */
  predicate Considered(t: Task, toolUseId: string, now: int) {
    && t.prepared.Some?
    && ((t.phase == Claimed && t.claimed_tool_use_id == Some(toolUseId))
        || (t.phase == Prepared && now < t.prepared.value.expires_at))
  }

  /** The claim is granted: again to its claimant, or anew before expiry with materials standing. */
  predicate Granted(t: Task, toolUseId: string, input: ToolInput, now: int, material: Material) {
    && Considered(t, toolUseId, now) && SameCall(t, input)
    && (t.phase == Prepared ==> ValidContract(t.prepared.value.contract) && MaterialsStand(t.prepared.value, material))
  }

  lemma ClaimIsGranted(t: Task, toolUseId: string, input: ToolInput, now: int, material: Material)
    ensures var r := ReviseClaim(t, toolUseId, input, now, material);
            && (r.Ok? <==> Granted(t, toolUseId, input, now, material))
            && (r.Ok? && t.phase == Claimed ==> r.value == Revision(t, AlreadyClaimed))
            && (r.Ok? && t.phase == Prepared ==>
                  r.value == Revision(t.(phase := Claimed, claimed_tool_use_id := Some(toolUseId), claimed_at := Some(now),
                                         updated_at := now), ClaimedResult))
  {
  }

  /** The reason for each refusal. */
  lemma ClaimIsRefused(t: Task, toolUseId: string, input: ToolInput, now: int, material: Material)
    ensures var r := ReviseClaim(t, toolUseId, input, now, material);
            && (r == Err(Expired) <==> t.prepared.Some? && t.phase == Prepared && t.prepared.value.expires_at <= now)
            && (r == Err(Conflict) <==>
                  || t.prepared.None? || (t.phase != Prepared && t.phase != Claimed)
                  || (t.phase == Claimed && t.claimed_tool_use_id != Some(toolUseId))
                  || (Considered(t, toolUseId, now)
                      && ClaimParametersMatch(t.native_interface, input, t.prepared.value.expected_native_parameters) == Ok(false)))
            && (r == Err(NativeUnavailable) <==>
                  Considered(t, toolUseId, now)
                  && ClaimParametersMatch(t.native_interface, input, t.prepared.value.expected_native_parameters) == Err(Unavailable))
            && (r == Err(NativeMismatch) <==>
                  Considered(t, toolUseId, now)
                  && ClaimParametersMatch(t.native_interface, input, t.prepared.value.expected_native_parameters) == Err(Mismatch))
  {
  }

  lemma MaterialsRefuse(t: Task, toolUseId: string, input: ToolInput, now: int, material: Material)
    requires Considered(t, toolUseId, now) && t.phase == Prepared && SameCall(t, input) && ValidContract(t.prepared.value.contract)
    ensures var r := ReviseClaim(t, toolUseId, input, now, material);
            var declared := t.prepared.value.contract.business.verified.Some?;
            && (r == Err(MaterialUnavailable) <==> declared && material.Unreachable?)
            && (r == Err(MaterialConflict) <==> declared && !material.Unreachable? && !MaterialsStand(t.prepared.value, material))
  {
  }

  // ----- evidence ----------------------------------------------------------------------------------

  /** An uncertain receipt is noted under its own category, with the time of the first one, and
      nothing else moves. */
  predicate NotesUnknown(t: Task, code: UnknownCode, now: int, r: Result<Revision, Error>) {
    if t.unknown_facts.Some? && code in t.unknown_facts.value then r == Ok(Revision(t, AlreadyUnknown))
    else
      var known := if t.unknown_facts.Some? then t.unknown_facts.value else map[];
      r == Ok(Revision(t.(unknown_facts := Some(known[code := now]), updated_at := now), UnknownRecorded))
  }

  /** Two different concrete ends: the record goes to reconcile with everything it knows. */
  predicate EndsConflict(t: Task, now: int, r: Result<Revision, Error>) {
    r == Ok(Revision(t.(phase := Reconcile, updated_at := now, reconcile := Some(ReconcileFact(TerminalStatusConflict, now)),
                        prepared := None, claimed_tool_use_id := None, claimed_at := None, close_reason := None, closed_at := None),
                     ReconcileResult))
  }

  /** Where no evidence is taken: before binding and after closing it is refused, in reconcile it
      changes nothing. */
  lemma EvidenceOutsideTheBond(t: Task, e: Evidence, now: int)
    ensures t.phase == Reconcile ==> ReviseEvidence(t, e, now) == Ok(Revision(t, ReconcileResult))
    ensures t.phase == Prepared || t.phase == Claimed || t.phase == Closed ==> ReviseEvidence(t, e, now) == Err(Conflict)
  {
  }

  /** A platform observation. */
  lemma ObservationStores(t: Task, status: Word, now: int)
    requires status in {Running, Completed, Stopped, Interrupted, Errored, Unknown}
    requires t.phase == Bound || (t.phase == Terminal && t.terminal_fact.Some?)
    ensures var r := ReviseEvidence(t, Observed(status), now);
            var observed := t.(platform_observation := Some(Observation(status, now)), updated_at := now);
            var again := t.platform_observation.Some? && t.platform_observation.value.status == status;
            if status == Unknown then NotesUnknown(t, PlatformObservationUnknown, now, r)
            else if status == Running || status == Errored then
              (if t.phase == Terminal then r == Err(Conflict)
               else if again then r == Ok(Revision(t, AlreadyObserved)) else r == Ok(Revision(observed, Recorded)))
            else if t.phase == Bound || t.terminal_fact.value.status == Inactive then
              r == Ok(Revision(observed.(phase := Terminal, terminal_fact := Some(TerminalFact(Platform, status, now))), TerminalResult))
            else if t.terminal_fact.value.status != status then EndsConflict(t, now, r)
            else if again then r == Ok(Revision(t, AlreadyTerminal)) else r == Ok(Revision(observed, TerminalObserved))
  {
  }

  /** A terminal notification. */
  lemma NotificationStores(t: Task, status: Word, now: int)
    requires status in {Completed, Stopped, Interrupted}
    requires t.phase == Bound || (t.phase == Terminal && t.terminal_fact.Some?)
    ensures var r := ReviseEvidence(t, Notified(status), now);
            if t.phase == Bound || t.terminal_fact.value.status == Inactive then
              r == Ok(Revision(t.(phase := Terminal, updated_at := now, terminal_fact := Some(TerminalFact(Notification, status, now))),
                               TerminalResult))
            else if t.terminal_fact.value.status != status then EndsConflict(t, now, r)
            else r == Ok(Revision(t, AlreadyTerminal))
  {
  }

  /** The result of an interrupt. */
  lemma InterruptStores(t: Task, result: Word, now: int)
    requires result in {Failed, Inactive, Unknown}
    requires t.phase == Bound || t.phase == Terminal
    ensures var r := ReviseEvidence(t, InterruptReturned(result), now);
            var noted := t.(interrupt_fact := Some(InterruptFact(result, now)), updated_at := now);
            var again := t.interrupt_fact.Some? && t.interrupt_fact.value.result == result;
            if result == Unknown then NotesUnknown(t, InterruptUnknown, now, r)
            else if result == Failed then
              (if t.phase != Bound then r == Err(Conflict)
               else if again then r == Ok(Revision(t, AlreadyRecorded)) else r == Ok(Revision(noted, FailedResult)))
            else if t.phase == Bound then
              r == Ok(Revision(noted.(phase := Terminal, terminal_fact := Some(TerminalFact(Interrupt, Inactive, now))), TerminalResult))
            else if again then r == Ok(Revision(t, AlreadyTerminal)) else r == Ok(Revision(noted, TerminalConfirmed))
  {
  }

  /** The result of a message call: only an uncertain one is stored. */
  lemma CallResultStores(t: Task, result: Word, now: int)
    requires result in {Success, Failed, Unknown}
    requires t.phase == Bound || t.phase == Terminal
    ensures var r := ReviseEvidence(t, CallReturned(result), now);
            if result == Unknown then NotesUnknown(t, DeliveryUnknown, now, r) else r == Ok(Revision(t, Echo(result)))
  {
  }

  // ----- confirm, dispatch result, close -------------------------------------------------------------

  /** The record with only what it keeps in every phase. */
  function Stem(t: Task, phase: Phase, now: int): Task {
    Task(t.task_ref, t.native_interface, phase, t.contract_digest, t.contract_summary, t.created_at, now,
         None, None, None, None, None, None, None, None, None, None, None, None)
  }

  /** A conflict of identity sends an open record to reconcile with its first cause; everything it
      has learnt stays, its capability and claim go. */
  predicate GoesToReconcile(t: Task, code: ReconcileCode, now: int, r: Result<Revision, Error>) {
    match t.phase
    case Closed => r == Err(Conflict)
    case Reconcile => r == Ok(Revision(t, ReconcileResult))
    case _ =>
      r == Ok(Revision(t.(phase := Reconcile, updated_at := now, reconcile := Some(ReconcileFact(code, now)),
                          prepared := None, claimed_tool_use_id := None, claimed_at := None, close_reason := None, closed_at := None),
                       ReconcileResult))
  }

  lemma ConfirmationStores(t: Task, ref: string, target: string, taken: bool, now: int)
    ensures var r := ReviseConfirm(t, ref, target, taken, now);
            if t.task_ref != ref then GoesToReconcile(t, DispatchIdentityMismatch, now, r)
            else
              match t.phase
              case Prepared => GoesToReconcile(t, DispatchClaimMissing, now, r)
              case Claimed =>
                if taken then GoesToReconcile(t, DispatchTargetAlreadyBound, now, r)
                else r == Ok(Revision(Stem(t, Bound, now).(target := Some(target), bound_at := Some(now)), BoundResult))
              case Reconcile => r == Ok(Revision(t, ReconcileResult))
              case Closed => r == if t.target == Some(target) then Ok(Revision(t, AlreadyClosed)) else Err(Conflict)
              case _ =>
                if t.target == Some(target) then r == Ok(Revision(t, AlreadyBound))
                else GoesToReconcile(t, DispatchTargetConflict, now, r)
  {
  }

  lemma DispatchResultStores(t: Task, result: Word, now: int)
    requires result == Failed || result == Unknown
    ensures var r := ReviseDispatchResult(t, result, now);
            if t.phase != Prepared && t.phase != Claimed then r == Err(Conflict)
            else if result == Failed then
              r == Ok(Revision(Stem(t, Closed, now).(close_reason := Some("dispatch_failed_not_created"), closed_at := Some(now)),
                               ClosedResult))
            else
              r == Ok(Revision(Stem(t, Reconcile, now).(reconcile := Some(ReconcileFact(DispatchResultUnknown, now))), ReconcileResult))
  {
  }

  /** A close succeeds unless the record was closed for another reason, and the reason submitted
      is the reason stored. */
  lemma CloseStores(t: Task, reason: string, now: int)
    ensures var r := ReviseClose(t, reason, now);
            && (r.Ok? <==> t.phase != Closed || t.close_reason == Some(reason))
            && (r.Err? ==> r.error == Conflict)
            && (r.Ok? ==> r.value.task.phase == Closed && r.value.task.close_reason == Some(reason))
            && (r.Ok? && t.phase == Closed ==> r.value == Revision(t, AlreadyClosed))
            && (r.Ok? && t.phase != Closed ==>
                  r.value == Revision(t.(phase := Closed, updated_at := now, close_reason := Some(reason), closed_at := Some(now),
                                         prepared := None, claimed_tool_use_id := None, claimed_at := None), ClosedResult))
  {
  }
}
