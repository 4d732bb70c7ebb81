/** The session ledger's data: one record per task, with optional fields that come and go with
    the phase, and what it means for a record and a ledger to be well formed
    (schemas/governance-semantics.schema.json, scripts/governance_state.py). */
module Records {
  import opened Basics
  import opened TaskNames
  import opened NativeSpawn
  import opened Contracts

  const CLOSED_TASK_RETENTION: nat := 64
  const MAX_TASKS_PER_SESSION: nat := 512
  const NEW_TASK_SOFT_LIMIT_BYTES: nat := 3145728
  const MAX_STATE_BYTES: nat := 4194304
  const PREPARED_EXPIRY_SECONDS: nat := 900
  const MAX_MESSAGE: nat := 65536

  datatype Phase = Prepared | Claimed | Bound | Terminal | Reconcile | Closed

  /** Every status and result word any command accepts or any record stores. */
  datatype Word = Running | Completed | Stopped | Interrupted | Errored | Unknown | Failed | Inactive | Success

  datatype Source = Platform | Notification | Interrupt

  datatype UnknownCode = DeliveryUnknown | PlatformObservationUnknown | InterruptUnknown

  datatype ReconcileCode =
    | DispatchTargetConflict | DispatchTargetAlreadyBound | DispatchIdentityMismatch
    | DispatchClaimMissing | DispatchResultUnknown | TerminalStatusConflict

  predicate IsConcrete(w: Word) { w == Completed || w == Stopped || w == Interrupted }

  predicate IsPlatformObservationStatus(w: Word) { IsConcrete(w) || w == Running || w == Errored || w == Unknown }
  predicate IsPersistedPlatformStatus(w: Word) { IsConcrete(w) || w == Running || w == Errored }
  predicate IsTerminalFactStatus(w: Word) { IsConcrete(w) || w == Failed || w == Inactive }
  predicate IsCallResult(w: Word) { w == Success || w == Failed || w == Unknown }
  predicate IsInterruptResult(w: Word) { w == Failed || w == Inactive || w == Unknown }
  predicate IsPersistedInterruptResult(w: Word) { w == Failed || w == Inactive }

  // ----- contracts -------------------------------------------------------------

  datatype Contract = Contract(business: Business, spawn: Spawn)

  /** A collision-free digest of a canonical record. */
  datatype Digest = OfBusiness(business: Business) | OfSpawn(spawn: Spawn)

  function ContractDigest(c: Contract): Digest { OfBusiness(c.business) }

  predicate IsEffort(e: string) { e in {"low", "medium", "high", "xhigh", "max", "ultra"} }

  predicate ValidContract(c: Contract) {
    && ValidBusiness(c.business)
    && IsForkTurns(c.spawn.fork_turns)
    && (c.spawn.model.Some? ==> Text(c.spawn.model.value, MAX_CONTRACT_TEXT))
    && (c.spawn.reasoning_effort.Some? ==> IsEffort(c.spawn.reasoning_effort.value))
  }

  /** The stored evidence that the materials a manifest declares were checked. */
  datatype Verification = Verification(manifest: string, evidence: string)

  function RenderDispatchPrompt(c: Contract, v: Option<Verification>): string {
    RenderPrompt(c.business, if v.Some? then Some(v.value.evidence) else None)
  }

  // ----- records -----------------------------------------------------------------

  datatype Capability = Capability(
    contract: Contract, context_verification: Option<Verification>,
    expected_native_parameters: NativeParameters, spawn_digest: Digest, expires_at: int)

  datatype Observation = Observation(status: Word, observed_at: int)
  datatype TerminalFact = TerminalFact(source: Source, status: Word, observed_at: int)
  datatype InterruptFact = InterruptFact(result: Word, observed_at: int)
  datatype ReconcileFact = ReconcileFact(code: ReconcileCode, observed_at: int)

  datatype Task = Task(
    task_ref: string, native_interface: string, phase: Phase,
    contract_digest: Digest, contract_summary: Business,
    created_at: int, updated_at: int,
    prepared: Option<Capability>,
    claimed_tool_use_id: Option<string>, claimed_at: Option<int>,
    target: Option<string>, bound_at: Option<int>,
    platform_observation: Option<Observation>, terminal_fact: Option<TerminalFact>,
    interrupt_fact: Option<InterruptFact>, unknown_facts: Option<map<UnknownCode, int>>,
    reconcile: Option<ReconcileFact>,
    close_reason: Option<string>, closed_at: Option<int>)

  type Ledger = map<string, Task>

  predicate OwnsTarget(t: Task) { t.phase == Bound || t.phase == Terminal || t.phase == Reconcile }

  /** Only the fields a record keeps in every phase: `task.clear()` followed by those. */
  function Cleared(t: Task, phase: Phase, now: int): Task {
    Task(t.task_ref, t.native_interface, phase, t.contract_digest, t.contract_summary, t.created_at, now,
         None, None, None, None, None, None, None, None, None, None, None, None)
  }

  /** `_preserved_facts`: everything learnt about the task, without capability and claim. */
  function Preserved(t: Task, phase: Phase, now: int): Task {
    t.(phase := phase, updated_at := now, prepared := None, claimed_tool_use_id := None, claimed_at := None,
       close_reason := None, closed_at := None)
  }

  // ----- well-formed records -------------------------------------------------------

  predicate ValidCapability(t: Task, p: Capability) {
    && ValidContract(p.contract)
    && p.spawn_digest == OfSpawn(p.contract.spawn)
    && (match p.contract.business.verified
        case None => p.context_verification.None?
        case Some(m) => p.context_verification.Some? && p.context_verification.value.manifest == m)
    && p.expected_native_parameters.task_name.Some?
    && Text(p.expected_native_parameters.task_name.value, TASK_NAME_MAX_LENGTH)
    && Text(p.expected_native_parameters.message, MAX_MESSAGE)
    && p.expected_native_parameters.fork_turns == p.contract.spawn.fork_turns
    && p.expected_native_parameters.model == Lift(p.contract.spawn.model)
    && p.expected_native_parameters.reasoning_effort == Lift(p.contract.spawn.reasoning_effort)
    && p.expires_at >= 0
    && t.contract_digest == ContractDigest(p.contract)
    && t.contract_summary == p.contract.business
    && ValidNativeSpawn(t.native_interface, p.contract.spawn)
  }

  predicate ValidIdentity(t: Task) {
    && IsTaskRef(t.task_ref) && IsInterface(t.native_interface)
    && ValidBusiness(t.contract_summary) && t.contract_digest == OfBusiness(t.contract_summary)
    && 0 <= t.created_at <= t.updated_at
  }

  predicate IsBoundTo(t: Task) {
    t.target.Some? && Text(t.target.value, 1024) && t.bound_at.Some? && t.bound_at.value >= 0
  }

  /** The evidence a record may carry once it has been bound, or kept when it left. */
  predicate ValidEvidence(t: Task) {
    && (t.terminal_fact.Some? ==> IsTerminalFactStatus(t.terminal_fact.value.status) && t.terminal_fact.value.observed_at >= 0)
    && (t.platform_observation.Some? ==>
          IsPersistedPlatformStatus(t.platform_observation.value.status) && t.platform_observation.value.observed_at >= 0)
    && (t.interrupt_fact.Some? ==>
          IsPersistedInterruptResult(t.interrupt_fact.value.result) && t.interrupt_fact.value.observed_at >= 0)
    && (t.unknown_facts.Some? ==>
          t.unknown_facts.value != map[] && forall c <- t.unknown_facts.value :: t.unknown_facts.value[c] >= 0)
    && (t.reconcile.Some? ==> t.reconcile.value.observed_at >= 0)
    && (t.target.Some? || t.unknown_facts.Some? ==> IsBoundTo(t))
  }

  predicate NoEvidence(t: Task) {
    && t.target.None? && t.bound_at.None? && t.platform_observation.None? && t.terminal_fact.None?
    && t.interrupt_fact.None? && t.unknown_facts.None? && t.reconcile.None?
  }

  predicate NoCapability(t: Task) { t.prepared.None? && t.claimed_tool_use_id.None? && t.claimed_at.None? }

  predicate NotClosed(t: Task) { t.close_reason.None? && t.closed_at.None? }

  /** What each phase means for the optional fields. */
  predicate ValidShape(t: Task) {
    match t.phase
    case Prepared =>
      && NoEvidence(t) && NotClosed(t) && t.claimed_tool_use_id.None? && t.claimed_at.None?
      && t.prepared.Some? && ValidCapability(t, t.prepared.value)
    case Claimed =>
      && NoEvidence(t) && NotClosed(t)
      && t.prepared.Some? && ValidCapability(t, t.prepared.value)
      && t.claimed_tool_use_id.Some? && Text(t.claimed_tool_use_id.value, 1024)
      && t.claimed_at.Some? && t.claimed_at.value >= 0
    case Bound =>
      NoCapability(t) && NotClosed(t) && IsBoundTo(t) && ValidEvidence(t) && t.terminal_fact.None? && t.reconcile.None?
    case Terminal =>
      NoCapability(t) && NotClosed(t) && IsBoundTo(t) && ValidEvidence(t) && t.terminal_fact.Some? && t.reconcile.None?
    case Reconcile =>
      NoCapability(t) && NotClosed(t) && ValidEvidence(t) && t.reconcile.Some?
    case Closed =>
      && NoCapability(t) && ValidEvidence(t)
      && t.close_reason.Some? && Text(t.close_reason.value, 1024) && t.closed_at.Some? && t.closed_at.value >= 0
  }

  predicate ValidTask(id: string, t: Task) { Text(id, 256) && ValidIdentity(t) && ValidShape(t) }

  /** The checks on a record, one after another. */
  datatype TaskCheck = KeyCheck | TimesCheck | IdentityCheck | ShapeCheck

  const TASK_CHECKS := [KeyCheck, TimesCheck, IdentityCheck, ShapeCheck]

  predicate PassesOne(id: string, t: Task, c: TaskCheck) {
    match c
    case KeyCheck => Text(id, 256)
    case TimesCheck => 0 <= t.created_at <= t.updated_at
    case IdentityCheck => ValidIdentity(t)
    case ShapeCheck => ValidShape(t)
  }

  predicate Passes(id: string, t: Task, checks: seq<TaskCheck>)
    decreases |checks|, t
  {
    checks == [] || (PassesOne(id, t, checks[0]) && Passes(id, t, checks[1..]))
  }

  predicate Accepted(id: string, t: Task) { Passes(id, t, TASK_CHECKS) }

  /** A record passes every check exactly when it is valid. */
  lemma AcceptedIsValid(id: string, t: Task)
    ensures Accepted(id, t) <==> ValidTask(id, t)
  {
    assert TASK_CHECKS[1..] == [TimesCheck, IdentityCheck, ShapeCheck];
    assert TASK_CHECKS[1..][1..] == [IdentityCheck, ShapeCheck];
    assert TASK_CHECKS[1..][1..][1..] == [ShapeCheck];
    assert Passes(id, t, [ShapeCheck]) <==> ValidShape(t);
    assert Passes(id, t, [IdentityCheck, ShapeCheck]) <==> ValidIdentity(t) && ValidShape(t);
    assert Passes(id, t, [TimesCheck, IdentityCheck, ShapeCheck]) <==> ValidIdentity(t) && ValidShape(t);
  }

  // ----- well-formed ledgers -------------------------------------------------------

  ghost predicate UniqueRefs(l: Ledger) {
    forall a, b :: a in l && b in l && l[a].task_ref == l[b].task_ref ==> a == b
  }

  predicate Owns(t: Task, target: string) { OwnsTarget(t) && t.target == Some(target) }

  ghost predicate ExclusiveTargets(l: Ledger) {
    forall a, b ::
      a in l && b in l && OwnsTarget(l[a]) && OwnsTarget(l[b]) && l[a].target.Some? && l[a].target == l[b].target
      ==> a == b
  }

  ghost predicate AllTasksValid(l: Ledger) {
    forall id <- l :: Accepted(id, l[id])
  }

  ghost predicate ValidLedger(l: Ledger) {
    && |l| <= MAX_TASKS_PER_SESSION
    && AllTasksValid(l)
    && UniqueRefs(l)
    && ExclusiveTargets(l)
  }
}
