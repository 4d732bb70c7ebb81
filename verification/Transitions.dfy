/** The ledger's transitions as functions: what each command makes of one record, and of the
    ledger around it. The in-place code of Lifecycle and Dispatch is proved against these,
    and the laws of the ledger are proved about them. */
module Transitions {
  import opened Basics
  import opened TaskNames
  import opened NativeSpawn
  import opened Contracts
  import opened Records
  import opened Retention

  datatype Error =
    | InvalidInput | Conflict | Expired | NativeUnavailable | NativeMismatch | Malformed
    | MaterialConflict | MaterialUnavailable | PreparationFailed | CapacityExceeded

  datatype ResultWord =
    | PreparedResult | ClaimedResult | AlreadyClaimed | BoundResult | AlreadyBound | ReconcileResult
    | ClosedResult | AlreadyClosed | TerminalResult | AlreadyTerminal | TerminalObserved | TerminalConfirmed
    | Recorded | AlreadyObserved | UnknownRecorded | AlreadyUnknown | FailedResult | AlreadyRecorded | Echo(word: Word)

  /** What a command makes of one record, and what it answers. */
  datatype Revision = Revision(task: Task, result: ResultWord)

  // ----- reconcile and unknown facts ---------------------------------------------------

  /** `enter_reconcile`: the first cause stays, a closed record refuses. */
  function EnterReconcile(t: Task, code: ReconcileCode, now: int): Result<Revision, Error> {
    if t.phase == Closed then Err(Conflict)
    else if t.phase == Reconcile then Ok(Revision(t, ReconcileResult))
    else Ok(Revision(Preserved(t, Reconcile, now).(reconcile := Some(ReconcileFact(code, now))), ReconcileResult))
  }

  function UnknownFacts(t: Task): map<UnknownCode, int> {
    if t.unknown_facts.Some? then t.unknown_facts.value else map[]
  }

  /** `_record_unknown`: only the first receipt of a category is kept. */
  function RecordUnknown(t: Task, code: UnknownCode, now: int): Revision {
    if code in UnknownFacts(t) then Revision(t, AlreadyUnknown)
    else Revision(t.(unknown_facts := Some(UnknownFacts(t)[code := now]), updated_at := now), UnknownRecorded)
  }

  // ----- evidence about a bound task -----------------------------------------------------

  datatype Evidence =
    | Observed(status: Word)
    | Notified(status: Word)
    | InterruptReturned(result: Word)
    | CallReturned(result: Word)

  predicate IsEvidence(e: Evidence) {
    match e
    case Observed(s) => IsPlatformObservationStatus(s)
    case Notified(s) => IsConcrete(s)
    case InterruptReturned(r) => IsInterruptResult(r)
    case CallReturned(r) => IsCallResult(r)
  }

  /** The category of an uncertain receipt. */
  function Uncertain(e: Evidence): Option<UnknownCode> {
    match e
    case Observed(s) => if s == Unknown then Some(PlatformObservationUnknown) else None
    case Notified(s) => None
    case InterruptReturned(r) => if r == Unknown then Some(InterruptUnknown) else None
    case CallReturned(r) => if r == Unknown then Some(DeliveryUnknown) else None
  }

  function TerminalStatus(t: Task): Option<Word> {
    if t.terminal_fact.Some? then Some(t.terminal_fact.value.status) else None
  }

  function ObservedStatus(t: Task): Option<Word> {
    if t.platform_observation.Some? then Some(t.platform_observation.value.status) else None
  }

  function InterruptResultOf(t: Task): Option<Word> {
    if t.interrupt_fact.Some? then Some(t.interrupt_fact.value.result) else None
  }

  function Observe(t: Task, source: Source, status: Word, now: int): Task {
    if source == Platform then t.(platform_observation := Some(Observation(status, now)), updated_at := now) else t
  }

  /** A concrete end reported by the platform or by a notification. */
  function ReviseEnded(t: Task, source: Source, status: Word, now: int): Result<Revision, Error> {
    if t.phase == Bound || TerminalStatus(t) == Some(Inactive) then
      Ok(Revision(Observe(t, source, status, now).(phase := Terminal, updated_at := now,
                    terminal_fact := Some(TerminalFact(source, status, now))), TerminalResult))
    else if TerminalStatus(t) != Some(status) then EnterReconcile(t, TerminalStatusConflict, now)
    else if source == Platform && ObservedStatus(t) != Some(status) then
      Ok(Revision(Observe(t, source, status, now), TerminalObserved))
    else Ok(Revision(t, AlreadyTerminal))
  }

  /** A running or failing platform status: only while bound. */
  function ReviseActive(t: Task, status: Word, now: int): Result<Revision, Error> {
    if t.phase != Bound then Err(Conflict)
    else if ObservedStatus(t) == Some(status) then Ok(Revision(t, AlreadyObserved))
    else Ok(Revision(Observe(t, Platform, status, now), Recorded))
  }

  function ReviseInterrupt(t: Task, result: Word, now: int): Result<Revision, Error> {
    var noted := t.(interrupt_fact := Some(InterruptFact(result, now)), updated_at := now);
    if result == Failed && t.phase != Bound then Err(Conflict)
    else if t.phase == Bound && result == Inactive then
      Ok(Revision(noted.(phase := Terminal, terminal_fact := Some(TerminalFact(Interrupt, Inactive, now))), TerminalResult))
    else if InterruptResultOf(t) == Some(result) then
      Ok(Revision(t, if result == Failed then AlreadyRecorded else AlreadyTerminal))
    else Ok(Revision(noted, if result == Failed then FailedResult else TerminalConfirmed))
  }

  /** What a piece of evidence makes of a record that is bound, terminal or in reconcile. */
  function ReviseEvidence(t: Task, e: Evidence, now: int): Result<Revision, Error> {
    if t.phase == Reconcile then Ok(Revision(t, ReconcileResult))
    else if t.phase != Bound && t.phase != Terminal then Err(Conflict)
    else if Uncertain(e).Some? then Ok(RecordUnknown(t, Uncertain(e).value, now))
    else
      match e
      case Observed(s) => if IsConcrete(s) then ReviseEnded(t, Platform, s, now) else ReviseActive(t, s, now)
      case Notified(s) => ReviseEnded(t, Notification, s, now)
      case InterruptReturned(r) => ReviseInterrupt(t, r, now)
      case CallReturned(r) => Ok(Revision(t, Echo(r)))
  }

  function ReviseClose(t: Task, reason: string, now: int): Result<Revision, Error> {
    if t.phase != Closed then
      Ok(Revision(Preserved(t, Closed, now).(close_reason := Some(reason), closed_at := Some(now)), ClosedResult))
    else if t.close_reason == Some(reason) then Ok(Revision(t, AlreadyClosed))
    else Err(Conflict)
  }

  // ----- dispatch --------------------------------------------------------------------------

  /** What checking declared materials yields: evidence, a conflict, or no answer. */
  datatype Material = Checked(evidence: string) | Differs | Unreachable

  function MatchError(e: InputError): Error {
    match e
    case Unavailable => NativeUnavailable
    case Mismatch => NativeMismatch
    case InterfaceInvalid => Malformed
    case SpawnInvalid => Malformed
  }

  function ReviseClaim(t: Task, toolUseId: string, input: ToolInput, now: int, material: Material): Result<Revision, Error> {
    if t.prepared.None? || (t.phase != Claimed && t.phase != Prepared) then Err(Conflict)
    else
      var p := t.prepared.value;
      var same := ClaimParametersMatch(t.native_interface, input, p.expected_native_parameters);
      if t.phase == Claimed && t.claimed_tool_use_id != Some(toolUseId) then Err(Conflict)
      else if t.phase == Prepared && p.expires_at <= now then Err(Expired)
      else if same.Err? then Err(MatchError(same.error))
      else if !same.value then Err(Conflict)
      else if t.phase == Claimed then Ok(Revision(t, AlreadyClaimed))
      else if !ValidContract(p.contract) then Err(Malformed)
      else if p.contract.business.verified.Some? && material.Unreachable? then Err(MaterialUnavailable)
      else if p.contract.business.verified.Some?
           && !(material.Checked?
                && p.context_verification == Some(Verification(p.contract.business.verified.value, material.evidence)))
      then Err(MaterialConflict)
      else Ok(Revision(t.(phase := Claimed, claimed_tool_use_id := Some(toolUseId), claimed_at := Some(now), updated_at := now),
                       ClaimedResult))
  }

  /** `taken` says another open record already owns the submitted target. */
  function ReviseConfirm(t: Task, ref: string, target: string, taken: bool, now: int): Result<Revision, Error> {
    if t.task_ref != ref then EnterReconcile(t, DispatchIdentityMismatch, now)
    else
      match t.phase
      case Closed => if t.target == Some(target) then Ok(Revision(t, AlreadyClosed)) else Err(Conflict)
      case Reconcile => Ok(Revision(t, ReconcileResult))
      case Prepared => EnterReconcile(t, DispatchClaimMissing, now)
      case Claimed =>
        if taken then EnterReconcile(t, DispatchTargetAlreadyBound, now)
        else Ok(Revision(Cleared(t, Bound, now).(target := Some(target), bound_at := Some(now)), BoundResult))
      case _ =>
        if t.target == Some(target) then Ok(Revision(t, AlreadyBound))
        else EnterReconcile(t, DispatchTargetConflict, now)
  }

  const DISPATCH_FAILED := "dispatch_failed_not_created"

  function ReviseDispatchResult(t: Task, result: Word, now: int): Result<Revision, Error> {
    if t.phase != Prepared && t.phase != Claimed then Err(Conflict)
    else if result == Failed then
      Ok(Revision(Cleared(t, Closed, now).(close_reason := Some(DISPATCH_FAILED), closed_at := Some(now)), ClosedResult))
    else
      Ok(Revision(Cleared(t, Reconcile, now).(reconcile := Some(ReconcileFact(DispatchResultUnknown, now))), ReconcileResult))
  }

  // ----- preparing ---------------------------------------------------------------------------

  /** A generated task id with the hexadecimal digest its references are cut from. */
  datatype Candidate = Candidate(id: string, hex: Sha256Hex)

  datatype Request = Request(
    contract: Contract, native_interface: string, first: Candidate, second: Candidate, material: Material, created_at: int)

  function OccupiedRefs(l: Ledger): set<string> { set id | id in l :: l[id].task_ref }

  /** One turn of the id loop: nothing, or an unused id with an unused reference. */
  function TryCandidate(l: Ledger, c: Candidate): Option<(string, string)> {
    if c.id in l then None
    else
      match SelectTaskRef(c.hex, OccupiedRefs(l))
      case Some(ref) => Some((c.id, ref))
      case None => None
  }

  /** Two candidates at most; an ill-formed id ends the attempt. */
  function ChooseIdentity(l: Ledger, first: Candidate, second: Candidate): Option<(string, string)> {
    if !Text(first.id, 256) then None
    else if TryCandidate(l, first).Some? then TryCandidate(l, first)
    else if !Text(second.id, 256) then None
    else TryCandidate(l, second)
  }

  function Verify(c: Contract, m: Material): Option<Verification> {
    match c.business.verified
    case None => None
    case Some(manifest) => if m.Checked? then Some(Verification(manifest, m.evidence)) else None
  }

  function InitialTaskRecord(ref: string, c: Contract, taskName: string, v: Option<Verification>, createdAt: int,
                             nativeInterface: string, expiresAt: int): Task {
    Task(ref, nativeInterface, Prepared, ContractDigest(c), c.business, createdAt, createdAt,
         Some(Capability(c, v, ExpectedNativeParameters(c.spawn, taskName, RenderDispatchPrompt(c, v)), OfSpawn(c.spawn), expiresAt)),
         None, None, None, None, None, None, None, None, None, None, None)
  }

  predicate Admissible(r: Request) {
    && ValidContract(r.contract) && ValidNativeSpawn(r.native_interface, r.contract.spawn)
    && (r.contract.business.verified.Some? ==> r.material.Checked?)
    && r.created_at >= 0
  }

  /** The record prepared for a chosen identity. */
  function PreparedRecord(r: Request, ref: string): Result<Task, string> {
    match BuildTaskName(r.contract.business.profile, NormalizeSemanticName(r.contract.business.objective), ref)
    case Err(e) => Err(e)
    case Ok(taskName) =>
      Ok(InitialTaskRecord(ref, r.contract, taskName, Verify(r.contract, r.material), r.created_at, r.native_interface,
                           r.created_at + PREPARED_EXPIRY_SECONDS))
  }

  // ----- the ledger --------------------------------------------------------------------------

  datatype Op =
    | Prepare(request: Request)
    | Claim(ref: string, toolUseId: string, input: ToolInput, now: int, material: Material)
    | Confirm(id: string, ref: string, target: string, now: int)
    | DispatchResult(id: string, ref: string, result: Word, now: int)
    | Learn(id: string, ref: string, target: string, evidence: Evidence, now: int)
    | Close(id: string, ref: string, reason: string, now: int)

  datatype Step = Step(ledger: Ledger, result: ResultWord)

  function RefHolders(l: Ledger, ref: string): set<string> { set id | id in l && l[id].task_ref == ref }

  /** The record with a reference; a claim goes on only when it is the only one. */
  ghost function Holder(l: Ledger, ref: string): (id: string)
    requires |RefHolders(l, ref)| == 1
    ensures id in l && l[id].task_ref == ref
  {
    var id :| id in RefHolders(l, ref);
    id
  }

  predicate ValidToolUseId(s: string) { Strip(s) != "" && |s| <= 1024 }

  /** Whether another record owns the target. */
  ghost predicate TargetTaken(l: Ledger, id: string, target: string) {
    exists owner <- l :: owner != id && Owns(l[owner], target)
  }

  /** A certain normal call result is answered from a read, without a write. */
  predicate IsReadOnly(e: Evidence) { e.CallReturned? && e.result != Unknown }

  predicate ValidIdentityInput(id: string, ref: string) { Text(id, 256) && Text(ref, 20) }

  ghost function Store(l: Ledger, id: string, revised: Result<Revision, Error>): Result<Step, Error> {
    match revised
    case Err(e) => Err(e)
    case Ok(rev) => Ok(Step(l[id := rev.task], rev.result))
  }

  ghost function StoreThenPrune(l: Ledger, id: string, revised: Result<Revision, Error>): Result<Step, Error> {
    match revised
    case Err(e) => Err(e)
    case Ok(rev) => Ok(Step(Prune(l[id := rev.task], NoPressure()), rev.result))
  }

  ghost function ApplyPrepare(l: Ledger, r: Request, bytes: Ledger -> nat): Result<Step, Error> {
    if !Admissible(r) then Err(PreparationFailed)
    else
      match ChooseIdentity(l, r.first, r.second)
      case None => Err(PreparationFailed)
      case Some(identity) =>
        match PreparedRecord(r, identity.1)
        case Err(_) => Err(PreparationFailed)
        case Ok(record) => Ok(Step(Prune(l[identity.0 := record], Pressure(bytes)), PreparedResult))
  }

  /** What a command's callback makes of a ledger; `Err` leaves the stored ledger alone. */
  ghost function Apply(l: Ledger, op: Op, bytes: Ledger -> nat): Result<Step, Error> {
    match op
    case Prepare(r) => ApplyPrepare(l, r, bytes)
    case Claim(ref, toolUseId, input, now, material) =>
      if now < 0 then Err(InvalidInput)
      else if !ValidToolUseId(toolUseId) then Err(Conflict)
      else
        var p := Prune(l, NoPressure());
        if |RefHolders(p, ref)| != 1 then Err(Conflict)
        else
          Store(p, Holder(p, ref), ReviseClaim(p[Holder(p, ref)], toolUseId, input, now, material))
    case Confirm(id, ref, target, now) =>
      if !ValidIdentityInput(id, ref) || !Text(target, 1024) || now < 0 then Err(InvalidInput)
      else
        var p := Prune(l, NoPressure());
        if id !in p then Err(Conflict)
        else Store(p, id, ReviseConfirm(p[id], ref, target, TargetTaken(p, id, target), now))
    case DispatchResult(id, ref, result, now) =>
      if !ValidIdentityInput(id, ref) || (result != Failed && result != Unknown) || now < 0 then Err(InvalidInput)
      else if id !in l || l[id].task_ref != ref then Err(Conflict)
      else StoreThenPrune(l, id, ReviseDispatchResult(l[id], result, now))
    case Learn(id, ref, target, evidence, now) =>
      if !ValidIdentityInput(id, ref) || !Text(target, 1024) || !IsEvidence(evidence) || (!IsReadOnly(evidence) && now < 0)
      then Err(InvalidInput)
      else if id !in l || l[id].task_ref != ref || l[id].target != Some(target) then Err(Conflict)
      else if IsReadOnly(evidence) then
        if l[id].phase == Bound then Ok(Step(l, Echo(evidence.result))) else Err(Conflict)
      else StoreThenPrune(l, id, ReviseEvidence(l[id], evidence, now))
    case Close(id, ref, reason, now) =>
      if !ValidIdentityInput(id, ref) || !Text(reason, 1024) || now < 0 then Err(InvalidInput)
      else if id !in l || l[id].task_ref != ref then Err(Conflict)
      else StoreThenPrune(l, id, ReviseClose(l[id], reason, now))
  }
}
