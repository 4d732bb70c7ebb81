/** scripts/governance_state.py: the strict validator every read and write goes through. It
    compares sets of present fields and scans the ledger once; here it is shown to report
    nothing exactly on the well-formed ledgers. */
module Validator {
  import opened Basics
  import opened TaskNames
  import opened NativeSpawn
  import opened Contracts
  import opened Records

  datatype Field =
    | FPrepared | FClaimedToolUseId | FClaimedAt | FTarget | FBoundAt | FPlatformObservation
    | FTerminalFact | FInterruptFact | FUnknownFacts | FReconcile | FCloseReason | FClosedAt

  datatype Issue =
    | TooManyTasks
    | Malformed(task_id: string, at: string)
    | RefTaken(task_id: string, ref: string)
    | TargetTaken(task_id: string, owner: string)

  predicate Has(t: Task, f: Field) {
    match f
    case FPrepared => t.prepared.Some?
    case FClaimedToolUseId => t.claimed_tool_use_id.Some?
    case FClaimedAt => t.claimed_at.Some?
    case FTarget => t.target.Some?
    case FBoundAt => t.bound_at.Some?
    case FPlatformObservation => t.platform_observation.Some?
    case FTerminalFact => t.terminal_fact.Some?
    case FInterruptFact => t.interrupt_fact.Some?
    case FUnknownFacts => t.unknown_facts.Some?
    case FReconcile => t.reconcile.Some?
    case FCloseReason => t.close_reason.Some?
    case FClosedAt => t.closed_at.Some?
  }

  /** PHASE_FIELDS. */
  function Required(p: Phase): set<Field> {
    match p
    case Prepared => {FPrepared}
    case Claimed => {FPrepared, FClaimedToolUseId, FClaimedAt}
    case Bound => {FTarget, FBoundAt}
    case Terminal => {FTarget, FBoundAt, FTerminalFact}
    case Closed => {FCloseReason, FClosedAt}
    case Reconcile => {FReconcile}
  }

  /** OPTIONAL_PHASE_FIELDS. */
  function Optional(p: Phase): set<Field> {
    match p
    case Prepared => {}
    case Claimed => {}
    case Bound => {FPlatformObservation, FInterruptFact, FUnknownFacts}
    case Terminal => {FPlatformObservation, FInterruptFact, FUnknownFacts}
    case Closed => {FTarget, FBoundAt, FPlatformObservation, FTerminalFact, FInterruptFact, FUnknownFacts, FReconcile}
    case Reconcile => {FTarget, FBoundAt, FPlatformObservation, FTerminalFact, FInterruptFact, FUnknownFacts}
  }

  predicate Missing(t: Task, f: Field) { f in Required(t.phase) && !Has(t, f) }

  predicate Foreign(t: Task, f: Field) { Has(t, f) && f !in Required(t.phase) && f !in Optional(t.phase) }

  predicate FieldsFitByPhase(t: Task) {
    match t.phase
    case Prepared => NoEvidence(t) && NotClosed(t) && t.claimed_tool_use_id.None? && t.claimed_at.None? && t.prepared.Some?
    case Claimed => NoEvidence(t) && NotClosed(t) && t.prepared.Some? && t.claimed_tool_use_id.Some? && t.claimed_at.Some?
    case Bound => NoCapability(t) && NotClosed(t) && t.target.Some? && t.bound_at.Some? && t.terminal_fact.None? && t.reconcile.None?
    case Terminal => NoCapability(t) && NotClosed(t) && t.target.Some? && t.bound_at.Some? && t.terminal_fact.Some? && t.reconcile.None?
    case Reconcile => NoCapability(t) && NotClosed(t) && t.reconcile.Some?
    case Closed => NoCapability(t) && t.close_reason.Some? && t.closed_at.Some?
  }

  predicate Fits(t: Task, f: Field) { !Missing(t, f) && !Foreign(t, f) }

  lemma FieldByField(t: Task)
    ensures (forall f: Field :: Fits(t, f)) <==>
            && Fits(t, FPrepared) && Fits(t, FClaimedToolUseId) && Fits(t, FClaimedAt) && Fits(t, FTarget)
            && Fits(t, FBoundAt) && Fits(t, FPlatformObservation) && Fits(t, FTerminalFact) && Fits(t, FInterruptFact)
            && Fits(t, FUnknownFacts) && Fits(t, FReconcile) && Fits(t, FCloseReason) && Fits(t, FClosedAt)
  {
    if Fits(t, FPrepared) && Fits(t, FClaimedToolUseId) && Fits(t, FClaimedAt) && Fits(t, FTarget)
       && Fits(t, FBoundAt) && Fits(t, FPlatformObservation) && Fits(t, FTerminalFact) && Fits(t, FInterruptFact)
       && Fits(t, FUnknownFacts) && Fits(t, FReconcile) && Fits(t, FCloseReason) && Fits(t, FClosedAt) {
      forall f: Field ensures Fits(t, f) {
        match f
        case FPrepared => case FClaimedToolUseId => case FClaimedAt => case FTarget => case FBoundAt =>
        case FPlatformObservation => case FTerminalFact => case FInterruptFact => case FUnknownFacts =>
        case FReconcile => case FCloseReason => case FClosedAt =>
      }
    }
  }

  ghost predicate EveryFieldFits(t: Task) { forall f: Field :: Fits(t, f) }

  lemma CapabilityPhaseTables(t: Task)
    requires t.phase == Prepared || t.phase == Claimed
    ensures EveryFieldFits(t) <==> FieldsFitByPhase(t)
  {
    FieldByField(t);
  }

  lemma BoundPhaseTables(t: Task)
    requires t.phase == Bound || t.phase == Terminal
    ensures EveryFieldFits(t) <==> FieldsFitByPhase(t)
  {
    FieldByField(t);
  }

  lemma LastPhaseTables(t: Task)
    requires t.phase == Reconcile || t.phase == Closed
    ensures EveryFieldFits(t) <==> FieldsFitByPhase(t)
  {
    FieldByField(t);
  }

  /** The phase tables allow exactly the shapes described phase by phase. */
  lemma PhaseTables(t: Task)
    ensures EveryFieldFits(t) <==> FieldsFitByPhase(t)
  {
    match t.phase
    case Prepared => CapabilityPhaseTables(t);
    case Claimed => CapabilityPhaseTables(t);
    case Bound => BoundPhaseTables(t);
    case Terminal => BoundPhaseTables(t);
    case Reconcile => LastPhaseTables(t);
    case Closed => LastPhaseTables(t);
  }

  /** The capability's own fields, and how they fit the record around it. */
  predicate CapabilityParts(p: Capability) {
    && ValidContract(p.contract)
    && p.spawn_digest == OfSpawn(p.contract.spawn)
    && VerificationFits(p) && ExpectedFits(p) && p.expires_at >= 0
  }

  predicate VerificationFits(p: Capability) {
    match p.contract.business.verified
    case None => p.context_verification.None?
    case Some(m) => p.context_verification.Some? && p.context_verification.value.manifest == m
  }

  predicate ExpectedFits(p: Capability) {
    var expected := p.expected_native_parameters;
    && expected.task_name.Some? && Text(expected.task_name.value, TASK_NAME_MAX_LENGTH) && Text(expected.message, MAX_MESSAGE)
    && expected.fork_turns == p.contract.spawn.fork_turns && expected.model == Lift(p.contract.spawn.model)
    && expected.reasoning_effort == Lift(p.contract.spawn.reasoning_effort)
  }

  method ValidateExpected(id: string, p: Capability) returns (issues: seq<Issue>)
    ensures issues == [] <==> ExpectedFits(p)
    ensures forall i <- issues :: i.Malformed?
  {
    issues := [];
    var expected := p.expected_native_parameters;
    if expected.task_name.None? || !Text(expected.task_name.value, TASK_NAME_MAX_LENGTH) || !Text(expected.message, MAX_MESSAGE) {
      issues := issues + [Malformed(id, "prepared.expected_native_parameters")];
    }
    if expected.fork_turns != p.contract.spawn.fork_turns {
      issues := issues + [Malformed(id, "prepared.expected_native_parameters.fork_turns")];
    }
    if expected.model != Lift(p.contract.spawn.model) {
      issues := issues + [Malformed(id, "prepared.expected_native_parameters.model")];
    }
    if expected.reasoning_effort != Lift(p.contract.spawn.reasoning_effort) {
      issues := issues + [Malformed(id, "prepared.expected_native_parameters.reasoning_effort")];
    }
  }

  /** `_validate_prepared`. */
  method ValidatePrepared(id: string, p: Capability) returns (issues: seq<Issue>)
    ensures issues == [] <==> CapabilityParts(p)
    ensures forall i <- issues :: i.Malformed?
  {
    issues := [];
    if !ValidContract(p.contract) {
      return [Malformed(id, "prepared.contract")];
    }
    if p.spawn_digest != OfSpawn(p.contract.spawn) {
      issues := issues + [Malformed(id, "prepared.spawn_digest")];
    }
    if !VerificationFits(p) {
      issues := issues + [Malformed(id, "prepared.context_verification")];
    }
    var expected := ValidateExpected(id, p);
    issues := issues + expected;
    if p.expires_at < 0 {
      issues := issues + [Malformed(id, "prepared.expires_at")];
    }
  }

  /** `_validate_prepared`, then the checks on the surrounding record. */
  method ValidateCapability(id: string, t: Task, p: Capability) returns (issues: seq<Issue>)
    ensures issues == [] <==> ValidCapability(t, p)
    ensures forall i <- issues :: i.Malformed?
  {
    issues := ValidatePrepared(id, p);
    if !ValidContract(p.contract) {
      return;
    }
    if t.contract_digest != ContractDigest(p.contract) {
      issues := issues + [Malformed(id, "contract_digest")];
    }
    if t.contract_summary != p.contract.business {
      issues := issues + [Malformed(id, "contract_summary")];
    }
    if !ValidNativeSpawn(t.native_interface, p.contract.spawn) {
      issues := issues + [Malformed(id, "native_interface")];
    }
  }

  /** `_validate_terminal_fact`. */
  method ValidateTerminalFact(id: string, f: TerminalFact) returns (issues: seq<Issue>)
    ensures issues == [] <==> IsTerminalFactStatus(f.status) && f.observed_at >= 0
    ensures forall i <- issues :: i.Malformed?
  {
    issues := if !IsTerminalFactStatus(f.status) || f.observed_at < 0 then [Malformed(id, "terminal_fact")] else [];
  }

  /** `_validate_platform_observation`. */
  method ValidatePlatformObservation(id: string, o: Observation) returns (issues: seq<Issue>)
    ensures issues == [] <==> IsPersistedPlatformStatus(o.status) && o.observed_at >= 0
    ensures forall i <- issues :: i.Malformed?
  {
    issues := if !IsPersistedPlatformStatus(o.status) || o.observed_at < 0 then [Malformed(id, "platform_observation")] else [];
  }

  /** `_validate_interrupt_fact`. */
  method ValidateInterruptFact(id: string, f: InterruptFact) returns (issues: seq<Issue>)
    ensures issues == [] <==> IsPersistedInterruptResult(f.result) && f.observed_at >= 0
    ensures forall i <- issues :: i.Malformed?
  {
    issues := if !IsPersistedInterruptResult(f.result) || f.observed_at < 0 then [Malformed(id, "interrupt_fact")] else [];
  }

  predicate ValidReceipts(t: Task) {
    && (t.terminal_fact.Some? ==> IsTerminalFactStatus(t.terminal_fact.value.status) && t.terminal_fact.value.observed_at >= 0)
    && (t.platform_observation.Some? ==>
          IsPersistedPlatformStatus(t.platform_observation.value.status) && t.platform_observation.value.observed_at >= 0)
    && (t.interrupt_fact.Some? ==>
          IsPersistedInterruptResult(t.interrupt_fact.value.result) && t.interrupt_fact.value.observed_at >= 0)
  }

  method ValidateReceipts(id: string, t: Task) returns (issues: seq<Issue>)
    ensures issues == [] <==> ValidReceipts(t)
    ensures forall i <- issues :: i.Malformed?
  {
    issues := [];
    if t.terminal_fact.Some? {
      issues := ValidateTerminalFact(id, t.terminal_fact.value);
    }
    if t.platform_observation.Some? {
      var found := ValidatePlatformObservation(id, t.platform_observation.value);
      issues := issues + found;
    }
    if t.interrupt_fact.Some? {
      var found := ValidateInterruptFact(id, t.interrupt_fact.value);
      issues := issues + found;
    }
  }

  /** The checks on evidence fields, each made only when its field is present. */
  method ValidateEvidence(id: string, t: Task) returns (issues: seq<Issue>)
    ensures issues == [] <==> ValidEvidence(t) && (t.phase in {Bound, Terminal} ==> IsBoundTo(t))
    ensures forall i <- issues :: i.Malformed?
  {
    issues := [];
    if t.phase in {Bound, Terminal} || t.target.Some? || t.unknown_facts.Some? {
      if t.target.None? || !Text(t.target.value, 1024) || t.bound_at.None? || t.bound_at.value < 0 {
        issues := issues + [Malformed(id, "bound identity facts")];
      }
    }
    var receipts := ValidateReceipts(id, t);
    issues := issues + receipts;
    if t.unknown_facts.Some? {
      var facts := t.unknown_facts.value;
      if facts == map[] || exists c <- facts :: facts[c] < 0 {
        issues := issues + [Malformed(id, "unknown_facts")];
      }
    }
    if t.reconcile.Some? && t.reconcile.value.observed_at < 0 {
      issues := issues + [Malformed(id, "reconcile")];
    }
  }

  /** `_validate_task`: all checks are made, whatever the field-set check has reported. */
  method ValidateTask(id: string, t: Task) returns (issues: seq<Issue>)
    ensures issues == [] <==> Accepted(id, t)
    ensures forall i <- issues :: i.Malformed?
  {
    AcceptedIsValid(id, t);
    issues := [];
    if !Text(id, 256) {
      issues := issues + [Malformed(id, "task key")];
    }
    var fields := ValidateFields(id, t);
    issues := issues + fields;
    var identity := ValidateIdentity(id, t);
    issues := issues + identity;
    var facts := ValidatePhaseFacts(id, t);
    issues := issues + facts;
    var evidence := ValidateEvidence(id, t);
    issues := issues + evidence;
  }

  method ValidateFields(id: string, t: Task) returns (issues: seq<Issue>)
    ensures issues == [] <==> FieldsFitByPhase(t)
    ensures forall i <- issues :: i.Malformed?
  {
    PhaseTables(t);
    issues := [];
    if exists f: Field :: Missing(t, f) {
      issues := issues + [Malformed(id, "missing fields")];
    }
    if exists f: Field :: Foreign(t, f) {
      issues := issues + [Malformed(id, "unknown fields")];
    }
  }

  method ValidateIdentity(id: string, t: Task) returns (issues: seq<Issue>)
    ensures issues == [] <==> ValidIdentity(t)
    ensures forall i <- issues :: i.Malformed?
  {
    issues := [];
    if !IsTaskRef(t.task_ref) {
      issues := issues + [Malformed(id, "task_ref")];
    }
    if !IsInterface(t.native_interface) {
      issues := issues + [Malformed(id, "native_interface")];
    }
    if !ValidBusiness(t.contract_summary) {
      issues := issues + [Malformed(id, "contract_summary")];
    } else if t.contract_digest != OfBusiness(t.contract_summary) {
      issues := issues + [Malformed(id, "contract_digest")];
    }
    if t.created_at < 0 || t.updated_at < 0 || t.updated_at < t.created_at {
      issues := issues + [Malformed(id, "created_at/updated_at")];
    }
  }

  predicate PhaseFacts(t: Task) {
    && (t.phase in {Prepared, Claimed} ==> t.prepared.Some? && ValidCapability(t, t.prepared.value))
    && (t.phase == Claimed ==>
          && t.claimed_tool_use_id.Some? && Text(t.claimed_tool_use_id.value, 1024)
          && t.claimed_at.Some? && t.claimed_at.value >= 0)
    && (t.phase == Closed ==>
          t.close_reason.Some? && Text(t.close_reason.value, 1024) && t.closed_at.Some? && t.closed_at.value >= 0)
  }

  method ValidatePhaseFacts(id: string, t: Task) returns (issues: seq<Issue>)
    ensures issues == [] <==> PhaseFacts(t)
    ensures forall i <- issues :: i.Malformed?
  {
    issues := [];
    if t.phase in {Prepared, Claimed} {
      if t.prepared.None? {
        issues := [Malformed(id, "prepared")];
      } else {
        issues := ValidateCapability(id, t, t.prepared.value);
      }
    }
    if t.phase == Claimed {
      if t.claimed_tool_use_id.None? || !Text(t.claimed_tool_use_id.value, 1024)
         || t.claimed_at.None? || t.claimed_at.value < 0 {
        issues := issues + [Malformed(id, "claimed facts")];
      }
    }
    if t.phase == Closed {
      if t.close_reason.None? || !Text(t.close_reason.value, 1024) || t.closed_at.None? || t.closed_at.value < 0 {
        issues := issues + [Malformed(id, "close facts")];
      }
    }
  }

  // ----- the one-pass scan of the ledger -------------------------------------------

  ghost predicate Clash(l: Ledger, a: string, b: string) {
    a in l && b in l && a != b && OwnsTarget(l[a]) && OwnsTarget(l[b]) && l[a].target.Some? && l[a].target == l[b].target
  }

  ghost predicate RefClash(l: Ledger, seen: set<string>) {
    exists a <- seen, b <- seen :: a in l && b in l && a != b && l[a].task_ref == l[b].task_ref
  }

  ghost predicate TargetClash(l: Ledger, seen: set<string>) {
    exists a <- seen, b <- seen :: Clash(l, a, b)
  }

  /** `refs` after the records `seen`. */
  ghost predicate RefsScanned(l: Ledger, seen: set<string>, refs: set<string>) {
    forall r :: r in refs <==> exists id <- seen :: id in l && l[id].task_ref == r
  }

  /** `targets` after the records `seen`. */
  ghost predicate TargetsScanned(l: Ledger, seen: set<string>, targets: map<string, string>) {
    && (forall x <- targets :: targets[x] in seen && targets[x] in l && Owns(l[targets[x]], x))
    && (forall id <- seen :: id in l && OwnsTarget(l[id]) && l[id].target.Some? ==> l[id].target.value in targets)
  }

  ghost predicate Scanned(l: Ledger, seen: set<string>, refs: set<string>, targets: map<string, string>) {
    RefsScanned(l, seen, refs) && TargetsScanned(l, seen, targets)
  }

  lemma ScanRef(l: Ledger, seen: set<string>, refs: set<string>, targets: map<string, string>, id: string)
    requires Scanned(l, seen, refs, targets) && id in l && id !in seen
    ensures RefClash(l, seen + {id}) <==> RefClash(l, seen) || l[id].task_ref in refs
  {
  }

  lemma ScanTarget(l: Ledger, seen: set<string>, refs: set<string>, targets: map<string, string>, id: string)
    requires Scanned(l, seen, refs, targets) && id in l && id !in seen
    ensures TargetClash(l, seen + {id})
            <==> TargetClash(l, seen) || (OwnsTarget(l[id]) && l[id].target.Some? && l[id].target.value in targets)
  {
  }

  ghost predicate SomeMalformed(issues: seq<Issue>) { exists i <- issues :: i.Malformed? }
  ghost predicate SomeRefTaken(issues: seq<Issue>) { exists i <- issues :: i.RefTaken? }
  ghost predicate SomeTargetTaken(issues: seq<Issue>) { exists i <- issues :: i.TargetTaken? }

  lemma IssuesConcat(a: seq<Issue>, b: seq<Issue>)
    ensures SomeMalformed(a + b) <==> SomeMalformed(a) || SomeMalformed(b)
    ensures SomeRefTaken(a + b) <==> SomeRefTaken(a) || SomeRefTaken(b)
    ensures SomeTargetTaken(a + b) <==> SomeTargetTaken(a) || SomeTargetTaken(b)
    ensures TooManyTasks in a + b <==> TooManyTasks in a || TooManyTasks in b
  {
  }

  /** A reported ownership issue names two records that really share a target. */
  ghost predicate TruthfulOwnership(l: Ledger, issues: seq<Issue>) {
    forall i <- issues :: i.TargetTaken? ==> Clash(l, i.task_id, i.owner)
  }

  ghost predicate ScanInvariant(l: Ledger, seen: set<string>, issues: seq<Issue>) {
    && (TooManyTasks in issues <==> |l| > MAX_TASKS_PER_SESSION)
    && (SomeMalformed(issues) <==> !AllValid(l, seen))
    && (SomeRefTaken(issues) <==> RefClash(l, seen))
    && (SomeTargetTaken(issues) <==> TargetClash(l, seen))
    && TruthfulOwnership(l, issues)
  }

  ghost predicate AllValid(l: Ledger, seen: set<string>) {
    forall id <- seen :: id in l && Accepted(id, l[id])
  }

  predicate TargetAlready(t: Task, targets: map<string, string>) {
    OwnsTarget(t) && t.target.Some? && t.target.value in targets
  }

  lemma ScanStep(l: Ledger, seen: set<string>, refs: set<string>, targets: map<string, string>, id: string,
                 issues: seq<Issue>, found: seq<Issue>)
    requires Scanned(l, seen, refs, targets) && id in l && id !in seen && ScanInvariant(l, seen, issues)
    requires SomeMalformed(found) <==> !Accepted(id, l[id])
    requires SomeRefTaken(found) <==> l[id].task_ref in refs
    requires SomeTargetTaken(found) <==> TargetAlready(l[id], targets)
    requires TooManyTasks !in found && TruthfulOwnership(l, found)
    ensures ScanInvariant(l, seen + {id}, issues + found)
  {
    ScanRef(l, seen, refs, targets, id);
    ScanTarget(l, seen, refs, targets, id);
    IssuesConcat(issues, found);
    assert AllValid(l, seen + {id}) <==> AllValid(l, seen) && Accepted(id, l[id]);
  }

  /** One turn of the loop: the record's own issues, then the two look-ups. */
  method ScanTask(l: Ledger, ghost seen: set<string>, refs: set<string>, targets: map<string, string>, id: string)
    returns (found: seq<Issue>)
    requires Scanned(l, seen, refs, targets) && id in l && id !in seen
    ensures SomeMalformed(found) <==> !Accepted(id, l[id])
    ensures SomeRefTaken(found) <==> l[id].task_ref in refs
    ensures SomeTargetTaken(found) <==> TargetAlready(l[id], targets)
    ensures TooManyTasks !in found && TruthfulOwnership(l, found)
  {
    var t := l[id];
    var own := ValidateTask(id, t);
    if own != [] { assert own[0] in own; }
    var refIssues := if t.task_ref in refs then [RefTaken(id, t.task_ref)] else [];
    if t.task_ref in refs { assert RefTaken(id, t.task_ref) in refIssues; }
    var targetIssues := if TargetAlready(t, targets) then [TargetTaken(id, targets[t.target.value])] else [];
    if TargetAlready(t, targets) { assert TargetTaken(id, targets[t.target.value]) in targetIssues; }
    IssuesConcat(own, refIssues);
    IssuesConcat(own + refIssues, targetIssues);
    found := own + refIssues + targetIssues;
  }

  /** The first record seen with a target is noted as its owner. */
  function Noted(t: Task, id: string, targets: map<string, string>): map<string, string> {
    if OwnsTarget(t) && t.target.Some? && t.target.value !in targets then targets[t.target.value := id] else targets
  }

  lemma RefsGrow(l: Ledger, seen: set<string>, refs: set<string>, id: string)
    requires RefsScanned(l, seen, refs) && id in l && id !in seen
    ensures RefsScanned(l, seen + {id}, refs + {l[id].task_ref})
  {
  }

  lemma TargetsGrow(l: Ledger, seen: set<string>, targets: map<string, string>, id: string)
    requires TargetsScanned(l, seen, targets) && id in l && id !in seen
    ensures TargetsScanned(l, seen + {id}, Noted(l[id], id, targets))
  {
  }

  ghost predicate ScanState(l: Ledger, seen: set<string>, refs: set<string>, targets: map<string, string>, issues: seq<Issue>) {
    Scanned(l, seen, refs, targets) && ScanInvariant(l, seen, issues)
  }

  lemma ScanOn(l: Ledger, seen: set<string>, refs: set<string>, targets: map<string, string>, id: string,
               issues: seq<Issue>, found: seq<Issue>)
    requires ScanState(l, seen, refs, targets, issues) && id in l && id !in seen
    requires SomeMalformed(found) <==> !Accepted(id, l[id])
    requires SomeRefTaken(found) <==> l[id].task_ref in refs
    requires SomeTargetTaken(found) <==> TargetAlready(l[id], targets)
    requires TooManyTasks !in found && TruthfulOwnership(l, found)
    ensures ScanState(l, seen + {id}, refs + {l[id].task_ref}, Noted(l[id], id, targets), issues + found)
  {
    ScanStep(l, seen, refs, targets, id, issues, found);
    RefsGrow(l, seen, refs, id);
    TargetsGrow(l, seen, targets, id);
  }

  method ScanNext(l: Ledger, ghost seen: set<string>, refs: set<string>, targets: map<string, string>, issues: seq<Issue>, id: string)
    returns (issues': seq<Issue>, refs': set<string>, targets': map<string, string>)
    requires ScanState(l, seen, refs, targets, issues) && id in l && id !in seen
    ensures ScanState(l, seen + {id}, refs', targets', issues')
  {
    var found := ScanTask(l, seen, refs, targets, id);
    ScanOn(l, seen, refs, targets, id, issues, found);
    issues' := issues + found;
    refs' := refs + {l[id].task_ref};
    targets' := Noted(l[id], id, targets);
  }

  /** `validate_current_state_format` on the task map. The dictionary is walked in an
      arbitrary order; one set and one dictionary suffice to see every clash, and every
      reported clash names two records that really clash. */
  method ValidateCurrentStateFormat(l: Ledger) returns (issues: seq<Issue>)
    ensures issues == [] <==> ValidLedger(l)
    ensures SomeRefTaken(issues) <==> !UniqueRefs(l)
    ensures SomeTargetTaken(issues) <==> !ExclusiveTargets(l)
    ensures TruthfulOwnership(l, issues)
  {
    issues := ScanTasks(l);
    ScanComplete(l, issues);
  }

  method ScanTasks(l: Ledger) returns (issues: seq<Issue>)
    ensures ScanInvariant(l, l.Keys, issues)
  {
    issues := if |l| > MAX_TASKS_PER_SESSION then [TooManyTasks] else [];
    var refs: set<string> := {};
    var targets: map<string, string> := map[];
    ghost var seen: set<string> := {};
    var rest := l.Keys;
    ScanStart(l);
    while rest != {}
      invariant seen + rest == l.Keys && seen !! rest
      invariant ScanState(l, seen, refs, targets, issues)
      decreases |rest|
    {
      var id :| id in rest;
      issues, refs, targets := ScanNext(l, seen, refs, targets, issues, id);
      seen := seen + {id};
      rest := rest - {id};
    }
    assert seen == l.Keys;
  }

  lemma ScanStart(l: Ledger)
    ensures ScanInvariant(l, {}, if |l| > MAX_TASKS_PER_SESSION then [TooManyTasks] else [])
  {
  }

  lemma ScanComplete(l: Ledger, issues: seq<Issue>)
    requires ScanInvariant(l, l.Keys, issues)
    ensures issues == [] <==> ValidLedger(l)
    ensures SomeRefTaken(issues) <==> !UniqueRefs(l)
    ensures SomeTargetTaken(issues) <==> !ExclusiveTargets(l)
    ensures TruthfulOwnership(l, issues)
  {
    NoClash(l);
    AnyIssue(issues);
  }

  lemma NoClash(l: Ledger)
    ensures UniqueRefs(l) <==> !RefClash(l, l.Keys)
    ensures ExclusiveTargets(l) <==> !TargetClash(l, l.Keys)
  {
  }

  lemma AnyIssue(issues: seq<Issue>)
    ensures issues == [] <==> !SomeMalformed(issues) && !SomeRefTaken(issues) && !SomeTargetTaken(issues) && TooManyTasks !in issues
  {
    if issues != [] {
      var i := issues[0];
      assert i in issues;
    }
  }
}
