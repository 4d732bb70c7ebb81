/** scripts/governance_dispatch.py and governance_protocol.py: preparing, claiming and
    confirming a dispatch, as the callbacks the store runs. */
module Dispatch {
  import opened Basics
  import opened TaskNames
  import opened NativeSpawn
  import opened Contracts
  import opened Records
  import opened Retention
  import opened Transitions
  import opened Lifecycle

  /** How far a claim got: only after the last assignment is it at `Commit`. */
  datatype Stage = State | Validation | MaterialStage | Commit

  /** `_find_by_ref`. */
  method FindByRef(l: Ledger, ref: string) returns (found: Option<string>)
    ensures found.Some? <==> |RefHolders(l, ref)| == 1
    ensures found.Some? ==> RefHolders(l, ref) == {found.value}
  {
    var matches := RefHolders(l, ref);
    if |matches| != 1 {
      return None;
    }
    var id :| id in matches;
    OnlyElement(matches, id);
    found := Some(id);
  }

  lemma OnlyElement(s: set<string>, x: string)
    requires |s| == 1 && x in s
    ensures s == {x}
  {
    assert |s - {x}| == 0;
    assert s == {x} + (s - {x});
  }

  /** `claim_spawn`, the callback. It fails at a stage before `Commit`, or finishes there. */
  method ClaimSpawn(state: SessionState, ref: string, toolUseId: string, input: ToolInput, now: int, material: Material,
                    ghost bytes: Ledger -> nat)
    returns (r: Result<ResultWord, Error>, stage: Stage)
    modifies state
    ensures Agrees(Apply(old(state.tasks), Claim(ref, toolUseId, input, now, material), bytes), r, state.tasks)
    ensures r.Ok? <==> stage == Commit
    ensures stage == MaterialStage <==> r.Err? && r.error in {MaterialConflict, MaterialUnavailable}
  {
    stage := State;
    if now < 0 {
      return Err(InvalidInput), stage;
    }
    if Strip(toolUseId) == "" || |toolUseId| > 1024 {
      return Err(Conflict), stage;
    }
    stage := Validation;
    var _ := PruneClosedTasks(state, NoPressure());
    var found := FindByRef(state.tasks, ref);
    if found.None? {
      return Err(Conflict), stage;
    }
    r, stage := ClaimRecord(state, found.value, toolUseId, input, now, material);
  }

  method ClaimRecord(state: SessionState, id: string, toolUseId: string, input: ToolInput, now: int, material: Material)
    returns (r: Result<ResultWord, Error>, stage: Stage)
    requires id in state.tasks
    modifies state
    ensures Agrees(Store(old(state.tasks), id, ReviseClaim(old(state.tasks)[id], toolUseId, input, now, material)), r, state.tasks)
    ensures r.Ok? <==> stage == Commit
    ensures stage == MaterialStage <==> r.Err? && r.error in {MaterialConflict, MaterialUnavailable}
  {
    stage := Validation;
    var task := state.tasks[id];
    if task.prepared.None? {
      return Err(Conflict), stage;
    }
    var capability := task.prepared.value;
    if task.phase == Claimed {
      if task.claimed_tool_use_id == Some(toolUseId) {
        var again := ClaimParametersMatch(task.native_interface, input, capability.expected_native_parameters);
        if again.Err? {
          return Err(MatchError(again.error)), stage;
        }
        if !again.value {
          return Err(Conflict), stage;
        }
        return Ok(AlreadyClaimed), Commit;
      }
      return Err(Conflict), stage;
    }
    if task.phase != Prepared {
      return Err(Conflict), stage;
    }
    if capability.expires_at <= now {
      return Err(Expired), stage;
    }
    var same := ClaimParametersMatch(task.native_interface, input, capability.expected_native_parameters);
    if same.Err? {
      return Err(MatchError(same.error)), stage;
    }
    if !same.value {
      return Err(Conflict), stage;
    }
    if !ValidContract(capability.contract) {
      return Err(Malformed), stage;
    }
    var manifest := capability.contract.business.verified;
    if manifest.Some? {
      stage := MaterialStage;
      match material {
        case Unreachable => return Err(MaterialUnavailable), stage;
        case Differs => return Err(MaterialConflict), stage;
        case Checked(evidence) =>
          if capability.context_verification != Some(Verification(manifest.value, evidence)) {
            return Err(MaterialConflict), stage;
          }
      }
    }
    task := task.(phase := Claimed);
    task := task.(claimed_tool_use_id := Some(toolUseId));
    task := task.(claimed_at := Some(now));
    task := task.(updated_at := now);
    state.tasks := state.tasks[id := task];
    r, stage := Ok(ClaimedResult), Commit;
  }

  /** The scan of `confirm_dispatch` for another open record that owns the target. */
  method OwnedElsewhere(l: Ledger, id: string, target: string) returns (owner: Option<string>)
    ensures owner.Some? <==> TargetTaken(l, id, target)
    ensures owner.Some? ==> owner.value in l && owner.value != id && Owns(l[owner.value], target)
  {
    owner := None;
    var rest := l.Keys;
    while rest != {}
      invariant rest <= l.Keys
      invariant forall other <- l.Keys - rest :: other == id || !Owns(l[other], target)
      decreases |rest|
    {
      var other :| other in rest;
      if other != id && Owns(l[other], target) {
        return Some(other);
      }
      rest := rest - {other};
    }
  }

  /** `confirm_dispatch`. */
  method ConfirmDispatch(state: SessionState, id: string, ref: string, target: string, now: int, ghost bytes: Ledger -> nat)
    returns (r: Result<ResultWord, Error>)
    modifies state
    ensures Agrees(Apply(old(state.tasks), Confirm(id, ref, target, now), bytes), r, state.tasks)
  {
    if !Text(id, 256) || !Text(ref, 20) || !Text(target, 1024) || now < 0 {
      return Err(InvalidInput);
    }
    var _ := PruneClosedTasks(state, NoPressure());
    if id !in state.tasks {
      return Err(Conflict);
    }
    r := ConfirmRecord(state, id, ref, target, now);
  }

  method ConfirmRecord(state: SessionState, id: string, ref: string, target: string, now: int) returns (r: Result<ResultWord, Error>)
    requires id in state.tasks
    modifies state
    ensures Agrees(Store(old(state.tasks), id,
                         ReviseConfirm(old(state.tasks)[id], ref, target, TargetTaken(old(state.tasks), id, target), now)),
                   r, state.tasks)
  {
    var task := state.tasks[id];
    if task.task_ref != ref {
      r := EnterReconcileIn(state, id, DispatchIdentityMismatch, now);
      return;
    }
    var phase := task.phase;
    if phase == Closed {
      if task.target != Some(target) {
        return Err(Conflict);
      }
      return Ok(AlreadyClosed);
    }
    if phase in {Bound, Terminal} {
      if task.target == Some(target) {
        return Ok(AlreadyBound);
      }
      r := EnterReconcileIn(state, id, DispatchTargetConflict, now);
      return;
    }
    if phase == Reconcile {
      return Ok(ReconcileResult);
    }
    if phase == Prepared {
      r := EnterReconcileIn(state, id, DispatchClaimMissing, now);
      return;
    }
    var owner := OwnedElsewhere(state.tasks, id, target);
    if owner.Some? {
      r := EnterReconcileIn(state, id, DispatchTargetAlreadyBound, now);
      return;
    }
    task := Cleared(task, Bound, now);
    task := task.(target := Some(target));
    task := task.(bound_at := Some(now));
    state.tasks := state.tasks[id := task];
    r := Ok(BoundResult);
  }

  /** `record_dispatch_result`. */
  method RecordDispatchResult(state: SessionState, id: string, ref: string, result: Word, now: int, ghost bytes: Ledger -> nat)
    returns (r: Result<ResultWord, Error>)
    modifies state
    ensures Agrees(Apply(old(state.tasks), DispatchResult(id, ref, result, now), bytes), r, state.tasks)
  {
    if !Text(id, 256) || !Text(ref, 20) || (result != Failed && result != Unknown) || now < 0 {
      return Err(InvalidInput);
    }
    if id !in state.tasks || state.tasks[id].task_ref != ref {
      return Err(Conflict);
    }
    if state.tasks[id].phase !in {Prepared, Claimed} {
      return Err(Conflict);
    }
    var task := state.tasks[id];
    if result == Failed {
      task := Cleared(task, Closed, now);
      task := task.(close_reason := Some(DISPATCH_FAILED));
      task := task.(closed_at := Some(now));
      r := Ok(ClosedResult);
    } else {
      task := Cleared(task, Reconcile, now);
      task := task.(reconcile := Some(ReconcileFact(DispatchResultUnknown, now)));
      r := Ok(ReconcileResult);
    }
    state.tasks := state.tasks[id := task];
    var _ := PruneClosedTasks(state, NoPressure());
  }

  /** The id loop of `prepare_dispatch`: at most two generated ids. */
  method ChooseIdentityIn(l: Ledger, candidates: seq<Candidate>) returns (chosen: Option<(string, string)>)
    requires |candidates| == 2
    ensures chosen == ChooseIdentity(l, candidates[0], candidates[1])
    ensures chosen.Some? ==> chosen.value.0 !in l && Text(chosen.value.0, 256)
                             && IsTaskRef(chosen.value.1) && chosen.value.1 !in OccupiedRefs(l)
  {
    var occupied := OccupiedRefs(l);
    for i := 0 to 2
      invariant i >= 1 ==> Text(candidates[0].id, 256) && TryCandidate(l, candidates[0]).None?
      invariant i >= 2 ==> Text(candidates[1].id, 256) && TryCandidate(l, candidates[1]).None?
    {
      var candidate := candidates[i];
      if !Text(candidate.id, 256) {
        return None;
      }
      if candidate.id !in l {
        var ref := SelectTaskRef(candidate.hex, occupied);
        if ref.Some? {
          return Some((candidate.id, ref.value));
        }
      }
    }
    chosen := None;
  }

  /** `prepare_dispatch`, the callback: insert the new record, then make room for it. */
  method PrepareDispatch(state: SessionState, request: Request, bytes: Ledger -> nat) returns (r: Result<ResultWord, Error>)
    modifies state
    ensures Agrees(Apply(old(state.tasks), Prepare(request), bytes), r, state.tasks)
  {
    if !Admissible(request) {
      return Err(PreparationFailed);
    }
    var identity := ChooseIdentityIn(state.tasks, [request.first, request.second]);
    if identity.None? {
      return Err(PreparationFailed);
    }
    var (id, ref) := identity.value;
    var record := PreparedRecord(request, ref);
    if record.Err? {
      return Err(PreparationFailed);
    }
    state.tasks := state.tasks[id := record.value];
    var _ := PruneClosedTasks(state, Pressure(bytes));
    r := Ok(PreparedResult);
  }
}
