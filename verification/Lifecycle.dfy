/** scripts/governance_lifecycle.py: the callbacks that record evidence and close tasks, in the
    order of tests and assignments of the source. A callback that fails leaves its state to be
    thrown away by the store, so only its error is specified. */
module Lifecycle {
  import opened Basics
  import opened Contracts
  import opened Records
  import opened Retention
  import opened Transitions

  /** The callback and the transition function agree. */
  ghost predicate Agrees(expected: Result<Step, Error>, r: Result<ResultWord, Error>, tasks: Ledger) {
    match expected
    case Err(e) => r == Err(e)
    case Ok(step) => r == Ok(step.result) && tasks == step.ledger
  }

  /** `enter_reconcile` on the record `id`. */
  method EnterReconcileIn(state: SessionState, id: string, code: ReconcileCode, now: int) returns (r: Result<ResultWord, Error>)
    requires id in state.tasks
    modifies state
    ensures Agrees(Store(old(state.tasks), id, EnterReconcile(old(state.tasks)[id], code, now)), r, state.tasks)
  {
    var task := state.tasks[id];
    if task.phase == Closed {
      return Err(Conflict);
    }
    if task.phase == Reconcile {
      return Ok(ReconcileResult);
    }
    var preserved := Preserved(task, Reconcile, now);
    state.tasks := state.tasks[id := preserved.(reconcile := Some(ReconcileFact(code, now)))];
    r := Ok(ReconcileResult);
  }

  method RecordUnknownIn(state: SessionState, id: string, code: UnknownCode, now: int) returns (r: ResultWord)
    requires id in state.tasks
    modifies state
    ensures var rev := RecordUnknown(old(state.tasks)[id], code, now);
            state.tasks == old(state.tasks)[id := rev.task] && r == rev.result
  {
    var task := state.tasks[id];
    var facts: map<UnknownCode, int> := if task.unknown_facts.Some? then task.unknown_facts.value else map[];
    if code in facts {
      return AlreadyUnknown;
    }
    facts := facts[code := now];
    task := task.(unknown_facts := Some(facts));
    task := task.(updated_at := now);
    state.tasks := state.tasks[id := task];
    r := UnknownRecorded;
  }

  /** `record_platform_observation`. */
  method RecordPlatformObservation(state: SessionState, id: string, ref: string, target: string, status: Word, now: int,
                                   ghost bytes: Ledger -> nat)
    returns (r: Result<ResultWord, Error>)
    modifies state
    ensures Agrees(Apply(old(state.tasks), Learn(id, ref, target, Observed(status), now), bytes), r, state.tasks)
  {
    if !Text(id, 256) || !Text(ref, 20) || !Text(target, 1024) {
      return Err(InvalidInput);
    }
    if !IsPlatformObservationStatus(status) || now < 0 {
      return Err(InvalidInput);
    }
    if id !in state.tasks || state.tasks[id].task_ref != ref || state.tasks[id].target != Some(target) {
      return Err(Conflict);
    }
    r := ObservePlatform(state, id, status, now);
    if r.Ok? {
      var _ := PruneClosedTasks(state, NoPressure());
    }
  }

  method ObservePlatform(state: SessionState, id: string, status: Word, now: int) returns (r: Result<ResultWord, Error>)
    requires id in state.tasks && IsPlatformObservationStatus(status)
    modifies state
    ensures Agrees(Store(old(state.tasks), id, ReviseEvidence(old(state.tasks)[id], Observed(status), now)), r, state.tasks)
  {
    var task := state.tasks[id];
    var phase := task.phase;
    if phase == Reconcile {
      r := Ok(ReconcileResult);
    } else if status == Unknown && phase in {Bound, Terminal} {
      var word := RecordUnknownIn(state, id, PlatformObservationUnknown, now);
      r := Ok(word);
    } else if phase == Terminal {
      if !IsConcrete(status) {
        return Err(Conflict);
      }
      if TerminalStatus(task) == Some(Inactive) {
        task := task.(terminal_fact := Some(TerminalFact(Platform, status, now)));
        task := task.(platform_observation := Some(Observation(status, now)));
        task := task.(updated_at := now);
        state.tasks := state.tasks[id := task];
        r := Ok(TerminalResult);
      } else if TerminalStatus(task) != Some(status) {
        r := EnterReconcileIn(state, id, TerminalStatusConflict, now);
      } else if ObservedStatus(task) == Some(status) {
        r := Ok(AlreadyTerminal);
      } else {
        task := task.(platform_observation := Some(Observation(status, now)));
        task := task.(updated_at := now);
        state.tasks := state.tasks[id := task];
        r := Ok(TerminalObserved);
      }
    } else if phase != Bound {
      r := Err(Conflict);
    } else if IsConcrete(status) {
      task := task.(phase := Terminal);
      task := task.(platform_observation := Some(Observation(status, now)));
      task := task.(terminal_fact := Some(TerminalFact(Platform, status, now)));
      task := task.(updated_at := now);
      state.tasks := state.tasks[id := task];
      r := Ok(TerminalResult);
    } else if ObservedStatus(task) == Some(status) {
      r := Ok(AlreadyObserved);
    } else {
      task := task.(platform_observation := Some(Observation(status, now)));
      task := task.(updated_at := now);
      state.tasks := state.tasks[id := task];
      r := Ok(Recorded);
    }
  }

  /** `record_call_result`: a certain result is only checked against a read. */
  method RecordCallResult(state: SessionState, id: string, ref: string, target: string, result: Word, now: int,
                          ghost bytes: Ledger -> nat)
    returns (r: Result<ResultWord, Error>)
    modifies state
    ensures Agrees(Apply(old(state.tasks), Learn(id, ref, target, CallReturned(result), now), bytes), r, state.tasks)
    ensures result != Unknown ==> state.tasks == old(state.tasks)
  {
    if !Text(id, 256) || !Text(ref, 20) || !Text(target, 1024) || !IsCallResult(result) {
      return Err(InvalidInput);
    }
    if result != Unknown {
      if id !in state.tasks || state.tasks[id].task_ref != ref || state.tasks[id].target != Some(target) {
        return Err(Conflict);
      }
      if state.tasks[id].phase != Bound {
        return Err(Conflict);
      }
      return Ok(Echo(result));
    }
    if now < 0 {
      return Err(InvalidInput);
    }
    if id !in state.tasks || state.tasks[id].task_ref != ref || state.tasks[id].target != Some(target) {
      return Err(Conflict);
    }
    if state.tasks[id].phase == Reconcile {
      r := Ok(ReconcileResult);
    } else if state.tasks[id].phase !in {Bound, Terminal} {
      return Err(Conflict);
    } else {
      var word := RecordUnknownIn(state, id, DeliveryUnknown, now);
      r := Ok(word);
    }
    assert Agrees(Store(old(state.tasks), id, ReviseEvidence(old(state.tasks)[id], CallReturned(result), now)), r, state.tasks);
    var _ := PruneClosedTasks(state, NoPressure());
  }

  /** `record_terminal_notification`. */
  method RecordTerminalNotification(state: SessionState, id: string, ref: string, sender: string, status: Word, now: int,
                                    ghost bytes: Ledger -> nat)
    returns (r: Result<ResultWord, Error>)
    modifies state
    ensures Agrees(Apply(old(state.tasks), Learn(id, ref, sender, Notified(status), now), bytes), r, state.tasks)
  {
    if !Text(id, 256) || !Text(ref, 20) || !Text(sender, 1024) || !IsConcrete(status) || now < 0 {
      return Err(InvalidInput);
    }
    if id !in state.tasks || state.tasks[id].task_ref != ref || state.tasks[id].target != Some(sender) {
      return Err(Conflict);
    }
    var task := state.tasks[id];
    if task.phase == Reconcile {
      r := Ok(ReconcileResult);
    } else if task.phase == Terminal {
      if TerminalStatus(task) == Some(Inactive) {
        task := task.(terminal_fact := Some(TerminalFact(Notification, status, now)));
        task := task.(updated_at := now);
        state.tasks := state.tasks[id := task];
        r := Ok(TerminalResult);
      } else if TerminalStatus(task) == Some(status) {
        r := Ok(AlreadyTerminal);
      } else {
        r := EnterReconcileIn(state, id, TerminalStatusConflict, now);
      }
    } else if task.phase != Bound {
      return Err(Conflict);
    } else {
      task := task.(phase := Terminal);
      task := task.(terminal_fact := Some(TerminalFact(Notification, status, now)));
      task := task.(updated_at := now);
      state.tasks := state.tasks[id := task];
      r := Ok(TerminalResult);
    }
    assert Agrees(Store(old(state.tasks), id, ReviseEvidence(old(state.tasks)[id], Notified(status), now)), r, state.tasks);
    var _ := PruneClosedTasks(state, NoPressure());
  }

  /** `record_interrupt_result`. */
  method RecordInterruptResult(state: SessionState, id: string, ref: string, target: string, result: Word, now: int,
                               ghost bytes: Ledger -> nat)
    returns (r: Result<ResultWord, Error>)
    modifies state
    ensures Agrees(Apply(old(state.tasks), Learn(id, ref, target, InterruptReturned(result), now), bytes), r, state.tasks)
  {
    if !Text(id, 256) || !Text(ref, 20) || !Text(target, 1024) || !IsInterruptResult(result) || now < 0 {
      return Err(InvalidInput);
    }
    if id !in state.tasks || state.tasks[id].task_ref != ref || state.tasks[id].target != Some(target) {
      return Err(Conflict);
    }
    r := NoteInterrupt(state, id, result, now);
    if r.Ok? {
      var _ := PruneClosedTasks(state, NoPressure());
    }
  }

  method NoteInterrupt(state: SessionState, id: string, result: Word, now: int) returns (r: Result<ResultWord, Error>)
    requires id in state.tasks && IsInterruptResult(result)
    modifies state
    ensures Agrees(Store(old(state.tasks), id, ReviseEvidence(old(state.tasks)[id], InterruptReturned(result), now)), r, state.tasks)
  {
    var task := state.tasks[id];
    var phase := task.phase;
    if phase == Reconcile {
      r := Ok(ReconcileResult);
    } else if result == Unknown {
      if phase !in {Bound, Terminal} {
        return Err(Conflict);
      }
      var word := RecordUnknownIn(state, id, InterruptUnknown, now);
      r := Ok(word);
    } else if result == Failed {
      if phase != Bound {
        return Err(Conflict);
      }
      if InterruptResultOf(task) == Some(Failed) {
        r := Ok(AlreadyRecorded);
      } else {
        task := task.(interrupt_fact := Some(InterruptFact(Failed, now)));
        task := task.(updated_at := now);
        state.tasks := state.tasks[id := task];
        r := Ok(FailedResult);
      }
    } else if phase == Terminal {
      if InterruptResultOf(task) == Some(Inactive) {
        r := Ok(AlreadyTerminal);
      } else {
        task := task.(interrupt_fact := Some(InterruptFact(Inactive, now)));
        task := task.(updated_at := now);
        state.tasks := state.tasks[id := task];
        r := Ok(TerminalConfirmed);
      }
    } else if phase != Bound {
      r := Err(Conflict);
    } else {
      task := task.(phase := Terminal);
      task := task.(interrupt_fact := Some(InterruptFact(Inactive, now)));
      task := task.(terminal_fact := Some(TerminalFact(Interrupt, Inactive, now)));
      task := task.(updated_at := now);
      state.tasks := state.tasks[id := task];
      r := Ok(TerminalResult);
    }
  }

  /** `close_task`. */
  method CloseTask(state: SessionState, id: string, ref: string, reason: string, now: int, ghost bytes: Ledger -> nat)
    returns (r: Result<ResultWord, Error>, pruned: seq<string>)
    modifies state
    ensures Agrees(Apply(old(state.tasks), Close(id, ref, reason, now), bytes), r, state.tasks)
  {
    pruned := [];
    if !Text(id, 256) || !Text(ref, 20) || !Text(reason, 1024) || now < 0 {
      return Err(InvalidInput), pruned;
    }
    if id !in state.tasks || state.tasks[id].task_ref != ref {
      return Err(Conflict), pruned;
    }
    var task := state.tasks[id];
    if task.phase == Closed {
      if task.close_reason != Some(reason) {
        return Err(Conflict), pruned;
      }
      r := Ok(AlreadyClosed);
    } else {
      var preserved := Preserved(task, Closed, now);
      task := preserved.(close_reason := Some(reason));
      task := task.(closed_at := Some(now));
      state.tasks := state.tasks[id := task];
      r := Ok(ClosedResult);
    }
    assert Agrees(Store(old(state.tasks), id, ReviseClose(old(state.tasks)[id], reason, now)), r, state.tasks);
    pruned := PruneClosedTasks(state, NoPressure());
  }
}
