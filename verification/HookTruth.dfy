/** What the Hook answers for each outcome of a claim, and which ledger stood behind it, in every
    interleaving (scripts/governance_hook.py, scripts/governance_hook_diagnostics.py). */
module HookTruth {
  import opened Basics
  import opened NativeSpawn
  import opened Records
  import opened Retention
  import opened Transitions
  import opened LedgerRuns
  import opened Dispatch
  import opened HookAnswers
  import opened ClaimTruth
  import opened Effects
  import opened Commands
  import P = StoreProtocol

  /** The answer to each refusal of the callback: conflicts and expiry deny, what cannot be
      verified lets the call go on unconfirmed. */
  lemma RefusalAnswers(e: Error)
    ensures var a := ClassifyFailure(Reported(P.Raised(e)));
            a.claim == Unconfirmed
            && match e
               case Conflict => a.code == ClaimConflict && a.decision == Deny
               case Expired => a.code == PreparationExpired && a.decision == Deny
               case NativeMismatch => a.code == NativeConflict && a.decision == Deny
               case MaterialConflict => a.code == MaterialConflictCode && a.decision == Deny
               case NativeUnavailable => a.code == InputUnavailable && a.decision == Allow
               case MaterialUnavailable => a.code == MaterialUnavailableCode && a.decision == Allow
               case CapacityExceeded => a.code == StateUnavailable && a.decision == Allow
               case _ => a.code == InternalError && a.decision == Allow
  {
  }

  /** And to each failure of the store: before the callback nothing was claimed, after it nobody
      knows. */
  lemma StoreAnswers(f: P.Failure<Error>)
    ensures f.LockFailed? || f.ReadFailed? ==> ClassifyFailure(Reported(f)) == Answer(StateUnavailable, InClaim(State), Unconfirmed, Allow)
    ensures f.Rejected? || f.WriteFailed? ==> ClassifyFailure(Reported(f)) == Answer(CommitUnknown, InClaim(Commit), UnknownOutcome, Allow)
  {
  }

  /** The readback finds a claim exactly when the one record with the reference is claimed by this
      call with these parameters. */
  lemma ReadbackIsExact(l: Ledger, ref: string, toolUseId: string, input: ToolInput)
    ensures ClaimRecorded(l, ref, toolUseId, input)
            <==> exists id <- l ::
                   && (forall other <- l :: l[other].task_ref == ref <==> other == id)
                   && l[id].phase == Claimed && l[id].claimed_tool_use_id == Some(toolUseId)
                   && l[id].prepared.Some? && SameCall(l[id], input)
  {
    var holders := RefHolders(l, ref);
    if ClaimRecorded(l, ref, toolUseId, input) {
      var id := Holder(l, ref);
      OneElement(holders, id);
      assert forall other <- l :: l[other].task_ref == ref <==> other in holders;
    }
    if id :| id in l && (forall other <- l :: l[other].task_ref == ref <==> other == id) && ClaimedBy(l[id], ref, toolUseId, input) {
      assert holders == {id};
      assert Holder(l, ref) in holders;
    }
  }

  lemma OneElement(s: set<string>, x: string)
    requires |s| == 1 && x in s
    ensures s == {x}
  {
    assert |s - {x}| == 0;
  }

  /** A claim is confirmed exactly when it succeeded, or failed and is read back; unknown exactly
      when its write failed and it is not read back; otherwise unconfirmed. */
  lemma AnswersAre(op: Op, ending: P.Ending<Error>, found: Option<Ledger>)
    requires op.Claim? && op.now >= 0 && ValidToolUseId(op.toolUseId)
    ensures var a := ClaimAnswer(op, ending, found);
            var readBack := found.Some? && ClaimRecorded(found.value, op.ref, op.toolUseId, op.input);
            && (ending.Success? ==> a == Answer(ClaimedCode, ClaimStage, Confirmed, Allow))
            && (ending.Failed? && readBack ==> a == Answer(ClaimedAfterWriteError, ClaimStage, Confirmed, Allow))
            && (ending.Failed? && !readBack && (ending.failure.Rejected? || ending.failure.WriteFailed?) ==>
                  a == Answer(CommitUnknown, InClaim(Commit), UnknownOutcome, Allow))
            && (ending.Failed? && !readBack && (ending.failure.LockFailed? || ending.failure.ReadFailed?) ==>
                  a == Answer(StateUnavailable, InClaim(State), Unconfirmed, Allow))
            && (ending.Failed? && !readBack && ending.failure.Raised? ==>
                  a.claim == Unconfirmed && (a.decision == Deny <==> ending.failure.error in {Conflict, Expired, NativeMismatch, MaterialConflict}))
  {
  }

  /** A claim without a usable id or time never reaches the store: the one is denied, the other is
      let through unconfirmed. */
  lemma MalformedClaims(op: Op, ending: P.Ending<Error>, found: Option<Ledger>)
    requires op.Claim?
    ensures op.now < 0 ==> ClaimAnswer(op, ending, found) == Answer(InternalError, ClaimStage, Unconfirmed, Allow)
    ensures op.now >= 0 && (Strip(op.toolUseId) == "" || |op.toolUseId| > 1024) ==>
              ClaimAnswer(op, ending, found) == Answer(ClaimConflict, ClaimStage, Unconfirmed, Deny)
  {
  }

  // ----- the ledger behind an answer -----------------------------------------------------------

  lemma RaisedFrom(initial: Ledger, work: seq<Op>, bytes: Ledger -> nat, schedule: seq<(nat, P.Action)>, i: nat, e: Error)
    returns (k: nat)
    requires var w := P.Execute(SessionOf(initial, work, bytes), schedule);
             i < |w.pcs| && i < |work| && P.EndingOf(w.pcs[i]) == Some(P.Failed(P.Raised(e)))
    ensures var s := SessionOf(initial, work, bytes);
            var commits := P.Execute(s, schedule).commits;
            k <= |commits| && Apply(P.Version(s, commits, k), work[i], bytes) == Err(e)
  {
    var s := SessionOf(initial, work, bytes);
    P.EndingsAreAtomic(s, schedule, i);
    var commits := P.Execute(s, schedule).commits;
    var n, fault :| P.Linearized(s, commits, i, P.Failed(P.Raised(e)), n, fault);
    k := n;
    assert s.run(P.Version(s, commits, k), work[i]) == Callback(P.Version(s, commits, k), work[i], bytes);
  }

  lemma SucceededFrom(initial: Ledger, work: seq<Op>, bytes: Ledger -> nat, schedule: seq<(nat, P.Action)>, i: nat)
    returns (k: nat)
    requires var w := P.Execute(SessionOf(initial, work, bytes), schedule);
             i < |w.pcs| && i < |work| && P.EndingOf(w.pcs[i]) == Some(P.Success)
    ensures var s := SessionOf(initial, work, bytes);
            var commits := P.Execute(s, schedule).commits;
            k <= |commits| && Apply(P.Version(s, commits, k), work[i], bytes).Ok?
  {
    var s := SessionOf(initial, work, bytes);
    P.EndingsAreAtomic(s, schedule, i);
    var commits := P.Execute(s, schedule).commits;
    var n, fault :| P.Linearized(s, commits, i, P.Success, n, fault);
    k := n;
    assert s.run(P.Version(s, commits, k), work[i]) == Callback(P.Version(s, commits, k), work[i], bytes);
  }

  lemma VersionIsValid(initial: Ledger, work: seq<Op>, bytes: Ledger -> nat, schedule: seq<(nat, P.Action)>, k: nat)
    requires ValidLedger(initial)
    requires k <= |P.Execute(SessionOf(initial, work, bytes), schedule).commits|
    ensures var s := SessionOf(initial, work, bytes); ValidLedger(P.Version(s, P.Execute(s, schedule).commits, k))
  {
    var s := SessionOf(initial, work, bytes);
    var commits := P.Execute(s, schedule).commits;
    StoredLedgersAreARun(initial, work, bytes, schedule);
    RunStaysValid(Ledgers(s, commits), Committed(work, commits), bytes, k);
  }

  /** A record of this ledger grants the claim. */
  ghost predicate GrantedIn(l: Ledger, op: Op)
    requires op.Claim?
  {
    exists id <- l :: l[id].task_ref == op.ref && Granted(l[id], op.toolUseId, op.input, op.now, op.material)
  }

  /** A preparation of this ledger has expired. */
  ghost predicate ExpiredIn(l: Ledger, op: Op)
    requires op.Claim?
  {
    exists id <- l :: l[id].task_ref == op.ref && l[id].phase == Prepared && l[id].prepared.Some?
                      && l[id].prepared.value.expires_at <= op.now
  }

  /** A claim that reports success was granted by a stored ledger, so never after expiry, with
      other parameters, or with materials that differ. */
  lemma ConfirmedWasGranted(initial: Ledger, work: seq<Op>, bytes: Ledger -> nat, schedule: seq<(nat, P.Action)>, i: nat)
    requires ValidLedger(initial)
    requires var w := P.Execute(SessionOf(initial, work, bytes), schedule);
             i < |w.pcs| && i < |work| && work[i].Claim? && P.EndingOf(w.pcs[i]) == Some(P.Success)
    ensures var s := SessionOf(initial, work, bytes);
            var commits := P.Execute(s, schedule).commits;
            exists k: nat :: k <= |commits| && GrantedIn(P.Version(s, commits, k), work[i])
  {
    var k := SucceededFrom(initial, work, bytes, schedule, i);
    VersionIsValid(initial, work, bytes, schedule, k);
    var s := SessionOf(initial, work, bytes);
    var l, op := P.Version(s, P.Execute(s, schedule).commits, k), work[i];
    ClaimSucceedsExactly(l, op.ref, op.toolUseId, op.input, op.now, op.material, bytes);
    assert GrantedIn(l, op);
  }

  lemma ExpiryIsFound(l: Ledger, op: Op, bytes: Ledger -> nat)
    requires ValidLedger(l) && op.Claim? && Apply(l, op, bytes) == Err(Expired)
    ensures ExpiredIn(l, op)
  {
    if id :| id in l && l[id].task_ref == op.ref {
      ClaimCommand(l, id, op.toolUseId, op.input, op.now, op.material, bytes);
      ClaimIsRefused(l[id], op.toolUseId, op.input, op.now, op.material);
    } else if op.now >= 0 {
      ClaimOfNothing(l, op.ref, op.toolUseId, op.input, op.now, op.material, bytes);
    }
  }

  /** The Hook denies for expiry exactly the settled claims whose callback met an expired
      preparation and that the readback does not find claimed by this call; and then some stored
      ledger held that preparation. */
  lemma ExpiryIsDenied(initial: Ledger, work: seq<Op>, bytes: Ledger -> nat, schedule: seq<(nat, P.Action)>, i: nat)
    requires ValidLedger(initial)
    requires var w := P.Execute(SessionOf(initial, work, bytes), schedule);
             i < |w.pcs| && i < |work| && work[i].Claim? && Settled(w.pcs[i]) && work[i].now >= 0 && ValidToolUseId(work[i].toolUseId)
    ensures var s := SessionOf(initial, work, bytes);
            var w := P.Execute(s, schedule);
            var answer, found := AnswerAt(work[i], w.pcs[i]), P.FoundBy(w.pcs[i]);
            var readBack := found.Some? && ClaimRecorded(found.value, work[i].ref, work[i].toolUseId, work[i].input);
            && (answer == Answer(PreparationExpired, ClaimStage, Unconfirmed, Deny)
                <==> P.EndingOf(w.pcs[i]).value == P.Failed(P.Raised(Expired)) && !readBack)
            && (answer.code == PreparationExpired ==>
                  exists k: nat :: k <= |w.commits| && ExpiredIn(P.Version(s, w.commits, k), work[i]))
  {
    var s := SessionOf(initial, work, bytes);
    var w := P.Execute(s, schedule);
    var ending := P.EndingOf(w.pcs[i]).value;
    if AnswerAt(work[i], w.pcs[i]).code == PreparationExpired {
      OnlyExpiryExpires(ending, work[i], P.FoundBy(w.pcs[i]));
      var k := RaisedFrom(initial, work, bytes, schedule, i, Expired);
      VersionIsValid(initial, work, bytes, schedule, k);
      ExpiryIsFound(P.Version(s, w.commits, k), work[i], bytes);
    }
  }

  lemma OnlyExpiryExpires(ending: P.Ending<Error>, op: Op, found: Option<Ledger>)
    requires op.Claim? && op.now >= 0 && ValidToolUseId(op.toolUseId) && ClaimAnswer(op, ending, found).code == PreparationExpired
    ensures ending == P.Failed(P.Raised(Expired))
  {
  }
}
