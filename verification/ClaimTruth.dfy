/** The session ledger under the store protocol: any number of interleaved commands with faults
    and kills. Every run of the protocol is a run of the ledger, and what the Hook says about a
    claim is true in all of them. */
module ClaimTruth {
  import opened Basics
  import opened TaskNames
  import opened NativeSpawn
  import opened Records
  import opened Retention
  import opened Transitions
  import opened LedgerLaws
  import opened Validity
  import opened LedgerRuns
  import opened HookAnswers
  import P = StoreProtocol

  // ----- commands as callbacks of the store ----------------------------------------------------

  type Session = P.System<Ledger, Op, Error>
  type World = P.World<Ledger, Error>

  ghost function Callback(l: Ledger, op: Op, bytes: Ledger -> nat): Result<Ledger, Error> {
    match Apply(l, op, bytes)
    case Ok(step) => Ok(step.ledger)
    case Err(e) => Err(e)
  }

  /** A session whose callers each run one command on the shared ledger. */
  ghost function SessionOf(initial: Ledger, work: seq<Op>, bytes: Ledger -> nat): Session {
    P.System((l, op) => Callback(l, op, bytes), (l, op) => Accepts(l, op, bytes), initial, work)
  }

  /** The committed ledgers and commands, in order. */
  ghost function Ledgers(s: Session, commits: seq<nat>): seq<Ledger> {
    seq(|commits| + 1, k requires 0 <= k <= |commits| => P.Version(s, commits, k))
  }

  function Committed(work: seq<Op>, commits: seq<nat>): seq<Op>
    requires forall k :: 0 <= k < |commits| ==> commits[k] < |work|
  {
    seq(|commits|, k requires 0 <= k < |commits| => work[commits[k]])
  }

  lemma VersionsAreARun(initial: Ledger, work: seq<Op>, bytes: Ledger -> nat, commits: seq<nat>)
    requires P.SerialHistory(SessionOf(initial, work, bytes), commits)
    ensures var s := SessionOf(initial, work, bytes);
            && IsRun(Ledgers(s, commits), Committed(work, commits), bytes) && Ledgers(s, commits)[0] == initial
    ensures var s := SessionOf(initial, work, bytes);
            forall k :: 0 <= k < |commits| ==> Commits(Ledgers(s, commits)[k], work[commits[k]], bytes)
  {
    var s := SessionOf(initial, work, bytes);
    var ls, ops := Ledgers(s, commits), Committed(work, commits);
    forall k | 0 <= k < |commits|
      ensures Commits(ls[k], ops[k], bytes) && ls[k + 1] == Next(ls[k], ops[k], bytes)
    {
      assert P.GoodCommit(s, commits, k);
    }
    assert commits[..0] == [];
  }

  /** Whatever the interleaving, the faults and the kills, the ledgers ever stored are a run of
      the ledger under the committed commands: every law of such runs holds of them. */
  lemma StoredLedgersAreARun(initial: Ledger, work: seq<Op>, bytes: Ledger -> nat, schedule: seq<(nat, P.Action)>)
    ensures var s := SessionOf(initial, work, bytes);
            var w := P.Execute(s, schedule);
            && P.SerialHistory(s, w.commits)
            && IsRun(Ledgers(s, w.commits), Committed(work, w.commits), bytes)
            && Ledgers(s, w.commits)[0] == initial && Ledgers(s, w.commits)[|w.commits|] == w.file
  {
    var s := SessionOf(initial, work, bytes);
    P.FileIsSerial(s, schedule);
    var w := P.Execute(s, schedule);
    VersionsAreARun(initial, work, bytes, w.commits);
    assert w.commits[..|w.commits|] == w.commits;
  }

  // ----- what a claim leaves in the ledger -----------------------------------------------------

  lemma HolderIs(l: Ledger, ref: string, id: string)
    requires UniqueRefs(l) && id in l && l[id].task_ref == ref
    ensures |RefHolders(l, ref)| == 1 && Holder(l, ref) == id
  {
    assert RefHolders(l, ref) == {id};
  }

  lemma ClaimRevision(t: Task, toolUseId: string, input: ToolInput, now: int, material: Material)
    requires ReviseClaim(t, toolUseId, input, now, material).Ok?
    ensures ClaimedBy(ReviseClaim(t, toolUseId, input, now, material).value.task, t.task_ref, toolUseId, input)
  {
  }

  /** A claim that succeeded is there to be read back, exactly. */
  lemma OwnClaimIsRecorded(l: Ledger, op: Op, bytes: Ledger -> nat)
    requires op.Claim? && Succeeds(l, op, bytes) && UniqueRefs(Outcome(l, op, bytes))
    ensures ClaimRecorded(Outcome(l, op, bytes), op.ref, op.toolUseId, op.input)
  {
    TransitionShape(l, op, bytes);
    var p, id := Before(l, op), Subject(l, op);
    ClaimRevision(p[id], op.toolUseId, op.input, op.now, op.material);
    HolderIs(Outcome(l, op, bytes), op.ref, id);
  }

  /** Some stored ledger holds the record with this reference claimed by this call. */
  ghost predicate ClaimCommitted(s: Session, commits: seq<nat>, op: Op)
    requires op.Claim?
  {
    exists k: nat :: k <= |commits| && ClaimRecorded(P.Version(s, commits, k), op.ref, op.toolUseId, op.input)
  }

  // ----- the answer is true ----------------------------------------------------------------------

  /** The caller has its result: a success at once, a failure after the second read. */
  predicate Settled(pc: P.Pc<Ledger, Error>) {
    (pc.Returned? && pc.ending.Success?) || pc.Answered?
  }

  ghost function AnswerAt(op: Op, pc: P.Pc<Ledger, Error>): Answer
    requires op.Claim? && Settled(pc)
  {
    ClaimAnswer(op, P.EndingOf(pc).value, P.FoundBy(pc))
  }

  lemma CommittedClaim(l: Ledger, op: Op, bytes: Ledger -> nat)
    requires op.Claim? && Commits(l, op, bytes)
    ensures ClaimRecorded(Next(l, op, bytes), op.ref, op.toolUseId, op.input)
    ensures op.now >= 0 && ValidToolUseId(op.toolUseId)
  {
    OwnClaimIsRecorded(l, op, bytes);
  }

  lemma CommittedCallerIsRecorded(initial: Ledger, work: seq<Op>, bytes: Ledger -> nat, commits: seq<nat>, i: nat)
    requires P.SerialHistory(SessionOf(initial, work, bytes), commits) && i in commits && i < |work| && work[i].Claim?
    ensures ClaimCommitted(SessionOf(initial, work, bytes), commits, work[i])
    ensures work[i].now >= 0 && ValidToolUseId(work[i].toolUseId)
  {
    var ls := Ledgers(SessionOf(initial, work, bytes), commits);
    VersionsAreARun(initial, work, bytes, commits);
    var k: nat :| k < |commits| && commits[k] == i;
    CommittedClaim(ls[k], work[i], bytes);
    assert ls[k + 1] == Next(ls[k], Committed(work, commits)[k], bytes);
  }

  /** What makes an answer about one claim true: a confirmation means the ledger committed a
      claim of that record by exactly that call; an unconfirmed answer or a denial means this
      caller has stored nothing; a failure after the callback finished is only ever unknown,
      or confirmed by the exact readback. */
  ghost predicate Truthful(s: Session, commits: seq<nat>, i: nat, op: Op, ending: P.Ending<Error>, answer: Answer)
    requires op.Claim?
  {
    && (answer.claim == Confirmed ==> ClaimCommitted(s, commits, op))
    && (answer.claim == Unconfirmed || answer.decision == Deny ==> i !in commits)
    && (IsPastCallback(op, ending) ==> answer.claim == UnknownOutcome || answer.claim == Confirmed)
    && answer.claim != NotAttempted && (answer.decision == Deny ==> answer.claim == Unconfirmed)
  }

  /** The callback ran to its end before the failure. */
  predicate IsPastCallback(op: Op, ending: P.Ending<Error>)
    requires op.Claim?
  {
    && op.now >= 0 && ValidToolUseId(op.toolUseId)
    && ending.Failed? && (ending.failure.Rejected? || ending.failure.WriteFailed?)
  }

  lemma AnswerFollows(s: Session, commits: seq<nat>, i: nat, op: Op, ending: P.Ending<Error>, found: Option<Ledger>)
    requires op.Claim?
    requires i in commits ==> ClaimCommitted(s, commits, op) && op.now >= 0 && ValidToolUseId(op.toolUseId)
    requires ending.Success? ==> i in commits
    requires ending.Failed? && !ending.failure.WriteFailed? ==> i !in commits
    requires found.Some? ==> P.IsVersion(s, commits, found.value)
    ensures Truthful(s, commits, i, op, ending, ClaimAnswer(op, ending, found))
  {
    if ending.Failed? {
      FailuresClaimOnlyWhatTheyKnow(ending.failure);
    }
  }

  /** Truthful answers: in every interleaving, with any faults and kills. */
  lemma AnswersAreTrue(initial: Ledger, work: seq<Op>, bytes: Ledger -> nat, schedule: seq<(nat, P.Action)>, i: nat)
    requires var w := P.Execute(SessionOf(initial, work, bytes), schedule);
             i < |w.pcs| && i < |work| && work[i].Claim? && Settled(w.pcs[i])
    ensures var s := SessionOf(initial, work, bytes);
            var w := P.Execute(s, schedule);
            Truthful(s, w.commits, i, work[i], P.EndingOf(w.pcs[i]).value, AnswerAt(work[i], w.pcs[i]))
  {
    var s := SessionOf(initial, work, bytes);
    var w := P.Execute(s, schedule);
    P.FileIsSerial(s, schedule);
    P.EndingsAreAtomic(s, schedule, i);
    P.EndingTellsCommit(s, schedule, i);
    if i in w.commits {
      CommittedCallerIsRecorded(initial, work, bytes, w.commits, i);
    }
    AnswerFollows(s, w.commits, i, work[i], P.EndingOf(w.pcs[i]).value, P.FoundBy(w.pcs[i]));
  }

  // ----- one call per record -----------------------------------------------------------------------

  /** Between two moments of a record's life it is only ever claimed by one call. */
  lemma OneCallPerRecord(ls: seq<Ledger>, ops: seq<Op>, bytes: Ledger -> nat, id: string, k: nat, m: nat)
    requires IsRun(ls, ops, bytes) && ValidLedger(ls[0]) && k <= m < |ls|
    requires forall n: nat :: k <= n <= m ==> id in ls[n]
    requires ls[k][id].phase == Claimed && ls[m][id].phase == Claimed
    ensures ls[k][id].claimed_tool_use_id == ls[m][id].claimed_tool_use_id
  {
    FactsNeverChange(ls, ops, bytes, id, k, m);
  }

  /** The record `id` was gone at some moment from `k` to `m`. */
  ghost predicate Gone(ls: seq<Ledger>, id: string, k: nat, m: nat) {
    exists n: nat :: k <= n <= m && n < |ls| && id !in ls[n]
  }

  ghost predicate IsClaim(l: Ledger, id: string, op: Op)
    requires op.Claim?
  {
    id in l && ClaimedBy(l[id], op.ref, op.toolUseId, op.input)
  }

  /** Both calls stand in stored ledgers as claims, and wherever they stand as claims of one
      record, it was gone in between. */
  ghost predicate ApartInTime(ls: seq<Ledger>, op: Op, other: Op)
    requires op.Claim? && other.Claim?
  {
    && (exists k: nat, id :: k < |ls| && IsClaim(ls[k], id, op))
    && (exists m: nat, id :: m < |ls| && IsClaim(ls[m], id, other))
    && forall k: nat, m: nat, id :: k < |ls| && m < |ls| && IsClaim(ls[k], id, op) && IsClaim(ls[m], id, other) ==>
         Gone(ls, id, if k <= m then k else m, if k <= m then m else k)
  }

  lemma TwoCallsApart(ls: seq<Ledger>, ops: seq<Op>, bytes: Ledger -> nat, op: Op, other: Op, id: string, k: nat, m: nat)
    requires IsRun(ls, ops, bytes) && ValidLedger(ls[0]) && op.Claim? && other.Claim? && op.toolUseId != other.toolUseId
    requires k < |ls| && m < |ls| && IsClaim(ls[k], id, op) && IsClaim(ls[m], id, other)
    ensures Gone(ls, id, if k <= m then k else m, if k <= m then m else k)
  {
    var first, last := if k <= m then k else m, if k <= m then m else k;
    if !Gone(ls, id, first, last) {
      OneCallPerRecord(ls, ops, bytes, id, first, last);
      assert false;
    }
  }

  /** At most one call id is ever confirmed per task record: if two calls with different ids
      are both confirmed, then at any two moments at which their claims stand in one record,
      that record had been pruned in between. */
  lemma OneConfirmedCallPerRecord(initial: Ledger, work: seq<Op>, bytes: Ledger -> nat, schedule: seq<(nat, P.Action)>, i: nat, j: nat)
    requires ValidLedger(initial)
    requires var w := P.Execute(SessionOf(initial, work, bytes), schedule);
             && i < |w.pcs| && i < |work| && work[i].Claim? && Settled(w.pcs[i]) && AnswerAt(work[i], w.pcs[i]).claim == Confirmed
             && j < |w.pcs| && j < |work| && work[j].Claim? && Settled(w.pcs[j]) && AnswerAt(work[j], w.pcs[j]).claim == Confirmed
    requires work[i].toolUseId != work[j].toolUseId
    ensures var s := SessionOf(initial, work, bytes);
            ApartInTime(Ledgers(s, P.Execute(s, schedule).commits), work[i], work[j])
  {
    var s := SessionOf(initial, work, bytes);
    var commits := P.Execute(s, schedule).commits;
    AnswersAreTrue(initial, work, bytes, schedule, i);
    AnswersAreTrue(initial, work, bytes, schedule, j);
    StoredLedgersAreARun(initial, work, bytes, schedule);
    CommittedClaimsApart(s, commits, Committed(work, commits), bytes, work[i], work[j]);
  }

  lemma CommittedIsClaim(s: Session, commits: seq<nat>, op: Op) returns (k: nat, id: string)
    requires op.Claim? && ClaimCommitted(s, commits, op)
    ensures k < |Ledgers(s, commits)| && IsClaim(Ledgers(s, commits)[k], id, op)
  {
    k :| k <= |commits| && ClaimRecorded(P.Version(s, commits, k), op.ref, op.toolUseId, op.input);
    id := Holder(P.Version(s, commits, k), op.ref);
  }

  lemma CommittedClaimsApart(s: Session, commits: seq<nat>, ops: seq<Op>, bytes: Ledger -> nat, op: Op, other: Op)
    requires op.Claim? && other.Claim? && op.toolUseId != other.toolUseId
    requires IsRun(Ledgers(s, commits), ops, bytes) && ValidLedger(Ledgers(s, commits)[0])
    requires ClaimCommitted(s, commits, op) && ClaimCommitted(s, commits, other)
    ensures ApartInTime(Ledgers(s, commits), op, other)
  {
    var k, a := CommittedIsClaim(s, commits, op);
    var m, b := CommittedIsClaim(s, commits, other);
    var ls := Ledgers(s, commits);
    forall i: nat, j: nat, id | i < |ls| && j < |ls| && IsClaim(ls[i], id, op) && IsClaim(ls[j], id, other)
      ensures Gone(ls, id, if i <= j then i else j, if i <= j then j else i)
    {
      TwoCallsApart(ls, ops, bytes, op, other, id, i, j);
    }
  }

  // ----- who claimed it ----------------------------------------------------------------------------

  /** Only a claim by the recorded call makes a record claimed. */
  lemma ClaimedByAClaim(l: Ledger, op: Op, bytes: Ledger -> nat, id: string)
    requires Commits(l, op, bytes)
    requires id in Outcome(l, op, bytes) && Outcome(l, op, bytes)[id].phase == Claimed
    ensures (id in l && l[id].phase == Claimed && l[id].claimed_tool_use_id == Outcome(l, op, bytes)[id].claimed_tool_use_id)
            || (op.Claim? && Outcome(l, op, bytes)[id].claimed_tool_use_id == Some(op.toolUseId))
  {
    var l' := Outcome(l, op, bytes);
    if op.Prepare? {
      PreparedIsNew(l, op.request, bytes);
    } else {
      TransitionShape(l, op, bytes);
      RevisedClaim(l, op, l', Subject(l, op), id);
    }
  }

  lemma RevisedClaim(l: Ledger, op: Op, l': Ledger, subject: string, id: string)
    requires RevisedAt(l, op, l', subject) && id in l' && l'[id].phase == Claimed
    ensures (id in l && l[id].phase == Claimed && l[id].claimed_tool_use_id == l'[id].claimed_tool_use_id)
            || (op.Claim? && l'[id].claimed_tool_use_id == Some(op.toolUseId))
  {
    var p := Before(l, op);
    PruningKeeps(l, op);
    PruningKeeps(p[subject := Revise(p, subject, op).value.task], op);
    if id == subject {
      RevisionClaims(p, subject, op);
    }
  }

  lemma RevisionClaims(p: Ledger, id: string, op: Op)
    requires id in p && !op.Prepare? && Revise(p, id, op).Ok? && Revise(p, id, op).value.task.phase == Claimed
    ensures var t' := Revise(p, id, op).value.task;
            (p[id].phase == Claimed && p[id].claimed_tool_use_id == t'.claimed_tool_use_id)
            || (op.Claim? && t'.claimed_tool_use_id == Some(op.toolUseId))
  {
  }

  ghost predicate ClaimedEarlier(ops: seq<Op>, k: nat, toolUseId: Option<string>) {
    exists n :: 0 <= n < k && n < |ops| && ops[n].Claim? && toolUseId == Some(ops[n].toolUseId)
  }

  lemma NextClaimedByAClaim(l: Ledger, op: Op, bytes: Ledger -> nat, id: string)
    requires id in Next(l, op, bytes) && Next(l, op, bytes)[id].phase == Claimed
    ensures (id in l && l[id].phase == Claimed && l[id].claimed_tool_use_id == Next(l, op, bytes)[id].claimed_tool_use_id)
            || (op.Claim? && Next(l, op, bytes)[id].claimed_tool_use_id == Some(op.toolUseId))
  {
    if Commits(l, op, bytes) {
      ClaimedByAClaim(l, op, bytes, id);
    }
  }

  /** In a session that began empty, a record claimed by a call was claimed by a committed
      claim of that very call. */
  lemma {:induction false} ClaimHasItsCaller(ls: seq<Ledger>, ops: seq<Op>, bytes: Ledger -> nat, id: string, k: nat)
    requires IsRun(ls, ops, bytes) && ls[0] == map[] && k < |ls| && id in ls[k] && ls[k][id].phase == Claimed
    ensures ClaimedEarlier(ops, k, ls[k][id].claimed_tool_use_id)
  {
    if k > 0 {
      assert ls[k] == Next(ls[k - 1], ops[k - 1], bytes);
      NextClaimedByAClaim(ls[k - 1], ops[k - 1], bytes, id);
      if id in ls[k - 1] && ls[k - 1][id].phase == Claimed && ls[k - 1][id].claimed_tool_use_id == ls[k][id].claimed_tool_use_id {
        ClaimHasItsCaller(ls, ops, bytes, id, k - 1);
      }
    }
  }

  // ----- a prepared task is claimable -------------------------------------------------------------

  /** The call `prepare_dispatch` hands out for a record it prepared. */
  function HandedOut(r: Request, ref: string): Result<ToolInput, InputError>
    requires PreparedRecord(r, ref).Ok?
  {
    var p := PreparedRecord(r, ref).value.prepared.value;
    RenderNativeSpawn(r.native_interface, r.contract.spawn, p.expected_native_parameters.task_name.value,
                      RenderDispatchPrompt(r.contract, p.context_verification))
  }

  lemma HandedOutNames(r: Request, ref: string)
    requires Admissible(r) && IsTaskRef(ref) && PreparedRecord(r, ref).Ok?
    ensures var name := PreparedRecord(r, ref).value.prepared.value.expected_native_parameters.task_name.value;
            ParseTaskName(name).Some? && ParseTaskName(name).value.2 == ref
  {
    BuildThenParse(r.contract.business.profile, NormalizeSemanticName(r.contract.business.objective), ref);
  }

  lemma HandedOutNormalizes(r: Request, ref: string)
    requires Admissible(r) && IsTaskRef(ref) && PreparedRecord(r, ref).Ok?
    ensures HandedOut(r, ref).Ok?
    ensures NormalizeNativeSpawn(r.native_interface, HandedOut(r, ref).value)
            == Ok(PreparedRecord(r, ref).value.prepared.value.expected_native_parameters)
  {
    HandedOutNames(r, ref);
    var p := PreparedRecord(r, ref).value.prepared.value;
    RenderThenNormalize(r.native_interface, r.contract.spawn, p.expected_native_parameters.task_name.value,
                        RenderDispatchPrompt(r.contract, p.context_verification));
  }

  lemma HandedOutMatches(r: Request, ref: string)
    requires Admissible(r) && IsTaskRef(ref) && PreparedRecord(r, ref).Ok?
    ensures HandedOut(r, ref).Ok?
    ensures ClaimParametersMatch(r.native_interface, HandedOut(r, ref).value,
              PreparedRecord(r, ref).value.prepared.value.expected_native_parameters) == Ok(true)
  {
    HandedOutNormalizes(r, ref);
  }

  lemma RecognisedByItsHeader(input: ToolInput, name: string, session: string, toolUseId: string)
    requires TaskNameFromMessage(MessageText(input)) == Some(name)
    requires ExplicitName(input) == None || ExplicitName(input) == Some(JString(name))
    requires Strip(session) != "" && Strip(toolUseId) != ""
    ensures ParseTaskName(name).Some?
    ensures Recognise(Payload(true, Some(input), Some(session), Some(toolUseId))) == Attempt(ParseTaskName(name).value.2, toolUseId)
  {
  }

  lemma RenderedNames(i: string, spawn: Spawn, name: string, prompt: string)
    requires ValidNativeSpawn(i, spawn) && ParseTaskName(name).Some?
    ensures var input := RenderNativeSpawn(i, spawn, name, prompt);
            && input.Ok? && MessageText(input.value) == MessageFor(name, prompt)
            && (ExplicitName(input.value) == None || ExplicitName(input.value) == Some(JString(name)))
  {
  }

  /** The Hook recognises the call as an attempt on exactly that reference, in either native
      interface. */
  lemma HandedOutIsRecognised(r: Request, ref: string, session: string, toolUseId: string)
    requires Admissible(r) && IsTaskRef(ref) && PreparedRecord(r, ref).Ok? && Strip(session) != "" && Strip(toolUseId) != ""
    ensures HandedOut(r, ref).Ok?
    ensures Recognise(Payload(true, Some(HandedOut(r, ref).value), Some(session), Some(toolUseId))) == Attempt(ref, toolUseId)
  {
    HandedOutNames(r, ref);
    var p := PreparedRecord(r, ref).value.prepared.value;
    var name, prompt := p.expected_native_parameters.task_name.value, RenderDispatchPrompt(r.contract, p.context_verification);
    RenderedNames(r.native_interface, r.contract.spawn, name, prompt);
    HeaderRoundTrip(name, prompt);
    RecognisedByItsHeader(HandedOut(r, ref).value, name, session, toolUseId);
  }

  lemma PreparedRevisionClaims(t: Task, toolUseId: string, input: ToolInput, now: int, material: Material)
    requires t.phase == Prepared && t.prepared.Some? && ValidContract(t.prepared.value.contract)
    requires t.prepared.value.contract.business.verified.None? && now < t.prepared.value.expires_at
    requires ClaimParametersMatch(t.native_interface, input, t.prepared.value.expected_native_parameters) == Ok(true)
    ensures ReviseClaim(t, toolUseId, input, now, material).Ok?
    ensures ReviseClaim(t, toolUseId, input, now, material).value.result == ClaimedResult
  {
  }

  /** Prepared arguments are always claimable: while the record stands as it was prepared and
      has not expired, in whatever ledger it stands by then, an unmodified submission without
      declared materials claims it. */
  lemma PreparedIsClaimable(l: Ledger, id: string, r: Request, ref: string, toolUseId: string, now: int, material: Material,
                            bytes: Ledger -> nat)
    requires UniqueRefs(l) && id in l && Admissible(r) && IsTaskRef(ref)
    requires PreparedRecord(r, ref).Ok? && l[id] == PreparedRecord(r, ref).value
    requires r.contract.business.verified.None? && ValidToolUseId(toolUseId) && 0 <= now < r.created_at + PREPARED_EXPIRY_SECONDS
    ensures HandedOut(r, ref).Ok?
    ensures var op := Claim(ref, toolUseId, HandedOut(r, ref).value, now, material);
            && Succeeds(l, op, bytes) && Apply(l, op, bytes).value.result == ClaimedResult
            && id in Outcome(l, op, bytes) && ClaimedBy(Outcome(l, op, bytes)[id], ref, toolUseId, HandedOut(r, ref).value)
  {
    HandedOutMatches(r, ref);
    PreparedRevisionClaims(l[id], toolUseId, HandedOut(r, ref).value, now, material);
    HolderClaims(l, id, toolUseId, HandedOut(r, ref).value, now, material, bytes);
  }

  /** What claims an open record claims it in any ledger that holds it. */
  lemma HolderClaims(l: Ledger, id: string, toolUseId: string, input: ToolInput, now: int, material: Material, bytes: Ledger -> nat)
    requires UniqueRefs(l) && id in l && l[id].phase != Closed && ValidToolUseId(toolUseId) && now >= 0
    requires ReviseClaim(l[id], toolUseId, input, now, material).Ok?
    ensures var op := Claim(l[id].task_ref, toolUseId, input, now, material);
            && Succeeds(l, op, bytes)
            && Apply(l, op, bytes).value.result == ReviseClaim(l[id], toolUseId, input, now, material).value.result
            && id in Outcome(l, op, bytes) && ClaimedBy(Outcome(l, op, bytes)[id], l[id].task_ref, toolUseId, input)
  {
    PruneKeeps(l, NoPressure());
    var p := Prune(l, NoPressure());
    assert id in p && p[id] == l[id];
    HolderIs(p, l[id].task_ref, id);
    ClaimRevision(p[id], toolUseId, input, now, material);
  }

  // ----- preparing, read back ----------------------------------------------------------------------

  /** The exact readback of a prepare whose write was reported as failed. */
  predicate PrepareRecorded(l: Ledger, id: string, ref: string, r: Request)
    requires PreparedRecord(r, ref).Ok? && HandedOut(r, ref).Ok?
  {
    && id in l && l[id].phase == Prepared && l[id].task_ref == ref
    && l[id].contract_digest == ContractDigest(r.contract) && l[id].native_interface == r.native_interface
    && l[id].prepared.Some?
    && Ok(l[id].prepared.value.expected_native_parameters) == NormalizeNativeSpawn(r.native_interface, HandedOut(r, ref).value)
  }

  /** The readback recognises a prepare that did commit. */
  lemma PrepareReadbackFindsItsOwn(l: Ledger, r: Request, bytes: Ledger -> nat, id: string, ref: string)
    requires ApplyPrepare(l, r, bytes).Ok? && ChooseIdentity(l, r.first, r.second) == Some((id, ref))
    ensures PreparedRecord(r, ref).Ok? && HandedOut(r, ref).Ok?
    ensures PrepareRecorded(ApplyPrepare(l, r, bytes).value.ledger, id, ref, r)
  {
    PrepareNeedsIdentity(l, r, bytes);
    HandedOutNormalizes(r, ref);
    var inserted := l[id := PreparedRecord(r, ref).value];
    PruneKeeps(inserted, Pressure(bytes));
    assert inserted[id].phase == Prepared;
  }

  /** It recognises exactly the record under the new id that is prepared with this reference,
      contract, interface and these frozen parameters. */
  lemma PrepareReadbackIsExact(l: Ledger, id: string, ref: string, r: Request)
    requires Admissible(r) && IsTaskRef(ref) && PreparedRecord(r, ref).Ok? && HandedOut(r, ref).Ok?
    ensures PrepareRecorded(l, id, ref, r)
            <==> var t := PreparedRecord(r, ref).value;
                 && id in l && l[id].phase == Prepared && l[id].task_ref == ref && l[id].native_interface == r.native_interface
                 && l[id].contract_digest == OfBusiness(r.contract.business)
                 && l[id].prepared.Some? && t.prepared.Some?
                 && l[id].prepared.value.expected_native_parameters == t.prepared.value.expected_native_parameters
  {
    HandedOutNormalizes(r, ref);
  }

  /** And what it recognises is a task that the very arguments handed out will match. */
  lemma PrepareReadbackIsClaimable(l: Ledger, id: string, ref: string, r: Request)
    requires Admissible(r) && IsTaskRef(ref) && PreparedRecord(r, ref).Ok? && HandedOut(r, ref).Ok?
    requires PrepareRecorded(l, id, ref, r)
    ensures l[id].phase == Prepared && l[id].task_ref == ref
    ensures l[id].prepared.Some?
            && ClaimParametersMatch(l[id].native_interface, HandedOut(r, ref).value,
                                    l[id].prepared.value.expected_native_parameters) == Ok(true)
  {
    HandedOutNormalizes(r, ref);
  }
}
