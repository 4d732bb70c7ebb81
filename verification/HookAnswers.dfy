/** scripts/governance_hook.py and governance_hook_diagnostics.py: which native calls the Hook
    recognises, and which claim each failure lets it make. */
module HookAnswers {
  import opened Basics
  import opened TaskNames
  import opened NativeSpawn
  import opened Records
  import opened Transitions
  import opened Dispatch
  import StoreProtocol

  type Failure = StoreProtocol.Failure<Error>

  datatype Code =
    | InputUnavailable | SessionUnavailable | CallIdUnavailable | MarkerConflict | NativeConflict | ClaimConflict
    | PreparationExpired | MaterialConflictCode | MaterialUnavailableCode | StateUnavailable | CommitUnknown | InternalError
    | ClaimedCode | ClaimedAfterWriteError

  datatype At = Recognition | IdentityStage | StateInit | ClaimStage | InClaim(stage: Stage)

  /** What the Hook says about the claim, and what it decides about the native call. */
  datatype Standing = NotAttempted | Unconfirmed | UnknownOutcome | Confirmed
  datatype Decision = Allow | Deny
  datatype Answer = Answer(code: Code, at: At, claim: Standing, decision: Decision)

  /** The exceptions `claim_spawn` meets, by class. */
  datatype Exception =
    | StateConflictError(aboutMaterial: bool) | PreparedCapabilityExpired
    | NativeInputUnavailable | NativeInputMismatch
    | ContextVerificationError | StoreError | OtherError
    | ClaimFailure(stage: Stage, cause: Exception)

  // ----- failures ----------------------------------------------------------------------------

  function ExceptionOf(e: Error): Exception {
    match e
    case Conflict => StateConflictError(false)
    case Expired => PreparedCapabilityExpired
    case NativeUnavailable => NativeInputUnavailable
    case NativeMismatch => NativeInputMismatch
    case MaterialConflict => StateConflictError(true)
    case MaterialUnavailable => ContextVerificationError
    case CapacityExceeded => StoreError
    case _ => OtherError
  }

  function ExceptionFrom(f: Failure): Exception {
    match f
    case Raised(e) => ExceptionOf(e)
    case _ => StoreError
  }

  /** The stage the callback's last assignment left behind. */
  function StageAt(f: Failure): Stage {
    match f
    case LockFailed => State
    case ReadFailed => State
    case Raised(e) => if e == MaterialConflict || e == MaterialUnavailable then MaterialStage else Validation
    case Rejected => Commit
    case WriteFailed => Commit
  }

  /** Conflicts and native input errors are raised as they are, the rest with their stage. */
  function Reported(f: Failure): Exception {
    match ExceptionFrom(f)
    case StateConflictError(m) => StateConflictError(m)
    case PreparedCapabilityExpired => PreparedCapabilityExpired
    case NativeInputUnavailable => NativeInputUnavailable
    case NativeInputMismatch => NativeInputMismatch
    case e => ClaimFailure(StageAt(f), e)
  }

  function CauseOf(e: Exception): Exception { match e case ClaimFailure(_, cause) => cause case _ => e }

  function StageOf(e: Exception): At { match e case ClaimFailure(stage, _) => InClaim(stage) case _ => ClaimStage }

  /** `classify_failure`. */
  function ClassifyFailure(e: Exception): Answer {
    var at := StageOf(e);
    if at == InClaim(Commit) then Answer(CommitUnknown, at, UnknownOutcome, Allow)
    else
      match CauseOf(e)
      case NativeInputUnavailable => Answer(InputUnavailable, at, Unconfirmed, Allow)
      case NativeInputMismatch => Answer(NativeConflict, at, Unconfirmed, Deny)
      case PreparedCapabilityExpired => Answer(PreparationExpired, at, Unconfirmed, Deny)
      case StateConflictError(m) => Answer(if m then MaterialConflictCode else ClaimConflict, at, Unconfirmed, Deny)
      case ContextVerificationError => Answer(MaterialUnavailableCode, at, Unconfirmed, Allow)
      case StoreError =>
        Answer(if at == InClaim(MaterialStage) then MaterialUnavailableCode else StateUnavailable, at, Unconfirmed, Allow)
      case _ =>
        Answer(if at == InClaim(MaterialStage) then MaterialUnavailableCode else InternalError, at, Unconfirmed, Allow)
  }

  /** Which evidence each failure may claim: a failure of the write, and nothing else, is
      unknown; a denial needs a conflict found before anything was written; a missing lock,
      ledger or material check never denies. */
  lemma FailuresClaimOnlyWhatTheyKnow(f: Failure)
    ensures var a := ClassifyFailure(Reported(f));
            && (a.claim == UnknownOutcome <==> f.Rejected? || f.WriteFailed?)
            && (a.claim == UnknownOutcome || a.claim == Unconfirmed)
            && (a.decision == Deny <==>
                  f.Raised? && f.error in {Conflict, Expired, NativeMismatch, MaterialConflict})
            && (a.code == MaterialUnavailableCode <==> f == StoreProtocol.Raised(MaterialUnavailable))
            && (a.code == StateUnavailable <==>
                  f.LockFailed? || f.ReadFailed? || f == StoreProtocol.Raised(CapacityExceeded))
  {
  }

  // ----- the claim, read back ------------------------------------------------------------------

  /** The exact readback: this record is claimed by this call with these parameters. */
  predicate ClaimedBy(t: Task, ref: string, toolUseId: string, input: ToolInput) {
    && t.task_ref == ref && t.phase == Claimed && t.claimed_tool_use_id == Some(toolUseId)
    && t.prepared.Some?
    && ClaimParametersMatch(t.native_interface, input, t.prepared.value.expected_native_parameters) == Ok(true)
  }

  ghost predicate ClaimRecorded(l: Ledger, ref: string, toolUseId: string, input: ToolInput) {
    |RefHolders(l, ref)| == 1 && ClaimedBy(l[Holder(l, ref)], ref, toolUseId, input)
  }

  method ReadBackClaim(l: Ledger, ref: string, toolUseId: string, input: ToolInput) returns (same: bool)
    ensures same == ClaimRecorded(l, ref, toolUseId, input)
  {
    var found := FindByRef(l, ref);
    if found.None? {
      return false;
    }
    var task := l[found.value];
    assert found.value == Holder(l, ref) by { assert Holder(l, ref) in RefHolders(l, ref); }
    if task.phase != Claimed || task.claimed_tool_use_id != Some(toolUseId) || task.prepared.None? {
      return false;
    }
    same := ClaimParametersMatch(task.native_interface, input, task.prepared.value.expected_native_parameters) == Ok(true);
  }

  /** What the Hook answers for one claim: bad input never reaches the store, a success is
      confirmed, a failure is recovered by exact readback or classified. */
  ghost function ClaimAnswer(op: Op, ending: StoreProtocol.Ending<Error>, found: Option<Ledger>): Answer
    requires op.Claim?
  {
    if op.now < 0 then ClassifyFailure(OtherError)
    else if !ValidToolUseId(op.toolUseId) then ClassifyFailure(StateConflictError(false))
    else
      match ending
      case Success => Answer(ClaimedCode, ClaimStage, Confirmed, Allow)
      case Failed(f) =>
        if found.Some? && ClaimRecorded(found.value, op.ref, op.toolUseId, op.input)
        then Answer(ClaimedAfterWriteError, ClaimStage, Confirmed, Allow)
        else ClassifyFailure(Reported(f))
  }

  // ----- recognition -----------------------------------------------------------------------------

  /** One PreToolUse event; absent or ill-typed fields are `None`. */
  datatype Payload = Payload(isSpawn: bool, input: Option<ToolInput>, session: Option<string>, toolUseId: Option<string>)

  datatype Recognised = Ignored | AnsweredAtOnce(answer: Answer) | Attempt(task_ref: string, toolUseId: string)

  function NotTried(code: Code, at: At, decision: Decision): Recognised {
    AnsweredAtOnce(Answer(code, at, NotAttempted, decision))
  }

  function MessageText(input: ToolInput): string {
    if "message" in input && input["message"].JString? then input["message"].text else ""
  }

  /** The explicit name, where JSON null counts as none. */
  function ExplicitName(input: ToolInput): Option<Json> {
    if "task_name" in input && input["task_name"] != JNull then Some(input["task_name"]) else None
  }

  /** `_pre` up to the claim. */
  function Recognise(p: Payload): Recognised {
    if !p.isSpawn then Ignored
    else if p.input.None? then NotTried(InputUnavailable, Recognition, Allow)
    else
      var input := p.input.value;
      var explicit, embedded := ExplicitName(input), TaskNameFromMessage(MessageText(input));
      var marked := MESSAGE_PREFIX <= MessageText(input);
      if explicit.None? && !marked then Ignored
      else if explicit.Some? && !explicit.value.JString? then NotTried(InputUnavailable, Recognition, Allow)
      else if marked && embedded.None? then NotTried(MarkerConflict, Recognition, Deny)
      else if explicit.Some? && embedded.Some? && explicit.value.text != embedded.value then
        NotTried(MarkerConflict, Recognition, Deny)
      else
        var name := if explicit.Some? && explicit.value.text != "" then Some(explicit.value.text) else embedded;
        var parsed := if name.Some? then ParseTaskName(name.value) else None;
        if parsed.None? then (if marked then NotTried(MarkerConflict, Recognition, Deny) else Ignored)
        else if p.session.None? || Strip(p.session.value) == "" then NotTried(SessionUnavailable, IdentityStage, Allow)
        else if p.toolUseId.None? || Strip(p.toolUseId.value) == "" then NotTried(CallIdUnavailable, IdentityStage, Allow)
        else Attempt(parsed.value.2, p.toolUseId.value)
  }

  /** Every governed name the call carries, explicit or in its message header. */
  predicate Names(input: ToolInput, name: string) {
    || (ExplicitName(input) == Some(JString(name)) && ParseTaskName(name).Some?)
    || TaskNameFromMessage(MessageText(input)) == Some(name)
  }

  /** A claim is attempted exactly for a spawn call that carries one governed name, neither
      contradicted by an explicit name nor by a broken marker, in a named session and call;
      and the reference tried is that name's. */
  lemma AttemptedExactly(p: Payload, ref: string, toolUseId: string)
    ensures Recognise(p) == Attempt(ref, toolUseId)
            <==> p.isSpawn && p.input.Some? && p.session.Some? && Strip(p.session.value) != ""
                 && p.toolUseId == Some(toolUseId) && Strip(toolUseId) != ""
                 && Consistent(p.input.value)
                 && exists name :: Names(p.input.value, name) && ParseTaskName(name).value.2 == ref
  {
  }

  /** The names of the call agree, and a marker it opens with is a whole one. */
  predicate Consistent(input: ToolInput) {
    && (ExplicitName(input).Some? ==> ExplicitName(input).value.JString?)
    && (MESSAGE_PREFIX <= MessageText(input) ==> TaskNameFromMessage(MessageText(input)).Some?)
    && (ExplicitName(input).Some? && TaskNameFromMessage(MessageText(input)).Some?
        ==> ExplicitName(input).value.text == TaskNameFromMessage(MessageText(input)).value)
  }

  /** What `_pre` answers: at once, for want of a store, or from the claim. */
  ghost function HookAnswer(p: Payload, storeError: Option<Exception>, claim: Answer): Option<Answer> {
    match Recognise(p)
    case Ignored => None
    case AnsweredAtOnce(a) => Some(a)
    case Attempt(_, _) =>
      if storeError.Some? then Some(ClassifyFailure(storeError.value).(at := StateInit, claim := NotAttempted)) else Some(claim)
  }

  /** No answer speaks of an attempt that was not made: a call that is not recognised, or finds
      no store, is answered as not attempted, and then a denial means a broken or contradicted
      marker; any other answer is the claim's own. */
  lemma AnswersSpeakOfAttempts(p: Payload, storeError: Option<Exception>, claim: Answer)
    requires claim.claim != NotAttempted
    ensures HookAnswer(p, storeError, claim).None? <==> Recognise(p).Ignored?
    ensures var a := HookAnswer(p, storeError, claim);
            a.Some? ==>
              && (a.value.claim == NotAttempted <==> !Recognise(p).Attempt? || storeError.Some?)
              && (a.value.claim != NotAttempted ==> a.value == claim)
              && (a.value.claim == NotAttempted && a.value.decision == Deny && storeError.None? ==>
                    a.value.code == MarkerConflict && p.input.Some? && MESSAGE_PREFIX <= MessageText(p.input.value))
  {
  }
}
