/** What each command does to the ledger, told from its input and the ledger before it: when it
    is accepted, which error it answers otherwise, and which record it changes how. */
module Commands {
  import opened Basics
  import opened TaskNames
  import opened NativeSpawn
  import opened Contracts
  import opened Records
  import opened Retention
  import opened Transitions
  import opened LedgerLaws
  import opened Validity
  import opened Effects
  import opened NormalNames

  /** The command stores `t'` under `id`, if pruning leaves it there, and answers `word`; other
      records are as they were, and only closed ones may be gone. */
  ghost predicate Stores(l: Ledger, op: Op, bytes: Ledger -> nat, id: string, t': Task, word: ResultWord) {
    && Apply(l, op, bytes).Ok?
    && var l' := Apply(l, op, bytes).value.ledger;
       && Apply(l, op, bytes).value.result == word
       && (id in l' ==> l'[id] == t') && (t'.phase != Closed ==> id in l')
       && (forall other <- l' :: other != id ==> other in l && l'[other] == l[other])
       && (forall other <- l :: other != id && l[other].phase != Closed ==> other in l')
  }

  /** The command does to the ledger what the revision does to the record. */
  ghost predicate Follows(l: Ledger, op: Op, bytes: Ledger -> nat, id: string, r: Result<Revision, Error>) {
    if r.Err? then r == Err(Conflict) && Apply(l, op, bytes) == Err(Conflict)
    else Stores(l, op, bytes, id, r.value.task, r.value.result)
  }

  lemma StoredThenPruned(l: Ledger, id: string, t': Task)
    requires id in l
    ensures var l' := Prune(l[id := t'], NoPressure());
            && (id in l' ==> l'[id] == t') && (t'.phase != Closed ==> id in l')
            && (forall other <- l' :: other != id ==> other in l && l'[other] == l[other])
            && (forall other <- l :: other != id && l[other].phase != Closed ==> other in l')
  {
    PruneKeeps(l[id := t'], NoPressure());
  }

  lemma PrunedThenStored(l: Ledger, id: string, t': Task)
    ensures var l' := Prune(l, NoPressure())[id := t'];
            && l'[id] == t'
            && (forall other <- l' :: other != id ==> other in l && l'[other] == l[other])
            && (forall other <- l :: other != id && l[other].phase != Closed ==> other in l')
  {
    PruneKeeps(l, NoPressure());
  }

  // ----- close -----------------------------------------------------------------------------------

  /** Closing: the named task, unless it was closed for another reason. */
  lemma CloseCommand(l: Ledger, id: string, ref: string, reason: string, now: int, bytes: Ledger -> nat)
    ensures var op := Close(id, ref, reason, now);
            var inputs := Text(id, 256) && Text(ref, 20) && Text(reason, 1024) && now >= 0;
            && (Apply(l, op, bytes) == Err(InvalidInput) <==> !inputs)
            && (Apply(l, op, bytes).Ok? <==>
                  inputs && id in l && l[id].task_ref == ref && (l[id].phase == Closed ==> l[id].close_reason == Some(reason)))
            && (Apply(l, op, bytes).Err? && inputs ==> Apply(l, op, bytes) == Err(Conflict))
            && (Apply(l, op, bytes).Ok? ==>
                  exists t' :: Stores(l, op, bytes, id, t', if l[id].phase == Closed then AlreadyClosed else ClosedResult)
                               && t'.phase == Closed && t'.close_reason == Some(reason)
                               && (if l[id].phase == Closed then t' == l[id] else t'.closed_at == Some(now)))
  {
    if id in l {
      CloseStores(l[id], reason, now);
      if Apply(l, Close(id, ref, reason, now), bytes).Ok? {
        var rev := ReviseClose(l[id], reason, now).value;
        StoredThenPruned(l, id, rev.task);
        assert Stores(l, Close(id, ref, reason, now), bytes, id, rev.task, rev.result);
      }
    }
  }

  // ----- dispatch result -----------------------------------------------------------------------

  /** A failed or uncertain dispatch: only before binding. */
  lemma DispatchResultCommand(l: Ledger, id: string, ref: string, result: Word, now: int, bytes: Ledger -> nat)
    ensures var op := DispatchResult(id, ref, result, now);
            var inputs := Text(id, 256) && Text(ref, 20) && (result == Failed || result == Unknown) && now >= 0;
            && (Apply(l, op, bytes) == Err(InvalidInput) <==> !inputs)
            && (Apply(l, op, bytes).Ok? <==>
                  inputs && id in l && l[id].task_ref == ref && (l[id].phase == Prepared || l[id].phase == Claimed))
            && (Apply(l, op, bytes).Err? && inputs ==> Apply(l, op, bytes) == Err(Conflict))
            && (Apply(l, op, bytes).Ok? && result == Failed ==>
                  Stores(l, op, bytes, id,
                         Stem(l[id], Closed, now).(close_reason := Some("dispatch_failed_not_created"), closed_at := Some(now)), ClosedResult))
            && (Apply(l, op, bytes).Ok? && result == Unknown ==>
                  Stores(l, op, bytes, id,
                         Stem(l[id], Reconcile, now).(reconcile := Some(ReconcileFact(DispatchResultUnknown, now))), ReconcileResult))
  {
    if id in l && (result == Failed || result == Unknown) {
      DispatchResultStores(l[id], result, now);
      if Apply(l, DispatchResult(id, ref, result, now), bytes).Ok? {
        StoredThenPruned(l, id, ReviseDispatchResult(l[id], result, now).value.task);
      }
    }
  }

  // ----- evidence ----------------------------------------------------------------------------------

  predicate EvidenceInputs(id: string, ref: string, target: string, e: Evidence, now: int) {
    && Text(id, 256) && Text(ref, 20) && Text(target, 1024)
    && match e
       case Observed(s) => s in {Running, Completed, Stopped, Interrupted, Errored, Unknown} && now >= 0
       case Notified(s) => s in {Completed, Stopped, Interrupted} && now >= 0
       case InterruptReturned(r) => r in {Failed, Inactive, Unknown} && now >= 0
       case CallReturned(r) => r in {Success, Failed} || (r == Unknown && now >= 0)
  }

  /** Evidence reaches exactly the record with the id, the reference and the target; a certain
      call result is answered for a bound one and writes nothing; anything else is stored as the
      record-level effects say. */
  lemma EvidenceCommand(l: Ledger, id: string, ref: string, target: string, e: Evidence, now: int, bytes: Ledger -> nat)
    ensures var op := Learn(id, ref, target, e, now);
            var inputs := EvidenceInputs(id, ref, target, e, now);
            var found := id in l && l[id].task_ref == ref && l[id].target == Some(target);
            var certain := e.CallReturned? && e.result != Unknown;
            && (Apply(l, op, bytes) == Err(InvalidInput) <==> !inputs)
            && (inputs && !found ==> Apply(l, op, bytes) == Err(Conflict))
            && (inputs && found && certain ==>
                  Apply(l, op, bytes) == if l[id].phase == Bound then Ok(Step(l, Echo(e.result))) else Err(Conflict))
            && (inputs && found && !certain ==>
                  Follows(l, op, bytes, id, ReviseEvidence(l[id], e, now)))
  {
    if EvidenceInputs(id, ref, target, e, now) && id in l && l[id].task_ref == ref && l[id].target == Some(target)
       && !(e.CallReturned? && e.result != Unknown) && ReviseEvidence(l[id], e, now).Ok? {
      StoredThenPruned(l, id, ReviseEvidence(l[id], e, now).value.task);
    }
  }

  /** An uncertain receipt is never lost: after the command the record holds the category of its
      source, with the time it was first received. */
  lemma UncertainReceiptStays(l: Ledger, id: string, ref: string, target: string, e: Evidence, now: int, bytes: Ledger -> nat)
    requires EvidenceInputs(id, ref, target, e, now)
    requires id in l && l[id].task_ref == ref && l[id].target == Some(target)
             && (l[id].phase == Bound || (l[id].phase == Terminal && l[id].terminal_fact.Some?))
    requires e == Observed(Unknown) || e == InterruptReturned(Unknown) || e == CallReturned(Unknown)
    ensures var op := Learn(id, ref, target, e, now);
            var code := match e case Observed(_) => PlatformObservationUnknown case InterruptReturned(_) => InterruptUnknown
                                case _ => DeliveryUnknown;
            && Apply(l, op, bytes).Ok?
            && var l' := Apply(l, op, bytes).value.ledger;
               && id in l' && l'[id].unknown_facts.Some? && code in l'[id].unknown_facts.value
               && l'[id].unknown_facts.value[code]
                  == (if l[id].unknown_facts.Some? && code in l[id].unknown_facts.value then l[id].unknown_facts.value[code] else now)
               && l'[id].phase == l[id].phase
  {
    EvidenceCommand(l, id, ref, target, e, now, bytes);
    match e
    case Observed(_) => ObservationStores(l[id], Unknown, now);
    case InterruptReturned(_) => InterruptStores(l[id], Unknown, now);
    case CallReturned(_) => CallResultStores(l[id], Unknown, now);
  }

  // ----- confirm -----------------------------------------------------------------------------------

  /** Another record owns the target while it is bound, terminal or in reconcile. */
  ghost predicate OwnedByAnother(l: Ledger, id: string, target: string) {
    exists owner :: owner in l && owner != id && l[owner].target == Some(target)
                    && (l[owner].phase == Bound || l[owner].phase == Terminal || l[owner].phase == Reconcile)
  }

  lemma OwnersSurvive(l: Ledger, id: string, target: string)
    ensures TargetTaken(Prune(l, NoPressure()), id, target) <==> OwnedByAnother(l, id, target)
  {
    PruneKeeps(l, NoPressure());
    var p := Prune(l, NoPressure());
    if owner :| owner in l && owner != id && l[owner].target == Some(target)
                && (l[owner].phase == Bound || l[owner].phase == Terminal || l[owner].phase == Reconcile) {
      assert owner in p && Owns(p[owner], target);
    }
  }

  /** A confirmation of a record that pruning leaves: bound exactly when it was claimed under
      this reference and no other open record owns the target. */
  lemma ConfirmCommand(l: Ledger, id: string, ref: string, target: string, now: int, bytes: Ledger -> nat)
    ensures var op := Confirm(id, ref, target, now);
            var inputs := Text(id, 256) && Text(ref, 20) && Text(target, 1024) && now >= 0;
            && (Apply(l, op, bytes) == Err(InvalidInput) <==> !inputs)
            && (inputs && (id !in l || id !in Prune(l, NoPressure())) ==> Apply(l, op, bytes) == Err(Conflict))
            && (inputs && id in l && id in Prune(l, NoPressure()) ==>
                  Follows(l, op, bytes, id, ReviseConfirm(l[id], ref, target, OwnedByAnother(l, id, target), now)))
            && (inputs && id in l ==>
                  ((exists t' :: Stores(l, op, bytes, id, t', BoundResult))
                   <==> l[id].phase == Claimed && l[id].task_ref == ref && !OwnedByAnother(l, id, target)))
  {
    PruneKeeps(l, NoPressure());
    OwnersSurvive(l, id, target);
    if id in l && id in Prune(l, NoPressure()) {
      var r := ReviseConfirm(l[id], ref, target, OwnedByAnother(l, id, target), now);
      ConfirmationStores(l[id], ref, target, OwnedByAnother(l, id, target), now);
      if r.Ok? {
        PrunedThenStored(l, id, r.value.task);
        if Text(id, 256) && Text(ref, 20) && Text(target, 1024) && now >= 0 {
          assert Stores(l, Confirm(id, ref, target, now), bytes, id, r.value.task, r.value.result);
        }
      }
    }
  }

  // ----- claim -------------------------------------------------------------------------------------

  lemma OnlyHolder(l: Ledger, id: string)
    requires UniqueRefs(l) && id in l
    ensures RefHolders(l, l[id].task_ref) == {id} && Holder(l, l[id].task_ref) == id
  {
  }

  lemma ClosedIsNotClaimed(id: string, t: Task, toolUseId: string, input: ToolInput, now: int, material: Material)
    requires Accepted(id, t) && t.phase == Closed
    ensures ReviseClaim(t, toolUseId, input, now, material) == Err(Conflict)
  {
    AcceptedIsValid(id, t);
  }

  /** A claim by reference does to the ledger what the claim does to the one record with it; the
      refusal, too, is that record's. */
  lemma ClaimCommand(l: Ledger, id: string, toolUseId: string, input: ToolInput, now: int, material: Material, bytes: Ledger -> nat)
    requires ValidLedger(l) && id in l
    ensures var op := Claim(l[id].task_ref, toolUseId, input, now, material);
            var r := ReviseClaim(l[id], toolUseId, input, now, material);
            if now < 0 then Apply(l, op, bytes) == Err(InvalidInput)
            else if Strip(toolUseId) == "" || |toolUseId| > 1024 then Apply(l, op, bytes) == Err(Conflict)
            else if r.Err? then Apply(l, op, bytes) == Err(r.error)
            else Stores(l, op, bytes, id, r.value.task, r.value.result)
  {
    var p := Prune(l, NoPressure());
    PruneKeeps(l, NoPressure());
    if id in p {
      OnlyHolder(p, id);
      var r := ReviseClaim(l[id], toolUseId, input, now, material);
      if r.Ok? {
        PrunedThenStored(l, id, r.value.task);
      }
    } else {
      ClosedIsNotClaimed(id, l[id], toolUseId, input, now, material);
      NoHolder(p, l, id);
    }
  }

  lemma NoHolder(p: Ledger, l: Ledger, id: string)
    requires UniqueRefs(l) && id in l && id !in p && p.Keys <= l.Keys && forall other <- p :: p[other] == l[other]
    ensures RefHolders(p, l[id].task_ref) == {}
  {
  }

  /** A reference no record has is refused. */
  lemma ClaimOfNothing(l: Ledger, ref: string, toolUseId: string, input: ToolInput, now: int, material: Material, bytes: Ledger -> nat)
    requires now >= 0 && forall id <- l :: l[id].task_ref != ref
    ensures Apply(l, Claim(ref, toolUseId, input, now, material), bytes) == Err(Conflict)
  {
    PruneKeeps(l, NoPressure());
    assert RefHolders(Prune(l, NoPressure()), ref) == {};
  }

  /** So a claim succeeds exactly when some record with the reference grants it, and after expiry
      a preparation never does. */
  lemma ClaimSucceedsExactly(l: Ledger, ref: string, toolUseId: string, input: ToolInput, now: int, material: Material, bytes: Ledger -> nat)
    requires ValidLedger(l)
    ensures Apply(l, Claim(ref, toolUseId, input, now, material), bytes).Ok?
            <==> now >= 0 && Strip(toolUseId) != "" && |toolUseId| <= 1024
                 && exists id <- l :: l[id].task_ref == ref && Granted(l[id], toolUseId, input, now, material)
    ensures now >= 0 && Strip(toolUseId) != "" && |toolUseId| <= 1024
            && (exists id <- l :: l[id].task_ref == ref && l[id].phase == Prepared && l[id].prepared.Some?
                                  && l[id].prepared.value.expires_at <= now)
            ==> Apply(l, Claim(ref, toolUseId, input, now, material), bytes) == Err(Expired)
  {
    if id :| id in l && l[id].task_ref == ref {
      ClaimCommand(l, id, toolUseId, input, now, material, bytes);
      ClaimIsGranted(l[id], toolUseId, input, now, material);
      ClaimIsRefused(l[id], toolUseId, input, now, material);
      OnlyOneHas(l, id);
    } else {
      if now >= 0 {
        ClaimOfNothing(l, ref, toolUseId, input, now, material, bytes);
      }
    }
  }

  lemma OnlyOneHas(l: Ledger, id: string)
    requires UniqueRefs(l) && id in l
    ensures forall other <- l :: l[other].task_ref == l[id].task_ref ==> other == id
  {
  }

  // ----- prepare -------------------------------------------------------------------------------------

  ghost predicate RefFree(l: Ledger, ref: string) { forall id <- l :: l[id].task_ref != ref }

  /** An unused id, one of whose two references is free. */
  ghost predicate Usable(l: Ledger, c: Candidate) {
    c.id !in l && (RefFree(l, c.hex[..12]) || RefFree(l, c.hex[..20]))
  }

  /** The short reference unless it is taken. */
  ghost function RefFor(l: Ledger, c: Candidate): string { if RefFree(l, c.hex[..12]) then c.hex[..12] else c.hex[..20] }

  lemma OccupiedMeansTaken(l: Ledger, ref: string)
    ensures ref in OccupiedRefs(l) <==> !RefFree(l, ref)
  {
  }

  /** The first usable of two candidates, each asked for only when needed; an ill-formed one ends
      the attempt. */
  lemma IdentityIsChosen(l: Ledger, first: Candidate, second: Candidate)
    ensures ChooseIdentity(l, first, second)
            == if !Text(first.id, 256) then None
               else if Usable(l, first) then Some((first.id, RefFor(l, first)))
               else if Text(second.id, 256) && Usable(l, second) then Some((second.id, RefFor(l, second)))
               else None
  {
    OccupiedMeansTaken(l, first.hex[..12]);
    OccupiedMeansTaken(l, first.hex[..20]);
    OccupiedMeansTaken(l, second.hex[..12]);
    OccupiedMeansTaken(l, second.hex[..20]);
  }

  /** A slug that names the text: spelled out of its lowered letters and digits, or "task". */
  predicate NamesText(text: string, normal: string) {
    if WordChars(Lower(text)) == "" then normal == "task" else SpellsOut(Lower(text), normal)
  }

  /** The longest slug that begins `normal` and leaves a task name of at most 64 characters. */
  ghost predicate LongestFitting(normal: string, semantic: string, profile: string, ref: string) {
    && Slug(semantic) && semantic <= normal && |"sg_" + profile + "_" + semantic + "_t_" + ref| <= 64
    && forall other: string :: Slug(other) && other <= normal && |"sg_" + profile + "_" + other + "_t_" + ref| <= 64 ==> |other| <= |semantic|
  }

  lemma FittedFits(normal: string, profile: string, ref: string)
    requires Slug(normal) && IsProfile(profile) && IsTaskRef(ref)
    ensures LongestFitting(normal, Fitted(normal, TASK_NAME_MAX_LENGTH - |profile| - |ref| - 7), profile, ref)
  {
    var room := TASK_NAME_MAX_LENGTH - |profile| - |ref| - 7;
    FittedIsLongest(normal, room, normal);
    forall other: string | Slug(other) && other <= normal && |"sg_" + profile + "_" + other + "_t_" + ref| <= 64
      ensures |other| <= |Fitted(normal, room)|
    {
      FittedIsLongest(normal, room, other);
    }
  }

  lemma BuiltName(profile: string, objective: string, ref: string) returns (name: string, normal: string, semantic: string)
    requires IsProfile(profile) && IsTaskRef(ref)
    ensures NamesText(objective, normal) && LongestFitting(normal, semantic, profile, ref)
    ensures ParseTaskName(name) == Some((profile, semantic, ref)) && |name| <= 64
    ensures BuildTaskName(profile, NormalizeSemanticName(objective), ref) == Ok(name)
  {
    normal := NormalizeSemanticName(objective);
    NormalizedNameSpellsOut(objective);
    NormalizedNameIsSlug(objective);
    SlugsAreNormalized(normal);
    BuildThenParse(profile, normal, ref);
    name := BuildTaskName(profile, normal, ref).value;
    semantic := Fitted(normal, TASK_NAME_MAX_LENGTH - |profile| - |ref| - 7);
    FittedFits(normal, profile, ref);
  }

  /** The prepared record, field by field, for its task name. */
  ghost predicate IsPreparedAs(r: Request, ref: string, name: string, t: Task) {
    var b, s := r.contract.business, r.contract.spawn;
    var verification := if b.verified.Some? && r.material.Checked?
                        then Some(Verification(b.verified.value, r.material.evidence)) else None;
    var prompt := RenderPrompt(b, if b.verified.Some? && r.material.Checked? then Some(r.material.evidence) else None);
    t == Task(ref, r.native_interface, Prepared, OfBusiness(b), b, r.created_at, r.created_at,
              Some(Capability(r.contract, verification,
                              NativeParameters(Some(name), "[subagent-governance:" + name + "]\n" + prompt, s.fork_turns,
                                               Lift(s.model), Lift(s.reasoning_effort)),
                              OfSpawn(s), r.created_at + 900)),
              None, None, None, None, None, None, None, None, None, None, None)
  }

  lemma RecordFields(r: Request, ref: string, name: string)
    requires BuildTaskName(r.contract.business.profile, NormalizeSemanticName(r.contract.business.objective), ref) == Ok(name)
    ensures PreparedRecord(r, ref).Ok? && IsPreparedAs(r, ref, name, PreparedRecord(r, ref).value)
  {
  }

  /** What is prepared; the name carries the profile, the reference and what fits of the name its
      objective spells. */
  lemma PreparedFields(r: Request, ref: string) returns (name: string, normal: string, semantic: string)
    requires Admissible(r) && IsTaskRef(ref)
    ensures NamesText(r.contract.business.objective, normal)
    ensures LongestFitting(normal, semantic, r.contract.business.profile, ref)
    ensures ParseTaskName(name) == Some((r.contract.business.profile, semantic, ref)) && |name| <= 64
    ensures PreparedRecord(r, ref).Ok? && IsPreparedAs(r, ref, name, PreparedRecord(r, ref).value)
  {
    assert IsProfile(r.contract.business.profile) by { ValidBusinessIs(r.contract.business); }
    name, normal, semantic := BuiltName(r.contract.business.profile, r.contract.business.objective, ref);
    RecordFields(r, ref, name);
  }

  /** Preparing succeeds exactly for admissible input with a usable candidate, and inserts the
      record above under the chosen id; open records stay, and so do all others that are left. */
  lemma PrepareCommand(l: Ledger, r: Request, bytes: Ledger -> nat)
    ensures Apply(l, Prepare(r), bytes).Ok?
            <==> Admissible(r) && Text(r.first.id, 256)
                 && (Usable(l, r.first) || (Text(r.second.id, 256) && Usable(l, r.second)))
    ensures Apply(l, Prepare(r), bytes).Ok? ==>
              var c := if Usable(l, r.first) then r.first else r.second;
              PreparedRecord(r, RefFor(l, c)).Ok? && c.id !in l
              && Inserts(l, Prepare(r), bytes, c.id, PreparedRecord(r, RefFor(l, c)).value)
  {
    IdentityIsChosen(l, r.first, r.second);
    if Admissible(r) {
      PrepareNeedsIdentity(l, r, bytes);
      if ApplyPrepare(l, r, bytes).Ok? {
        PreparedIsNew(l, r, bytes);
        var (id, ref) := ChooseIdentity(l, r.first, r.second).value;
        PruneKeeps(l[id := PreparedRecord(r, ref).value], Pressure(bytes));
      }
    }
  }

  ghost predicate Inserts(l: Ledger, op: Op, bytes: Ledger -> nat, id: string, t: Task) {
    && Apply(l, op, bytes).Ok? && Apply(l, op, bytes).value.result == PreparedResult
    && var l' := Apply(l, op, bytes).value.ledger;
       && id in l' && l'[id] == t
       && (forall other <- l' :: other != id ==> other in l && l'[other] == l[other])
       && (forall other <- l :: l[other].phase != Closed ==> other in l')
  }
}
