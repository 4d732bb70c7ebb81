# Subagent governance: a verified model

Subagent governance keeps one ledger per session. A task id maps to a task record that is
prepared, claimed by the Hook when the native spawn call arrives, bound to the agent that was
created, ended by evidence from several sources, sent to reconcile when facts conflict, and
closed by a parent decision. Every write passes a strict validator and replaces the ledger
file under a lock. A separate command publishes the plugin itself: it switches the stable tree
and a cache of at most two versions inside a transaction that can be recovered after a crash.

The project models these parts and proves what they promise.

| Part | Modules |
|---|---|
| Task names, message headers, native call shapes | `TaskNames`, `NormalNames`, `NativeSpawn`, `NativeInputs` |
| The ledger: contracts, records, validator, retention, the ten commands | `Contracts`, `Records`, `Validator`, `Retention`, `Transitions`, `Lifecycle`, `Dispatch` |
| What each command does, told from input and ledger; what the validator and the store accept | `Effects`, `Commands`, `RecordRules`, `Committing` |
| What the ledger keeps, over one command and over whole runs | `LedgerLaws`, `Validity`, `Guards`, `LongMessages`, `LedgerRuns`, `TerminalOrder` |
| The store under interleaving, faults and kills; the Hook's answers | `StoreProtocol`, `HookAnswers`, `ClaimTruth`, `HookTruth` |
| Bundles and their digests; deployment and crash recovery | `Bundle`, `HashedBytes`, `BundleStaging`, `Disk`, `Recovery`, `Deploy`, `DeployRuns` |

How it is built:

- A task is one record with optional fields, and validity is what the validator computes, not
  something the types give. The commands are methods that update a `SessionState` in place,
  statement by statement as the callbacks do; each is proved equal to a function of the old
  ledger (`Transitions.Apply`), and the laws are proved about that function. What the function
  itself answers is told a second time without it, over the stored fields and the input: which
  commands succeed, the error of each that does not, and the record each leaves (`Effects`,
  `Commands`).
- The store is a class with the steps lock, read, callback, validate, replace, read back, and
  beside it a machine in which any number of callers take those steps in any order, with a
  fault or a kill possible at each of them.
- The deployment works on a small file system whose operations consume a weather schedule: an
  operation works, fails, or ends the process, before or after its effect, and a copy or a
  deletion may leave any partial tree. The native installer may leave any cache at all.
- What a disk stands for (`Recovery.Committed`) is the snapshots of its transaction once they
  are complete, and the live roots otherwise. That is the state no failure may lose.

Results that differ from what one would expect:

- The claim callback accepts a call id with surrounding whitespace; the validator refuses the
  ledger it leaves (`Guards.PaddedClaimIsRefused`). `Guards.GuardedValidity` gives, for each
  command, the exact condition on the ledger and the input before it under which the validator
  accepts what the command makes of a ledger.
- A prepare can be refused for one more reason than its input, identities and capacity: a
  rendered message longer than the validator allows. That is exact
  (`Validity.PrepareAdmission`), and real: a contract whose canonical record has exactly the
  65,536 bytes it may have is prepared, and refused at the write
  (`LongMessages.MessageCanBeTooLong`).
- The bytes hashed for a tree do not determine the tree. They do exactly when it holds a single
  file that does not itself hold the joint of two frames
  (`HashedBytes.BytesDetermineTree`); every tree of two or more files, with or without NUL
  bytes, hashes like a tree of one file fewer (`HashedBytes.MergedTreeHashesAlike`). Elsewhere a
  digest stands for the framed entries themselves. What rests on that (`Bundle.SafeDigestTells`,
  `Disk.FactsTell`, the refusal of a changed previous version in `Deploy.RestorePrevious`, the
  target in `Deploy.Deployed`) holds of the real bytes when the recorded tree has no NUL byte
  and the tree compared with it has as many files (`HashedBytes.SameCountTreesTell`,
  `HashedBytes.CacheBytesTell`), which for a verified bundle means under the same allowlist
  (`HashedBytes.VerifiedBytesTell`). The new stable needs none of this: it is the staged
  projection, renamed.
- Recovery refuses three kinds of disk that a stopped deployment or recovery can leave
  (`Recovery.Unrecoverable`), and each is reached by one strike: a crash right after the mkdir
  (`Deploy.CreateSnapshot`), a removal of the backup cut short (`Deploy.Finish`), and a copy of
  stable cut short where there is no backup (`Recovery.RecoverTransaction`). Nothing is lost
  there either, and nothing is touched. Every other stop with a confined installer is
  recoverable (`Deploy.UpToCleanUp`, `DeployRuns.StopThenRecover`).

Text, sizes and outside facts enter as parameters: the encoded size of a ledger, the result of
checking declared materials, generated ids with their digests, times, the parsing of the two
bundle JSON files, the state of the worktree, and the installer's effect.

## Model

| member | source | states |
|---|---|---|
| `TaskNames.NormalizedNameIsSlug` | scripts/governance_dispatch_identity.py:20-23 | the normal form of any text is a non-empty slug |
| `TaskNames.SlugsAreNormalized` | scripts/governance_dispatch_identity.py:20-23 | normalising a slug changes nothing |
| `NormalNames.NormalizedNameSpellsOut` | scripts/governance_dispatch_identity.py:20-23 | the normal form has the lowered ASCII letters and digits of the text in order, with an underscore between two neighbours exactly where another character stood between them; it is "task" exactly when the text has none |
| `NormalNames.OnlyNormalName` | scripts/governance_dispatch_identity.py:20-23 | no other slug spells the text out so |
| `NormalNames.GapBetween` | scripts/governance_dispatch_identity.py:20-23 | the gap recorded between two neighbouring word characters is whether anything stands between them |
| `NormalNames.LowerByCharacter` | scripts/governance_dispatch_identity.py:21 | lowering keeps every character but the ASCII capitals, each of which becomes its small letter, two characters aside that lower to something else |
| `NormalNames.FittedIsLongest` | scripts/governance_dispatch_identity.py:48-53 | a name that must fit is cut to the longest beginning that is still a slug |
| `TaskNames.ParseIsExact` | scripts/governance_dispatch_identity.py:56-63 | the parser returns a profile, name and reference exactly when the string is at most 64 characters and is the pattern filled with them, so the reading is unique |
| `TaskNames.BuildThenParse` | scripts/governance_dispatch_identity.py:42-53 | for every text, profile and 12- or 20-digit reference a name of at most 64 characters is built, and parsing it gives the profile, the fitted normal name and the reference back |
| `TaskNames.BuildRejects` | scripts/governance_dispatch_identity.py:42-47 | building fails exactly for an unknown profile or a malformed reference |
| `TaskNames.ParseThenBuild` | scripts/governance_dispatch_identity.py:42-63 | every string the parser accepts is rebuilt from its three parts |
| `TaskNames.HeaderRoundTrip` | scripts/governance_dispatch_identity.py:66-73 | the header put before any prompt yields the task name again |
| `NativeSpawn.RenderThenNormalize` | scripts/governance_native_adapter.py:51-108 | for both native interfaces and every admissible spawn configuration, normalising the rendered call gives name, message, fork turns, model and effort back |
| `NativeSpawn.ClaimComparisonIsExact` | scripts/governance_dispatch.py:103-112 | a rendered call matches a capability exactly when it was rendered for the same name and the same spawn configuration |
| `NativeSpawn.InterfacesDoNotMix` | scripts/governance_native_adapter.py:69-108 | a call rendered for one interface cannot be verified under the other |
| `NativeInputs.HeaderIsExact` | scripts/governance_dispatch_identity.py:66-73 | a message names a task exactly when its first line is the marker around a name that parses |
| `NativeInputs.TurnsCallIsExact` | scripts/governance_native_adapter.py:69-108 | for any input of the turns interface, which calls are read and as what, field by field |
| `NativeInputs.ContextCallIsExact` | scripts/governance_native_adapter.py:69-108 | the same for the context interface |
| `NativeInputs.MismatchIsExact` | scripts/governance_native_adapter.py:69-100 | a call with known fields is a mismatch exactly when name and marker differ or turns or context are ill formed |
| `NativeInputs.TurnsMatchIsExact` | scripts/governance_dispatch.py:103-112 | which calls of the turns interface match frozen parameters, over the fields of the call: name, turns, model and effort agree and the message contradicts nothing |
| `NativeInputs.ContextMatchIsExact` | scripts/governance_dispatch.py:103-112 | the same for the context interface, where the name is the marker's |
| `NativeInputs.TurnsAre` | scripts/governance_native_adapter.py:29-34 | turns are none, all, or a positive number of at most twelve digits |
| `Contracts.ValidBusinessIs` | scripts/governance_contracts.py:115-192 | the checks field by field accept exactly the contracts whose texts, lists and paths are bounded and whose canonical record is at most 65,536 bytes |
| `Contracts.PromptEndsWell` | scripts/governance_dispatch_rendering.py:19-50 | the rendered prompt is never empty and never ends in whitespace |
| `Contracts.PromptReads` | scripts/governance_dispatch_rendering.py:19-50 | the prompt is the titled sections in this order, each followed by a blank line, empty ones left out, and the duty last |
| `Contracts.BulletsJoin` | scripts/governance_dispatch_rendering.py:15-16 | a list is rendered item by item, a newline between two |
| `Records.AcceptedIsValid` | scripts/governance_state.py:191-279 | a record passes the checks one after another exactly when it is valid |
| `Validator.PhaseTables` | scripts/governance_state.py:72-94 | the tables of required and optional fields allow exactly the shapes described phase by phase |
| `Validator.ValidatePrepared` | scripts/governance_state.py:154-188 | nothing is reported exactly for a well-formed capability: contract, digest, verification, expected parameters and expiry |
| `Validator.ValidateCapability` | scripts/governance_state.py:226-241 | nothing is reported exactly for a well-formed capability that fits its record |
| `Validator.ValidateEvidence` | scripts/governance_state.py:117-152 | nothing is reported exactly when every evidence field that is present is well formed and bound facts accompany a target |
| `Validator.ValidateTask` | scripts/governance_state.py:191-279 | nothing is reported exactly for a valid record |
| `Validator.ScanTask` | scripts/governance_state.py:304-319 | one turn of the scan reports a clash with the records seen so far exactly when there is one |
| `Validator.ValidateCurrentStateFormat` | scripts/governance_state.py:282-320 | nothing is reported exactly for a valid ledger; a reference or ownership issue is reported exactly when a duplicate pair exists, and names two records that clash |
| `RecordRules.AcceptedByTheRules` | scripts/governance_state.py:191-279 | the validator accepts a record exactly under one flat list of conditions on its stored fields, phase by phase |
| `RecordRules.LedgerByTheRules` | scripts/governance_state.py:282-320 | and a ledger exactly when it has at most 512 such records, no two share a reference, and no two that are bound, terminal or in reconcile share a target |
| `RecordRules.StripCuts` | scripts/governance_state.py:101-102 | stripping cuts whitespace off both ends and nothing else |
| `Retention.Sorted` | scripts/governance_lifecycle.py:135-139 | the given ids, each once, in closing order: earlier closing time first, then earlier creation time, then the smaller id as a string |
| `Retention.PruneClosedTasks` | scripts/governance_lifecycle.py:131-147 | the in-place loop equals the reference definition, which drops the oldest closed record while a limit is exceeded; what it returns is what it removed, in closing order |
| `Retention.EvictionOrder` | scripts/governance_lifecycle.py:135-146 | of two closed records the one with the earlier closing time, then creation time, then smaller id is gone whenever the other is |
| `Basics.OrderIsLexicographic` | scripts/governance_lifecycle.py:138 | the string order decides by the first character that differs, a proper beginning coming first |
| `Retention.PruneKeeps` | scripts/governance_lifecycle.py:131-147 | pruning removes closed records only and leaves all others as they are |
| `Retention.PruneMeetsLimits` | scripts/governance_lifecycle.py:140-146 | afterwards both limits are met or no closed record is left |
| `Retention.PruneIsMinimal` | scripts/governance_lifecycle.py:136-146 | what is removed is a prefix in age order and the least one whose removal suffices |
| `Retention.PruneIsStable` | scripts/governance_lifecycle.py:140-146 | a ledger within the limits is left alone |
| `Retention.PruneTwice` | scripts/governance_lifecycle.py:131-147 | pruning again changes nothing |
| `Retention.AdmissionIsExact` | scripts/governance_state_store.py:174-179 | after pruning for admission the ledger is over capacity exactly when the open records alone are |
| `Lifecycle.RecordPlatformObservation` | scripts/governance_lifecycle.py:162-257 | the new ledger and the answer are those the transition function gives for the old ledger |
| `Lifecycle.RecordCallResult` | scripts/governance_lifecycle.py:260-305 | the same; a certain result writes nothing |
| `Lifecycle.RecordTerminalNotification` | scripts/governance_lifecycle.py:308-366 | the same |
| `Lifecycle.RecordInterruptResult` | scripts/governance_lifecycle.py:369-454 | the same |
| `Lifecycle.CloseTask` | scripts/governance_lifecycle.py:457-505 | the same |
| `Dispatch.FindByRef` | scripts/governance_dispatch.py:92-100 | finds the record with a reference exactly when it is the only one |
| `Dispatch.ClaimSpawn` | scripts/governance_dispatch.py:133-175 | the new ledger and the answer are the specified ones, and the stage is commit exactly when the callback succeeds |
| `Dispatch.OwnedElsewhere` | scripts/governance_dispatch.py:260-269 | finds another owner of the target exactly when there is one |
| `Dispatch.ConfirmDispatch` | scripts/governance_dispatch.py:221-299 | the new ledger and the answer are those the transition function gives |
| `Dispatch.RecordDispatchResult` | scripts/governance_dispatch.py:302-347 | the same |
| `Dispatch.ChooseIdentityIn` | scripts/governance_protocol.py:79-92 | two candidates are tried at most, and the chosen one is unused with an unused reference |
| `Dispatch.PrepareDispatch` | scripts/governance_protocol.py:75-102 | the new ledger and the answer are those the transition function gives, insert and prune in one step |
| `Effects.ClaimIsGranted` | scripts/governance_dispatch.py:133-175 | a claim succeeds exactly for the same call that already claimed the record, or for a prepared record before expiry with a valid contract and materials that check to the stored verification, and in both cases with matching parameters; what it stores and answers |
| `Effects.ClaimIsRefused` | scripts/governance_dispatch.py:138-161 | the exact condition of each refusal: expired, conflict, input that cannot be verified, input that contradicts itself |
| `Effects.MaterialsRefuse` | scripts/governance_dispatch.py:161-170 | declared materials that cannot be checked are unavailable, and those that check to something else are a conflict |
| `Effects.ObservationStores` | scripts/governance_lifecycle.py:180-254 | what a platform observation stores and answers, over the fields of the record |
| `Effects.CallResultStores` | scripts/governance_lifecycle.py:260-305 | the same for a call result: an uncertain one is noted under its own category with its first time |
| `Effects.NotificationStores` | scripts/governance_lifecycle.py:326-363 | the same for a terminal notification |
| `Effects.InterruptStores` | scripts/governance_lifecycle.py:387-451 | the same for an interrupt result, an uncertain one under its own category |
| `Effects.EvidenceOutsideTheBond` | scripts/governance_lifecycle.py:180-210 | evidence is refused before binding and after closing, and changes nothing in reconcile |
| `Effects.ConfirmationStores` | scripts/governance_dispatch.py:232-290 | what a confirmation stores and answers in each phase, over the fields of the record |
| `Effects.DispatchResultStores` | scripts/governance_dispatch.py:321-344 | the same for a failed or uncertain dispatch |
| `Effects.CloseStores` | scripts/governance_lifecycle.py:475-501 | a close succeeds unless the record was closed for another reason, and the reason submitted is the reason stored |
| `Commands.ClaimCommand` | scripts/governance_dispatch.py:133-175 | a claim does to the ledger what it does to the one record with the reference, and its refusal is that of the record |
| `Commands.ClaimSucceedsExactly` | scripts/governance_dispatch.py:127-175 | over any valid ledger a claim succeeds exactly when a record with the reference grants it, and meets an expired preparation with the expiry error |
| `Commands.ClaimOfNothing` | scripts/governance_dispatch.py:92-100 | a reference no record has is refused |
| `Commands.ConfirmCommand` | scripts/governance_dispatch.py:221-299 | a confirmation binds exactly a claimed record with this reference whose target no other open record owns; anything else is what the record-level effect says |
| `Commands.DispatchResultCommand` | scripts/governance_dispatch.py:302-347 | a dispatch result is taken exactly before binding; which record it leaves, field by field |
| `Commands.EvidenceCommand` | scripts/governance_lifecycle.py:162-454 | evidence reaches exactly the record with the id, the reference and the target, and is refused otherwise |
| `Commands.UncertainReceiptStays` | scripts/governance_lifecycle.py:205-398 | after an uncertain receipt the record holds the category of its source with the time it was first received |
| `Commands.CloseCommand` | scripts/governance_lifecycle.py:457-505 | a close succeeds exactly for a record with the id and the reference that was not closed for another reason |
| `Commands.IdentityIsChosen` | scripts/governance_protocol.py:79-92 | the first of two candidates whose id is unused and one of whose references is free, the short reference first |
| `Commands.PreparedFields` | scripts/governance_dispatch_identity.py:42-53 | every field of a prepared record; its name has at most 64 characters and carries the profile, the reference, and the longest fitting beginning of the name the objective spells |
| `Commands.PrepareCommand` | scripts/governance_protocol.py:75-102 | a prepare succeeds exactly for admissible input with a usable candidate, and inserts that record under its id |
| `LedgerLaws.TransitionShape` | scripts/governance_dispatch.py:133-175 | every successful command other than prepare revises one record between prunings, and answers with that revision |
| `LedgerLaws.ReviseClaimIsLater` | scripts/governance_dispatch.py:133-175 | a claim advances the phase and overwrites no identity, capability or fact |
| `LedgerLaws.ReviseConfirmIsLater` | scripts/governance_dispatch.py:232-290 | a confirmation advances the phase and overwrites no fact |
| `LedgerLaws.ReviseEvidenceIsLater` | scripts/governance_lifecycle.py:180-454 | evidence advances the phase; first unknown times, the first reconcile cause and the first concrete end stay |
| `LedgerLaws.StepAdvances` | scripts/governance_lifecycle.py:99-147 | a successful command touches at most one record, every survivor is a later state of itself, and only closed records disappear |
| `LedgerLaws.PreparedIsNew` | scripts/governance_protocol.py:75-102 | prepare adds one prepared record under an unused id and keeps every open record |
| `Validity.EvidenceValid` | scripts/governance_lifecycle.py:180-454 | a record revised by evidence is valid exactly when it is unchanged or not stamped before its creation |
| `Validity.ConfirmValid` | scripts/governance_dispatch.py:232-290 | the same for confirmation |
| `Validity.ClaimValid` | scripts/governance_dispatch.py:127-175 | the same for a claim, and exactly when a first claim's call id has no surrounding whitespace |
| `Validity.CloseValid` | scripts/governance_lifecycle.py:475-505 | the same for closing |
| `Validity.DispatchResultValid` | scripts/governance_dispatch.py:321-347 | the same for a dispatch result |
| `Validity.TargetsStayExclusive` | scripts/governance_dispatch.py:248-290 | a revised record owns a target only if it did before or no other record owns it |
| `Validity.InductiveValidity` | scripts/governance_state.py:191-320 | the ledger a successful command makes of a valid one is valid exactly when the revised record, if it survives, is timely |
| `Guards.PruneKeepsYoungest` | scripts/governance_lifecycle.py:131-147 | pruning keeps a record exactly when it is open or fewer closed records than the retention number are younger |
| `Guards.UnmovedIsExact` | scripts/governance_lifecycle.py:180-454 | evidence leaves a record as it is exactly when the record already holds it, told from the record alone |
| `Guards.GuardedValidity` | scripts/governance_state.py:191-320 | for each command a condition on the record, the ledger and the input before it decides exactly whether the validator accepts what it makes of the ledger |
| `Guards.PaddedClaimIsRefused` | scripts/governance_dispatch.py:127-175 | any call id with surrounding whitespace claims a task as prepared, in the callback, and the validator refuses the ledger it leaves |
| `Guards.CallWithASpace` | scripts/governance_dispatch.py:127-128 | there is such an id |
| `Validity.PreparedRecordValid` | scripts/governance_protocol.py:93-98 | a prepared record is always built, and is valid exactly when its message fits |
| `Validity.PrepareAdmission` | scripts/governance_state_store.py:181-193 | a prepare is admitted exactly when its message fits and the new record and the open records alone fit both limits |
| `Committing.PrepareCommits` | scripts/governance_state_store.py:174-193 | a prepare is written exactly when its message has at most 65,536 characters and the new record and the open ones are at most 512 and encode to at most 3,145,728 bytes |
| `Committing.OthersCommit` | scripts/governance_state_store.py:181-193 | any other command is written exactly when its guard held before it and the result encodes to at most 4,194,304 bytes |
| `LongMessages.PromptLength` | scripts/governance_dispatch_rendering.py:19-50 | the length of every rendered prompt, section by section |
| `LongMessages.WideBytes` | scripts/governance_contracts.py:183-192 | the canonical record of the witness is exactly 65,536 bytes |
| `LongMessages.MessageCanBeTooLong` | scripts/governance_state.py:181-182 | a contract inside every limit is prepared on an empty ledger and its write refused for the length of its message alone |
| `Validity.PrepareNeedsIdentity` | scripts/governance_protocol.py:79-92 | admissible input fails before the write only for want of an identity; a chosen one is unused |
| `LedgerRuns.RunStaysValid` | scripts/governance_state_store.py:206-228 | every ledger of every run is valid: references unique, targets owned by one open record |
| `LedgerRuns.FactsNeverChange` | scripts/governance_lifecycle.py:99-128 | over any number of commands a living record is a later state of what it was |
| `LedgerRuns.TargetIsOwnedForLife` | scripts/governance_dispatch.py:248-290 | a bound target stays with its record, and no other open record holds it while the record is open |
| `LedgerRuns.RetentionHolds` | scripts/governance_lifecycle.py:131-147 | from an empty ledger no committed ledger holds more than 64 closed records |
| `LedgerRuns.ReplayIsHarmless` | scripts/governance_dispatch.py:133-290 | a committed command submitted again at once, at any two times, is refused or changes nothing |
| `LedgerRuns.OfferedOperationsSucceed` | scripts/governance_operation_inputs.py:8-33 | every next operation a record offers succeeds and is valid to write however it is completed |
| `LedgerRuns.OffersAre` | scripts/governance_operation_inputs.py:16-31 | which operation is offered in which phases |
| `TerminalOrder.AbsorbJoins` | scripts/governance_lifecycle.py:180-454 | one piece of evidence moves the verdict of a record by a join, whatever else the record holds |
| `TerminalOrder.SummaryJoins` | scripts/governance_lifecycle.py:180-254 | one more reported end moves the summary of the reported set by the same join |
| `TerminalOrder.VerdictIsSummary` | scripts/governance_lifecycle.py:180-454 | after any finite sequence a bound record is in reconcile exactly when two concrete ends were reported, else holds the unique end, inactivity, or stays open |
| `TerminalOrder.OrderDoesNotMatter` | scripts/governance_lifecycle.py:180-454 | every permutation gives the same phase, and the same status when that phase is terminal |
| `TerminalOrder.VerdictInRun` | scripts/governance_lifecycle.py:180-454 | the same inside a run of the whole session: the set of committed reports alone decides the verdict |
| `StoreProtocol.StateStore.CompareAndSet` | scripts/governance_state_store.py:206-228 | the sequential method is the atomic update, and a failed predicate writes nothing |
| `StoreProtocol.UpdateIsExact` | scripts/governance_state_store.py:181-219 | the file changes exactly when the callback succeeds, the check accepts and no fault comes before the replace, and then to the callback's result; what each ending means |
| `StoreProtocol.StepKeeps` | scripts/governance_state_store.py:140-228 | every action of every caller keeps the protocol invariant |
| `StoreProtocol.FileIsSerial` | scripts/governance_state_store.py:100-125 | under every schedule the file is the committed callbacks applied one after another, each to everything before it, and one caller at most is inside |
| `StoreProtocol.EndingsAreAtomic` | scripts/governance_state_store.py:206-228 | every caller that ended was the atomic update at one moment, and a second read saw a committed file |
| `StoreProtocol.EndingTellsCommit` | scripts/governance_state_store.py:181-219 | success means committed, a failure before the write means not |
| `StoreProtocol.StepsRefineUpdate` | scripts/governance_state_store.py:140-219 | the steps of one caller running undisturbed are the atomic update |
| `HookAnswers.ReadBackClaim` | scripts/governance_dispatch.py:183-199 | the readback succeeds exactly when the record with the reference is claimed by this call with these parameters |
| `HookTruth.ReadbackIsExact` | scripts/governance_dispatch.py:183-199 | what the readback finds: one record only has the reference, it is claimed by this call, and the parameters match |
| `HookAnswers.AttemptedExactly` | scripts/governance_hook.py:67-99 | a claim is attempted exactly for a spawn call whose names agree on one governed name, in a named session and call, and on that name's reference |
| `HookAnswers.AnswersSpeakOfAttempts` | scripts/governance_hook.py:67-119 | an answer is not attempted exactly when no claim was made; without a store failure a denial then means a marker that is broken or contradicted |
| `HookAnswers.FailuresClaimOnlyWhatTheyKnow` | scripts/governance_hook_diagnostics.py:79-102 | only a failure of the write is unknown, and only a conflict found before it denies |
| `NativeInputs.IgnoredExactly` | scripts/governance_hook.py:67-92 | the Hook is silent exactly about calls that are no spawn, carry no name, or a name that is not governed, without a marker |
| `NativeInputs.DeniedAtOnceExactly` | scripts/governance_hook.py:80-93 | it denies before any attempt exactly for a marker that is broken or contradicts the explicit name |
| `HookTruth.RefusalAnswers` | scripts/governance_hook_diagnostics.py:79-102 | the code and decision for each refusal of a claim |
| `HookTruth.StoreAnswers` | scripts/governance_hook_diagnostics.py:79-102 | the same for each failure of the store |
| `HookTruth.AnswersAre` | scripts/governance_dispatch.py:176-206 | the whole answer to a claim from its ending and the readback: confirmed exactly for a success or a readback, unknown for a failed write, denied only for a conflict |
| `HookTruth.MalformedClaims` | scripts/governance_dispatch.py:126-128 | a claim without a usable id is denied and one without a usable time let through, before the store |
| `ClaimTruth.StoredLedgersAreARun` | scripts/governance_state_store.py:206-228 | under every schedule the ledgers ever stored are a run of the ledger under the committed commands |
| `ClaimTruth.OwnClaimIsRecorded` | scripts/governance_dispatch.py:183-199 | a claim that succeeded is found by the exact readback |
| `ClaimTruth.AnswersAreTrue` | scripts/governance_hook.py:100-119 | in every interleaving with any faults: confirmed means the ledger committed a claim by that call id, unconfirmed or deny means this caller stored nothing, a failure after the callback is unknown or confirmed by readback |
| `HookTruth.ConfirmedWasGranted` | scripts/governance_hook.py:100-119 | in every interleaving a claim that succeeds was granted by a stored ledger: matching parameters, before expiry, materials standing |
| `HookTruth.ExpiryIsDenied` | scripts/governance_hook.py:100-119 | a settled claim is denied for expiry exactly when its callback met an expired preparation and the readback does not find it claimed by this call |
| `ClaimTruth.OneConfirmedCallPerRecord` | scripts/governance_dispatch.py:138-151 | if calls with different ids are both confirmed, then at any two moments at which their claims stand in one record, that record had been pruned in between |
| `ClaimTruth.ClaimHasItsCaller` | scripts/governance_dispatch.py:171-175 | in a session that began empty a record claimed by a call was claimed by a committed claim of that call |
| `ClaimTruth.HandedOutIsRecognised` | scripts/governance_hook.py:67-99 | the call handed out for a prepared record is recognised as an attempt on its reference, for both interfaces |
| `ClaimTruth.PreparedIsClaimable` | scripts/governance_dispatch.py:151-175 | while the record stands as prepared and unexpired, submitting that call unmodified without declared materials claims it, in whatever ledger it stands |
| `ClaimTruth.PrepareReadbackFindsItsOwn` | scripts/governance_protocol.py:120-141 | the readback after a reported write error recognises a prepare that committed |
| `ClaimTruth.PrepareReadbackIsExact` | scripts/governance_protocol.py:120-141 | the readback recognises exactly the record under the new id with this reference, contract, interface and frozen parameters |
| `ClaimTruth.PrepareReadbackIsClaimable` | scripts/governance_protocol.py:130-139 | what it recognises will match the very arguments handed out |
| `Bundle.Sort` | scripts/runtime_bundle.py:74-75 | a set of paths listed in ascending order, each once |
| `Bundle.ListingIsUnique` | scripts/dev_deploy.py:190-191 | a set has one such listing |
| `Bundle.DigestTree` | scripts/dev_deploy.py:185-210 | the loop computes the digest of every file sorted by path, and refuses empty trees and foreign nodes |
| `Bundle.VerifyBundle` | scripts/runtime_bundle.py:104-123 | the loop computes the exact-projection digest |
| `Bundle.DigestAgainstCommit` | scripts/dev_deploy.py:249-295 | the loop computes the commit-bound digest |
| `Bundle.SafeDigestTells` | scripts/dev_deploy.py:185-210 | trees with the same digest are equal |
| `Bundle.SafeDigestIsExact` | scripts/dev_deploy.py:185-210 | a tree has a digest exactly when it holds files and only regular ones, and it is that of path, mode and content of each in ascending order |
| `Bundle.VerifiedDigestsAgree` | scripts/runtime_bundle.py:88-123 | for every tree that verifies, the allowlist digest is the whole-tree digest |
| `Bundle.CommitDigestAgrees` | scripts/dev_deploy.py:249-295 | where a tree matches the commit, the commit-bound digest is the allowlist digest |
| `Bundle.BundleIsProjection` | scripts/runtime_bundle.py:104-123 | a tree has the digest of a source exactly when it is the source's projection |
| `Bundle.ProjectionMatchesCommit` | scripts/dev_deploy.py:271-295 | a projection matches a commit exactly when its source does |
| `Bundle.AllowlistIsExact` | scripts/runtime_bundle.py:43-85 | an allowlist is accepted exactly when it lists itself and regular files only, by canonical paths in strictly ascending order |
| `Bundle.AllowlistIsCanonical` | scripts/runtime_bundle.py:43-52 | every accepted path is relative, without a backslash and without an empty or dotted segment |
| `Bundle.CommitDigestIsExact` | scripts/dev_deploy.py:249-295 | the commit-bound digest exists exactly when every allowlisted file is a regular blob of the commit with the same bytes and the same owner's executable bit |
| `HashedBytes.BytesDetermine` | scripts/runtime_bundle.py:94-101 | the hashed bytes determine a sequence of files exactly when it is empty, or one file whose content does not hold the joint of two frames |
| `HashedBytes.BytesDetermineTree` | scripts/dev_deploy.py:185-210 | the hashed bytes determine a tree exactly when it holds one file whose content does not hold the joint of two frames with a later path |
| `HashedBytes.MergedTreeHashesAlike` | scripts/dev_deploy.py:185-210 | every tree of two or more files hashes like a tree of one file fewer |
| `HashedBytes.SameCountTreesTell` | scripts/dev_deploy.py:185-210 | a tree without NUL bytes is told by its hashed bytes from every other tree of as many files |
| `HashedBytes.CacheBytesTell` | scripts/dev_deploy.py:333-341 | the same for a whole cache |
| `HashedBytes.VerifiedBytesTell` | scripts/runtime_bundle.py:104-123 | a bundle verified under the same allowlist that hashes like a source without NUL bytes is its projection |
| `BundleStaging.StageRuntimeBundle` | scripts/runtime_bundle.py:126-154 | success leaves exactly the projection at the target and nothing else changed; undisturbed it succeeds exactly when the target is free and the allowlist is good |
| `Disk.FactsTell` | scripts/dev_deploy.py:333-341 | a cache is determined by its facts |
| `Disk.ReadCacheFacts` | scripts/dev_deploy.py:333-341 | the loop computes the facts, or refuses exactly when an entry is not named by its version or cannot be digested |
| `Disk.VersionIsExact` | scripts/dev_deploy.py:166-182 | the version of a tree is the stripped text of its plugin file where that is a single directory name |
| `Recovery.RestoreStableSnapshot` | scripts/dev_deploy.py:458-508 | success means stable has the digest before the transaction; undisturbed it succeeds exactly on the recoverable shapes, others are refused untouched, and disturbed shapes stay recoverable or are stranded |
| `Recovery.RestoreCacheSnapshot` | scripts/dev_deploy.py:430-455 | success means the cache has the recorded facts; undisturbed it succeeds exactly when every entry is known and regular, otherwise nothing is touched |
| `Recovery.RecoverTransaction` | scripts/dev_deploy.py:511-552 | the transaction disappears only when live matches its manifest; undisturbed it succeeds exactly on recoverable disks; struck while copying stable back without a backup it leaves the third window |
| `Recovery.RecoveredIsSound` | scripts/dev_deploy.py:511-552 | recovery keeps a disk sound and what it stands for, and completed leaves exactly that live and nothing of the transaction |
| `Recovery.RecoveredCanStartAgain` | scripts/dev_deploy.py:458-552 | a disturbed recovery leaves a disk that can be recovered, or a named window in which nothing is touched |
| `Recovery.RecoverInterrupted` | scripts/dev_deploy.py:555-574 | a disk with several transactions, an unbound path or a foreign manifest is refused untouched; run to completion on a sound disk it brings stable and the whole cache back exactly, with no path of the transaction left; undisturbed it does so exactly on quiet and recoverable disks |
| `Deploy.CreateSnapshot` | scripts/dev_deploy.py:577-597 | nothing live changes, whatever stops it; success means both snapshots are exact; a crash right after the mkdir leaves the first window |
| `Deploy.Stage` | scripts/dev_deploy.py:739-748 | success means the staged tree is the published bundle; any stop leaves a deployment in progress, undisturbed exactly when the worktree still yields the bundle |
| `Deploy.Activate` | scripts/dev_deploy.py:749-755 | the bundle is stable and the old stable its backup; any stop leaves a deployment in progress |
| `Deploy.InProgressIsRecoverable` | scripts/dev_deploy.py:737-824 | with a confined installer every deployment in progress is on a recoverable disk |
| `Deploy.RestorePrevious` | scripts/dev_deploy.py:600-618 | a missing previous version comes back from the snapshot, a changed one is refused, and nothing else changes |
| `Deploy.CheckInstalled` | scripts/dev_deploy.py:773-795 | accepts exactly a target that is the published bundle while the source still yields it |
| `Deploy.Retain` | scripts/dev_deploy.py:797-806 | success leaves exactly the kept entries, unchanged |
| `Deploy.CheckRetained` | scripts/dev_deploy.py:807-824 | accepts exactly a cache converged to the kept versions with the previous one as it was |
| `Deploy.UpToCleanUp` | scripts/dev_deploy.py:737-824 | every stop after the first manifest and before the backup is removed leaves a recoverable disk if the installer is confined; undisturbed it gets there exactly when staging, installer and cache allow |
| `Deploy.Finish` | scripts/dev_deploy.py:826-827 | the backup and the transaction are removed and nothing live changes; a removal of the backup cut short leaves the second window |
| `Deploy.Transact` | scripts/dev_deploy.py:716-827 | success meets the full success condition; any stop leaves the state before, or only its backup going, unless the very last deletion had happened; undisturbed it succeeds exactly when staging, installer and cache allow |
| `Deploy.MakePlan` | scripts/dev_deploy.py:708-715 | what is found under the lock; there is a plan exactly when stable and every cache entry have a digest, each entry is named by its version, the target is new, and the previous version is absent beside an empty cache or named, present, verified and one of at most two |
| `Deploy.PlanIsExact` | scripts/dev_deploy.py:344-366 | the same of the planning function |
| `Deploy.SelectionIsExact` | scripts/dev_deploy.py:344-366 | the previous version is accepted exactly when it is absent beside an empty cache, or named, present and one of at most two beside a new target |
| `Deploy.RollBack` | scripts/dev_deploy.py:835-850 | the in-process recovery keeps what the disk stands for, and reports a rollback only when it is live again |
| `Deploy.Deploy` | scripts/dev_deploy.py:649-855 | for any weather and installer a sound disk stays sound and stands for the state before or for a full success, as the report says; a success means a source that stood throughout, and roots in order before; an undisturbed success and a passed dry run have exact conditions spelled out over source, disk and installer; a dry run writes nothing |
| `DeployRuns.OneLiveTransaction` | scripts/dev_deploy.py:555-574 | on every disk of every history there is at most one transaction and every switch path is one its manifest names |
| `DeployRuns.NothingIsLost` | scripts/dev_deploy.py:441-552 | at every moment of every history the disk stands for the last success or the beginning, exactly |
| `DeployRuns.RecoveryIsExact` | scripts/dev_deploy.py:430-552 | while no invocation succeeds, a quiet disk at the end holds exactly what it held at the beginning |
| `DeployRuns.EveryDiskRestarts` | scripts/dev_deploy.py:458-552 | with installers confined to the known cache names every disk of a history is quiet, recoverable, or in a named window |
| `DeployRuns.RunAll` | scripts/dev_deploy.py:649-855 | any list of invocations in any weathers runs to a history: what is left is sound, stands for the last success, and with confined installers can be started on again |
| `DeployRuns.StopThenRecover` | scripts/dev_deploy.py:555-574 | after a stop in any weather before the clean-up, an undisturbed start-up brings stable and the whole cache back exactly, unless the stop came before the first manifest |

## Left out

- Git, SHA-256, JSON and UTF-8 themselves: commits, digests, parsers and encoded sizes enter as values or parameters; a tree digest stands for its framed entries.
- File system checks (owner, permissions, symbolic links, devices), `fsync`, the locking calls and the Windows branches: a node is a regular file or foreign, a lock is held or free. Nothing but this program works on the directories of a deployment between its steps, the installer's effect on the cache apart.
- A partial `rmtree` of stable or of the transaction directory: both are atomic steps here. Errors while reading are not separate events; they are an error of the next operation without its effect.
- Transaction manifests no deployment wrote: the recorded roots are the ones in use, and recorded cache facts form a map, so duplicate names cannot be expressed. Directory order is arbitrary where the code sorts names before a loop whose order has no effect.
- Recovery windows that the code refuses: progress is not claimed there, only that nothing is lost.
- Records with fields of the wrong type, unknown phases or unknown fields: the typed record cannot hold them, and the checks for them are not part of this model.
- Contract input: defaults for absent fields and fields of the wrong type. A declared material manifest is its canonical JSON text; its own fields are not checked.
- Wording: the prompt has the titles, the order and the blank lines of its sections; the closing duty is a text of its length, and the materials section is a given text. User messages, report texts and failed stages are left out.
- Checking declared materials: its result is a parameter, evidence, a difference, or no answer.
- Command line parsing, session start text, status views other than the offered operations, ledger deletion, the read-only diagnostics, and the release preflight.
- The hard byte limit as a promise: writes to existing tasks are checked against it but may reach it.
- StoreProtocol.StateStore: the file is one value; the temporary file of the atomic write is not modelled.
- HookAnswers.AttemptedExactly: the Hook's deadline and failures of building its answer are not modelled, and a success has one code whether the claim was new or repeated.
