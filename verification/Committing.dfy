/** When the store writes what a command made of the ledger, with the limits in numbers
    (scripts/governance_state_store.py). */
module Committing {
  import opened Basics
  import opened Records
  import opened Retention
  import opened Transitions
  import opened LedgerLaws
  import opened Validity
  import opened LedgerRuns
  import opened Guards
  import opened Commands

  /** The records a new task has to fit beside. */
  function OpenRecords(l: Ledger): Ledger { map id | id in l && l[id].phase != Closed :: l[id] }

  lemma PrepareWrites(l: Ledger, r: Request, bytes: Ledger -> nat)
    requires Apply(l, Prepare(r), bytes).Ok?
    ensures ApplyPrepare(l, r, bytes).Ok?
    ensures Commits(l, Prepare(r), bytes) <==> Admitted(ApplyPrepare(l, r, bytes).value.ledger, bytes)
  {
  }

  lemma LimitsInNumbers(l: Ledger, bytes: Ledger -> nat)
    ensures ExceedsCapacity(l, bytes) <==> |l| > 512 || bytes(l) > 3145728
  {
  }

  /** A prepare is written exactly when its message has at most 65,536 characters and the new
      record and the open ones are at most 512 and encode to at most 3,145,728 bytes. */
  lemma PrepareCommits(l: Ledger, r: Request, bytes: Ledger -> nat)
    requires ValidLedger(l) && SizeIsMonotone(bytes) && Apply(l, Prepare(r), bytes).Ok?
    ensures var c := if Usable(l, r.first) then r.first else r.second;
            var ref := RefFor(l, c);
            && PreparedRecord(r, ref).Ok?
            && var beside := OpenRecords(l)[c.id := PreparedRecord(r, ref).value];
               Commits(l, Prepare(r), bytes)
               <==> |MessageOf(r, ref)| <= 65536 && |beside| <= 512 && bytes(beside) <= 3145728
  {
    PrepareWrites(l, r, bytes);
    PrepareAdmission(l, r, bytes);
    PreparedIsNew(l, r, bytes);
    var (id, ref) := ChooseIdentity(l, r.first, r.second).value;
    ChosenIs(l, r);
    OpenWithNew(l, id, PreparedRecord(r, ref).value);
    LimitsInNumbers(OpenOnly(l[id := PreparedRecord(r, ref).value]), bytes);
  }

  lemma ChosenIs(l: Ledger, r: Request)
    requires ChooseIdentity(l, r.first, r.second).Some?
    ensures var c := if Usable(l, r.first) then r.first else r.second;
            ChooseIdentity(l, r.first, r.second).value == (c.id, RefFor(l, c))
  {
    IdentityIsChosen(l, r.first, r.second);
  }

  lemma OpenWithNew(l: Ledger, id: string, t: Task)
    requires id !in l && t.phase != Closed
    ensures OpenOnly(l[id := t]) == OpenRecords(l)[id := t]
  {
  }

  /** Any other command is written exactly when its guard held and the result encodes to at most
      4,194,304 bytes. */
  lemma OthersCommit(l: Ledger, op: Op, bytes: Ledger -> nat)
    requires ValidLedger(l) && !op.Prepare? && Succeeds(l, op, bytes)
    ensures op.Claim? ==> |RefHolders(Before(l, op), op.ref)| == 1
    ensures Subject(l, op) in l
            && (Commits(l, op, bytes) <==> Guard(l, Subject(l, op), op) && bytes(Outcome(l, op, bytes)) <= 4194304)
  {
    GuardedValidity(l, op, bytes);
  }
}
