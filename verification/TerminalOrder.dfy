/** Terminal evidence may arrive in any order, from any source, any number of times: only the
    set of reported ends decides how a bound task stands. */
module TerminalOrder {
  import opened Basics
  import opened Records
  import opened Retention
  import opened Transitions
  import opened LedgerLaws
  import opened Validity
  import opened LedgerRuns

  /** How a bound task stands: still open, ended in one way, or in conflict. */
  datatype Verdict = Open | Ended(status: Word) | Conflicted

  function VerdictOf(t: Task): Verdict {
    if t.phase == Bound then Open
    else if t.phase == Terminal && t.terminal_fact.Some? then Ended(t.terminal_fact.value.status)
    else Conflicted
  }

  predicate IsEnd(w: Word) { IsConcrete(w) || w == Inactive }

  /** The end a piece of evidence reports, if any. */
  function Reports(e: Evidence): Option<Word> {
    match e
    case Observed(s) => if IsConcrete(s) then Some(s) else None
    case Notified(s) => if IsConcrete(s) then Some(s) else None
    case InterruptReturned(r) => if r == Inactive then Some(Inactive) else None
    case CallReturned(_) => None
  }

  /** Inactivity is refined by any concrete end; two different concrete ends conflict. */
  function Join(v: Verdict, end: Word): Verdict {
    match v
    case Open => Ended(end)
    case Conflicted => Conflicted
    case Ended(w) => if end == Inactive || end == w then v else if w == Inactive then Ended(end) else Conflicted
  }

  function JoinReport(v: Verdict, report: Option<Word>): Verdict {
    match report case None => v case Some(end) => Join(v, end)
  }

  /** The record after a piece of evidence; refused evidence leaves it alone. */
  function Absorb(t: Task, e: Evidence, now: int): Task {
    match ReviseEvidence(t, e, now) case Ok(rev) => rev.task case Err(_) => t
  }

  predicate Tracked(t: Task) {
    t.phase == Bound || (t.phase == Terminal && t.terminal_fact.Some?) || t.phase == Reconcile
  }

  /** One step: whatever the record holds besides, the verdict moves by `Join`. */
  lemma AbsorbJoins(t: Task, e: Evidence, now: int)
    requires Tracked(t) && IsEvidence(e)
    ensures Tracked(Absorb(t, e, now))
    ensures VerdictOf(Absorb(t, e, now)) == JoinReport(VerdictOf(t), Reports(e))
  {
  }

  /** The verdict a set of reported ends amounts to. */
  ghost function Summary(ends: set<Word>): Verdict {
    if exists a <- ends, b <- ends :: IsConcrete(a) && IsConcrete(b) && a != b then Conflicted
    else if exists a <- ends :: IsConcrete(a) then (var a :| a in ends && IsConcrete(a); Ended(a))
    else if Inactive in ends then Ended(Inactive)
    else Open
  }

  lemma SummaryJoins(ends: set<Word>, end: Word)
    requires IsEnd(end)
    ensures Summary(ends + {end}) == Join(Summary(ends), end)
  {
  }

  // ----- one record ------------------------------------------------------------------------

  datatype Event = Event(evidence: Evidence, now: int)

  function AbsorbAll(t: Task, events: seq<Event>): Task {
    if events == [] then t
    else var before := AbsorbAll(t, events[..|events| - 1]);
         Absorb(before, events[|events| - 1].evidence, events[|events| - 1].now)
  }

  ghost function EndsOf(events: seq<Event>): set<Word> {
    set e | e in events && Reports(e.evidence).Some? :: Reports(e.evidence).value
  }

  /** From a bound record, after any finite sequence of evidence (refused pieces counting as
      nothing), the record is in reconcile exactly when two different concrete ends were
      reported, and otherwise holds the unique end, or inactivity, or is still open. */
  lemma {:induction false} VerdictIsSummary(t: Task, events: seq<Event>)
    requires t.phase == Bound && forall e <- events :: IsEvidence(e.evidence)
    ensures Tracked(AbsorbAll(t, events))
    ensures VerdictOf(AbsorbAll(t, events)) == Summary(EndsOf(events))
  {
    if events == [] {
      assert EndsOf(events) == {};
    } else {
      var init, last := events[..|events| - 1], events[|events| - 1];
      VerdictIsSummary(t, init);
      AbsorbJoins(AbsorbAll(t, init), last.evidence, last.now);
      assert events == init + [last];
      var report := Reports(last.evidence);
      if report.None? {
        assert EndsOf(events) == EndsOf(init);
      } else {
        assert EndsOf(events) == EndsOf(init) + {report.value};
        SummaryJoins(EndsOf(init), report.value);
      }
    }
  }

  /** Any two orders of the same evidence, at any times, end in the same phase, and with the
      same terminal status when that phase is terminal. */
  lemma OrderDoesNotMatter(t: Task, events: seq<Event>, reordered: seq<Event>)
    requires t.phase == Bound && forall e <- events :: IsEvidence(e.evidence)
    requires multiset(events) == multiset(reordered)
    ensures var a, b := AbsorbAll(t, events), AbsorbAll(t, reordered);
            a.phase == b.phase && (a.phase == Terminal ==> TerminalStatus(a) == TerminalStatus(b))
  {
    assert forall e :: e in events <==> e in multiset(events);
    assert forall e :: e in reordered <==> e in multiset(reordered);
    VerdictIsSummary(t, events);
    VerdictIsSummary(t, reordered);
    assert EndsOf(events) == EndsOf(reordered);
  }

  // ----- the whole ledger --------------------------------------------------------------------

  /** No parent decision or renewed confirmation of `id` among the commands. */
  ghost predicate OnlyEvidenceFor(ops: seq<Op>, id: string) {
    forall op <- ops :: (op.Confirm? || op.Close?) ==> op.id != id
  }

  /** The ends reported for `id` by the first `j` commands that were committed. */
  ghost function CommittedEnds(ls: seq<Ledger>, ops: seq<Op>, bytes: Ledger -> nat, id: string, j: nat): set<Word>
    requires j <= |ops| <= |ls|
  {
    if j == 0 then {}
    else
      WithReport(CommittedEnds(ls, ops, bytes, id, j - 1), ls[j - 1], ops[j - 1], bytes, id)
  }

  lemma TrackedIsPastDispatch(p: Ledger, id: string, op: Op)
    requires id in p && Tracked(p[id]) && (op.Claim? || op.DispatchResult?)
    ensures Revise(p, id, op).Err?
  {
  }

  /** A command not addressed to a tracked record leaves it alone, pruning included. */
  lemma OthersLeaveIt(l: Ledger, op: Op, l': Ledger, subject: string, id: string)
    requires RevisedAt(l, op, l', subject) && id in l && Tracked(l[id])
    requires op.Learn? || op.Confirm? || op.Close? ==> op.id != id
    ensures id in l' && l'[id] == l[id]
  {
    PruningKeeps(l, op);
    var p := Before(l, op);
    if op.Claim? || op.DispatchResult? {
      if subject == id { TrackedIsPastDispatch(p, id, op); }
    }
    var l1 := p[subject := Revise(p, subject, op).value.task];
    assert l1[id] == l[id];
    PruningKeeps(l1, op);
  }

  lemma EvidenceReachesIt(l: Ledger, op: Op, l': Ledger, id: string)
    requires RevisedAt(l, op, l', id) && op.Learn? && id in l && Tracked(l[id])
    ensures id in l' && l'[id] == Absorb(l[id], op.evidence, op.now) && IsEvidence(op.evidence)
  {
    AbsorbJoins(l[id], op.evidence, op.now);
    PruningKeeps(l[id := Revise(l, id, op).value.task], op);
  }

  lemma NextVerdict(l: Ledger, op: Op, bytes: Ledger -> nat, id: string)
    requires ValidLedger(l) && Commits(l, op, bytes) && id in l && Tracked(l[id])
    requires (op.Confirm? || op.Close?) ==> op.id != id
    ensures id in Outcome(l, op, bytes)
    ensures var t' := Outcome(l, op, bytes)[id];
            if op.Learn? && op.id == id then t' == Absorb(l[id], op.evidence, op.now) && IsEvidence(op.evidence) else t' == l[id]
  {
    if op.Prepare? {
      PreparedIsNew(l, op.request, bytes);
    } else {
      TransitionShape(l, op, bytes);
      if op.Learn? && op.id == id {
        EvidenceReachesIt(l, op, Outcome(l, op, bytes), id);
      } else {
        OthersLeaveIt(l, op, Outcome(l, op, bytes), Subject(l, op), id);
      }
    }
  }

  /** The ends known for `id` after one more command. */
  ghost function WithReport(ends: set<Word>, l: Ledger, op: Op, bytes: Ledger -> nat, id: string): set<Word> {
    if op.Learn? && op.id == id && Commits(l, op, bytes) && Reports(op.evidence).Some?
    then ends + {Reports(op.evidence).value} else ends
  }

  lemma StepVerdict(l: Ledger, op: Op, bytes: Ledger -> nat, id: string, ends: set<Word>)
    requires ValidLedger(l) && id in l && Tracked(l[id]) && VerdictOf(l[id]) == Summary(ends)
    requires (op.Confirm? || op.Close?) ==> op.id != id
    ensures var l' := Next(l, op, bytes);
            id in l' && Tracked(l'[id]) && VerdictOf(l'[id]) == Summary(WithReport(ends, l, op, bytes, id))
  {
    if Commits(l, op, bytes) {
      NextVerdict(l, op, bytes, id);
      if op.Learn? && op.id == id {
        AbsorbJoins(l[id], op.evidence, op.now);
        if Reports(op.evidence).Some? {
          SummaryJoins(ends, Reports(op.evidence).value);
        }
      }
    }
  }

  ghost predicate VerdictAt(ls: seq<Ledger>, ops: seq<Op>, bytes: Ledger -> nat, id: string, j: nat)
    requires j <= |ops| < |ls|
  {
    && id in ls[j] && Tracked(ls[j][id])
    && VerdictOf(ls[j][id]) == Summary(CommittedEnds(ls, ops, bytes, id, j))
  }

  lemma VerdictAtStart(ls: seq<Ledger>, ops: seq<Op>, bytes: Ledger -> nat, id: string)
    requires |ops| < |ls| && ValidLedger(ls[0]) && id in ls[0] && ls[0][id].phase == Bound
    ensures VerdictAt(ls, ops, bytes, id, 0)
  {
    assert ValidShape(ls[0][id]) by { AcceptedIsValid(id, ls[0][id]); }
  }

  lemma VerdictAfter(ls: seq<Ledger>, ops: seq<Op>, bytes: Ledger -> nat, id: string, j: nat)
    requires IsRun(ls, ops, bytes) && ValidLedger(ls[0]) && OnlyEvidenceFor(ops, id) && 0 < j < |ls|
    requires VerdictAt(ls, ops, bytes, id, j - 1)
    ensures VerdictAt(ls, ops, bytes, id, j)
  {
    var op := ops[j - 1];
    assert op in ops;
    assert ValidLedger(ls[j - 1]) by { RunStaysValid(ls, ops, bytes, j - 1); }
    StepVerdict(ls[j - 1], op, bytes, id, CommittedEnds(ls, ops, bytes, id, j - 1));
  }

  /** The same in a run of the whole session, with any commands for other tasks in between:
      the task's verdict is decided by the set of its committed reports alone, so runs that
      committed the same ends agree, whatever else happened and in whatever order. */
  lemma {:induction false} VerdictInRun(ls: seq<Ledger>, ops: seq<Op>, bytes: Ledger -> nat, id: string, j: nat)
    requires IsRun(ls, ops, bytes) && ValidLedger(ls[0]) && OnlyEvidenceFor(ops, id) && j < |ls|
    requires id in ls[0] && ls[0][id].phase == Bound
    ensures VerdictAt(ls, ops, bytes, id, j)
  {
    if j == 0 {
      VerdictAtStart(ls, ops, bytes, id);
    } else {
      VerdictInRun(ls, ops, bytes, id, j - 1);
      VerdictAfter(ls, ops, bytes, id, j);
    }
  }
}
