/** `prune_closed_tasks` (scripts/governance_lifecycle.py) and the admission limit it works
    against (scripts/governance_state_store.py): which closed records a ledger drops. */
module Retention {
  import opened Basics
  import opened Records

  /** The ledger a callback receives and changes in place. */
  class SessionState {
    var tasks: Ledger

    constructor (l: Ledger)
      ensures tasks == l
    {
      tasks := l;
    }
  }

  // ----- age -----------------------------------------------------------------------

  datatype Age = Age(closed_at: int, created_at: int, task_id: string)

  function AgeOf(id: string, t: Task): Age {
    Age(if t.closed_at.Some? then t.closed_at.value else -1, t.created_at, id)
  }

  /** Python's order on the tuples `(closed_at, created_at, task_id)`. */
  predicate NoYounger(a: Age, b: Age) {
    || a.closed_at < b.closed_at
    || (a.closed_at == b.closed_at && a.created_at < b.created_at)
    || (a.closed_at == b.closed_at && a.created_at == b.created_at && NotAfter(a.task_id, b.task_id))
  }

  lemma AgesAreTotal(a: Age, b: Age)
    ensures NoYounger(a, b) || NoYounger(b, a)
    ensures NoYounger(a, b) && NoYounger(b, a) ==> a == b
  {
    OrderIsTotal(a.task_id, b.task_id);
    if NoYounger(a, b) && NoYounger(b, a) {
      OrderIsAntisymmetric(a.task_id, b.task_id);
    }
  }

  lemma AgesAreTransitive(a: Age, b: Age, c: Age)
    requires NoYounger(a, b) && NoYounger(b, c)
    ensures NoYounger(a, c)
  {
    if a.closed_at == c.closed_at && a.created_at == c.created_at {
      OrderIsTransitive(a.task_id, b.task_id, c.task_id);
    }
  }

  /** Earlier closed; at equal times earlier created; at equal times of both, the smaller id. */
  ghost predicate ClosedBefore(l: Ledger, a: string, b: string)
    requires a in l && b in l && l[a].closed_at.Some? && l[b].closed_at.Some?
  {
    || l[a].closed_at.value < l[b].closed_at.value
    || (l[a].closed_at == l[b].closed_at && l[a].created_at < l[b].created_at)
    || (l[a].closed_at == l[b].closed_at && l[a].created_at == l[b].created_at && ComesFirst(a, b))
  }

  lemma AgeIsByFields(l: Ledger, a: string, b: string)
    requires a in l && b in l && l[a].closed_at.Some? && l[b].closed_at.Some?
    ensures NoYoungerIn(l, a, b) && a != b <==> ClosedBefore(l, a, b)
  {
    OrderIsLexicographic(a, b);
    OrderIsTotal(a, a);
    OrderIsLexicographic(a, a);
  }

  /** Listed by those fields, as far as the times are there. */
  ghost predicate InClosingOrder(l: Ledger, s: seq<string>) {
    forall i, j :: 0 <= i < j < |s| ==>
      s[i] in l && s[j] in l
      && (l[s[i]].closed_at.Some? && l[s[j]].closed_at.Some? ==> ClosedBefore(l, s[i], s[j]))
  }

  lemma SortedIsInClosingOrder(l: Ledger, ids: set<string>, s: seq<string>, n: nat)
    requires SortedByAge(l, ids, s) && n <= |s|
    ensures InClosingOrder(l, s[..n])
  {
    forall i, j | 0 <= i < j < n
      ensures s[i] in l && s[j] in l && (l[s[i]].closed_at.Some? && l[s[j]].closed_at.Some? ==> ClosedBefore(l, s[i], s[j]))
    {
      if l[s[i]].closed_at.Some? && l[s[j]].closed_at.Some? {
        AgeIsByFields(l, s[i], s[j]);
      }
    }
  }

  function ClosedIds(l: Ledger): set<string> { set id | id in l && l[id].phase == Closed }

  predicate NoYoungerIn(l: Ledger, a: string, b: string)
    requires a in l && b in l
  {
    NoYounger(AgeOf(a, l[a]), AgeOf(b, l[b]))
  }

  predicate OldestOf(l: Ledger, s: set<string>, m: string)
    requires s <= l.Keys
  {
    m in s && forall a <- s :: NoYoungerIn(l, m, a)
  }

  lemma OldestExists(l: Ledger, s: set<string>)
    requires s != {} && s <= l.Keys
    ensures exists m <- s :: OldestOf(l, s, m)
  {
    var x :| x in s;
    AgesAreTotal(AgeOf(x, l[x]), AgeOf(x, l[x]));
    if s == {x} {
      assert OldestOf(l, s, x);
    } else {
      OldestExists(l, s - {x});
      var m :| m in s - {x} && OldestOf(l, s - {x}, m);
      AgesAreTotal(AgeOf(x, l[x]), AgeOf(m, l[m]));
      if NoYoungerIn(l, x, m) {
        forall a | a in s ensures NoYoungerIn(l, x, a) {
          if a != x { assert a in s - {x} && NoYoungerIn(l, m, a); AgesAreTransitive(AgeOf(x, l[x]), AgeOf(m, l[m]), AgeOf(a, l[a])); }
        }
        assert OldestOf(l, s, x);
      } else {
        assert OldestOf(l, s, m);
      }
    }
  }

  predicate IsOldest(l: Ledger, id: string) { OldestOf(l, ClosedIds(l), id) }

  ghost function Oldest(l: Ledger): (id: string)
    requires ClosedIds(l) != {}
    ensures IsOldest(l, id)
  {
    OldestExists(l, ClosedIds(l));
    var id :| id in ClosedIds(l) && OldestOf(l, ClosedIds(l), id);
    id
  }

  lemma OldestIsUnique(l: Ledger, a: string, b: string)
    requires IsOldest(l, a) && IsOldest(l, b)
    ensures a == b
  {
    AgesAreTotal(AgeOf(a, l[a]), AgeOf(b, l[b]));
  }

  // ----- the reference definition ----------------------------------------------------

  ghost predicate OverLimit(l: Ledger, exceeds: Ledger -> bool) {
    |ClosedIds(l)| > CLOSED_TASK_RETENTION || exceeds(l)
  }

  lemma ClosedWithout(l: Ledger, ids: set<string>)
    ensures ClosedIds(l - ids) == ClosedIds(l) - ids
  {
  }

  /** While the ledger is over a limit and has a closed record, drop the oldest one. */
  ghost function Prune(l: Ledger, exceeds: Ledger -> bool): Ledger
    decreases |ClosedIds(l)|
  {
    if ClosedIds(l) != {} && OverLimit(l, exceeds) then
      ClosedWithout(l, {Oldest(l)});
      Prune(l - {Oldest(l)}, exceeds)
    else l
  }

  function NoPressure(): Ledger -> bool { (l: Ledger) => false }

  // ----- the loop of the source ------------------------------------------------------

  ghost function Elements(s: seq<string>): set<string> { set id | id in s }

  /** The ids `ids`, oldest first. */
  ghost predicate SortedByAge(l: Ledger, ids: set<string>, s: seq<string>) {
    && ids <= l.Keys && Elements(s) == ids
    && (forall i :: 0 <= i < |s| ==> s[i] in l)
    && forall i, j :: 0 <= i < j < |s| ==> s[i] != s[j] && NoYoungerIn(l, s[i], s[j])
  }

  lemma AppendOldest(l: Ledger, done: set<string>, rest: set<string>, s: seq<string>, m: string)
    requires SortedByAge(l, done, s) && done !! rest && rest <= l.Keys && OldestOf(l, rest, m)
    requires forall a, b :: a in done && b in rest ==> NoYoungerIn(l, a, b)
    ensures SortedByAge(l, done + {m}, s + [m])
    ensures forall a, b :: a in done + {m} && b in rest - {m} ==> NoYoungerIn(l, a, b)
  {
  }

  /** `sorted(closed)`. */
  method Sorted(l: Ledger, ids: set<string>) returns (s: seq<string>)
    requires ids <= l.Keys
    ensures SortedByAge(l, ids, s) && |s| == |ids|
    ensures InClosingOrder(l, s)
  {
    s := [];
    var rest := ids;
    ghost var done: set<string> := {};
    while rest != {}
      invariant done + rest == ids && done !! rest
      invariant |s| + |rest| == |ids|
      invariant SortedByAge(l, done, s)
      invariant forall a, b :: a in done && b in rest ==> NoYoungerIn(l, a, b)
      decreases |rest|
    {
      OldestExists(l, rest);
      var m :| m in rest && OldestOf(l, rest, m);
      AppendOldest(l, done, rest, s, m);
      s := s + [m];
      rest := rest - {m};
      done := done + {m};
    }
    assert done == ids;
    SortedIsInClosingOrder(l, ids, s, |s|);
    assert s[..|s|] == s;
  }

  lemma SplitElements(s: seq<string>, i: nat)
    requires i <= |s| && forall j, k :: 0 <= j < k < |s| ==> s[j] != s[k]
    ensures Elements(s) - Elements(s[..i]) == Elements(s[i..]) && Elements(s[..i]) <= Elements(s)
    ensures |Elements(s[i..])| == |s| - i
    ensures i < |s| ==> Elements(s[..i + 1]) == Elements(s[..i]) + {s[i]}
  {
    assert s == s[..i] + s[i..];
    DistinctCount(s[i..]);
    if i < |s| {
      assert s[..i + 1] == s[..i] + [s[i]];
    }
  }

  lemma MinusMinus(l: Ledger, a: set<string>, b: set<string>)
    ensures l - (a + b) == (l - a) - b
  {
  }

  lemma RemainingClosed(l: Ledger, s: seq<string>, i: nat)
    requires SortedByAge(l, ClosedIds(l), s) && |s| == |ClosedIds(l)| && i <= |s|
    ensures ClosedIds(l - Elements(s[..i])) == Elements(s[i..])
    ensures |ClosedIds(l - Elements(s[..i]))| == |s| - i
    ensures Elements(s[..i]) <= l.Keys
  {
    SplitElements(s, i);
    ClosedWithout(l, Elements(s[..i]));
  }

  lemma NextDeletion(l: Ledger, s: seq<string>, i: nat)
    requires SortedByAge(l, ClosedIds(l), s) && |s| == |ClosedIds(l)| && i < |s|
    ensures IsOldest(l - Elements(s[..i]), s[i])
    ensures l - Elements(s[..i + 1]) == (l - Elements(s[..i])) - {s[i]}
  {
    RemainingClosed(l, s, i);
    OldestRemains(l, s, i);
    SplitElements(s, i);
    MinusMinus(l, Elements(s[..i]), {s[i]});
  }

  lemma OldestRemains(l: Ledger, s: seq<string>, i: nat)
    requires SortedByAge(l, ClosedIds(l), s) && i < |s|
    requires ClosedIds(l - Elements(s[..i])) == Elements(s[i..])
    ensures IsOldest(l - Elements(s[..i]), s[i])
  {
    var l' := l - Elements(s[..i]);
    assert s[i] in s[i..] && s[i] in Elements(s[i..]);
    AgesAreTotal(AgeOf(s[i], l[s[i]]), AgeOf(s[i], l[s[i]]));
    forall b | b in ClosedIds(l') ensures NoYoungerIn(l', s[i], b) {
      var k :| 0 <= k < |s| - i && s[i..][k] == b;
      assert b == s[i + k] && NoYoungerIn(l, s[i], s[i + k]);
    }
  }

  lemma {:induction false} DistinctCount(s: seq<string>)
    requires forall j, k :: 0 <= j < k < |s| ==> s[j] != s[k]
    ensures |Elements(s)| == |s|
  {
    if s != [] {
      DistinctCount(s[1..]);
      assert s == [s[0]] + s[1..];
      assert Elements(s) == {s[0]} + Elements(s[1..]);
    }
  }

  lemma PruneStep(l: Ledger, exceeds: Ledger -> bool, id: string)
    requires IsOldest(l, id) && OverLimit(l, exceeds)
    ensures Prune(l, exceeds) == Prune(l - {id}, exceeds)
  {
    OldestIsUnique(l, id, Oldest(l));
  }

  /** One turn of the loop is one step of the reference definition. */
  lemma DeletionPrunes(l: Ledger, exceeds: Ledger -> bool, s: seq<string>, i: nat)
    requires SortedByAge(l, ClosedIds(l), s) && |s| == |ClosedIds(l)| && i < |s|
    requires i < |s| - CLOSED_TASK_RETENTION || exceeds(l - Elements(s[..i]))
    ensures l - Elements(s[..i + 1]) == (l - Elements(s[..i])) - {s[i]} && s[..i + 1] == s[..i] + [s[i]]
    ensures Prune(l - Elements(s[..i + 1]), exceeds) == Prune(l - Elements(s[..i]), exceeds)
  {
    RemainingClosed(l, s, i);
    NextDeletion(l, s, i);
    PruneStep(l - Elements(s[..i]), exceeds, s[i]);
  }

  lemma StoppedIsPruned(l: Ledger, exceeds: Ledger -> bool, s: seq<string>, i: nat)
    requires SortedByAge(l, ClosedIds(l), s) && |s| == |ClosedIds(l)| && i <= |s|
    requires i == |s| || (i >= |s| - CLOSED_TASK_RETENTION && !exceeds(l - Elements(s[..i])))
    ensures Prune(l - Elements(s[..i]), exceeds) == l - Elements(s[..i]) && Elements(s[..i]) <= l.Keys
  {
    RemainingClosed(l, s, i);
  }

  /** `prune_closed_tasks`: sort the closed records once, then delete from the front until
      the count and the optional admission pressure are satisfied. */
  method PruneClosedTasks(state: SessionState, exceeds: Ledger -> bool) returns (removed: seq<string>)
    modifies state
    ensures state.tasks == Prune(old(state.tasks), exceeds)
    ensures Elements(removed) <= old(state.tasks).Keys && state.tasks == old(state.tasks) - Elements(removed)
    ensures InClosingOrder(old(state.tasks), removed)
  {
    ghost var l := state.tasks;
    var closed := Sorted(state.tasks, ClosedIds(state.tasks));
    var excess := if |closed| > CLOSED_TASK_RETENTION then |closed| - CLOSED_TASK_RETENTION else 0;
    removed := [];
    assert l - Elements([]) == l;
    var index := 0;
    while index < |closed|
      invariant 0 <= index <= |closed|
      invariant removed == closed[..index] && state.tasks == l - Elements(removed)
      invariant Prune(state.tasks, exceeds) == Prune(l, exceeds)
    {
      if index >= excess && !exceeds(state.tasks) {
        break;
      }
      DeletionPrunes(l, exceeds, closed, index);
      state.tasks := state.tasks - {closed[index]};
      removed := removed + [closed[index]];
      index := index + 1;
    }
    StoppedIsPruned(l, exceeds, closed, index);
    SortedIsInClosingOrder(l, ClosedIds(l), closed, index);
  }

  // ----- what pruning removes ----------------------------------------------------------

  /** Pruning only removes closed records; the others, and the survivors, are untouched. */
  lemma {:induction false} PruneKeeps(l: Ledger, exceeds: Ledger -> bool)
    ensures var r := Prune(l, exceeds);
            && r.Keys <= l.Keys && (forall id <- r :: r[id] == l[id])
            && (forall id <- l :: l[id].phase != Closed ==> id in r)
            && |r| <= |l|
    decreases |ClosedIds(l)|
  {
    if ClosedIds(l) != {} && OverLimit(l, exceeds) {
      ClosedWithout(l, {Oldest(l)});
      PruneKeeps(l - {Oldest(l)}, exceeds);
    }
  }

  /** The loop stops within both limits, or with no closed record left. */
  lemma {:induction false} PruneMeetsLimits(l: Ledger, exceeds: Ledger -> bool)
    ensures var r := Prune(l, exceeds);
            && |ClosedIds(r)| <= CLOSED_TASK_RETENTION
            && (exceeds(r) ==> ClosedIds(r) == {})
    decreases |ClosedIds(l)|
  {
    if ClosedIds(l) != {} && OverLimit(l, exceeds) {
      ClosedWithout(l, {Oldest(l)});
      PruneMeetsLimits(l - {Oldest(l)}, exceeds);
    }
  }

  /** A set of closed records that holds, with any record, every older one. */
  ghost predicate AgePrefix(l: Ledger, d: set<string>) {
    && d <= ClosedIds(l)
    && forall a, b :: a in ClosedIds(l) && b in d && NoYoungerIn(l, a, b) ==> a in d
  }

  /** `d` is enough: without it the ledger is within the limits. */
  ghost predicate Suffices(l: Ledger, d: set<string>, exceeds: Ledger -> bool) {
    AgePrefix(l, d) && !OverLimit(l - d, exceeds)
  }

  /** What pruning removes is an age prefix, and it is the least age prefix whose removal
      brings the ledger within the limits. */
  lemma PruneIsMinimal(l: Ledger, exceeds: Ledger -> bool)
    ensures AgePrefix(l, l.Keys - Prune(l, exceeds).Keys)
    ensures forall d: set<string> :: Suffices(l, d, exceeds) ==> l.Keys - Prune(l, exceeds).Keys <= d
  {
    RemovedIsPrefix(l, exceeds);
    forall d: set<string> | Suffices(l, d, exceeds) ensures l.Keys - Prune(l, exceeds).Keys <= d {
      RemovedIsLeast(l, exceeds, d);
    }
  }

  lemma {:induction false} RemovedIsPrefix(l: Ledger, exceeds: Ledger -> bool)
    ensures AgePrefix(l, l.Keys - Prune(l, exceeds).Keys)
    decreases |ClosedIds(l)|
  {
    if ClosedIds(l) != {} && OverLimit(l, exceeds) {
      var m := Oldest(l);
      ClosedWithout(l, {m});
      RemovedIsPrefix(l - {m}, exceeds);
      PruneKeeps(l - {m}, exceeds);
      PrefixGrows(l, m, Prune(l, exceeds));
    }
  }

  lemma {:induction false} RemovedIsLeast(l: Ledger, exceeds: Ledger -> bool, d: set<string>)
    requires Suffices(l, d, exceeds)
    ensures l.Keys - Prune(l, exceeds).Keys <= d
    decreases |ClosedIds(l)|
  {
    if ClosedIds(l) != {} && OverLimit(l, exceeds) {
      var m := Oldest(l);
      ClosedWithout(l, {m});
      assert l - {} == l;
      if d != {} {
        var b :| b in d;
        assert NoYoungerIn(l, m, b);
        assert m in d;
        assert l - d == (l - {m}) - (d - {m});
        PrefixShrinks(l, m, d);
        RemovedIsLeast(l - {m}, exceeds, d - {m});
        assert Prune(l, exceeds) == Prune(l - {m}, exceeds);
        forall id | id in l.Keys - Prune(l, exceeds).Keys ensures id in d {
          assert id == m || id in (l - {m}).Keys - Prune(l - {m}, exceeds).Keys;
        }
      }
    }
  }

  lemma PrefixShrinks(l: Ledger, m: string, d: set<string>)
    requires AgePrefix(l, d)
    ensures AgePrefix(l - {m}, d - {m})
  {
  }

  lemma PrefixGrows(l: Ledger, m: string, r: Ledger)
    requires IsOldest(l, m) && r.Keys <= l.Keys - {m} && AgePrefix(l - {m}, (l - {m}).Keys - r.Keys)
    ensures AgePrefix(l, l.Keys - r.Keys)
  {
    var l' := l - {m};
    ClosedWithout(l, {m});
    var d, d' := l.Keys - r.Keys, l'.Keys - r.Keys;
    assert d == d' + {m};
    forall a, b | a in ClosedIds(l) && b in d && NoYoungerIn(l, a, b) ensures a in d {
      if a != m {
        if b == m {
          AgesAreTotal(AgeOf(a, l[a]), AgeOf(m, l[m]));
        } else {
          assert NoYoungerIn(l', a, b);
        }
      }
    }
  }

  /** Eviction goes by the closing time, then the creation time, then the id: a closed record
      goes only if every one before it goes. */
  lemma EvictionOrder(l: Ledger, exceeds: Ledger -> bool, a: string, b: string)
    requires a in l && b in l && l[a].phase == Closed && l[b].phase == Closed
    requires l[a].closed_at.Some? && l[b].closed_at.Some? && ClosedBefore(l, a, b)
    ensures b !in Prune(l, exceeds) ==> a !in Prune(l, exceeds)
  {
    AgeIsByFields(l, a, b);
    RemovedIsPrefix(l, exceeds);
  }

  /** A ledger within the limits is left alone. */
  lemma PruneIsStable(l: Ledger, exceeds: Ledger -> bool)
    requires |ClosedIds(l)| <= CLOSED_TASK_RETENTION && !exceeds(l)
    ensures Prune(l, exceeds) == l
  {
  }

  lemma PruneTwice(l: Ledger)
    ensures Prune(Prune(l, NoPressure()), NoPressure()) == Prune(l, NoPressure())
  {
  }

  // ----- admission ---------------------------------------------------------------------

  /** `new_task_exceeds_capacity` for an encoding of `bytes(l)` bytes. */
  predicate ExceedsCapacity(l: Ledger, bytes: Ledger -> nat) {
    |l| > MAX_TASKS_PER_SESSION || bytes(l) > NEW_TASK_SOFT_LIMIT_BYTES
  }

  function Pressure(bytes: Ledger -> nat): Ledger -> bool { (l: Ledger) => ExceedsCapacity(l, bytes) }

  /** Encoding fewer records never takes more bytes. */
  ghost predicate SizeIsMonotone(bytes: Ledger -> nat) {
    forall l: Ledger, d: set<string> {:trigger bytes(l - d)} :: bytes(l - d) <= bytes(l)
  }

  function OpenOnly(l: Ledger): Ledger { map id | id in l && l[id].phase != Closed :: l[id] }

  lemma KeptPart(l: Ledger, r: Ledger)
    requires r.Keys <= l.Keys && forall id <- r :: r[id] == l[id]
    ensures r == l - (l.Keys - r.Keys) && |r| <= |l|
  {
  }

  /** After pruning under admission pressure the ledger is still too big exactly when the
      open records alone, the new one among them, are too big. */
  lemma AdmissionIsExact(l: Ledger, bytes: Ledger -> nat)
    requires SizeIsMonotone(bytes)
    ensures ExceedsCapacity(Prune(l, Pressure(bytes)), bytes) <==> ExceedsCapacity(OpenOnly(l), bytes)
  {
    var r := Prune(l, Pressure(bytes));
    PruneKeeps(l, Pressure(bytes));
    PruneMeetsLimits(l, Pressure(bytes));
    KeptPart(r, OpenOnly(l));
    if ExceedsCapacity(r, bytes) {
      assert ClosedIds(r) == {};
      assert r == OpenOnly(l) by {
        forall id | id in r ensures r[id].phase != Closed { assert id in ClosedIds(r) <==> r[id].phase == Closed; }
      }
    }
  }
}
