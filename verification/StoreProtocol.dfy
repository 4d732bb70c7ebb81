/** scripts/governance_state_store.py: one file, one lock, read - callback - validate - replace -
    read back. Here for any state and any callbacks: first as the sequential class, then as
    any number of interleaved callers with faults and kills at every step. */
module StoreProtocol {
  import opened Basics

  datatype Failure<+E> = LockFailed | ReadFailed | Raised(error: E) | Rejected | WriteFailed

  datatype Ending<+E> = Success | Failed(failure: Failure<E>)

  /** What goes wrong during one update, if anything. A fault after the replace is reported
      although the file has changed. */
  datatype Fault = NoFault | AtLock | AtRead | BeforeReplace | AfterReplace | AtReadback

  /** The callbacks callers run, the check every write passes, the file at the start, and the
      job of each caller. */
  datatype System<!S, !J, +E> = System(run: (S, J) -> Result<S, E>, accepts: (S, J) -> bool, initial: S, work: seq<J>)

  datatype Effect<+S, +E> = Effect(file: S, ending: Ending<E>, replaced: bool)

  /** `update` as one atomic action on the file. */
  function Update<S, J, E>(sys: System<S, J, E>, file: S, job: J, fault: Fault): Effect<S, E> {
    if fault == AtLock then Effect(file, Failed(LockFailed), false)
    else if fault == AtRead then Effect(file, Failed(ReadFailed), false)
    else
      match sys.run(file, job)
      case Err(e) => Effect(file, Failed(Raised(e)), false)
      case Ok(next) =>
        if !sys.accepts(next, job) then Effect(file, Failed(Rejected), false)
        else if fault == BeforeReplace then Effect(file, Failed(WriteFailed), false)
        else Effect(next, if fault == NoFault then Success else Failed(WriteFailed), true)
  }

  /** When the file changes, to what, and what each ending means. */
  lemma UpdateIsExact<S, J, E>(sys: System<S, J, E>, file: S, job: J, fault: Fault)
    ensures var u := Update(sys, file, job, fault); var made := sys.run(file, job);
            && (u.replaced <==> fault in {NoFault, AfterReplace, AtReadback} && made.Ok? && sys.accepts(made.value, job))
            && (u.file == if u.replaced then made.value else file)
            && (u.ending == Success <==> u.replaced && fault == NoFault)
            && (forall e :: u.ending == Failed(Raised(e)) <==> fault != AtLock && fault != AtRead && made == Err(e))
            && (u.ending == Failed(Rejected) <==>
                  fault != AtLock && fault != AtRead && made.Ok? && !sys.accepts(made.value, job))
            && (u.ending == Failed(LockFailed) <==> fault == AtLock) && (u.ending == Failed(ReadFailed) <==> fault == AtRead)
  {
  }

  // ----- the sequential class --------------------------------------------------------------

  class StateStore<!S(==), !J, E> {
    const sys: System<S, J, E>
    var file: S
    var locked: bool

    constructor (sys: System<S, J, E>)
      ensures this.sys == sys && file == sys.initial && !locked
    {
      this.sys := sys;
      file := sys.initial;
      locked := false;
    }

    /** `_write_path`: validate, replace atomically, read back and compare. */
    method WritePath(next: S, job: J, fault: Fault) returns (r: Ending<E>)
      requires fault != AtLock && fault != AtRead
      modifies this`file
      ensures if !sys.accepts(next, job) then file == old(file) && r == Failed(Rejected)
              else if fault == BeforeReplace then file == old(file) && r == Failed(WriteFailed)
              else file == next && r == (if fault == NoFault then Success else Failed(WriteFailed))
    {
      if !sys.accepts(next, job) {
        return Failed(Rejected);
      }
      if fault == BeforeReplace {
        return Failed(WriteFailed);
      }
      file := next;
      if fault == AfterReplace || fault == AtReadback {
        return Failed(WriteFailed);
      }
      var verified := file;
      if verified != next {
        return Failed(WriteFailed);
      }
      r := Success;
    }

    /** `compare_and_set`; `update` is the case of a predicate that always holds. */
    method CompareAndSet(holds: S -> bool, conflict: E, job: J, fault: Fault) returns (r: Ending<E>)
      requires !locked
      modifies this
      ensures !locked
      ensures fault != AtLock && fault != AtRead && !holds(old(file)) ==> file == old(file) && r == Failed(Raised(conflict))
      ensures fault == AtLock || fault == AtRead || holds(old(file)) ==>
                var atomic := Update(sys, old(file), job, fault); file == atomic.file && r == atomic.ending
    {
      if fault == AtLock {
        return Failed(LockFailed);
      }
      locked := true;
      if fault == AtRead {
        locked := false;
        return Failed(ReadFailed);
      }
      var state := file;
      if !holds(state) {
        locked := false;
        return Failed(Raised(conflict));
      }
      match sys.run(state, job) {
        case Err(e) =>
          locked := false;
          return Failed(Raised(e));
        case Ok(next) =>
          r := WritePath(next, job, fault);
      }
      locked := false;
    }
  }

  // ----- many callers ------------------------------------------------------------------------

  /** Where a caller stands. `Leaving` still holds the lock; after `Returned` a caller may take
      the lock once more to read what the file holds. */
  datatype Pc<+S, +E> =
    | Ready
    | Entered
    | Loaded(seen: S)
    | Computed(next: S)
    | Checked(next: S)
    | Replaced(next: S)
    | Leaving(ending: Ending<E>)
    | Returned(ending: Ending<E>)
    | Rereading(ending: Ending<E>)
    | Reread(ending: Ending<E>, found: Option<S>)
    | Answered(ending: Ending<E>, found: Option<S>)
    | Killed

  /** The file, the lock, where each caller stands, and the callers whose replace took place,
      in order. */
  datatype World<+S, +E> = World(file: S, holder: Option<nat>, pcs: seq<Pc<S, E>>, commits: seq<nat>)

  /** `SyncFault` and `ReadbackFault` strike after the replace; `Kill` ends the process. */
  datatype Action =
    | Acquire | AcquireFault | Load | LoadFault | RunCallback | Check | Replace | ReplaceFault | SyncFault
    | Readback | ReadbackFault | Release
    | AcquireAgain | AcquireAgainFault | LoadAgain | LoadAgainFault | ReleaseAgain
    | Kill

  predicate Holds<S, E>(pc: Pc<S, E>) {
    pc.Entered? || pc.Loaded? || pc.Computed? || pc.Checked? || pc.Replaced? || pc.Leaving? || pc.Rereading? || pc.Reread?
  }

  /** Caller `i`, standing at `pc`, is at `pc'`. */
  function At<S, E>(w: World<S, E>, i: nat, pc: Pc<S, E>): World<S, E>
    requires i < |w.pcs|
  {
    w.(pcs := w.pcs[i := pc])
  }

  /** One action of caller `i`; an action that is not due leaves the world alone. */
  function Step<S(==), J, E>(sys: System<S, J, E>, w: World<S, E>, i: nat, action: Action): World<S, E> {
    if i >= |w.pcs| || i >= |sys.work| then w
    else
      var pc, job := w.pcs[i], sys.work[i];
      match action
      case Acquire => if pc.Ready? && w.holder.None? then At(w.(holder := Some(i)), i, Entered) else w
      case AcquireFault => if pc.Ready? then At(w, i, Returned(Failed(LockFailed))) else w
      case Load => if pc.Entered? then At(w, i, Loaded(w.file)) else w
      case LoadFault => if pc.Entered? then At(w, i, Leaving(Failed(ReadFailed))) else w
      case RunCallback =>
        if pc.Loaded? then
          match sys.run(pc.seen, job)
          case Ok(next) => At(w, i, Computed(next))
          case Err(e) => At(w, i, Leaving(Failed(Raised(e))))
        else w
      case Check =>
        if pc.Computed? then
          if sys.accepts(pc.next, job) then At(w, i, Checked(pc.next)) else At(w, i, Leaving(Failed(Rejected)))
        else w
      case Replace => if pc.Checked? then At(w.(file := pc.next, commits := w.commits + [i]), i, Replaced(pc.next)) else w
      case ReplaceFault => if pc.Checked? then At(w, i, Leaving(Failed(WriteFailed))) else w
      case SyncFault => if pc.Replaced? then At(w, i, Leaving(Failed(WriteFailed))) else w
      case Readback =>
        if pc.Replaced? then At(w, i, Leaving(if w.file == pc.next then Success else Failed(WriteFailed))) else w
      case ReadbackFault => if pc.Replaced? then At(w, i, Leaving(Failed(WriteFailed))) else w
      case Release => if pc.Leaving? then At(w.(holder := None), i, Returned(pc.ending)) else w
      case AcquireAgain => if pc.Returned? && w.holder.None? then At(w.(holder := Some(i)), i, Rereading(pc.ending)) else w
      case AcquireAgainFault => if pc.Returned? then At(w, i, Answered(pc.ending, None)) else w
      case LoadAgain => if pc.Rereading? then At(w, i, Reread(pc.ending, Some(w.file))) else w
      case LoadAgainFault => if pc.Rereading? then At(w, i, Reread(pc.ending, None)) else w
      case ReleaseAgain => if pc.Reread? then At(w.(holder := None), i, Answered(pc.ending, pc.found)) else w
      case Kill =>
        if pc.Answered? then w
        else At(w.(holder := if w.holder == Some(i) then None else w.holder), i, Killed)
  }

  function Start<S, J, E>(sys: System<S, J, E>): World<S, E> {
    World(sys.initial, None, seq(|sys.work|, _ => Ready), [])
  }

  /** The world after a schedule: any callers' actions, in any order. */
  function Execute<S(==), J, E>(sys: System<S, J, E>, schedule: seq<(nat, Action)>): World<S, E> {
    if schedule == [] then Start(sys)
    else
      var last := schedule[|schedule| - 1];
      Step(sys, Execute(sys, schedule[..|schedule| - 1]), last.0, last.1)
  }

  // ----- the serial history ------------------------------------------------------------------

  /** The file after the given callers' callbacks have been applied one after another. */
  function Replay<S, J, E>(sys: System<S, J, E>, commits: seq<nat>): S {
    if commits == [] then sys.initial
    else
      var before, i := Replay(sys, commits[..|commits| - 1]), commits[|commits| - 1];
      if i < |sys.work| && sys.run(before, sys.work[i]).Ok? then sys.run(before, sys.work[i]).value else before
  }

  /** The file as it was when the first `k` replaces had happened. */
  function Version<S, J, E>(sys: System<S, J, E>, commits: seq<nat>, k: nat): S
    requires k <= |commits|
  {
    Replay(sys, commits[..k])
  }

  function EndingOf<S, E>(pc: Pc<S, E>): Option<Ending<E>> {
    match pc
    case Leaving(e) => Some(e)
    case Returned(e) => Some(e)
    case Rereading(e) => Some(e)
    case Reread(e, _) => Some(e)
    case Answered(e, _) => Some(e)
    case _ => None
  }

  function FoundBy<S, E>(pc: Pc<S, E>): Option<S> {
    match pc
    case Reread(_, found) => found
    case Answered(_, found) => found
    case _ => None
  }

  /** The caller's whole update is the atomic action on version `k` under some fault: the same
      ending, and the next version is its own exactly when the action replaced the file. */
  ghost predicate Linearized<S, J, E>(sys: System<S, J, E>, commits: seq<nat>, i: nat, ending: Ending<E>, k: nat, fault: Fault)
    requires i < |sys.work|
  {
    && k <= |commits|
    && var atomic := Update(sys, Version(sys, commits, k), sys.work[i], fault);
       && atomic.ending == ending
       && (atomic.replaced <==> i in commits)
       && (atomic.replaced ==> k < |commits| && commits[k] == i && atomic.file == Version(sys, commits, k + 1))
  }

  /** A caller that ended did what the atomic update does at one moment of the history. */
  ghost predicate Serialised<S, J, E>(sys: System<S, J, E>, commits: seq<nat>, i: nat, ending: Ending<E>)
    requires i < |sys.work|
  {
    exists k, fault :: Linearized(sys, commits, i, ending, k, fault)
  }

  ghost predicate IsVersion<S, J, E>(sys: System<S, J, E>, commits: seq<nat>, found: S) {
    exists k: nat :: k <= |commits| && found == Version(sys, commits, k)
  }

  ghost predicate CallerInvariant<S, J, E>(sys: System<S, J, E>, w: World<S, E>, i: nat)
    requires i < |w.pcs| == |sys.work|
  {
    var pc, job := w.pcs[i], sys.work[i];
    && (Holds(pc) <==> w.holder == Some(i))
    && (pc.Loaded? ==> pc.seen == w.file)
    && (pc.Computed? || pc.Checked? ==> sys.run(w.file, job) == Ok(pc.next))
    && (pc.Checked? ==> sys.accepts(pc.next, job))
    && (pc.Replaced? ==> pc.next == w.file && Serialised(sys, w.commits, i, Success)
                         && Serialised(sys, w.commits, i, Failed(WriteFailed)))
    && (EndingOf(pc).Some? ==> Serialised(sys, w.commits, i, EndingOf(pc).value))
    && (FoundBy(pc).Some? ==> IsVersion(sys, w.commits, FoundBy(pc).value))
    && (pc.Ready? || pc.Entered? || pc.Loaded? || pc.Computed? || pc.Checked? ==> i !in w.commits)
  }

  /** Every commit applied its callback to the whole result of the commits before it, and what
      it wrote passed the check; no caller commits twice. */
  ghost predicate SerialHistory<S, J, E>(sys: System<S, J, E>, commits: seq<nat>) {
    && (forall k :: 0 <= k < |commits| ==> commits[k] < |sys.work|)
    && (forall k, m :: 0 <= k < m < |commits| ==> commits[k] != commits[m])
    && (forall k :: 0 <= k < |commits| ==> GoodCommit(sys, commits, k))
  }

  ghost predicate GoodCommit<S, J, E>(sys: System<S, J, E>, commits: seq<nat>, k: nat)
    requires k < |commits|
  {
    && commits[k] < |sys.work|
    && sys.run(Version(sys, commits, k), sys.work[commits[k]]) == Ok(Version(sys, commits, k + 1))
    && sys.accepts(Version(sys, commits, k + 1), sys.work[commits[k]])
  }

  ghost predicate Invariant<S, J, E>(sys: System<S, J, E>, w: World<S, E>) {
    && |w.pcs| == |sys.work|
    && w.file == Replay(sys, w.commits)
    && SerialHistory(sys, w.commits)
    && forall i :: 0 <= i < |w.pcs| ==> CallerInvariant(sys, w, i)
  }

  // ----- a step keeps the invariant ------------------------------------------------------------

  predicate Extends(commits: seq<nat>, more: seq<nat>) { |commits| <= |more| && more[..|commits|] == commits }

  lemma VersionsStay<S, J, E>(sys: System<S, J, E>, commits: seq<nat>, more: seq<nat>)
    requires Extends(commits, more)
    ensures forall k: nat :: k <= |commits| ==> Version(sys, more, k) == Version(sys, commits, k)
  {
    forall k: nat | k <= |commits| ensures Version(sys, more, k) == Version(sys, commits, k) {
      assert more[..k] == commits[..k];
    }
  }

  lemma SerialisedStays<S, J, E>(sys: System<S, J, E>, commits: seq<nat>, more: seq<nat>, i: nat, ending: Ending<E>)
    requires Extends(commits, more) && i < |sys.work| && (i in more <==> i in commits)
    requires Serialised(sys, commits, i, ending)
    ensures Serialised(sys, more, i, ending)
  {
    VersionsStay(sys, commits, more);
    var k, fault :| Linearized(sys, commits, i, ending, k, fault);
    assert Linearized(sys, more, i, ending, k, fault);
  }

  lemma FoundStays<S, J, E>(sys: System<S, J, E>, commits: seq<nat>, more: seq<nat>, found: S)
    requires Extends(commits, more) && IsVersion(sys, commits, found)
    ensures IsVersion(sys, more, found)
  {
    VersionsStay(sys, commits, more);
    var k: nat :| k <= |commits| && found == Version(sys, commits, k);
    assert found == Version(sys, more, k);
  }

  /** The callers that do not act stay in order: only the holder of the lock may have changed
      the file. */
  lemma BystanderKeeps<S, J, E>(sys: System<S, J, E>, w: World<S, E>, w': World<S, E>, j: nat)
    requires j < |w.pcs| == |w'.pcs| == |sys.work| && w'.pcs[j] == w.pcs[j] && CallerInvariant(sys, w, j)
    requires w.holder == Some(j) <==> w'.holder == Some(j)
    requires Extends(w.commits, w'.commits) && (j in w'.commits <==> j in w.commits)
    requires w.holder == Some(j) ==> w'.file == w.file
    ensures CallerInvariant(sys, w', j)
  {
    var pc := w.pcs[j];
    if EndingOf(pc).Some? {
      SerialisedStays(sys, w.commits, w'.commits, j, EndingOf(pc).value);
    }
    if pc.Replaced? {
      SerialisedStays(sys, w.commits, w'.commits, j, Success);
      SerialisedStays(sys, w.commits, w'.commits, j, Failed(WriteFailed));
    }
    if FoundBy(pc).Some? {
      FoundStays(sys, w.commits, w'.commits, FoundBy(pc).value);
    }
  }

  /** A caller that ends without a replace is the atomic action on the present version. */
  lemma EndsNow<S, J, E>(sys: System<S, J, E>, w: World<S, E>, i: nat, ending: Ending<E>, fault: Fault)
    requires i < |sys.work| && i !in w.commits && w.file == Replay(sys, w.commits)
    requires var atomic := Update(sys, w.file, sys.work[i], fault); atomic.ending == ending && !atomic.replaced
    ensures Serialised(sys, w.commits, i, ending)
  {
    assert w.commits[..|w.commits|] == w.commits;
    assert Linearized(sys, w.commits, i, ending, |w.commits|, fault);
  }

  lemma CommitsNow<S, J, E>(sys: System<S, J, E>, commits: seq<nat>, file: S, next: S, i: nat)
    requires i < |sys.work| && i !in commits && file == Replay(sys, commits)
    requires sys.run(file, sys.work[i]) == Ok(next) && sys.accepts(next, sys.work[i])
    requires SerialHistory(sys, commits)
    ensures Replay(sys, commits + [i]) == next && SerialHistory(sys, commits + [i])
    ensures Serialised(sys, commits + [i], i, Success) && Serialised(sys, commits + [i], i, Failed(WriteFailed))
  {
    var more, k := commits + [i], |commits|;
    assert more[..k] == commits && commits[..k] == commits && more[..k + 1] == more;
    VersionsStay(sys, commits, more);
    assert GoodCommit(sys, more, k);
    forall m | 0 <= m < |more| ensures GoodCommit(sys, more, m) {
      if m < k {
        assert GoodCommit(sys, commits, m);
      }
    }
    assert Linearized(sys, more, i, Success, k, NoFault);
    assert Linearized(sys, more, i, Failed(WriteFailed), k, AfterReplace);
  }

  /** The acting caller, before it has replaced anything. */
  lemma ActorBefore<S, J, E>(sys: System<S, J, E>, w: World<S, E>, i: nat, action: Action)
    requires i < |w.pcs| == |sys.work| && CallerInvariant(sys, w, i) && w.file == Replay(sys, w.commits)
    requires w.pcs[i].Ready? || w.pcs[i].Entered? || w.pcs[i].Loaded? || w.pcs[i].Computed?
             || (w.pcs[i].Checked? && action != Replace)
    ensures var w' := Step(sys, w, i, action);
            && w'.file == w.file && w'.commits == w.commits && |w'.pcs| == |w.pcs| && CallerInvariant(sys, w', i)
  {
    var job := sys.work[i];
    match action
    case AcquireFault => EndsNow(sys, w, i, Failed(LockFailed), AtLock);
    case LoadFault => EndsNow(sys, w, i, Failed(ReadFailed), AtRead);
    case RunCallback =>
      if sys.run(w.file, job).Err? {
        EndsNow(sys, w, i, Failed(Raised(sys.run(w.file, job).error)), NoFault);
      }
    case Check =>
      if w.pcs[i].Computed? && !sys.accepts(w.pcs[i].next, job) {
        EndsNow(sys, w, i, Failed(Rejected), NoFault);
      }
    case ReplaceFault =>
      if w.pcs[i].Checked? {
        EndsNow(sys, w, i, Failed(WriteFailed), BeforeReplace);
      }
    case _ =>
  }

  lemma ActorCommits<S, J, E>(sys: System<S, J, E>, w: World<S, E>, i: nat)
    requires i < |w.pcs| == |sys.work| && CallerInvariant(sys, w, i) && w.pcs[i].Checked?
    requires Serialised(sys, w.commits + [i], i, Success) && Serialised(sys, w.commits + [i], i, Failed(WriteFailed))
    ensures var w' := Step(sys, w, i, Replace);
            && w'.commits == w.commits + [i] && w'.file == w.pcs[i].next && |w'.pcs| == |w.pcs| && CallerInvariant(sys, w', i)
  {
  }

  lemma ActorReplaced<S, J, E>(sys: System<S, J, E>, w: World<S, E>, i: nat, action: Action)
    requires i < |w.pcs| == |sys.work| && CallerInvariant(sys, w, i) && w.file == Replay(sys, w.commits)
    requires w.pcs[i].Replaced?
    ensures var w' := Step(sys, w, i, action);
            && w'.file == w.file && w'.commits == w.commits && |w'.pcs| == |w.pcs| && CallerInvariant(sys, w', i)
  {
  }

  lemma ActorEnded<S, J, E>(sys: System<S, J, E>, w: World<S, E>, i: nat, action: Action)
    requires i < |w.pcs| == |sys.work| && CallerInvariant(sys, w, i) && w.file == Replay(sys, w.commits)
    requires EndingOf(w.pcs[i]).Some? || w.pcs[i].Killed?
    ensures var w' := Step(sys, w, i, action);
            && w'.file == w.file && w'.commits == w.commits && |w'.pcs| == |w.pcs| && CallerInvariant(sys, w', i)
  {
    if action == LoadAgain && w.pcs[i].Rereading? {
      assert w.commits[..|w.commits|] == w.commits;
      assert w.file == Version(sys, w.commits, |w.commits|);
    }
  }

  lemma Bystanders<S, J, E>(sys: System<S, J, E>, w: World<S, E>, i: nat, action: Action, j: nat)
    requires Invariant(sys, w) && i < |w.pcs| && j < |w.pcs| && j != i
    ensures var w' := Step(sys, w, i, action); |w'.pcs| == |w.pcs| && CallerInvariant(sys, w', j)
  {
    assert CallerInvariant(sys, w, i) && CallerInvariant(sys, w, j);
    BystanderKeeps(sys, w, Step(sys, w, i, action), j);
  }

  lemma StepKeeps<S, J, E>(sys: System<S, J, E>, w: World<S, E>, i: nat, action: Action)
    requires Invariant(sys, w)
    ensures Invariant(sys, Step(sys, w, i, action))
  {
    if i < |w.pcs| {
      assert CallerInvariant(sys, w, i);
      if w.pcs[i].Checked? && action == Replace {
        CommitsNow(sys, w.commits, w.file, w.pcs[i].next, i);
        ActorCommits(sys, w, i);
      } else if w.pcs[i].Replaced? {
        ActorReplaced(sys, w, i, action);
      } else if EndingOf(w.pcs[i]).Some? || w.pcs[i].Killed? {
        ActorEnded(sys, w, i, action);
      } else {
        ActorBefore(sys, w, i, action);
      }
      forall j: nat | j < |w.pcs| && j != i ensures CallerInvariant(sys, Step(sys, w, i, action), j) {
        Bystanders(sys, w, i, action, j);
      }
    }
  }

  lemma {:induction false} AlwaysInvariant<S, J, E>(sys: System<S, J, E>, schedule: seq<(nat, Action)>)
    ensures Invariant(sys, Execute(sys, schedule))
  {
    if schedule != [] {
      var last := schedule[|schedule| - 1];
      AlwaysInvariant(sys, schedule[..|schedule| - 1]);
      StepKeeps(sys, Execute(sys, schedule[..|schedule| - 1]), last.0, last.1);
    }
  }

  // ----- what holds under every schedule --------------------------------------------------------

  /** Serialisability: whatever the interleaving, faults and kills, the file always is the
      committed callbacks applied one after another, each to everything committed before it,
      so a reader without the lock sees exactly such a ledger; at most one caller is between
      taking and leaving the lock. */
  lemma FileIsSerial<S, J, E>(sys: System<S, J, E>, schedule: seq<(nat, Action)>)
    ensures var w := Execute(sys, schedule);
            && w.file == Replay(sys, w.commits) && SerialHistory(sys, w.commits)
            && (forall i, j :: 0 <= i < |w.pcs| && 0 <= j < |w.pcs| && Holds(w.pcs[i]) && Holds(w.pcs[j]) ==> i == j)
  {
    AlwaysInvariant(sys, schedule);
    var w := Execute(sys, schedule);
    forall i: nat, j: nat | i < |w.pcs| && j < |w.pcs| && Holds(w.pcs[i]) && Holds(w.pcs[j]) ensures i == j {
      assert CallerInvariant(sys, w, i) && CallerInvariant(sys, w, j);
    }
  }

  /** Every caller that ended was the atomic update at one moment, and what it found on reading
      again was one of the committed files. */
  lemma EndingsAreAtomic<S, J, E>(sys: System<S, J, E>, schedule: seq<(nat, Action)>, i: nat)
    requires i < |Execute(sys, schedule).pcs|
    ensures var w := Execute(sys, schedule);
            && i < |sys.work|
            && (EndingOf(w.pcs[i]).Some? ==> Serialised(sys, w.commits, i, EndingOf(w.pcs[i]).value))
            && (FoundBy(w.pcs[i]).Some? ==> IsVersion(sys, w.commits, FoundBy(w.pcs[i]).value))
  {
    AlwaysInvariant(sys, schedule);
    assert CallerInvariant(sys, Execute(sys, schedule), i);
  }

  /** No lost update and no silent one: success means the caller committed; a failure before
      the write means it did not; only a write failure leaves both possible. */
  lemma EndingTellsCommit<S, J, E>(sys: System<S, J, E>, schedule: seq<(nat, Action)>, i: nat)
    requires i < |Execute(sys, schedule).pcs| && EndingOf(Execute(sys, schedule).pcs[i]).Some?
    ensures var w := Execute(sys, schedule);
            var ending := EndingOf(w.pcs[i]).value;
            && (ending == Success ==> i in w.commits)
            && (ending.Failed? && !ending.failure.WriteFailed? ==> i !in w.commits)
  {
    EndingsAreAtomic(sys, schedule, i);
    var w := Execute(sys, schedule);
    var k, fault :| Linearized(sys, w.commits, i, EndingOf(w.pcs[i]).value, k, fault);
  }

  // ----- the class is one caller running undisturbed ----------------------------------------------

  function Perform<S(==), J, E>(sys: System<S, J, E>, w: World<S, E>, i: nat, actions: seq<Action>): World<S, E>
    decreases |actions|
  {
    if actions == [] then w else Perform(sys, Step(sys, w, i, actions[0]), i, actions[1..])
  }

  /** The actions of one update; those an earlier end makes undue change nothing. */
  function UpToCheck(fault: Fault): seq<Action> {
    match fault
    case AtLock => [AcquireFault]
    case AtRead => [Acquire, LoadFault]
    case _ => [Acquire, Load, RunCallback, Check]
  }

  function FromReplace(fault: Fault): seq<Action> {
    match fault
    case BeforeReplace => [ReplaceFault, Release]
    case AfterReplace => [Replace, SyncFault, Release]
    case AtReadback => [Replace, ReadbackFault, Release]
    case _ => [Replace, Readback, Release]
  }

  lemma {:induction false} PerformTwo<S, J, E>(sys: System<S, J, E>, w: World<S, E>, i: nat, first: seq<Action>, second: seq<Action>)
    ensures Perform(sys, w, i, first + second) == Perform(sys, Perform(sys, w, i, first), i, second)
    decreases |first|
  {
    if first == [] {
      assert first + second == second;
    } else {
      assert (first + second)[0] == first[0] && (first + second)[1..] == first[1..] + second;
      PerformTwo(sys, Step(sys, w, i, first[0]), i, first[1..], second);
    }
  }

  lemma PerformThree<S, J, E>(sys: System<S, J, E>, w: World<S, E>, i: nat, a: Action, b: Action, c: Action)
    ensures Perform(sys, w, i, [a, b, c]) == Step(sys, Step(sys, Step(sys, w, i, a), i, b), i, c)
    ensures Perform(sys, w, i, [a, b]) == Step(sys, Step(sys, w, i, a), i, b)
    ensures Perform(sys, w, i, [a]) == Step(sys, w, i, a)
  {
    var w1 := Step(sys, w, i, a);
    var w2 := Step(sys, w1, i, b);
    assert [a, b, c][1..] == [b, c] && [b, c][1..] == [c] && [a, b][1..] == [b];
    assert Perform(sys, w2, i, [c]) == Perform(sys, Step(sys, w2, i, c), i, []);
    assert Perform(sys, w1, i, [b, c]) == Perform(sys, w2, i, [c]);
    assert Perform(sys, w1, i, [b]) == Perform(sys, w2, i, []);
    assert Perform(sys, w, i, [a]) == Perform(sys, w1, i, []);
  }

  /** Where an undisturbed caller stands once its callback has run and been checked. */
  ghost predicate CheckedAlone<S, J, E>(sys: System<S, J, E>, w: World<S, E>, i: nat, fault: Fault, mid: World<S, E>)
    requires i < |w.pcs| && i < |sys.work|
  {
    var atomic := Update(sys, w.file, sys.work[i], fault);
    && |mid.pcs| == |w.pcs| && mid.file == w.file
    && (if fault == AtLock then mid.pcs[i] == Returned(atomic.ending) && mid.holder == None
        else mid.holder == Some(i)
             && if atomic.replaced || (fault == BeforeReplace && atomic.ending == Failed(WriteFailed))
                then mid.pcs[i].Checked? && sys.run(w.file, sys.work[i]) == Ok(mid.pcs[i].next)
                else mid.pcs[i] == Leaving(atomic.ending))
  }

  lemma LoadsAlone<S, J, E>(sys: System<S, J, E>, w: World<S, E>, i: nat)
    requires i < |w.pcs| && i < |sys.work| && w.pcs[i].Ready? && w.holder.None?
    ensures Perform(sys, w, i, [Acquire, Load]) == At(w.(holder := Some(i)), i, Loaded(w.file))
  {
  }

  lemma ChecksAlone<S, J, E>(sys: System<S, J, E>, w: World<S, E>, i: nat, fault: Fault, mid: World<S, E>)
    requires i < |w.pcs| && i < |sys.work| && fault != AtLock && fault != AtRead
    requires mid == At(w.(holder := Some(i)), i, Loaded(w.file))
    ensures CheckedAlone(sys, w, i, fault, Perform(sys, mid, i, [RunCallback, Check]))
  {
  }

  lemma AloneToCheck<S, J, E>(sys: System<S, J, E>, w: World<S, E>, i: nat, fault: Fault)
    requires i < |w.pcs| && i < |sys.work| && w.pcs[i].Ready? && w.holder.None?
    ensures CheckedAlone(sys, w, i, fault, Perform(sys, w, i, UpToCheck(fault)))
  {
    match fault
    case AtLock => PerformThree(sys, w, i, AcquireFault, Acquire, Acquire);
    case AtRead => PerformThree(sys, w, i, Acquire, LoadFault, Acquire);
    case _ =>
      assert [Acquire, Load] + [RunCallback, Check] == UpToCheck(fault);
      PerformTwo(sys, w, i, [Acquire, Load], [RunCallback, Check]);
      LoadsAlone(sys, w, i);
      ChecksAlone(sys, w, i, fault, At(w.(holder := Some(i)), i, Loaded(w.file)));
  }

  /** The rest, of a caller that stands checked and of one that is already leaving. */
  lemma ReplacesAlone<S, J, E>(sys: System<S, J, E>, mid: World<S, E>, i: nat, fault: Fault)
    requires i < |mid.pcs| && i < |sys.work| && mid.pcs[i].Checked?
    ensures var end := Perform(sys, mid, i, FromReplace(fault));
            && |end.pcs| == |mid.pcs| && end.holder.None?
            && end.file == (if fault == BeforeReplace then mid.file else mid.pcs[i].next)
            && end.pcs[i] == Returned(if fault == BeforeReplace || fault == AfterReplace || fault == AtReadback
                                      then Failed(WriteFailed) else Success)
  {
    match fault
    case BeforeReplace => PerformThree(sys, mid, i, ReplaceFault, Release, Release);
    case AfterReplace => PerformThree(sys, mid, i, Replace, SyncFault, Release);
    case AtReadback => PerformThree(sys, mid, i, Replace, ReadbackFault, Release);
    case _ => PerformThree(sys, mid, i, Replace, Readback, Release);
  }

  lemma LeavesAlone<S, J, E>(sys: System<S, J, E>, mid: World<S, E>, i: nat, fault: Fault)
    requires i < |mid.pcs| && i < |sys.work|
    requires mid.pcs[i].Leaving? || (mid.pcs[i].Returned? && mid.holder.None?)
    ensures var end := Perform(sys, mid, i, FromReplace(fault));
            && |end.pcs| == |mid.pcs| && end.holder.None? && end.file == mid.file
            && end.pcs[i] == Returned(mid.pcs[i].ending)
  {
    match fault
    case BeforeReplace => PerformThree(sys, mid, i, ReplaceFault, Release, Release);
    case AfterReplace => PerformThree(sys, mid, i, Replace, SyncFault, Release);
    case AtReadback => PerformThree(sys, mid, i, Replace, ReadbackFault, Release);
    case _ => PerformThree(sys, mid, i, Replace, Readback, Release);
  }

  /** The steps of the protocol, undisturbed, are the atomic update the class method is proved
      to be: the same file, the same ending, the lock free again. */
  lemma StepsRefineUpdate<S, J, E>(sys: System<S, J, E>, w: World<S, E>, i: nat, fault: Fault)
    requires i < |w.pcs| && i < |sys.work| && w.pcs[i].Ready? && w.holder.None?
    ensures var end := Perform(sys, w, i, UpToCheck(fault) + FromReplace(fault));
            var atomic := Update(sys, w.file, sys.work[i], fault);
            && |end.pcs| == |w.pcs| && end.pcs[i] == Returned(atomic.ending) && end.file == atomic.file && end.holder.None?
  {
    AloneToCheck(sys, w, i, fault);
    PerformTwo(sys, w, i, UpToCheck(fault), FromReplace(fault));
    var mid := Perform(sys, w, i, UpToCheck(fault));
    if mid.pcs[i].Checked? {
      ReplacesAlone(sys, mid, i, fault);
    } else {
      LeavesAlone(sys, mid, i, fault);
    }
  }
}
