/** scripts/dev_deploy.py: `deploy`. Stable is switched to the published bundle and the cache to
    two versions, inside a transaction that recovery can undo until it ends. */
module Deploy {
  import opened Basics
  import opened Bundle
  import opened Disk
  import opened Recovery
  import opened BundleStaging

  /** The source worktree as it is found: its files, and whether it is clean at the expected head. */
  datatype Worktree = Worktree(tree: Tree, clean: bool)

  /** One invocation: what it asks for, the worktree each time it is looked at, and what the
      native installer returns and leaves in the cache. */
  datatype Job = Job(
    id: string, commit: Commit, version: string, previous: Option<string>,
    admission: Worktree, locked: Worktree, staged: Tree, after: Worktree,
    installed: Cache, returncode: int)

  datatype Report = DryRunPassed | Succeeded | RolledBack | RollbackFailed | DeployFailed

  /** What is known under the lock before anything is written. */
  datatype Plan = Plan(source_digest: Digest, pre_stable_digest: Digest, pre_caches: Facts,
                       previous: Option<string>, previous_digest: Option<Digest>)

  /** `_select_previous`. */
  function SelectPrevious(names: set<string>, previous: Option<string>, target: string): Outcome<Option<string>> {
    if target in names then Raised
    else if names == {} then (if previous.Some? then Raised else Value(None))
    else if previous.None? || !IsVersionName(previous.value) || previous.value !in names || previous.value == target then Raised
    else if |names| > 2 then Raised
    else Value(previous)
  }

  function Keep(version: string, previous: Option<string>): set<string> {
    {version} + (if previous.Some? then {previous.value} else {})
  }

  /** The previous version a deployment may keep: none beside an empty cache, and otherwise one
      that is named, and is there, of at most two; and the target is new. */
  predicate PreviousInOrder(cache: Cache, previous: Option<string>, target: string) {
    && target !in cache
    && (if cache == map[] then previous.None? else previous.Some? && previous.value in cache && |cache| <= 2)
  }

  lemma SelectionIsExact(rd: Reader, cache: Cache, previous: Option<string>, target: string)
    requires CacheFacts(rd, cache).Some?
    ensures SelectPrevious(cache.Keys, previous, target) == if PreviousInOrder(cache, previous, target) then Value(previous) else Raised
  {
    assert |cache.Keys| == |cache| && (cache.Keys == {} <==> cache == map[]);
    if previous.Some? && previous.value in cache {
      assert GoodCacheEntry(rd, previous.value, cache[previous.value]);
    }
  }

  /** The full success condition, between the live roots before and after. */
  ghost predicate Deployed(rd: Reader, job: Job, before: Live, after: Live) {
    && RuntimeFiles(rd, job.admission.tree).Some?
    && var bundle := Projection(rd, job.admission.tree);
       && after.stable == Some(bundle)
       && PreviousInOrder(before.cache, job.previous, job.version)
       && after.cache.Keys == Keep(job.version, job.previous) && after.cache[job.version] == bundle
       && (job.previous.Some? ==> job.previous.value in before.cache
                                  && after.cache[job.previous.value] == before.cache[job.previous.value])
  }

  // ----- where a deployment stands ------------------------------------------------------------------

  function ManifestFor(job: Job, plan: Plan, state: State): Manifest {
    Manifest(job.id, state, job.version, plan.source_digest, plan.pre_stable_digest, plan.pre_caches,
             Staging(job.id), Backup(job.id), Recovery(job.id))
  }

  /** The snapshots are complete, and the manifest is at `state`. */
  ghost predicate Deploying(d: Disk, job: Job, plan: Plan, pre: Live, state: State) {
    && d.transactions == map[job.id := Transaction(Some(ManifestFor(job, plan, state)), pre.stable, Some(pre.cache))]
    && OnlySwitchesOf(d, job.id) && !state.SnapshotStarted?
  }

  ghost predicate PlanFits(rd: Reader, job: Job, plan: Plan, pre: Live) {
    && DigestIn(pre.stable) == Some(plan.pre_stable_digest) && CacheFacts(rd, pre.cache) == Some(plan.pre_caches)
    && IsVersionName(job.version) && job.version !in plan.pre_caches && plan.previous == job.previous
    && (job.previous.Some? ==> job.previous.value in pre.cache
                               && plan.previous_digest == VerifyRuntimeBundle(rd, pre.cache[job.previous.value])
                               && plan.previous_digest.Some?)
    && (job.previous.None? ==> plan.previous_digest.None?)
  }

  /** What the installer leaves is confined to known names and to files a digest accepts. */
  predicate Confined(job: Job, pre: Live) {
    forall name <- job.installed :: (name == job.version || name in pre.cache) && Plain(job.installed[name])
  }

  /** What a deployment that stopped before its end may leave. */
  ghost predicate Stopped(d: Disk, job: Job, plan: Plan, pre: Live) {
    Unstarted(d, job, plan, pre) || InProgress(d, job, plan, pre)
  }

  /** The snapshots are complete, and stable and the cache can be brought back to them. */
  ghost predicate InProgress(d: Disk, job: Job, plan: Plan, pre: Live) {
    exists state :: Underway(d, job, plan, pre, state)
  }

  ghost predicate Unstarted(d: Disk, job: Job, plan: Plan, pre: Live) {
    && LiveOf(d) == pre && d.switches == map[]
    && (d.transactions == map[] || exists t :: d.transactions == map[job.id := t] && SnapshotOpen(t, job, plan))
  }

  predicate SnapshotOpen(t: Transaction, job: Job, plan: Plan) {
    t.manifest.None? || t.manifest == Some(ManifestFor(job, plan, SnapshotStarted))
  }

  ghost predicate Underway(d: Disk, job: Job, plan: Plan, pre: Live, state: State) {
    && Deploying(d, job, plan, pre, state)
    && StableRecoverable(d, job.id, ManifestFor(job, plan, state))
    && (Confined(job, pre) ==> CacheKnown(d.cache, job, plan))
  }

  /** The deployment is done but for its clean-up: the new stable stands and what is left of the
      backup need not be usable. */
  ghost predicate Ending(d: Disk, job: Job, plan: Plan, pre: Live) {
    && Deploying(d, job, plan, pre, NativeInstallReturned)
    && DigestIn(d.stable) == Some(plan.source_digest) && Backup(job.id) in d.switches
    && (Confined(job, pre) ==> CacheKnown(d.cache, job, plan))
  }

  predicate CacheKnown(cache: Cache, job: Job, plan: Plan) {
    forall name <- cache :: (name == job.version || name in plan.pre_caches) && Plain(cache[name])
  }

  /** What the steps need of the roots the plan was made for. */
  ghost predicate Ready(job: Job, plan: Plan, pre: Live) {
    DigestIn(pre.stable) == Some(plan.pre_stable_digest) && CacheKnown(pre.cache, job, plan)
  }

  lemma PlanIsReady(rd: Reader, job: Job, plan: Plan, pre: Live)
    requires PlanFits(rd, job, plan, pre)
    ensures Ready(job, plan, pre) && Saved(pre.cache, plan.pre_caches)
  {
    FactsAreSaved(rd, pre.cache, plan.pre_caches);
  }

  lemma PlanIsWellFormed(rd: Reader, job: Job, plan: Plan, pre: Live, state: State)
    requires PlanFits(rd, job, plan, pre)
    ensures WellFormed(ManifestFor(job, plan, state), job.id) && plan.pre_caches.Keys == pre.cache.Keys
  {
  }

  /** A stopped deployment still stands for what was there before. */
  lemma StoppedIsSound(rd: Reader, d: Disk, job: Job, plan: Plan, pre: Live)
    requires PlanFits(rd, job, plan, pre) && Stopped(d, job, plan, pre)
    ensures Sound(rd, d) && Committed(d) == pre && d.transactions.Keys <= {job.id}
  {
    if state :| Underway(d, job, plan, pre, state) {
      PlanIsWellFormed(rd, job, plan, pre, state);
      var t := d.transactions[job.id];
      assert SoundTransaction(rd, d, job.id, t);
      CommittedWith(d, job.id, t);
    } else if d.transactions == map[] {
      CommittedWithout(d);
    } else {
      PlanIsWellFormed(rd, job, plan, pre, SnapshotStarted);
      var t :| d.transactions == map[job.id := t] && SnapshotOpen(t, job, plan);
      assert SoundTransaction(rd, d, job.id, t);
      CommittedLive(d, job.id, t);
    }
  }

  lemma EndingIsSound(rd: Reader, d: Disk, job: Job, plan: Plan, pre: Live)
    requires PlanFits(rd, job, plan, pre) && Ending(d, job, plan, pre)
    ensures Sound(rd, d) && Committed(d) == pre && d.transactions.Keys <= {job.id}
  {
    PlanIsWellFormed(rd, job, plan, pre, NativeInstallReturned);
    var t := d.transactions[job.id];
    assert SoundTransaction(rd, d, job.id, t);
    CommittedWith(d, job.id, t);
  }

  /** Any stop after the snapshots and before the backup is removed can be undone: with a
      confined installer, an undisturbed start-up brings the earlier state back. */
  lemma InProgressIsRecoverable(d: Disk, job: Job, plan: Plan, pre: Live)
    requires InProgress(d, job, plan, pre) && Confined(job, pre)
    ensures RecoverableDisk(d)
  {
    var state :| Underway(d, job, plan, pre, state);
    var t := d.transactions[job.id];
    assert d.transactions == map[job.id := t] && Recoverable(d, job.id, t);
  }

  /** While the snapshots are being taken, a stop is recoverable as soon as the manifest is there. */
  lemma UnstartedIsRecoverable(d: Disk, job: Job, plan: Plan, pre: Live)
    requires Unstarted(d, job, plan, pre)
    ensures Quiet(d) || RecoverableDisk(d) || d.transactions[job.id].manifest.None?
  {
    if d.transactions != map[] {
      var t :| d.transactions == map[job.id := t] && SnapshotOpen(t, job, plan);
      assert t.manifest.Some? ==> Recoverable(d, job.id, t);
    }
  }

  // ----- the snapshot --------------------------------------------------------------------------------

  /** While the snapshot is being taken nothing else changes. */
  ghost predicate Snapshotting(d: Disk, job: Job, plan: Plan, pre: Live) {
    && LiveOf(d) == pre && d.switches == map[] && job.id in d.transactions
    && d.transactions == map[job.id := d.transactions[job.id]]
    && d.transactions[job.id].manifest == Some(ManifestFor(job, plan, SnapshotStarted))
  }

  lemma SnapshottingIsUnstarted(d: Disk, job: Job, plan: Plan, pre: Live)
    requires Snapshotting(d, job, plan, pre)
    ensures Unstarted(d, job, plan, pre)
  {
  }

  method WriteManifest(fs: FileSystem, job: Job, plan: Plan, state: State) returns (r: Outcome<()>)
    requires job.id in fs.disk.transactions
    modifies fs
    ensures r.Value? ==> fs.disk == Noted(old(fs.disk), job, plan, state)
    ensures fs.disk == old(fs.disk) || fs.disk == Noted(old(fs.disk), job, plan, state)
    ensures old(fs.Fair()) ==> fs.Fair() && r.Value?
  {
    r := fs.AtomicallySynced(Noted(fs.disk, job, plan, state));
  }

  function Noted(d: Disk, job: Job, plan: Plan, state: State): Disk
    requires job.id in d.transactions
  {
    d.(transactions := d.transactions[job.id := d.transactions[job.id].(manifest := Some(ManifestFor(job, plan, state)))])
  }

  /** The process ends just after the operation took effect. */
  predicate DiesAfterEffect(w: Weather) { w.Strike? && w.crash && w.applied }

  method OpenTransaction(fs: FileSystem, job: Job, plan: Plan) returns (r: Outcome<()>)
    requires Quiet(fs.disk)
    modifies fs
    ensures r.Value? ==> Snapshotting(fs.disk, job, plan, LiveOf(old(fs.disk)))
                         && fs.disk.transactions[job.id].stable.None? && fs.disk.transactions[job.id].cache.None?
    ensures !r.Value? ==> Unstarted(fs.disk, job, plan, LiveOf(old(fs.disk)))
    ensures DiesAfterEffect(Head(old(fs.weather))) ==> r.Crashed? && InWindow(fs.disk)
    ensures old(fs.Fair()) ==> fs.Fair() && r.Value?
  {
    var made := fs.Atomically(fs.disk.(transactions := fs.disk.transactions[job.id := Transaction(None, None, None)]));
    assert fs.disk.transactions != map[] ==> SnapshotOpen(fs.disk.transactions[job.id], job, plan);
    if fs.disk.transactions != map[] {
      SameTransaction(fs.disk, job.id, Transaction(None, None, None));
    }
    var _ :- made;
    r := WriteManifest(fs, job, plan, SnapshotStarted);
    assert SnapshotOpen(fs.disk.transactions[job.id], job, plan);
  }

  method SaveStable(fs: FileSystem, job: Job, plan: Plan, ghost pre: Live) returns (r: Outcome<()>)
    requires Snapshotting(fs.disk, job, plan, pre) && DigestIn(pre.stable) == Some(plan.pre_stable_digest)
    requires fs.disk.transactions[job.id].stable.None?
    modifies fs
    ensures Snapshotting(fs.disk, job, plan, pre)
    ensures r.Value? ==> fs.disk.transactions[job.id] == old(fs.disk).transactions[job.id].(stable := pre.stable)
    ensures old(fs.Fair()) ==> fs.Fair() && r.Value?
  {
    var _ :- fs.CopyTree(fs.disk.stable.value, SavedStable(job.id));
    var saved := DigestOf(fs.disk.transactions[job.id].stable);
    r := if saved == Value(plan.pre_stable_digest) then Value(()) else Raised;
  }

  method SaveEntry(fs: FileSystem, job: Job, plan: Plan, name: string, ghost pre: Live) returns (r: Outcome<()>)
    requires Snapshotting(fs.disk, job, plan, pre) && name in pre.cache && name in plan.pre_caches
    requires DigestIn(Some(pre.cache[name])) == Some(plan.pre_caches[name])
    requires fs.disk.transactions[job.id].cache.Some? && name !in fs.disk.transactions[job.id].cache.value
    modifies fs
    ensures Snapshotting(fs.disk, job, plan, pre)
    ensures r.Value? ==> fs.disk.transactions[job.id]
                         == old(fs.disk).transactions[job.id].(cache := Some(old(fs.disk).transactions[job.id].cache.value[name := pre.cache[name]]))
    ensures old(fs.Fair()) ==> fs.Fair() && r.Value?
  {
    var _ :- fs.CopyTree(fs.disk.cache[name], SavedEntry(job.id, name));
    var saved := DigestOf(Read(fs.disk, SavedEntry(job.id, name)));
    r := if saved == Value(plan.pre_caches[name]) then Value(()) else Raised;
  }

  ghost predicate SavedSoFar(d: Disk, job: Job, plan: Plan, pre: Live, rest: set<string>) {
    && Snapshotting(d, job, plan, pre) && rest <= pre.cache.Keys
    && d.transactions[job.id].stable == pre.stable
    && d.transactions[job.id].cache == Some(Part(pre.cache, pre.cache.Keys - rest))
  }

  method SaveNext(fs: FileSystem, job: Job, plan: Plan, name: string, ghost rest: set<string>, ghost pre: Live)
    returns (r: Outcome<()>)
    requires SavedSoFar(fs.disk, job, plan, pre, rest) && Saved(pre.cache, plan.pre_caches) && name in rest
    modifies fs
    ensures Snapshotting(fs.disk, job, plan, pre)
    ensures r.Value? ==> SavedSoFar(fs.disk, job, plan, pre, rest - {name})
    ensures old(fs.Fair()) ==> fs.Fair() && r.Value?
  {
    PartGrows(pre.cache, pre.cache.Keys - rest, name);
    assert pre.cache.Keys - rest + {name} == pre.cache.Keys - (rest - {name});
    r := SaveEntry(fs, job, plan, name, pre);
  }

  method SaveEntries(fs: FileSystem, job: Job, plan: Plan, names: set<string>, ghost pre: Live) returns (r: Outcome<()>)
    requires SavedSoFar(fs.disk, job, plan, pre, names) && Saved(pre.cache, plan.pre_caches)
    modifies fs
    ensures Snapshotting(fs.disk, job, plan, pre)
    ensures r.Value? ==> SavedSoFar(fs.disk, job, plan, pre, {})
    ensures old(fs.Fair()) ==> fs.Fair() && r.Value?
  {
    var rest := names;
    while rest != {}
      invariant SavedSoFar(fs.disk, job, plan, pre, rest) && (old(fs.Fair()) ==> fs.Fair())
      decreases |rest|
    {
      var name :| name in rest;
      var _ :- SaveNext(fs, job, plan, name, rest, pre);
      rest := rest - {name};
    }
    r := Value(());
  }

  function CacheOpened(d: Disk, id: string): Disk
    requires id in d.transactions
  {
    d.(transactions := d.transactions[id := d.transactions[id].(cache := Some(map[]))])
  }

  lemma NothingSavedYet(d: Disk, job: Job, plan: Plan, pre: Live)
    requires Snapshotting(d, job, plan, pre) && d.transactions[job.id].stable == pre.stable
    ensures SavedSoFar(CacheOpened(d, job.id), job, plan, pre, pre.cache.Keys)
  {
  }

  method SaveCache(fs: FileSystem, job: Job, plan: Plan, ghost pre: Live) returns (r: Outcome<()>)
    requires Snapshotting(fs.disk, job, plan, pre) && Saved(pre.cache, plan.pre_caches)
    requires fs.disk.transactions[job.id].stable == pre.stable
    modifies fs
    ensures Snapshotting(fs.disk, job, plan, pre)
    ensures r.Value? ==> SavedSoFar(fs.disk, job, plan, pre, {})
    ensures old(fs.Fair()) ==> fs.Fair() && r.Value?
  {
    NothingSavedYet(fs.disk, job, plan, pre);
    var _ :- fs.Atomically(CacheOpened(fs.disk, job.id));
    r := SaveEntries(fs, job, plan, plan.pre_caches.Keys, pre);
  }

  method TakeSnapshots(fs: FileSystem, job: Job, plan: Plan, ghost pre: Live) returns (r: Outcome<()>)
    requires Quiet(fs.disk) && LiveOf(fs.disk) == pre
    requires DigestIn(pre.stable) == Some(plan.pre_stable_digest) && Saved(pre.cache, plan.pre_caches)
    modifies fs
    ensures r.Value? ==> SavedSoFar(fs.disk, job, plan, pre, {})
    ensures !r.Value? ==> Unstarted(fs.disk, job, plan, pre)
    ensures DiesAfterEffect(Head(old(fs.weather))) ==> r.Crashed? && InWindow(fs.disk)
    ensures old(fs.Fair()) ==> fs.Fair() && r.Value?
  {
    var _ :- OpenTransaction(fs, job, plan);
    r := SaveStable(fs, job, plan, pre);
    SnapshottingIsUnstarted(fs.disk, job, plan, pre);
    var _ :- r;
    r := SaveCache(fs, job, plan, pre);
    SnapshottingIsUnstarted(fs.disk, job, plan, pre);
  }

  /** `_create_snapshot`. */
  method CreateSnapshot(fs: FileSystem, rd: Reader, job: Job, plan: Plan) returns (r: Outcome<()>)
    requires Quiet(fs.disk) && PlanFits(rd, job, plan, LiveOf(fs.disk))
    modifies fs
    ensures r.Value? ==> Deploying(fs.disk, job, plan, LiveOf(old(fs.disk)), SnapshotComplete)
                         && fs.disk.switches == map[]
    ensures LiveOf(fs.disk) == LiveOf(old(fs.disk))
    ensures !r.Value? ==> Stopped(fs.disk, job, plan, LiveOf(old(fs.disk)))
    ensures DiesAfterEffect(Head(old(fs.weather))) ==> r.Crashed? && InWindow(fs.disk)
    ensures old(fs.Fair()) ==> fs.Fair() && r.Value?
  {
    ghost var pre := LiveOf(fs.disk);
    FactsAreSaved(rd, pre.cache, plan.pre_caches);
    var _ :- TakeSnapshots(fs, job, plan, pre);
    SnapshottingIsUnstarted(fs.disk, job, plan, pre);
    PartIsWithin(pre.cache, plan.pre_caches, pre.cache.Keys);
    assert pre.cache.Keys - {} == pre.cache.Keys;
    PlanIsReady(rd, job, plan, pre);
    CompletedIsStopped(fs.disk, job, plan, pre);
    r := WriteManifest(fs, job, plan, SnapshotComplete);
  }

  lemma CompletedIsStopped(d: Disk, job: Job, plan: Plan, pre: Live)
    requires Snapshotting(d, job, plan, pre) && Ready(job, plan, pre)
    requires d.transactions[job.id].stable == pre.stable && d.transactions[job.id].cache == Some(pre.cache)
    ensures Deploying(Noted(d, job, plan, SnapshotComplete), job, plan, pre, SnapshotComplete)
    ensures Stopped(Noted(d, job, plan, SnapshotComplete), job, plan, pre)
  {
    UntouchedIsStopped(Noted(d, job, plan, SnapshotComplete), job, plan, pre, SnapshotComplete);
  }

  lemma UntouchedIsStopped(d: Disk, job: Job, plan: Plan, pre: Live, state: State)
    requires Deploying(d, job, plan, pre, state) && LiveOf(d) == pre && Ready(job, plan, pre)
    ensures InProgress(d, job, plan, pre)
  {
    assert Underway(d, job, plan, pre, state);
  }

  // ----- staging and activation ------------------------------------------------------------------------

  /** The published bundle: the one tree with that digest. */
  ghost predicate IsBundle(rd: Reader, digest: Digest, t: Tree) { VerifyRuntimeBundle(rd, t) == Some(digest) }

  ghost predicate Staged(rd: Reader, d: Disk, job: Job, plan: Plan, pre: Live) {
    && Deploying(d, job, plan, pre, StageComplete) && LiveOf(d) == pre
    && Staging(job.id) in d.switches && d.switches.Keys == {Staging(job.id)}
    && IsBundle(rd, plan.source_digest, d.switches[Staging(job.id)])
  }

  /** The worktree still yields the admitted bundle when it is staged. */
  ghost predicate StagesWell(rd: Reader, job: Job, digest: Digest) {
    && RuntimeFiles(rd, job.staged).Some?
    && CommitBundleDigest(rd, job.commit, job.staged) == Some(digest)
    && VersionOf(rd, Projection(rd, job.staged)) == Some(job.version)
  }

  method CheckStaged(rd: Reader, job: Job, plan: Plan, t: Tree, staged: Digest) returns (ok: bool)
    requires RuntimeFiles(rd, job.staged).Some? && t == Projection(rd, job.staged) && BundleDigest(rd, job.staged) == Some(staged)
    ensures ok <==> StagesWell(rd, job, plan.source_digest)
    ensures ok ==> IsBundle(rd, plan.source_digest, t)
  {
    var committed := DigestAgainstCommit(rd, job.commit, t);
    var verified := VerifyBundle(rd, t);
    ProjectionMatchesCommit(rd, job.commit, job.staged);
    BundleIsProjection(rd, job.staged, t);
    if CommitBundleDigest(rd, job.commit, job.staged).Some? {
      CommitDigestAgrees(rd, job.commit, job.staged);
    }
    ok := staged == plan.source_digest && committed == Some(plan.source_digest)
          && verified == Some(plan.source_digest) && VersionOf(rd, t) == Some(job.version);
  }

  method StageChecked(fs: FileSystem, rd: Reader, job: Job, plan: Plan, ghost pre: Live) returns (r: Outcome<()>)
    requires Deploying(fs.disk, job, plan, pre, SnapshotComplete) && fs.disk.switches == map[]
    modifies fs
    ensures Deploying(fs.disk, job, plan, pre, SnapshotComplete) && LiveOf(fs.disk) == LiveOf(old(fs.disk))
    ensures r.Value? ==> fs.disk.switches.Keys == {Staging(job.id)} && IsBundle(rd, plan.source_digest, fs.disk.switches[Staging(job.id)])
    ensures r.Value? ==> StagesWell(rd, job, plan.source_digest)
    ensures old(fs.Fair()) ==> fs.Fair() && (r.Value? <==> StagesWell(rd, job, plan.source_digest))
  {
    var staged :- StageRuntimeBundle(fs, rd, job.staged, Staging(job.id));
    var ok := CheckStaged(rd, job, plan, fs.disk.switches[Staging(job.id)], staged);
    r := if ok then Value(()) else Raised;
  }

  lemma NotedStaged(rd: Reader, d: Disk, job: Job, plan: Plan, pre: Live)
    requires Deploying(d, job, plan, pre, SnapshotComplete) && LiveOf(d) == pre
    requires d.switches.Keys == {Staging(job.id)} && IsBundle(rd, plan.source_digest, d.switches[Staging(job.id)])
    ensures Staged(rd, Noted(d, job, plan, StageComplete), job, plan, pre)
  {
  }

  method Stage(fs: FileSystem, rd: Reader, job: Job, plan: Plan, ghost pre: Live) returns (r: Outcome<()>)
    requires Deploying(fs.disk, job, plan, pre, SnapshotComplete) && Ready(job, plan, pre)
    requires LiveOf(fs.disk) == pre && fs.disk.switches == map[]
    modifies fs
    ensures r.Value? ==> Staged(rd, fs.disk, job, plan, pre)
    ensures !r.Value? ==> InProgress(fs.disk, job, plan, pre)
    ensures r.Value? ==> StagesWell(rd, job, plan.source_digest)
    ensures old(fs.Fair()) ==> fs.Fair() && (r.Value? <==> StagesWell(rd, job, plan.source_digest))
  {
    var staged := StageChecked(fs, rd, job, plan, pre);
    UntouchedIsStopped(fs.disk, job, plan, pre, SnapshotComplete);
    var _ :- staged;
    NotedStaged(rd, fs.disk, job, plan, pre);
    r := NoteStaged(fs, job, plan, pre);
  }

  method NoteStaged(fs: FileSystem, job: Job, plan: Plan, ghost pre: Live) returns (r: Outcome<()>)
    requires Deploying(fs.disk, job, plan, pre, SnapshotComplete) && Ready(job, plan, pre) && LiveOf(fs.disk) == pre
    modifies fs
    ensures r.Value? ==> fs.disk == Noted(old(fs.disk), job, plan, StageComplete)
    ensures !r.Value? ==> InProgress(fs.disk, job, plan, pre)
    ensures old(fs.Fair()) ==> fs.Fair() && r.Value?
  {
    UntouchedIsStopped(fs.disk, job, plan, pre, SnapshotComplete);
    UntouchedIsStopped(Noted(fs.disk, job, plan, StageComplete), job, plan, pre, StageComplete);
    var _ :- WriteManifest(fs, job, plan, StageComplete);
    var current := DigestOf(fs.disk.stable);
    r := if current == Value(plan.pre_stable_digest) then Value(()) else Raised;
  }

  /** The new stable stands, the old one is its backup. */
  ghost predicate Activated(rd: Reader, d: Disk, job: Job, plan: Plan, pre: Live, state: State) {
    && Deploying(d, job, plan, pre, state)
    && d.stable.Some? && IsBundle(rd, plan.source_digest, d.stable.value)
    && pre.stable.Some? && d.switches == map[Backup(job.id) := pre.stable.value]
  }

  lemma ActivatedIsStopped(rd: Reader, d: Disk, job: Job, plan: Plan, pre: Live, state: State)
    requires Activated(rd, d, job, plan, pre, state) && DigestIn(pre.stable) == Some(plan.pre_stable_digest)
    requires Confined(job, pre) ==> CacheKnown(d.cache, job, plan)
    ensures InProgress(d, job, plan, pre)
  {
    VerifiedDigestsAgree(rd, d.stable.value);
    assert Underway(d, job, plan, pre, state);
  }

  /** Stable has been moved away and nothing has taken its place. */
  function MovedAway(d: Disk, id: string): Disk
    requires d.stable.Some?
  {
    d.(stable := None, switches := d.switches[Backup(id) := d.stable.value])
  }

  lemma MovedAwayIsStopped(d: Disk, job: Job, plan: Plan, pre: Live)
    requires Deploying(d, job, plan, pre, StageComplete) && LiveOf(d) == pre && Ready(job, plan, pre)
    ensures InProgress(MovedAway(d, job.id), job, plan, pre)
  {
    var d' := MovedAway(d, job.id);
    assert Get(d'.switches, Backup(job.id)) == pre.stable;
    assert Underway(d', job, plan, pre, StageComplete);
  }

  lemma ActivationStands(rd: Reader, d: Disk, job: Job, plan: Plan, pre: Live)
    requires Staged(rd, d, job, plan, pre) && DigestIn(pre.stable) == Some(plan.pre_stable_digest)
    ensures Activated(rd, Moved(MovedAway(d, job.id), Staging(job.id)), job, plan, pre, StageComplete)
  {
  }

  lemma NotedActivated(rd: Reader, d: Disk, job: Job, plan: Plan, pre: Live, state: State, next: State)
    requires Activated(rd, d, job, plan, pre, state) && !next.SnapshotStarted?
    ensures Activated(rd, Noted(d, job, plan, next), job, plan, pre, next)
  {
  }

  method Activate(fs: FileSystem, rd: Reader, job: Job, plan: Plan, ghost pre: Live) returns (r: Outcome<()>)
    requires Staged(rd, fs.disk, job, plan, pre) && Ready(job, plan, pre)
    modifies fs
    ensures r.Value? ==> Activated(rd, fs.disk, job, plan, pre, StableActivated) && fs.disk.cache == pre.cache
    ensures !r.Value? ==> InProgress(fs.disk, job, plan, pre)
    ensures old(fs.Fair()) ==> fs.Fair() && r.Value?
  {
    UntouchedIsStopped(fs.disk, job, plan, pre, StageComplete);
    MovedAwayIsStopped(fs.disk, job, plan, pre);
    ActivationStands(rd, fs.disk, job, plan, pre);
    var _ :- fs.Atomically(MovedAway(fs.disk, job.id));
    ghost var active := Moved(fs.disk, Staging(job.id));
    ActivatedIsStopped(rd, active, job, plan, pre, StageComplete);
    var _ :- fs.Atomically(Moved(fs.disk, Staging(job.id)));
    r := NoteActivated(fs, rd, job, plan, pre);
  }

  method NoteActivated(fs: FileSystem, rd: Reader, job: Job, plan: Plan, ghost pre: Live) returns (r: Outcome<()>)
    requires Activated(rd, fs.disk, job, plan, pre, StageComplete) && Ready(job, plan, pre) && fs.disk.cache == pre.cache
    modifies fs
    ensures r.Value? ==> Activated(rd, fs.disk, job, plan, pre, StableActivated) && fs.disk.cache == pre.cache
    ensures !r.Value? ==> InProgress(fs.disk, job, plan, pre)
    ensures old(fs.Fair()) ==> fs.Fair() && r.Value?
  {
    var digest := VerifyBundle(rd, fs.disk.stable.value);
    ActivatedIsStopped(rd, fs.disk, job, plan, pre, StageComplete);
    if digest != Some(plan.source_digest) {
      return Raised;
    }
    NotedActivated(rd, fs.disk, job, plan, pre, StageComplete, StableActivated);
    ActivatedIsStopped(rd, Noted(fs.disk, job, plan, StableActivated), job, plan, pre, StableActivated);
    r := WriteManifest(fs, job, plan, StableActivated);
  }

  // ----- the native installer and what follows ------------------------------------------------------------

  lemma KnownWhenConfined(job: Job, plan: Plan, pre: Live)
    requires Confined(job, pre) && plan.pre_caches.Keys == pre.cache.Keys
    ensures CacheKnown(job.installed, job, plan)
  {
  }

  /** `codex plugin add`: it may change the cache in any way, and fail or die having done so. */
  method Install(fs: FileSystem, rd: Reader, job: Job, plan: Plan, ghost pre: Live) returns (r: Outcome<()>)
    requires Activated(rd, fs.disk, job, plan, pre, StableActivated) && Ready(job, plan, pre) && fs.disk.cache == pre.cache
    requires plan.pre_caches.Keys == pre.cache.Keys
    modifies fs
    ensures r.Value? ==> Activated(rd, fs.disk, job, plan, pre, NativeInstallReturned) && fs.disk.cache == job.installed
                         && job.returncode == 0
    ensures !r.Value? ==> InProgress(fs.disk, job, plan, pre)
    ensures old(fs.Fair()) ==> fs.Fair() && (r.Value? <==> job.returncode == 0)
  {
    if Confined(job, pre) {
      KnownWhenConfined(job, plan, pre);
    }
    var returned := fs.AtomicallySynced(fs.disk.(cache := job.installed));
    ActivatedIsStopped(rd, fs.disk, job, plan, pre, StableActivated);
    var _ :- returned;
    NotedActivated(rd, fs.disk, job, plan, pre, StableActivated, NativeInstallReturned);
    ActivatedIsStopped(rd, Noted(fs.disk, job, plan, NativeInstallReturned), job, plan, pre, NativeInstallReturned);
    var _ :- WriteManifest(fs, job, plan, NativeInstallReturned);
    r := if job.returncode == 0 then Value(()) else Raised;
  }

  /** `_restore_previous`: a missing previous version comes back from the snapshot, a changed
      one is refused. */
  method RestorePrevious(fs: FileSystem, previous: Option<string>, snapshot: Cache, facts: Facts) returns (r: Outcome<bool>)
    requires Saved(snapshot, facts) && (previous.Some? ==> previous.value in snapshot)
    modifies fs
    ensures fs.disk == old(fs.disk).(cache := fs.disk.cache)
    ensures forall name <- fs.disk.cache ::
              (name in old(fs.disk).cache && fs.disk.cache[name] == old(fs.disk).cache[name])
              || (previous == Some(name) && Plain(fs.disk.cache[name]))
    ensures r.Value? ==> (r.value <==> previous.Some? && previous.value !in old(fs.disk).cache)
    ensures r.Value? ==> fs.disk.cache == WithPrevious(old(fs.disk).cache, previous, snapshot)
                         && Unchanged(old(fs.disk).cache, previous, snapshot)
    ensures old(fs.Fair()) ==> fs.Fair() && (r.Value? <==> Unchanged(old(fs.disk).cache, previous, snapshot))
  {
    if previous.None? {
      return Value(false);
    }
    var name := previous.value;
    if name in fs.disk.cache {
      var live := DigestOf(Some(fs.disk.cache[name]));
      if live == Value(facts[name]) {
        SafeDigestTells(fs.disk.cache[name], snapshot[name]);
        return Value(false);
      }
      return Raised;
    }
    var _ :- CopyEntry(fs, snapshot[name], facts[name], name);
    r := Value(true);
  }

  function WithPrevious(cache: Cache, previous: Option<string>, snapshot: Cache): Cache
    requires previous.Some? ==> previous.value in snapshot
  {
    if previous.Some? then cache[previous.value := snapshot[previous.value]] else cache
  }

  predicate Unchanged(cache: Cache, previous: Option<string>, snapshot: Cache)
    requires previous.Some? ==> previous.value in snapshot
  {
    previous.Some? && previous.value in cache ==> cache[previous.value] == snapshot[previous.value]
  }

  /** The target the installer left is the bundle, and the source still yields it. */
  ghost predicate TargetDelivered(rd: Reader, job: Job, digest: Digest, cache: Cache) {
    && job.version in cache && VersionOf(rd, cache[job.version]) == Some(job.version) && IsBundle(rd, digest, cache[job.version])
    && job.after.clean && CommitBundleDigest(rd, job.commit, job.after.tree) == Some(digest)
  }

  /** `_verify_previous_bundle`. */
  ghost function PreviousBundle(rd: Reader, cache: Cache, previous: Option<string>): Outcome<Option<Digest>> {
    if previous.None? then Value(None)
    else if previous.value in cache && VerifyRuntimeBundle(rd, cache[previous.value]).Some?
    then Value(VerifyRuntimeBundle(rd, cache[previous.value]))
    else Raised
  }

  method VerifyPrevious(rd: Reader, cache: Cache, previous: Option<string>) returns (r: Outcome<Option<Digest>>)
    requires previous.Some? ==> previous.value in cache
    ensures r == PreviousBundle(rd, cache, previous)
  {
    if previous.None? {
      return Value(None);
    }
    var d := VerifyBundle(rd, cache[previous.value]);
    r := if d.Some? then Value(d) else Raised;
  }

  /** The checks after the native install; nothing is written. */
  method CheckInstalled(rd: Reader, job: Job, plan: Plan, stable: Tree, cache: Cache) returns (ok: bool)
    requires IsBundle(rd, plan.source_digest, stable)
    requires job.previous.Some? ==> job.previous.value in cache && plan.previous_digest.Some?
                                    && VerifyRuntimeBundle(rd, cache[job.previous.value]) == plan.previous_digest
    requires job.previous.None? ==> plan.previous_digest.None?
    ensures ok <==> TargetDelivered(rd, job, plan.source_digest, cache)
  {
    var previous := VerifyPrevious(rd, cache, job.previous);
    if previous != Value(plan.previous_digest) || job.version !in cache || VersionOf(rd, cache[job.version]) != Some(job.version) {
      return false;
    }
    var target := VerifyBundle(rd, cache[job.version]);
    var current := VerifyBundle(rd, stable);
    if target != Some(plan.source_digest) || current != Some(plan.source_digest) {
      return false;
    }
    var again := DigestAgainstCommit(rd, job.commit, job.after.tree);
    ok := again == Some(plan.source_digest) && job.after.clean;
  }

  // ----- two versions ---------------------------------------------------------------------------------------

  ghost predicate Disposable(cache: Cache, keep: set<string>) {
    forall name <- cache :: name !in keep ==> SafeTreeDigest(cache[name]).Some?
  }

  /** What is left of a cache while entries outside `keep` are being removed. */
  predicate Retaining(was: Cache, now: Cache, keep: set<string>) {
    && now.Keys <= was.Keys
    && (forall name <- now :: now[name] == was[name] || (name !in keep && Plain(now[name])))
    && (forall name <- was :: name in keep ==> name in now)
  }

  method Retain(fs: FileSystem, keep: set<string>) returns (r: Outcome<()>)
    modifies fs
    ensures fs.disk == old(fs.disk).(cache := fs.disk.cache) && Retaining(old(fs.disk).cache, fs.disk.cache, keep)
    ensures r.Value? ==> fs.disk.cache == Part(old(fs.disk).cache, keep) && Disposable(old(fs.disk).cache, keep)
    ensures old(fs.Fair()) ==> fs.Fair() && (r.Value? <==> Disposable(old(fs.disk).cache, keep))
  {
    ghost var was := fs.disk.cache;
    var entries := fs.disk.cache.Keys;
    while entries != {}
      invariant entries <= was.Keys && fs.disk == old(fs.disk).(cache := Part(was, entries + keep))
      invariant old(fs.Fair()) ==> fs.Fair()
      invariant forall name <- was :: name !in entries && name !in keep ==> SafeTreeDigest(was[name]).Some?
      decreases |entries|
    {
      var name :| name in entries;
      var removed := RetainEntry(fs, was, entries, keep, name);
      var _ :- removed;
      entries := entries - {name};
    }
    assert Part(was, entries + keep) == Part(was, keep);
    r := Value(());
  }

  method RetainEntry(fs: FileSystem, ghost was: Cache, ghost entries: set<string>, keep: set<string>, name: string)
    returns (r: Outcome<()>)
    requires entries <= was.Keys && name in entries && fs.disk.cache == Part(was, entries + keep)
    modifies fs
    ensures fs.disk == old(fs.disk).(cache := fs.disk.cache) && Retaining(was, fs.disk.cache, keep)
    ensures r.Value? ==> fs.disk.cache == Part(was, entries - {name} + keep)
                         && (name !in keep ==> SafeTreeDigest(was[name]).Some?)
    ensures old(fs.Fair()) ==> fs.Fair() && (r.Value? <==> name in keep || SafeTreeDigest(was[name]).Some?)
  {
    if name in keep {
      assert entries - {name} + keep == entries + keep;
      return Value(());
    }
    var d := DigestOf(Some(fs.disk.cache[name]));
    if !d.Value? {
      return Raised;
    }
    PartShrinks(was, entries, keep, name);
    r := fs.Gradually(InCache(name), None);
  }

  lemma PartShrinks(was: Cache, entries: set<string>, keep: set<string>, name: string)
    requires name !in keep
    ensures Part(was, entries + keep) - {name} == Part(was, entries - {name} + keep)
  {
  }

  /** The cache has converged to exactly the kept versions, the previous one as it was. */
  ghost predicate Converged(rd: Reader, plan: Plan, cache: Cache, keep: set<string>) {
    && CacheFacts(rd, cache).Some? && cache.Keys == keep
    && (plan.previous.Some? ==>
          && plan.previous.value in cache && plan.previous.value in plan.pre_caches
          && SumOf(cache[plan.previous.value]) == plan.pre_caches[plan.previous.value]
          && plan.previous_digest.Some? && VerifyRuntimeBundle(rd, cache[plan.previous.value]) == plan.previous_digest)
  }

  method CheckRetained(rd: Reader, plan: Plan, cache: Cache, keep: set<string>) returns (ok: bool)
    requires plan.previous.Some? ==> plan.previous.value in keep && plan.previous.value in plan.pre_caches && plan.previous_digest.Some?
    ensures ok <==> Converged(rd, plan, cache, keep)
  {
    var remaining := ReadCacheFacts(rd, cache);
    if remaining.None? || remaining.value.Keys != keep {
      return false;
    }
    if plan.previous.None? {
      return true;
    }
    var name := plan.previous.value;
    if remaining.value[name] != plan.pre_caches[name] {
      return false;
    }
    var previous := VerifyPrevious(rd, cache, plan.previous);
    ok := previous == Value(plan.previous_digest);
  }

  // ----- the end of the transaction --------------------------------------------------------------------------

  lemma BackupGoing(rd: Reader, d: Disk, job: Job, plan: Plan, pre: Live, d': Disk)
    requires Activated(rd, d, job, plan, pre, NativeInstallReturned) && DigestIn(pre.stable) == Some(plan.pre_stable_digest)
    requires Confined(job, pre) ==> CacheKnown(d.cache, job, plan)
    requires d' == d.(switches := Set(d.switches, Backup(job.id), Get(d'.switches, Backup(job.id))))
    requires Backup(job.id) in d'.switches ==> Plain(d'.switches[Backup(job.id)])
    ensures if Backup(job.id) in d'.switches then Ending(d', job, plan, pre) else InProgress(d', job, plan, pre)
  {
    VerifiedDigestsAgree(rd, d.stable.value);
    if Backup(job.id) !in d'.switches {
      assert Recovery(job.id) !in d'.switches;
      assert Underway(d', job, plan, pre, NativeInstallReturned);
    }
  }

  /** A backup cut short is a window: recovery cannot use it, and will not do without it. */
  lemma EndingIsWindow(d: Disk, job: Job, plan: Plan, pre: Live)
    requires Ending(d, job, plan, pre) && plan.source_digest != plan.pre_stable_digest
    requires DigestIn(Get(d.switches, Backup(job.id))) != Some(plan.pre_stable_digest)
    ensures InWindow(d)
  {
    var t := d.transactions[job.id];
    assert d.transactions == map[job.id := t] && Unrecoverable(d, job.id, t);
  }

  /** The deletion of the backup is struck and leaves files that are not the old stable. */
  ghost predicate CutsBackup(w: Weather, plan: Plan) {
    LeavesFiles(w) && DigestIn(w.left) != Some(plan.pre_stable_digest) && plan.source_digest != plan.pre_stable_digest
  }

  method Finish(fs: FileSystem, rd: Reader, job: Job, plan: Plan, ghost pre: Live) returns (r: Outcome<()>)
    requires Activated(rd, fs.disk, job, plan, pre, NativeInstallReturned) && DigestIn(pre.stable) == Some(plan.pre_stable_digest)
    requires Confined(job, pre) ==> CacheKnown(fs.disk.cache, job, plan)
    modifies fs
    ensures r.Value? ==> Quiet(fs.disk) && LiveOf(fs.disk) == LiveOf(old(fs.disk))
    ensures !r.Value? ==> InProgress(fs.disk, job, plan, pre) || Ending(fs.disk, job, plan, pre)
                          || (r.Crashed? && Quiet(fs.disk) && LiveOf(fs.disk) == LiveOf(old(fs.disk)))
    ensures CutsBackup(Head(old(fs.weather)), plan) ==> !r.Value? && InWindow(fs.disk)
    ensures old(fs.Fair()) ==> fs.Fair() && r.Value?
  {
    ghost var before, w := fs.disk, Head(fs.weather);
    assert Plain(fs.disk.switches[Backup(job.id)]);
    var removed := SafeRemove(fs, Backup(job.id));
    BackupGoing(rd, before, job, plan, pre, fs.disk);
    if CutsBackup(w, plan) {
      EndingIsWindow(fs.disk, job, plan, pre);
    }
    var _ :- removed;
    assert fs.disk.switches == map[];
    r := fs.Atomically(fs.disk.(transactions := fs.disk.transactions - {job.id}));
  }

  // ----- after the install -----------------------------------------------------------------------------------

  /** What the installer has to have left for the deployment to succeed. */
  ghost predicate Delivers(rd: Reader, job: Job, digest: Digest, pre: Live)
    requires job.previous.Some? ==> job.previous.value in pre.cache
  {
    var cache := WithPrevious(job.installed, job.previous, pre.cache);
    && Unchanged(job.installed, job.previous, pre.cache)
    && TargetDelivered(rd, job, digest, cache) && Disposable(cache, Keep(job.version, job.previous))
  }

  lemma PreviousKept(job: Job, plan: Plan, was: Cache, now: Cache)
    requires CacheKnown(was, job, plan) && (job.previous.Some? ==> job.previous.value in plan.pre_caches)
    requires forall name <- now :: (name in was && now[name] == was[name]) || (job.previous == Some(name) && Plain(now[name]))
    ensures CacheKnown(now, job, plan)
  {
  }

  lemma RetainingKept(job: Job, plan: Plan, was: Cache, now: Cache, keep: set<string>)
    requires CacheKnown(was, job, plan) && Retaining(was, now, keep)
    ensures CacheKnown(now, job, plan)
  {
  }

  lemma PreviousEntry(rd: Reader, job: Job, plan: Plan, pre: Live)
    requires PlanFits(rd, job, plan, pre) && job.previous.Some?
    ensures GoodCacheEntry(rd, job.previous.value, pre.cache[job.previous.value]) && job.previous.value in plan.pre_caches
    ensures SumOf(pre.cache[job.previous.value]) == plan.pre_caches[job.previous.value]
  {
    assert plan.pre_caches == Sums(pre.cache);
  }

  lemma KeptIsGood(rd: Reader, job: Job, plan: Plan, cache: Cache)
    requires TargetDelivered(rd, job, plan.source_digest, cache)
    requires job.previous.Some? ==> job.previous.value in cache && GoodCacheEntry(rd, job.previous.value, cache[job.previous.value])
    ensures GoodCache(rd, Part(cache, Keep(job.version, job.previous)))
    ensures Part(cache, Keep(job.version, job.previous)).Keys == Keep(job.version, job.previous)
  {
    VerifiedDigestsAgree(rd, cache[job.version]);
  }

  lemma DeliveredConverges(rd: Reader, job: Job, plan: Plan, pre: Live, cache: Cache)
    requires PlanFits(rd, job, plan, pre) && TargetDelivered(rd, job, plan.source_digest, cache)
    requires job.previous.Some? ==> job.previous.value in cache && cache[job.previous.value] == pre.cache[job.previous.value]
    ensures Converged(rd, plan, Part(cache, Keep(job.version, job.previous)), Keep(job.version, job.previous))
  {
    if job.previous.Some? {
      PreviousEntry(rd, job, plan, pre);
    }
    KeptIsGood(rd, job, plan, cache);
  }

  method SettleCache(fs: FileSystem, rd: Reader, job: Job, plan: Plan, ghost pre: Live) returns (r: Outcome<()>)
    requires Activated(rd, fs.disk, job, plan, pre, NativeInstallReturned) && PlanFits(rd, job, plan, pre)
    requires fs.disk.cache == job.installed
    modifies fs
    ensures fs.disk == old(fs.disk).(cache := fs.disk.cache)
    ensures Confined(job, pre) ==> CacheKnown(fs.disk.cache, job, plan)
    ensures r.Value? ==> fs.disk.cache == Part(WithPrevious(job.installed, job.previous, pre.cache), Keep(job.version, job.previous))
                         && Delivers(rd, job, plan.source_digest, pre)
    ensures old(fs.Fair()) ==> fs.Fair() && (r.Value? <==> Delivers(rd, job, plan.source_digest, pre))
  {
    PlanIsReady(rd, job, plan, pre);
    if Confined(job, pre) {
      KnownWhenConfined(job, plan, pre);
    }
    var restored := RestorePrevious(fs, job.previous, fs.disk.transactions[job.id].cache.value, plan.pre_caches);
    ghost var kept := fs.disk.cache;
    if Confined(job, pre) {
      PreviousKept(job, plan, job.installed, kept);
    }
    var _ :- restored;
    var good := CheckInstalled(rd, job, plan, fs.disk.stable.value, fs.disk.cache);
    if !good {
      return Raised;
    }
    r := RetainTwo(fs, rd, job, plan, pre);
    if Confined(job, pre) {
      RetainingKept(job, plan, kept, fs.disk.cache, Keep(job.version, job.previous));
    }
  }

  method RetainTwo(fs: FileSystem, rd: Reader, job: Job, plan: Plan, ghost pre: Live) returns (r: Outcome<()>)
    requires PlanFits(rd, job, plan, pre) && TargetDelivered(rd, job, plan.source_digest, fs.disk.cache)
    requires job.previous.Some? ==> job.previous.value in fs.disk.cache
                                    && fs.disk.cache[job.previous.value] == pre.cache[job.previous.value]
    modifies fs
    ensures fs.disk == old(fs.disk).(cache := fs.disk.cache)
    ensures Retaining(old(fs.disk).cache, fs.disk.cache, Keep(job.version, job.previous))
    ensures r.Value? ==> fs.disk.cache == Part(old(fs.disk).cache, Keep(job.version, job.previous))
                         && Disposable(old(fs.disk).cache, Keep(job.version, job.previous))
    ensures old(fs.Fair()) ==> fs.Fair() && (r.Value? <==> Disposable(old(fs.disk).cache, Keep(job.version, job.previous)))
  {
    var keep := Keep(job.version, job.previous);
    DeliveredConverges(rd, job, plan, pre, fs.disk.cache);
    var _ :- Retain(fs, keep);
    var ok := CheckRetained(rd, plan, fs.disk.cache, keep);
    r := if ok then Value(()) else Raised;
  }

  // ----- the transaction, from its first write to its last ---------------------------------------------------

  method UpToInstall(fs: FileSystem, rd: Reader, job: Job, plan: Plan, ghost pre: Live) returns (r: Outcome<()>)
    requires Quiet(fs.disk) && LiveOf(fs.disk) == pre && PlanFits(rd, job, plan, pre)
    modifies fs
    ensures r.Value? ==> Activated(rd, fs.disk, job, plan, pre, NativeInstallReturned) && fs.disk.cache == job.installed
    ensures !r.Value? ==> Stopped(fs.disk, job, plan, pre)
    ensures r.Value? ==> StagesWell(rd, job, plan.source_digest) && job.returncode == 0
    ensures old(fs.Fair()) ==> fs.Fair() && (r.Value? <==> StagesWell(rd, job, plan.source_digest) && job.returncode == 0)
  {
    PlanIsReady(rd, job, plan, pre);
    var _ :- CreateSnapshot(fs, rd, job, plan);
    var _ :- Stage(fs, rd, job, plan, pre);
    var _ :- Activate(fs, rd, job, plan, pre);
    r := Install(fs, rd, job, plan, pre);
  }

  lemma AdmittedBundle(rd: Reader, job: Job, plan: Plan, t: Tree)
    requires IsBundle(rd, plan.source_digest, t) && CommitBundleDigest(rd, job.commit, job.admission.tree) == Some(plan.source_digest)
    ensures RuntimeFiles(rd, job.admission.tree).Some? && t == Projection(rd, job.admission.tree)
  {
    CommitDigestAgrees(rd, job.commit, job.admission.tree);
    BundleIsProjection(rd, job.admission.tree, t);
  }

  lemma KeptCache(job: Job, pre: Cache, cache: Cache)
    requires job.version in cache && job.version !in pre && (job.previous.Some? ==> job.previous.value in pre)
    requires cache == WithPrevious(job.installed, job.previous, pre)
    ensures var kept := Part(cache, Keep(job.version, job.previous));
            && kept.Keys == Keep(job.version, job.previous) && kept[job.version] == cache[job.version]
            && (job.previous.Some? ==> kept[job.previous.value] == pre[job.previous.value])
  {
  }

  lemma DeliveredIsDeployed(rd: Reader, d: Disk, job: Job, plan: Plan, pre: Live)
    requires d.stable.Some? && IsBundle(rd, plan.source_digest, d.stable.value) && PlanFits(rd, job, plan, pre) && Delivers(rd, job, plan.source_digest, pre)
    requires d.cache == Part(WithPrevious(job.installed, job.previous, pre.cache), Keep(job.version, job.previous))
    requires CommitBundleDigest(rd, job.commit, job.admission.tree) == Some(plan.source_digest)
    requires PreviousInOrder(pre.cache, job.previous, job.version)
    ensures Deployed(rd, job, pre, LiveOf(d))
  {
    PlanIsWellFormed(rd, job, plan, pre, SnapshotStarted);
    KeptCache(job, pre.cache, WithPrevious(job.installed, job.previous, pre.cache));
    AdmittedBundle(rd, job, plan, d.stable.value);
    AdmittedBundle(rd, job, plan, d.cache[job.version]);
  }

  /** Everything from the first write to the last check: after it only the backup and the
      transaction are to be removed. Any stop can be undone, or came before the manifest. */
  method UpToCleanUp(fs: FileSystem, rd: Reader, job: Job, plan: Plan, ghost pre: Live) returns (r: Outcome<()>)
    requires Quiet(fs.disk) && LiveOf(fs.disk) == pre && PlanFits(rd, job, plan, pre)
    modifies fs
    ensures r.Value? ==> Activated(rd, fs.disk, job, plan, pre, NativeInstallReturned) && Delivers(rd, job, plan.source_digest, pre)
                         && fs.disk.cache == Part(WithPrevious(job.installed, job.previous, pre.cache), Keep(job.version, job.previous))
    ensures r.Value? ==> StagesWell(rd, job, plan.source_digest) && job.returncode == 0
    ensures Confined(job, pre) ==> !r.Value? || CacheKnown(fs.disk.cache, job, plan)
    ensures !r.Value? ==> Stopped(fs.disk, job, plan, pre)
    ensures !r.Value? && Confined(job, pre) && job.id in fs.disk.transactions && fs.disk.transactions[job.id].manifest.Some?
            ==> RecoverableDisk(fs.disk)
    ensures old(fs.Fair()) ==>
              fs.Fair() && (r.Value? <==> StagesWell(rd, job, plan.source_digest) && job.returncode == 0 && Delivers(rd, job, plan.source_digest, pre))
  {
    r := UpToInstall(fs, rd, job, plan, pre);
    if !r.Value? {
      StoppedIsRecoverable(fs.disk, job, plan, pre);
      return;
    }
    ghost var installed := fs.disk;
    r := SettleCache(fs, rd, job, plan, pre);
    StillActivated(rd, installed, job, plan, pre, fs.disk);
    ActivatedIsStopped(rd, fs.disk, job, plan, pre, NativeInstallReturned);
    StoppedIsRecoverable(fs.disk, job, plan, pre);
  }

  lemma StoppedIsRecoverable(d: Disk, job: Job, plan: Plan, pre: Live)
    requires Stopped(d, job, plan, pre)
    ensures Confined(job, pre) && job.id in d.transactions && d.transactions[job.id].manifest.Some? ==> RecoverableDisk(d)
  {
    if InProgress(d, job, plan, pre) {
      if Confined(job, pre) {
        InProgressIsRecoverable(d, job, plan, pre);
      }
    } else {
      UnstartedIsRecoverable(d, job, plan, pre);
    }
  }

  /** Everything between the first and the last write of the transaction. */
  method Transact(fs: FileSystem, rd: Reader, job: Job, plan: Plan, ghost pre: Live) returns (r: Outcome<()>)
    requires Quiet(fs.disk) && LiveOf(fs.disk) == pre && PlanFits(rd, job, plan, pre)
    requires CommitBundleDigest(rd, job.commit, job.admission.tree) == Some(plan.source_digest)
    requires PreviousInOrder(pre.cache, job.previous, job.version)
    modifies fs
    ensures r.Value? ==> Quiet(fs.disk) && Deployed(rd, job, pre, LiveOf(fs.disk))
    ensures !r.Value? ==> Stopped(fs.disk, job, plan, pre) || Ending(fs.disk, job, plan, pre)
                          || (r.Crashed? && Quiet(fs.disk) && Deployed(rd, job, pre, LiveOf(fs.disk)))
    ensures r.Value? ==> StagesWell(rd, job, plan.source_digest) && job.returncode == 0 && Delivers(rd, job, plan.source_digest, pre)
    ensures old(fs.Fair()) ==>
              fs.Fair() && (r.Value? <==> StagesWell(rd, job, plan.source_digest) && job.returncode == 0 && Delivers(rd, job, plan.source_digest, pre))
  {
    var _ :- UpToCleanUp(fs, rd, job, plan, pre);
    DeliveredIsDeployed(rd, fs.disk, job, plan, pre);
    r := Finish(fs, rd, job, plan, pre);
  }

  lemma StillActivated(rd: Reader, d: Disk, job: Job, plan: Plan, pre: Live, d': Disk)
    requires Activated(rd, d, job, plan, pre, NativeInstallReturned) && d' == d.(cache := d'.cache)
    ensures Activated(rd, d', job, plan, pre, NativeInstallReturned)
  {
  }

  // ----- the plan -----------------------------------------------------------------------------------------------

  /** What a deployment finds before it writes: digests, facts, the previous version to keep. */
  ghost function PlanOf(rd: Reader, live: Live, job: Job, digest: Digest): Option<Plan> {
    if DigestIn(live.stable).None? || CacheFacts(rd, live.cache).None? then None
    else
      match SelectPrevious(live.cache.Keys, job.previous, job.version)
      case Value(previous) =>
        (match PreviousBundle(rd, live.cache, previous)
         case Value(bundle) => Some(Plan(digest, DigestIn(live.stable).value, CacheFacts(rd, live.cache).value, previous, bundle))
         case _ => None)
      case _ => None
  }

  /** Roots a deployment can be planned on: a stable tree of regular files, a cache whose entries
      are such trees named by their own versions, and a previous version in order that verifies. */
  ghost predicate Plannable(rd: Reader, live: Live, job: Job) {
    && live.stable.Some? && live.stable.value != map[] && Plain(live.stable.value)
    && (forall name <- live.cache :: VersionOf(rd, live.cache[name]) == Some(name) && live.cache[name] != map[] && Plain(live.cache[name]))
    && PreviousInOrder(live.cache, job.previous, job.version)
    && (job.previous.Some? ==> VerifyRuntimeBundle(rd, live.cache[job.previous.value]).Some?)
  }

  lemma PlanOfFits(rd: Reader, live: Live, job: Job, digest: Digest)
    requires PlanOf(rd, live, job, digest).Some? && IsVersionName(job.version)
    ensures PlanFits(rd, job, PlanOf(rd, live, job, digest).value, live)
    ensures PlanOf(rd, live, job, digest).value.source_digest == digest
    ensures PreviousInOrder(live.cache, job.previous, job.version)
  {
    SelectionIsExact(rd, live.cache, job.previous, job.version);
  }

  lemma PlannableCache(rd: Reader, cache: Cache)
    ensures CacheFacts(rd, cache).Some?
            <==> forall name <- cache :: VersionOf(rd, cache[name]) == Some(name) && cache[name] != map[] && Plain(cache[name])
  {
    assert GoodCache(rd, cache) <==> forall name <- cache :: GoodCacheEntry(rd, name, cache[name]);
  }

  /** There is a plan exactly for roots in order. */
  lemma PlanIsExact(rd: Reader, live: Live, job: Job, digest: Digest)
    ensures PlanOf(rd, live, job, digest).Some? <==> Plannable(rd, live, job)
  {
    PlannableCache(rd, live.cache);
    if CacheFacts(rd, live.cache).Some? {
      SelectionIsExact(rd, live.cache, job.previous, job.version);
    }
  }

  lemma FactNames(rd: Reader, cache: Cache)
    ensures CacheFacts(rd, cache).Some? ==> CacheFacts(rd, cache).value.Keys == cache.Keys
  {
  }

  method MakePlan(rd: Reader, stable: Option<Tree>, cache: Cache, job: Job, digest: Digest) returns (r: Option<Plan>)
    ensures r == PlanOf(rd, Live(stable, cache), job, digest)
    ensures r.Some? <==> Plannable(rd, Live(stable, cache), job)
  {
    PlanIsExact(rd, Live(stable, cache), job, digest);
    var current := DigestOf(stable);
    var facts := ReadCacheFacts(rd, cache);
    if !current.Value? || facts.None? {
      return None;
    }
    FactNames(rd, cache);
    var selected := SelectPrevious(facts.value.Keys, job.previous, job.version);
    if !selected.Value? {
      return None;
    }
    var verified := VerifyPrevious(rd, cache, selected.value);
    if !verified.Value? {
      return None;
    }
    r := Some(Plan(digest, current.value, facts.value, selected.value, verified.value));
  }

  // ----- deploy ---------------------------------------------------------------------------------------------------

  /** The checks of the source before the lock is taken. */
  function AdmittedDigest(rd: Reader, job: Job): Option<Digest> {
    if job.admission.clean && IsVersionName(job.version) && VersionOf(rd, job.admission.tree) == Some(job.version)
    then CommitBundleDigest(rd, job.commit, job.admission.tree)
    else None
  }

  /** The worktree is clean at the expected head, and its allowlisted files are those of the
      commit with this digest. */
  predicate SourceHolds(rd: Reader, job: Job, w: Worktree, digest: Digest) {
    w.clean && CommitBundleDigest(rd, job.commit, w.tree) == Some(digest)
  }

  /** The source passes admission with this digest. */
  predicate SourceAdmitted(rd: Reader, job: Job, digest: Digest) {
    && IsVersionName(job.version) && VersionOf(rd, job.admission.tree) == Some(job.version)
    && SourceHolds(rd, job, job.admission, digest)
  }

  lemma AdmissionIs(rd: Reader, job: Job)
    ensures AdmittedDigest(rd, job).Some? ==> SourceAdmitted(rd, job, AdmittedDigest(rd, job).value)
    ensures forall digest :: SourceAdmitted(rd, job, digest) ==> AdmittedDigest(rd, job) == Some(digest)
  {
  }

  /** The one way an undisturbed deployment succeeds: the same source each time it is looked at,
      a disk that can be recovered to roots in order, and an installer that delivers. */
  ghost predicate WillSucceed(rd: Reader, d: Disk, job: Job) {
    exists digest :: Succeeding(rd, d, job, digest)
  }

  ghost predicate Succeeding(rd: Reader, d: Disk, job: Job, digest: Digest) {
    && SourceAdmitted(rd, job, digest) && SourceHolds(rd, job, job.locked, digest)
    && (Quiet(d) || RecoverableDisk(d)) && Plannable(rd, Committed(d), job)
    && StagesWell(rd, job, digest) && job.returncode == 0 && Delivers(rd, job, digest, Committed(d))
  }

  /** What the source had to be for a reported success. */
  ghost predicate SourceStood(rd: Reader, job: Job) {
    exists digest :: SourceAdmitted(rd, job, digest) && SourceHolds(rd, job, job.locked, digest)
                     && StagesWell(rd, job, digest) && SourceHolds(rd, job, job.after, digest) && job.returncode == 0
  }

  /** What one invocation may make of a sound disk. */
  ghost predicate Moves(rd: Reader, job: Job, d: Disk, d': Disk, r: Outcome<Report>) {
    && Sound(rd, d') && !r.Raised?
    && (Committed(d') == Committed(d) || (Quiet(d') && Deployed(rd, job, Committed(d), Committed(d'))))
    && (r == Value(Succeeded) ==> Quiet(d') && Deployed(rd, job, Committed(d), LiveOf(d')))
    && (r == Value(RolledBack) ==> Quiet(d') && LiveOf(d') == Committed(d))
    && (r.Value? && r.value != Succeeded ==> Committed(d') == Committed(d))
    && (r == Value(DryRunPassed) ==> d' == d)
  }

  /** And what a good report says of the source and of the roots it started from. */
  ghost predicate Invocation(rd: Reader, job: Job, d: Disk, d': Disk, r: Outcome<Report>) {
    && Moves(rd, job, d, d', r)
    && (r == Value(Succeeded) ==> SourceStood(rd, job) && Plannable(rd, Committed(d), job))
    && (r == Value(DryRunPassed) ==> Plannable(rd, LiveOf(d), job))
  }

  /** With a confined installer no invocation leaves a disk that can neither be recovered nor is
      in one of the named windows. */
  ghost predicate StaysRestartable(job: Job, d: Disk, d': Disk) {
    CanStartAgain(d) && Confined(job, Committed(d)) ==> CanStartAgain(d')
  }

  lemma StoppedCanStartAgain(d: Disk, job: Job, plan: Plan, pre: Live)
    requires Stopped(d, job, plan, pre) && Confined(job, pre)
    ensures CanStartAgain(d)
  {
    if InProgress(d, job, plan, pre) {
      InProgressIsRecoverable(d, job, plan, pre);
    } else {
      UnstartedIsRecoverable(d, job, plan, pre);
    }
  }

  lemma EndingCanStartAgain(d: Disk, job: Job, plan: Plan, pre: Live)
    requires Ending(d, job, plan, pre) && Confined(job, pre)
    ensures CanStartAgain(d)
  {
    var t := d.transactions[job.id];
    assert d.transactions == map[job.id := t] && (Recoverable(d, job.id, t) || Unrecoverable(d, job.id, t));
  }

  lemma LeftBehind(rd: Reader, d: Disk, job: Job, plan: Plan, pre: Live)
    requires PlanFits(rd, job, plan, pre) && (Stopped(d, job, plan, pre) || Ending(d, job, plan, pre))
    ensures Sound(rd, d) && Committed(d) == pre && d.transactions.Keys <= {job.id}
    ensures Confined(job, pre) ==> CanStartAgain(d)
  {
    if Ending(d, job, plan, pre) {
      EndingIsSound(rd, d, job, plan, pre);
      if Confined(job, pre) {
        EndingCanStartAgain(d, job, plan, pre);
      }
    } else {
      StoppedIsSound(rd, d, job, plan, pre);
      if Confined(job, pre) {
        StoppedCanStartAgain(d, job, plan, pre);
      }
    }
  }

  /** The in-process recovery after an exception. */
  method RollBack(fs: FileSystem, rd: Reader, job: Job, ghost plan: Plan, ghost pre: Live) returns (r: Outcome<Report>)
    requires PlanFits(rd, job, plan, pre) && (Stopped(fs.disk, job, plan, pre) || Ending(fs.disk, job, plan, pre))
    modifies fs
    ensures Sound(rd, fs.disk) && Committed(fs.disk) == pre && !r.Raised? && r != Value(Succeeded) && r != Value(DryRunPassed)
    ensures r == Value(RolledBack) ==> Quiet(fs.disk)
    ensures Confined(job, pre) ==> CanStartAgain(fs.disk)
    ensures old(fs.Fair()) ==> fs.Fair()
  {
    LeftBehind(rd, fs.disk, job, plan, pre);
    if job.id !in fs.disk.transactions {
      return Value(DeployFailed);
    }
    ghost var before := fs.disk;
    var back := RecoverTransaction(fs, rd, job.id);
    RecoveredIsSound(rd, before, job.id, fs.disk, back);
    if Confined(job, pre) {
      RecoveredCanStartAgain(rd, before, job.id, fs.disk, back);
    }
    match back {
      case Value(_) => r := Value(RolledBack);
      case Raised => r := Value(RollbackFailed);
      case Crashed => r := Crashed;
    }
  }

  // ----- the commands ---------------------------------------------------------------------------------------------

  lemma QuietIsSound(rd: Reader, d: Disk)
    requires Quiet(d)
    ensures Sound(rd, d) && Committed(d) == LiveOf(d) && CanStartAgain(d)
  {
  }

  /** From a quiet disk and its plan: transact, and undo on an exception. */
  method DeployPlanned(fs: FileSystem, rd: Reader, job: Job, plan: Plan) returns (r: Outcome<Report>)
    requires Quiet(fs.disk) && PlanFits(rd, job, plan, LiveOf(fs.disk))
    requires CommitBundleDigest(rd, job.commit, job.admission.tree) == Some(plan.source_digest)
    requires PreviousInOrder(LiveOf(fs.disk).cache, job.previous, job.version)
    modifies fs
    ensures Moves(rd, job, old(fs.disk), fs.disk, r) && r != Value(DryRunPassed)
    ensures r == Value(Succeeded) ==>
              StagesWell(rd, job, plan.source_digest) && job.returncode == 0
              && Delivers(rd, job, plan.source_digest, LiveOf(old(fs.disk)))
    ensures Confined(job, LiveOf(old(fs.disk))) ==> CanStartAgain(fs.disk)
    ensures old(fs.Fair()) ==> fs.Fair()
    ensures old(fs.Fair()) ==>
              (r == Value(Succeeded) <==>
                 StagesWell(rd, job, plan.source_digest) && job.returncode == 0 && Delivers(rd, job, plan.source_digest, LiveOf(old(fs.disk))))
  {
    ghost var pre := LiveOf(fs.disk);
    QuietIsSound(rd, fs.disk);
    var done := Transact(fs, rd, job, plan, pre);
    if Quiet(fs.disk) {
      QuietIsSound(rd, fs.disk);
    }
    match done {
      case Value(_) => r := Value(Succeeded);
      case Crashed =>
        if Stopped(fs.disk, job, plan, pre) || Ending(fs.disk, job, plan, pre) {
          LeftBehind(rd, fs.disk, job, plan, pre);
        }
        r := Crashed;
      case Raised =>
        r := RollBack(fs, rd, job, plan, pre);
        if Quiet(fs.disk) {
          QuietIsSound(rd, fs.disk);
        }
    }
  }

  /** After recovery: look at everything again, plan, deploy. */
  method DeployRecovered(fs: FileSystem, rd: Reader, job: Job, digest: Digest) returns (r: Outcome<Report>)
    requires SourceAdmitted(rd, job, digest) && Quiet(fs.disk)
    modifies fs
    ensures Invocation(rd, job, old(fs.disk), fs.disk, r) && r != Value(DryRunPassed)
    ensures Confined(job, LiveOf(old(fs.disk))) ==> CanStartAgain(fs.disk)
    ensures old(fs.Fair()) ==> fs.Fair()
    ensures old(fs.Fair()) ==> (r == Value(Succeeded) <==> old(Succeeding(rd, fs.disk, job, digest)))
  {
    ghost var pre := LiveOf(fs.disk);
    QuietIsSound(rd, fs.disk);
    if !SourceHolds(rd, job, job.locked, digest) {
      return Value(DeployFailed);
    }
    var plan := MakePlan(rd, fs.disk.stable, fs.disk.cache, job, digest);
    if plan.None? {
      return Value(DeployFailed);
    }
    PlanOfFits(rd, pre, job, digest);
    r := DeployPlanned(fs, rd, job, plan.value);
    if r == Value(Succeeded) {
      StoodThrough(rd, job, digest, pre);
    }
  }

  /** Under the operation lock: recover what was interrupted, then deploy. */
  method DeployLocked(fs: FileSystem, rd: Reader, job: Job, digest: Digest) returns (r: Outcome<Report>)
    requires SourceAdmitted(rd, job, digest)
    modifies fs
    ensures old(Sound(rd, fs.disk)) ==> Invocation(rd, job, old(fs.disk), fs.disk, r) && r != Value(DryRunPassed)
    ensures old(Sound(rd, fs.disk)) ==> StaysRestartable(job, old(fs.disk), fs.disk)
    ensures old(fs.Fair() && Sound(rd, fs.disk)) ==> (r == Value(Succeeded) <==> old(Succeeding(rd, fs.disk, job, digest)))
  {
    ghost var before := fs.disk;
    var recovered := RecoverInterrupted(fs, rd);
    if recovered.Crashed? {
      return Crashed;
    }
    if recovered.Raised? {
      return Value(DeployFailed);
    }
    QuietIsSound(rd, fs.disk);
    ghost var quiet := fs.disk;
    r := DeployRecovered(fs, rd, job, digest);
    if Sound(rd, before) {
      AfterRecovery(rd, job, digest, before, quiet, fs.disk, r);
    }
  }

  /** What holds from the recovered disk on holds from the disk before. */
  lemma AfterRecovery(rd: Reader, job: Job, digest: Digest, before: Disk, quiet: Disk, d: Disk, r: Outcome<Report>)
    requires Quiet(quiet) && LiveOf(quiet) == Committed(before) == Committed(quiet)
    requires Invocation(rd, job, quiet, d, r) && r != Value(DryRunPassed)
    ensures Invocation(rd, job, before, d, r)
    ensures (Quiet(before) || RecoverableDisk(before)) ==> (Succeeding(rd, quiet, job, digest) <==> Succeeding(rd, before, job, digest))
  {
  }

  lemma SucceedingIs(rd: Reader, d: Disk, job: Job, digest: Digest)
    requires SourceAdmitted(rd, job, digest)
    ensures WillSucceed(rd, d, job) <==> Succeeding(rd, d, job, digest)
  {
  }

  lemma StoodThrough(rd: Reader, job: Job, digest: Digest, pre: Live)
    requires SourceAdmitted(rd, job, digest) && SourceHolds(rd, job, job.locked, digest) && StagesWell(rd, job, digest)
    requires job.returncode == 0 && (job.previous.Some? ==> job.previous.value in pre.cache) && Delivers(rd, job, digest, pre)
    ensures SourceStood(rd, job)
  {
    assert SourceHolds(rd, job, job.after, digest);
  }

  /** `deploy`: whatever the weather and the installer, a sound disk stays sound; what it stands
      for changes only to a state that meets the full success condition, and the report tells
      which. Undisturbed, it succeeds exactly when the sources, the disk and the installer
      allow it. A dry run writes nothing. */
  method Deploy(fs: FileSystem, rd: Reader, job: Job, execute: bool) returns (r: Outcome<Report>)
    modifies fs
    ensures old(Sound(rd, fs.disk)) ==> Invocation(rd, job, old(fs.disk), fs.disk, r)
    ensures !execute ==> fs.disk == old(fs.disk)
    ensures !execute ==>
              (r == Value(DryRunPassed) <==>
                 && (exists digest :: SourceAdmitted(rd, job, digest)) && fs.disk.transactions == map[]
                 && Plannable(rd, LiveOf(fs.disk), job))
    ensures old(Sound(rd, fs.disk)) ==> StaysRestartable(job, old(fs.disk), fs.disk)
    ensures execute && old(fs.Fair() && Sound(rd, fs.disk)) ==> (r == Value(Succeeded) <==> old(WillSucceed(rd, fs.disk, job)))
  {
    var digest := AdmittedDigest(rd, job);
    AdmissionIs(rd, job);
    if digest.None? {
      return Value(DeployFailed);
    }
    if execute {
      SucceedingIs(rd, fs.disk, job, digest.value);
      r := DeployLocked(fs, rd, job, digest.value);
      return;
    }
    if fs.disk.transactions != map[] {
      return Value(DeployFailed);
    }
    var plan := MakePlan(rd, fs.disk.stable, fs.disk.cache, job, digest.value);
    r := Value(if plan.Some? then DryRunPassed else DeployFailed);
  }
}
