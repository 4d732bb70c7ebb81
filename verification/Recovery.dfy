/** scripts/dev_deploy.py, recovery: bringing stable and the cache back to the snapshots of an
    unfinished transaction, whatever stopped it and whatever stops the recovery. */
module Recovery {
  import opened Basics
  import opened Bundle
  import opened Disk

  // ----- disks a deployment leaves behind -------------------------------------------------------

  predicate WellFormed(m: Manifest, id: string) {
    && m.transaction_id == id
    && m.staging_path == Staging(id) && m.backup_path == Backup(id) && m.recovery_path == Recovery(id)
    && IsVersionName(m.expected_version) && (forall name <- m.pre_caches :: IsVersionName(name))
    && m.expected_version !in m.pre_caches
  }

  predicate OnlySwitchesOf(d: Disk, id: string) {
    forall s <- d.switches :: s in {Staging(id), Backup(id), Recovery(id)} && Plain(d.switches[s])
  }

  ghost predicate StableSaved(t: Transaction, m: Manifest) { DigestIn(t.stable) == Some(m.pre_stable_digest) }

  ghost predicate CacheSaved(rd: Reader, t: Transaction, m: Manifest) {
    t.cache.Some? && CacheFacts(rd, t.cache.value) == Some(m.pre_caches)
  }

  ghost predicate LiveMatches(rd: Reader, d: Disk, m: Manifest) {
    DigestIn(d.stable) == Some(m.pre_stable_digest) && CacheFacts(rd, d.cache) == Some(m.pre_caches)
  }

  /** Before its snapshots are complete a transaction has changed nothing; afterwards they hold
      exactly what its manifest says. */
  ghost predicate SoundTransaction(rd: Reader, d: Disk, id: string, t: Transaction) {
    match t.manifest
    case None => d.switches == map[]
    case Some(m) =>
      && WellFormed(m, id) && OnlySwitchesOf(d, id)
      && if m.state.SnapshotStarted? then d.switches == map[] && LiveMatches(rd, d, m)
         else StableSaved(t, m) && CacheSaved(rd, t, m)
  }

  /** At most one transaction, and every switch path is one of its own. */
  ghost predicate Sound(rd: Reader, d: Disk) {
    if d.transactions == map[] then d.switches == map[]
    else exists id, t :: d.transactions == map[id := t] && SoundTransaction(rd, d, id, t)
  }

  predicate Quiet(d: Disk) { d.transactions == map[] && d.switches == map[] }

  predicate SnapshotTaken(t: Transaction) {
    t.manifest.Some? && !t.manifest.value.state.SnapshotStarted? && t.cache.Some?
  }

  /** What a disk stands for: the snapshots of its transaction, once taken, else what is live. */
  ghost function Committed(d: Disk): Live {
    if id :| id in d.transactions && SnapshotTaken(d.transactions[id])
    then Live(d.transactions[id].stable, d.transactions[id].cache.value)
    else LiveOf(d)
  }

  // ----- when recovery can succeed -----------------------------------------------------------------

  /** The shapes of stable and its backup that recovery takes. */
  ghost predicate StableRecoverable(d: Disk, id: string, m: Manifest) {
    var now, kept := DigestIn(d.stable), DigestIn(Get(d.switches, Backup(id)));
    || now == Some(m.pre_stable_digest)
    || ((d.stable.None? || now == Some(m.source_bundle_digest))
        && if Backup(id) in d.switches then kept == Some(m.pre_stable_digest) else Recovery(id) !in d.switches)
  }

  predicate CacheRecoverable(cache: Cache, m: Manifest) {
    forall name <- cache :: (name == m.expected_version || name in m.pre_caches) && Plain(cache[name])
  }

  ghost predicate Recoverable(d: Disk, id: string, t: Transaction) {
    && t.manifest.Some?
    && (t.manifest.value.state.SnapshotStarted?
        || (StableRecoverable(d, id, t.manifest.value) && CacheRecoverable(d.cache, t.manifest.value)))
  }

  /** Recovery has no way to bring stable back. */
  ghost predicate StableLost(d: Disk, id: string, t: Transaction) {
    t.manifest.None? || (!t.manifest.value.state.SnapshotStarted? && !StableRecoverable(d, id, t.manifest.value))
  }

  /** Left by an error or a crash while stable was copied back without a backup. */
  predicate Stranded(d: Disk, id: string) { Recovery(id) in d.switches && Backup(id) !in d.switches }

  // ----- stable ----------------------------------------------------------------------------------------

  /** `_safe_remove_tree`. */
  method SafeRemove(fs: FileSystem, s: Switch) returns (r: Outcome<()>)
    requires s in fs.disk.switches
    modifies fs
    ensures fs.disk == old(fs.disk).(switches := Set(old(fs.disk.switches), s, Get(fs.disk.switches, s)))
    ensures r.Value? ==> s !in fs.disk.switches
    ensures old(Plain(fs.disk.switches[s])) && s in fs.disk.switches ==> Plain(fs.disk.switches[s])
    ensures old(Plain(fs.disk.switches[s])) && Head(old(fs.weather)).Strike? ==>
              !r.Value? && Get(fs.disk.switches, s) == Head(old(fs.weather)).left
    ensures old(fs.Fair()) ==> fs.Fair() && (r.Value? <==> old(Plain(fs.disk.switches[s])))
  {
    if !Plain(fs.disk.switches[s]) {
      return Raised;
    }
    r := fs.Gradually(AtSwitch(s), None);
  }

  /** `rmtree(stable)` where there is one, then `replace(from, stable)`. */
  method ReplaceStable(fs: FileSystem, from: Switch) returns (r: Outcome<()>)
    requires from in fs.disk.switches
    modifies fs
    ensures fs.disk == old(fs.disk) || fs.disk == old(fs.disk).(stable := None) || fs.disk == Moved(old(fs.disk), from)
    ensures r.Value? ==> fs.disk == Moved(old(fs.disk), from)
    ensures old(fs.Fair()) ==> fs.Fair() && r.Value?
  {
    if fs.disk.stable.Some? {
      var _ :- fs.Atomically(fs.disk.(stable := None));
    }
    r := fs.Atomically(Moved(fs.disk, from));
  }

  function Moved(d: Disk, from: Switch): Disk
    requires from in d.switches
  {
    d.(stable := Some(d.switches[from]), switches := d.switches - {from})
  }

  method ReturnBackup(fs: FileSystem, id: string, m: Manifest) returns (r: Outcome<()>)
    requires Backup(id) in fs.disk.switches
    modifies fs
    ensures fs.disk == old(fs.disk)
            || (DigestIn(Some(old(fs.disk).switches[Backup(id)])) == Some(m.pre_stable_digest)
                && (fs.disk == old(fs.disk).(stable := None) || fs.disk == Moved(old(fs.disk), Backup(id))))
    ensures r.Value? ==> fs.disk == Moved(old(fs.disk), Backup(id))
    ensures DigestIn(Some(old(fs.disk).switches[Backup(id)])) != Some(m.pre_stable_digest) ==> r.Raised?
    ensures old(fs.Fair()) ==>
              fs.Fair() && (r.Value? <==> DigestIn(Some(old(fs.disk).switches[Backup(id)])) == Some(m.pre_stable_digest))
  {
    var kept :- DigestOf(Some(fs.disk.switches[Backup(id)]));
    if kept != m.pre_stable_digest {
      return Raised;
    }
    r := ReplaceStable(fs, Backup(id));
  }

  /** An operation is struck while it copies or deletes, and leaves files behind. */
  predicate LeavesFiles(w: Weather) { w.Strike? && w.left.Some? }

  /** Stable can only be copied back from the snapshot. */
  ghost predicate NeedsCopy(d: Disk, id: string, m: Manifest) {
    && Backup(id) !in d.switches && Recovery(id) !in d.switches
    && (d.stable.None? || (DigestIn(d.stable) == Some(m.source_bundle_digest) && m.source_bundle_digest != m.pre_stable_digest))
  }

  /** Only `stable` and the recovery path of the transaction differ, and that path is there. */
  predicate CopyingBack(d: Disk, d': Disk, id: string) {
    && Recovery(id) in d'.switches && Plain(d'.switches[Recovery(id)])
    && d' == d.(stable := d'.stable, switches := d.switches[Recovery(id) := d'.switches[Recovery(id)]])
    && (d'.stable == d.stable || d'.stable.None?)
  }

  method CopySnapshotBack(fs: FileSystem, id: string, m: Manifest, snapshot: Option<Tree>) returns (r: Outcome<()>)
    requires Backup(id) !in fs.disk.switches
    modifies fs
    ensures fs.disk == old(fs.disk) || CopyingBack(old(fs.disk), fs.disk, id)
            || (DigestIn(snapshot) == Some(m.pre_stable_digest) && fs.disk == old(fs.disk).(stable := snapshot))
    ensures r.Value? ==> DigestIn(snapshot) == Some(m.pre_stable_digest) && fs.disk == old(fs.disk).(stable := snapshot)
    ensures Recovery(id) in old(fs.disk).switches ==> r.Raised? && fs.disk == old(fs.disk)
    ensures DigestIn(snapshot) == Some(m.pre_stable_digest) && Recovery(id) !in old(fs.disk).switches && LeavesFiles(Head(old(fs.weather))) ==>
              !r.Value? && Recovery(id) in fs.disk.switches && fs.disk.stable == old(fs.disk).stable && Backup(id) !in fs.disk.switches
    ensures old(fs.Fair()) ==>
              fs.Fair() && (r.Value? <==> DigestIn(snapshot) == Some(m.pre_stable_digest) && Recovery(id) !in old(fs.disk).switches)
  {
    ghost var before := fs.disk;
    var saved :- DigestOf(snapshot);
    if saved != m.pre_stable_digest {
      return Raised;
    }
    if Recovery(id) in fs.disk.switches {
      return Raised;
    }
    assert Plain(snapshot.value);
    r := fs.CopyTree(snapshot.value, AtSwitch(Recovery(id)));
    assert Recovery(id) !in fs.disk.switches ==> fs.disk == before;
    var _ :- r;
    assert fs.disk.switches == before.switches[Recovery(id) := snapshot.value];
    assert fs.disk.switches - {Recovery(id)} == before.switches;
    r := ReplaceStable(fs, Recovery(id));
  }

  /** `_restore_stable_snapshot`. */
  method RestoreStableSnapshot(fs: FileSystem, id: string, m: Manifest, snapshot: Option<Tree>) returns (r: Outcome<()>)
    modifies fs
    ensures fs.disk.transactions == old(fs.disk).transactions && fs.disk.cache == old(fs.disk).cache
    ensures fs.disk.switches.Keys <= old(fs.disk).switches.Keys + {Recovery(id)}
    ensures old(OnlySwitchesOf(fs.disk, id)) ==> OnlySwitchesOf(fs.disk, id)
    ensures r.Value? ==> DigestIn(fs.disk.stable) == Some(m.pre_stable_digest)
    ensures old(StableRecoverable(fs.disk, id, m)) ==> StableRecoverable(fs.disk, id, m) || Stranded(fs.disk, id)
    ensures old(!StableRecoverable(fs.disk, id, m)) ==> r.Raised? && fs.disk == old(fs.disk)
    // a stable tree that is neither the old nor the new one, or a backup that is not the old one
    ensures old(fs.disk.stable.Some?
                && DigestIn(fs.disk.stable) !in {Some(m.pre_stable_digest), Some(m.source_bundle_digest)}) ==>
              r.Raised? && fs.disk == old(fs.disk)
    ensures old(DigestIn(fs.disk.stable) != Some(m.pre_stable_digest) && Backup(id) in fs.disk.switches
                && DigestIn(Some(fs.disk.switches[Backup(id)])) != Some(m.pre_stable_digest)) ==>
              r.Raised? && fs.disk == old(fs.disk)
    ensures old(NeedsCopy(fs.disk, id, m) && LeavesFiles(Head(fs.weather))) && DigestIn(snapshot) == Some(m.pre_stable_digest) ==>
              !r.Value? && Stranded(fs.disk, id) && !StableRecoverable(fs.disk, id, m)
    ensures old(fs.Fair()) ==> fs.Fair()
    ensures old(fs.Fair() && OnlySwitchesOf(fs.disk, id)) && DigestIn(snapshot) == Some(m.pre_stable_digest) ==>
              (r.Value? <==> old(StableRecoverable(fs.disk, id, m)))
  {
    var backup := Backup(id);
    if fs.disk.stable.Some? {
      var current :- DigestOf(fs.disk.stable);
      if current == m.pre_stable_digest {
        if backup in fs.disk.switches {
          var _ :- SafeRemove(fs, backup);
        }
        return Value(());
      }
      if current != m.source_bundle_digest {
        return Raised;
      }
    }
    if backup in fs.disk.switches {
      var _ :- ReturnBackup(fs, id, m);
    } else {
      var _ :- CopySnapshotBack(fs, id, m, snapshot);
    }
    var restored := DigestOf(fs.disk.stable);
    r := if restored == Value(m.pre_stable_digest) then Value(()) else Raised;
  }

  // ----- the cache -------------------------------------------------------------------------------------

  predicate Within(cache: Cache, names: set<string>) { cache.Keys <= names && forall name <- cache :: Plain(cache[name]) }

  method RemoveEntries(fs: FileSystem) returns (r: Outcome<()>)
    requires Within(fs.disk.cache, fs.disk.cache.Keys)
    modifies fs
    ensures fs.disk == old(fs.disk).(cache := fs.disk.cache) && Within(fs.disk.cache, old(fs.disk).cache.Keys)
    ensures r.Value? ==> fs.disk.cache == map[]
    ensures old(fs.Fair()) ==> fs.Fair() && r.Value?
  {
    var entries := fs.disk.cache.Keys;
    while entries != {}
      invariant fs.disk == old(fs.disk).(cache := fs.disk.cache) && Within(fs.disk.cache, entries)
      invariant entries <= old(fs.disk).cache.Keys && (old(fs.Fair()) ==> fs.Fair())
      decreases |entries|
    {
      var name :| name in entries;
      var _ :- fs.Gradually(InCache(name), None);
      entries := entries - {name};
    }
    r := Value(());
  }

  /** Every tree has the digest the facts give it. */
  ghost predicate Saved(cache: Cache, facts: Facts) {
    cache.Keys == facts.Keys && forall name <- cache :: DigestIn(Some(cache[name])) == Some(facts[name])
  }

  lemma FactsAreSaved(rd: Reader, cache: Cache, facts: Facts)
    requires CacheFacts(rd, cache) == Some(facts)
    ensures Saved(cache, facts)
  {
  }

  function Part(snapshot: Cache, names: set<string>): Cache {
    map name | name in names && name in snapshot :: snapshot[name]
  }

  lemma PartGrows(snapshot: Cache, names: set<string>, name: string)
    requires name in snapshot
    ensures Part(snapshot, names)[name := snapshot[name]] == Part(snapshot, names + {name})
  {
  }

  method CopyEntry(fs: FileSystem, t: Tree, digest: Digest, name: string) returns (r: Outcome<()>)
    requires DigestIn(Some(t)) == Some(digest) && name !in fs.disk.cache
    modifies fs
    ensures fs.disk == old(fs.disk).(cache := Set(old(fs.disk.cache), name, Get(fs.disk.cache, name)))
    ensures name in fs.disk.cache ==> Plain(fs.disk.cache[name])
    ensures r.Value? ==> fs.disk.cache == old(fs.disk.cache)[name := t]
    ensures old(fs.Fair()) ==> fs.Fair() && r.Value?
  {
    var _ :- fs.CopyTree(t, InCache(name));
    var copied := DigestOf(Some(fs.disk.cache[name]));
    r := if copied == Value(digest) then Value(()) else Raised;
  }

  lemma PartIsWithin(snapshot: Cache, facts: Facts, names: set<string>)
    requires Saved(snapshot, facts)
    ensures Within(Part(snapshot, names), snapshot.Keys) && Part(snapshot, snapshot.Keys) == snapshot
  {
  }

  method CopyNext(fs: FileSystem, snapshot: Cache, facts: Facts, rest: set<string>, name: string) returns (r: Outcome<()>)
    requires Saved(snapshot, facts) && rest <= snapshot.Keys && name in rest && fs.disk.cache == Part(snapshot, snapshot.Keys - rest)
    modifies fs
    ensures fs.disk == old(fs.disk).(cache := fs.disk.cache) && Within(fs.disk.cache, snapshot.Keys)
    ensures r.Value? ==> fs.disk.cache == Part(snapshot, snapshot.Keys - (rest - {name}))
    ensures old(fs.Fair()) ==> fs.Fair() && r.Value?
  {
    PartIsWithin(snapshot, facts, snapshot.Keys - rest);
    PartGrows(snapshot, snapshot.Keys - rest, name);
    assert snapshot.Keys - rest + {name} == snapshot.Keys - (rest - {name});
    r := CopyEntry(fs, snapshot[name], facts[name], name);
  }

  method CopyEntries(fs: FileSystem, snapshot: Cache, facts: Facts) returns (r: Outcome<()>)
    requires Saved(snapshot, facts) && fs.disk.cache == map[]
    modifies fs
    ensures fs.disk == old(fs.disk).(cache := fs.disk.cache) && Within(fs.disk.cache, snapshot.Keys)
    ensures r.Value? ==> fs.disk.cache == snapshot
    ensures old(fs.Fair()) ==> fs.Fair() && r.Value?
  {
    var rest := snapshot.Keys;
    while rest != {}
      invariant rest <= snapshot.Keys && fs.disk == old(fs.disk).(cache := fs.disk.cache)
      invariant fs.disk.cache == Part(snapshot, snapshot.Keys - rest) && (old(fs.Fair()) ==> fs.Fair())
      decreases |rest|
    {
      var name :| name in rest;
      var _ :- CopyNext(fs, snapshot, facts, rest, name);
      rest := rest - {name};
    }
    PartIsWithin(snapshot, facts, snapshot.Keys);
    assert snapshot.Keys - rest == snapshot.Keys;
    r := Value(());
  }

  /** `_restore_cache_snapshot`. */
  method RestoreCacheSnapshot(fs: FileSystem, rd: Reader, m: Manifest, snapshot: Option<Cache>) returns (r: Outcome<()>)
    modifies fs
    ensures fs.disk == old(fs.disk).(cache := fs.disk.cache)
    ensures r.Value? ==> CacheFacts(rd, fs.disk.cache) == Some(m.pre_caches)
    ensures old(CacheRecoverable(fs.disk.cache, m)) ==> CacheRecoverable(fs.disk.cache, m)
    ensures old(!CacheRecoverable(fs.disk.cache, m)) ==> r.Raised? && fs.disk == old(fs.disk)
    // an entry the transaction does not know, or one that is not made of regular files
    ensures old(exists name <- fs.disk.cache ::
                  (name != m.expected_version && name !in m.pre_caches) || !Plain(fs.disk.cache[name])) ==>
              r.Raised? && fs.disk == old(fs.disk)
    ensures old(fs.Fair()) ==> fs.Fair()
    ensures old(fs.Fair()) && snapshot.Some? && CacheFacts(rd, snapshot.value) == Some(m.pre_caches) ==>
              (r.Value? <==> old(CacheRecoverable(fs.disk.cache, m)))
  {
    if snapshot.None? {
      return Raised;
    }
    var saved := ReadCacheFacts(rd, snapshot.value);
    if saved != Some(m.pre_caches) {
      return Raised;
    }
    assert snapshot.value.Keys == m.pre_caches.Keys;
    if !CacheRecoverable(fs.disk.cache, m) {
      return Raised;
    }
    var _ :- RemoveEntries(fs);
    FactsAreSaved(rd, snapshot.value, m.pre_caches);
    var _ :- CopyEntries(fs, snapshot.value, m.pre_caches);
    var restored := ReadCacheFacts(rd, fs.disk.cache);
    r := if restored == Some(m.pre_caches) then Value(()) else Raised;
  }

  // ----- the whole transaction ---------------------------------------------------------------------

  method RemoveIfPresent(fs: FileSystem, s: Switch) returns (r: Outcome<()>)
    modifies fs
    ensures fs.disk == old(fs.disk).(switches := Set(old(fs.disk.switches), s, Get(fs.disk.switches, s)))
    ensures r.Value? ==> s !in fs.disk.switches
    ensures s in fs.disk.switches ==> s in old(fs.disk.switches)
    ensures s in fs.disk.switches && old(Plain(fs.disk.switches[s])) ==> Plain(fs.disk.switches[s])
    ensures old(fs.Fair()) ==> fs.Fair() && (r.Value? <==> old(s in fs.disk.switches ==> Plain(fs.disk.switches[s])))
  {
    if s in fs.disk.switches {
      r := SafeRemove(fs, s);
    } else {
      r := Value(());
      assert Set(fs.disk.switches, s, None) == fs.disk.switches;
    }
  }

  /** What is left once live is settled: the three switch paths, then the transaction. */
  method CleanUp(fs: FileSystem, id: string) returns (r: Outcome<()>)
    modifies fs
    ensures fs.disk == old(fs.disk).(switches := fs.disk.switches, transactions := fs.disk.transactions)
    ensures fs.disk.transactions == old(fs.disk).transactions
            || (fs.disk.transactions == old(fs.disk).transactions - {id}
                && fs.disk.switches == old(fs.disk).switches - {Staging(id), Backup(id), Recovery(id)})
    ensures r.Value? ==> fs.disk.transactions == old(fs.disk).transactions - {id}
                         && fs.disk.switches == old(fs.disk).switches - {Staging(id), Backup(id), Recovery(id)}
    ensures fs.disk.switches.Keys <= old(fs.disk).switches.Keys
    ensures old(OnlySwitchesOf(fs.disk, id)) ==> OnlySwitchesOf(fs.disk, id)
    ensures old(fs.Fair()) ==> fs.Fair() && (old(OnlySwitchesOf(fs.disk, id)) ==> r.Value?)
  {
    var _ :- RemoveIfPresent(fs, Staging(id));
    var _ :- RemoveIfPresent(fs, Backup(id));
    var _ :- RemoveIfPresent(fs, Recovery(id));
    assert fs.disk.switches == old(fs.disk).switches - {Staging(id), Backup(id), Recovery(id)};
    r := fs.Atomically(fs.disk.(transactions := fs.disk.transactions - {id}));
  }

  /** Back to the snapshots, or, before they were complete, nothing to go back from. */
  method RestoreLive(fs: FileSystem, rd: Reader, id: string, t: Transaction, m: Manifest) returns (r: Outcome<()>)
    modifies fs
    ensures fs.disk.transactions == old(fs.disk).transactions
    ensures fs.disk.switches.Keys <= old(fs.disk).switches.Keys + {Recovery(id)}
    ensures m.state.SnapshotStarted? ==> fs.disk == old(fs.disk)
    ensures !m.state.SnapshotStarted? && old(!StableRecoverable(fs.disk, id, m)) ==> r.Raised? && fs.disk == old(fs.disk)
    ensures !m.state.SnapshotStarted? && old(!CacheRecoverable(fs.disk.cache, m)) ==> !r.Value? && fs.disk.cache == old(fs.disk).cache
    ensures r.Value? ==> LiveMatches(rd, fs.disk, m)
    ensures old(NeedsCopy(fs.disk, id, m) && LeavesFiles(Head(fs.weather))) && !m.state.SnapshotStarted? && StableSaved(t, m) ==>
              !r.Value? && Stranded(fs.disk, id) && !StableRecoverable(fs.disk, id, m)
    ensures old(OnlySwitchesOf(fs.disk, id)) ==> OnlySwitchesOf(fs.disk, id)
    ensures !m.state.SnapshotStarted? && old(StableRecoverable(fs.disk, id, m) && CacheRecoverable(fs.disk.cache, m)) ==>
              CacheRecoverable(fs.disk.cache, m) && (StableRecoverable(fs.disk, id, m) || Stranded(fs.disk, id))
    ensures old(fs.Fair()) ==> fs.Fair()
    ensures old(fs.Fair()) && m.state.SnapshotStarted? ==> fs.Fair() && (r.Value? <==> old(LiveMatches(rd, fs.disk, m)))
    ensures old(fs.Fair() && OnlySwitchesOf(fs.disk, id)) && !m.state.SnapshotStarted? && StableSaved(t, m) && CacheSaved(rd, t, m) ==>
              (r.Value? <==> old(StableRecoverable(fs.disk, id, m) && CacheRecoverable(fs.disk.cache, m)))
  {
    if m.state.SnapshotStarted? {
      var stable := DigestOf(fs.disk.stable);
      var facts := ReadCacheFacts(rd, fs.disk.cache);
      return if stable == Value(m.pre_stable_digest) && facts == Some(m.pre_caches) then Value(()) else Raised;
    }
    var _ :- RestoreStableSnapshot(fs, id, m, t.stable);
    r := RestoreCacheSnapshot(fs, rd, m, t.cache);
  }

  /** `_recover_transaction`. */
  method RecoverTransaction(fs: FileSystem, rd: Reader, id: string) returns (r: Outcome<()>)
    requires id in fs.disk.transactions
    modifies fs
    ensures Recovered(rd, old(fs.disk), id, fs.disk, r)
    ensures old(fs.disk.transactions[id].manifest.None? || !WellFormed(fs.disk.transactions[id].manifest.value, id)) ==>
              r.Raised? && fs.disk == old(fs.disk)
    ensures old(fs.Fair()) ==> fs.Fair()
    ensures old(fs.Fair() && SoundTransaction(rd, fs.disk, id, fs.disk.transactions[id])) ==>
              (r.Value? <==> old(Recoverable(fs.disk, id, fs.disk.transactions[id])))
    ensures old(SoundTransaction(rd, fs.disk, id, fs.disk.transactions[id])
                && CopyBreaks(fs.disk, id, fs.disk.transactions[id], Head(fs.weather))) ==>
              !r.Value? && fs.disk.transactions == old(fs.disk.transactions) && Unrecoverable(fs.disk, id, fs.disk.transactions[id])
  {
    var t := fs.disk.transactions[id];
    if t.manifest.None? {
      return Raised;
    }
    var m := t.manifest.value;
    if !WellFormed(m, id) {
      return Raised;
    }
    ghost var before := fs.disk;
    var restored := RestoreLive(fs, rd, id, t, m);
    assert restored.IsFailure() ==> Recovered(rd, before, id, fs.disk, restored);
    var _ :- restored;
    ghost var settled := fs.disk;
    r := CleanUp(fs, id);
    CleanedUp(rd, before, id, m, settled, fs.disk, r);
  }

  /** Recovery starts by copying stable back, and is struck in that copy. */
  ghost predicate CopyBreaks(d: Disk, id: string, t: Transaction, w: Weather) {
    && t.manifest.Some? && !t.manifest.value.state.SnapshotStarted?
    && NeedsCopy(d, id, t.manifest.value) && LeavesFiles(w)
  }

  /** What recovering the transaction `id` may make of a disk. */
  ghost predicate Recovered(rd: Reader, d: Disk, id: string, d': Disk, r: Outcome<()>)
    requires id in d.transactions
  {
    var t := d.transactions[id];
    // the snapshots go only when live equals what they were taken of
    && (d'.transactions == d.transactions
        || (d'.transactions == d.transactions - {id} && t.manifest.Some? && LiveMatches(rd, d', t.manifest.value)
            && d'.switches.Keys !! {Staging(id), Backup(id), Recovery(id)}))
    && (r.Value? ==> id !in d'.transactions && WellFormed(t.manifest.value, id))
    && d'.switches.Keys <= d.switches.Keys + {Recovery(id)}
    // an unfinished transaction without complete snapshots changed nothing and changes nothing
    && (t.manifest.None? || t.manifest.value.state.SnapshotStarted? ==>
          LiveOf(d') == LiveOf(d) && (d.switches == map[] ==> d'.switches == map[]))
    && (OnlySwitchesOf(d, id) ==> OnlySwitchesOf(d', id))
    // what cannot be recovered is refused, and where that is for stable, nothing is touched
    && (StableLost(d, id, t) ==> r.Raised? && d' == d)
    && (t.manifest.Some? && !t.manifest.value.state.SnapshotStarted? && !CacheRecoverable(d.cache, t.manifest.value) ==>
          !r.Value? && d'.cache == d.cache)
    // what could be recovered still can, or was being copied back without a backup
    && (id in d'.transactions && Recoverable(d, id, t) ==>
          Recoverable(d', id, t) || (StableLost(d', id, t) && Stranded(d', id)))
  }

  lemma CleanedUp(rd: Reader, d: Disk, id: string, m: Manifest, settled: Disk, d': Disk, r: Outcome<()>)
    requires id in d.transactions && d.transactions[id].manifest == Some(m)
    requires settled.transactions == d.transactions && LiveMatches(rd, settled, m)
    requires m.state.SnapshotStarted? ==> settled == d
    requires !m.state.SnapshotStarted? ==> StableRecoverable(d, id, m) && CacheRecoverable(d.cache, m)
    requires OnlySwitchesOf(d, id) ==> OnlySwitchesOf(settled, id)
    requires CacheRecoverable(d.cache, m) && StableRecoverable(d, id, m) && !m.state.SnapshotStarted? ==> CacheRecoverable(settled.cache, m)
    requires d' == settled.(switches := d'.switches, transactions := d'.transactions)
    requires d'.transactions == settled.transactions
             || (d'.transactions == settled.transactions - {id}
                 && d'.switches == settled.switches - {Staging(id), Backup(id), Recovery(id)})
    requires r.Value? ==> d'.transactions == settled.transactions - {id}
    requires OnlySwitchesOf(settled, id) ==> OnlySwitchesOf(d', id)
    requires d'.switches.Keys <= settled.switches.Keys <= d.switches.Keys + {Recovery(id)} && WellFormed(m, id)
    ensures Recovered(rd, d, id, d', r)
  {
  }

  /** Recovering a sound disk leaves it sound and stands for the same live roots. */
  lemma RecoveredIsSound(rd: Reader, d: Disk, id: string, d': Disk, r: Outcome<()>)
    requires Sound(rd, d) && id in d.transactions && Recovered(rd, d, id, d', r)
    ensures Sound(rd, d') && Committed(d') == Committed(d)
    ensures r.Value? ==> Quiet(d') && LiveOf(d') == Committed(d)
  {
    var t := d.transactions[id];
    SoundIsSingle(rd, d, id);
    if d'.transactions == d.transactions {
      KeptTransaction(rd, d, id, t, d');
    } else {
      var m := t.manifest.value;
      assert d'.transactions == map[];
      CommittedWithout(d');
      if !m.state.SnapshotStarted? {
        RestoredLive(rd, t, m, d');
        CommittedWith(d, id, t);
      } else {
        CommittedLive(d, id, t);
      }
      NoSwitchLeft(d', id);
    }
  }

  lemma SoundIsSingle(rd: Reader, d: Disk, id: string)
    requires Sound(rd, d) && id in d.transactions
    ensures d.transactions == map[id := d.transactions[id]] && SoundTransaction(rd, d, id, d.transactions[id])
  {
  }

  lemma NoSwitchLeft(d: Disk, id: string)
    requires OnlySwitchesOf(d, id) && d.switches.Keys !! {Staging(id), Backup(id), Recovery(id)}
    ensures d.switches == map[]
  {
  }

  lemma CommittedWithout(d: Disk)
    requires d.transactions == map[]
    ensures Committed(d) == LiveOf(d)
  {
  }

  lemma CommittedWith(d: Disk, id: string, t: Transaction)
    requires d.transactions == map[id := t] && SnapshotTaken(t)
    ensures Committed(d) == Live(t.stable, t.cache.value)
  {
    assert id in d.transactions && SnapshotTaken(d.transactions[id]);
  }

  lemma CommittedLive(d: Disk, id: string, t: Transaction)
    requires d.transactions == map[id := t] && !SnapshotTaken(t)
    ensures Committed(d) == LiveOf(d)
  {
  }

  lemma RestoredLive(rd: Reader, t: Transaction, m: Manifest, d: Disk)
    requires StableSaved(t, m) && CacheSaved(rd, t, m) && LiveMatches(rd, d, m)
    ensures LiveOf(d) == Live(t.stable, t.cache.value)
  {
    SafeDigestTells(t.stable.value, d.stable.value);
    FactsTell(rd, t.cache.value, d.cache);
  }

  lemma KeptTransaction(rd: Reader, d: Disk, id: string, t: Transaction, d': Disk)
    requires d.transactions == map[id := t] && SoundTransaction(rd, d, id, t) && d'.transactions == d.transactions
    requires t.manifest.None? || t.manifest.value.state.SnapshotStarted? ==>
               LiveOf(d') == LiveOf(d) && d'.switches == map[]
    requires OnlySwitchesOf(d, id) ==> OnlySwitchesOf(d', id)
    ensures Sound(rd, d') && Committed(d') == Committed(d)
  {
    assert SoundTransaction(rd, d', id, t);
    assert id in d.transactions;
    if SnapshotTaken(t) {
      CommittedWith(d, id, t);
      CommittedWith(d', id, t);
    } else {
      CommittedLive(d, id, t);
      CommittedLive(d', id, t);
    }
  }

  // ----- starting up ---------------------------------------------------------------------------------

  /** The paths the manifest of a transaction names. */
  function BoundSwitches(m: Manifest): set<Switch> { {m.staging_path, m.backup_path, m.recovery_path} }

  ghost predicate RecoverableDisk(d: Disk) {
    exists id, t :: d.transactions == map[id := t] && Recoverable(d, id, t)
  }

  /** The places where a stop leaves what recovery refuses: before the first manifest, while the
      backup is removed, and while stable is copied back without a backup. */
  ghost predicate Unrecoverable(d: Disk, id: string, t: Transaction) {
    && StableLost(d, id, t)
    && (t.manifest.None? || Stranded(d, id)
        || (DigestIn(d.stable) == Some(t.manifest.value.source_bundle_digest) && Backup(id) in d.switches))
  }

  ghost predicate InWindow(d: Disk) {
    exists id, t :: d.transactions == map[id := t] && Unrecoverable(d, id, t)
  }

  ghost predicate CanStartAgain(d: Disk) { Quiet(d) || RecoverableDisk(d) || InWindow(d) }

  lemma SameTransaction(d: Disk, id: string, t: Transaction)
    requires d.transactions == map[id := t]
    ensures RecoverableDisk(d) <==> Recoverable(d, id, t)
    ensures InWindow(d) <==> Unrecoverable(d, id, t)
    ensures !Quiet(d)
  {
    assert id in d.transactions;
    if RecoverableDisk(d) {
      var i, x :| d.transactions == map[i := x] && Recoverable(d, i, x);
      assert i in d.transactions;
    }
    if InWindow(d) {
      var i, x :| d.transactions == map[i := x] && Unrecoverable(d, i, x);
      assert i in d.transactions;
    }
  }

  /** A disturbed recovery leaves a disk that can be recovered, or one of the windows; in a
      window nothing is touched. */
  lemma RecoveredCanStartAgain(rd: Reader, d: Disk, id: string, d': Disk, r: Outcome<()>)
    requires Sound(rd, d) && CanStartAgain(d) && id in d.transactions && Recovered(rd, d, id, d', r)
    ensures CanStartAgain(d')
    ensures RecoverableDisk(d) || d' == d
  {
  }

  /** The transaction has no manifest or another's, or some switch path is not one of its own. */
  predicate Unbound(d: Disk, id: string, t: Transaction) {
    t.manifest.None? || !WellFormed(t.manifest.value, id) || !(d.switches.Keys <= {Staging(id), Backup(id), Recovery(id)})
  }

  /** More than one transaction, one that cannot be bound, or switch paths without any. */
  predicate Ambiguous(d: Disk) {
    || |d.transactions| > 1
    || (d.transactions == map[] && d.switches != map[])
    || exists id <- d.transactions :: Unbound(d, id, d.transactions[id])
  }

  lemma AmbiguousIs(d: Disk, id: string, t: Transaction)
    requires d.transactions == map[id := t]
    ensures Ambiguous(d) <==> Unbound(d, id, t)
  {
    assert d.transactions.Keys == {id} && |d.transactions| == |d.transactions.Keys|;
  }

  /** `_recover_interrupted`: a disk no deployment left is not guessed at; of a sound one, a
      recovery that runs to its end brings stable and the whole cache back to what they were
      before the transaction, with nothing of it left. Undisturbed, it does so exactly on the
      disks that can be recovered; disturbed, it leaves a disk that can be started on again. */
  method RecoverInterrupted(fs: FileSystem, rd: Reader) returns (r: Outcome<bool>)
    modifies fs
    ensures old(Sound(rd, fs.disk)) ==> Sound(rd, fs.disk) && Committed(fs.disk) == old(Committed(fs.disk))
    ensures r.Value? ==> Quiet(fs.disk)
    ensures old(Sound(rd, fs.disk)) && r.Value? ==> LiveOf(fs.disk) == old(Committed(fs.disk))
    ensures r.Value? ==> (r.value <==> old(fs.disk.transactions) != map[])
    ensures old(Ambiguous(fs.disk)) ==> r.Raised? && fs.disk == old(fs.disk)
    ensures old(fs.Fair()) ==> fs.Fair()
    ensures old(fs.Fair() && Sound(rd, fs.disk)) ==> (r.Value? <==> old(Quiet(fs.disk) || RecoverableDisk(fs.disk)))
    ensures old(Sound(rd, fs.disk) && CanStartAgain(fs.disk)) ==> CanStartAgain(fs.disk)
    ensures old(Sound(rd, fs.disk) && InWindow(fs.disk)) ==> !r.Value? && fs.disk == old(fs.disk)
    ensures old(Sound(rd, fs.disk) && exists id <- fs.disk.transactions :: CopyBreaks(fs.disk, id, fs.disk.transactions[id], Head(fs.weather)))
            ==> InWindow(fs.disk)
  {
    var ids := fs.disk.transactions.Keys;
    if |ids| > 1 {
      return Raised;
    }
    if ids == {} {
      assert fs.disk.transactions == map[];
      return if fs.disk.switches == map[] then Value(false) else Raised;
    }
    var id :| id in ids;
    OnlyId(fs.disk, id);
    ghost var d, t := fs.disk, fs.disk.transactions[id];
    AmbiguousIs(d, id, t);
    if fs.disk.transactions[id].manifest.None? {
      return Raised;
    }
    if !(fs.disk.switches.Keys <= BoundSwitches(fs.disk.transactions[id].manifest.value)) {
      return Raised;
    }
    var done := RecoverTransaction(fs, rd, id);
    StartUpRecovered(rd, d, id, t, fs.disk, done);
    if fs.disk.transactions == d.transactions {
      SameTransaction(fs.disk, id, t);
    }
    var _ :- done;
    AllBoundRemoved(rd, d, id, t, fs.disk);
    r := Value(true);
  }

  lemma AllBoundRemoved(rd: Reader, d: Disk, id: string, t: Transaction, d': Disk)
    requires d.transactions == map[id := t] && Recovered(rd, d, id, d', Value(())) && t.manifest.Some?
    requires d.switches.Keys <= BoundSwitches(t.manifest.value)
    ensures Quiet(d')
  {
  }

  lemma OnlyId(d: Disk, id: string)
    requires |d.transactions.Keys| <= 1 && id in d.transactions
    ensures d.transactions == map[id := d.transactions[id]]
  {
    assert |d.transactions.Keys - {id}| == 0;
    assert d.transactions.Keys == {id};
  }

  lemma StartUpRecovered(rd: Reader, d: Disk, id: string, t: Transaction, d': Disk, r: Outcome<()>)
    requires d.transactions == map[id := t] && Recovered(rd, d, id, d', r)
    ensures Sound(rd, d) ==> Sound(rd, d') && Committed(d') == Committed(d) && (r.Value? ==> Quiet(d') && LiveOf(d') == Committed(d))
    ensures RecoverableDisk(d) <==> Recoverable(d, id, t)
    ensures Sound(rd, d) && CanStartAgain(d) ==> CanStartAgain(d')
    ensures Sound(rd, d) && InWindow(d) ==> !r.Value? && d' == d
    ensures Sound(rd, d) ==> SoundTransaction(rd, d, id, t)
  {
    SameTransaction(d, id, t);
    if Sound(rd, d) {
      SoundIsSingle(rd, d, id);
      RecoveredIsSound(rd, d, id, d', r);
      if CanStartAgain(d) {
        RecoveredCanStartAgain(rd, d, id, d', r);
      }
    }
  }
}
