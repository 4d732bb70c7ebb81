/** The directories a deployment works on, and the file operations of dev_deploy.py with
    everything that may go wrong in them. */
module Disk {
  import opened Basics
  import opened Bundle

  type Cache = map<string, Tree>

  /** The three sibling directories of stable that carry a transaction's id. */
  datatype Switch = Staging(id: string) | Backup(id: string) | Recovery(id: string)

  datatype State = SnapshotStarted | SnapshotComplete | StageComplete | StableActivated | NativeInstallReturned

  type Facts = map<string, Digest>

  datatype Manifest = Manifest(
    transaction_id: string, state: State, expected_version: string, source_bundle_digest: Digest,
    pre_stable_digest: Digest, pre_caches: Facts, staging_path: Switch, backup_path: Switch, recovery_path: Switch)

  /** A transaction directory: its manifest, once written, and the two snapshots. */
  datatype Transaction = Transaction(manifest: Option<Manifest>, stable: Option<Tree>, cache: Option<Cache>)

  datatype Disk = Disk(stable: Option<Tree>, switches: map<Switch, Tree>, cache: Cache, transactions: map<string, Transaction>)

  /** What a deployment is about. */
  datatype Live = Live(stable: Option<Tree>, cache: Cache)

  function LiveOf(d: Disk): Live { Live(d.stable, d.cache) }

  // ----- outcomes and the weather ---------------------------------------------------------

  /** A result, an exception the caller may handle, or the end of the process. */
  datatype Outcome<+T> = Value(value: T) | Raised | Crashed {
    predicate IsFailure() { !Value? }
    function PropagateFailure<U>(): Outcome<U> requires IsFailure() { if Raised? then Raised else Crashed }
    function Extract(): T requires !IsFailure() { value }
  }

  type PartialTree = t: Tree | Plain(t)

  /** One operation's fate: it works, or it is struck, with or without its effect, by an error
      or by a crash, leaving `left` where it was copying or deleting. */
  datatype Weather = Calm | Strike(crash: bool, applied: bool, left: Option<PartialTree>)

  function Head(ws: seq<Weather>): Weather { if ws == [] then Calm else ws[0] }

  function Tail(ws: seq<Weather>): seq<Weather> { if ws == [] then [] else ws[1..] }

  function Fate(w: Weather): Outcome<()> {
    match w
    case Calm => Value(())
    case Strike(crash, _, _) => if crash then Crashed else Raised
  }

  // ----- places -----------------------------------------------------------------------------

  datatype Place = Stable | AtSwitch(switch: Switch) | InCache(name: string) | SavedStable(id: string) | SavedEntry(id: string, name: string)

  function Get<K, V>(m: map<K, V>, k: K): Option<V> { if k in m then Some(m[k]) else None }

  function Set<K, V>(m: map<K, V>, k: K, v: Option<V>): map<K, V> {
    match v case None => m - {k} case Some(x) => m[k := x]
  }

  function Read(d: Disk, p: Place): Option<Tree> {
    match p
    case Stable => d.stable
    case AtSwitch(s) => Get(d.switches, s)
    case InCache(name) => Get(d.cache, name)
    case SavedStable(id) => if id in d.transactions then d.transactions[id].stable else None
    case SavedEntry(id, name) =>
      if id in d.transactions && d.transactions[id].cache.Some? then Get(d.transactions[id].cache.value, name) else None
  }

  function Put(d: Disk, p: Place, t: Option<Tree>): Disk {
    match p
    case Stable => d.(stable := t)
    case AtSwitch(s) => d.(switches := Set(d.switches, s, t))
    case InCache(name) => d.(cache := Set(d.cache, name, t))
    case SavedStable(id) =>
      if id in d.transactions then d.(transactions := d.transactions[id := d.transactions[id].(stable := t)]) else d
    case SavedEntry(id, name) =>
      if id in d.transactions && d.transactions[id].cache.Some?
      then d.(transactions := d.transactions[id := d.transactions[id].(cache := Some(Set(d.transactions[id].cache.value, name, t)))])
      else d
  }

  lemma SetSame<K, V>(m: map<K, V>, k: K)
    ensures Set(m, k, Get(m, k)) == m
  {
  }

  lemma PutSame(d: Disk, p: Place)
    ensures Put(d, p, Read(d, p)) == d
  {
    match p
    case Stable =>
    case AtSwitch(s) => SetSame(d.switches, s);
    case InCache(name) => SetSame(d.cache, name);
    case SavedStable(id) =>
    case SavedEntry(id, name) =>
      if id in d.transactions && d.transactions[id].cache.Some? {
        SetSame(d.transactions[id].cache.value, name);
      }
  }

  // ----- versions and cache facts --------------------------------------------------------------

  /** `_version_name`: one directory name. */
  predicate IsVersionName(v: string) { v != "" && v != "." && v != ".." && '/' !in v }

  /** `manifest_version`. */
  function VersionOf(rd: Reader, t: Tree): Option<string> {
    if PLUGIN !in t || !t[PLUGIN].File? then None
    else
      match rd.version(t[PLUGIN].content)
      case None => None
      case Some(v) => if IsVersionName(Strip(v)) then Some(Strip(v)) else None
  }

  /** The version of a tree is what its plugin file says, stripped, where that is one directory name. */
  lemma VersionIsExact(rd: Reader, t: Tree, v: string)
    ensures VersionOf(rd, t) == Some(v)
            <==> var own := ".codex-plugin/plugin.json";
                 && own in t && t[own].File? && rd.version(t[own].content).Some? && Strip(rd.version(t[own].content).value) == v
                 && v !in {"", ".", ".."} && '/' !in v
  {
  }

  ghost predicate GoodCacheEntry(rd: Reader, name: string, t: Tree) {
    VersionOf(rd, t) == Some(name) && SafeTreeDigest(t).Some?
  }

  ghost predicate GoodCache(rd: Reader, cache: Cache) { forall name <- cache :: GoodCacheEntry(rd, name, cache[name]) }

  ghost function SumOf(t: Tree): Digest { if SafeTreeDigest(t).Some? then SafeTreeDigest(t).value else Digest([]) }

  ghost function Sums(cache: Cache): Facts { map name | name in cache :: SumOf(cache[name]) }

  /** `_cache_facts`: the digest of every entry, each named by its own version. */
  ghost function CacheFacts(rd: Reader, cache: Cache): Option<Facts> {
    if GoodCache(rd, cache) then Some(Sums(cache)) else None
  }

  lemma EntryTells(rd: Reader, name: string, a: Tree, b: Tree)
    requires GoodCacheEntry(rd, name, a) && GoodCacheEntry(rd, name, b) && SumOf(a) == SumOf(b)
    ensures a == b
  {
    SafeDigestTells(a, b);
  }

  /** A cache is known by its facts. */
  lemma FactsTell(rd: Reader, a: Cache, b: Cache)
    requires GoodCache(rd, a) && GoodCache(rd, b) && Sums(a) == Sums(b)
    ensures a == b
  {
    assert a.Keys == Sums(a).Keys && b.Keys == Sums(b).Keys;
    forall name | name in a ensures a[name] == b[name] {
      assert Sums(a)[name] == Sums(b)[name];
      EntryTells(rd, name, a[name], b[name]);
    }
  }

  method ReadEntry(rd: Reader, name: string, t: Tree) returns (r: Option<Digest>)
    ensures r == if GoodCacheEntry(rd, name, t) then Some(SumOf(t)) else None
  {
    if VersionOf(rd, t) != Some(name) {
      return None;
    }
    r := DigestTree(t);
  }

  ghost predicate FactsSoFar(rd: Reader, cache: Cache, done: set<string>, facts: Facts) {
    && done <= cache.Keys && facts.Keys == done
    && forall name <- done :: GoodCacheEntry(rd, name, cache[name]) && SumOf(cache[name]) == facts[name]
  }

  lemma OneMoreFact(rd: Reader, cache: Cache, done: set<string>, facts: Facts, name: string)
    requires FactsSoFar(rd, cache, done, facts) && name in cache && GoodCacheEntry(rd, name, cache[name])
    ensures FactsSoFar(rd, cache, done + {name}, facts[name := SumOf(cache[name])])
  {
  }

  lemma AllFacts(rd: Reader, cache: Cache, facts: Facts)
    requires FactsSoFar(rd, cache, cache.Keys, facts)
    ensures CacheFacts(rd, cache) == Some(facts)
  {
    assert facts == Sums(cache);
  }

  method ReadCacheFacts(rd: Reader, cache: Cache) returns (r: Option<Facts>)
    ensures r == CacheFacts(rd, cache)
  {
    var facts: Facts := map[];
    var rest := cache.Keys;
    while rest != {}
      invariant rest <= cache.Keys && FactsSoFar(rd, cache, cache.Keys - rest, facts)
      decreases |rest|
    {
      var name :| name in rest;
      var digest := ReadEntry(rd, name, cache[name]);
      if digest.None? {
        assert !GoodCache(rd, cache);
        return None;
      }
      OneMoreFact(rd, cache, cache.Keys - rest, facts, name);
      assert cache.Keys - rest + {name} == cache.Keys - (rest - {name});
      facts := facts[name := digest.value];
      rest := rest - {name};
    }
    assert cache.Keys - rest == cache.Keys;
    AllFacts(rd, cache, facts);
    r := Some(facts);
  }

  // ----- the file system ---------------------------------------------------------------------

  class FileSystem {
    var disk: Disk
    var weather: seq<Weather>

    constructor (disk: Disk, weather: seq<Weather>)
      ensures this.disk == disk && this.weather == weather
    {
      this.disk := disk;
      this.weather := weather;
    }

    predicate Fair() reads this`weather { forall w <- weather :: w.Calm? }

    method Next() returns (w: Weather)
      modifies this`weather
      ensures w == Head(old(weather)) && weather == Tail(old(weather))
      ensures old(Fair()) ==> Fair() && w.Calm?
    {
      w := Head(weather);
      weather := Tail(weather);
    }

    /** A rename, a mkdir, or one of the two deletions taken to be atomic: an error means
        nothing happened; a crash strikes before or after. */
    method Atomically(next: Disk) returns (r: Outcome<()>)
      modifies this
      ensures r.Value? ==> disk == next
      ensures r.Raised? ==> disk == old(disk)
      ensures disk == old(disk) || disk == next
      ensures r == Fate(Head(old(weather))) && weather == Tail(old(weather))
      ensures Head(old(weather)).Strike? && Head(old(weather)).crash && Head(old(weather)).applied ==> disk == next
      ensures old(Fair()) ==> Fair() && r.Value?
    {
      var w := Next();
      match w {
        case Calm =>
          disk := next;
          r := Value(());
        case Strike(crash, applied, _) =>
          if crash && applied {
            disk := next;
          }
          r := if crash then Crashed else Raised;
      }
    }

    /** An atomic write followed by a directory sync: the error may follow the effect. */
    method AtomicallySynced(next: Disk) returns (r: Outcome<()>)
      modifies this
      ensures r.Value? ==> disk == next
      ensures disk == old(disk) || disk == next
      ensures old(Fair()) ==> Fair() && r.Value?
    {
      var w := Next();
      match w {
        case Calm =>
          disk := next;
          r := Value(());
        case Strike(crash, applied, _) =>
          if applied {
            disk := next;
          }
          r := if crash then Crashed else Raised;
      }
    }

    /** A copy or a deletion in one place: struck, it leaves any files there, or none. */
    method Gradually(p: Place, final: Option<Tree>) returns (r: Outcome<()>)
      modifies this
      ensures disk == Put(old(disk), p, Read(disk, p))
      ensures r.Value? ==> disk == Put(old(disk), p, final)
      ensures !r.Value? && Read(disk, p).Some? ==> Plain(Read(disk, p).value)
      ensures r == Fate(Head(old(weather))) && weather == Tail(old(weather))
      ensures Head(old(weather)).Strike? ==> disk == Put(old(disk), p, Head(old(weather)).left)
      ensures old(Fair()) ==> Fair() && r.Value?
    {
      var w := Next();
      match w {
        case Calm =>
          disk := Put(disk, p, final);
          r := Value(());
        case Strike(crash, _, left) =>
          disk := Put(disk, p, left);
          r := if crash then Crashed else Raised;
      }
    }

    /** `copytree`, which refuses an existing target. */
    method CopyTree(t: Tree, p: Place) returns (r: Outcome<()>)
      modifies this
      ensures disk == Put(old(disk), p, Read(disk, p))
      ensures r.Value? ==> disk == Put(old(disk), p, Some(t)) && Read(old(disk), p).None?
      ensures !r.Value? && disk != old(disk) && Read(disk, p).Some? ==> Plain(Read(disk, p).value)
      ensures Read(old(disk), p).None? ==> r == Fate(Head(old(weather))) && weather == Tail(old(weather))
      ensures Read(old(disk), p).None? && Head(old(weather)).Strike? ==> disk == Put(old(disk), p, Head(old(weather)).left)
      ensures old(Fair()) ==> Fair() && (r.Value? <==> Read(old(disk), p).None?)
    {
      PutSame(disk, p);
      if Read(disk, p).Some? {
        return Raised;
      }
      r := Gradually(p, Some(t));
    }
  }

  /** `_safe_tree_digest` of what may not be there. */
  method DigestOf(t: Option<Tree>) returns (r: Outcome<Digest>)
    ensures r == match DigestIn(t) case Some(d) => Value(d) case None => Raised
  {
    if t.None? {
      return Raised;
    }
    var d := DigestTree(t.value);
    r := if d.Some? then Value(d.value) else Raised;
  }

  ghost function DigestIn(t: Option<Tree>): Option<Digest> { if t.Some? then SafeTreeDigest(t.value) else None }
}
