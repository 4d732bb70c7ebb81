/** scripts/runtime_bundle.py: `stage_runtime_bundle`, which writes the projection of a source
    tree file by file and removes what it wrote if it cannot finish. */
module BundleStaging {
  import opened Basics
  import opened Bundle
  import opened Disk

  /** Only the switch path `s` differs, and what it holds are regular files. */
  predicate OnlyAt(d: Disk, d': Disk, s: Switch) {
    && d' == d.(switches := Set(d.switches, s, Get(d'.switches, s)))
    && (s in d'.switches ==> Plain(d'.switches[s]))
  }

  function Sub(source: Tree, files: seq<string>): Tree { map f | f in source && f in files :: source[f] }

  lemma SubGrows(source: Tree, files: seq<string>, i: nat)
    requires i < |files| && HasFiles(source, files)
    ensures Sub(source, files[..i])[files[i] := source[files[i]]] == Sub(source, files[..i + 1])
    ensures Plain(Sub(source, files[..i])) && Plain(Sub(source, files[..i + 1]))
  {
  }

  method StageFile(fs: FileSystem, source: Tree, files: seq<string>, i: nat, s: Switch) returns (r: Outcome<()>)
    requires i < |files| && HasFiles(source, files) && Get(fs.disk.switches, s) == Some(Sub(source, files[..i]))
    modifies fs
    ensures OnlyAt(old(fs.disk), fs.disk, s)
    ensures r.Value? ==> Get(fs.disk.switches, s) == Some(Sub(source, files[..i + 1]))
    ensures old(fs.Fair()) ==> fs.Fair() && r.Value?
  {
    SubGrows(source, files, i);
    var path := files[i];
    var _ :- fs.Gradually(AtSwitch(s), Some(fs.disk.switches[s][path := source[path]]));
    r := if fs.disk.switches[s][path] == source[path] then Value(()) else Raised;
  }

  lemma OnlyAtTwice(a: Disk, b: Disk, c: Disk, s: Switch)
    requires OnlyAt(a, b, s) && OnlyAt(b, c, s)
    ensures OnlyAt(a, c, s)
  {
  }

  method StageFiles(fs: FileSystem, source: Tree, files: seq<string>, s: Switch) returns (r: Outcome<()>)
    requires HasFiles(source, files) && Get(fs.disk.switches, s) == Some(map[])
    modifies fs
    ensures OnlyAt(old(fs.disk), fs.disk, s)
    ensures r.Value? ==> Get(fs.disk.switches, s) == Some(Sub(source, files))
    ensures old(fs.Fair()) ==> fs.Fair() && r.Value?
  {
    assert Sub(source, files[..0]) == map[];
    for i := 0 to |files|
      invariant OnlyAt(old(fs.disk), fs.disk, s) && Get(fs.disk.switches, s) == Some(Sub(source, files[..i]))
      invariant old(fs.Fair()) ==> fs.Fair()
    {
      ghost var before := fs.disk;
      var copied := StageFile(fs, source, files, i, s);
      OnlyAtTwice(old(fs.disk), before, fs.disk, s);
      var _ :- copied;
    }
    assert files[..|files|] == files;
    r := Value(());
  }

  method DigestBundle(rd: Reader, t: Tree) returns (r: Option<Digest>)
    ensures r == BundleDigest(rd, t)
  {
    var files := RuntimeFiles(rd, t);
    if files.None? {
      return None;
    }
    var d := Feed(t, files.value);
    r := Some(d);
  }

  /** The body of the try: copy, then compare the digest of the source with the copy's. */
  method FillStaging(fs: FileSystem, rd: Reader, source: Tree, files: seq<string>, s: Switch) returns (r: Outcome<Digest>)
    requires RuntimeFiles(rd, source) == Some(files) && s !in fs.disk.switches
    modifies fs
    ensures OnlyAt(old(fs.disk), fs.disk, s)
    ensures r.Value? ==> Get(fs.disk.switches, s) == Some(Projection(rd, source)) && BundleDigest(rd, source) == Some(r.value)
    ensures old(fs.Fair()) ==> fs.Fair() && r.Value?
  {
    ghost var before := fs.disk;
    assert Set(fs.disk.switches, s, None) == fs.disk.switches;
    var _ :- fs.Atomically(fs.disk.(switches := fs.disk.switches[s := map[]]));
    ghost var made := fs.disk;
    var copied := StageFiles(fs, source, files, s);
    OnlyAtTwice(before, made, fs.disk, s);
    var _ :- copied;
    BundleIsProjection(rd, source, Projection(rd, source));
    assert Sub(source, files) == Projection(rd, source);
    var expected := DigestBundle(rd, source);
    var staged := VerifyBundle(rd, fs.disk.switches[s]);
    r := if expected.Some? && expected == staged then Value(staged.value) else Raised;
  }

  /** Success means the target holds exactly the projection; otherwise what was written is
      removed, unless the removal fails as well. */
  method StageRuntimeBundle(fs: FileSystem, rd: Reader, source: Tree, s: Switch) returns (r: Outcome<Digest>)
    modifies fs
    ensures r.Value? ==> s !in old(fs.disk).switches && RuntimeFiles(rd, source).Some?
    ensures fs.disk == old(fs.disk) || (s !in old(fs.disk).switches && OnlyAt(old(fs.disk), fs.disk, s))
    ensures r.Value? ==> Get(fs.disk.switches, s) == Some(Projection(rd, source)) && BundleDigest(rd, source) == Some(r.value)
    ensures old(fs.Fair()) ==> fs.Fair() && (r.Value? <==> s !in old(fs.disk).switches && RuntimeFiles(rd, source).Some?)
  {
    var files := RuntimeFiles(rd, source);
    if files.None? || s in fs.disk.switches {
      return Raised;
    }
    r := FillStaging(fs, rd, source, files.value, s);
    if r.Raised? && s in fs.disk.switches {
      var removed := fs.Gradually(AtSwitch(s), None);
      if removed.Crashed? {
        return Crashed;
      }
    }
  }
}
