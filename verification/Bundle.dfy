/** scripts/runtime_bundle.py, and the tree digests of dev_deploy.py: a published bundle is the
    projection of a source tree on its own sorted allowlist. */
module Bundle {
  import opened Basics

  /** What a tree holds at a path: a regular file, or anything a digest refuses. */
  datatype Node = File(mode: nat, content: string) | Foreign

  /** Files by relative path; directories that hold no file are not part of a tree. */
  type Tree = map<string, Node>

  datatype Entry = Entry(path: string, mode: nat, content: string)

  /** The hash of a sequence of framed entries, taken to tell different sequences apart. */
  datatype Digest = Digest(entries: seq<Entry>)

  /** How the two JSON files of a bundle are read: the allowlist, and the plugin's version. */
  datatype Reader = Reader(allowlist: string -> Option<seq<string>>, version: string -> Option<string>)

  const MANIFEST := ".codex-plugin/runtime-bundle.json"
  const PLUGIN := ".codex-plugin/plugin.json"

  predicate Plain(t: Tree) { forall p <- t :: t[p].File? }

  // ----- sorted listings -------------------------------------------------------------------

  predicate Before(a: string, b: string) { NotAfter(a, b) && a != b }

  predicate Ascending(s: seq<string>) { forall i, j :: 0 <= i < j < |s| ==> Before(s[i], s[j]) }

  ghost function Elements(s: seq<string>): set<string> { set x | x in s }

  ghost predicate IsListing(ps: seq<string>, s: set<string>) { Ascending(ps) && Elements(ps) == s }

  predicate FirstOf(m: string, s: set<string>) { m in s && forall x <- s :: NotAfter(m, x) }

  lemma FirstExists(s: set<string>)
    requires s != {}
    ensures exists m <- s :: FirstOf(m, s)
  {
    var x :| x in s;
    OrderIsTotal(x, x);
    if s == {x} {
      assert FirstOf(x, s);
    } else {
      FirstExists(s - {x});
      var m :| m in s - {x} && FirstOf(m, s - {x});
      OrderIsTotal(x, m);
      if NotAfter(x, m) {
        forall y | y in s ensures NotAfter(x, y) {
          if y != x {
            OrderIsTransitive(x, m, y);
          }
        }
        assert FirstOf(x, s);
      } else {
        assert FirstOf(m, s);
      }
    }
  }

  lemma ListingHead(ps: seq<string>, s: set<string>)
    requires IsListing(ps, s) && ps != []
    ensures FirstOf(ps[0], s) && IsListing(ps[1..], s - {ps[0]})
  {
    OrderIsTotal(ps[0], ps[0]);
    assert ps == [ps[0]] + ps[1..];
    assert Elements(ps) == {ps[0]} + Elements(ps[1..]);
    assert ps[0] !in Elements(ps[1..]);
  }

  lemma EmptyListing(ps: seq<string>, s: set<string>)
    requires IsListing(ps, s)
    ensures ps == [] <==> s == {}
  {
    if ps != [] {
      assert ps[0] in s;
    }
  }

  /** A set is listed in order in only one way. */
  lemma {:induction false} ListingIsUnique(a: seq<string>, b: seq<string>, s: set<string>)
    requires IsListing(a, s) && IsListing(b, s)
    ensures a == b
  {
    EmptyListing(a, s);
    EmptyListing(b, s);
    if a != [] {
      ListingHead(a, s);
      ListingHead(b, s);
      OrderIsAntisymmetric(a[0], b[0]);
      ListingIsUnique(a[1..], b[1..], s - {a[0]});
      assert a == [a[0]] + a[1..] && b == [b[0]] + b[1..];
    }
  }

  lemma ListingGrows(ps: seq<string>, done: set<string>, rest: set<string>, m: string)
    requires IsListing(ps, done) && done !! rest && FirstOf(m, rest)
    requires forall a, b :: a in done && b in rest ==> NotAfter(a, b)
    ensures IsListing(ps + [m], done + {m})
    ensures forall a, b :: a in done + {m} && b in rest - {m} ==> NotAfter(a, b)
  {
  }

  /** `sorted` of distinct paths. */
  method Sort(s: set<string>) returns (ps: seq<string>)
    ensures IsListing(ps, s)
  {
    ps := [];
    var rest := s;
    ghost var done := {};
    while rest != {}
      invariant IsListing(ps, done) && done + rest == s && done !! rest
      invariant forall a, b :: a in done && b in rest ==> NotAfter(a, b)
      decreases |rest|
    {
      FirstExists(rest);
      var m :| m in rest && FirstOf(m, rest);
      ListingGrows(ps, done, rest, m);
      ps := ps + [m];
      rest := rest - {m};
      done := done + {m};
    }
    assert done == s;
  }

  lemma ListingExists(s: set<string>)
    ensures exists ps :: IsListing(ps, s)
  {
    if s == {} {
      assert IsListing([], s);
    } else {
      FirstExists(s);
      var m :| m in s && FirstOf(m, s);
      ListingExists(s - {m});
      var rest :| IsListing(rest, s - {m});
      var ps := [m] + rest;
      assert Elements(ps) == {m} + Elements(rest);
      forall i, j | 0 <= i < j < |ps| ensures Before(ps[i], ps[j]) {
        assert rest[j - 1] in Elements(rest);
      }
      assert IsListing(ps, s);
    }
  }

  ghost function Listing(s: set<string>): seq<string> {
    ListingExists(s);
    var ps :| IsListing(ps, s);
    ps
  }

  lemma ListingLists(s: set<string>)
    ensures IsListing(Listing(s), s)
    ensures forall p <- Listing(s) :: p in s
  {
  }

  // ----- digests -----------------------------------------------------------------------------

  predicate HasFiles(t: Tree, files: seq<string>) { forall f <- files :: f in t && t[f].File? }

  function EntryOf(t: Tree, path: string): Entry
    requires path in t && t[path].File?
  {
    Entry(path, t[path].mode, t[path].content)
  }

  function Entries(t: Tree, files: seq<string>): seq<Entry>
    requires HasFiles(t, files)
  {
    seq(|files|, i requires 0 <= i < |files| => EntryOf(t, files[i]))
  }

  /** `_safe_tree_digest`: every file of a tree, sorted by path; none of an empty one. */
  ghost function SafeTreeDigest(t: Tree): Option<Digest> {
    if t == map[] || !Plain(t) then None
    else
      ListingLists(t.Keys);
      Some(Digest(Entries(t, Listing(t.Keys))))
  }

  /** A path as the allowlist must spell it. The single dot passes the code's own check; no
      file is ever named so. */
  predicate Canonical(path: string) {
    && path != "" && path != "." && '\\' !in path
    && !BadSegment(path, 0, 0)
  }

  /** `runtime_files`. */
  function RuntimeFiles(rd: Reader, t: Tree): Option<seq<string>> {
    if MANIFEST !in t || !t[MANIFEST].File? then None
    else
      match rd.allowlist(t[MANIFEST].content)
      case None => None
      case Some(files) =>
        if (forall f <- files :: Canonical(f)) && files != [] && Ascending(files) && MANIFEST in files && HasFiles(t, files)
        then Some(files)
        else None
  }

  /** `bundle_digest`: the allowlisted files only. */
  function BundleDigest(rd: Reader, t: Tree): Option<Digest> {
    match RuntimeFiles(rd, t)
    case None => None
    case Some(files) => Some(Digest(Entries(t, files)))
  }

  /** `verify_runtime_bundle`: exactly the allowlisted files. */
  ghost function VerifyRuntimeBundle(rd: Reader, t: Tree): Option<Digest> {
    match RuntimeFiles(rd, t)
    case None => None
    case Some(files) => if t.Keys == Elements(files) then Some(Digest(Entries(t, files))) else None
  }

  datatype Blob = Blob(mode: string, kind: string, content: string)

  type Commit = map<string, Blob>

  function OwnerMayExecute(mode: nat): bool { mode / 0x40 % 2 == 1 }

  predicate IsCommittedFile(c: Commit, path: string) {
    path in c && c[path].mode in {"100644", "100755"} && c[path].kind == "blob"
  }

  predicate MatchesCommit(c: Commit, t: Tree, path: string)
    requires path in t && t[path].File?
  {
    && IsCommittedFile(c, path) && t[path].content == c[path].content
    && (OwnerMayExecute(t[path].mode) <==> c[path].mode == "100755")
  }

  /** `_commit_bundle_digest`: the allowlisted files, each compared with the commit. */
  function CommitBundleDigest(rd: Reader, c: Commit, t: Tree): Option<Digest> {
    match RuntimeFiles(rd, t)
    case None => None
    case Some(files) =>
      if !IsCommittedFile(c, MANIFEST) || t[MANIFEST].content != c[MANIFEST].content
         || rd.allowlist(c[MANIFEST].content) != Some(files)
      then None
      else if forall f <- files :: MatchesCommit(c, t, f) then Some(Digest(Entries(t, files)))
      else None
  }

  // ----- the loops of the source -----------------------------------------------------------

  /** The hash loop all four digests share. */
  method Feed(t: Tree, files: seq<string>) returns (d: Digest)
    requires HasFiles(t, files)
    ensures d == Digest(Entries(t, files))
  {
    var entries := [];
    for i := 0 to |files|
      invariant entries == Entries(t, files)[..i]
    {
      entries := entries + [EntryOf(t, files[i])];
    }
    d := Digest(entries);
  }

  method DigestTree(t: Tree) returns (r: Option<Digest>)
    ensures r == SafeTreeDigest(t)
  {
    if !Plain(t) {
      return None;
    }
    var paths := Sort(t.Keys);
    ListingLists(t.Keys);
    ListingIsUnique(paths, Listing(t.Keys), t.Keys);
    assert forall f <- paths :: f in Elements(paths);
    if paths == [] {
      return None;
    }
    assert t != map[] by { assert paths[0] in t; }
    var d := Feed(t, paths);
    r := Some(d);
  }

  method VerifyBundle(rd: Reader, t: Tree) returns (r: Option<Digest>)
    ensures r == VerifyRuntimeBundle(rd, t)
  {
    var found := RuntimeFiles(rd, t);
    if found.None? {
      return None;
    }
    var files := found.value;
    var allowed := set f | f in files;
    var actual := t.Keys;
    if actual != allowed {
      return None;
    }
    var d := Feed(t, files);
    r := Some(d);
  }

  method DigestAgainstCommit(rd: Reader, c: Commit, t: Tree) returns (r: Option<Digest>)
    ensures r == CommitBundleDigest(rd, c, t)
  {
    var found := RuntimeFiles(rd, t);
    if found.None? || !IsCommittedFile(c, MANIFEST) || t[MANIFEST].content != c[MANIFEST].content
       || rd.allowlist(c[MANIFEST].content) != found {
      return None;
    }
    var files := found.value;
    for i := 0 to |files|
      invariant forall f <- files[..i] :: MatchesCommit(c, t, f)
    {
      if !MatchesCommit(c, t, files[i]) {
        return None;
      }
    }
    assert files[..|files|] == files;
    var d := Feed(t, files);
    r := Some(d);
  }

  // ----- the digests agree -----------------------------------------------------------------

  lemma EntriesTell(a: Tree, p: seq<string>, b: Tree, q: seq<string>)
    requires HasFiles(a, p) && HasFiles(b, q) && Entries(a, p) == Entries(b, q)
    ensures p == q && forall f <- p :: a[f] == b[f]
  {
    assert |p| == |Entries(a, p)| == |Entries(b, q)| == |q|;
    forall i | 0 <= i < |p| ensures p[i] == q[i] && a[p[i]] == b[p[i]] {
      assert Entries(a, p)[i] == EntryOf(a, p[i]) && Entries(b, q)[i] == EntryOf(b, q[i]);
    }
  }

  /** A tree is known by its digest. */
  lemma SafeDigestTells(a: Tree, b: Tree)
    requires SafeTreeDigest(a).Some? && SafeTreeDigest(a) == SafeTreeDigest(b)
    ensures a == b
  {
    var p, q := Listing(a.Keys), Listing(b.Keys);
    ListingLists(a.Keys);
    ListingLists(b.Keys);
    EntriesTell(a, p, b, q);
    assert a.Keys == Elements(p) == Elements(q) == b.Keys;
    forall f | f in a ensures a[f] == b[f] {
      assert f in Elements(p);
    }
  }

  /** Wherever a bundle verifies, the allowlist digest is the digest of the whole tree. */
  lemma VerifiedDigestsAgree(rd: Reader, t: Tree)
    requires VerifyRuntimeBundle(rd, t).Some?
    ensures SafeTreeDigest(t) == VerifyRuntimeBundle(rd, t) == BundleDigest(rd, t)
    ensures Plain(t)
  {
    var files := RuntimeFiles(rd, t).value;
    ListingLists(t.Keys);
    ListingIsUnique(files, Listing(t.Keys), t.Keys);
    assert MANIFEST in t;
    forall p | p in t ensures t[p].File? {
      assert p in Elements(files);
    }
  }

  /** Where a tree matches the commit, the commit-bound digest is the allowlist digest. */
  lemma CommitDigestAgrees(rd: Reader, c: Commit, t: Tree)
    requires CommitBundleDigest(rd, c, t).Some?
    ensures CommitBundleDigest(rd, c, t) == BundleDigest(rd, t)
  {
  }

  /** The bundle a source publishes: its allowlisted files. */
  function Projection(rd: Reader, source: Tree): Tree
    requires RuntimeFiles(rd, source).Some?
  {
    map f | f in source && f in RuntimeFiles(rd, source).value :: source[f]
  }

  lemma ProjectedFiles(rd: Reader, source: Tree)
    requires RuntimeFiles(rd, source).Some?
    ensures var t, files := Projection(rd, source), RuntimeFiles(rd, source).value;
            && RuntimeFiles(rd, t) == Some(files) && t.Keys == Elements(files)
            && Entries(t, files) == Entries(source, files)
  {
  }

  /** The projection is the one tree that verifies with the source's digest: by that digest a
      tree is recognised as the published bundle and nothing else. */
  lemma BundleIsProjection(rd: Reader, source: Tree, t: Tree)
    requires BundleDigest(rd, source).Some?
    ensures RuntimeFiles(rd, source).Some?
    ensures VerifyRuntimeBundle(rd, t) == BundleDigest(rd, source) <==> t == Projection(rd, source)
    ensures SafeTreeDigest(t) == BundleDigest(rd, source) <==> t == Projection(rd, source)
  {
    var bundle := Projection(rd, source);
    ProjectedFiles(rd, source);
    VerifiedDigestsAgree(rd, bundle);
    if VerifyRuntimeBundle(rd, t) == BundleDigest(rd, source) {
      VerifiedDigestsAgree(rd, t);
      SafeDigestTells(t, bundle);
    }
    if SafeTreeDigest(t) == BundleDigest(rd, source) {
      SafeDigestTells(t, bundle);
    }
  }

  /** A projection matches a commit exactly when its source does. */
  lemma ProjectionMatchesCommit(rd: Reader, c: Commit, source: Tree)
    requires RuntimeFiles(rd, source).Some?
    ensures CommitBundleDigest(rd, c, Projection(rd, source)) == CommitBundleDigest(rd, c, source)
  {
    ProjectedFiles(rd, source);
  }

  // ----- what the readers accept ----------------------------------------------------------------

  /** A part of the path between two slashes, or an end and a slash. */
  ghost predicate IsSegment(path: string, i: nat, j: nat) {
    && i <= j <= |path| && (i == 0 || path[i - 1] == '/') && (j == |path| || path[j] == '/')
    && forall k :: i <= k < j ==> path[k] != '/'
  }

  lemma {:induction false} BadSegmentIs(path: string, start: nat, at: nat)
    requires start <= at <= |path| && (start == 0 || path[start - 1] == '/') && forall k :: start <= k < at ==> path[k] != '/'
    ensures BadSegment(path, start, at)
            <==> exists i: nat, j: nat :: start <= i && IsSegment(path, i, j) && path[i..j] in {"", ".", ".."}
    decreases |path| - at
  {
    if at < |path| && path[at] != '/' {
      BadSegmentIs(path, start, at + 1);
    } else {
      assert IsSegment(path, start, at);
      if at < |path| {
        BadSegmentIs(path, at + 1, at + 1);
      }
      forall i: nat, j: nat | start <= i && IsSegment(path, i, j) && i <= at ensures i == start && j == at {
      }
    }
  }

  /** Every path of an accepted allowlist is canonical: relative, without a backslash, and with no
      empty or dotted segment. */
  lemma AllowlistIsCanonical(rd: Reader, t: Tree, path: string)
    requires RuntimeFiles(rd, t).Some? && path in RuntimeFiles(rd, t).value
    ensures path != "" && path[0] != '/' && '\\' !in path
    ensures forall i: nat, j: nat :: IsSegment(path, i, j) ==> path[i..j] !in {"", ".", ".."}
  {
    BadSegmentIs(path, 0, 0);
  }

  /** An allowlist is accepted exactly when the manifest, a regular file, holds it, it lists itself
      and regular files only, by canonical paths, in strictly ascending order. */
  lemma AllowlistIsExact(rd: Reader, t: Tree, files: seq<string>)
    ensures RuntimeFiles(rd, t) == Some(files)
            <==> var own := ".codex-plugin/runtime-bundle.json";
                 && own in t && t[own].File? && rd.allowlist(t[own].content) == Some(files) && own in files
                 && (forall i, j :: 0 <= i < j < |files| ==> ComesFirst(files[i], files[j]))
                 && (forall f <- files :: f in t && t[f].File? && f != "" && f != "." && '\\' !in f)
                 && (forall f <- files, i: nat, j: nat :: IsSegment(f, i, j) ==> f[i..j] !in {"", ".", ".."})
  {
    forall f: string ensures f != "" ==>
        (BadSegment(f, 0, 0) <==> exists i: nat, j: nat :: IsSegment(f, i, j) && f[i..j] in {"", ".", ".."}) {
      if f != "" {
        BadSegmentIs(f, 0, 0);
      }
    }
    forall a: string, b: string ensures Before(a, b) <==> ComesFirst(a, b) {
      OrderIsLexicographic(a, b);
    }
  }

  /** The digest of a whole tree is that of its files in ascending order, with mode and content. */
  lemma SafeDigestIsExact(t: Tree, ps: seq<string>)
    requires IsListing(ps, t.Keys)
    ensures SafeTreeDigest(t).Some? <==> ps != [] && forall p <- ps :: t[p].File?
    ensures SafeTreeDigest(t).Some? ==>
              SafeTreeDigest(t).value.entries
              == seq(|ps|, i requires 0 <= i < |ps| && t[ps[i]].File? => Entry(ps[i], t[ps[i]].mode, t[ps[i]].content))
  {
    ListingLists(t.Keys);
    ListingIsUnique(ps, Listing(t.Keys), t.Keys);
    EmptyListing(ps, t.Keys);
    assert forall p <- ps :: p in Elements(ps);
    assert forall p <- t :: p in Elements(ps);
  }

  /** The commit-bound digest exists exactly when the committed manifest is the tree's own, and
      every allowlisted file is a regular blob of the commit with the same bytes and the owner's
      executable bit as the commit has it. */
  lemma CommitDigestIsExact(rd: Reader, c: Commit, t: Tree)
    ensures CommitBundleDigest(rd, c, t).Some?
            <==> && RuntimeFiles(rd, t).Some?
                 && forall path <- RuntimeFiles(rd, t).value ::
                      && path in c && c[path].kind == "blob" && t[path].content == c[path].content
                      && (c[path].mode == "100644" || c[path].mode == "100755")
                      && (t[path].mode / 64 % 2 == 1 <==> c[path].mode == "100755")
  {
  }
}
