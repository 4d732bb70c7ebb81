/** The bytes that are hashed for a tree (scripts/runtime_bundle.py, scripts/dev_deploy.py): path,
    mode and content of every file, each closed by a NUL. When they determine the tree, and when
    they do not. */
module HashedBytes {
  import opened Basics
  import opened Bundle

  // ----- frames ----------------------------------------------------------------------------------

  const NUL := '\0'

  /** `oct` of a mode. */
  function Octal(n: nat): string { "0o" + OctalDigits(n) }

  function OctalDigits(n: nat): string {
    if n < 8 then [('0' as int + n) as char] else OctalDigits(n / 8) + [('0' as int + n % 8) as char]
  }

  function Frame(e: Entry): string { e.path + [NUL] + Octal(e.mode) + [NUL] + e.content + [NUL] }

  /** What is fed to the hash. */
  function Stream(es: seq<Entry>): string {
    if es == [] then "" else Frame(es[0]) + Stream(es[1..])
  }

  lemma {:induction false} OctalDigitsForm(n: nat)
    ensures NUL !in OctalDigits(n) && OctalDigits(n) != "" && (n >= 8 ==> |OctalDigits(n)| > 1)
  {
    if n >= 8 {
      OctalDigitsForm(n / 8);
    }
  }

  lemma {:induction false} OctalDigitsTell(m: nat, n: nat)
    requires OctalDigits(m) == OctalDigits(n)
    ensures m == n
  {
    OctalDigitsForm(m);
    OctalDigitsForm(n);
    if m >= 8 && n >= 8 {
      var a, b := OctalDigits(m), OctalDigits(n);
      assert a[..|a| - 1] == OctalDigits(m / 8) && b[..|b| - 1] == OctalDigits(n / 8);
      OctalDigitsTell(m / 8, n / 8);
      assert a[|a| - 1] == b[|b| - 1];
    }
  }

  lemma FieldStart(a: string, more: string)
    ensures (a + [NUL] + more)[0] == if a == "" then NUL else a[0]
  {
  }

  /** A text without NUL is read back up to the first one. */
  lemma {:induction false} FieldTells(a: string, more: string, b: string, rest: string)
    requires NUL !in a && NUL !in b && a + [NUL] + more == b + [NUL] + rest
    ensures a == b && more == rest
  {
    if a != "" && b != "" {
      assert (a + [NUL] + more)[0] == a[0] && (b + [NUL] + rest)[0] == b[0];
      assert (a + [NUL] + more)[1..] == a[1..] + [NUL] + more;
      assert (b + [NUL] + rest)[1..] == b[1..] + [NUL] + rest;
      FieldTells(a[1..], more, b[1..], rest);
      assert a == [a[0]] + a[1..] && b == [b[0]] + b[1..];
    } else {
      FieldStart(a, more);
      FieldStart(b, rest);
      assert more == (a + [NUL] + more)[|a| + 1..] && rest == (b + [NUL] + rest)[|b| + 1..];
    }
  }

  predicate FreeOfNul(e: Entry) { NUL !in e.path && NUL !in e.content }

  lemma FrameTells(e: Entry, more: string, f: Entry, rest: string)
    requires FreeOfNul(e) && FreeOfNul(f) && Frame(e) + more == Frame(f) + rest
    ensures e == f && more == rest
  {
    OctalDigitsForm(e.mode);
    OctalDigitsForm(f.mode);
    var afterE, afterF := e.content + [NUL] + more, f.content + [NUL] + rest;
    assert Frame(e) + more == e.path + [NUL] + (Octal(e.mode) + [NUL] + afterE);
    assert Frame(f) + rest == f.path + [NUL] + (Octal(f.mode) + [NUL] + afterF);
    FieldTells(e.path, Octal(e.mode) + [NUL] + afterE, f.path, Octal(f.mode) + [NUL] + afterF);
    FieldTells(Octal(e.mode), afterE, Octal(f.mode), afterF);
    assert OctalDigits(e.mode) == Octal(e.mode)[2..] && OctalDigits(f.mode) == Octal(f.mode)[2..];
    OctalDigitsTell(e.mode, f.mode);
    FieldTells(e.content, more, f.content, rest);
  }

  lemma EmptyStream(es: seq<Entry>)
    ensures Stream(es) == "" <==> es == []
  {
  }

  predicate PathsFree(es: seq<Entry>) { forall e <- es :: NUL !in e.path }

  predicate AllFree(es: seq<Entry>) { forall e <- es :: FreeOfNul(e) }

  lemma StreamJoins(a: seq<Entry>, b: seq<Entry>)
    ensures Stream(a + b) == Stream(a) + Stream(b)
  {
    if a == [] {
      assert a + b == b;
    } else {
      assert (a + b)[0] == a[0] && (a + b)[1..] == a[1..] + b;
      StreamJoins(a[1..], b);
    }
  }

  // ----- sequences of the same length ------------------------------------------------------------

  function Nuls(s: string): nat { if s == "" then 0 else (if s[0] == NUL then 1 else 0) + Nuls(s[1..]) }

  lemma {:induction false} NulsAdd(a: string, b: string)
    ensures Nuls(a + b) == Nuls(a) + Nuls(b)
  {
    if a == "" {
      assert a + b == b;
    } else {
      assert (a + b)[0] == a[0] && (a + b)[1..] == a[1..] + b;
      NulsAdd(a[1..], b);
    }
  }

  lemma {:induction false} NoNuls(s: string)
    ensures Nuls(s) == 0 <==> NUL !in s
  {
    if s != "" {
      NoNuls(s[1..]);
      assert s == [s[0]] + s[1..];
    }
  }

  lemma FrameNuls(e: Entry)
    requires NUL !in e.path
    ensures Nuls(Frame(e)) == 3 + Nuls(e.content)
  {
    OctalDigitsForm(e.mode);
    NoNuls(e.path);
    NoNuls(Octal(e.mode));
    assert Nuls([NUL]) == 1;
    NulsAdd(e.path, [NUL]);
    NulsAdd(e.path + [NUL], Octal(e.mode));
    NulsAdd(e.path + [NUL] + Octal(e.mode), [NUL]);
    NulsAdd(e.path + [NUL] + Octal(e.mode) + [NUL], e.content);
    NulsAdd(e.path + [NUL] + Octal(e.mode) + [NUL] + e.content, [NUL]);
  }

  /** Each entry costs three NULs, and contents without NUL cost no more. */
  lemma {:induction false} StreamNuls(es: seq<Entry>)
    requires PathsFree(es)
    ensures Nuls(Stream(es)) >= 3 * |es|
    ensures Nuls(Stream(es)) == 3 * |es| <==> AllFree(es)
  {
    if es == [] {
      assert Stream(es) == "";
    } else {
      StreamNuls(es[1..]);
      FrameNuls(es[0]);
      NoNuls(es[0].content);
      NulsAdd(Frame(es[0]), Stream(es[1..]));
      assert es == [es[0]] + es[1..];
    }
  }

  lemma {:induction false} FreeStreamTells(a: seq<Entry>, b: seq<Entry>)
    requires AllFree(a) && AllFree(b) && Stream(a) == Stream(b)
    ensures a == b
  {
    EmptyStream(a);
    EmptyStream(b);
    if a != [] {
      assert FreeOfNul(a[0]) && FreeOfNul(b[0]);
      FrameTells(a[0], Stream(a[1..]), b[0], Stream(b[1..]));
      FreeStreamTells(a[1..], b[1..]);
      assert a == [a[0]] + a[1..] && b == [b[0]] + b[1..];
    }
  }

  /** Files without NUL bytes are told from any other files that are as many. */
  lemma SameCountTells(a: seq<Entry>, b: seq<Entry>)
    requires AllFree(a) && PathsFree(b) && |a| == |b| && Stream(a) == Stream(b)
    ensures a == b
  {
    StreamNuls(a);
    StreamNuls(b);
    FreeStreamTells(a, b);
  }

  // ----- exactly when the bytes determine the entries -------------------------------------------------

  /** The content holds the end of one frame and the beginning of another, for a path `p`. */
  predicate SplitsAt(content: string, x: string, p: string, n: nat, y: string) {
    NUL !in p && content == x + [NUL] + p + [NUL] + Octal(n) + [NUL] + y
  }

  ghost predicate Embeds(content: string) { exists x, p, n, y :: SplitsAt(content, x, p, n, y) }

  lemma MergedFrames(first: Entry, second: Entry)
    ensures Frame(Merged(first, second)) == Frame(first) + Frame(second)
  {
    var m := Merged(first, second).content;
    assert m + [NUL] == first.content + [NUL] + Frame(second);
  }

  /** One file that hashes like two. */
  function Merged(first: Entry, second: Entry): Entry {
    Entry(first.path, first.mode, first.content + [NUL] + second.path + [NUL] + Octal(second.mode) + [NUL] + second.content)
  }

  lemma FirstFrame(e: Entry, rest: seq<Entry>)
    ensures Stream([e] + rest) == Frame(e) + Stream(rest)
  {
    assert ([e] + rest)[1..] == rest;
  }

  lemma Regroup(a: string, b: string, c: string)
    ensures a + (b + c) == (a + b) + c
  {
  }

  lemma TwoFrames(first: Entry, second: Entry, rest: seq<Entry>)
    ensures Stream([first] + ([second] + rest)) == (Frame(first) + Frame(second)) + Stream(rest)
  {
    FirstFrame(first, [second] + rest);
    FirstFrame(second, rest);
    Regroup(Frame(first), Frame(second), Stream(rest));
  }

  lemma SplitTwo(es: seq<Entry>)
    requires |es| >= 2
    ensures es == [es[0]] + ([es[1]] + es[2..])
  {
  }

  lemma MergedStream(es: seq<Entry>)
    requires |es| >= 2
    ensures Stream([Merged(es[0], es[1])] + es[2..]) == Stream(es)
  {
    SplitTwo(es);
    TwoFrames(es[0], es[1], es[2..]);
    FirstFrame(Merged(es[0], es[1]), es[2..]);
    MergedFrames(es[0], es[1]);
  }

  lemma OneStream(e: Entry)
    ensures Stream([e]) == Frame(e)
  {
    assert [e][1..] == [];
  }

  /** The bytes from a second entry on close with a NUL. */
  lemma {:induction false} StreamCloses(es: seq<Entry>)
    requires es != []
    ensures Stream(es) != "" && Stream(es)[|Stream(es)| - 1] == NUL
  {
    if es[1..] == [] {
      assert Stream(es) == Frame(es[0]);
    } else {
      StreamCloses(es[1..]);
    }
  }

  lemma HeadTells(e: Entry, f: Entry, more: string)
    requires NUL !in e.path && NUL !in f.path && Frame(e) == Frame(f) + more
    ensures e.path == f.path && e.mode == f.mode && e.content + [NUL] == f.content + [NUL] + more
  {
    OctalDigitsForm(e.mode);
    OctalDigitsForm(f.mode);
    var afterE, afterF := e.content + [NUL], f.content + [NUL] + more;
    assert Frame(e) == e.path + [NUL] + (Octal(e.mode) + [NUL] + afterE);
    assert Frame(f) + more == f.path + [NUL] + (Octal(f.mode) + [NUL] + afterF);
    FieldTells(e.path, Octal(e.mode) + [NUL] + afterE, f.path, Octal(f.mode) + [NUL] + afterF);
    FieldTells(Octal(e.mode), afterE, Octal(f.mode), afterF);
    assert OctalDigits(e.mode) == Octal(e.mode)[2..] && OctalDigits(f.mode) == Octal(f.mode)[2..];
    OctalDigitsTell(e.mode, f.mode);
  }

  lemma DropClose(a: string, b: string)
    requires a + [NUL] == b + [NUL]
    ensures a == b
  {
    assert (a + [NUL])[..|a|] == a && (b + [NUL])[..|b|] == b;
  }

  lemma ClosedText(s: string) returns (y: string)
    requires s != "" && s[|s| - 1] == NUL
    ensures s == y + [NUL]
  {
    y := s[..|s| - 1];
  }

  /** What stands for one entry and for two or more splits at the second one's path. */
  lemma SecondEntrySplits(e: Entry, fs: seq<Entry>) returns (y: string)
    requires NUL !in e.path && PathsFree(fs) && |fs| >= 2 && Frame(e) == Stream(fs)
    ensures e.path == fs[0].path && SplitsAt(e.content, fs[0].content, fs[1].path, fs[1].mode, y)
  {
    var first, second, rest := fs[0], fs[1], fs[2..];
    assert fs[1..] == [second] + rest;
    FirstFrame(second, rest);
    HeadTells(e, first, Stream(fs[1..]));
    var tail := second.content + [NUL] + Stream(rest);
    if rest != [] {
      StreamCloses(rest);
    }
    y := ClosedText(tail);
    var front := first.content + [NUL] + second.path + [NUL] + Octal(second.mode) + [NUL];
    assert first.content + [NUL] + (Frame(second) + Stream(rest)) == front + tail;
    assert front + tail == (front + y) + [NUL];
    DropClose(e.content, front + y);
  }

  ghost predicate Determined(es: seq<Entry>) {
    forall fs :: PathsFree(fs) && Stream(fs) == Stream(es) ==> fs == es
  }

  lemma SplitOfOne(e: Entry, x: string, p: string, n: nat, y: string)
    requires NUL !in e.path && SplitsAt(e.content, x, p, n, y)
    ensures Stream([Entry(e.path, e.mode, x), Entry(p, n, y)]) == Stream([e])
  {
    var two := [Entry(e.path, e.mode, x), Entry(p, n, y)];
    MergedStream(two);
    assert Merged(two[0], two[1]) == e && [e] + two[2..] == [e];
  }

  lemma OneIsDetermined(e: Entry, fs: seq<Entry>)
    requires NUL !in e.path && !Embeds(e.content) && PathsFree(fs) && Stream(fs) == Stream([e])
    ensures fs == [e]
  {
    OneStream(e);
    EmptyStream(fs);
    if |fs| == 1 {
      assert fs == [fs[0]];
      OneStream(fs[0]);
      assert Frame(fs[0]) + "" == Frame(fs[0]);
      HeadTells(e, fs[0], "");
      DropClose(e.content, fs[0].content);
    } else {
      var y := SecondEntrySplits(e, fs);
      assert Embeds(e.content);
    }
  }

  /** The hashed bytes determine the entries exactly of nothing, and of one file whose content
      does not hold the joint of two frames. Two files never hash apart from every one file. */
  lemma BytesDetermine(es: seq<Entry>)
    requires PathsFree(es)
    ensures Determined(es) <==> es == [] || (|es| == 1 && !Embeds(es[0].content))
  {
    if es == [] {
      forall fs | PathsFree(fs) && Stream(fs) == Stream(es) ensures fs == es {
        EmptyStream(fs);
      }
    } else if |es| >= 2 {
      MergedStream(es);
      var merged := [Merged(es[0], es[1])] + es[2..];
      assert PathsFree(merged) && |merged| != |es|;
    } else if Embeds(es[0].content) {
      var x, p, n, y :| SplitsAt(es[0].content, x, p, n, y);
      SplitOfOne(es[0], x, p, n, y);
      assert es == [es[0]];
      assert PathsFree([Entry(es[0].path, es[0].mode, x), Entry(p, n, y)]);
    } else {
      assert es == [es[0]];
      forall fs | PathsFree(fs) && Stream(fs) == Stream(es) ensures fs == es {
        OneIsDetermined(es[0], fs);
      }
    }
  }

  // ----- trees -----------------------------------------------------------------------------------------

  predicate NamesFree(t: Tree) { forall p <- t :: NUL !in p }

  predicate ContentsFree(t: Tree) { forall p <- t :: t[p].File? && NUL !in t[p].content }

  ghost function EntriesOf(t: Tree): seq<Entry>
    requires Plain(t)
  {
    ListingLists(t.Keys);
    Entries(t, Listing(t.Keys))
  }

  /** What is hashed for a whole tree. */
  ghost function HashedBytesOf(t: Tree): string
    requires Plain(t)
  {
    Stream(EntriesOf(t))
  }

  lemma {:induction false} ListingSize(ps: seq<string>, s: set<string>)
    requires IsListing(ps, s)
    ensures |ps| == |s|
  {
    EmptyListing(ps, s);
    if ps != [] {
      ListingHead(ps, s);
      ListingSize(ps[1..], s - {ps[0]});
    }
  }

  /** A listing of the files is the listing the digest uses. */
  lemma EntriesAre(t: Tree, ps: seq<string>)
    requires Plain(t) && IsListing(ps, t.Keys) && HasFiles(t, ps)
    ensures EntriesOf(t) == Entries(t, ps) && |ps| == |t|
  {
    ListingLists(t.Keys);
    ListingIsUnique(ps, Listing(t.Keys), t.Keys);
    ListingSize(ps, t.Keys);
    assert |t| == |t.Keys|;
  }

  lemma EntriesShape(t: Tree)
    requires Plain(t)
    ensures |EntriesOf(t)| == |t|
    ensures forall i :: 0 <= i < |t| ==> EntriesOf(t)[i].path in t && EntryOf(t, EntriesOf(t)[i].path) == EntriesOf(t)[i]
    ensures forall i, j :: 0 <= i < j < |t| ==> Before(EntriesOf(t)[i].path, EntriesOf(t)[j].path)
    ensures NamesFree(t) ==> PathsFree(EntriesOf(t))
    ensures NamesFree(t) && ContentsFree(t) ==> AllFree(EntriesOf(t))
  {
    ListingLists(t.Keys);
    EntriesAre(t, Listing(t.Keys));
    var ps := Listing(t.Keys);
    assert forall i :: 0 <= i < |ps| ==> ps[i] in t && EntriesOf(t)[i] == EntryOf(t, ps[i]);
  }

  lemma EntriesTellTree(a: Tree, b: Tree)
    requires Plain(a) && Plain(b) && EntriesOf(a) == EntriesOf(b)
    ensures a == b
  {
    var p, q := Listing(a.Keys), Listing(b.Keys);
    ListingLists(a.Keys);
    ListingLists(b.Keys);
    EntriesTell(a, p, b, q);
    assert a.Keys == Elements(p) == Elements(q) == b.Keys;
    forall f | f in a ensures a[f] == b[f] {
      assert f in Elements(p);
    }
  }

  /** A tree without NUL bytes is told by its hashed bytes from every other tree of as many
      files, whatever those hold. */
  lemma SameCountTreesTell(a: Tree, b: Tree)
    requires ContentsFree(a) && NamesFree(a) && Plain(b) && NamesFree(b) && |a| == |b|
    requires HashedBytesOf(a) == HashedBytesOf(b)
    ensures a == b
  {
    EntriesShape(a);
    EntriesShape(b);
    SameCountTells(EntriesOf(a), EntriesOf(b));
    EntriesTellTree(a, b);
  }

  /** A cache of such trees is told from every other with the same entries and file counts. */
  lemma CacheBytesTell(a: map<string, Tree>, b: map<string, Tree>)
    requires a.Keys == b.Keys
    requires forall name <- a :: ContentsFree(a[name]) && NamesFree(a[name]) && Plain(b[name]) && NamesFree(b[name])
                                 && |a[name]| == |b[name]| && HashedBytesOf(a[name]) == HashedBytesOf(b[name])
    ensures a == b
  {
    forall name | name in a ensures a[name] == b[name] {
      SameCountTreesTell(a[name], b[name]);
    }
  }

  /** So a bundle that verifies under the same allowlist as a source without NUL bytes, and hashes
      like it, is its projection: there the digest is as good as the entries. */
  lemma VerifiedBytesTell(rd: Reader, source: Tree, t: Tree)
    requires RuntimeFiles(rd, source).Some? && RuntimeFiles(rd, t) == RuntimeFiles(rd, source)
    requires VerifyRuntimeBundle(rd, t).Some?
    requires ContentsFree(Projection(rd, source)) && NamesFree(Projection(rd, source))
    requires Plain(t) && HashedBytesOf(t) == HashedBytesOf(Projection(rd, source))
    ensures t == Projection(rd, source)
  {
    ProjectedFiles(rd, source);
    assert t.Keys == Projection(rd, source).Keys;
    assert |t.Keys| == |t| && |Projection(rd, source).Keys| == |Projection(rd, source)|;
    SameCountTreesTell(Projection(rd, source), t);
  }

  // ----- exactly when the bytes determine the tree -------------------------------------------------------

  ghost predicate TreeDetermined(t: Tree)
    requires Plain(t)
  {
    forall t': Tree :: Plain(t') && NamesFree(t') && HashedBytesOf(t') == HashedBytesOf(t) ==> t' == t
  }

  /** The content holds the joint of two frames, the second for a later path. */
  ghost predicate EmbedsAfter(path: string, content: string) {
    exists x, p, n, y :: SplitsAt(content, x, p, n, y) && Before(path, p)
  }

  /** Two files merged into the first: one file fewer, the same bytes. */
  function MergedTree(t: Tree, first: string, second: string): Tree
    requires first in t && second in t && t[first].File? && t[second].File?
  {
    (t - {second})[first := File(t[first].mode, Merged(EntryOf(t, first), EntryOf(t, second)).content)]
  }

  lemma MergedListing(t: Tree, ps: seq<string>)
    requires Plain(t) && IsListing(ps, t.Keys) && |ps| >= 2 && ps[0] in t && ps[1] in t
    ensures var t', qs := MergedTree(t, ps[0], ps[1]), [ps[0]] + ps[2..];
            Plain(t') && IsListing(qs, t'.Keys) && HasFiles(t', qs)
  {
    var t', qs := MergedTree(t, ps[0], ps[1]), [ps[0]] + ps[2..];
    OrderIsTotal(ps[0], ps[0]);
    assert ps[0] != ps[1];
    DroppedSecond(ps, t.Keys);
    assert t'.Keys == t.Keys - {ps[1]};
    assert forall q <- qs :: q in Elements(qs);
  }

  lemma KeptEntries(t: Tree, ps: seq<string>, i: nat)
    requires Plain(t) && IsListing(ps, t.Keys) && HasFiles(t, ps) && 2 <= i < |ps|
    requires ps[0] in t && ps[1] in t
    ensures ps[i] in MergedTree(t, ps[0], ps[1]) && MergedTree(t, ps[0], ps[1])[ps[i]] == t[ps[i]]
  {
    OrderIsTotal(ps[i], ps[i]);
    assert ps[i] in Elements(ps) && Before(ps[0], ps[i]) && Before(ps[1], ps[i]);
  }

  lemma MergedEntries(t: Tree, ps: seq<string>)
    requires Plain(t) && IsListing(ps, t.Keys) && HasFiles(t, ps) && |ps| >= 2 && ps[0] in t && ps[1] in t
    ensures Plain(MergedTree(t, ps[0], ps[1])) && |MergedTree(t, ps[0], ps[1])| == |t| - 1
    ensures EntriesOf(MergedTree(t, ps[0], ps[1])) == [Merged(EntryOf(t, ps[0]), EntryOf(t, ps[1]))] + Entries(t, ps)[2..]
  {
    var t', qs := MergedTree(t, ps[0], ps[1]), [ps[0]] + ps[2..];
    MergedListing(t, ps);
    EntriesAre(t', qs);
    EntriesAre(t, ps);
    var es, merged := Entries(t', qs), [Merged(EntryOf(t, ps[0]), EntryOf(t, ps[1]))] + Entries(t, ps)[2..];
    assert |es| == |merged|;
    forall i | 0 <= i < |es| ensures es[i] == merged[i] {
      if i > 0 {
        KeptEntries(t, ps, i + 1);
      }
    }
  }

  lemma DroppedSecond(ps: seq<string>, s: set<string>)
    requires IsListing(ps, s) && |ps| >= 2
    ensures IsListing([ps[0]] + ps[2..], s - {ps[1]})
  {
    OrderIsTotal(ps[1], ps[1]);
    var qs := [ps[0]] + ps[2..];
    forall x ensures x in Elements(qs) <==> x in s - {ps[1]} {
      if x in s && x != ps[1] {
        assert x in Elements(ps);
        var i :| 0 <= i < |ps| && ps[i] == x;
        assert x == if i == 0 then qs[0] else qs[i - 1];
      }
      if x in Elements(qs) {
        var i :| 0 <= i < |qs| && qs[i] == x;
        assert x == if i == 0 then ps[0] else ps[i + 1];
        assert x in Elements(ps);
      }
    }
  }

  /** Every tree of two or more files hashes like a tree of one file fewer. */
  lemma MergedTreeHashesAlike(t: Tree) returns (t': Tree)
    requires Plain(t) && NamesFree(t) && |t| >= 2
    ensures Plain(t') && NamesFree(t') && |t'| == |t| - 1 && HashedBytesOf(t') == HashedBytesOf(t)
  {
    var ps := Listing(t.Keys);
    ListingLists(t.Keys);
    EntriesAre(t, ps);
    MergedEntries(t, ps);
    MergedStream(Entries(t, ps));
    t' := MergedTree(t, ps[0], ps[1]);
  }

  lemma OneFile(t: Tree, p: string)
    requires t.Keys == {p} && t[p].File?
    ensures Plain(t) && EntriesOf(t) == [EntryOf(t, p)]
  {
    assert IsListing([p], t.Keys);
    EntriesAre(t, [p]);
  }

  lemma TwoFiles(t: Tree, p: string, q: string)
    requires t.Keys == {p, q} && t[p].File? && t[q].File? && Before(p, q)
    ensures Plain(t) && EntriesOf(t) == [EntryOf(t, p), EntryOf(t, q)]
  {
    assert Elements([p, q]) == {p, q};
    assert IsListing([p, q], t.Keys);
    EntriesAre(t, [p, q]);
  }

  lemma SplitTreeHashesAlike(t: Tree, path: string) returns (t': Tree)
    requires t.Keys == {path} && t[path].File? && NamesFree(t) && EmbedsAfter(path, t[path].content)
    ensures Plain(t) && Plain(t') && NamesFree(t') && t' != t && HashedBytesOf(t') == HashedBytesOf(t)
  {
    var x, p, n, y :| SplitsAt(t[path].content, x, p, n, y) && Before(path, p);
    t' := map[path := File(t[path].mode, x), p := File(n, y)];
    OneFile(t, path);
    TwoFiles(t', path, p);
    SplitOfOne(EntryOf(t, path), x, p, n, y);
    assert p in t';
  }

  lemma TwoEntriesEmbed(e: Entry, fs: seq<Entry>)
    requires NUL !in e.path && PathsFree(fs) && |fs| >= 2 && Frame(e) == Stream(fs) && Before(fs[0].path, fs[1].path)
    ensures EmbedsAfter(e.path, e.content)
  {
    var y := SecondEntrySplits(e, fs);
  }

  lemma OneFileIsDetermined(t: Tree, path: string, t': Tree)
    requires t.Keys == {path} && t[path].File? && NamesFree(t) && !EmbedsAfter(path, t[path].content)
    requires Plain(t) && Plain(t') && NamesFree(t') && HashedBytesOf(t') == HashedBytesOf(t)
    ensures t' == t
  {
    OneFile(t, path);
    EntriesShape(t');
    var e, fs := EntryOf(t, path), EntriesOf(t');
    OneStream(e);
    EmptyStream(fs);
    if |fs| >= 2 {
      TwoEntriesEmbed(e, fs);
    } else {
      assert fs == [fs[0]];
      OneStream(fs[0]);
      assert Frame(fs[0]) + "" == Frame(fs[0]);
      HeadTells(e, fs[0], "");
      DropClose(e.content, fs[0].content);
      EntriesTellTree(t', t);
    }
  }

  /** The hashed bytes determine a tree exactly when it holds a single file, and that file does
      not hold the joint of two frames with a later path. */
  lemma BytesDetermineTree(t: Tree)
    requires Plain(t) && NamesFree(t) && t != map[]
    ensures TreeDetermined(t) <==> exists path :: t.Keys == {path} && !EmbedsAfter(path, t[path].content)
  {
    if path :| t.Keys == {path} {
      if EmbedsAfter(path, t[path].content) {
        var t' := SplitTreeHashesAlike(t, path);
        assert !TreeDetermined(t);
        assert forall other :: t.Keys == {other} ==> other == path by {
          assert path in t.Keys;
        }
      } else {
        forall t': Tree | Plain(t') && NamesFree(t') && HashedBytesOf(t') == HashedBytesOf(t) ensures t' == t {
          OneFileIsDetermined(t, path, t');
        }
      }
    } else {
      var p :| p in t;
      assert t.Keys != {p} && t.Keys == {p} + (t.Keys - {p});
      assert t.Keys - {p} != {};
      var q :| q in t.Keys - {p};
      assert {p, q} <= t.Keys && |{p, q}| == 2;
      AtLeast({p, q}, t.Keys);
      assert |t.Keys| == |t|;
      var t' := MergedTreeHashesAlike(t);
      assert t' != t;
    }
  }

  lemma AtLeast(a: set<string>, b: set<string>)
    requires a <= b
    ensures |a| <= |b|
  {
    assert b == a + (b - a);
  }
}
