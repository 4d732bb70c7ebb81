/** Small vocabulary shared by every component: optional and failing values, the text
    checks of the ledger, and the code-point order Python uses to compare strings. */
module Basics {

  datatype Option<+T> = None | Some(value: T)

  datatype Result<+T, +E> = Ok(value: T) | Err(error: E)

  // ----- whitespace and the bounded-text check -------------------------------

  /** The code points Python's `str.strip()` removes. */
  predicate IsSpace(c: char) {
    var k := c as int;
    || 0x09 <= k <= 0x0d || 0x1c <= k <= 0x20
    || k == 0x85 || k == 0xa0 || k == 0x1680
    || 0x2000 <= k <= 0x200a
    || k == 0x2028 || k == 0x2029 || k == 0x202f || k == 0x205f || k == 0x3000
  }

  predicate Stripped(s: string) {
    s == "" || (!IsSpace(s[0]) && !IsSpace(s[|s| - 1]))
  }

  function StripLeft(s: string): (r: string)
    ensures |r| <= |s|
  {
    if s != "" && IsSpace(s[0]) then StripLeft(s[1..]) else s
  }

  function StripRight(s: string): (r: string)
    ensures |r| <= |s|
  {
    if s != "" && IsSpace(s[|s| - 1]) then StripRight(s[..|s| - 1]) else s
  }

  function Strip(s: string): string {
    StripRight(StripLeft(s))
  }

  lemma StrippedIsFixed(s: string)
    requires Stripped(s)
    ensures Strip(s) == s
  {
  }

  /** `_text`: non-empty, no surrounding whitespace, at most `maximum` characters. */
  predicate Text(s: string, maximum: nat) {
    s != "" && Stripped(s) && |s| <= maximum
  }

  // ----- string order --------------------------------------------------------

  /** Python's `a <= b` on strings. */
  predicate NotAfter(a: string, b: string) {
    a == "" || (b != "" && (a[0] < b[0] || (a[0] == b[0] && NotAfter(a[1..], b[1..]))))
  }

  lemma {:induction false} OrderIsTotal(a: string, b: string)
    ensures NotAfter(a, b) || NotAfter(b, a)
  {
    if a != "" && b != "" && a[0] == b[0] {
      OrderIsTotal(a[1..], b[1..]);
    }
  }

  lemma {:induction false} OrderIsAntisymmetric(a: string, b: string)
    requires NotAfter(a, b) && NotAfter(b, a)
    ensures a == b
  {
    if a != "" && b != "" {
      OrderIsAntisymmetric(a[1..], b[1..]);
      assert a == [a[0]] + a[1..] && b == [b[0]] + b[1..];
    }
  }

  lemma {:induction false} OrderIsTransitive(a: string, b: string, c: string)
    requires NotAfter(a, b) && NotAfter(b, c)
    ensures NotAfter(a, c)
  {
    if a != "" && a[0] == b[0] == c[0] {
      OrderIsTransitive(a[1..], b[1..], c[1..]);
    }
  }

  /** `a` is a proper beginning of `b`, or has the smaller character where they first differ. */
  ghost predicate ComesFirst(a: string, b: string) {
    (|a| < |b| && a == b[..|a|]) || exists k :: 0 <= k < |a| && k < |b| && a[..k] == b[..k] && a[k] < b[k]
  }

  lemma SharedFirst(a: string, b: string)
    requires a != "" && b != "" && a[0] == b[0]
    ensures ComesFirst(a, b) <==> ComesFirst(a[1..], b[1..])
  {
    var x, y := a[1..], b[1..];
    if |a| < |b| {
      assert a == b[..|a|] <==> x == y[..|x|] by {
        assert b[..|a|] == [b[0]] + y[..|x|] && a == [a[0]] + x;
      }
    }
    forall k: nat | k < |x| && k < |y| && x[..k] == y[..k] && x[k] < y[k] ensures ComesFirst(a, b) {
      assert a[..k + 1] == [a[0]] + x[..k] && b[..k + 1] == [b[0]] + y[..k];
      assert a[k + 1] < b[k + 1];
    }
    forall k: nat | k < |a| && k < |b| && a[..k] == b[..k] && a[k] < b[k] ensures ComesFirst(x, y) {
      assert k > 0;
      assert x[..k - 1] == a[..k][1..] && y[..k - 1] == b[..k][1..];
      assert x[k - 1] < y[k - 1];
    }
  }

  /** The order is the lexicographic one. */
  lemma {:induction false} OrderIsLexicographic(a: string, b: string)
    ensures NotAfter(a, b) && a != b <==> ComesFirst(a, b)
  {
    if a != "" && b != "" && a[0] == b[0] {
      OrderIsLexicographic(a[1..], b[1..]);
      SharedFirst(a, b);
      assert a == [a[0]] + a[1..] && b == [b[0]] + b[1..];
    } else if a != "" && b != "" {
      DifferentFirst(a, b);
    }
  }

  lemma DifferentFirst(a: string, b: string)
    requires a != "" && b != "" && a[0] != b[0]
    ensures ComesFirst(a, b) <==> a[0] < b[0]
  {
    assert a[..0] == b[..0];
    forall k: nat | k < |a| && k < |b| && a[..k] == b[..k] ensures k == 0 {
    }
  }

  // ----- relative paths ------------------------------------------------------

  /** Some segment from `start` on, of which `at - start` characters are seen, is empty or dots. */
  predicate BadSegment(path: string, start: nat, at: nat)
    requires start <= at <= |path|
    decreases |path| - at
  {
    if at == |path| || path[at] == '/' then
      path[start..at] in {"", ".", ".."} || (at < |path| && BadSegment(path, at + 1, at + 1))
    else BadSegment(path, start, at + 1)
  }
}
