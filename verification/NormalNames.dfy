/** What a normalised semantic name says of the text it came from, told without the steps that
    make it (scripts/governance_dispatch_identity.py). */
module NormalNames {
  import opened Basics
  import opened TaskNames

  // ----- letters and gaps ------------------------------------------------------------------------

  /** The lower-case letters and digits of a text, in order. */
  function WordChars(s: string): string {
    if s == "" then "" else (if IsWordChar(s[0]) then [s[0]] else "") + WordChars(s[1..])
  }

  /** For every two neighbouring word characters, whether anything stands between them. `seen`
      says one came before `s`, and `gap` that something has stood since. */
  function Gaps(s: string, seen: bool, gap: bool): seq<bool> {
    if s == "" then []
    else if IsWordChar(s[0]) then (if seen then [gap] else []) + Gaps(s[1..], true, false)
    else Gaps(s[1..], seen, true)
  }

  lemma {:induction false} NoGapBeforeAWord(s: string, g: bool, h: bool)
    ensures Gaps(s, false, g) == Gaps(s, false, h)
  {
  }

  lemma {:induction false} WordCharsAdd(a: string, b: string)
    ensures WordChars(a + b) == WordChars(a) + WordChars(b)
  {
    if a == "" {
      assert a + b == b;
    } else {
      var head := if IsWordChar(a[0]) then [a[0]] else "";
      assert (a + b)[0] == a[0] && (a + b)[1..] == a[1..] + b;
      WordCharsAdd(a[1..], b);
      assert WordChars(a + b) == head + WordChars(a[1..] + b);
      assert head + (WordChars(a[1..]) + WordChars(b)) == (head + WordChars(a[1..])) + WordChars(b);
    }
  }

  /** One gap fewer than word characters, or as many when one came before. */
  lemma {:induction false} GapCount(s: string, seen: bool, gap: bool)
    ensures |Gaps(s, seen, gap)| == if seen then |WordChars(s)| else if WordChars(s) == "" then 0 else |WordChars(s)| - 1
  {
    if s != "" {
      GapCount(s[1..], seen || IsWordChar(s[0]), !IsWordChar(s[0]));
    }
  }

  /** The gap recorded between two word characters is whether the text between them is empty. */
  lemma {:induction false} GapBetween(a: string, x: char, between: string, y: char, b: string, seen: bool, gap: bool)
    requires IsWordChar(x) && IsWordChar(y) && WordChars(between) == ""
    ensures var s := a + [x] + between + [y] + b;
            var at := |WordChars(a)| + (if seen then 1 else 0);
            at < |Gaps(s, seen, gap)| && Gaps(s, seen, gap)[at] == (between != "")
  {
    var s := a + [x] + between + [y] + b;
    if a == "" {
      assert s[0] == x && s[1..] == between + [y] + b;
      GapAfter(between, y, b, false);
    } else {
      assert s[0] == a[0] && s[1..] == a[1..] + [x] + between + [y] + b;
      GapBetween(a[1..], x, between, y, b, seen || IsWordChar(a[0]), !IsWordChar(a[0]));
    }
  }

  lemma {:induction false} GapAfter(between: string, y: char, b: string, gap: bool)
    requires IsWordChar(y) && WordChars(between) == ""
    ensures Gaps(between + [y] + b, true, gap) != [] && Gaps(between + [y] + b, true, gap)[0] == (gap || between != "")
  {
    var s := between + [y] + b;
    if between == "" {
      assert s[0] == y;
    } else {
      assert s[0] == between[0] && s[1..] == between[1..] + [y] + b;
      GapAfter(between[1..], y, b, true);
    }
  }

  // ----- each step keeps them -----------------------------------------------------------------------

  lemma {:induction false} RunsKeep(s: string, inRun: bool, seen: bool, gap: bool)
    requires inRun ==> gap
    ensures WordChars(ReplaceRuns(s, inRun)) == WordChars(s)
    ensures Gaps(ReplaceRuns(s, inRun), seen, gap) == Gaps(s, seen, gap)
  {
    if s != "" {
      var word := IsWordChar(s[0]);
      var rest := ReplaceRuns(s[1..], !word);
      RunsKeep(s[1..], !word, seen || word, !word);
      if word {
        assert ReplaceRuns(s, inRun) == [s[0]] + rest;
      } else if inRun {
        assert ReplaceRuns(s, inRun) == rest;
      } else {
        assert ReplaceRuns(s, inRun) == ['_'] + rest;
      }
    }
  }

  lemma {:induction false} LeadingDropped(s: string, gap: bool)
    ensures WordChars(DropLeadingUnderscores(s)) == WordChars(s)
    ensures Gaps(DropLeadingUnderscores(s), false, gap) == Gaps(s, false, gap)
  {
    if s != "" && s[0] == '_' {
      LeadingDropped(s[1..], gap);
      NoGapBeforeAWord(s[1..], true, gap);
    }
  }

  lemma {:induction false} LastDropped(s: string, c: char, seen: bool, gap: bool)
    requires !IsWordChar(c)
    ensures WordChars(s + [c]) == WordChars(s) && Gaps(s + [c], seen, gap) == Gaps(s, seen, gap)
  {
    if s == "" {
      assert s + [c] == [c];
    } else {
      assert (s + [c])[0] == s[0] && (s + [c])[1..] == s[1..] + [c];
      LastDropped(s[1..], c, seen || IsWordChar(s[0]), !IsWordChar(s[0]));
    }
  }

  lemma {:induction false} TrailingDropped(s: string, gap: bool)
    ensures WordChars(DropTrailingUnderscores(s)) == WordChars(s)
    ensures Gaps(DropTrailingUnderscores(s), false, gap) == Gaps(s, false, gap)
  {
    if s != "" && s[|s| - 1] == '_' {
      var init := s[..|s| - 1];
      assert s == init + ['_'];
      LastDropped(init, '_', false, gap);
      TrailingDropped(init, gap);
    }
  }

  // ----- lowering and stripping ----------------------------------------------------------------------

  lemma {:induction false} LowerAdds(a: string, b: string)
    ensures Lower(a + b) == Lower(a) + Lower(b)
  {
    if a == "" {
      assert a + b == b;
    } else {
      assert (a + b)[0] == a[0] && (a + b)[1..] == a[1..] + b;
      LowerAdds(a[1..], b);
    }
  }

  predicate LowersAlone(c: char) { c as int != 0x212a && c as int != 0x130 }

  /** Lowering changes the ASCII capitals, each to its small letter, and nothing else that
      matters here, two characters aside. */
  lemma {:induction false} LowerByCharacter(s: string)
    requires forall i :: 0 <= i < |s| ==> LowersAlone(s[i])
    ensures |Lower(s)| == |s|
    ensures forall i :: 0 <= i < |s| ==> Lower(s)[i] == if 'A' <= s[i] <= 'Z' then (s[i] - 'A') + 'a' else s[i]
  {
    if s != "" {
      LowerByCharacter(s[1..]);
    }
  }

  lemma SpacesAreNoWords(c: char)
    requires IsSpace(c)
    ensures Lower([c]) == [c] && !IsWordChar(c)
  {
    assert [c][1..] == "";
  }

  lemma {:induction false} StripLeftKeeps(s: string, gap: bool)
    ensures WordChars(Lower(StripLeft(s))) == WordChars(Lower(s))
    ensures Gaps(Lower(StripLeft(s)), false, gap) == Gaps(Lower(s), false, gap)
  {
    if s != "" && IsSpace(s[0]) {
      StripLeftKeeps(s[1..], gap);
      SpacesAreNoWords(s[0]);
      assert Lower(s) == [s[0]] + Lower(s[1..]);
      NoGapBeforeAWord(Lower(s[1..]), true, gap);
    }
  }

  lemma {:induction false} StripRightKeeps(s: string, gap: bool)
    ensures WordChars(Lower(StripRight(s))) == WordChars(Lower(s))
    ensures Gaps(Lower(StripRight(s)), false, gap) == Gaps(Lower(s), false, gap)
  {
    if s != "" && IsSpace(s[|s| - 1]) {
      var init, last := s[..|s| - 1], s[|s| - 1];
      assert s == init + [last];
      LowerAdds(init, [last]);
      SpacesAreNoWords(last);
      LastDropped(Lower(init), last, false, gap);
      StripRightKeeps(init, gap);
    }
  }

  // ----- the normal form -------------------------------------------------------------------------------

  /** `r` is a slug with the word characters of `text` and the same gaps between them. */
  predicate SpellsOut(text: string, r: string) {
    Slug(r) && WordChars(r) == WordChars(text) && Gaps(r, false, false) == Gaps(text, false, false)
  }

  lemma SlugHasWords(s: string)
    requires Slug(s)
    ensures WordChars(s) != ""
  {
    assert IsWordChar(s[0]);
  }

  lemma NothingLeft(s: string)
    requires Spaced(s) && s != "" && s[0] != '_'
    ensures WordChars(s) != ""
  {
    assert IsWordChar(s[0]);
  }

  /** What a normalised name is: the lowered letters and digits of the text in order, with an
      underscore between two of them exactly where something else stood; or "task", exactly for
      a text without letters and digits. */
  lemma NormalizedNameSpellsOut(value: string)
    ensures var r, text := NormalizeSemanticName(value), Lower(value);
            if WordChars(text) == "" then r == "task" else SpellsOut(text, r)
  {
    var text := Lower(Strip(value));
    StripLeftKeeps(value, false);
    StripRightKeeps(StripLeft(value), false);
    var runs := ReplaceRuns(text, false);
    RunsKeep(text, false, false, false);
    ReplaceRunsIsSpaced(text, false);
    CollapseFixesSpaced(runs, false);
    DropLeadingKeepsSpaced(runs);
    LeadingDropped(runs, false);
    var body := DropLeadingUnderscores(runs);
    TrailingDropped(body, false);
    DropTrailingIsPrefix(body);
    NormalizedNameIsSlug(value);
    var kept := DropTrailingUnderscores(body);
    if kept != "" {
      NothingLeft(kept);
    }
  }

  // ----- and there is no other ------------------------------------------------------------------------

  lemma FirstTells<T>(p: T, xs: seq<T>, q: T, ys: seq<T>)
    requires [p] + xs == [q] + ys
    ensures p == q && xs == ys
  {
    assert ([p] + xs)[0] == p && ([q] + ys)[0] == q && ([p] + xs)[1..] == xs && ([q] + ys)[1..] == ys;
  }

  /** A text of words and single underscores that ends in a word. */
  predicate Tidy(s: string) { Spaced(s) && (s != "" ==> s[|s| - 1] != '_') }

  /** Two such texts that read alike from here on are the same. */
  lemma {:induction false} TidyIsDetermined(a: string, b: string, afterWord: bool)
    requires Tidy(a) && Tidy(b) && (!afterWord ==> (a != "" ==> a[0] != '_') && (b != "" ==> b[0] != '_'))
    requires WordChars(a) == WordChars(b) && Gaps(a, afterWord, false) == Gaps(b, afterWord, false)
    ensures a == b
    decreases |a|
  {
    EndsInAWord(a);
    EndsInAWord(b);
    if a != "" && b != "" {
      var x, c, rest := NextOf(a, afterWord);
      var y, d, rest' := NextOf(b, afterWord);
      FirstTells(c, WordChars(rest), d, WordChars(rest'));
      if afterWord {
        FirstTells(x, Gaps(rest, true, false), y, Gaps(rest', true, false));
      }
      TidyIsDetermined(rest, rest', true);
    }
  }

  function Led(behind: bool, c: char, rest: string): string { (if behind then ['_', c] else [c]) + rest }

  /** The next word character, whether it stands behind an underscore, and what follows it. */
  lemma NextOf(s: string, afterWord: bool) returns (behind: bool, c: char, rest: string)
    requires Tidy(s) && s != "" && (!afterWord ==> s[0] != '_')
    ensures s == Led(behind, c, rest) && |rest| < |s| && Tidy(rest) && WordChars(s) == [c] + WordChars(rest)
    ensures afterWord ==> Gaps(s, true, false) == [behind] + Gaps(rest, true, false)
    ensures !afterWord ==> !behind && Gaps(s, false, false) == Gaps(rest, true, false)
  {
    behind := s[0] == '_';
    if behind {
      NextIsBehind(s);
      c, rest := s[1], s[2..];
      assert s == ['_', c] + rest;
    } else {
      NextIsHere(s, afterWord);
      c, rest := s[0], s[1..];
      assert s == [c] + rest;
      assert [] + Gaps(rest, true, false) == Gaps(rest, true, false);
    }
  }

  lemma EndsInAWord(s: string)
    requires Spaced(s) && (s != "" ==> s[|s| - 1] != '_')
    ensures WordChars(s) == "" <==> s == ""
  {
    if s != "" {
      assert s == s[..|s| - 1] + [s[|s| - 1]];
      WordCharsAdd(s[..|s| - 1], [s[|s| - 1]]);
    }
  }

  lemma NextIsHere(s: string, afterWord: bool)
    requires Spaced(s) && s != "" && s[0] != '_' && s[|s| - 1] != '_'
    ensures IsWordChar(s[0]) && WordChars(s) == [s[0]] + WordChars(s[1..])
    ensures Gaps(s, afterWord, false) == (if afterWord then [false] else []) + Gaps(s[1..], true, false)
    ensures Spaced(s[1..]) && (s[1..] != "" ==> s[1..][|s[1..]| - 1] != '_')
  {
  }

  lemma NextIsBehind(s: string)
    requires Spaced(s) && s != "" && s[0] == '_' && s[|s| - 1] != '_'
    ensures |s| > 1 && IsWordChar(s[1]) && WordChars(s) == [s[1]] + WordChars(s[2..])
    ensures Gaps(s, true, false) == [true] + Gaps(s[2..], true, false)
    ensures Spaced(s[2..]) && (s[2..] != "" ==> s[2..][|s[2..]| - 1] != '_')
  {
    var rest := s[1..];
    assert rest[1..] == s[2..] && rest[0] == s[1];
    assert Gaps(s, true, false) == Gaps(rest, true, true);
    assert WordChars(s) == WordChars(rest);
  }

  /** A text has one such name: any slug that spells it out is the normalised name. */
  lemma OnlyNormalName(value: string, r: string)
    requires SpellsOut(Lower(value), r)
    ensures NormalizeSemanticName(value) == r
  {
    NormalizedNameSpellsOut(value);
    SlugHasWords(r);
    TidyIsDetermined(NormalizeSemanticName(value), r, false);
  }

  // ----- what is left of it in a task name -----------------------------------------------------------

  /** A name that must fit is cut to its longest beginning that is still a slug. */
  lemma FittedIsLongest(normalized: string, room: nat, other: string)
    requires Slug(normalized) && room > 0
    ensures Slug(Fitted(normalized, room)) && |Fitted(normalized, room)| <= room && Fitted(normalized, room) <= normalized
    ensures Slug(other) && |other| <= room && other <= normalized ==> |other| <= |Fitted(normalized, room)|
  {
    FittedIsSlug(normalized, room);
    var cut := if |normalized| <= room then normalized else normalized[..room];
    if Slug(other) && |other| <= room && other <= normalized {
      assert other == cut[..|other|];
      DropsNoMore(cut, |other|);
    }
  }

  lemma {:induction false} DropsNoMore(s: string, n: nat)
    requires 0 < n <= |s| && s[n - 1] != '_'
    ensures |DropTrailingUnderscores(s)| >= n
  {
    if s[|s| - 1] == '_' {
      DropsNoMore(s[..|s| - 1], n);
    }
  }
}
