/** scripts/governance_dispatch_identity.py: governed task names and the message header
    that carries them. */
module TaskNames {
  import opened Basics

  const TASK_NAME_MAX_LENGTH: nat := 64
  const MESSAGE_PREFIX := "[subagent-governance:"

  predicate IsProfile(p: string) { p == "standard" || p == "strict" }

  // ----- slugs: [a-z0-9]+(?:_[a-z0-9]+)* --------------------------------------

  predicate IsWordChar(c: char) { 'a' <= c <= 'z' || '0' <= c <= '9' }

  /** Words separated by single underscores, possibly with one at either end. */
  predicate Spaced(s: string) {
    && (forall i :: 0 <= i < |s| ==> IsWordChar(s[i]) || s[i] == '_')
    && (forall i :: 0 <= i < |s| - 1 ==> s[i] == '_' ==> s[i + 1] != '_')
  }

  predicate Slug(s: string) {
    s != "" && Spaced(s) && s[0] != '_' && s[|s| - 1] != '_'
  }

  // ----- normalisation ---------------------------------------------------------

  /** `str.lower()` up to characters that the next step replaces anyway: outside ASCII only
      the Kelvin sign and the dotted capital I lower to text containing an ASCII letter. */
  function LowerChar(c: char): string {
    if 'A' <= c <= 'Z' then [(c as int + 32) as char]
    else if c as int == 0x212a then "k"
    else if c as int == 0x130 then ['i', 0x307 as char]
    else [c]
  }

  function Lower(s: string): string {
    if s == "" then "" else LowerChar(s[0]) + Lower(s[1..])
  }

  /** `re.sub("[^a-z0-9]+", "_", s)`; `inRun` says a separator was just written. */
  function ReplaceRuns(s: string, inRun: bool): string {
    if s == "" then ""
    else if IsWordChar(s[0]) then [s[0]] + ReplaceRuns(s[1..], false)
    else (if inRun then "" else "_") + ReplaceRuns(s[1..], true)
  }

  /** `re.sub("_+", "_", s)`. */
  function CollapseUnderscores(s: string, inRun: bool): string {
    if s == "" then ""
    else if s[0] != '_' then [s[0]] + CollapseUnderscores(s[1..], false)
    else (if inRun then "" else "_") + CollapseUnderscores(s[1..], true)
  }

  function DropLeadingUnderscores(s: string): string {
    if s != "" && s[0] == '_' then DropLeadingUnderscores(s[1..]) else s
  }

  /** `s.rstrip("_")`. */
  function DropTrailingUnderscores(s: string): string {
    if s != "" && s[|s| - 1] == '_' then DropTrailingUnderscores(s[..|s| - 1]) else s
  }

  function OrTask(s: string): string { if s == "" then "task" else s }

  function NormalizeSemanticName(value: string): string {
    var text := Lower(Strip(value));
    var collapsed := CollapseUnderscores(ReplaceRuns(text, false), false);
    OrTask(DropTrailingUnderscores(DropLeadingUnderscores(collapsed)))
  }

  lemma {:induction false} ReplaceRunsIsSpaced(s: string, inRun: bool)
    ensures Spaced(ReplaceRuns(s, inRun))
    ensures inRun && ReplaceRuns(s, inRun) != "" ==> ReplaceRuns(s, inRun)[0] != '_'
  {
    if s != "" {
      ReplaceRunsIsSpaced(s[1..], !IsWordChar(s[0]));
    }
  }

  lemma {:induction false} CollapseFixesSpaced(s: string, inRun: bool)
    requires Spaced(s)
    requires inRun && s != "" ==> s[0] != '_'
    ensures CollapseUnderscores(s, inRun) == s
  {
    if s != "" {
      CollapseFixesSpaced(s[1..], s[0] == '_');
      assert s == [s[0]] + s[1..];
    }
  }

  lemma DropLeadingKeepsSpaced(s: string)
    requires Spaced(s)
    ensures var r := DropLeadingUnderscores(s); Spaced(r) && (r != "" ==> r[0] != '_')
  {
  }

  lemma {:induction false} DropTrailingIsPrefix(s: string)
    ensures var r := DropTrailingUnderscores(s);
            |r| <= |s| && r == s[..|r|] && (r != "" ==> r[|r| - 1] != '_')
    ensures s != "" && s[0] != '_' ==> DropTrailingUnderscores(s) != ""
  {
    if s != "" && s[|s| - 1] == '_' {
      DropTrailingIsPrefix(s[..|s| - 1]);
    }
  }

  lemma {:induction false} LowerFixesSpaced(s: string)
    requires Spaced(s)
    ensures Lower(s) == s
  {
    if s != "" {
      LowerFixesSpaced(s[1..]);
      assert s == [s[0]] + s[1..];
    }
  }

  lemma {:induction false} ReplaceRunsFixesSpaced(s: string, inRun: bool)
    requires Spaced(s)
    requires inRun && s != "" ==> s[0] != '_'
    ensures ReplaceRuns(s, inRun) == s
  {
    if s != "" {
      ReplaceRunsFixesSpaced(s[1..], s[0] == '_');
      assert s == [s[0]] + s[1..];
    }
  }

  /** Whatever text is given, the normalised name is a slug. */
  lemma NormalizedNameIsSlug(value: string)
    ensures Slug(NormalizeSemanticName(value))
  {
    var text := Lower(Strip(value));
    var runs := ReplaceRuns(text, false);
    ReplaceRunsIsSpaced(text, false);
    CollapseFixesSpaced(runs, false);
    DropLeadingKeepsSpaced(runs);
    var body := DropLeadingUnderscores(runs);
    DropTrailingIsPrefix(body);
  }

  /** Slugs are exactly the fixed points of normalisation. */
  lemma SlugsAreNormalized(s: string)
    ensures Slug(s) <==> NormalizeSemanticName(s) == s
  {
    NormalizedNameIsSlug(s);
    if Slug(s) {
      StrippedIsFixed(s);
      LowerFixesSpaced(s);
      ReplaceRunsFixesSpaced(s, false);
      CollapseFixesSpaced(s, false);
    }
  }

  // ----- task references -----------------------------------------------------

  predicate IsHex(s: string) {
    forall i :: 0 <= i < |s| ==> '0' <= s[i] <= '9' || 'a' <= s[i] <= 'f'
  }

  predicate IsTaskRef(s: string) { (|s| == 12 || |s| == 20) && IsHex(s) }

  /** The hexadecimal SHA-256 of a task id is an arbitrary 64-digit string here. */
  type Sha256Hex = s: string | |s| == 64 && IsHex(s) witness seq(64, _ => '0')

  /** `select_task_ref`: the shorter prefix of the digest unless taken, then the longer. */
  function SelectTaskRef(hex: Sha256Hex, occupied: set<string>): (r: Option<string>)
    ensures r.Some? ==> IsTaskRef(r.value) && r.value !in occupied && r.value <= hex
    ensures r.None? <==> hex[..12] in occupied && hex[..20] in occupied
  {
    if hex[..12] !in occupied then Some(hex[..12])
    else if hex[..20] !in occupied then Some(hex[..20])
    else None
  }

  // ----- building ------------------------------------------------------------

  /** The shape TASK_NAME_RE accepts, for given profile, semantic name and reference. */
  function Assemble(profile: string, semantic: string, ref: string): string {
    "sg_" + profile + "_" + semantic + "_t_" + ref
  }

  predicate Matches(value: string, profile: string, semantic: string, ref: string) {
    IsProfile(profile) && Slug(semantic) && IsTaskRef(ref) && value == Assemble(profile, semantic, ref)
  }

  /** What is left of a normalised name when the whole task name must fit. */
  function Fitted(normalized: string, room: nat): string {
    OrTask(DropTrailingUnderscores(if |normalized| <= room then normalized else normalized[..room]))
  }

  function BuildTaskName(profile: string, semanticName: string, ref: string): Result<string, string> {
    if !IsProfile(profile) then Err("profile")
    else if !IsTaskRef(ref) then Err("task_ref")
    else
      var normalized := NormalizeSemanticName(semanticName);
      var room := TASK_NAME_MAX_LENGTH - |"sg_" + profile + "__t_" + ref|;
      var value := Assemble(profile, Fitted(normalized, room), ref);
      if ParseTaskName(value).Some? then Ok(value) else Err("task_name")
  }

  // ----- parsing -------------------------------------------------------------

  /** A semantic name followed by `_t_` and a reference of the given length. */
  function SplitRef(rest: string, refLength: nat): Option<(string, string)> {
    if |rest| < refLength + 3 then None
    else
      var cut := |rest| - refLength - 3;
      var semantic, mark, ref := rest[..cut], rest[cut..cut + 3], rest[cut + 3..];
      if Slug(semantic) && mark == "_t_" && IsHex(ref) then Some((semantic, ref)) else None
  }

  function ParseAfter(prefix: string, profile: string, value: string): Option<(string, string, string)> {
    if !(prefix <= value) then None
    else
      var rest := value[|prefix|..];
      match SplitRef(rest, 20)
      case Some(p) => Some((profile, p.0, p.1))
      case None =>
        match SplitRef(rest, 12)
        case Some(p) => Some((profile, p.0, p.1))
        case None => None
  }

  function ParseTaskName(value: string): Option<(string, string, string)> {
    if |value| > TASK_NAME_MAX_LENGTH then None
    else
      match ParseAfter("sg_standard_", "standard", value)
      case Some(p) => Some(p)
      case None => ParseAfter("sg_strict_", "strict", value)
  }

  lemma SplitRefIsExact(rest: string, refLength: nat, semantic: string, ref: string)
    requires |ref| == refLength
    ensures SplitRef(rest, refLength) == Some((semantic, ref))
            <==> Slug(semantic) && IsHex(ref) && rest == semantic + "_t_" + ref
  {
    if Slug(semantic) && IsHex(ref) && rest == semantic + "_t_" + ref {
      var cut := |rest| - refLength - 3;
      assert rest[..cut] == semantic && rest[cut..cut + 3] == "_t_" && rest[cut + 3..] == ref;
    }
    if |rest| >= refLength + 3 {
      var cut := |rest| - refLength - 3;
      assert rest == rest[..cut] + rest[cut..cut + 3] + rest[cut + 3..];
    }
  }

  /** No text ends in both a 12-digit and a 20-digit reference mark. */
  lemma RefLengthsExclude(rest: string)
    ensures SplitRef(rest, 20).None? || SplitRef(rest, 12).None?
  {
    if |rest| >= 23 && IsHex(rest[|rest| - 20..]) {
      assert rest[|rest| - 20..][5] == rest[|rest| - 15..|rest| - 12][0];
    }
  }

  lemma PrefixOfConcat(prefix: string, semantic: string, ref: string, value: string)
    requires value == prefix + semantic + "_t_" + ref
    ensures prefix <= value && value[|prefix|..] == semantic + "_t_" + ref
  {
  }

  lemma ParseAfterIsExact(prefix: string, profile: string, value: string, semantic: string, ref: string)
    ensures ParseAfter(prefix, profile, value) == Some((profile, semantic, ref))
            <==> Slug(semantic) && IsTaskRef(ref) && value == prefix + semantic + "_t_" + ref
  {
    if value == prefix + semantic + "_t_" + ref {
      PrefixOfConcat(prefix, semantic, ref, value);
    }
    if prefix <= value {
      var rest := value[|prefix|..];
      assert value == prefix + rest;
      RefLengthsExclude(rest);
      if |ref| == 12 { SplitRefIsExact(rest, 12, semantic, ref); }
      if |ref| == 20 { SplitRefIsExact(rest, 20, semantic, ref); }
      assert prefix + semantic + "_t_" + ref == prefix + (semantic + "_t_" + ref);
    }
  }

  lemma ParseAfterProfile(prefix: string, profile: string, value: string)
    ensures var r := ParseAfter(prefix, profile, value); r.Some? ==> r.value.0 == profile && prefix <= value
  {
  }

  lemma ProfilePrefixesExclude(value: string)
    ensures !("sg_standard_" <= value) || !("sg_strict_" <= value)
  {
    assert "sg_standard_"[5] != "sg_strict_"[5];
  }

  lemma Prefixes(profile: string)
    ensures profile == "standard" ==> "sg_" + profile + "_" == "sg_standard_"
    ensures profile == "strict" ==> "sg_" + profile + "_" == "sg_strict_"
  {
  }

  /** The parser computes the only way a name can match the pattern. */
  lemma ParseIsExact(value: string, profile: string, semantic: string, ref: string)
    ensures ParseTaskName(value) == Some((profile, semantic, ref))
            <==> |value| <= TASK_NAME_MAX_LENGTH && Matches(value, profile, semantic, ref)
  {
    ProfilePrefixesExclude(value);
    Prefixes(profile);
    ParseAfterProfile("sg_standard_", "standard", value);
    ParseAfterProfile("sg_strict_", "strict", value);
    if profile == "standard" {
      ParseAfterIsExact("sg_standard_", "standard", value, semantic, ref);
      if value == "sg_standard_" + semantic + "_t_" + ref { PrefixOfConcat("sg_standard_", semantic, ref, value); }
    } else if profile == "strict" {
      ParseAfterIsExact("sg_strict_", "strict", value, semantic, ref);
      if value == "sg_strict_" + semantic + "_t_" + ref { PrefixOfConcat("sg_strict_", semantic, ref, value); }
    }
  }

  /** Cutting a slug and trimming the cut leaves a non-empty slug. */
  lemma FittedIsSlug(normalized: string, room: nat)
    requires Slug(normalized) && room > 0
    ensures Slug(Fitted(normalized, room)) && |Fitted(normalized, room)| <= room
    ensures Fitted(normalized, room) <= normalized
    ensures |normalized| <= room ==> Fitted(normalized, room) == normalized
  {
    DropTrailingIsPrefix(if |normalized| <= room then normalized else normalized[..room]);
  }

  /** Build then parse: every text, valid profile and valid reference give a name of at most
      64 characters from which the parser reads back the profile, the fitted normalised
      name and the reference. */
  lemma BuildThenParse(profile: string, semanticName: string, ref: string)
    requires IsProfile(profile) && IsTaskRef(ref)
    ensures var built := BuildTaskName(profile, semanticName, ref);
            var room := TASK_NAME_MAX_LENGTH - |profile| - |ref| - 7;
            && room >= 29
            && built.Ok? && |built.value| <= TASK_NAME_MAX_LENGTH
            && ParseTaskName(built.value)
               == Some((profile, Fitted(NormalizeSemanticName(semanticName), room), ref))
  {
    var normalized := NormalizeSemanticName(semanticName);
    NormalizedNameIsSlug(semanticName);
    var room := TASK_NAME_MAX_LENGTH - |"sg_" + profile + "__t_" + ref|;
    FittedIsSlug(normalized, room);
    var semantic := Fitted(normalized, room);
    ParseIsExact(Assemble(profile, semantic, ref), profile, semantic, ref);
  }

  lemma BuildRejects(profile: string, semanticName: string, ref: string)
    ensures BuildTaskName(profile, semanticName, ref).Ok? <==> IsProfile(profile) && IsTaskRef(ref)
  {
    if IsProfile(profile) && IsTaskRef(ref) {
      BuildThenParse(profile, semanticName, ref);
    }
  }

  /** Parse then build: a name the parser accepts is the one its three parts build. */
  lemma ParseThenBuild(value: string)
    requires ParseTaskName(value).Some?
    ensures var p := ParseTaskName(value).value;
            BuildTaskName(p.0, p.1, p.2) == Ok(value)
  {
    var (profile, semantic, ref) := ParseTaskName(value).value;
    ParseIsExact(value, profile, semantic, ref);
    SlugsAreNormalized(semantic);
    var room := TASK_NAME_MAX_LENGTH - |"sg_" + profile + "__t_" + ref|;
    FittedIsSlug(semantic, room);
  }

  // ----- the message header --------------------------------------------------

  /** The first line of a message, without its newline. */
  function FirstLine(s: string): string {
    if s == "" || s[0] == '\n' then "" else [s[0]] + FirstLine(s[1..])
  }

  function TaskNameFromMessage(message: string): Option<string> {
    if !(MESSAGE_PREFIX <= message) then None
    else
      var header := FirstLine(message);
      if header == "" || header[|header| - 1] != ']' || |header| <= |MESSAGE_PREFIX| then None
      else
        var name := header[|MESSAGE_PREFIX|..|header| - 1];
        if ParseTaskName(name).Some? then Some(name) else None
  }

  function MessageFor(taskName: string, prompt: string): string {
    MESSAGE_PREFIX + taskName + "]\n" + prompt
  }

  lemma {:induction false} FirstLineOf(line: string, rest: string)
    requires forall i :: 0 <= i < |line| ==> line[i] != '\n'
    ensures FirstLine(line + "\n" + rest) == line
  {
    if line != "" {
      var whole := line + "\n" + rest;
      assert whole[1..] == line[1..] + "\n" + rest;
      FirstLineOf(line[1..], rest);
      assert line == [line[0]] + line[1..];
    } else {
      assert line + "\n" + rest == "\n" + rest;
    }
  }

  lemma MatchedNamesAreOneLine(name: string, profile: string, semantic: string, ref: string)
    requires Matches(name, profile, semantic, ref)
    ensures name != "" && forall i :: 0 <= i < |name| ==> !IsSpace(name[i])
  {
  }

  lemma ParsedNamesAreOneLine(name: string)
    requires ParseTaskName(name).Some?
    ensures name != "" && forall i :: 0 <= i < |name| ==> !IsSpace(name[i])
  {
    var (profile, semantic, ref) := ParseTaskName(name).value;
    ParseIsExact(name, profile, semantic, ref);
    MatchedNamesAreOneLine(name, profile, semantic, ref);
  }

  /** The header written in front of any prompt names the task again. */
  lemma HeaderRoundTrip(name: string, prompt: string)
    requires ParseTaskName(name).Some?
    ensures TaskNameFromMessage(MessageFor(name, prompt)) == Some(name)
  {
    ParsedNamesAreOneLine(name);
    var line := MESSAGE_PREFIX + name + "]";
    assert MessageFor(name, prompt) == line + "\n" + prompt;
    FirstLineOf(line, prompt);
    assert line[|MESSAGE_PREFIX|..|line| - 1] == name;
  }
}
