/** scripts/governance_contracts.py and governance_dispatch_rendering.py: the business part of a
    task contract, the bound on its canonical bytes, and the prompt rendered from it. */
module Contracts {
  import opened Basics
  import opened TaskNames

  const MAX_BUSINESS_TEXT: nat := 8192
  const MAX_CONTRACT_TEXT: nat := 1024
  const MAX_PATH_TEXT: nat := 1000
  const MAX_LIST_ITEMS: nat := 64
  const MAX_CONTRACT_SUMMARY_BYTES: nat := 65536

  /** A contract without its spawn configuration; `verified` is the canonical JSON of a declared
      material manifest. */
  datatype Business = Business(
    profile: string, objective: string, summary: string, scope: seq<string>, forbidden_scope: seq<string>,
    paths: seq<string>, completion: seq<string>, evidence: seq<string>, verified: Option<string>)

  // ----- canonical bytes ------------------------------------------------------------------

  /** The UTF-8 bytes of a character in a JSON string. */
  function CharBytes(c: char): nat {
    var k := c as int;
    if c == '"' || c == '\\' || 0x08 <= k <= 0x0a || 0x0c <= k <= 0x0d then 2
    else if k < 0x20 then 6
    else if k < 0x80 then 1
    else if k < 0x800 then 2
    else if k < 0x1_0000 then 3
    else 4
  }

  function TextBytes(s: string): nat {
    if s == "" then 0 else CharBytes(s[0]) + TextBytes(s[1..])
  }

  /** The items of a JSON array: each quoted, and one separator or bracket more than they are. */
  function ItemBytes(xs: seq<string>): nat {
    if xs == [] then 0 else TextBytes(xs[0]) + 3 + ItemBytes(xs[1..])
  }

  function ListBytes(xs: seq<string>): nat { if xs == [] then 2 else ItemBytes(xs) + 1 }

  /** The keys, quotes, braces and commas of the canonical record around its values. */
  const RECORD_FRAME_BYTES: nat := 129

  function BytesOf(verified: Option<string>): nat {
    match verified case None => 4 case Some(json) => TextBytes(json)
  }

  /** The size of `_canonical_bytes` of the business record. */
  function RecordBytes(b: Business): nat {
    RECORD_FRAME_BYTES + ListBytes(b.completion) + ListBytes(b.paths) + TextBytes(b.summary) + BytesOf(b.verified)
    + ListBytes(b.evidence) + ListBytes(b.forbidden_scope) + TextBytes(b.objective) + TextBytes(b.profile) + ListBytes(b.scope)
  }

  // ----- well-formed contracts --------------------------------------------------------------

  predicate TextList(xs: seq<string>, minimum: nat, maximum: nat) {
    minimum <= |xs| <= MAX_LIST_ITEMS && forall x <- xs :: Text(x, maximum)
  }

  predicate ValidPath(path: string) {
    && Text(path, MAX_PATH_TEXT) && '\\' !in path && !BadSegment(path, 0, 0)
    && forall c <- path :: c as int >= 32
  }

  predicate ValidPaths(paths: seq<string>) {
    && |paths| <= MAX_LIST_ITEMS && (forall p <- paths :: ValidPath(p))
    && forall i, j :: 0 <= i < j < |paths| ==> paths[i] != paths[j]
  }

  datatype ContractField =
    | ProfileField | ObjectiveField | SummaryField | ScopeField | ForbiddenField | CompletionField | EvidenceField
    | PathsField | StrictFields | WholeRecord

  const CONTRACT_FIELDS := [ProfileField, ObjectiveField, SummaryField, ScopeField, ForbiddenField, CompletionField,
                            EvidenceField, PathsField, StrictFields, WholeRecord]

  predicate FieldFits(b: Business, f: ContractField) {
    match f
    case ProfileField => IsProfile(b.profile)
    case ObjectiveField => Text(b.objective, MAX_BUSINESS_TEXT)
    case SummaryField => |b.summary| <= MAX_BUSINESS_TEXT
    case ScopeField => TextList(b.scope, 1, MAX_CONTRACT_TEXT)
    case ForbiddenField => TextList(b.forbidden_scope, 0, MAX_CONTRACT_TEXT)
    case CompletionField => TextList(b.completion, 1, MAX_CONTRACT_TEXT)
    case EvidenceField => TextList(b.evidence, 0, MAX_CONTRACT_TEXT)
    case PathsField => ValidPaths(b.paths)
    case StrictFields => b.profile == "strict" ==> b.forbidden_scope != [] && b.evidence != []
    case WholeRecord => RecordBytes(b) <= MAX_CONTRACT_SUMMARY_BYTES
  }

  predicate FieldsFit(b: Business, fields: seq<ContractField>)
    decreases |fields|, b
  {
    fields == [] || (FieldFits(b, fields[0]) && FieldsFit(b, fields[1..]))
  }

  /** `validate_task_contract` without the spawn configuration: every field, then the bytes of
      the whole record. */
  predicate ValidBusiness(b: Business) { FieldsFit(b, CONTRACT_FIELDS) }

  lemma {:induction false} EveryFieldFits(b: Business, fields: seq<ContractField>)
    ensures FieldsFit(b, fields) <==> forall f <- fields :: FieldFits(b, f)
    decreases |fields|
  {
    if fields != [] {
      EveryFieldFits(b, fields[1..]);
      assert fields == [fields[0]] + fields[1..];
    }
  }

  /** What the checks amount to. */
  lemma ValidBusinessIs(b: Business)
    ensures ValidBusiness(b) <==>
              && IsProfile(b.profile) && Text(b.objective, 8192) && |b.summary| <= 8192
              && TextList(b.scope, 1, 1024) && TextList(b.forbidden_scope, 0, 1024)
              && TextList(b.completion, 1, 1024) && TextList(b.evidence, 0, 1024)
              && ValidPaths(b.paths) && (b.profile == "strict" ==> b.forbidden_scope != [] && b.evidence != [])
              && RecordBytes(b) <= 65536
  {
    EveryFieldFits(b, CONTRACT_FIELDS);
    forall f: ContractField ensures f in CONTRACT_FIELDS {
      EveryFieldIsListed(f);
    }
    assert ValidBusiness(b) <==> forall f: ContractField :: FieldFits(b, f);
    FieldByField(b);
  }

  lemma EveryFieldIsListed(f: ContractField)
    ensures f in CONTRACT_FIELDS
  {
    var fs := CONTRACT_FIELDS;
    assert fs[0] == ProfileField && fs[1] == ObjectiveField && fs[2] == SummaryField && fs[3] == ScopeField
           && fs[4] == ForbiddenField && fs[5] == CompletionField && fs[6] == EvidenceField && fs[7] == PathsField
           && fs[8] == StrictFields && fs[9] == WholeRecord;
  }

  lemma FieldByField(b: Business)
    ensures (forall f: ContractField :: FieldFits(b, f)) <==>
              && FieldFits(b, ProfileField) && FieldFits(b, ObjectiveField) && FieldFits(b, SummaryField)
              && FieldFits(b, ScopeField) && FieldFits(b, ForbiddenField) && FieldFits(b, CompletionField)
              && FieldFits(b, EvidenceField) && FieldFits(b, PathsField) && FieldFits(b, StrictFields)
              && FieldFits(b, WholeRecord)
  {
  }

  // ----- the prompt -----------------------------------------------------------------------

  function Bullets(xs: seq<string>): string {
    if xs == [] then "" else if |xs| == 1 then "- " + xs[0] else "- " + xs[0] + "\n" + Bullets(xs[1..])
  }

  datatype SectionName =
    | ObjectiveSection | SummarySection | ScopeSection | ForbiddenSection | PathsSection | MaterialsSection
    | CompletionSection | EvidenceSection | DutySection

  const SECTIONS := [ObjectiveSection, SummarySection, ScopeSection, ForbiddenSection, PathsSection, MaterialsSection,
                     CompletionSection, EvidenceSection, DutySection]

  function Title(n: SectionName): string {
    match n
    case ObjectiveSection => "唯一当前目标"
    case SummarySection => "上下文摘要"
    case ScopeSection => "工作范围"
    case ForbiddenSection => "禁止范围"
    case PathsSection => "定位路径"
    case MaterialsSection => "已验证材料"
    case CompletionSection => "完成条件"
    case EvidenceSection => "验收证据"
    case DutySection => "终态义务"
  }

  /** The wording of the closing duty is not modelled; its length and its full stop are. */
  const DUTY_LENGTH: nat := 113

  function Wording(length: nat): string { seq(length, _ => '.') }

  /** `checked` describes verified materials, if any. */
  function Content(b: Business, checked: Option<string>, n: SectionName): string {
    match n
    case ObjectiveSection => b.objective
    case SummarySection => b.summary
    case ScopeSection => Bullets(b.scope)
    case ForbiddenSection => Bullets(b.forbidden_scope)
    case PathsSection => Bullets(b.paths)
    case MaterialsSection => if checked.Some? then checked.value else ""
    case CompletionSection => Bullets(b.completion)
    case EvidenceSection => Bullets(b.evidence)
    case DutySection => Wording(DUTY_LENGTH)
  }

  function Titled(title: string, content: string): string { "【" + title + "】\n" + content }

  /** The sections that have content, a blank line between them; the last always has some. */
  function Render(b: Business, checked: Option<string>, names: seq<SectionName>): string
    decreases |names|, b
  {
    if names == [] then ""
    else
      var content := Content(b, checked, names[0]);
      if |names| == 1 then Titled(Title(names[0]), content)
      else (if content == "" then "" else Titled(Title(names[0]), content) + "\n\n") + Render(b, checked, names[1..])
  }

  /** `render_dispatch_prompt`. */
  function RenderPrompt(b: Business, checked: Option<string>): string { Render(b, checked, SECTIONS) }

  /** A section and the blank line after it, if there is something to say. */
  function Section(title: string, content: string): string {
    if content == "" then "" else "【" + title + "】\n" + content + "\n\n"
  }

  lemma RenderOne(b: Business, checked: Option<string>, n: SectionName, rest: seq<SectionName>)
    requires rest != []
    ensures Render(b, checked, [n] + rest) == Section(Title(n), Content(b, checked, n)) + Render(b, checked, rest)
  {
    assert ([n] + rest)[1..] == rest;
  }

  /** The sections of the prompt from the materials on. */
  function Closing(b: Business, checked: Option<string>): string {
    Section("已验证材料", if checked.Some? then checked.value else "")
    + (Section("完成条件", Bullets(b.completion)) + (Section("验收证据", Bullets(b.evidence)) + ("【终态义务】\n" + Wording(113))))
  }

  const CLOSING_SECTIONS := [MaterialsSection, CompletionSection, EvidenceSection, DutySection]

  lemma ClosingReads(b: Business, checked: Option<string>)
    ensures Render(b, checked, CLOSING_SECTIONS) == Closing(b, checked)
  {
    var s9 := [DutySection];
    var s8 := [EvidenceSection] + s9;
    var s7 := [CompletionSection] + s8;
    assert CLOSING_SECTIONS == [MaterialsSection] + s7;
    RenderOne(b, checked, MaterialsSection, s7);
    RenderOne(b, checked, CompletionSection, s8);
    RenderOne(b, checked, EvidenceSection, s9);
    LastReads(b, checked);
  }

  lemma LastReads(b: Business, checked: Option<string>)
    ensures Render(b, checked, [DutySection]) == "【终态义务】\n" + Wording(113)
  {
    assert "【" + "终态义务" + "】\n" == "【终态义务】\n";
  }

  /** The prompt: its sections in order, the empty ones left out, and the duty at the end. */
  lemma PromptReads(b: Business, checked: Option<string>)
    ensures RenderPrompt(b, checked)
            == Section("唯一当前目标", b.objective)
               + (Section("上下文摘要", b.summary)
                  + (Section("工作范围", Bullets(b.scope))
                     + (Section("禁止范围", Bullets(b.forbidden_scope))
                        + (Section("定位路径", Bullets(b.paths)) + Closing(b, checked)))))
  {
    var s5 := [PathsSection] + CLOSING_SECTIONS;
    var s4 := [ForbiddenSection] + s5;
    var s3 := [ScopeSection] + s4;
    var s2 := [SummarySection] + s3;
    assert SECTIONS == [ObjectiveSection] + s2;
    RenderOne(b, checked, ObjectiveSection, s2);
    RenderOne(b, checked, SummarySection, s3);
    RenderOne(b, checked, ScopeSection, s4);
    RenderOne(b, checked, ForbiddenSection, s5);
    RenderOne(b, checked, PathsSection, CLOSING_SECTIONS);
    ClosingReads(b, checked);
  }

  /** A list is rendered item by item, one line each. */
  lemma {:induction false} BulletsJoin(xs: seq<string>, ys: seq<string>)
    ensures forall x: string :: Bullets([x]) == "- " + x
    ensures xs != [] && ys != [] ==> Bullets(xs + ys) == Bullets(xs) + "\n" + Bullets(ys)
    ensures Bullets([]) == ""
  {
    if |xs| > 1 && ys != [] {
      BulletsJoin(xs[1..], ys);
      assert (xs + ys)[1..] == xs[1..] + ys;
    } else if |xs| == 1 && ys != [] {
      assert (xs + ys)[1..] == ys;
    }
  }

  lemma {:induction false} RenderEndsWell(b: Business, checked: Option<string>, names: seq<SectionName>)
    requires names != [] && names[|names| - 1] == DutySection
    ensures Render(b, checked, names) != "" && !IsSpace(Render(b, checked, names)[|Render(b, checked, names)| - 1])
    decreases |names|
  {
    if |names| > 1 {
      RenderEndsWell(b, checked, names[1..]);
    }
  }

  /** The prompt never ends in whitespace: the terminal duty closes it. */
  lemma PromptEndsWell(b: Business, checked: Option<string>)
    ensures RenderPrompt(b, checked) != "" && !IsSpace(RenderPrompt(b, checked)[|RenderPrompt(b, checked)| - 1])
  {
    assert SECTIONS[8] == DutySection;
    RenderEndsWell(b, checked, SECTIONS);
  }
}
