/** A contract inside every limit whose rendered message is not: prepare accepts it, and the
    write is refused (scripts/governance_contracts.py, scripts/governance_state.py). */
module LongMessages {
  import opened Basics
  import opened TaskNames
  import opened NativeSpawn
  import opened Contracts
  import opened Records
  import opened Retention
  import opened Transitions
  import opened Validity

  function Repeat(n: nat): string { seq(n, _ => 'a') }

  function Items(count: nat, n: nat): seq<string> { seq(count, _ => Repeat(n)) }

  lemma {:induction false} RepeatBytes(n: nat)
    ensures TextBytes(Repeat(n)) == n
  {
    if n > 0 {
      assert Repeat(n)[1..] == Repeat(n - 1);
      RepeatBytes(n - 1);
    }
  }

  /** Items cost as many bytes in the record as characters in the prompt, one aside. */
  lemma {:induction false} ItemsCost(count: nat, n: nat)
    ensures ItemBytes(Items(count, n)) == count * (n + 3)
    ensures count > 0 ==> |Bullets(Items(count, n))| == count * (n + 3) - 1
  {
    if count > 0 {
      assert Items(count, n)[0] == Repeat(n) && Items(count, n)[1..] == Items(count - 1, n);
      RepeatBytes(n);
      ItemsCost(count - 1, n);
      assert count * (n + 3) == (count - 1) * (n + 3) + (n + 3);
    }
  }

  // ----- the length of a prompt --------------------------------------------------------------

  /** What a section and the blank line after it add. */
  function SectionLength(b: Business, checked: Option<string>, n: SectionName): nat {
    if Content(b, checked, n) == "" then 0 else |Title(n)| + |Content(b, checked, n)| + 5
  }

  lemma RenderFirst(b: Business, checked: Option<string>, n: SectionName, rest: seq<SectionName>)
    requires rest != []
    ensures |Render(b, checked, [n] + rest)| == SectionLength(b, checked, n) + |Render(b, checked, rest)|
  {
    assert ([n] + rest)[1..] == rest;
  }

  lemma PromptLength(b: Business, checked: Option<string>)
    ensures |RenderPrompt(b, checked)|
            == SectionLength(b, checked, ObjectiveSection) + SectionLength(b, checked, SummarySection)
               + SectionLength(b, checked, ScopeSection) + SectionLength(b, checked, ForbiddenSection)
               + SectionLength(b, checked, PathsSection) + SectionLength(b, checked, MaterialsSection)
               + SectionLength(b, checked, CompletionSection) + SectionLength(b, checked, EvidenceSection)
               + |Title(DutySection)| + 3 + DUTY_LENGTH
  {
    var last := [DutySection];
    var s8 := [EvidenceSection] + last;
    var s7 := [CompletionSection] + s8;
    var s6 := [MaterialsSection] + s7;
    var s5 := [PathsSection] + s6;
    var s4 := [ForbiddenSection] + s5;
    var s3 := [ScopeSection] + s4;
    var s2 := [SummarySection] + s3;
    assert SECTIONS == [ObjectiveSection] + s2;
    RenderFirst(b, checked, ObjectiveSection, s2);
    RenderFirst(b, checked, SummarySection, s3);
    RenderFirst(b, checked, ScopeSection, s4);
    RenderFirst(b, checked, ForbiddenSection, s5);
    RenderFirst(b, checked, PathsSection, s6);
    RenderFirst(b, checked, MaterialsSection, s7);
    RenderFirst(b, checked, CompletionSection, s8);
    RenderFirst(b, checked, EvidenceSection, last);
    LastSection(b, checked);
  }

  lemma LastSection(b: Business, checked: Option<string>)
    ensures |Render(b, checked, [DutySection])| == |Title(DutySection)| + 3 + DUTY_LENGTH
  {
  }

  // ----- the contract --------------------------------------------------------------------------

  /** A business record of exactly the byte limit. */
  function WideBusiness(): Business {
    Business("standard", Repeat(8192), Repeat(7895), Items(48, 1024), [], [], Items(1, 1), [], None)
  }

  lemma WideBytes()
    ensures RecordBytes(WideBusiness()) == MAX_CONTRACT_SUMMARY_BYTES
  {
    RepeatBytes(8192);
    RepeatBytes(7895);
    ItemsCost(48, 1024);
    ItemsCost(1, 1);
    ProfileBytes();
  }

  lemma ProfileBytes()
    ensures TextBytes("standard") == 8
  {
    var s := "standard";
    assert s[1..] == "tandard" && s[1..][1..] == "andard" && s[2..] == "andard" && s[2..][1..] == "ndard";
    assert TextBytes("rd") == 2 by { assert "rd"[1..] == "d"; assert TextBytes("d") == 1; }
    assert TextBytes("dard") == 4 by { assert "dard"[1..] == "ard" && "ard"[1..] == "rd"; }
    assert TextBytes("ndard") == 5 by { assert "ndard"[1..] == "dard"; }
    assert TextBytes("andard") == 6 by { assert "andard"[1..] == "ndard"; }
    assert TextBytes("tandard") == 7 by { assert "tandard"[1..] == "andard"; }
  }

  lemma RepeatIsText(n: nat, maximum: nat)
    requires 0 < n <= maximum
    ensures Text(Repeat(n), maximum)
  {
  }

  lemma ItemsAreTexts(count: nat, n: nat)
    requires 1 <= count <= MAX_LIST_ITEMS && 0 < n <= MAX_CONTRACT_TEXT
    ensures TextList(Items(count, n), 1, MAX_CONTRACT_TEXT)
  {
    RepeatIsText(n, MAX_CONTRACT_TEXT);
  }

  lemma WideLists()
    ensures TextList(WideBusiness().scope, 1, MAX_CONTRACT_TEXT) && TextList(WideBusiness().completion, 1, MAX_CONTRACT_TEXT)
    ensures TextList([], 0, MAX_CONTRACT_TEXT) && ValidPaths([])
  {
    ItemsAreTexts(48, 1024);
    ItemsAreTexts(1, 1);
  }

  lemma WideIsValid()
    ensures ValidBusiness(WideBusiness())
  {
    assert RecordBytes(WideBusiness()) <= MAX_CONTRACT_SUMMARY_BYTES by { WideBytes(); }
    assert Text(WideBusiness().objective, MAX_BUSINESS_TEXT) by { RepeatIsText(8192, MAX_BUSINESS_TEXT); }
    WideLists();
    ValidBusinessIs(WideBusiness());
  }

  lemma WidePrompt()
    ensures |RenderPrompt(WideBusiness(), None)| == 65544
  {
    PromptLength(WideBusiness(), None);
    ItemsCost(48, 1024);
    ItemsCost(1, 1);
  }

  function WideRequest(first: Candidate, second: Candidate, createdAt: nat): Request {
    Request(Contract(WideBusiness(), Spawn("none", None, None)), FORK_CONTEXT, first, second, Unreachable, createdAt)
  }

  /** The message alone is refused: the contract is valid to the byte, the callback prepares the
      record on an empty ledger, and the write check does not admit it. */
  lemma MessageCanBeTooLong(first: Candidate, second: Candidate, createdAt: nat, bytes: Ledger -> nat)
    requires Text(first.id, 256) && SizeIsMonotone(bytes)
    ensures var r := WideRequest(first, second, createdAt);
            && Admissible(r) && ApplyPrepare(map[], r, bytes).Ok?
            && !Admitted(ApplyPrepare(map[], r, bytes).value.ledger, bytes)
  {
    var r := WideRequest(first, second, createdAt);
    WideIsValid();
    assert TryCandidate(map[], first).Some? by { FreshReference(first.hex); }
    PrepareNeedsIdentity(map[], r, bytes);
    PrepareAdmission(map[], r, bytes);
    var (id, ref) := ChooseIdentity(map[], first, second).value;
    WideMessage(r, ref);
  }

  lemma FreshReference(hex: Sha256Hex)
    ensures SelectTaskRef(hex, OccupiedRefs(map[])).Some?
  {
  }

  lemma WideMessage(r: Request, ref: string)
    requires Admissible(r) && IsTaskRef(ref) && r.contract.business == WideBusiness()
    ensures PreparedRecord(r, ref).Ok? && |MessageOf(r, ref)| > MAX_MESSAGE
  {
    var name := PreparedName(r, ref);
    WidePrompt();
    assert |MessageFor(name, RenderPrompt(WideBusiness(), None))| == |MESSAGE_PREFIX| + |name| + 2 + 65544;
  }
}
