/** What the strict validator accepts, record by record and phase by phase, in one flat list of
    conditions on the stored fields (scripts/governance_state.py). */
module RecordRules {
  import opened Basics
  import opened TaskNames
  import opened NativeSpawn
  import opened Contracts
  import opened Records

  predicate At(time: Option<int>) { time.Some? && time.value >= 0 }

  predicate Named(text: Option<string>, maximum: nat) {
    text.Some? && text.value != "" && Strip(text.value) == text.value && |text.value| <= maximum
  }

  /** Fields every record carries. */
  predicate CommonRules(id: string, t: Task) {
    && id != "" && Strip(id) == id && |id| <= 256
    && (|t.task_ref| == 12 || |t.task_ref| == 20) && (forall c <- t.task_ref :: '0' <= c <= '9' || 'a' <= c <= 'f')
    && (t.native_interface == "collaboration_turns" || t.native_interface == "fork_context")
    && ValidBusiness(t.contract_summary) && t.contract_digest == OfBusiness(t.contract_summary)
    && 0 <= t.created_at && t.created_at <= t.updated_at
  }

  /** The capability of a prepared or claimed record, and how it fits the record. */
  predicate CapabilityRules(t: Task) {
    && t.prepared.Some?
    && var p := t.prepared.value; var spawn := p.contract.spawn;
       && ValidContract(p.contract) && p.contract.business == t.contract_summary && t.contract_digest == OfBusiness(p.contract.business)
       && p.spawn_digest == OfSpawn(spawn)
       && (p.contract.business.verified.None? <==> p.context_verification.None?)
       && (p.context_verification.Some? ==> p.contract.business.verified == Some(p.context_verification.value.manifest))
       && Named(p.expected_native_parameters.task_name, 64) && Named(Some(p.expected_native_parameters.message), 65536)
       && p.expected_native_parameters.fork_turns == spawn.fork_turns
       && p.expected_native_parameters.model == (if spawn.model.Some? then Some(JString(spawn.model.value)) else None)
       && p.expected_native_parameters.reasoning_effort
          == (if spawn.reasoning_effort.Some? then Some(JString(spawn.reasoning_effort.value)) else None)
       && 0 <= p.expires_at && (t.native_interface == "collaboration_turns" || t.native_interface == "fork_context")
       && (t.native_interface == "fork_context" ==> spawn.fork_turns == "none" || spawn.fork_turns == "all")
       && (t.native_interface == "collaboration_turns" && spawn.fork_turns == "all" ==>
             spawn.model.None? && spawn.reasoning_effort.None?)
  }

  /** Facts that are present are well formed, whatever the phase. */
  predicate FactRules(t: Task) {
    && (t.terminal_fact.Some? ==>
          t.terminal_fact.value.status in {Completed, Stopped, Interrupted, Failed, Inactive} && t.terminal_fact.value.observed_at >= 0)
    && (t.platform_observation.Some? ==>
          t.platform_observation.value.status in {Running, Completed, Stopped, Interrupted, Errored}
          && t.platform_observation.value.observed_at >= 0)
    && (t.interrupt_fact.Some? ==> t.interrupt_fact.value.result in {Failed, Inactive} && t.interrupt_fact.value.observed_at >= 0)
    && (t.unknown_facts.Some? ==>
          t.unknown_facts.value != map[] && forall c <- t.unknown_facts.value :: t.unknown_facts.value[c] >= 0)
    && (t.reconcile.Some? ==> t.reconcile.value.observed_at >= 0)
    && (t.target.Some? || t.unknown_facts.Some? ==> Named(t.target, 1024) && At(t.bound_at))
  }

  /** Which fields each phase has and has not. */
  predicate PhaseRules(t: Task) {
    var noFacts := t.target.None? && t.bound_at.None? && t.platform_observation.None? && t.terminal_fact.None?
                   && t.interrupt_fact.None? && t.unknown_facts.None? && t.reconcile.None?;
    var noClaim := t.claimed_tool_use_id.None? && t.claimed_at.None?;
    var open := t.close_reason.None? && t.closed_at.None?;
    match t.phase
    case Prepared => CapabilityRules(t) && noFacts && noClaim && open
    case Claimed => CapabilityRules(t) && noFacts && open && Named(t.claimed_tool_use_id, 1024) && At(t.claimed_at)
    case Bound =>
      t.prepared.None? && noClaim && open && Named(t.target, 1024) && At(t.bound_at) && t.terminal_fact.None? && t.reconcile.None?
      && FactRules(t)
    case Terminal =>
      t.prepared.None? && noClaim && open && Named(t.target, 1024) && At(t.bound_at) && t.terminal_fact.Some? && t.reconcile.None?
      && FactRules(t)
    case Reconcile => t.prepared.None? && noClaim && open && t.reconcile.Some? && FactRules(t)
    case Closed => t.prepared.None? && noClaim && Named(t.close_reason, 1024) && At(t.closed_at) && FactRules(t)
  }

  // ----- stripped texts ----------------------------------------------------------------------------

  lemma StripEnds(s: string)
    ensures Strip(s) != "" ==> !IsSpace(Strip(s)[0]) && !IsSpace(Strip(s)[|Strip(s)| - 1])
  {
    LeftEnds(s);
    RightEnds(StripLeft(s));
  }

  lemma {:induction false} LeftEnds(s: string)
    ensures StripLeft(s) != "" ==> !IsSpace(StripLeft(s)[0])
  {
    if s != "" && IsSpace(s[0]) {
      LeftEnds(s[1..]);
    }
  }

  lemma {:induction false} RightEnds(s: string)
    ensures StripRight(s) != "" ==> !IsSpace(StripRight(s)[|StripRight(s)| - 1]) && StripRight(s)[0] == s[0]
  {
    if s != "" && IsSpace(s[|s| - 1]) {
      RightEnds(s[..|s| - 1]);
    }
  }

  lemma {:induction false} LeftIsTail(s: string) returns (i: nat)
    ensures i <= |s| && StripLeft(s) == s[i..] && forall k :: 0 <= k < i ==> IsSpace(s[k])
  {
    i := 0;
    if s != "" && IsSpace(s[0]) {
      var rest := LeftIsTail(s[1..]);
      i := rest + 1;
    }
  }

  lemma {:induction false} RightIsHead(s: string) returns (j: nat)
    ensures j <= |s| && StripRight(s) == s[..j] && forall k :: j <= k < |s| ==> IsSpace(s[k])
  {
    j := |s|;
    if s != "" && IsSpace(s[|s| - 1]) {
      j := RightIsHead(s[..|s| - 1]);
    }
  }

  /** Stripping cuts off whitespace at both ends and nothing else. */
  lemma StripCuts(s: string) returns (i: nat, j: nat)
    ensures i <= j <= |s| && Strip(s) == s[i..j]
    ensures forall k :: 0 <= k < i || j <= k < |s| ==> IsSpace(s[k])
    ensures i < j ==> !IsSpace(s[i]) && !IsSpace(s[j - 1])
  {
    i := LeftIsTail(s);
    var length := RightIsHead(StripLeft(s));
    j := i + length;
    assert forall k :: j <= k < |s| ==> s[k] == StripLeft(s)[k - i];
    StripEnds(s);
  }

  /** A bounded text is a non-empty one that stripping leaves alone. */
  lemma TextIs(s: string, maximum: nat)
    ensures Text(s, maximum) <==> s != "" && Strip(s) == s && |s| <= maximum
  {
    if Stripped(s) {
      StrippedIsFixed(s);
    }
    if Strip(s) == s {
      StripEnds(s);
    }
  }

  lemma NamedIs(text: Option<string>, maximum: nat)
    ensures Named(text, maximum) <==> text.Some? && Text(text.value, maximum)
  {
    if text.Some? {
      TextIs(text.value, maximum);
    }
  }

  // ----- the rules are the validator's -----------------------------------------------------------

  lemma HexIs(s: string)
    ensures IsHex(s) <==> forall c <- s :: '0' <= c <= '9' || 'a' <= c <= 'f'
  {
    if IsHex(s) {
      forall c | c in s ensures '0' <= c <= '9' || 'a' <= c <= 'f' {
        var i :| 0 <= i < |s| && s[i] == c;
      }
    } else {
      var i :| 0 <= i < |s| && !('0' <= s[i] <= '9' || 'a' <= s[i] <= 'f');
      assert s[i] in s;
    }
  }

  lemma CommonRulesAre(id: string, t: Task)
    ensures CommonRules(id, t) <==> Text(id, 256) && ValidIdentity(t)
  {
    TextIs(id, 256);
    HexIs(t.task_ref);
  }

  lemma CapabilityRulesAre(t: Task)
    ensures CapabilityRules(t) <==> t.prepared.Some? && ValidCapability(t, t.prepared.value)
  {
    if t.prepared.Some? {
      NamedIs(t.prepared.value.expected_native_parameters.task_name, 64);
      NamedIs(Some(t.prepared.value.expected_native_parameters.message), 65536);
    }
  }

  lemma FactRulesAre(t: Task)
    ensures FactRules(t) <==> ValidEvidence(t)
  {
    NamedIs(t.target, 1024);
  }

  lemma PhaseRulesAre(t: Task)
    ensures PhaseRules(t) <==> ValidShape(t)
  {
    CapabilityRulesAre(t);
    FactRulesAre(t);
    NamedIs(t.target, 1024);
    NamedIs(t.claimed_tool_use_id, 1024);
    NamedIs(t.close_reason, 1024);
  }

  /** The validator accepts a record exactly under these rules. */
  lemma AcceptedByTheRules(id: string, t: Task)
    ensures Accepted(id, t) <==> CommonRules(id, t) && PhaseRules(t)
  {
    AcceptedIsValid(id, t);
    CommonRulesAre(id, t);
    PhaseRulesAre(t);
  }

  /** And a ledger: at most 512 such records, no two with one reference, and no two that are bound,
      terminal or in reconcile with one target. */
  lemma LedgerByTheRules(l: Ledger)
    ensures ValidLedger(l)
            <==> && |l| <= 512 && (forall id <- l :: CommonRules(id, l[id]) && PhaseRules(l[id]))
                 && (forall a, b :: a in l && b in l && a != b ==> l[a].task_ref != l[b].task_ref)
                 && (forall a, b :: a in l && b in l && a != b && l[a].phase in {Bound, Terminal, Reconcile}
                                    && l[b].phase in {Bound, Terminal, Reconcile} && l[a].target.Some?
                                    ==> l[a].target != l[b].target)
  {
    forall id ensures id in l ==> (Accepted(id, l[id]) <==> CommonRules(id, l[id]) && PhaseRules(l[id])) {
      if id in l {
        AcceptedByTheRules(id, l[id]);
      }
    }
  }
}
