/** What native calls and messages are read as, for any input, told without the readers
    (scripts/governance_native_adapter.py, scripts/governance_dispatch_identity.py,
    scripts/governance_hook.py). */
module NativeInputs {
  import opened Basics
  import opened TaskNames
  import opened NativeSpawn
  import opened HookAnswers

  // ----- the message header --------------------------------------------------------------------

  lemma {:induction false} FirstLineIs(s: string)
    ensures var line := FirstLine(s);
            && line <= s && '\n' !in line && (|line| < |s| ==> s[|line|] == '\n')
  {
    if s != "" && s[0] != '\n' {
      FirstLineIs(s[1..]);
      assert s == [s[0]] + s[1..];
    }
  }

  lemma LineTells(s: string, line: string)
    requires line <= s && '\n' !in line && (|line| < |s| ==> s[|line|] == '\n')
    ensures FirstLine(s) == line
  {
    FirstLineIs(s);
    var first := FirstLine(s);
    assert |first| == |line|;
  }

  /** A message names a task exactly when its first line is the marker around a name that parses. */
  lemma HeaderIsExact(message: string, name: string)
    ensures TaskNameFromMessage(message) == Some(name)
            <==> ParseTaskName(name).Some?
                 && var line := MESSAGE_PREFIX + name + "]"; line <= message && (|line| < |message| ==> message[|line|] == '\n')
  {
    FirstLineIs(message);
    var header, line := FirstLine(message), MESSAGE_PREFIX + name + "]";
    if TaskNameFromMessage(message) == Some(name) {
      HeaderFolds(message, header, name);
    }
    if ParseTaskName(name).Some? && line <= message && (|line| < |message| ==> message[|line|] == '\n') {
      ParsedNamesAreOneLine(name);
      NoNewline(name);
      LineTells(message, line);
      assert line[|MESSAGE_PREFIX|..|line| - 1] == name;
    }
  }

  lemma HeaderFolds(message: string, header: string, name: string)
    requires MESSAGE_PREFIX <= message && header == FirstLine(message) && header <= message
    requires |header| > |MESSAGE_PREFIX| && header[|header| - 1] == ']' && name == header[|MESSAGE_PREFIX|..|header| - 1]
    ensures header == MESSAGE_PREFIX + name + "]"
  {
    assert header[..|MESSAGE_PREFIX|] == MESSAGE_PREFIX;
    assert header == header[..|MESSAGE_PREFIX|] + header[|MESSAGE_PREFIX|..|header| - 1] + [header[|header| - 1]];
  }

  lemma NoNewline(name: string)
    requires forall i :: 0 <= i < |name| ==> !IsSpace(name[i])
    ensures '\n' !in MESSAGE_PREFIX + name + "]"
  {
    assert IsSpace('\n');
    assert forall i :: 0 <= i < |MESSAGE_PREFIX| ==> MESSAGE_PREFIX[i] != '\n';
  }

  // ----- native calls --------------------------------------------------------------------------

  /** The fields both interfaces share: a text message, and overrides that are not null. */
  predicate SharedFields(input: ToolInput, message: string) {
    && "message" in input && input["message"] == JString(message)
    && ("model" in input ==> input["model"] != JNull) && ("reasoning_effort" in input ==> input["reasoning_effort"] != JNull)
  }

  predicate IsOverride(input: ToolInput, key: string, v: Option<Json>) {
    if key in input then v == Some(input[key]) else v == None
  }

  /** The turns interface: every field is known, the name is given and agrees with the marker, and
      turns left out are all turns. */
  lemma TurnsCallIsExact(input: ToolInput, p: NativeParameters)
    ensures NormalizeNativeSpawn(COLLABORATION_TURNS, input) == Ok(p)
            <==> && input.Keys <= {"task_name", "message", "fork_turns", "model", "reasoning_effort"}
                 && SharedFields(input, p.message) && p.task_name.Some?
                 && "task_name" in input && input["task_name"] == JString(p.task_name.value)
                 && (TaskNameFromMessage(p.message).Some? ==> TaskNameFromMessage(p.message) == p.task_name)
                 && (if "fork_turns" in input then input["fork_turns"] == JString(p.fork_turns) else p.fork_turns == "all")
                 && IsForkTurns(p.fork_turns)
                 && IsOverride(input, "model", p.model) && IsOverride(input, "reasoning_effort", p.reasoning_effort)
  {
    assert KnownFieldsOnly(COLLABORATION_TURNS, input)
           <==> input.Keys <= {"task_name", "message", "fork_turns", "model", "reasoning_effort"};
  }

  /** The context interface: the name is the marker's, and a context left out is not forked. */
  lemma ContextCallIsExact(input: ToolInput, p: NativeParameters)
    ensures NormalizeNativeSpawn(FORK_CONTEXT, input) == Ok(p)
            <==> && input.Keys <= {"message", "fork_context", "model", "reasoning_effort"}
                 && SharedFields(input, p.message) && p.task_name == TaskNameFromMessage(p.message)
                 && (if "fork_context" in input
                     then (input["fork_context"] == JBool(true) && p.fork_turns == "all")
                          || (input["fork_context"] == JBool(false) && p.fork_turns == "none")
                     else p.fork_turns == "none")
                 && IsOverride(input, "model", p.model) && IsOverride(input, "reasoning_effort", p.reasoning_effort)
  {
    assert KnownFieldsOnly(FORK_CONTEXT, input) <==> input.Keys <= {"message", "fork_context", "model", "reasoning_effort"};
  }

  /** A known call that contradicts itself is a mismatch, and not one that cannot be verified. */
  lemma MismatchIsExact(i: string, input: ToolInput)
    requires i == COLLABORATION_TURNS || i == FORK_CONTEXT
    ensures NormalizeNativeSpawn(i, input) == Err(Mismatch)
            <==> && KnownFieldsOnly(i, input) && (exists message :: SharedFields(input, message))
                 && (i == COLLABORATION_TURNS ==>
                       "task_name" in input && input["task_name"].JString?
                       && ((TaskNameFromMessage(input["message"].text).Some?
                            && TaskNameFromMessage(input["message"].text).value != input["task_name"].text)
                           || ("fork_turns" in input && (!input["fork_turns"].JString? || !IsForkTurns(input["fork_turns"].text)))))
                 && (i == FORK_CONTEXT ==> "fork_context" in input && !input["fork_context"].JBool?)
  {
    assert IsForkTurns("all");
    if "message" in input && input["message"].JString? {
      assert ("model" in input ==> input["model"] != JNull) && ("reasoning_effort" in input ==> input["reasoning_effort"] != JNull)
             ==> SharedFields(input, input["message"].text);
    }
  }

  /** What the frozen parameters say of the fields both interfaces have besides the name. */
  predicate AsFrozen(input: ToolInput, expected: NativeParameters) {
    && "message" in input && input["message"].JString? && SharedFields(input, input["message"].text)
    && IsOverride(input, "model", expected.model) && IsOverride(input, "reasoning_effort", expected.reasoning_effort)
  }

  /** A call of the turns interface is the frozen one exactly when name, turns, model and effort are;
      its message is free, as long as a marker in it names the same task. */
  lemma TurnsMatchIsExact(input: ToolInput, expected: NativeParameters)
    ensures ClaimParametersMatch(COLLABORATION_TURNS, input, expected) == Ok(true)
            <==> && input.Keys <= {"task_name", "message", "fork_turns", "model", "reasoning_effort"} && AsFrozen(input, expected)
                 && expected.task_name.Some?
                 && "task_name" in input && input["task_name"] == JString(expected.task_name.value)
                 && (TaskNameFromMessage(input["message"].text).Some? ==>
                       TaskNameFromMessage(input["message"].text) == expected.task_name)
                 && IsForkTurns(expected.fork_turns)
                 && (if "fork_turns" in input then input["fork_turns"] == JString(expected.fork_turns)
                     else expected.fork_turns == "all")
  {
    if "message" in input && input["message"].JString? {
      TurnsCallIsExact(input, expected.(message := input["message"].text));
    }
  }

  /** A call of the context interface is the frozen one exactly when the name its marker gives, the
      context, model and effort are. */
  lemma ContextMatchIsExact(input: ToolInput, expected: NativeParameters)
    ensures ClaimParametersMatch(FORK_CONTEXT, input, expected) == Ok(true)
            <==> && input.Keys <= {"message", "fork_context", "model", "reasoning_effort"} && AsFrozen(input, expected)
                 && TaskNameFromMessage(input["message"].text) == expected.task_name
                 && (if "fork_context" in input
                     then input["fork_context"].JBool? && expected.fork_turns == (if input["fork_context"].flag then "all" else "none")
                     else expected.fork_turns == "none")
  {
    if "message" in input && input["message"].JString? {
      ContextCallIsExact(input, expected.(message := input["message"].text));
    }
  }

  /** Turns are none, all, or a positive number of at most twelve digits. */
  lemma TurnsAre(turns: string)
    ensures IsForkTurns(turns)
            <==> turns == "none" || turns == "all"
                 || (1 <= |turns| <= 12 && turns[0] != '0' && forall c <- turns :: c in "0123456789")
  {
    forall c: char ensures c in "0123456789" <==> '0' <= c <= '9' {
      Digits(c);
    }
    AllDigits(turns);
  }

  lemma AllDigits(s: string)
    ensures (forall i :: 0 <= i < |s| ==> '0' <= s[i] <= '9') <==> forall c <- s :: '0' <= c <= '9'
  {
    if forall i :: 0 <= i < |s| ==> '0' <= s[i] <= '9' {
      forall c | c in s ensures '0' <= c <= '9' {
        var i :| 0 <= i < |s| && s[i] == c;
      }
    }
    if forall c <- s :: '0' <= c <= '9' {
      forall i | 0 <= i < |s| ensures '0' <= s[i] <= '9' {
        assert s[i] in s;
      }
    }
  }

  lemma Digits(c: char)
    ensures c in "0123456789" <==> '0' <= c <= '9'
  {
    var d := "0123456789";
    assert d[0] == '0' && d[1] == '1' && d[2] == '2' && d[3] == '3' && d[4] == '4' && d[5] == '5' && d[6] == '6'
           && d[7] == '7' && d[8] == '8' && d[9] == '9';
  }

  // ----- calls the Hook does not attempt --------------------------------------------------------

  /** The Hook says nothing exactly about calls that are no spawn, carry no name and no marker, or
      carry an explicit name that is not a governed one, without a marker. */
  lemma IgnoredExactly(p: Payload)
    ensures Recognise(p).Ignored?
            <==> || !p.isSpawn
                 || (p.input.Some? && !(MESSAGE_PREFIX <= MessageText(p.input.value))
                     && (ExplicitName(p.input.value).None?
                         || (ExplicitName(p.input.value).value.JString? && ParseTaskName(ExplicitName(p.input.value).value.text).None?)))
  {
  }

  /** A denial before any attempt: a marker that is broken, contradicts the explicit name, or stands
      over a name that is not governed. */
  lemma DeniedAtOnceExactly(p: Payload)
    ensures Recognise(p) == AnsweredAtOnce(Answer(MarkerConflict, Recognition, NotAttempted, Deny))
            <==> p.isSpawn && p.input.Some? && MESSAGE_PREFIX <= MessageText(p.input.value)
                 && (ExplicitName(p.input.value).Some? ==> ExplicitName(p.input.value).value.JString?)
                 && (TaskNameFromMessage(MessageText(p.input.value)).None?
                     || (ExplicitName(p.input.value).Some?
                         && ExplicitName(p.input.value).value.text != TaskNameFromMessage(MessageText(p.input.value)).value))
  {
  }
}
