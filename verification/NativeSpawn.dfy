/** scripts/governance_native_adapter.py and governance_dispatch_rendering.py: the semantic
    spawn configuration, its shape in each native interface, and the way back. */
module NativeSpawn {
  import opened Basics
  import opened TaskNames

  /** A JSON value of a native tool call; numbers, arrays and objects are all `JOther`. */
  datatype Json = JNull | JBool(flag: bool) | JString(text: string) | JOther

  type ToolInput = map<string, Json>

  datatype InputError = Unavailable | Mismatch | InterfaceInvalid | SpawnInvalid

  datatype Spawn = Spawn(fork_turns: string, model: Option<string>, reasoning_effort: Option<string>)

  /** Semantic parameters; an absent model or effort is `None`. */
  datatype NativeParameters = NativeParameters(
    task_name: Option<string>, message: string, fork_turns: string,
    model: Option<Json>, reasoning_effort: Option<Json>)

  const COLLABORATION_TURNS := "collaboration_turns"
  const FORK_CONTEXT := "fork_context"

  predicate IsInterface(i: string) { i == COLLABORATION_TURNS || i == FORK_CONTEXT }

  predicate IsForkTurns(turns: string) {
    || turns == "none" || turns == "all"
    || (0 < |turns| <= 12 && turns[0] != '0' && forall i :: 0 <= i < |turns| ==> '0' <= turns[i] <= '9')
  }

  /** `validate_native_spawn`. */
  predicate ValidNativeSpawn(i: string, spawn: Spawn) {
    && IsInterface(i)
    && IsForkTurns(spawn.fork_turns)
    && (i == COLLABORATION_TURNS && spawn.fork_turns == "all"
        ==> spawn.model.None? && spawn.reasoning_effort.None?)
    && (i == FORK_CONTEXT ==> spawn.fork_turns == "none" || spawn.fork_turns == "all")
  }

  function Lift(text: Option<string>): Option<Json> {
    match text case None => None case Some(s) => Some(JString(s))
  }

  /** `expected_native_parameters`, the prompt being already rendered. */
  function ExpectedNativeParameters(spawn: Spawn, taskName: string, prompt: string): NativeParameters {
    NativeParameters(Some(taskName), MessageFor(taskName, prompt), spawn.fork_turns,
                     Lift(spawn.model), Lift(spawn.reasoning_effort))
  }

  function Present(key: string, value: Option<Json>): ToolInput {
    match value case None => map[] case Some(v) => map[key := v]
  }

  /** `render_native_spawn` of validated expectations: absent values are left out. */
  function RenderNativeSpawn(i: string, spawn: Spawn, taskName: string, prompt: string): Result<ToolInput, InputError> {
    if !ValidNativeSpawn(i, spawn) then Err(SpawnInvalid)
    else
      var expected := ExpectedNativeParameters(spawn, taskName, prompt);
      var overrides := Present("model", expected.model) + Present("reasoning_effort", expected.reasoning_effort);
      if i == COLLABORATION_TURNS then
        Ok(map["message" := JString(expected.message), "task_name" := JString(taskName),
               "fork_turns" := JString(expected.fork_turns)] + overrides)
      else
        Ok(map["message" := JString(expected.message),
               "fork_context" := JBool(expected.fork_turns == "all")] + overrides)
  }

  function Get(input: ToolInput, key: string): Option<Json> {
    if key in input then Some(input[key]) else None
  }

  predicate KnownFieldsOnly(i: string, input: ToolInput) {
    forall k <- input.Keys ::
      k in (if i == COLLABORATION_TURNS
            then {"task_name", "message", "fork_turns", "model", "reasoning_effort"}
            else {"message", "fork_context", "model", "reasoning_effort"})
  }

  /** `normalize_native_spawn` on a JSON object. */
  function NormalizeNativeSpawn(i: string, input: ToolInput): Result<NativeParameters, InputError> {
    if !IsInterface(i) then Err(InterfaceInvalid)
    else if !KnownFieldsOnly(i, input) then Err(Unavailable)
    else if "message" !in input || !input["message"].JString? then Err(Unavailable)
    else if Get(input, "model") == Some(JNull) || Get(input, "reasoning_effort") == Some(JNull) then Err(Unavailable)
    else
      var message := input["message"].text;
      if i == COLLABORATION_TURNS then
        if "task_name" !in input || !input["task_name"].JString? then Err(Unavailable)
        else
          var name, embedded := input["task_name"].text, TaskNameFromMessage(message);
          var turns := if "fork_turns" in input then input["fork_turns"] else JString("all");
          if embedded.Some? && embedded.value != name then Err(Mismatch)
          else if !turns.JString? || !IsForkTurns(turns.text) then Err(Mismatch)
          else Ok(NativeParameters(Some(name), message, turns.text, Get(input, "model"), Get(input, "reasoning_effort")))
      else
        var context := if "fork_context" in input then input["fork_context"] else JBool(false);
        if !context.JBool? then Err(Mismatch)
        else Ok(NativeParameters(TaskNameFromMessage(message), message, if context.flag then "all" else "none",
                                 Get(input, "model"), Get(input, "reasoning_effort")))
  }

  /** `_claim_parameters_match`: the message itself is not compared. */
  function ClaimParametersMatch(i: string, input: ToolInput, expected: NativeParameters): Result<bool, InputError> {
    match NormalizeNativeSpawn(i, input)
    case Err(e) => Err(e)
    case Ok(actual) =>
      Ok(actual.task_name == expected.task_name && actual.fork_turns == expected.fork_turns
         && actual.model == expected.model && actual.reasoning_effort == expected.reasoning_effort)
  }

  lemma RenderedFields(i: string, spawn: Spawn, taskName: string, prompt: string)
    requires ValidNativeSpawn(i, spawn)
    ensures var rendered := RenderNativeSpawn(i, spawn, taskName, prompt);
            && rendered.Ok? && KnownFieldsOnly(i, rendered.value)
            && Get(rendered.value, "message") == Some(JString(MessageFor(taskName, prompt)))
            && Get(rendered.value, "model") == Lift(spawn.model)
            && Get(rendered.value, "reasoning_effort") == Lift(spawn.reasoning_effort)
            && (i == COLLABORATION_TURNS ==> Get(rendered.value, "task_name") == Some(JString(taskName))
                                             && Get(rendered.value, "fork_turns") == Some(JString(spawn.fork_turns)))
            && (i == FORK_CONTEXT ==> Get(rendered.value, "fork_context") == Some(JBool(spawn.fork_turns == "all")))
  {
  }

  /** Rendering then normalising gives every semantic parameter back, for either interface
      and every admissible configuration. */
  lemma RenderThenNormalize(i: string, spawn: Spawn, taskName: string, prompt: string)
    requires ValidNativeSpawn(i, spawn) && ParseTaskName(taskName).Some?
    ensures var rendered := RenderNativeSpawn(i, spawn, taskName, prompt);
            rendered.Ok? && NormalizeNativeSpawn(i, rendered.value)
                            == Ok(ExpectedNativeParameters(spawn, taskName, prompt))
  {
    HeaderRoundTrip(taskName, prompt);
    RenderedFields(i, spawn, taskName, prompt);
    var rendered := RenderNativeSpawn(i, spawn, taskName, prompt).value;
    NormalizedFields(i, rendered, spawn, taskName, prompt);
  }

  lemma NormalizedFields(i: string, input: ToolInput, spawn: Spawn, taskName: string, prompt: string)
    requires ValidNativeSpawn(i, spawn) && TaskNameFromMessage(MessageFor(taskName, prompt)) == Some(taskName)
    requires KnownFieldsOnly(i, input) && Get(input, "message") == Some(JString(MessageFor(taskName, prompt)))
    requires Get(input, "model") == Lift(spawn.model) && Get(input, "reasoning_effort") == Lift(spawn.reasoning_effort)
    requires i == COLLABORATION_TURNS ==> Get(input, "task_name") == Some(JString(taskName))
                                          && Get(input, "fork_turns") == Some(JString(spawn.fork_turns))
    requires i == FORK_CONTEXT ==> Get(input, "fork_context") == Some(JBool(spawn.fork_turns == "all"))
    ensures NormalizeNativeSpawn(i, input) == Ok(ExpectedNativeParameters(spawn, taskName, prompt))
  {
  }

  /** A rendered call passes the claim comparison against a capability exactly when it was
      rendered for the same name and the same spawn configuration. */
  lemma ClaimComparisonIsExact(i: string, sent: Spawn, sentName: string, sentPrompt: string,
                               frozen: Spawn, frozenName: string, frozenPrompt: string)
    requires ValidNativeSpawn(i, sent) && ParseTaskName(sentName).Some?
    ensures var rendered := RenderNativeSpawn(i, sent, sentName, sentPrompt);
            && rendered.Ok?
            && ClaimParametersMatch(i, rendered.value, ExpectedNativeParameters(frozen, frozenName, frozenPrompt))
               == Ok(sentName == frozenName && sent == frozen)
  {
    RenderThenNormalize(i, sent, sentName, sentPrompt);
  }

  /** The same call rendered for the other interface is never mistaken for this one: either
      its fields cannot be verified, or it lacks the task name this interface requires. */
  lemma InterfacesDoNotMix(spawn: Spawn, taskName: string, prompt: string)
    requires ValidNativeSpawn(COLLABORATION_TURNS, spawn) && ValidNativeSpawn(FORK_CONTEXT, spawn)
    ensures NormalizeNativeSpawn(FORK_CONTEXT, RenderNativeSpawn(COLLABORATION_TURNS, spawn, taskName, prompt).value)
            == Err(Unavailable)
    ensures NormalizeNativeSpawn(COLLABORATION_TURNS, RenderNativeSpawn(FORK_CONTEXT, spawn, taskName, prompt).value)
            == Err(Unavailable)
  {
    assert "task_name" in RenderNativeSpawn(COLLABORATION_TURNS, spawn, taskName, prompt).value;
    assert "fork_context" in RenderNativeSpawn(FORK_CONTEXT, spawn, taskName, prompt).value;
  }
}
