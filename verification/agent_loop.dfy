/** The agent's loop (app/agent/loop.py) over any provider and any sandbox.
    A provider is one of the two the bench has: one that records a real model's answers, and one that
    replays a recording (bench/replay.py). */
module AgentLoop {
  import opened Wrappers
  import JsonText

  // ---- messages, tools and their results ----

  datatype Role = System | User | Assistant

  datatype Message = Message(role: Role, content: string)

  datatype ToolName = ReadFile | WriteFile | ListDir | RunCommand | RunTests | Finish | Escalate

  /** A decoded json value. */
  datatype Json = Null | Bool(b: bool) | Num(text: string) | Str(s: string) | List(items: seq<Json>) | Dict(entries: map<string, Json>)

  datatype ToolCall = ToolCall(name: ToolName, arguments: map<string, Json>)

  datatype ToolResult = ToolResult(output: string, ok: bool, exitCode: Option<int>, timedOut: bool, truncated: bool)

  /** What executing a tool call comes to: a result, or an exception with its text. */
  datatype Executed = Returned(result: ToolResult) | Threw(text: string)

  datatype Completion = Completion(
    content: string, promptTokens: int, completionTokens: int, model: Option<string>, fingerprint: Option<string>)

  datatype Config = Config(
    maxIterations: int, maxMalformed: int, temperature: real, maxTokens: int, listing: bool,
    verifiedFinish: bool, allowEscalation: bool, extraRules: seq<string>)

  /** json.loads: a value, a JSONDecodeError, or any other exception (too deep, too many digits). */
  datatype Loaded = Decoded(value: Json) | NotJson(error: string) | OtherError(error: string)

  /** The library functions the loop calls, the system prompt's text, and the sandbox: what a tool call
      returns, given every call made before it. */
  datatype World = World(
    loads: string -> Loaded,
    str: Json -> string,
    repr: Json -> string,
    redact: string -> string,
    prompt: (bool, bool, seq<string>) -> string,
    sandbox: seq<ToolCall> -> Executed)

  // ---- the protocol ----

  function ToolNamed(s: string): Option<ToolName> {
    if s == "read_file" then Some(ReadFile)
    else if s == "write_file" then Some(WriteFile)
    else if s == "list_dir" then Some(ListDir)
    else if s == "run_command" then Some(RunCommand)
    else if s == "run_tests" then Some(RunTests)
    else if s == "finish" then Some(Finish)
    else if s == "escalate" then Some(Escalate)
    else None
  }

  /** parse_tool_call: a step, a ToolCallParseError, or an exception the loop does not catch. */
  datatype Parsed = Step(thought: string, call: ToolCall) | Malformed(error: string) | Uncaught(error: string)

  function Get(d: map<string, Json>, key: string): Json { if key in d then d[key] else Null }

  function StrOf(w: World, d: map<string, Json>, key: string): string { if key in d then w.str(d[key]) else "" }

  /** A list or an object is not hashable, so asking whether it is among the tool names raises. */
  predicate Unhashable(j: Json) { j.List? || j.Dict? }

  function ParseToolCall(w: World, text: string): Parsed {
    match w.loads(JsonText.Extracted(text))
    case NotJson(error) => Malformed("response was not valid JSON: " + error)
    case OtherError(error) => Uncaught(error)
    case Decoded(data) =>
      if !data.Dict? then Malformed("response JSON must be an object")
      else
        var tool := Get(data.entries, "tool");
        if Unhashable(tool) then Uncaught("unhashable type")
        else if !tool.Str? || ToolNamed(tool.s).None? then Malformed("unknown or missing tool: " + w.repr(tool))
        else
          var arguments := if "arguments" in data.entries then data.entries["arguments"] else Dict(map[]);
          if !arguments.Dict? then Malformed("'arguments' must be an object")
          else Step(StrOf(w, data.entries, "thought"), ToolCall(ToolNamed(tool.s).value, arguments.entries))
  }

  function Digit(d: int): char
    requires 0 <= d < 10
  {
    '0' + d as char
  }

  function Digits(n: nat): (s: string)
    ensures |s| >= 1
  {
    if n < 10 then [Digit(n)] else Digits(n / 10) + [Digit(n % 10)]
  }

  function IntText(n: int): string { if n < 0 then "-" + Digits(-n) else Digits(n) }

  function Header(r: ToolResult): string {
    (if r.ok then "[ok]" else "[error]")
    + (if r.exitCode.Some? then " exit_code=" + IntText(r.exitCode.value) else "")
    + (if r.timedOut then " timed_out=true" else "")
    + (if r.truncated then " truncated=true" else "")
  }

  function FormatObservation(r: ToolResult): string { Header(r) + "\n" + r.output }

  predicate Contains(s: string, part: string) { part <= s || (s != "" && Contains(s[1..], part)) }

  /** A run of the tests that actually ran some, and they passed. */
  predicate CountsAsVerification(w: World, call: ToolCall, r: ToolResult) {
    r.exitCode == Some(0) && !r.timedOut &&
    (call.name.RunTests? || (call.name.RunCommand? && Contains(StrOf(w, call.arguments, "command"), "pytest")))
  }

  // ---- providers ----

  /** One try of the recorded provider: an answer, or an exception and whether waiting can help. */
  datatype Try = Gives(completion: Completion) | Throws(kind: string, text: string, retriable: bool)

  datatype RecordedCall = RecordedCall(
    prefix: Option<seq<Message>>, head: string, temperature: real, maxTokens: int, completion: Completion)

  datatype RecordedError = RecordedError(head: string, message: string)

  datatype Recording = Recording(calls: seq<RecordedCall>, error: Option<RecordedError>)

  /** Either provider's state. The recorder wraps any provider: tries(n) is what its n-th call comes to. */
  datatype Provider =
    | Recorder(tries: nat -> Try, tried: nat, maxAttempts: int, calls: seq<RecordedCall>, error: Option<RecordedError>)
    | Replayer(recording: Recording, cursor: nat, divergence: Option<string>)

  datatype Reply = Answer(completion: Completion) | Fails(text: string)

  /** The text before the first line break. */
  function FirstLine(s: string): string {
    if s == "" || s[0] == '\n' then "" else [s[0]] + FirstLine(s[1..])
  }

  function Cut(s: string, n: nat): string { if |s| <= n then s else s[..n] }

  function ObservationHead(messages: seq<Message>): string {
    if |messages| <= 2 then "" else Cut(FirstLine(messages[|messages| - 1].content), 200)
  }

  function Prefix(messages: seq<Message>): seq<Message> { if |messages| <= 2 then messages else messages[..2] }

  /** The recorder's retry loop, from its attempt-th try of this call. */
  function Record(w: World, p: Provider, attempt: int, messages: seq<Message>, temperature: real, maxTokens: int): (Provider, Reply)
    requires p.Recorder?
    decreases p.maxAttempts - attempt
  {
    match p.tries(p.tried)
    case Gives(completion) =>
      var call := RecordedCall(if p.calls == [] then Some(Prefix(messages)) else None, ObservationHead(messages),
                               temperature, maxTokens, completion);
      (p.(tried := p.tried + 1, calls := p.calls + [call]), Answer(completion))
    case Throws(kind, text, retriable) =>
      if !retriable || attempt >= p.maxAttempts then
        (p.(tried := p.tried + 1, error := Some(RecordedError(ObservationHead(messages), w.redact(kind + ": " + text)))), Fails(text))
      else Record(w, p.(tried := p.tried + 1), attempt + 1, messages, temperature, maxTokens)
  }

  function Diverge(p: Provider, reason: string): (Provider, Reply)
    requires p.Replayer?
  {
    (p.(divergence := Some(reason)), Fails(reason))
  }

  /** The replayer's checks, in order, and the recorded answer when all pass. */
  function Replay(p: Provider, messages: seq<Message>, temperature: real, maxTokens: int): (Provider, Reply)
    requires p.Replayer?
  {
    var calls, error, head := p.recording.calls, p.recording.error, ObservationHead(messages);
    if p.cursor == |calls| && error.Some? then
      if head != error.value.head then Diverge(p, "answers another observation than the recorded failure")
      else (p.(cursor := p.cursor + 1), Fails(error.value.message))
    else if p.cursor >= |calls| then Diverge(p, "requested more calls than were recorded")
    else
      var call := calls[p.cursor];
      if (temperature, maxTokens) != (call.temperature, call.maxTokens) then Diverge(p, "used other settings")
      else if call.prefix.Some? && call.prefix.value != Prefix(messages) then Diverge(p, "the system prompt or task message changed")
      else if head != call.head then Diverge(p, "answers another observation than the recording")
      else (p.(cursor := p.cursor + 1), Answer(call.completion))
  }

  function Complete(w: World, p: Provider, messages: seq<Message>, temperature: real, maxTokens: int): (Provider, Reply) {
    if p.Recorder? then Record(w, p, 1, messages, temperature, maxTokens) else Replay(p, messages, temperature, maxTokens)
  }

  // ---- the loop ----

  datatype AgentStep = AgentStep(
    index: int, thought: string, raw: string, call: Option<ToolCall>, result: Option<ToolResult>, observation: string,
    malformed: bool, promptTokens: int, completionTokens: int)

  datatype Termination = Finished | MaxIterations | MalformedLimit | ProviderError | Escalated | Raised(error: string)

  /** The loop's variables. ended is None while it runs. */
  datatype Loop = Loop(
    messages: seq<Message>, steps: seq<AgentStep>, promptTokens: int, completionTokens: int,
    malformed: int, verified: bool, executed: seq<ToolCall>, provider: Provider,
    ended: Option<Termination>, answer: string, reason: string)

  const BLOCKED := "You cannot finish yet: "
                   + "write your own test file and run it with the run_tests tool until the tests pass. "
                   + "A result of 'no tests ran' (exit code 5) does not count as verification."

  function MalformedText(error: string): string {
    "Your last response could not be parsed: " + error +
    ". Respond with a single JSON object: {\"thought\": \"...\", \"tool\": \"...\", \"arguments\": {...}}."
  }

  function Execute(w: World, executed: seq<ToolCall>, call: ToolCall): ToolResult {
    match w.sandbox(executed + [call])
    case Returned(result) => result
    case Threw(text) => ToolResult("sandbox error: " + text, false, None, false, false)
  }

  function Said(l: Loop, content: string): seq<Message> { l.messages + [Message(User, content)] }

  /** The loop after a completion arrived: tokens counted and the assistant's message kept. */
  function Heard(l: Loop, p: Provider, c: Completion): Loop {
    l.(provider := p, promptTokens := l.promptTokens + c.promptTokens, completionTokens := l.completionTokens + c.completionTokens,
    messages := l.messages + [Message(Assistant, c.content)])
  }

  function OnMalformed(config: Config, l: Loop, index: int, c: Completion, error: string): Loop {
    var text := MalformedText(error);
    l.(malformed := l.malformed + 1, messages := Said(l, text),
    steps := l.steps + [AgentStep(index, "", c.content, None, None, text, true, c.promptTokens, c.completionTokens)],
    ended := if l.malformed + 1 >= config.maxMalformed then Some(MalformedLimit) else None)
  }

  function OnCall(w: World, config: Config, l: Loop, index: int, c: Completion, thought: string, call: ToolCall): Loop {
    var step := AgentStep(index, thought, c.content, Some(call), None, "", false, c.promptTokens, c.completionTokens);
    if call.name.Escalate? then
      l.(malformed := 0, steps := l.steps + [step.(observation := "ticket escalated to a human by the agent")],
      ended := Some(Escalated), reason := StrOf(w, call.arguments, "reason"))
    else if call.name.Finish? then
      if config.verifiedFinish && !l.verified then
        l.(malformed := 0, steps := l.steps + [step.(observation := BLOCKED)], messages := Said(l, BLOCKED))
      else
        l.(malformed := 0, steps := l.steps + [step.(observation := "task finished by agent")],
        ended := Some(Finished), answer := StrOf(w, call.arguments, "answer"))
    else
      var result := Execute(w, l.executed, call);
      var text := FormatObservation(result);
      l.(malformed := 0, steps := l.steps + [step.(result := Some(result), observation := text)], messages := Said(l, text),
      executed := l.executed + [call], verified := l.verified || CountsAsVerification(w, call, result))
  }

  /** One pass through the loop's body. */
  function Iterate(w: World, config: Config, l: Loop, index: int): Loop {
    var (p, reply) := Complete(w, l.provider, l.messages, config.temperature, config.maxTokens);
    match reply
    case Fails(text) =>
      l.(provider := p, ended := Some(ProviderError),
      steps := l.steps + [AgentStep(index, "", "", None, None, "provider error: " + text, false, 0, 0)])
    case Answer(c) =>
      var heard := Heard(l, p, c);
      match ParseToolCall(w, c.content)
      case Malformed(error) => OnMalformed(config, heard, index, c, error)
      case Uncaught(error) => heard.(ended := Some(Raised(error)))
      case Step(thought, call) => OnCall(w, config, heard, index, c, thought, call)
  }

  /** The rest of the loop, from its index-th pass. */
  function Loops(w: World, config: Config, l: Loop, index: int): Loop
    decreases config.maxIterations - index
  {
    if l.ended.Some? then l
    else if index >= config.maxIterations then l.(ended := Some(MaxIterations))
    else Loops(w, config, Iterate(w, config, l, index), index + 1)
  }

  const ROOT := ToolCall(ListDir, map["path" := Str(".")])

  /** The opening messages; a sandbox that throws while listing ends the run before it starts. */
  function Start(w: World, config: Config, task: string, provider: Provider): Loop {
    var system := Message(System, w.prompt(config.verifiedFinish, config.allowEscalation, config.extraRules));
    var listed := w.sandbox([ROOT]);
    var user := "Task:\n" + task + "\n"
    + (if config.listing && listed.Returned? then "\nWorkspace root contents:\n" + listed.result.output + "\n" else "")
    + "\nReason about the task, then issue your first tool call.";
    Loop([system, Message(User, user)], [], 0, 0, 0, false, if config.listing then [ROOT] else [], provider,
         if config.listing && listed.Threw? then Some(Raised(listed.text)) else None, "", "")
  }

  function RunOf(w: World, config: Config, task: string, provider: Provider): Loop {
    Loops(w, config, Start(w, config, task, provider), 0)
  }

  /** Agent.run, as the source has it. */
  method Run(w: World, config: Config, task: string, provider: Provider) returns (l: Loop)
    ensures l == RunOf(w, config, task, provider)
  {
    l := Start(w, config, task, provider);
    var index := 0;
    while index < config.maxIterations && l.ended.None?
      invariant RunOf(w, config, task, provider) == Loops(w, config, l, index)
      decreases config.maxIterations - index
    {
      l := Iterate(w, config, l, index);
      index := index + 1;
    }
    if l.ended.None? { l := l.(ended := Some(MaxIterations)); }
  }
}
