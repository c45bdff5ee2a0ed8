/** What every run of the agent keeps, over all models, sandboxes and settings (app/agent/loop.py). */
module AgentRuns {
  import opened Wrappers
  import JsonText
  import opened AgentLoop
  import opened ReplayTheorems

  // ---- what a run's record adds up to ----

  function PromptTokens(steps: seq<AgentStep>): int {
    if steps == [] then 0 else PromptTokens(steps[..|steps| - 1]) + steps[|steps| - 1].promptTokens
  }

  function CompletionTokens(steps: seq<AgentStep>): int {
    if steps == [] then 0 else CompletionTokens(steps[..|steps| - 1]) + steps[|steps| - 1].completionTokens
  }

  /** How many of the last steps in a row are malformed. */
  function Trailing(steps: seq<AgentStep>): nat {
    if steps == [] || !steps[|steps| - 1].malformed then 0 else 1 + Trailing(steps[..|steps| - 1])
  }

  /** The malformed responses in a row that end a run; a limit under one still takes one. */
  function Limit(config: Config): int { if config.maxMalformed < 1 then 1 else config.maxMalformed }

  /** A step that ran some tests, and they passed. */
  predicate Verifies(w: World, s: AgentStep) {
    s.call.Some? && s.result.Some? && CountsAsVerification(w, s.call.value, s.result.value)
  }

  predicate Recorded(l: Loop) {
    && (forall i :: 0 <= i < |l.steps| ==> l.steps[i].index == i)
    && l.promptTokens == PromptTokens(l.steps) && l.completionTokens == CompletionTokens(l.steps)
  }

  /** No window of malformed steps reached the limit within these steps. */
  predicate Under(config: Config, steps: seq<AgentStep>) {
    forall n :: 0 <= n <= |steps| ==> Trailing(steps[..n]) < Limit(config)
  }

  /** The top of a pass: two messages more for each pass before it, one step each, and the loop's counters
      say what the steps say. */
  predicate LoopOk(w: World, config: Config, l: Loop, index: int) {
    && |l.messages| == 2 + 2 * index && |l.steps| == index && Recorded(l)
    && l.malformed == Trailing(l.steps) && Under(config, l.steps)
    && (l.verified <==> exists i :: 0 <= i < |l.steps| && Verifies(w, l.steps[i]))
  }

  /** A run that returned. */
  predicate RunOk(w: World, config: Config, l: Loop) {
    && Recorded(l) && |l.steps| <= (if config.maxIterations < 0 then 0 else config.maxIterations)
    && (l.ended == Some(MalformedLimit) <==> Trailing(l.steps) == Limit(config))
    && (forall n :: 0 <= n < |l.steps| ==> Trailing(l.steps[..n]) < Limit(config))
    && (l.ended == Some(Finished) && config.verifiedFinish ==>
          exists i :: 0 <= i < |l.steps| - 1 && Verifies(w, l.steps[i]))
  }

  lemma OneMoreStep(steps: seq<AgentStep>, s: AgentStep)
    ensures PromptTokens(steps + [s]) == PromptTokens(steps) + s.promptTokens
    ensures CompletionTokens(steps + [s]) == CompletionTokens(steps) + s.completionTokens
    ensures Trailing(steps + [s]) == if s.malformed then 1 + Trailing(steps) else 0
    ensures forall n :: 0 <= n <= |steps| ==> (steps + [s])[..n] == steps[..n]
  {
    assert (steps + [s])[..|steps|] == steps;
    assert forall n :: 0 <= n <= |steps| ==> (steps + [s])[..n] == steps[..n];
  }

  /** The next step joins a good record. */
  lemma StepJoins(w: World, config: Config, l: Loop, index: int, next: Loop, s: AgentStep)
    requires LoopOk(w, config, l, index) && next.steps == l.steps + [s] && s.index == index
    requires next.promptTokens == l.promptTokens + s.promptTokens && next.completionTokens == l.completionTokens + s.completionTokens
    ensures Recorded(next) && Trailing(next.steps) == if s.malformed then 1 + l.malformed else 0
    ensures forall n :: 0 <= n <= |l.steps| ==> Trailing(next.steps[..n]) < Limit(config)
    ensures Trailing(next.steps) < Limit(config) ==> Under(config, next.steps)
    ensures (exists i :: 0 <= i < |next.steps| && Verifies(w, next.steps[i])) <==> l.verified || Verifies(w, s)
  {
    OneMoreStep(l.steps, s);
    assert next.steps[..|next.steps|] == next.steps;
    forall i | 0 <= i < |l.steps|
      ensures next.steps[i] == l.steps[i]
    {}
    if l.verified {
      var i :| 0 <= i < |l.steps| && Verifies(w, l.steps[i]);
      assert Verifies(w, next.steps[i]);
    }
    if Verifies(w, s) { assert Verifies(w, next.steps[|l.steps|]); }
  }

  /** Where a pass leads: to the top of the next, or to the end of the run. */
  predicate PassOk(w: World, config: Config, next: Loop, index: int) {
    if next.ended.None? then LoopOk(w, config, next, index + 1)
    else next.ended.value.Raised? || (|next.steps| == index + 1 && RunOk(w, config, next))
  }

  lemma MalformedPass(w: World, config: Config, l: Loop, index: int, p: Provider, c: Completion, error: string)
    requires LoopOk(w, config, l, index) && l.ended.None? && 0 <= index < config.maxIterations
    ensures PassOk(w, config, OnMalformed(config, Heard(l, p, c), index, c, error), index)
  {
    var next := OnMalformed(config, Heard(l, p, c), index, c, error);
    StepJoins(w, config, l, index, next, next.steps[index]);
    assert l.steps[..|l.steps|] == l.steps;
  }

  lemma CallPass(w: World, config: Config, l: Loop, index: int, p: Provider, c: Completion, thought: string, call: ToolCall)
    requires LoopOk(w, config, l, index) && l.ended.None? && 0 <= index < config.maxIterations
    ensures PassOk(w, config, OnCall(w, config, Heard(l, p, c), index, c, thought, call), index)
  {
    hide Trailing, PromptTokens, CompletionTokens;
    var next := OnCall(w, config, Heard(l, p, c), index, c, thought, call);
    var s := next.steps[index];
    StepJoins(w, config, l, index, next, s);
    if call.name.Finish? && next.ended.Some? && config.verifiedFinish {
      var i :| 0 <= i < |l.steps| && Verifies(w, l.steps[i]);
      assert next.steps[i] == l.steps[i];
    }
  }

  lemma FailedPass(w: World, config: Config, l: Loop, index: int, next: Loop, s: AgentStep)
    requires LoopOk(w, config, l, index) && 0 <= index < config.maxIterations
    requires s.index == index && !s.malformed && s.promptTokens == 0 && s.completionTokens == 0
    requires next == l.(provider := next.provider, ended := Some(ProviderError), steps := l.steps + [s])
    ensures PassOk(w, config, next, index)
  {
    StepJoins(w, config, l, index, next, s);
  }

  lemma Pass(w: World, config: Config, l: Loop, index: int)
    requires LoopOk(w, config, l, index) && l.ended.None? && 0 <= index < config.maxIterations
    ensures PassOk(w, config, Iterate(w, config, l, index), index)
  {
    var (p, reply) := Complete(w, l.provider, l.messages, config.temperature, config.maxTokens);
    IterateAnswer(w, config, l, index);
    match reply
    case Fails(text) =>
      FailedPass(w, config, l, index, Iterate(w, config, l, index),
                 AgentStep(index, "", "", None, None, "provider error: " + text, false, 0, 0));
    case Answer(c) =>
      match ParseToolCall(w, c.content)
      case Malformed(error) => MalformedPass(w, config, l, index, p, c, error);
      case Uncaught(error) =>
      case Step(thought, call) => CallPass(w, config, l, index, p, c, thought, call);
  }

  lemma {:induction false} LoopsOk(w: World, config: Config, l: Loop, index: int)
    requires 0 <= index && l.ended.None? && LoopOk(w, config, l, index)
    requires index <= (if config.maxIterations < 0 then 0 else config.maxIterations)
    ensures var end := Loops(w, config, l, index);
            end.ended.Some? && (end.ended.value.Raised? || RunOk(w, config, end))
    decreases config.maxIterations - index
  {
    if index >= config.maxIterations {
      assert l.steps[..|l.steps|] == l.steps;
    } else {
      Pass(w, config, l, index);
      var next := Iterate(w, config, l, index);
      if next.ended.None? { LoopsOk(w, config, next, index + 1); }
    }
  }

  /** Every run that returns, over every model and every sandbox: at most max_iterations steps, numbered from
      0, whose tokens add up to the run's; it ended at the malformed limit exactly when that many last steps
      in a row are malformed, as never before; and if finishing had to be verified and it finished, some
      earlier step ran tests that passed. */
  lemma EveryRun(w: World, config: Config, task: string, provider: Provider)
    ensures var end := RunOf(w, config, task, provider);
            end.ended.Some? && (end.ended.value.Raised? || RunOk(w, config, end))
  {
    var l := Start(w, config, task, provider);
    if l.ended.None? { LoopsOk(w, config, l, 0); }
  }

  /** The loop after its first n passes. */
  function Passes(w: World, config: Config, l: Loop, n: nat): Loop {
    if n == 0 then l
    else
      var before := Passes(w, config, l, n - 1);
      if before.ended.Some? then before else Iterate(w, config, before, n - 1)
  }

  lemma PassGoesOn(w: World, config: Config, l: Loop, index: int)
    requires LoopOk(w, config, l, index) && l.ended.None? && 0 <= index < config.maxIterations
    ensures Iterate(w, config, l, index).ended.None? ==> LoopOk(w, config, Iterate(w, config, l, index), index + 1)
  {
    hide LoopOk, RunOk, Iterate;
    Pass(w, config, l, index);
  }

  lemma {:induction false} PassesOk(w: World, config: Config, start: Loop, i: nat)
    requires start.ended.None? ==> LoopOk(w, config, start, 0)
    requires i < config.maxIterations && Passes(w, config, start, i).ended.None?
    ensures LoopOk(w, config, Passes(w, config, start, i), i)
  {
    hide LoopOk, Iterate;
    if i > 0 {
      PassesOk(w, config, start, i - 1);
      PassGoesOn(w, config, Passes(w, config, start, i - 1), i - 1);
    }
  }

  /** The provider's i-th call, counting from 0, sees 2 + 2 * i messages. */
  lemma CallSees(w: World, config: Config, task: string, provider: Provider, i: nat)
    requires i < config.maxIterations && Passes(w, config, Start(w, config, task, provider), i).ended.None?
    ensures LoopOk(w, config, Passes(w, config, Start(w, config, task, provider), i), i)
  {
    PassesOk(w, config, Start(w, config, task, provider), i);
  }

  // ---- the responses that end no run ----

  /** A response the loop's own error handling does not cover. */
  predicate Unhandled(w: World, text: string) {
    var loaded := w.loads(JsonText.Extracted(text));
    loaded.OtherError? || (loaded.Decoded? && loaded.value.Dict? && Unhashable(Get(loaded.value.entries, "tool")))
  }

  /** A recorded run raises instead of returning exactly when one of the model's answers decodes to an object
      whose tool is itself a list or an object (or the decoder fails with an error that is not its own); the
      docstring promises a ToolCallParseError for every malformed response. */
  lemma {:induction false} RaisesExactly(w: World, config: Config, l: Loop, index: int)
    requires l.provider.Recorder? && l.ended.None? && !SomeUnhandled(w, l.provider.calls)
    ensures var end := Loops(w, config, l, index);
            end.provider.Recorder? && (HasRaised(end) <==> SomeUnhandled(w, end.provider.calls))
    decreases config.maxIterations - index
  {
    if index < config.maxIterations {
      RaisesNow(w, config, l, index);
      var next := Iterate(w, config, l, index);
      if next.ended.None? { RaisesExactly(w, config, next, index + 1); }
    }
  }

  predicate HasRaised(l: Loop) { l.ended.Some? && l.ended.value.Raised? }

  lemma UnhandledIsUncaught(w: World, text: string)
    ensures ParseToolCall(w, text).Uncaught? <==> Unhandled(w, text)
  {}

  lemma CallsNeverRaise(w: World, config: Config, l: Loop, index: int, c: Completion, thought: string, call: ToolCall, error: string)
    requires l.ended.None?
    ensures !HasRaised(OnCall(w, config, l, index, c, thought, call)) && !HasRaised(OnMalformed(config, l, index, c, error))
  {}

  lemma AnswerRaises(w: World, config: Config, l: Loop, index: int, p: Provider, c: Completion)
    requires l.ended.None?
    ensures HasRaised(AfterAnswer(w, config, l, index, p, c)) <==> Unhandled(w, c.content)
  {
    UnhandledIsUncaught(w, c.content);
    match ParseToolCall(w, c.content)
    case Malformed(error) => CallsNeverRaise(w, config, Heard(l, p, c), index, c, "", ROOT, error);
    case Uncaught(error) =>
    case Step(thought, call) => CallsNeverRaise(w, config, Heard(l, p, c), index, c, thought, call, "");
  }

  /** Some recorded answer is one the loop does not handle. */
  predicate SomeUnhandled(w: World, calls: seq<RecordedCall>) {
    exists i :: 0 <= i < |calls| && Unhandled(w, calls[i].completion.content)
  }

  lemma OneMoreCall(w: World, calls: seq<RecordedCall>, c: RecordedCall)
    requires !SomeUnhandled(w, calls)
    ensures SomeUnhandled(w, calls + [c]) <==> Unhandled(w, c.completion.content)
  {
    assert (calls + [c])[|calls|] == c;
  }

  lemma RaisesNow(w: World, config: Config, l: Loop, index: int)
    requires l.provider.Recorder? && l.ended.None? && !SomeUnhandled(w, l.provider.calls)
    ensures var next := Iterate(w, config, l, index);
            next.provider.Recorder? && (HasRaised(next) <==> SomeUnhandled(w, next.provider.calls))
  {
    RecordOutcome(w, l.provider, 1, l.messages, config.temperature, config.maxTokens);
    var (p, reply) := Complete(w, l.provider, l.messages, config.temperature, config.maxTokens);
    IterateProvider(w, config, l, index);
    IterateAnswer(w, config, l, index);
    if reply.Answer? {
      AnswerRaises(w, config, l, index, p, reply.completion);
      OneMoreCall(w, l.provider.calls, p.calls[|l.provider.calls|]);
    }
  }

  const LIST_TOOL := "{\"tool\": []}"

  /** The same text, as printed json. */
  lemma ListToolIsExtracted()
    ensures JsonText.Extracted(LIST_TOOL) == LIST_TOOL
  {
    var name := [JsonText.Plain('t'), JsonText.Plain('o'), JsonText.Plain('o'), JsonText.Plain('l')];
    var member := JsonText.Member("", name, "", " ", JsonText.Arr([], ""), "");
    var v := JsonText.Obj([member], "");
    assert name[1..][1..][1..] == [JsonText.Plain('l')];
    assert JsonText.PrintUnits(name[1..][1..][1..]) == "l";
    assert JsonText.PrintUnits(name[1..]) == "o" + ("o" + "l");
    assert JsonText.PrintUnits(name) == "tool";
    assert JsonText.Print(JsonText.Arr([], "")) == "[]";
    assert JsonText.PrintMembers([member]) == "" + JsonText.Quoted(name) + "" + ":" + " " + "[]" + "" + "";
    assert JsonText.Inside([member], "") == "\"tool\": []";
    assert JsonText.Print(v) == "{" + "\"tool\": []" + "}";
    assert JsonText.Print(v) == LIST_TOOL;
    JsonText.RoundTrip("", v, "");
    assert "" + LIST_TOOL + "" == LIST_TOOL;
  }

  /** Such a response, {"tool": []}: a run whose model answers it first raises. */
  lemma ListToolRaises(w: World, config: Config, task: string, tries: nat -> Try, maxAttempts: int)
    requires w.loads(LIST_TOOL) == Decoded(Dict(map["tool" := List([])]))
    requires tries(0).Gives? && tries(0).completion.content == LIST_TOOL && config.maxIterations >= 1
    requires Start(w, config, task, Recording0(tries, maxAttempts)).ended.None?
    ensures HasRaised(RunOf(w, config, task, Recording0(tries, maxAttempts)))
  {
    hide Start, ParseToolCall, OnCall, OnMalformed, JsonText.Extracted;
    var l := Start(w, config, task, Recording0(tries, maxAttempts));
    StartsWith(w, config, task, Recording0(tries, maxAttempts));
    ListToolIsExtracted();
    FirstAnswerRaises(w, config, l, tries(0).completion);
  }

  lemma StartsWith(w: World, config: Config, task: string, provider: Provider)
    ensures Start(w, config, task, provider).provider == provider
  {}

  lemma FirstAnswerRaises(w: World, config: Config, l: Loop, c: Completion)
    requires l.ended.None? && l.provider.Recorder? && l.provider.tries(l.provider.tried) == Gives(c) && config.maxIterations >= 1
    requires Unhandled(w, c.content)
    ensures HasRaised(Loops(w, config, l, 0))
  {
    hide ParseToolCall, OnCall, OnMalformed, Unhandled;
    var (p, reply) := Complete(w, l.provider, l.messages, config.temperature, config.maxTokens);
    assert reply == Answer(c);
    IterateAnswer(w, config, l, 0);
    AnswerRaises(w, config, l, 0, p, c);
  }
}
