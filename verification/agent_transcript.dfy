/** What a run's record says happened (app/agent/loop.py): what the sandbox was asked and answered, what the model was
    told, and how the run ended, for every model and every sandbox. */
module AgentTranscript {
  import opened Wrappers
  import JsonText
  import opened AgentLoop
  import opened ReplayTheorems
  import opened AgentRuns

  // ---- what the sandbox is asked ----

  /** The calls of the steps that got a result, in order. */
  function Ran(steps: seq<AgentStep>): seq<ToolCall> {
    if steps == [] then []
    else
      var last := steps[|steps| - 1];
      Ran(steps[..|steps| - 1]) + if last.result.Some? && last.call.Some? then [last.call.value] else []
  }

  /** All the sandbox was asked: the opening listing, and the calls of these steps. */
  function Asked(config: Config, steps: seq<AgentStep>): seq<ToolCall> {
    (if config.listing then [ToolCall(ListDir, map["path" := Str(".")])] else []) + Ran(steps)
  }

  /** A result is what the sandbox returns for its call after those before it; an exception is one that failed. */
  predicate IsAnswer(w: World, asked: seq<ToolCall>, r: ToolResult) {
    match w.sandbox(asked)
    case Returned(result) => r == result
    case Threw(text) => r == ToolResult("sandbox error: " + text, false, None, false, false)
  }

  /** The text is one line, a line break and all that the tool printed. */
  ghost predicate Shows(observation: string, r: ToolResult) {
    exists header :: '\n' !in header && observation == header + "\n" + r.output
  }

  /** Some step before this one ran tests that passed. */
  predicate VerifiedBefore(w: World, steps: seq<AgentStep>, i: int) { exists j :: 0 <= j < |steps| && j < i && Verifies(w, steps[j]) }

  // ---- what a step records ----

  /** A step of a call: the one the response holds. Only a tool gets a result, the sandbox's; a finish is blocked exactly
      when it had to be verified and was not. */
  ghost predicate CallSays(w: World, config: Config, steps: seq<AgentStep>, i: nat)
    requires i < |steps| && steps[i].call.Some?
  {
    var s, call := steps[i], steps[i].call.value;
    && !s.malformed && ParseToolCall(w, s.raw) == Step(s.thought, call)
    && (s.result.Some? <==> !call.name.Finish? && !call.name.Escalate?)
    && (s.result.Some? ==> IsAnswer(w, Asked(config, steps[..i + 1]), s.result.value) && Shows(s.observation, s.result.value))
    && (call.name.Finish? ==> (s.observation == BLOCKED <==> config.verifiedFinish && !VerifiedBefore(w, steps, i)))
  }

  /** A step without a call: a response that could not be parsed, and why, or a provider that failed. */
  predicate NoCallSays(w: World, s: AgentStep) {
    && s.result.None?
    && if s.malformed then ParseToolCall(w, s.raw).Malformed? && s.observation == MalformedText(ParseToolCall(w, s.raw).error)
       else s.raw == "" && "provider error: " <= s.observation
  }

  ghost predicate StepSays(w: World, config: Config, steps: seq<AgentStep>, i: nat)
    requires i < |steps|
  {
    if steps[i].call.Some? then CallSays(w, config, steps, i) else NoCallSays(w, steps[i])
  }

  /** A step the run goes on after. */
  predicate GoesOn(s: AgentStep) { s.malformed || s.result.Some? || (s.call.Some? && s.call.value.name.Finish? && s.observation == BLOCKED) }

  /** The messages of a step: the response, and what the model is told. */
  predicate Told(messages: seq<Message>, i: nat, s: AgentStep) {
    |messages| > 2 * i + 3 && messages[2 * i + 2] == Message(Assistant, s.raw) && messages[2 * i + 3] == Message(User, s.observation)
  }

  /** The record of a run: after its opening messages, a response and an answer to it for every step the run goes on after. */
  ghost predicate Says(w: World, config: Config, opening: seq<Message>, l: Loop) {
    && |opening| == 2 && opening <= l.messages && l.executed == Asked(config, l.steps)
    && (forall i :: 0 <= i < |l.steps| ==> StepSays(w, config, l.steps, i))
    && (forall i :: 0 <= i < |l.steps| && GoesOn(l.steps[i]) ==> Told(l.messages, i, l.steps[i]))
    && (forall i :: 0 <= i < |l.steps| - 1 ==> GoesOn(l.steps[i]))
  }

  /** How a run ended: on what its last step was, and with the answer or the reason that one gave. */
  predicate EndSays(w: World, config: Config, l: Loop)
    requires l.ended.Some?
  {
    && (l.ended.value.Finished? || l.ended.value.Escalated? || l.ended.value.ProviderError? || l.ended.value.MalformedLimit? ==> l.steps != [])
    && match l.ended.value
       case Finished =>
         var s := l.steps[|l.steps| - 1];
         s.call.Some? && s.call.value.name.Finish? && !GoesOn(s) && l.reason == "" && l.answer == StrOf(w, s.call.value.arguments, "answer")
       case Escalated =>
         var s := l.steps[|l.steps| - 1];
         s.call.Some? && s.call.value.name.Escalate? && l.answer == "" && l.reason == StrOf(w, s.call.value.arguments, "reason")
       case ProviderError => var s := l.steps[|l.steps| - 1]; s.call.None? && !s.malformed && l.answer == "" && l.reason == ""
       case MalformedLimit => l.steps[|l.steps| - 1].malformed && l.answer == "" && l.reason == ""
       case MaxIterations => |l.steps| == (if config.maxIterations < 0 then 0 else config.maxIterations) && l.answer == "" && l.reason == ""
       case Raised(_) => l.answer == "" && l.reason == ""
  }

  /** The top of a pass. */
  ghost predicate TopSays(w: World, config: Config, opening: seq<Message>, l: Loop, index: int) {
    && LoopOk(w, config, l, index) && Says(w, config, opening, l) && l.answer == "" && l.reason == ""
    && forall i :: 0 <= i < |l.steps| ==> GoesOn(l.steps[i])
  }

  ghost predicate PassSays(w: World, config: Config, opening: seq<Message>, l: Loop, index: int) {
    Says(w, config, opening, l) && if l.ended.Some? then EndSays(w, config, l) else TopSays(w, config, opening, l, index + 1)
  }

  lemma SaysStill(w: World, config: Config, steps: seq<AgentStep>, s: AgentStep, i: nat)
    requires i < |steps| && StepSays(w, config, steps, i)
    ensures StepSays(w, config, steps + [s], i)
  {
    hide IsAnswer, ParseToolCall, Shows, Asked, Verifies;
    assert (steps + [s])[..i + 1] == steps[..i + 1];
    assert VerifiedBefore(w, steps + [s], i) <==> VerifiedBefore(w, steps, i) by {
      if VerifiedBefore(w, steps, i) {
        var j :| 0 <= j < |steps| && j < i && Verifies(w, steps[j]);
        assert Verifies(w, (steps + [s])[j]);
      }
      if VerifiedBefore(w, steps + [s], i) {
        var j :| 0 <= j < |steps + [s]| && j < i && Verifies(w, (steps + [s])[j]);
        assert Verifies(w, steps[j]);
      }
    }
  }

  /** One more step joins the record. */
  lemma Joins(w: World, config: Config, opening: seq<Message>, l: Loop, index: int, next: Loop, s: AgentStep)
    requires TopSays(w, config, opening, l, index) && next.steps == l.steps + [s] && l.messages <= next.messages
    requires next.executed == Asked(config, next.steps) && StepSays(w, config, next.steps, index)
    requires GoesOn(s) ==> Told(next.messages, index, s)
    ensures Says(w, config, opening, next)
    ensures GoesOn(s) ==> forall i :: 0 <= i < |next.steps| ==> GoesOn(next.steps[i])
  {
    hide StepSays, Asked, GoesOn, Recorded, Trailing, Under, Verifies;
    forall i | 0 <= i < |next.steps|
      ensures StepSays(w, config, next.steps, i) && (GoesOn(next.steps[i]) ==> Told(next.messages, i, next.steps[i]))
    {
      if i < |l.steps| {
        SaysStill(w, config, l.steps, s, i);
        assert next.steps[i] == l.steps[i];
        assert GoesOn(l.steps[i]) ==> Told(l.messages, i, l.steps[i]);
      }
    }
  }

  lemma AskedNext(config: Config, steps: seq<AgentStep>, s: AgentStep)
    ensures Asked(config, steps + [s]) == Asked(config, steps) + if s.result.Some? && s.call.Some? then [s.call.value] else []
  {
    assert (steps + [s])[..|steps|] == steps;
  }

  lemma VerifiedSoFar(w: World, config: Config, l: Loop, index: int, s: AgentStep)
    requires LoopOk(w, config, l, index)
    ensures VerifiedBefore(w, l.steps + [s], |l.steps|) <==> l.verified
  {
    var steps := l.steps + [s];
    if l.verified {
      var j :| 0 <= j < |l.steps| && Verifies(w, l.steps[j]);
      assert Verifies(w, steps[j]);
    }
    if VerifiedBefore(w, steps, |l.steps|) {
      var j :| 0 <= j < |steps| && j < |l.steps| && Verifies(w, steps[j]);
      assert Verifies(w, l.steps[j]);
    }
  }

  lemma Observed(r: ToolResult)
    ensures Shows(FormatObservation(r), r)
  {
    HeaderIsOneLine(r);
    assert FormatObservation(r) == Header(r) + "\n" + r.output;
  }

  lemma FinishedIsNotBlocked()
    ensures "task finished by agent" != BLOCKED
  {
    assert "You cannot finish yet: "[0] == 'Y' && "task finished by agent"[0] == 't';
    assert BLOCKED[0] == "You cannot finish yet: "[0];
  }

  /** A tool call: what its step says once the sandbox answered. */
  lemma ToolSaid(w: World, config: Config, opening: seq<Message>, l: Loop, index: int, p: Provider, c: Completion, thought: string, call: ToolCall)
    requires TopSays(w, config, opening, l, index) && l.ended.None? && 0 <= index < config.maxIterations
    requires ParseToolCall(w, c.content) == Step(thought, call) && !call.name.Finish? && !call.name.Escalate?
    ensures Says(w, config, opening, OnCall(w, config, Heard(l, p, c), index, c, thought, call))
    ensures forall i :: 0 <= i <= index ==> GoesOn(OnCall(w, config, Heard(l, p, c), index, c, thought, call).steps[i])
  {
    hide ParseToolCall, LoopOk, Asked, Shows, FormatObservation, CountsAsVerification, VerifiedBefore, Says;
    var next := OnCall(w, config, Heard(l, p, c), index, c, thought, call);
    TopSizes(w, config, opening, l, index);
    var s := next.steps[index];
    AskedNext(config, l.steps, s);
    Observed(s.result.value);
    assert next.steps[..index + 1] == l.steps + [s];
    Joins(w, config, opening, l, index, next, s);
  }

  lemma FinishSaid(w: World, config: Config, opening: seq<Message>, l: Loop, index: int, p: Provider, c: Completion, thought: string, call: ToolCall)
    requires TopSays(w, config, opening, l, index) && l.ended.None? && 0 <= index < config.maxIterations
    requires ParseToolCall(w, c.content) == Step(thought, call) && (call.name.Finish? || call.name.Escalate?)
    ensures var next := OnCall(w, config, Heard(l, p, c), index, c, thought, call);
            && Says(w, config, opening, next) && (next.ended.Some? ==> EndSays(w, config, next))
            && (next.ended.None? ==> forall i :: 0 <= i <= index ==> GoesOn(next.steps[i]))
  {
    hide ParseToolCall, LoopOk, Asked, Shows, IsAnswer, VerifiedBefore, Says;
    var next := OnCall(w, config, Heard(l, p, c), index, c, thought, call);
    TopSizes(w, config, opening, l, index);
    var s := next.steps[index];
    AskedNext(config, l.steps, s);
    VerifiedSoFar(w, config, l, index, s);
    FinishedIsNotBlocked();
    Joins(w, config, opening, l, index, next, s);
  }

  lemma CallSaid(w: World, config: Config, opening: seq<Message>, l: Loop, index: int, p: Provider, c: Completion, thought: string, call: ToolCall)
    requires TopSays(w, config, opening, l, index) && l.ended.None? && 0 <= index < config.maxIterations
    requires ParseToolCall(w, c.content) == Step(thought, call)
    ensures PassSays(w, config, opening, OnCall(w, config, Heard(l, p, c), index, c, thought, call), index)
  {
    hide ParseToolCall, LoopOk, Says, EndSays, GoesOn;
    CallPass(w, config, l, index, p, c, thought, call);
    TopSizes(w, config, opening, l, index);
    if call.name.Finish? || call.name.Escalate? {
      FinishSaid(w, config, opening, l, index, p, c, thought, call);
    } else {
      ToolSaid(w, config, opening, l, index, p, c, thought, call);
    }
  }

  lemma MalformedSaid(w: World, config: Config, opening: seq<Message>, l: Loop, index: int, p: Provider, c: Completion, error: string)
    requires TopSays(w, config, opening, l, index) && l.ended.None? && 0 <= index < config.maxIterations
    requires ParseToolCall(w, c.content) == Malformed(error)
    ensures PassSays(w, config, opening, OnMalformed(config, Heard(l, p, c), index, c, error), index)
  {
    hide ParseToolCall, LoopOk, Asked, Says, MalformedText;
    var next := OnMalformed(config, Heard(l, p, c), index, c, error);
    MalformedPass(w, config, l, index, p, c, error);
    TopSizes(w, config, opening, l, index);
    AskedNext(config, l.steps, next.steps[index]);
    Joins(w, config, opening, l, index, next, next.steps[index]);
  }

  lemma FailureSaid(w: World, config: Config, opening: seq<Message>, l: Loop, index: int, p: Provider, text: string)
    requires TopSays(w, config, opening, l, index) && l.ended.None? && 0 <= index < config.maxIterations
    ensures var s := AgentStep(index, "", "", None, None, "provider error: " + text, false, 0, 0);
            PassSays(w, config, opening, l.(provider := p, ended := Some(ProviderError), steps := l.steps + [s]), index)
  {
    hide LoopOk, Asked, Says;
    var s := AgentStep(index, "", "", None, None, "provider error: " + text, false, 0, 0);
    var next := l.(provider := p, ended := Some(ProviderError), steps := l.steps + [s]);
    TopSizes(w, config, opening, l, index);
    AskedNext(config, l.steps, s);
    Joins(w, config, opening, l, index, next, s);
  }

  lemma PassSaid(w: World, config: Config, opening: seq<Message>, l: Loop, index: int)
    requires TopSays(w, config, opening, l, index) && l.ended.None? && 0 <= index < config.maxIterations
    ensures PassSays(w, config, opening, Iterate(w, config, l, index), index)
  {
    hide ParseToolCall, OnCall, OnMalformed, Complete, LoopOk, PassSays;
    var (p, reply) := Complete(w, l.provider, l.messages, config.temperature, config.maxTokens);
    IterateAnswer(w, config, l, index);
    match reply
    case Fails(text) => FailureSaid(w, config, opening, l, index, p, text);
    case Answer(c) =>
      match ParseToolCall(w, c.content)
      case Malformed(error) => MalformedSaid(w, config, opening, l, index, p, c, error);
      case Uncaught(error) => RaisedSaid(w, config, opening, l, index, p, c, error);
      case Step(thought, call) => CallSaid(w, config, opening, l, index, p, c, thought, call);
  }

  lemma RaisedSaid(w: World, config: Config, opening: seq<Message>, l: Loop, index: int, p: Provider, c: Completion, error: string)
    requires TopSays(w, config, opening, l, index) && l.ended.None?
    ensures PassSays(w, config, opening, Heard(l, p, c).(ended := Some(Raised(error))), index)
  {
    hide StepSays, LoopOk, Asked;
    var next := Heard(l, p, c).(ended := Some(Raised(error)));
    forall i | 0 <= i < |l.steps| && GoesOn(l.steps[i])
      ensures Told(next.messages, i, l.steps[i])
    {
      assert Told(l.messages, i, l.steps[i]);
    }
  }

  lemma {:induction false} LoopsSay(w: World, config: Config, opening: seq<Message>, l: Loop, index: int)
    requires 0 <= index && l.ended.None? && TopSays(w, config, opening, l, index)
    requires index <= (if config.maxIterations < 0 then 0 else config.maxIterations)
    ensures var end := Loops(w, config, l, index); end.ended.Some? && Says(w, config, opening, end) && EndSays(w, config, end)
    decreases config.maxIterations - index
  {
    hide Says, EndSays, LoopOk, Iterate;
    TopSizes(w, config, opening, l, index);
    if index >= config.maxIterations {
      OutOfPasses(w, config, opening, l, index);
    } else {
      PassSaid(w, config, opening, l, index);
      var next := Iterate(w, config, l, index);
      if next.ended.None? { LoopsSay(w, config, opening, next, index + 1); }
    }
  }

  lemma OutOfPasses(w: World, config: Config, opening: seq<Message>, l: Loop, index: int)
    requires TopSays(w, config, opening, l, index) && l.ended.None?
    requires index == (if config.maxIterations < 0 then 0 else config.maxIterations)
    ensures var end := l.(ended := Some(MaxIterations)); Says(w, config, opening, end) && EndSays(w, config, end)
  {
    hide StepSays, Told, Asked;
  }

  /** Every run that gets under way, over every model and every sandbox, did what its record says: the sandbox was asked
      exactly the parsed calls of the steps with a result, arguments included and in order, after the opening listing;
      each result is its answer, and what the model was told next shows all of it. */
  lemma EveryRunSays(w: World, config: Config, task: string, provider: Provider)
    requires Start(w, config, task, provider).ended.None?
    ensures var l, end := Start(w, config, task, provider), RunOf(w, config, task, provider);
            end.ended.Some? && Says(w, config, l.messages, end) && EndSays(w, config, end)
  {
    hide Says, EndSays;
    var l := Start(w, config, task, provider);
    OpensTop(w, config, task, provider);
    LoopsSay(w, config, l.messages, l, 0);
  }

  /** A run does not get under way exactly when the sandbox throws while listing, and then it raises that. */
  lemma NeverUnderWay(w: World, config: Config, task: string, provider: Provider)
    ensures Start(w, config, task, provider).ended.Some? <==> config.listing && w.sandbox([ToolCall(ListDir, map["path" := Str(".")])]).Threw?
    ensures Start(w, config, task, provider).ended.Some? ==>
              var end := RunOf(w, config, task, provider);
              && end.ended == Some(Raised(w.sandbox([ToolCall(ListDir, map["path" := Str(".")])]).text))
              && end.steps == [] && end.provider == provider
  {}

  /** A response that could not be parsed is told so, and why. */
  lemma TellsWhy(error: string)
    ensures "Your last response could not be parsed: " + error <= MalformedText(error)
  {
    var rest := ". Respond with a single JSON object: {\"thought\": \"...\", \"tool\": \"...\", \"arguments\": {...}}.";
    assert MalformedText(error) == ("Your last response could not be parsed: " + error) + rest;
  }

  lemma OpensTop(w: World, config: Config, task: string, provider: Provider)
    requires Start(w, config, task, provider).ended.None?
    ensures var l := Start(w, config, task, provider); TopSays(w, config, l.messages, l, 0)
  {}

  lemma TopSizes(w: World, config: Config, opening: seq<Message>, l: Loop, index: int)
    requires TopSays(w, config, opening, l, index)
    ensures |l.steps| == index && |l.messages| == 2 + 2 * index && l.executed == Asked(config, l.steps)
  {}

  // ---- what the observation's first line tells ----

  lemma {:induction false} DigitsApart(m: nat, n: nat)
    requires Digits(m) == Digits(n)
    ensures m == n
  {
    var s, t := Digits(m), Digits(n);
    assert s[|s| - 1] == Digit(m % 10) && t[|t| - 1] == Digit(n % 10);
    assert m % 10 == n % 10;
    assert s[..|s| - 1] == t[..|t| - 1];
    if m >= 10 && n >= 10 { DigitsApart(m / 10, n / 10); }
  }

  lemma IntTextsApart(m: int, n: int)
    requires IntText(m) == IntText(n)
    ensures m == n
  {
    DigitsOk(if m < 0 then -m else m);
    DigitsOk(if n < 0 then -n else n);
    assert "-"[0] == '-';
    if m < 0 && n < 0 {
      assert IntText(m)[1..] == Digits(-m) && IntText(n)[1..] == Digits(-n);
      DigitsApart(-m, -n);
    } else if m >= 0 && n >= 0 {
      DigitsApart(m, n);
    }
  }

  predicate StartsApart(f: string) { f == "" || f[0] == ' ' }

  lemma SplitsAtSpace(x: string, f: string, y: string, g: string)
    requires x + f == y + g && ' ' !in x && ' ' !in y && StartsApart(f) && StartsApart(g)
    ensures x == y && f == g
  {
    var s := x + f;
    assert |x| < |s| ==> s[|x|] == ' ';
    assert |y| < |s| ==> s[|y|] == ' ';
    assert forall i :: 0 <= i < |x| ==> s[i] == x[i] && x[i] in x;
    assert forall i :: 0 <= i < |y| ==> s[i] == y[i] && y[i] in y;
    assert |x| == |y|;
    assert s[..|x|] == x && s[..|y|] == y && s[|x|..] == f && s[|y|..] == g;
  }

  lemma FlagsTell(a: ToolResult, b: ToolResult)
    requires Flags(a) == Flags(b)
    ensures a.timedOut == b.timedOut && a.truncated == b.truncated
  {
    assert forall r: ToolResult :: |Flags(r)| == (if r.timedOut then 15 else 0) + (if r.truncated then 15 else 0);
    assert a.timedOut ==> Flags(a)[2] == 'i';
    assert b.timedOut ==> Flags(b)[2] == 'i';
    assert !a.timedOut && a.truncated ==> Flags(a)[2] == 'r';
    assert !b.timedOut && b.truncated ==> Flags(b)[2] == 'r';
  }

  function Code(r: ToolResult): string { if r.exitCode.Some? then CODE + IntText(r.exitCode.value) else "" }

  lemma {:induction false} NoSpace(n: int)
    ensures ' ' !in IntText(n)
  {
    DigitsOk(if n < 0 then -n else n);
  }

  predicate LikeFlags(f: string) { f == "" || (|f| >= 2 && f[0] == ' ' && f[1] == 't') }

  lemma FlagsLike(r: ToolResult)
    ensures LikeFlags(Flags(r))
  {}

  const CODE := " exit_code="

  lemma CodeStarts(n: string, f: string)
    ensures |CODE + n + f| >= 11 && (CODE + n + f)[1] == 'e' && (CODE + n + f)[11..] == n + f
  {}

  lemma SameCode(m: string, f: string, n: string, g: string)
    requires CODE + m + f == CODE + n + g && ' ' !in m && ' ' !in n && StartsApart(f) && StartsApart(g)
    ensures m == n && f == g
  {
    CodeStarts(m, f);
    CodeStarts(n, g);
    SplitsAtSpace(m, f, n, g);
  }

  lemma CodeTells(a: ToolResult, b: ToolResult, f: string, g: string)
    requires Code(a) + f == Code(b) + g && LikeFlags(f) && LikeFlags(g)
    ensures a.exitCode == b.exitCode && f == g
  {
    hide IntText, CODE;
    if a.exitCode.Some? { CodeStarts(IntText(a.exitCode.value), f); } else { assert Code(a) + f == f; }
    if b.exitCode.Some? { CodeStarts(IntText(b.exitCode.value), g); } else { assert Code(b) + g == g; }
    if a.exitCode.Some? && b.exitCode.Some? {
      NoSpace(a.exitCode.value);
      NoSpace(b.exitCode.value);
      SameCode(IntText(a.exitCode.value), f, IntText(b.exitCode.value), g);
      IntTextsApart(a.exitCode.value, b.exitCode.value);
    }
  }

  lemma HeaderSplits(r: ToolResult)
    ensures Header(r) == Mark(r) + (Code(r) + Flags(r)) && |Mark(r)| >= 2 && Mark(r)[1] == if r.ok then 'o' else 'e'
  {
    HeaderParts(r);
    hide Header, Flags, IntText;
  }

  /** The line above a tool's output says all else there is to its result. */
  lemma HeaderTells(a: ToolResult, b: ToolResult)
    requires Header(a) == Header(b)
    ensures a.ok == b.ok && a.exitCode == b.exitCode && a.timedOut == b.timedOut && a.truncated == b.truncated
  {
    hide Header, Code, Flags;
    HeaderSplits(a);
    HeaderSplits(b);
    assert Header(a)[1] == Mark(a)[1] && Header(b)[1] == Mark(b)[1];
    assert Header(a)[|Mark(a)|..] == Code(a) + Flags(a) && Header(b)[|Mark(b)|..] == Code(b) + Flags(b);
    FlagsLike(a);
    FlagsLike(b);
    CodeTells(a, b, Flags(a), Flags(b));
    FlagsTell(a, b);
  }

  // ---- what a response is parsed to ----

  /** A tool's name in a response. */
  function NameOf(tool: ToolName): string {
    match tool
    case ReadFile => "read_file"
    case WriteFile => "write_file"
    case ListDir => "list_dir"
    case RunCommand => "run_command"
    case RunTests => "run_tests"
    case Finish => "finish"
    case Escalate => "escalate"
  }

  lemma NamesComeBack(s: string, tool: ToolName)
    ensures ToolNamed(s) == Some(tool) <==> s == NameOf(tool)
  {}

  /** The object names this call. */
  predicate Names(w: World, d: map<string, Json>, thought: string, call: ToolCall) {
    && Get(d, "tool") == Str(NameOf(call.name))
    && thought == (if "thought" in d then w.str(d["thought"]) else "")
    && Dict(call.arguments) == (if "arguments" in d then d["arguments"] else Dict(map[]))
  }

  lemma NamesOne(w: World, d: map<string, Json>, thought: string, call: ToolCall, text: string)
    requires w.loads(JsonText.Extracted(text)) == Decoded(Dict(d))
    ensures ParseToolCall(w, text) == Step(thought, call) <==> Names(w, d, thought, call)
  {
    hide NameOf, ToolNamed;
    if Get(d, "tool").Str? { NamesComeBack(Get(d, "tool").s, call.name); }
  }

  /** A response is a call exactly if its first object decodes to one that names it, with these arguments. */
  lemma ParsesExactly(w: World, text: string, thought: string, call: ToolCall)
    ensures ParseToolCall(w, text) == Step(thought, call) <==>
            exists d :: w.loads(JsonText.Extracted(text)) == Decoded(Dict(d)) && Names(w, d, thought, call)
  {
    hide ParseToolCall, Names;
    match w.loads(JsonText.Extracted(text))
    case Decoded(Dict(d)) => NamesOne(w, d, thought, call, text);
    case other => NotAnObject(w, text);
  }

  lemma NotAnObject(w: World, text: string)
    requires !(w.loads(JsonText.Extracted(text)).Decoded? && w.loads(JsonText.Extracted(text)).value.Dict?)
    ensures !ParseToolCall(w, text).Step?
  {}

  /** Why a response is not a call, and what the model is then told: it is no json, no object, names no tool there is, or has
      arguments that are no object. */
  lemma RefusesExactly(w: World, text: string, error: string)
    ensures ParseToolCall(w, text) == Malformed(error) <==>
            match w.loads(JsonText.Extracted(text))
            case NotJson(why) => error == "response was not valid JSON: " + why
            case OtherError(_) => false
            case Decoded(Dict(d)) =>
              var tool := Get(d, "tool");
              if tool.Str? && exists t :: tool.s == NameOf(t)
              then "arguments" in d && !d["arguments"].Dict? && error == "'arguments' must be an object"
              else !tool.List? && !tool.Dict? && error == "unknown or missing tool: " + w.repr(tool)
            case Decoded(_) => error == "response JSON must be an object"
  {
    hide NameOf, ToolNamed;
    match w.loads(JsonText.Extracted(text))
    case Decoded(Dict(d)) =>
      var tool := Get(d, "tool");
      if tool.Str? {
        forall t: ToolName
          ensures ToolNamed(tool.s) == Some(t) <==> tool.s == NameOf(t)
        {
          NamesComeBack(tool.s, t);
        }
        assert ToolNamed(tool.s).Some? ==> tool.s == NameOf(ToolNamed(tool.s).value);
      }
    case _ =>
  }

  /** A printed call comes back, whatever stands around it. */
  lemma CallComesBack(w: World, before: string, v: JsonText.Value, after: string, d: map<string, Json>, thought: string, call: ToolCall)
    requires v.Obj? && JsonText.ValueOk(v) && '{' !in before && w.loads(JsonText.Print(v)) == Decoded(Dict(d)) && Names(w, d, thought, call)
    ensures ParseToolCall(w, before + JsonText.Print(v) + after) == Step(thought, call)
  {
    hide ParseToolCall, Names, JsonText.Extracted, JsonText.Print;
    JsonText.RoundTrip(before, v, after);
    NamesOne(w, d, thought, call, before + JsonText.Print(v) + after);
  }

  // ---- what counts as verification ----

  lemma {:induction false} ContainsExactly(s: string, part: string)
    ensures Contains(s, part) <==> exists i :: 0 <= i <= |s| && part <= s[i..]
  {
    assert s[0..] == s;
    if s != "" && !(part <= s) {
      var rest := s[1..];
      ContainsExactly(rest, part);
      forall i | 0 <= i <= |rest|
        ensures rest[i..] == s[i + 1..]
      {}
      if exists i :: 0 <= i <= |s| && part <= s[i..] {
        var i :| 0 <= i <= |s| && part <= s[i..];
        assert part <= rest[i - 1..];
      }
      if exists i :: 0 <= i <= |rest| && part <= rest[i..] {
        var i :| 0 <= i <= |rest| && part <= rest[i..];
        assert part <= s[i + 1..];
      }
    }
  }

  /** Only tests that ran and passed verify: run_tests, or a command that says pytest anywhere, with exit code 0 and in
      time. */
  lemma VerifiesExactly(w: World, s: AgentStep)
    ensures Verifies(w, s) <==>
            && s.call.Some? && s.result.Some? && s.result.value.exitCode == Some(0) && !s.result.value.timedOut
            && (s.call.value.name == RunTests
                || (s.call.value.name == RunCommand && "command" in s.call.value.arguments
                    && var command := w.str(s.call.value.arguments["command"]);
                    exists i :: 0 <= i <= |command| && "pytest" <= command[i..]))
  {
    if s.call.Some? {
      ContainsExactly(StrOf(w, s.call.value.arguments, "command"), "pytest");
      assert !Contains("", "pytest");
    }
  }

  // ---- which response a step records ----

  predicate Holds(s: AgentStep, c: Completion) {
    s.raw == c.content && s.promptTokens == c.promptTokens && s.completionTokens == c.completionTokens
  }

  /** The i-th step holds the i-th recorded response; a run that raised may have one response more, and one whose provider
      failed one step more. */
  predicate HoldsAll(l: Loop) {
    && l.provider.Recorder? && |l.steps| - 1 <= |l.provider.calls| <= |l.steps| + 1
    && forall i :: 0 <= i < |l.steps| && i < |l.provider.calls| ==> Holds(l.steps[i], l.provider.calls[i].completion)
  }

  lemma AnswerHolds(w: World, config: Config, l: Loop, index: int, p: Provider, c: Completion)
    requires l.ended.None?
    ensures var next := AfterAnswer(w, config, l, index, p, c);
            if next.ended.Some? && next.ended.value.Raised? then next.steps == l.steps
            else |next.steps| == |l.steps| + 1 && next.steps[..|l.steps|] == l.steps && Holds(next.steps[|l.steps|], c)
  {
    hide ParseToolCall, FormatObservation, Execute, CountsAsVerification, StrOf, MalformedText;
  }

  lemma PassHolds(w: World, config: Config, l: Loop, index: int)
    requires l.ended.None? && HoldsAll(l) && |l.provider.calls| == |l.steps|
    ensures var next := Iterate(w, config, l, index);
            HoldsAll(next) && (next.ended.None? ==> |next.provider.calls| == |next.steps|)
  {
    hide AfterAnswer, Iterate;
    RecordOutcome(w, l.provider, 1, l.messages, config.temperature, config.maxTokens);
    var (p, reply) := Complete(w, l.provider, l.messages, config.temperature, config.maxTokens);
    IterateAnswer(w, config, l, index);
    if reply.Answer? {
      AnswerHolds(w, config, l, index, p, reply.completion);
      AfterAnswerKeeps(w, config, l, index, p, reply.completion);
      var next := AfterAnswer(w, config, l, index, p, reply.completion);
      forall i | 0 <= i < |next.steps| && i < |p.calls|
        ensures Holds(next.steps[i], p.calls[i].completion)
      {
        if i < |l.steps| { assert next.steps[i] == l.steps[i] && p.calls[i] == l.provider.calls[i]; }
      }
    }
  }

  lemma {:induction false} LoopsHold(w: World, config: Config, l: Loop, index: int)
    requires l.ended.None? && HoldsAll(l) && |l.provider.calls| == |l.steps|
    ensures HoldsAll(Loops(w, config, l, index))
    decreases config.maxIterations - index
  {
    hide Iterate;
    if index < config.maxIterations {
      PassHolds(w, config, l, index);
      var next := Iterate(w, config, l, index);
      if next.ended.None? { LoopsHold(w, config, next, index + 1); }
    }
  }

  /** In every recorded run each step holds the response the model gave at it, with its tokens. */
  lemma StepsAreResponses(w: World, config: Config, task: string, tries: nat -> Try, maxAttempts: int)
    requires Start(w, config, task, Recording0(tries, maxAttempts)).ended.None?
    ensures HoldsAll(RunOf(w, config, task, Recording0(tries, maxAttempts)))
  {
    LoopsHold(w, config, Start(w, config, task, Recording0(tries, maxAttempts)), 0);
  }
}
