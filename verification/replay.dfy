/** What a replay proves (bench/replay.py). The replayer compares only the first line of each observation,
    and that is enough: the loop's control depends on a tool's result only through what that line says. */
module ReplayTheorems {
  import opened Wrappers
  import opened AgentLoop

  // ---- what the first line says ----

  lemma {:induction false} DigitsOk(n: nat)
    ensures Digits(n)[0] == '0' <==> n == 0
    ensures forall i :: 0 <= i < |Digits(n)| ==> '0' <= Digits(n)[i] <= '9'
  {
    if n >= 10 { DigitsOk(n / 10); }
  }

  lemma IntTextOk(n: int)
    ensures |IntText(n)| >= 1
    ensures IntText(n)[0] == '0' <==> n == 0
    ensures n == 0 ==> IntText(n) == "0"
    ensures '\n' !in IntText(n)
  {
    DigitsOk(if n < 0 then -n else n);
  }

  lemma HeaderIsOneLine(r: ToolResult)
    ensures '\n' !in Header(r)
  {
    if r.exitCode.Some? { IntTextOk(r.exitCode.value); }
  }

  lemma {:induction false} FirstLineOf(line: string, rest: string)
    requires '\n' !in line
    ensures FirstLine(line + "\n" + rest) == line
    decreases |line|
  {
    var s := line + "\n" + rest;
    if line != "" {
      assert line[0] in line;
      assert s[1..] == line[1..] + "\n" + rest;
      FirstLineOf(line[1..], rest);
    }
  }

  /** The heads of results that passed. */
  predicate PassHead(h: string) { PassesAfter("[ok]", h) || PassesAfter("[error]", h) }

  predicate PassesAfter(mark: string, h: string) {
    h == mark + " exit_code=0" || h == mark + " exit_code=0" + " truncated=true"
  }

  function HeadOf(r: ToolResult): string { Cut(FirstLine(FormatObservation(r)), 200) }

  predicate Passed(r: ToolResult) { r.exitCode == Some(0) && !r.timedOut }

  lemma HeadIsHeader(r: ToolResult)
    ensures HeadOf(r) == Cut(Header(r), 200)
  {
    HeaderIsOneLine(r);
    FirstLineOf(Header(r), r.output);
  }

  function Mark(r: ToolResult): string { if r.ok then "[ok]" else "[error]" }

  /** What follows the mark and the exit code. */
  function Flags(r: ToolResult): string {
    (if r.timedOut then " timed_out=true" else "") + (if r.truncated then " truncated=true" else "")
  }

  lemma HeaderParts(r: ToolResult)
    ensures Header(r) == Mark(r) + (if r.exitCode.Some? then " exit_code=" + IntText(r.exitCode.value) else "") + Flags(r)
  {}

  /** Where a head that starts with this mark must show the exit code. */
  lemma PassHeadShape(h: string, mark: string)
    requires PassHead(h) && (mark == "[ok]" || mark == "[error]") && mark <= h
    ensures h[|mark| + 1] == 'e' && h[|mark| + 11] == '0' && (|h| > |mark| + 14 ==> h[|mark| + 14] == 'r')
  {
    if mark == "[ok]" { assert h[1] == 'o'; } else { assert h[1] == 'e'; }
  }

  lemma NoExitNoPass(r: ToolResult)
    requires r.exitCode.None?
    ensures !PassHead(Cut(Header(r), 200))
  {
    HeaderParts(r);
    var h, m := Header(r), Mark(r);
    assert h == m + Flags(r) && Cut(h, 200) == h && m <= h;
    if PassHead(h) { PassHeadShape(h, m); }
    assert Flags(r) != "" ==> h[|m| + 1] == Flags(r)[1] == 't';
  }

  lemma OtherExitNoPass(r: ToolResult)
    requires r.exitCode.Some? && r.exitCode.value != 0
    ensures !PassHead(Cut(Header(r), 200))
  {
    HeaderParts(r);
    IntTextOk(r.exitCode.value);
    var m, code := Mark(r), IntText(r.exitCode.value);
    var h := Cut(Header(r), 200);
    assert Header(r)[..|m| + 12] == m + " exit_code=" + code[..1];
    assert m <= h && h[|m| + 11] == code[0];
    if PassHead(h) { PassHeadShape(h, m); }
  }

  lemma ZeroExit(r: ToolResult)
    requires r.exitCode == Some(0)
    ensures Cut(Header(r), 200) == Mark(r) + " exit_code=0" + Flags(r)
  {
    HeaderParts(r);
    IntTextOk(0);
    assert |Flags(r)| <= 30;
  }

  lemma ZeroExitInTime(r: ToolResult)
    requires r.exitCode == Some(0) && !r.timedOut
    ensures PassHead(Cut(Header(r), 200))
  {
    ZeroExit(r);
    if !r.truncated { assert Cut(Header(r), 200) == Mark(r) + " exit_code=0"; }
  }

  lemma ZeroExitTooLate(r: ToolResult)
    requires r.exitCode == Some(0) && r.timedOut
    ensures !PassHead(Cut(Header(r), 200))
  {
    ZeroExit(r);
    var m, h := Mark(r), Cut(Header(r), 200);
    assert m <= h && |h| > |m| + 14 && h[|m| + 14] == Flags(r)[2];
    if PassHead(h) { PassHeadShape(h, m); }
  }

  /** A head says whether its result passed: exit code 0, whatever else was printed below it. Any exit code
      fits: one so long that the head is cut short is not 0. */
  lemma HeadSaysPassed(r: ToolResult)
    ensures PassHead(HeadOf(r)) <==> Passed(r)
  {
    HeadIsHeader(r);
    if r.exitCode.None? {
      NoExitNoPass(r);
    } else if r.exitCode.value != 0 {
      OtherExitNoPass(r);
    } else {
      if r.timedOut { ZeroExitTooLate(r); } else { ZeroExitInTime(r); }
    }
  }

  lemma SameHeadSameVerdict(w: World, v: World, call: ToolCall, a: ToolResult, b: ToolResult)
    requires HeadOf(a) == HeadOf(b) && w.str == v.str
    ensures CountsAsVerification(w, call, a) <==> CountsAsVerification(v, call, b)
  {
    HeadSaysPassed(a);
    HeadSaysPassed(b);
  }

  // ---- two runs side by side ----

  /** A step without what its sandbox printed, and without the text of a provider's error. */
  function Outline(s: AgentStep): AgentStep {
    if s.result.Some? then s.(result := Some(ToolResult("", false, None, false, false)), observation := "")
    else if s.call.None? && !s.malformed then s.(observation := "")
    else s
  }

  predicate SameOutlines(a: seq<AgentStep>, b: seq<AgentStep>) {
    |a| == |b| && forall i :: 0 <= i < |a| ==> Outline(a[i]) == Outline(b[i])
  }

  /** Everything the loop decided and counted: its steps' tool calls and refusals in order, the calls the
      sandbox got, token totals, how it ended and with what answer. */
  predicate SameControl(a: Loop, b: Loop) {
    && SameOutlines(a.steps, b.steps) && a.executed == b.executed
    && a.promptTokens == b.promptTokens && a.completionTokens == b.completionTokens
    && a.malformed == b.malformed && a.ended == b.ended && a.answer == b.answer && a.reason == b.reason
  }

  /** Two loops at the top of the same pass. Their last observations may differ, and then so may whether
      each counts as verified; but not if the heads agree. */
  predicate Aligned(a: Loop, b: Loop) {
    && SameControl(a, b) && |a.messages| == |b.messages| >= 2
    && (ObservationHead(a.messages) == ObservationHead(b.messages) ==> a.verified == b.verified)
  }

  /** Worlds that differ only in their sandboxes. */
  ghost predicate SameButSandbox(w: World, v: World) { v == w.(sandbox := v.sandbox) }

  lemma ParsesAlike(w: World, v: World, text: string)
    requires SameButSandbox(w, v)
    ensures ParseToolCall(w, text) == ParseToolCall(v, text)
  {}

  lemma CallsAlike(w: World, v: World, config: Config, a: Loop, b: Loop, index: int, c: Completion, thought: string, call: ToolCall)
    requires SameButSandbox(w, v) && SameControl(a, b) && a.verified == b.verified && |a.messages| == |b.messages| >= 2
    requires a.ended.None?
    ensures Aligned(OnCall(w, config, a, index, c, thought, call), OnCall(v, config, b, index, c, thought, call))
  {
    if call.name.Escalate? || call.name.Finish? {
      assert StrOf(w, call.arguments, "reason") == StrOf(v, call.arguments, "reason");
      assert StrOf(w, call.arguments, "answer") == StrOf(v, call.arguments, "answer");
    } else {
      var r, q := Execute(w, a.executed, call), Execute(v, b.executed, call);
      if HeadOf(r) == HeadOf(q) { SameHeadSameVerdict(w, v, call, r, q); }
      var x, y := OnCall(w, config, a, index, c, thought, call), OnCall(v, config, b, index, c, thought, call);
      assert ObservationHead(x.messages) == HeadOf(r) && ObservationHead(y.messages) == HeadOf(q);
    }
  }

  /** What one pass does with an answer both providers gave. */
  function AfterAnswer(w: World, config: Config, l: Loop, index: int, p: Provider, c: Completion): Loop {
    match ParseToolCall(w, c.content)
    case Malformed(error) => OnMalformed(config, Heard(l, p, c), index, c, error)
    case Uncaught(error) => Heard(l, p, c).(ended := Some(Raised(error)))
    case Step(thought, call) => OnCall(w, config, Heard(l, p, c), index, c, thought, call)
  }

  lemma AfterAnswerKeeps(w: World, config: Config, l: Loop, index: int, p: Provider, c: Completion)
    ensures AfterAnswer(w, config, l, index, p, c).provider == p
  {}

  lemma MalformedAlike(config: Config, a: Loop, b: Loop, index: int, c: Completion, error: string)
    requires SameControl(a, b) && a.verified == b.verified && |a.messages| == |b.messages| >= 2
    ensures Aligned(OnMalformed(config, a, index, c, error), OnMalformed(config, b, index, c, error))
  {}

  /** The same answer, heard by two aligned loops whose heads agree, leaves them aligned. */
  lemma AnswersAlike(w: World, v: World, config: Config, a: Loop, b: Loop, index: int,
                     p: Provider, q: Provider, c: Completion)
    requires SameButSandbox(w, v) && Aligned(a, b) && a.ended.None?
    requires ObservationHead(a.messages) == ObservationHead(b.messages)
    ensures Aligned(AfterAnswer(w, config, a, index, p, c), AfterAnswer(v, config, b, index, q, c))
  {
    ParsesAlike(w, v, c.content);
    var x, y := Heard(a, p, c), Heard(b, q, c);
    assert SameControl(x, y) && x.verified == y.verified;
    match ParseToolCall(w, c.content)
    case Malformed(error) => MalformedAlike(config, x, y, index, c, error);
    case Uncaught(error) =>
    case Step(thought, call) => CallsAlike(w, v, config, x, y, index, c, thought, call);
  }

  // ---- the recorder ----

  /** What one recorded call comes to: one more answer kept, or the failure that ends the run. */
  lemma {:induction false} RecordOutcome(w: World, p: Provider, attempt: int, messages: seq<Message>, temperature: real, maxTokens: int)
    requires p.Recorder?
    ensures var (q, reply) := Record(w, p, attempt, messages, temperature, maxTokens);
            && q.Recorder?
            && (reply.Answer? ==> q.error == p.error && q.calls == p.calls + [RecordedCall(
                                                                                if p.calls == [] then Some(Prefix(messages)) else None,
                                                                                ObservationHead(messages), temperature, maxTokens, reply.completion)])
            && (reply.Fails? ==> q.calls == p.calls && q.error.Some? && q.error.value.head == ObservationHead(messages))
    decreases p.maxAttempts - attempt
  {
    if p.tries(p.tried).Throws? && p.tries(p.tried).retriable && attempt < p.maxAttempts {
      RecordOutcome(w, p.(tried := p.tried + 1), attempt + 1, messages, temperature, maxTokens);
    }
  }

  lemma IterateAnswer(w: World, config: Config, l: Loop, index: int)
    ensures var (p, reply) := Complete(w, l.provider, l.messages, config.temperature, config.maxTokens);
            Iterate(w, config, l, index) ==
            if reply.Answer? then AfterAnswer(w, config, l, index, p, reply.completion)
            else l.(provider := p, ended := Some(ProviderError),
                    steps := l.steps + [AgentStep(index, "", "", None, None, "provider error: " + reply.text, false, 0, 0)])
  {}

  /** What one pass does to the provider: nothing but the one call it makes of it. */
  lemma IterateProvider(w: World, config: Config, l: Loop, index: int)
    ensures var (p, reply) := Complete(w, l.provider, l.messages, config.temperature, config.maxTokens);
            var next := Iterate(w, config, l, index);
            next.provider == p && (reply.Fails? ==> next.ended == Some(ProviderError))
  {
    var (p, reply) := Complete(w, l.provider, l.messages, config.temperature, config.maxTokens);
    IterateAnswer(w, config, l, index);
    if reply.Answer? { AfterAnswerKeeps(w, config, l, index, p, reply.completion); }
  }

  lemma IterateRecords(w: World, config: Config, l: Loop, index: int)
    requires l.provider.Recorder?
    ensures var next := Iterate(w, config, l, index);
            && next.provider.Recorder? && l.provider.calls <= next.provider.calls
            && (next.provider.error != l.provider.error ==> next.ended == Some(ProviderError))
  {
    var (p, reply) := Complete(w, l.provider, l.messages, config.temperature, config.maxTokens);
    RecordOutcome(w, l.provider, 1, l.messages, config.temperature, config.maxTokens);
    IterateProvider(w, config, l, index);
    assert p.calls[..|l.provider.calls|] == l.provider.calls;
  }

  lemma ReplayKeeps(p: Provider, messages: seq<Message>, temperature: real, maxTokens: int)
    requires p.Replayer?
    ensures var q := Replay(p, messages, temperature, maxTokens).0;
            q.Replayer? && q.recording == p.recording && (p.divergence.Some? ==> q.divergence.Some?)
  {}

  lemma IterateDiverged(w: World, config: Config, l: Loop, index: int)
    requires l.provider.Replayer?
    ensures var next := Iterate(w, config, l, index);
            && next.provider.Replayer? && next.provider.recording == l.provider.recording
            && (l.provider.divergence.Some? ==> next.provider.divergence.Some?)
  {
    hide Iterate, Replay;
    IterateProvider(w, config, l, index);
    ReplayKeeps(l.provider, l.messages, config.temperature, config.maxTokens);
  }

  /** A recording only grows, and a failure ends the run. */
  lemma {:induction false} RecordingGrows(w: World, config: Config, l: Loop, index: int)
    requires l.provider.Recorder?
    ensures var end := Loops(w, config, l, index);
            && end.provider.Recorder? && l.provider.calls <= end.provider.calls && end.ended.Some?
            && (l.ended.Some? ==> end == l)
    decreases config.maxIterations - index
  {
    if l.ended.None? && index < config.maxIterations {
      IterateRecords(w, config, l, index);
      RecordingGrows(w, config, Iterate(w, config, l, index), index + 1);
    }
  }

  lemma {:induction false} DivergedStays(w: World, config: Config, l: Loop, index: int)
    requires l.provider.Replayer? && l.provider.divergence.Some?
    ensures Loops(w, config, l, index).provider.Replayer? && Loops(w, config, l, index).provider.divergence.Some?
    decreases config.maxIterations - index
  {
    if l.ended.None? && index < config.maxIterations {
      IterateDiverged(w, config, l, index);
      DivergedStays(w, config, Iterate(w, config, l, index), index + 1);
    }
  }

  // ---- a replay that does not diverge ----

  function RecordingOf(l: Loop): Recording
    requires l.provider.Recorder?
  {
    Recording(l.provider.calls, l.provider.error)
  }

  /** How many calls a replay of it makes, the failed one included. */
  function Total(rec: Recording): nat { |rec.calls| + if rec.error.Some? then 1 else 0 }

  /** The replayer stands where the recorder stood. */
  predicate InStep(p: Provider, q: Provider, rec: Recording) {
    && p.Recorder? && q.Replayer? && q.recording == rec && q.cursor == |p.calls| && q.divergence.None? && p.error.None?
  }

  /** What the next call of the recorded run tells the replayer: it answers alike or refuses. */
  lemma CallsInStep(w: World, v: World, config: Config, a: Loop, b: Loop, rec: Recording)
    requires InStep(a.provider, b.provider, rec)
    requires var (p, reply) := Complete(w, a.provider, a.messages, config.temperature, config.maxTokens);
             p.Recorder? && p.calls <= rec.calls && (reply.Fails? ==> rec == Recording(p.calls, p.error))
    ensures var (p, reply) := Complete(w, a.provider, a.messages, config.temperature, config.maxTokens);
            var (q, again) := Complete(v, b.provider, b.messages, config.temperature, config.maxTokens);
            && q.Replayer? && (again.Answer? ==> q.divergence.None?)
            && (q.divergence.None? ==>
                  && ObservationHead(a.messages) == ObservationHead(b.messages)
                  && (reply.Answer? <==> again.Answer?)
                  && (reply.Answer? ==> again == reply && InStep(p, q, rec))
                  && (reply.Fails? ==> q.cursor == Total(rec)))
  {
    RecordOutcome(w, a.provider, 1, a.messages, config.temperature, config.maxTokens);
    var (p, reply) := Complete(w, a.provider, a.messages, config.temperature, config.maxTokens);
    if reply.Answer? {
      assert rec.calls[|a.provider.calls|] == p.calls[|a.provider.calls|];
    }
  }

  /** The two loops from the same pass on. */
  lemma {:induction false} StaysInStep(w: World, v: World, config: Config, a: Loop, b: Loop,
                                       index: int, rec: Recording)
    requires SameButSandbox(w, v) && Aligned(a, b) && a.provider.Recorder? && b.provider.Replayer?
    requires if a.ended.None? then InStep(a.provider, b.provider, rec) else b.provider.cursor == Total(rec)
    requires Loops(w, config, a, index).provider.Recorder? && rec == RecordingOf(Loops(w, config, a, index))
    requires Loops(v, config, b, index).provider.Replayer? && Loops(v, config, b, index).provider.divergence.None?
    ensures SameControl(Loops(w, config, a, index), Loops(v, config, b, index))
    ensures Loops(v, config, b, index).provider.cursor == Total(rec)
    decreases config.maxIterations - index
  {
    if a.ended.None? && index < config.maxIterations {
      var (p, reply) := Complete(w, a.provider, a.messages, config.temperature, config.maxTokens);
      var (q, again) := Complete(v, b.provider, b.messages, config.temperature, config.maxTokens);
      var x, y := Iterate(w, config, a, index), Iterate(v, config, b, index);
      IterateProvider(w, config, a, index);
      IterateProvider(v, config, b, index);
      IterateRecords(w, config, a, index);
      RecordingGrows(w, config, x, index + 1);
      CallsInStep(w, v, config, a, b, rec);
      if q.divergence.Some? { DivergedStays(v, config, y, index + 1); }
      StepAligned(w, v, config, a, b, index);
      StaysInStep(w, v, config, x, y, index + 1, rec);
    }
  }

  lemma StepAligned(w: World, v: World, config: Config, a: Loop, b: Loop, index: int)
    requires SameButSandbox(w, v) && Aligned(a, b) && a.ended.None?
    requires var reply := Complete(w, a.provider, a.messages, config.temperature, config.maxTokens).1;
             var again := Complete(v, b.provider, b.messages, config.temperature, config.maxTokens).1;
             && ObservationHead(a.messages) == ObservationHead(b.messages)
             && (reply.Answer? <==> again.Answer?) && (reply.Answer? ==> again == reply)
    ensures Aligned(Iterate(w, config, a, index), Iterate(v, config, b, index))
  {
    var (p, reply) := Complete(w, a.provider, a.messages, config.temperature, config.maxTokens);
    var (q, again) := Complete(v, b.provider, b.messages, config.temperature, config.maxTokens);
    IterateAnswer(w, config, a, index);
    IterateAnswer(v, config, b, index);
    if reply.Answer? {
      AnswersAlike(w, v, config, a, b, index, p, q, reply.completion);
    }
  }

  // ---- the theorems ----

  /** check_consumed: flag a run that stopped before using every recorded call. */
  function CheckConsumed(p: Provider): Provider {
    if p.Replayer? && p.divergence.None? && p.cursor < Total(p.recording)
    then p.(divergence := Some("the run stopped before using every recorded call")) else p
  }

  function Recording0(tries: nat -> Try, maxAttempts: int): Provider { Recorder(tries, 0, maxAttempts, [], None) }

  /** A replay, under the same settings, that ends without a divergence matches the recorded run: the same
      tool calls, refusals and blocked finishes in the same order, the same tokens, the same end. What the
      two sandboxes printed below each first line, and any model's behaviour, are arbitrary. */
  lemma ReplayMatches(w: World, v: World, config: Config, task: string,
                      tries: nat -> Try, maxAttempts: int, rec: Recording)
    requires SameButSandbox(w, v)
    requires Start(w, config, task, Recording0(tries, maxAttempts)).ended.None?
    requires Start(v, config, task, Replayer(rec, 0, None)).ended.None?
    requires var run := RunOf(w, config, task, Recording0(tries, maxAttempts));
             run.provider.Recorder? && rec == RecordingOf(run)
    requires var replay := RunOf(v, config, task, Replayer(rec, 0, None));
             replay.provider.Replayer? && replay.provider.divergence.None?
    ensures var run := RunOf(w, config, task, Recording0(tries, maxAttempts));
            var replay := RunOf(v, config, task, Replayer(rec, 0, None));
            SameControl(run, replay) && CheckConsumed(replay.provider) == replay.provider
  {
    var a, b := Start(w, config, task, Recording0(tries, maxAttempts)), Start(v, config, task, Replayer(rec, 0, None));
    StaysInStep(w, v, config, a, b, 0, rec);
    ReplaysItsRecording(v, config, b, 0);
  }

  lemma {:induction false} ReplaysItsRecording(w: World, config: Config, l: Loop, index: int)
    requires l.provider.Replayer?
    ensures Loops(w, config, l, index).provider.Replayer?
    ensures Loops(w, config, l, index).provider.recording == l.provider.recording
    decreases config.maxIterations - index
  {
    hide Iterate;
    if l.ended.None? && index < config.maxIterations {
      IterateDiverged(w, config, l, index);
      ReplaysItsRecording(w, config, Iterate(w, config, l, index), index + 1);
    }
  }

  // ---- recording, then replaying in the same world ----

  /** Runs equal but for their providers and the text of a final provider error. */
  ghost predicate SameRun(a: Loop, b: Loop) {
    && |a.steps| == |b.steps|
    && (forall i :: 0 <= i < |a.steps| && (a.ended == Some(ProviderError) ==> i < |a.steps| - 1) ==> a.steps[i] == b.steps[i])
    && (forall i :: 0 <= i < |a.steps| ==> a.steps[i].(observation := "") == b.steps[i].(observation := ""))
    && b == a.(provider := b.provider, steps := b.steps)
  }

  /** In the same world the replayer answers every call the recorder answered, with the same answer. */
  lemma AnswersExactly(w: World, config: Config, a: Loop, b: Loop, rec: Recording)
    requires InStep(a.provider, b.provider, rec) && a.messages == b.messages
    requires var (p, reply) := Complete(w, a.provider, a.messages, config.temperature, config.maxTokens);
             p.Recorder? && p.calls <= rec.calls && (reply.Fails? ==> rec == Recording(p.calls, p.error))
    ensures var (p, reply) := Complete(w, a.provider, a.messages, config.temperature, config.maxTokens);
            var (q, again) := Complete(w, b.provider, b.messages, config.temperature, config.maxTokens);
            && q.Replayer? && q.divergence.None?
            && (reply.Answer? ==> again == reply && InStep(p, q, rec))
            && (reply.Fails? ==> again.Fails? && q.cursor == Total(rec))
  {
    RecordOutcome(w, a.provider, 1, a.messages, config.temperature, config.maxTokens);
    var (p, reply) := Complete(w, a.provider, a.messages, config.temperature, config.maxTokens);
    if reply.Answer? {
      assert rec.calls[|a.provider.calls|] == p.calls[|a.provider.calls|];
    }
  }

  lemma CallExactly(w: World, config: Config, l: Loop, q: Provider, index: int, c: Completion, thought: string, call: ToolCall)
    ensures OnCall(w, config, l.(provider := q), index, c, thought, call) ==
            OnCall(w, config, l, index, c, thought, call).(provider := q)
  {}

  lemma AnswerExactly(w: World, config: Config, a: Loop, b: Loop, index: int, p: Provider, q: Provider, c: Completion)
    requires b == a.(provider := b.provider)
    ensures AfterAnswer(w, config, b, index, q, c) == AfterAnswer(w, config, a, index, p, c).(provider := q)
  {
    var x := Heard(a, p, c);
    assert Heard(b, q, c) == x.(provider := q);
    match ParseToolCall(w, c.content)
    case Malformed(error) => assert OnMalformed(config, x.(provider := q), index, c, error) == OnMalformed(config, x, index, c, error).(provider := q);
    case Uncaught(error) =>
    case Step(thought, call) => CallExactly(w, config, x, q, index, c, thought, call);
  }

  lemma StepExactly(w: World, config: Config, a: Loop, b: Loop, index: int)
    requires b == a.(provider := b.provider) && a.ended.None?
    requires var reply := Complete(w, a.provider, a.messages, config.temperature, config.maxTokens).1;
             var again := Complete(w, b.provider, b.messages, config.temperature, config.maxTokens).1;
             if reply.Answer? then again == reply else again.Fails?
    ensures var x, y := Iterate(w, config, a, index), Iterate(w, config, b, index);
            if x.ended == Some(ProviderError) then SameRun(x, y) else y == x.(provider := y.provider)
  {
    var (p, reply) := Complete(w, a.provider, a.messages, config.temperature, config.maxTokens);
    var (q, again) := Complete(w, b.provider, b.messages, config.temperature, config.maxTokens);
    IterateAnswer(w, config, a, index);
    IterateAnswer(w, config, b, index);
    if reply.Answer? { AnswerExactly(w, config, a, b, index, p, q, reply.completion); }
  }

  lemma {:induction false} StaysExact(w: World, config: Config, a: Loop, b: Loop, index: int, rec: Recording)
    requires a.provider.Recorder? && b.provider.Replayer? && b.provider.recording == rec && b.provider.divergence.None?
    requires if a.ended.None? then b == a.(provider := b.provider) && InStep(a.provider, b.provider, rec)
             else SameRun(a, b) && b.provider.cursor == Total(rec)
    requires Loops(w, config, a, index).provider.Recorder? && rec == RecordingOf(Loops(w, config, a, index))
    ensures var end := Loops(w, config, b, index);
            && SameRun(Loops(w, config, a, index), end)
            && end.provider.Replayer? && end.provider.recording == rec
            && end.provider.divergence.None? && end.provider.cursor == Total(rec)
    decreases config.maxIterations - index
  {
    if a.ended.None? && index < config.maxIterations {
      var x, y := Iterate(w, config, a, index), Iterate(w, config, b, index);
      IterateProvider(w, config, a, index);
      IterateProvider(w, config, b, index);
      IterateRecords(w, config, a, index);
      RecordingGrows(w, config, x, index + 1);
      AnswersExactly(w, config, a, b, rec);
      StepExactly(w, config, a, b, index);
      StaysExact(w, config, x, y, index + 1, rec);
    }
  }

  /** Replaying a recording in the world that made it, whatever the provider did, retries and a final failure
      included: it never diverges, it uses every recorded call, and the run comes out the same but for the
      text of a final provider error. */
  lemma RecordThenReplay(w: World, config: Config, task: string, tries: nat -> Try, maxAttempts: int)
    requires Start(w, config, task, Recording0(tries, maxAttempts)).ended.None?
    ensures var run := RunOf(w, config, task, Recording0(tries, maxAttempts));
            run.provider.Recorder? &&
            var replay := RunOf(w, config, task, Replayer(RecordingOf(run), 0, None));
            SameRun(run, replay) && CheckConsumed(replay.provider) == replay.provider && replay.provider.Replayer? && replay.provider.divergence.None?
  {
    var a := Start(w, config, task, Recording0(tries, maxAttempts));
    RecordingGrows(w, config, a, 0);
    var rec := RecordingOf(Loops(w, config, a, 0));
    StaysExact(w, config, a, Start(w, config, task, Replayer(rec, 0, None)), 0, rec);
  }
}
