/** What a replayer refuses (bench/replay.py): exactly when it answers one call, and what becomes of a run whose prompt,
    task or settings are not the recorded ones. */
module ReplayRefusals {
  import opened Wrappers
  import opened AgentLoop
  import opened ReplayTheorems

  // ---- one call ----

  /** The latest observation up to its first line break, cut at 200 characters; none at the opening call. */
  predicate IsHead(h: string, messages: seq<Message>) {
    if |messages| <= 2 then h == ""
    else
      var content := messages[|messages| - 1].content;
      h <= content && '\n' !in h && |h| <= 200 && (|h| == 200 || |h| == |content| || content[|h|] == '\n')
  }

  lemma {:induction false} FirstLineIs(s: string)
    ensures FirstLine(s) <= s && '\n' !in FirstLine(s)
    ensures |FirstLine(s)| < |s| ==> s[|FirstLine(s)|] == '\n'
  {
    if s != "" && s[0] != '\n' {
      FirstLineIs(s[1..]);
      assert s == [s[0]] + s[1..];
    }
  }

  lemma NoShorterHead(h: string, g: string, messages: seq<Message>)
    requires |messages| > 2 && IsHead(h, messages) && IsHead(g, messages)
    ensures |g| <= |h|
  {
    var content := messages[|messages| - 1].content;
    assert forall i :: 0 <= i < |g| ==> g[i] == content[i] && g[i] in g;
  }

  lemma ObservationHeadIs(messages: seq<Message>)
    ensures IsHead(ObservationHead(messages), messages)
  {
    if |messages| > 2 { FirstLineIs(messages[|messages| - 1].content); }
  }

  lemma HeadIs(h: string, messages: seq<Message>)
    ensures IsHead(h, messages) <==> h == ObservationHead(messages)
  {
    ObservationHeadIs(messages);
    if |messages| > 2 && IsHead(h, messages) {
      var content, head := messages[|messages| - 1].content, ObservationHead(messages);
      NoShorterHead(h, head, messages);
      NoShorterHead(head, h, messages);
      assert h == content[..|h|] && head == content[..|head|];
    }
  }

  /** The call is the recorded one: same settings, same prompt and task, same head of what it answers. */
  predicate Matches(call: RecordedCall, messages: seq<Message>, temperature: real, maxTokens: int) {
    && temperature == call.temperature && maxTokens == call.maxTokens
    && (call.prefix.Some? ==> call.prefix.value == if |messages| <= 2 then messages else messages[..2])
    && IsHead(call.head, messages)
  }

  /** A replayer answers exactly a call that matches the next recorded one, with its completion. It fails as recorded
      exactly where the recording failed and the head is that failure's. Every other call sets its divergence. */
  lemma AnswersOnlyMatches(p: Provider, messages: seq<Message>, temperature: real, maxTokens: int)
    requires p.Replayer?
    ensures var calls, error := p.recording.calls, p.recording.error;
            var (q, reply) := Replay(p, messages, temperature, maxTokens);
            && (reply.Answer? <==> p.cursor < |calls| && Matches(calls[p.cursor], messages, temperature, maxTokens))
            && (reply.Answer? ==> reply.completion == calls[p.cursor].completion && q == p.(cursor := p.cursor + 1))
            && (reply.Fails? ==>
                  if p.cursor == |calls| && error.Some? && IsHead(error.value.head, messages)
                  then reply.text == error.value.message && q == p.(cursor := p.cursor + 1)
                  else q == p.(divergence := Some(reply.text)))
  {
    if p.cursor < |p.recording.calls| { HeadIs(p.recording.calls[p.cursor].head, messages); }
    if p.recording.error.Some? { HeadIs(p.recording.error.value.head, messages); }
  }

  // ---- a run under another prompt, another task or other settings ----

  /** The opening messages of a run. */
  function Opening(w: World, config: Config, task: string): seq<Message> {
    Start(w, config, task, Recorder(_ => Throws("", "", false), 0, 1, [], None)).messages
  }

  lemma OpensWith(w: World, config: Config, task: string, provider: Provider)
    ensures var l := Start(w, config, task, provider);
            l.messages == Opening(w, config, task) && |l.messages| == 2 && l.provider == provider
            && l.executed == (if config.listing then [ToolCall(ListDir, map["path" := Str(".")])] else []) && l.steps == []
  {}

  /** It ended at its first call: nothing ran but the opening listing. */
  predicate RefusedAtOnce(l: Loop, config: Config) {
    && l.provider.Replayer? && l.provider.divergence.Some? && l.provider.cursor == 0
    && l.ended == Some(ProviderError) && |l.steps| == 1 && l.steps[0].call.None? && l.steps[0].result.None?
    && l.executed == if config.listing then [ToolCall(ListDir, map["path" := Str(".")])] else []
  }

  /** A replay whose prompt, task or settings are not those of the recording's first call ends there. */
  lemma RefusesAtOnce(w: World, config: Config, task: string, rec: Recording)
    requires rec.calls != [] && rec.calls[0].prefix.Some? && config.maxIterations >= 1
    requires Start(w, config, task, Replayer(rec, 0, None)).ended.None?
    requires var call := rec.calls[0];
             call.prefix.value != Opening(w, config, task) || call.temperature != config.temperature || call.maxTokens != config.maxTokens
    ensures RefusedAtOnce(RunOf(w, config, task, Replayer(rec, 0, None)), config)
  {
    hide Start, Replay, Opening;
    var l := Start(w, config, task, Replayer(rec, 0, None));
    OpensWith(w, config, task, Replayer(rec, 0, None));
    AnswersOnlyMatches(l.provider, l.messages, config.temperature, config.maxTokens);
    IterateAnswer(w, config, l, 0);
    IterateProvider(w, config, l, 0);
    var next := Iterate(w, config, l, 0);
    assert RunOf(w, config, task, Replayer(rec, 0, None)) == Loops(w, config, next, 1) == next;
    var (p, reply) := Complete(w, l.provider, l.messages, config.temperature, config.maxTokens);
    assert !Matches(rec.calls[0], l.messages, config.temperature, config.maxTokens);
    assert (p, reply) == Replay(l.provider, l.messages, config.temperature, config.maxTokens);
    assert reply.Fails?;
    assert p == l.provider.(divergence := Some(reply.text));
    assert next.provider == p;
  }

  /** What the first call of a recording says of the run it was made in. */
  lemma {:induction false} FirstCallKept(w: World, config: Config, l: Loop, index: int, first: RecordedCall)
    requires l.provider.Recorder? && l.provider.calls != [] && l.provider.calls[0] == first
    ensures var end := Loops(w, config, l, index);
            end.provider.Recorder? && end.provider.calls != [] && end.provider.calls[0] == first
  {
    RecordingGrows(w, config, l, index);
  }

  lemma {:induction false} FirstCallIs(w: World, config: Config, task: string, tries: nat -> Try, maxAttempts: int)
    requires var run := RunOf(w, config, task, Recording0(tries, maxAttempts)); run.provider.Recorder? && run.provider.calls != []
    ensures var call := RunOf(w, config, task, Recording0(tries, maxAttempts)).provider.calls[0];
            && call.prefix == Some(Opening(w, config, task))
            && call.temperature == config.temperature && call.maxTokens == config.maxTokens && call.head == ""
  {
    hide Start, Opening, Iterate;
    var l := Start(w, config, task, Recording0(tries, maxAttempts));
    OpensWith(w, config, task, Recording0(tries, maxAttempts));
    if l.ended.None? && 0 < config.maxIterations {
      var next := Iterate(w, config, l, 0);
      assert next.ended.Some? ==> Loops(w, config, next, 1) == next;
      RecordOutcome(w, l.provider, 1, l.messages, config.temperature, config.maxTokens);
      IterateProvider(w, config, l, 0);
      var (p, reply) := Complete(w, l.provider, l.messages, config.temperature, config.maxTokens);
      assert RunOf(w, config, task, Recording0(tries, maxAttempts)) == Loops(w, config, next, 1);
      if reply.Answer? { FirstCallKept(w, config, next, 1, next.provider.calls[0]); }
    }
  }

  /** A recording of one run, replayed where the prompt, the task or the settings differ, ends at its first call with a
      divergence; only a recording without any call has nothing to compare. */
  lemma OtherRunIsRefused(w: World, config: Config, task: string, tries: nat -> Try, maxAttempts: int,
                          v: World, config': Config, task': string)
    requires var run := RunOf(w, config, task, Recording0(tries, maxAttempts)); run.provider.Recorder? && run.provider.calls != []
    requires config'.maxIterations >= 1
    requires var rec := RecordingOf(RunOf(w, config, task, Recording0(tries, maxAttempts)));
             Start(v, config', task', Replayer(rec, 0, None)).ended.None?
    requires Opening(w, config, task) != Opening(v, config', task')
             || config.temperature != config'.temperature || config.maxTokens != config'.maxTokens
    ensures var rec := RecordingOf(RunOf(w, config, task, Recording0(tries, maxAttempts)));
            RefusedAtOnce(RunOf(v, config', task', Replayer(rec, 0, None)), config')
  {
    hide Start, Opening, RunOf, RefusedAtOnce;
    FirstCallIs(w, config, task, tries, maxAttempts);
    RefusesAtOnce(v, config', task', RecordingOf(RunOf(w, config, task, Recording0(tries, maxAttempts))));
  }

  /** What follows the task in the opening message. */
  function Ending(w: World, config: Config): string {
    var listed := w.sandbox([ROOT]);
    "\n" + ((if config.listing && listed.Returned? then "\nWorkspace root contents:\n" + listed.result.output + "\n" else "")
            + "\nReason about the task, then issue your first tool call.")
  }

  lemma Regroup(a: string, b: string, c: string, d: string, e: string)
    ensures a + b + c + d + e == a + (b + (c + (d + e)))
  {}

  lemma SameFrame(front: string, a: string, b: string, rest: string)
    requires front + (a + rest) == front + (b + rest)
    ensures a == b
  {
    var text := front + (a + rest);
    assert text[|front|..] == a + rest && text[|front|..] == b + rest;
    assert |a| == |b| && a == (a + rest)[..|a|] && b == (b + rest)[..|a|];
  }

  lemma OpeningText(w: World, config: Config, task: string)
    ensures Opening(w, config, task)[1].content == "Task:\n" + (task + Ending(w, config))
  {
    var listed := w.sandbox([ROOT]);
    Regroup("Task:\n", task, "\n",
            if config.listing && listed.Returned? then "\nWorkspace root contents:\n" + listed.result.output + "\n" else "",
            "\nReason about the task, then issue your first tool call.");
  }

  /** The prompt, and the task before what follows it. */
  lemma OpeningIs(w: World, config: Config, task: string)
    ensures Opening(w, config, task) == [
              Message(System, w.prompt(config.verifiedFinish, config.allowEscalation, config.extraRules)),
              Message(User, "Task:\n" + (task + Ending(w, config)))]
  {
    hide Ending;
    OpeningText(w, config, task);
    var opening := Opening(w, config, task);
    assert |opening| == 2 && opening == [opening[0], Message(User, opening[1].content)];
  }

  /** Two tasks open differently wherever the listing is the same. */
  lemma TasksOpenApart(w: World, config: Config, task: string, task': string)
    requires task != task'
    ensures Opening(w, config, task) != Opening(w, config, task')
  {
    hide Opening, Ending;
    OpeningIs(w, config, task);
    OpeningIs(w, config, task');
    if Opening(w, config, task) == Opening(w, config, task') { SameFrame("Task:\n", task, task', Ending(w, config)); }
  }
}
