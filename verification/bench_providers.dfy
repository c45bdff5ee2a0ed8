/** The two providers as the source has them (bench/replay.py): objects that keep their calls, their error,
    their place in the recording and their divergence. Each call does what the loop's functions say. */
module BenchProviders {
  import opened Wrappers
  import opened AgentLoop
  import opened ReplayTheorems
  import opened ReplayRefusals

  /** What the clock read when a try began and when it was over. */
  datatype Span = Span(started: real, ended: real)

  /** How long a kept answer took, and how long the tries before it. */
  datatype Timing = Timing(latency: real, retryWait: real)

  /** The call as it was made, with its answer; the first one also keeps the prompt and the task. */
  predicate Keeps(call: RecordedCall, first: bool, messages: seq<Message>, temperature: real, maxTokens: int, c: Completion) {
    Matches(call, messages, temperature, maxTokens) && (call.prefix.Some? <==> first) && call.completion == c
  }

  class RecordingProvider {
    const tries: nat -> Try
    const spans: nat -> Span
    const maxAttempts: int
    var tried: nat
    var calls: seq<RecordedCall>
    var timings: seq<Timing>
    var error: Option<RecordedError>
    var gaveUp: Option<Try>

    constructor (tries: nat -> Try, spans: nat -> Span, maxAttempts: int)
      requires maxAttempts >= 1
      ensures State() == Recording0(tries, maxAttempts) && this.spans == spans && timings == [] && gaveUp.None?
    {
      this.tries, this.spans, this.maxAttempts := tries, spans, maxAttempts;
      tried, calls, timings, error, gaveUp := 0, [], [], None, None;
    }

    function State(): (p: Provider)
      reads this
    {
      Recorder(tries, tried, maxAttempts, calls, error)
    }

    /** Call the wrapped provider until it answers, keeping the answer, or until waiting cannot help. */
    method Complete(w: World, messages: seq<Message>, temperature: real, maxTokens: int, now: real) returns (reply: Reply)
      requires maxAttempts >= 1
      modifies this
      ensures (State(), reply) == Record(w, old(State()), 1, messages, temperature, maxTokens)
      ensures old(tried) < tried <= old(tried) + maxAttempts
      ensures forall n :: old(tried) <= n < tried - 1 ==> tries(n).Throws? && tries(n).retriable
      ensures var last, span := tries(tried - 1), spans(tried - 1);
              if last.Gives? then
                && reply == Answer(last.completion) && gaveUp == old(gaveUp) && error == old(error)
                && timings == old(timings) + [Timing(span.ended - span.started, span.started - now)]
                && |calls| == |old(calls)| + 1 && calls[..|old(calls)|] == old(calls)
                && Keeps(calls[|old(calls)|], old(calls) == [], messages, temperature, maxTokens, last.completion)
              else
                && reply == Fails(last.text) && (last.retriable ==> tried == old(tried) + maxAttempts) && gaveUp == Some(last)
                && timings == old(timings) && calls == old(calls) && error.Some? && IsHead(error.value.head, messages)
                && error.value.message == w.redact(last.kind + ": " + last.text)
    {
      var attempt := 1;
      while true
        invariant 1 <= attempt <= maxAttempts && tried == old(tried) + attempt - 1
        invariant forall n :: old(tried) <= n < tried ==> tries(n).Throws? && tries(n).retriable
        invariant calls == old(calls) && error == old(error) && timings == old(timings) && gaveUp == old(gaveUp)
        invariant Record(w, State(), attempt, messages, temperature, maxTokens) ==
                  Record(w, old(State()), 1, messages, temperature, maxTokens)
        decreases maxAttempts - attempt
      {
        var outcome, span := tries(tried), spans(tried);
        tried := tried + 1;
        match outcome {
          case Throws(kind, text, retriable) => {
            if !retriable || attempt >= maxAttempts {
              gaveUp := Some(outcome);
              ObservationHeadIs(messages);
              error := Some(RecordedError(ObservationHead(messages), w.redact(kind + ": " + text)));
              return Fails(text);
            }
            attempt := attempt + 1;
          }
          case Gives(completion) => {
            ObservationHeadIs(messages);
            calls := calls + [RecordedCall(if calls == [] then Some(Prefix(messages)) else None, ObservationHead(messages),
                                           temperature, maxTokens, completion)];
            timings := timings + [Timing(span.ended - span.started, span.started - now)];
            return Answer(completion);
          }
        }
      }
    }
  }

  function Sum(times: seq<real>): real { if times == [] then 0.0 else Sum(times[..|times| - 1]) + times[|times| - 1] }

  class ReplayProvider {
    const recording: Recording
    const timings: seq<Timing>
    const timed: bool
    var cursor: nat
    var divergence: Option<string>
    var waited: real

    constructor (recording: Recording, timings: seq<Timing>, timed: bool)
      requires |timings| == |recording.calls|
      ensures State() == Replayer(recording, 0, None) && Valid() && this.timings == timings && this.timed == timed
    {
      this.recording, this.timings, this.timed := recording, timings, timed;
      cursor, divergence, waited := 0, None, 0.0;
    }

    /** How many of the recorded calls it has served. */
    function Answered(): nat
      reads this
    {
      if cursor <= |recording.calls| then cursor else |recording.calls|
    }

    /** It has waited out the latencies of the calls it served, or nothing on the profile that answers at once. */
    predicate Valid()
      reads this
    {
      && |timings| == |recording.calls|
      && waited == if timed then Sum(Latencies(Answered())) else 0.0
    }

    /** The first so many recorded latencies. */
    function Latencies(n: nat): seq<real>
      requires n <= |timings|
    {
      seq(n, i requires 0 <= i < n => timings[i].latency)
    }

    function State(): (p: Provider)
      reads this
    {
      Replayer(recording, cursor, divergence)
    }

    method Complete(w: World, messages: seq<Message>, temperature: real, maxTokens: int) returns (reply: Reply)
      requires Valid()
      modifies this`cursor, this`divergence, this`waited
      ensures Valid() && (State(), reply) == Replay(old(State()), messages, temperature, maxTokens)
      ensures reply.Answer? <==> Answered() > old(Answered())
      ensures reply.Answer? <==> old(cursor) < |recording.calls| && Matches(recording.calls[old(cursor)], messages, temperature, maxTokens)
      ensures reply.Answer? ==> reply.completion == recording.calls[old(cursor)].completion && divergence == old(divergence)
      ensures reply.Fails? ==>
                if old(cursor) == |recording.calls| && recording.error.Some? && IsHead(recording.error.value.head, messages)
                then reply.text == recording.error.value.message && divergence == old(divergence) && cursor == old(cursor) + 1
                else divergence == Some(reply.text) && cursor == old(cursor)
    {
      AnswersOnlyMatches(State(), messages, temperature, maxTokens);
      var reason: Option<string> := None;
      var head := ObservationHead(messages);
      if cursor == |recording.calls| && recording.error.Some? {
        if head == recording.error.value.head {
          cursor := cursor + 1;
          return Fails(recording.error.value.message);
        }
        reason := Some("answers another observation than the recorded failure");
      } else if cursor >= |recording.calls| {
        reason := Some("requested more calls than were recorded");
      } else {
        var call := recording.calls[cursor];
        if (temperature, maxTokens) != (call.temperature, call.maxTokens) {
          reason := Some("used other settings");
        } else if call.prefix.Some? && call.prefix.value != Prefix(messages) {
          reason := Some("the system prompt or task message changed");
        } else if head != call.head {
          reason := Some("answers another observation than the recording");
        } else {
          assert Latencies(cursor + 1)[..cursor] == Latencies(cursor);
          if timed { waited := waited + timings[cursor].latency; }
          cursor := cursor + 1;
          return Answer(call.completion);
        }
      }
      divergence := reason;
      reply := Fails(reason.value);
    }

    /** Flag a run that stopped before using every recorded call. */
    method Consumed()
      modifies this`divergence
      ensures State() == CheckConsumed(old(State()))
      ensures divergence.Some? <==>
                old(divergence).Some? || cursor < |recording.calls| || (cursor == |recording.calls| && recording.error.Some?)
      ensures old(divergence).Some? ==> divergence == old(divergence)
    {
      var total := |recording.calls| + if recording.error.Some? then 1 else 0;
      if divergence.None? && cursor < total {
        divergence := Some("the run stopped before using every recorded call");
      }
    }
  }
}
