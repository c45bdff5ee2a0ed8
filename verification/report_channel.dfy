/** The lines a task sends its worker (backend/fleet/task.py) and how they are read back out of whatever else was
    printed (backend/fleet/execution.py). */
module ReportChannel {
  import opened Wrappers
  import opened AgentLoop

  /** json.loads: a value, a ValueError, or another exception, which nothing there catches (too deep). */
  datatype Decoding = Decodes(value: Json) | NoValue | Raises

  /** What the model leaves to Python: json.loads, json.dumps, str, and whether a text encodes as utf-8, which one
      with a lone surrogate does not. */
  datatype Text = Text(
    loads: string -> Decoding, dumps: map<string, Json> -> string, str: Json -> string, encodes: string -> bool)

  datatype Reports = Reports(progress: seq<Json>, usage: Json, result: Json, error: Option<string>, printed: seq<string>)

  // ---- str.splitlines ----

  predicate IsBreak(c: char) {
    c in {'\n', '\r', '\U{0B}', '\U{0C}', '\U{1C}', '\U{1D}', '\U{1E}', '\U{85}', '\U{2028}', '\U{2029}'}
  }

  /** Where a line ends. */
  function LineEnd(s: string): (end: nat)
    ensures end <= |s| && (end < |s| ==> IsBreak(s[end])) && forall i :: 0 <= i < end ==> !IsBreak(s[i])
  {
    if s == [] || IsBreak(s[0]) then 0 else 1 + LineEnd(s[1..])
  }

  /** Where the next line starts: \r\n is one break. */
  function NextLine(s: string): (next: nat)
    ensures LineEnd(s) <= next <= |s| && (s != [] ==> next > 0)
  {
    var end := LineEnd(s);
    if end == |s| then end
    else if s[end] == '\r' && end + 1 < |s| && s[end + 1] == '\n' then end + 2
    else end + 1
  }

  function Splitlines(s: string): seq<string>
    decreases |s|
  {
    if s == [] then [] else [s[..LineEnd(s)]] + Splitlines(s[NextLine(s)..])
  }

  // ---- read_reports ----

  /** What a line holds. */
  datatype Line = Other | Report(message: map<string, Json>) | Unreadable

  function LineOf(text: Text, token: string, line: string): Line {
    match text.loads(line)
    case Decodes(Dict(message)) =>
      var theirs := text.str(Get(message, "token"));
      if !text.encodes(theirs) then Unreadable
      else if theirs == token then Report(message)
      else Other
    case Raises => Unreadable
    case _ => Other
  }

  function Reported(text: Text, r: Reports, message: map<string, Json>): Reports {
    var kind := Get(message, "fleet");
    if kind == Str("progress") && Get(message, "event").Dict? then r.(progress := r.progress + [Get(message, "event")])
    else if kind == Str("usage") then r.(usage := Get(message, "usage"))
    else if kind == Str("result") then r.(result := Get(message, "result"))
    else if kind == Str("error") then r.(error := Some(text.str(Get(message, "error"))))
    else r
  }

  /** None where the source raises. */
  function ReadLines(text: Text, token: string, r: Reports, lines: seq<string>): Option<Reports>
    decreases |lines|
  {
    if lines == [] then Some(r)
    else
      match LineOf(text, token, lines[0])
      case Unreadable => None
      case Other => ReadLines(text, token, r.(printed := r.printed + [lines[0]]), lines[1..])
      case Report(message) => ReadLines(text, token, Reported(text, r, message), lines[1..])
  }

  const NOTHING := Reports([], Null, Null, None, [])

  function ReadAll(text: Text, token: string, stdout: string): Option<Reports> {
    ReadLines(text, token, NOTHING, Splitlines(stdout))
  }

  method ReadReports(text: Text, token: string, stdout: string) returns (reports: Option<Reports>)
    ensures reports == ReadAll(text, token, stdout)
  {
    var r, lines := NOTHING, Splitlines(stdout);
    for i := 0 to |lines|
      invariant ReadLines(text, token, r, lines[i..]) == ReadAll(text, token, stdout)
    {
      var line := lines[i];
      match LineOf(text, token, line)
      case Unreadable => return None;
      case Other => r := r.(printed := r.printed + [line]);
      case Report(message) => r := Reported(text, r, message);
    }
    reports := Some(r);
  }

  // ---- what a line holds ----

  /** Nothing catches what this line raises: json.loads fails otherwise than by a ValueError, or finds an object whose token
      does not encode. */
  ghost predicate Breaks(text: Text, line: string) {
    || text.loads(line).Raises?
    || exists m :: text.loads(line) == Decodes(Dict(m)) && !text.encodes(text.str(Get(m, "token")))
  }

  /** The line is an object that carries this token. */
  predicate Tagged(text: Text, token: string, line: string, message: map<string, Json>) {
    text.loads(line) == Decodes(Dict(message)) && text.str(Get(message, "token")) == token && text.encodes(token)
  }

  lemma LineTells(text: Text, token: string, line: string)
    ensures LineOf(text, token, line).Unreadable? <==> Breaks(text, line)
    ensures forall m :: LineOf(text, token, line) == Report(m) <==> Tagged(text, token, line, m)
  {
    match text.loads(line)
    case Decodes(Dict(message)) =>
    case _ =>
  }

  // ---- only the token counts ----

  /** The lines that carry no token, in order. */
  function Others(text: Text, token: string, lines: seq<string>): seq<string> {
    if lines == [] then []
    else (if LineOf(text, token, lines[0]).Other? then [lines[0]] else []) + Others(text, token, lines[1..])
  }

  function Carrying(text: Text, token: string, lines: seq<string>): seq<string> {
    if lines == [] then []
    else (if LineOf(text, token, lines[0]).Other? then [] else [lines[0]]) + Carrying(text, token, lines[1..])
  }

  /** Reading raises exactly when some line breaks json.loads or is an object whose token does not encode. */
  lemma {:induction false} RaisesExactly(text: Text, token: string, r: Reports, lines: seq<string>)
    ensures ReadLines(text, token, r, lines) == None <==>
            exists i :: 0 <= i < |lines| && Breaks(text, lines[i])
    decreases |lines|
  {
    hide Breaks;
    if lines != [] {
      LineTells(text, token, lines[0]);
      var line := LineOf(text, token, lines[0]);
      var r' := if line.Report? then Reported(text, r, line.message) else r.(printed := r.printed + [lines[0]]);
      RaisesExactly(text, token, r', lines[1..]);
      if exists i :: 0 <= i < |lines[1..]| && Breaks(text, lines[1..][i]) {
        var i :| 0 <= i < |lines[1..]| && Breaks(text, lines[1..][i]);
        assert Breaks(text, lines[i + 1]);
      }
      if exists i :: 0 < i < |lines| && Breaks(text, lines[i]) {
        var i :| 0 < i < |lines| && Breaks(text, lines[i]);
        assert Breaks(text, lines[1..][i - 1]);
      }
    }
  }

  const LONE_SURROGATE := "{\"token\": \"\\ud800\"}"

  lemma LoneSurrogateIsOneLine()
    ensures OneLine(LONE_SURROGATE)
  {
    assert LONE_SURROGATE == "{\"token\": " + "\"\\ud800\"}";
  }

  /** So one printed line loses every report of its run: {"token": "\ud800"}, which decodes to an object whose token, a
      lone surrogate, does not encode. */
  lemma OneLineLosesAll(text: Text, token: string, before: string, after: string, surrogate: Json)
    requires text.loads(LONE_SURROGATE) == Decodes(Dict(map["token" := surrogate])) && !text.encodes(text.str(surrogate))
    requires EndsItsLine(before)
    ensures ReadAll(text, token, before + (LONE_SURROGATE + "\n" + after)) == None
  {
    hide OneLine;
    LoneSurrogateIsOneLine();
    UnreadableLosesAll(text, token, before, LONE_SURROGATE, after, surrogate);
  }

  lemma UnreadableLosesAll(text: Text, token: string, before: string, line: string, after: string, bad: Json)
    requires text.loads(line) == Decodes(Dict(map["token" := bad])) && !text.encodes(text.str(bad))
    requires EndsItsLine(before) && OneLine(line)
    ensures ReadAll(text, token, before + (line + "\n" + after)) == None
  {
    var rest := line + "\n" + after;
    OneLineSplits(line);
    SplitsApart(line + "\n", after);
    SplitsApart(before, rest);
    assert LineOf(text, token, line).Unreadable? by {
      assert Get(map["token" := bad], "token") == bad;
    }
    LosesTheRest(text, token, NOTHING, Splitlines(before), line, Splitlines(after));
  }

  lemma LosesTheRest(text: Text, token: string, r: Reports, before: seq<string>, line: string, after: seq<string>)
    requires LineOf(text, token, line).Unreadable?
    ensures ReadLines(text, token, r, before + ([line] + after)) == None
  {
    ReadInTurn(text, token, r, before, [line] + after);
  }

  lemma PrintedApart(text: Text, r: Reports, printed: seq<string>, message: map<string, Json>)
    ensures Reported(text, r.(printed := printed), message) == Reported(text, r, message).(printed := printed)
  {}

  /** A line without the token goes to what was printed, in order, and nowhere else: the reports are those of the
      lines that carry it, read alone. */
  lemma {:induction false} OnlyTheTokenCounts(text: Text, token: string, r: Reports, lines: seq<string>)
    ensures ReadLines(text, token, r, lines) ==
            match ReadLines(text, token, r.(printed := []), Carrying(text, token, lines))
            case None => None
            case Some(read) => Some(read.(printed := r.printed + Others(text, token, lines)))
    decreases |lines|
  {
    if lines == [] {
      assert r.printed + [] == r.printed;
    } else {
      var head, rest := lines[0], lines[1..];
      match LineOf(text, token, head)
      case Unreadable =>
      case Other =>
        OnlyTheTokenCounts(text, token, r.(printed := r.printed + [head]), rest);
        assert Carrying(text, token, lines) == Carrying(text, token, rest);
        assert r.printed + [head] + Others(text, token, rest) == r.printed + Others(text, token, lines);
      case Report(message) =>
        OnlyTheTokenCounts(text, token, Reported(text, r, message), rest);
        PrintedApart(text, r, [], message);
        assert Carrying(text, token, lines)[1..] == Carrying(text, token, rest);
        assert Others(text, token, lines) == Others(text, token, rest);
        assert Reported(text, r, message).printed == r.printed;
    }
  }

  // ---- what is sent ----

  /** The line Channel.send writes: the data can override the tag and the token, as ** does. */
  function Sent(text: Text, token: string, kind: string, data: map<string, Json>): string {
    text.dumps(map["fleet" := Str(kind), "token" := Str(token)] + data) + "\n"
  }

  class Stdout {
    var written: string

    constructor ()
      ensures written == ""
    {
      written := "";
    }

    method Write(s: string)
      modifies this
      ensures written == old(written) + s
    {
      written := written + s;
    }
  }

  /** Channel: tagged lines on a stdout it shares with whatever else prints. */
  class Channel {
    const token: string
    const text: Text
    const stdout: Stdout

    constructor (text: Text, token: string, stdout: Stdout)
      ensures this.text == text && this.token == token && this.stdout == stdout
    {
      this.text, this.token, this.stdout := text, token, stdout;
    }

    method Send(kind: string, data: map<string, Json>)
      modifies stdout
      ensures stdout.written == old(stdout.written) + Sent(text, token, kind, data)
    {
      var line := text.dumps(map["fleet" := Str(kind), "token" := Str(token)] + data);
      stdout.Write(line + "\n");
    }
  }

  // ---- what is sent comes back ----

  /** What a task's process writes: a report, or anything at all that ends its line. */
  datatype Written = Sends(kind: string, data: map<string, Json>) | Prints(printed: string)

  function Stream(text: Text, token: string, written: seq<Written>): string {
    if written == [] then ""
    else
      (match written[0] case Sends(kind, data) => Sent(text, token, kind, data) case Prints(printed) => printed) +
      Stream(text, token, written[1..])
  }

  /** The event of a progress message, if it is an object. */
  function Event(kind: string, data: map<string, Json>): seq<Json> {
    if kind == "progress" && Get(data, "event").Dict? then [Get(data, "event")] else []
  }

  function Events(written: seq<Written>): seq<Json> {
    if written == [] then []
    else (if written[0].Sends? then Event(written[0].kind, written[0].data) else []) + Events(written[1..])
  }

  /** The last message of a kind. */
  function Last(written: seq<Written>, kind: string): Option<map<string, Json>> {
    if written == [] then None
    else if Last(written[1..], kind).Some? then Last(written[1..], kind)
    else if written[0].Sends? && written[0].kind == kind then Some(written[0].data)
    else None
  }

  /** The lines that were just printed. */
  function Printed(written: seq<Written>): seq<string> {
    if written == [] then []
    else (if written[0].Prints? then Splitlines(written[0].printed) else []) + Printed(written[1..])
  }

  /** What the last message of a kind holds under its own name, or what there was before. */
  function Latest(written: seq<Written>, kind: string, before: Json): Json {
    match Last(written, kind) case Some(data) => Get(data, kind) case None => before
  }

  /** What the worker should make of all that was written, having made this much of what came before. */
  function Meant(text: Text, r: Reports, written: seq<Written>): Reports {
    Reports(
      r.progress + Events(written),
      Latest(written, "usage", r.usage),
      Latest(written, "result", r.result),
      match Last(written, "error") case Some(data) => Some(text.str(Get(data, "error"))) case None => r.error,
      r.printed + Printed(written))
  }

  lemma MeantPrinted(text: Text, r: Reports, printed: string, rest: seq<Written>)
    ensures Meant(text, r, [Prints(printed)] + rest) == Meant(text, r.(printed := r.printed + Splitlines(printed)), rest)
  {
    hide Splitlines;
    var written := [Prints(printed)] + rest;
    assert written[1..] == rest;
    assert r.printed + (Splitlines(printed) + Printed(rest)) == r.printed + Splitlines(printed) + Printed(rest);
    assert Events(written) == Events(rest);
  }

  lemma OneReport(text: Text, r: Reports, kind: string, data: map<string, Json>)
    requires "fleet" !in data
    ensures Reported(text, r, map["fleet" := Str(kind)] + data) ==
            Reports(r.progress + Event(kind, data),
                    if kind == "usage" then Get(data, "usage") else r.usage,
                    if kind == "result" then Get(data, "result") else r.result,
                    if kind == "error" then Some(text.str(Get(data, "error"))) else r.error,
                    r.printed)
  {
    var message := map["fleet" := Str(kind)] + data;
    assert Get(message, "fleet") == Str(kind);
    assert forall key :: key != "fleet" ==> Get(message, key) == Get(data, key);
    assert r.progress + [] == r.progress;
  }

  lemma MeantSent(text: Text, r: Reports, kind: string, data: map<string, Json>, rest: seq<Written>)
    requires "fleet" !in data
    ensures Meant(text, r, [Sends(kind, data)] + rest) == Meant(text, Reported(text, r, map["fleet" := Str(kind)] + data), rest)
  {
    hide Reported, Splitlines, Event;
    OneReport(text, r, kind, data);
    var written := [Sends(kind, data)] + rest;
    assert written[1..] == rest;
    assert Events(written) == Event(kind, data) + Events(rest);
    assert r.progress + (Event(kind, data) + Events(rest)) == r.progress + Event(kind, data) + Events(rest);
    assert Printed(written) == Printed(rest);
  }

  predicate OneLine(s: string) { forall i :: 0 <= i < |s| ==> !IsBreak(s[i]) }

  predicate EndsItsLine(s: string) { s == "" || s[|s| - 1] == '\n' }

  /** A report json round-trips, on one line, that keeps its own tag and token; or whole lines without the token. */
  predicate WrittenOk(text: Text, token: string, w: Written) {
    match w
    case Sends(kind, data) =>
      var message := map["fleet" := Str(kind), "token" := Str(token)] + data;
      && "fleet" !in data && "token" !in data
      && text.loads(text.dumps(message)) == Decodes(Dict(message)) && OneLine(text.dumps(message))
    case Prints(printed) =>
      && EndsItsLine(printed)
      && forall i :: 0 <= i < |Splitlines(printed)| ==> LineOf(text, token, Splitlines(printed)[i]).Other?
  }

  lemma {:induction false} LineEndBefore(a: string, b: string)
    requires LineEnd(a) < |a|
    ensures LineEnd(a + b) == LineEnd(a)
  {
    if !IsBreak(a[0]) {
      assert (a + b)[1..] == a[1..] + b;
      LineEndBefore(a[1..], b);
    }
  }

  lemma {:induction false} WholeLineEnd(s: string, b: string)
    requires OneLine(s)
    ensures LineEnd(s + "\n" + b) == |s|
  {
    var whole := s + "\n" + b;
    if s != "" {
      assert whole[1..] == s[1..] + "\n" + b;
      WholeLineEnd(s[1..], b);
    }
  }

  lemma {:induction false} EndsWithin(a: string)
    requires a != "" && EndsItsLine(a)
    ensures LineEnd(a) < |a|
  {
    if !IsBreak(a[0]) { EndsWithin(a[1..]); }
  }

  lemma NextLineBefore(a: string, b: string)
    requires a != "" && EndsItsLine(a)
    ensures LineEnd(a + b) == LineEnd(a) && NextLine(a + b) == NextLine(a)
  {
    EndsWithin(a);
    LineEndBefore(a, b);
  }

  lemma Slices(a: string, b: string, n: nat)
    requires n <= |a|
    ensures (a + b)[..n] == a[..n] && (a + b)[n..] == a[n..] + b
  {}

  /** Text that ends its line splits apart from what follows it. */
  lemma {:induction false} SplitsApart(a: string, b: string)
    requires EndsItsLine(a)
    ensures Splitlines(a + b) == Splitlines(a) + Splitlines(b)
    decreases |a|
  {
    if a == "" {
      assert a + b == b;
    } else {
      NextLineBefore(a, b);
      Slices(a, b, LineEnd(a));
      Slices(a, b, NextLine(a));
      SplitsApart(a[NextLine(a)..], b);
    }
  }

  /** What ends each line. */
  function LineBreaks(s: string): seq<string>
    decreases |s|
  {
    if s == [] then [] else [s[LineEnd(s)..NextLine(s)]] + LineBreaks(s[NextLine(s)..])
  }

  function Woven(lines: seq<string>, breaks: seq<string>): string
    requires |lines| == |breaks|
  {
    if lines == [] then "" else lines[0] + breaks[0] + Woven(lines[1..], breaks[1..])
  }

  /** One of the ten characters, or the pair that counts as one break. */
  predicate IsBreakText(b: string) { b == "\r\n" || (|b| == 1 && IsBreak(b[0])) }

  /** A lone carriage return is not followed by a line feed. */
  lemma FirstBreak(s: string)
    requires s != "" && s[NextLine(s)..] != ""
    ensures var rest := s[NextLine(s)..];
            && IsBreakText(s[LineEnd(s)..NextLine(s)])
            && (s[LineEnd(s)..NextLine(s)] == "\r" ==> rest[0] != '\n')
            && (rest[..LineEnd(rest)] == "" && rest[LineEnd(rest)..NextLine(rest)] == "\n" ==> rest[0] == '\n')
  {
    var end := LineEnd(s);
    if s[end] == '\r' && end + 1 < |s| && s[end + 1] == '\n' {
      assert s[end..NextLine(s)] == "\r\n";
    } else {
      assert s[end..NextLine(s)] == [s[end]];
    }
    var rest := s[NextLine(s)..];
    if LineEnd(rest) == 0 { assert rest[0..NextLine(rest)][0] == rest[0]; }
  }

  /** A line of a text: without a break in it, and with one after it, unless it is the last and not empty. No pair is taken
      apart. */
  predicate Parted(lines: seq<string>, breaks: seq<string>, i: nat)
    requires i < |lines| == |breaks|
  {
    && OneLine(lines[i])
    && (IsBreakText(breaks[i]) || (i == |lines| - 1 && breaks[i] == "" && lines[i] != ""))
    && (i > 0 && breaks[i - 1] == "\r" && lines[i] == "" ==> breaks[i] != "\n")
  }

  ghost predicate AllParted(lines: seq<string>, breaks: seq<string>) {
    |lines| == |breaks| && forall i :: 0 <= i < |lines| ==> Parted(lines, breaks, i)
  }

  lemma PartedNext(line: string, end: string, lines: seq<string>, breaks: seq<string>)
    requires AllParted(lines, breaks) && OneLine(line)
    requires if lines == [] then IsBreakText(end) || (end == "" && line != "")
             else IsBreakText(end) && (end == "\r" && lines[0] == "" ==> breaks[0] != "\n")
    ensures AllParted([line] + lines, [end] + breaks)
  {
    hide OneLine, IsBreakText;
    var all, ends := [line] + lines, [end] + breaks;
    forall i | 0 <= i < |all|
      ensures Parted(all, ends, i)
    {
      if i > 0 { assert Parted(lines, breaks, i - 1); }
    }
  }

  lemma WovenNext(line: string, end: string, lines: seq<string>, breaks: seq<string>)
    requires |lines| == |breaks|
    ensures Woven([line] + lines, [end] + breaks) == line + end + Woven(lines, breaks)
  {
    assert ([line] + lines)[1..] == lines && ([end] + breaks)[1..] == breaks;
  }

  lemma {:induction false} WovenBack(s: string)
    ensures |Splitlines(s)| == |LineBreaks(s)| && Woven(Splitlines(s), LineBreaks(s)) == s
    decreases |s|
  {
    if s != "" {
      var end, next := LineEnd(s), NextLine(s);
      var rest := s[next..];
      WovenBack(rest);
      WovenNext(s[..end], s[end..next], Splitlines(rest), LineBreaks(rest));
      hide LineEnd, NextLine, Woven;
      assert Splitlines(s) == [s[..end]] + Splitlines(rest) && LineBreaks(s) == [s[end..next]] + LineBreaks(rest);
      assert s == s[..end] + s[end..next] + rest;
    }
  }

  lemma {:induction false} LinesParted(s: string)
    ensures AllParted(Splitlines(s), LineBreaks(s))
    decreases |s|
  {
    if s != "" {
      hide Parted, AllParted, Woven;
      var end, next := LineEnd(s), NextLine(s);
      var rest := s[next..];
      LinesParted(rest);
      WovenBack(rest);
      if rest == "" { LastBreak(s); } else { FirstBreak(s); }
      PartedNext(s[..end], s[end..next], Splitlines(rest), LineBreaks(rest));
    }
  }

  /** The lines, with their breaks, are the text. */
  lemma SplitsBack(s: string)
    ensures AllParted(Splitlines(s), LineBreaks(s)) && Woven(Splitlines(s), LineBreaks(s)) == s
  {
    LinesParted(s);
    WovenBack(s);
  }

  lemma LastBreak(s: string)
    requires s != "" && s[NextLine(s)..] == ""
    ensures IsBreakText(s[LineEnd(s)..NextLine(s)]) || (s[LineEnd(s)..NextLine(s)] == "" && s[..LineEnd(s)] != "")
  {
    var end := LineEnd(s);
    if end < |s| {
      if s[end] == '\r' && end + 1 < |s| && s[end + 1] == '\n' {
        assert s[end..NextLine(s)] == "\r\n";
      } else {
        assert s[end..NextLine(s)] == [s[end]];
      }
    }
  }

  lemma OneLineSplits(s: string)
    requires OneLine(s)
    ensures Splitlines(s + "\n") == [s]
  {
    WholeLineEnd(s, "");
    assert s + "\n" + "" == s + "\n";
    assert (s + "\n")[..|s|] == s && (s + "\n")[|s| + 1..] == "";
  }

  lemma {:induction false} ReadInTurn(text: Text, token: string, r: Reports, a: seq<string>, b: seq<string>)
    ensures ReadLines(text, token, r, a + b) ==
            match ReadLines(text, token, r, a) case None => None case Some(read) => ReadLines(text, token, read, b)
    decreases |a|
  {
    if a == [] {
      assert a + b == b;
    } else {
      assert (a + b)[1..] == a[1..] + b;
      match LineOf(text, token, a[0])
      case Unreadable =>
      case Other => ReadInTurn(text, token, r.(printed := r.printed + [a[0]]), a[1..], b);
      case Report(message) => ReadInTurn(text, token, Reported(text, r, message), a[1..], b);
    }
  }

  lemma {:induction false} ReadPrinted(text: Text, token: string, r: Reports, lines: seq<string>)
    requires forall i :: 0 <= i < |lines| ==> LineOf(text, token, lines[i]).Other?
    ensures ReadLines(text, token, r, lines) == Some(r.(printed := r.printed + lines))
    decreases |lines|
  {
    if lines == [] {
      assert r.printed + lines == r.printed;
    } else {
      ReadPrinted(text, token, r.(printed := r.printed + [lines[0]]), lines[1..]);
      assert r.printed + [lines[0]] + lines[1..] == r.printed + lines;
    }
  }

  lemma ReadSent(text: Text, token: string, r: Reports, kind: string, data: map<string, Json>)
    requires WrittenOk(text, token, Sends(kind, data)) && text.str(Str(token)) == token && text.encodes(token)
    ensures ReadLines(text, token, r, Splitlines(Sent(text, token, kind, data))) ==
            Some(Reported(text, r, map["fleet" := Str(kind)] + data))
  {
    var message := map["fleet" := Str(kind), "token" := Str(token)] + data;
    var line := text.dumps(message);
    OneLineSplits(line);
    assert LineOf(text, token, line) == Report(message);
    assert Get(message, "token") == Str(token);
    SameReport(text, token, r, kind, data);
    assert [line][1..] == [];
  }

  lemma SameReport(text: Text, token: string, r: Reports, kind: string, data: map<string, Json>)
    requires "fleet" !in data && "token" !in data
    ensures Reported(text, r, map["fleet" := Str(kind), "token" := Str(token)] + data)
         == Reported(text, r, map["fleet" := Str(kind)] + data)
  {}

  lemma MeantNothing(text: Text, r: Reports)
    ensures Meant(text, r, []) == r
  {
    assert r.progress + [] == r.progress && r.printed + [] == r.printed;
  }

  /** Reports sent among whatever whole lines the task prints come back: the progress in order, of each other kind the last
      message, and what was printed in order. */
  lemma {:induction false} ReportsComeBack(text: Text, token: string, r: Reports, written: seq<Written>)
    requires text.str(Str(token)) == token && text.encodes(token)
    requires forall i :: 0 <= i < |written| ==> WrittenOk(text, token, written[i])
    ensures ReadLines(text, token, r, Splitlines(Stream(text, token, written))) == Some(Meant(text, r, written))
    decreases |written|
  {
    hide Meant, Reported;
    if written == [] {
      MeantNothing(text, r);
    } else {
      assert written == [written[0]] + written[1..];
      var rest := Stream(text, token, written[1..]);
      match written[0]
      case Sends(kind, data) =>
        MeantSent(text, r, kind, data, written[1..]);
        var sent := Sent(text, token, kind, data);
        SplitsApart(sent, rest);
        ReadSent(text, token, r, kind, data);
        ReadInTurn(text, token, r, Splitlines(sent), Splitlines(rest));
        ReportsComeBack(text, token, Reported(text, r, map["fleet" := Str(kind)] + data), written[1..]);
      case Prints(printed) =>
        MeantPrinted(text, r, printed, written[1..]);
        SplitsApart(printed, rest);
        ReadPrinted(text, token, r, Splitlines(printed));
        ReadInTurn(text, token, r, Splitlines(printed), Splitlines(rest));
        ReportsComeBack(text, token, r.(printed := r.printed + Splitlines(printed)), written[1..]);
    }
  }
}
