/** The balanced-brace scanner of the agent's protocol (app/agent/protocol.py), against the grammar of json
    text in sections 2 to 7 of RFC 8259, white space and every escape included. */
module JsonText {
  import opened Wrappers

  // ---- json text ----

  /** One character of a string, as it is written. */
  datatype Unit =
    | Plain(c: char)
    | Escape(c: char)
    | Hex(a: char, b: char, c: char, d: char)

  /** A value as it is written, with the white space around its parts. */
  datatype Value =
    | Word(text: string)
    | Text(units: seq<Unit>)
    | Arr(items: seq<Item>, blank: string)
    | Obj(members: seq<Member>, blank: string)

  datatype Item = Item(before: string, value: Value, after: string)

  datatype Member = Member(before: string, name: seq<Unit>, gap: string, lead: string, value: Value, after: string)

  predicate Blank(s: string) { forall i :: 0 <= i < |s| ==> s[i] in {' ', '\t', '\n', '\r'} }

  predicate HexDigit(c: char) { '0' <= c <= '9' || 'a' <= c <= 'f' || 'A' <= c <= 'F' }

  predicate UnitOk(u: Unit) {
    match u
    case Plain(c) => c >= ' ' && c != '"' && c != '\\'
    case Escape(c) => c in {'"', '\\', '/', 'b', 'f', 'n', 'r', 't'}
    case Hex(a, b, c, d) => HexDigit(a) && HexDigit(b) && HexDigit(c) && HexDigit(d)
  }

  predicate UnitsOk(units: seq<Unit>) { forall i :: 0 <= i < |units| ==> UnitOk(units[i]) }

  /** true, false, null, or anything spelled with the characters of numbers. */
  predicate WordOk(s: string) {
    s == "true" || s == "false" || s == "null" ||
    forall i :: 0 <= i < |s| ==> '0' <= s[i] <= '9' || s[i] in {'+', '-', '.', 'e', 'E'}
  }

  predicate ValueOk(v: Value) {
    match v
    case Word(s) => WordOk(s)
    case Text(units) => UnitsOk(units)
    case Arr(items, blank) => Blank(blank) && ItemsOk(items)
    case Obj(members, blank) => Blank(blank) && MembersOk(members)
  }

  predicate ItemsOk(items: seq<Item>) {
    items == [] || (Blank(items[0].before) && ValueOk(items[0].value) && Blank(items[0].after) && ItemsOk(items[1..]))
  }

  predicate MembersOk(members: seq<Member>) {
    members == [] ||
    (var m := members[0];
     Blank(m.before) && UnitsOk(m.name) && Blank(m.gap) && Blank(m.lead) && ValueOk(m.value) && Blank(m.after) &&
     MembersOk(members[1..]))
  }

  function PrintUnit(u: Unit): string {
    match u
    case Plain(c) => [c]
    case Escape(c) => ['\\', c]
    case Hex(a, b, c, d) => ['\\', 'u', a, b, c, d]
  }

  function PrintUnits(units: seq<Unit>): string {
    if units == [] then "" else PrintUnit(units[0]) + PrintUnits(units[1..])
  }

  function Quoted(units: seq<Unit>): string { "\"" + PrintUnits(units) + "\"" }

  function Print(v: Value): string
    decreases v, 2
  {
    match v
    case Word(s) => s
    case Text(units) => Quoted(units)
    case Arr(items, blank) => "[" + (if items == [] then blank else PrintItems(items)) + "]"
    case Obj(members, blank) => "{" + Inside(members, blank) + "}"
  }

  /** What an object's braces enclose. */
  function Inside(members: seq<Member>, blank: string): string
    decreases members, 1
  {
    if members == [] then blank else PrintMembers(members)
  }

  function PrintItems(items: seq<Item>): string
    decreases items, 0
  {
    if items == [] then ""
    else
      items[0].before + Print(items[0].value) + items[0].after +
      if |items| == 1 then "" else "," + PrintItems(items[1..])
  }

  function PrintMembers(members: seq<Member>): string
    decreases members, 0
  {
    if members == [] then ""
    else
      var m := members[0];
      m.before + Quoted(m.name) + m.gap + ":" + m.lead + Print(m.value) + m.after +
      if |members| == 1 then "" else "," + PrintMembers(members[1..])
  }

  // ---- the scanner ----

  /** Where the scanner is: how deep in braces, and whether in a string or just after its backslash. */
  datatype Scan = Scan(depth: int, inString: bool, escaped: bool)

  function Next(s: Scan, c: char): Scan {
    if s.inString then
      if s.escaped then s.(escaped := false)
      else if c == '\\' then s.(escaped := true)
      else if c == '"' then s.(inString := false)
      else s
    else if c == '"' then s.(inString := true)
    else if c == '{' then s.(depth := s.depth + 1)
    else if c == '}' then s.(depth := s.depth - 1)
    else s
  }

  /** This character closes the first object. */
  predicate Closes(s: Scan, c: char) { !s.inString && c == '}' && s.depth == 1 }

  /** How much of the text the scanner takes, from this state to the brace that closes the object. */
  function Taken(s: Scan, text: string): Option<nat>
    decreases |text|
  {
    if text == "" then None
    else if Closes(s, text[0]) then Some(1)
    else
      var rest := Taken(Next(s, text[0]), text[1..]);
      if rest.None? then None else Some(1 + rest.value)
  }

  function Find(text: string, c: char): Option<nat>
    ensures Find(text, c).None? <==> c !in text
    ensures Find(text, c).Some? ==> var i := Find(text, c).value; i < |text| && text[i] == c && c !in text[..i]
  {
    if text == "" then None
    else if text[0] == c then Some(0)
    else
      var rest := Find(text[1..], c);
      assert text == [text[0]] + text[1..];
      if rest.None? then None else
        assert text[..rest.value + 1] == [text[0]] + text[1..][..rest.value];
        Some(1 + rest.value)
  }

  /** str.isspace. */
  predicate Space(c: char) {
    || '\t' <= c <= '\r' || '\U{1C}' <= c <= ' ' || '\U{2000}' <= c <= '\U{200A}'
    || c in {'\U{85}', '\U{A0}', '\U{1680}', '\U{2028}', '\U{2029}', '\U{202F}', '\U{205F}', '\U{3000}'}
  }

  function Strip(text: string): string {
    if text == "" then ""
    else if Space(text[0]) then Strip(text[1..])
    else if Space(text[|text| - 1]) then Strip(text[..|text| - 1])
    else text
  }

  const START := Scan(0, false, false)

  /** What the scanner answers: the first balanced object; all from the first brace when none closes; the
      stripped text when there is no brace. */
  function Extracted(text: string): string {
    var at := Find(text, '{');
    if at.None? then Strip(text)
    else
      var rest := text[at.value..];
      var n := Taken(START, rest);
      if n.Some? && n.value <= |rest| then rest[..n.value] else rest
  }

  lemma {:induction false} TakenFits(s: Scan, text: string)
    ensures Taken(s, text).Some? ==> 1 <= Taken(s, text).value <= |text|
    decreases |text|
  {
    if text != "" { TakenFits(Next(s, text[0]), text[1..]); }
  }

  /** The scanner as the source has it: one pass, updating depth, in_string and escaped. */
  method ExtractJson(text: string) returns (found: string)
    ensures found == Extracted(text)
  {
    var at := Find(text, '{');
    if at.None? { return Strip(text); }
    var start := at.value;
    var depth, inString, escaped := 0, false, false;
    TakenFits(START, text[start..]);
    for index := start to |text|
      invariant Taken(START, text[start..]) ==
                var rest := Taken(Scan(depth, inString, escaped), text[index..]);
                if rest.None? then None else Some(index - start + rest.value)
    {
      var c := text[index];
      assert text[index..][1..] == text[index + 1..];
      if inString {
        if escaped {
          escaped := false;
        } else if c == '\\' {
          escaped := true;
        } else if c == '"' {
          inString := false;
        }
      } else if c == '"' {
        inString := true;
      } else if c == '{' {
        depth := depth + 1;
      } else if c == '}' {
        depth := depth - 1;
        if depth == 0 {
          assert text[start..][..index + 1 - start] == text[start..index + 1];
          return text[start..index + 1];
        }
      }
    }
    return text[start..];
  }

  // ---- printed text passes through ----

  /** The scanner's state after some text, as long as nothing in it closes the object. */
  function Through(s: Scan, text: string): Option<Scan>
    decreases |text|
  {
    if text == "" then Some(s)
    else if Closes(s, text[0]) then None
    else Through(Next(s, text[0]), text[1..])
  }

  lemma {:induction false} ThroughAppend(s: Scan, a: string, b: string)
    ensures Through(s, a + b) == if Through(s, a).None? then None else Through(Through(s, a).value, b)
    decreases |a|
  {
    if a == "" {
      assert a + b == b;
    } else {
      assert (a + b)[1..] == a[1..] + b;
      ThroughAppend(Next(s, a[0]), a[1..], b);
    }
  }

  /** Text that leaves the scanner as it found it, at every depth inside an object. */
  ghost predicate Quiet(text: string) { forall d :: d >= 1 ==> Through(Scan(d, false, false), text) == Some(Scan(d, false, false)) }

  lemma QuietAppend(a: string, b: string)
    requires Quiet(a) && Quiet(b)
    ensures Quiet(a + b)
  {
    forall d | d >= 1
      ensures Through(Scan(d, false, false), a + b) == Some(Scan(d, false, false))
    {
      ThroughAppend(Scan(d, false, false), a, b);
    }
  }

  lemma {:induction false} NeutralIsQuiet(text: string)
    requires forall i :: 0 <= i < |text| ==> text[i] !in {'"', '{', '}'}
    ensures Quiet(text)
  {
    if text != "" {
      NeutralIsQuiet(text[1..]);
      forall d | d >= 1
        ensures Through(Scan(d, false, false), text) == Some(Scan(d, false, false))
      {
        assert text[0] !in {'"', '{', '}'};
      }
    }
  }

  /** Inside a string nothing but its own quote ends it. */
  lemma {:induction false} UnitsStayInside(units: seq<Unit>, d: int)
    requires UnitsOk(units)
    ensures Through(Scan(d, true, false), PrintUnits(units)) == Some(Scan(d, true, false))
  {
    if units != [] {
      UnitsStayInside(units[1..], d);
      UnitStaysInside(units[0], d);
      ThroughAppend(Scan(d, true, false), PrintUnit(units[0]), PrintUnits(units[1..]));
    }
  }

  lemma UnitStaysInside(u: Unit, d: int)
    requires UnitOk(u)
    ensures Through(Scan(d, true, false), PrintUnit(u)) == Some(Scan(d, true, false))
  {
    var s, text := Scan(d, true, false), PrintUnit(u);
    match u
    case Plain(c) => assert text[1..] == "";
    case Escape(c) =>
      assert text[1..] == [c] && [c][1..] == "";
      assert Through(Scan(d, true, true), [c]) == Some(s);
    case Hex(a, b, c, e) =>
      assert text[1..] == ['u', a, b, c, e] && ['u', a, b, c, e][1..] == [a, b, c, e];
      assert [a, b, c, e][1..] == [b, c, e] && [b, c, e][1..] == [c, e] && [c, e][1..] == [e] && [e][1..] == "";
      assert Through(s, text) == Through(s, [a, b, c, e]);
      assert Through(s, [e]) == Some(s);
      assert Through(s, [c, e]) == Some(s);
      assert Through(s, [b, c, e]) == Some(s);
  }

  lemma QuotedIsQuiet(units: seq<Unit>)
    requires UnitsOk(units)
    ensures Quiet(Quoted(units))
  {
    forall d | d >= 1
      ensures Through(Scan(d, false, false), Quoted(units)) == Some(Scan(d, false, false))
    {
      UnitsStayInside(units, d);
      var body := PrintUnits(units);
      assert Quoted(units) == "\"" + (body + "\"");
      assert Quoted(units)[1..] == body + "\"";
      ThroughAppend(Scan(d, true, false), body, "\"");
      assert "\""[1..] == "";
      assert Through(Scan(d, true, false), "\"") == Some(Scan(d, false, false));
    }
  }

  lemma ThroughBraces(inside: string, d: int)
    requires d >= 1 && Through(Scan(d + 1, false, false), inside) == Some(Scan(d + 1, false, false))
    ensures Through(Scan(d, false, false), "{" + inside + "}") == Some(Scan(d, false, false))
  {
    var text := "{" + inside + "}";
    assert text[0] == '{' && text[1..] == inside + "}";
    ThroughAppend(Scan(d + 1, false, false), inside, "}");
    assert "}"[1..] == "";
    assert Through(Scan(d + 1, false, false), "}") == Some(Scan(d, false, false));
    assert !Closes(Scan(d, false, false), '{') && Next(Scan(d, false, false), '{') == Scan(d + 1, false, false);
  }

  /** The braces around quiet text are quiet too, one level up. */
  lemma BracesAreQuiet(inside: string)
    requires Quiet(inside)
    ensures Quiet("{" + inside + "}")
  {
    hide Through;
    forall d | d >= 1
      ensures Through(Scan(d, false, false), "{" + inside + "}") == Some(Scan(d, false, false))
    {
      ThroughBraces(inside, d);
    }
  }

  lemma {:induction false} ValueIsQuiet(v: Value)
    requires ValueOk(v)
    ensures Quiet(Print(v))
    decreases v, 1
  {
    match v
    case Word(s) => NeutralIsQuiet(s);
    case Text(units) => QuotedIsQuiet(units);
    case Arr(items, blank) =>
      NeutralIsQuiet("[");
      NeutralIsQuiet("]");
      if items == [] { NeutralIsQuiet(blank); } else { ItemsAreQuiet(items); }
      var inside := if items == [] then blank else PrintItems(items);
      QuietAppend("[", inside);
      QuietAppend("[" + inside, "]");
    case Obj(members, blank) =>
      if members == [] { NeutralIsQuiet(blank); } else { MembersAreQuiet(members); }
      BracesAreQuiet(Inside(members, blank));
  }

  lemma {:induction false} ItemsAreQuiet(items: seq<Item>)
    requires ItemsOk(items)
    ensures Quiet(PrintItems(items))
    decreases items, 0
  {
    if items == [] {
      NeutralIsQuiet("");
    } else {
      var i := items[0];
      NeutralIsQuiet(i.before);
      ValueIsQuiet(i.value);
      NeutralIsQuiet(i.after);
      NeutralIsQuiet(",");
      NeutralIsQuiet("");
      ItemsAreQuiet(items[1..]);
      QuietAppend(i.before, Print(i.value));
      QuietAppend(i.before + Print(i.value), i.after);
      QuietAppend(",", PrintItems(items[1..]));
      QuietAppend(i.before + Print(i.value) + i.after, if |items| == 1 then "" else "," + PrintItems(items[1..]));
    }
  }

  lemma {:induction false} MembersAreQuiet(members: seq<Member>)
    requires MembersOk(members)
    ensures Quiet(PrintMembers(members))
    decreases members, 0
  {
    if members == [] {
      NeutralIsQuiet("");
    } else {
      var m := members[0];
      NeutralIsQuiet(m.before);
      QuotedIsQuiet(m.name);
      NeutralIsQuiet(m.gap);
      NeutralIsQuiet(":");
      NeutralIsQuiet(m.lead);
      ValueIsQuiet(m.value);
      NeutralIsQuiet(m.after);
      NeutralIsQuiet(",");
      NeutralIsQuiet("");
      MembersAreQuiet(members[1..]);
      var a := m.before + Quoted(m.name);
      QuietAppend(m.before, Quoted(m.name));
      QuietAppend(a, m.gap);
      QuietAppend(a + m.gap, ":");
      QuietAppend(a + m.gap + ":", m.lead);
      QuietAppend(a + m.gap + ":" + m.lead, Print(m.value));
      QuietAppend(a + m.gap + ":" + m.lead + Print(m.value), m.after);
      QuietAppend(",", PrintMembers(members[1..]));
      QuietAppend(a + m.gap + ":" + m.lead + Print(m.value) + m.after,
                  if |members| == 1 then "" else "," + PrintMembers(members[1..]));
    }
  }

  // ---- the round trip ----

  lemma {:induction false} TakenAfter(s: Scan, a: string, c: char, post: string)
    requires Through(s, a).Some? && Closes(Through(s, a).value, c)
    ensures Taken(s, a + [c] + post) == Some(|a| + 1)
    decreases |a|
  {
    var text := a + [c] + post;
    if a == "" {
      assert text[0] == c;
    } else {
      assert text[0] == a[0] && text[1..] == a[1..] + [c] + post;
      TakenAfter(Next(s, a[0]), a[1..], c, post);
    }
  }

  lemma {:induction false} FirstBrace(prefix: string, rest: string)
    requires '{' !in prefix && rest != "" && rest[0] == '{'
    ensures Find(prefix + rest, '{') == Some(|prefix|)
    decreases |prefix|
  {
    if prefix == "" {
      assert prefix + rest == rest;
    } else {
      assert prefix[0] in prefix;
      assert (prefix + rest)[1..] == prefix[1..] + rest;
      FirstBrace(prefix[1..], rest);
    }
  }

  lemma TakesBraces(inside: string, suffix: string)
    requires Quiet(inside)
    ensures Taken(START, "{" + inside + "}" + suffix) == Some(|inside| + 2)
  {
    var rest := "{" + inside + "}" + suffix;
    assert rest[0] == '{' && rest[1..] == inside + ['}'] + suffix;
    assert Through(Scan(1, false, false), inside) == Some(Scan(1, false, false));
    TakenAfter(Scan(1, false, false), inside, '}', suffix);
  }

  lemma InsideIsQuiet(members: seq<Member>, blank: string)
    requires MembersOk(members) && Blank(blank)
    ensures Quiet(Inside(members, blank))
  {
    if members == [] { NeutralIsQuiet(blank); } else { MembersAreQuiet(members); }
  }

  lemma ExtractsFirst(prefix: string, written: string, suffix: string)
    requires '{' !in prefix && written != "" && written[0] == '{' && Taken(START, written + suffix) == Some(|written|)
    ensures Extracted(prefix + written + suffix) == written
  {
    var text, rest := prefix + written + suffix, written + suffix;
    assert text == prefix + rest;
    FirstBrace(prefix, rest);
    assert text[|prefix|..] == rest;
    assert rest[..|written|] == written;
  }

  /** Whatever prose comes before the first brace and whatever junk after the object, stray braces and
      quotes included, the scanner returns exactly the object that was printed. */
  lemma RoundTrip(prefix: string, v: Value, suffix: string)
    requires '{' !in prefix && v.Obj? && ValueOk(v)
    ensures Extracted(prefix + Print(v) + suffix) == Print(v)
  {
    var inside := Inside(v.members, v.blank);
    InsideIsQuiet(v.members, v.blank);
    TakesBraces(inside, suffix);
    ExtractsFirst(prefix, "{" + inside + "}", suffix);
  }

  lemma {:induction false} TakenOrThrough(s: Scan, text: string)
    ensures Taken(s, text).None? <==> Through(s, text).Some?
    decreases |text|
  {
    if text != "" { TakenOrThrough(Next(s, text[0]), text[1..]); }
  }

  /** An object cut short closes nowhere, so all that arrived of it is returned. */
  lemma CutShort(prefix: string, v: Value, n: nat)
    requires '{' !in prefix && v.Obj? && ValueOk(v) && 0 < n < |Print(v)|
    ensures Extracted(prefix + Print(v)[..n]) == Print(v)[..n]
  {
    var front, cut := "{" + Inside(v.members, v.blank), Print(v)[..n];
    InsideIsQuiet(v.members, v.blank);
    assert front[1..] == Inside(v.members, v.blank);
    assert Through(START, front) == Some(Scan(1, false, false));
    assert front == cut + front[n..];
    ThroughAppend(START, cut, front[n..]);
    TakenOrThrough(START, cut);
    FirstBrace(prefix, cut);
    assert (prefix + cut)[|prefix|..] == cut;
  }
}
