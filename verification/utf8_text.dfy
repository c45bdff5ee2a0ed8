/** Decoding UTF-8 with each malformed stretch replaced, as bytes.decode(errors="replace") does: the longest start of
    a well-formed character becomes one U+FFFD (the Unicode Standard, section 3.9, table 3-7). Text is a sequence of
    code points. */
module Utf8Text {

  type Byte = x: int | 0 <= x < 256

  const REPLACEMENT := 0xFFFD

  // ---- decoding ----

  /** How many bytes a character that starts with this one has; 0 if none does. */
  function Width(first: Byte): (width: nat)
    ensures width <= 4
  {
    if first < 0x80 then 1
    else if 0xC2 <= first <= 0xDF then 2
    else if 0xE0 <= first <= 0xEF then 3
    else if 0xF0 <= first <= 0xF4 then 4
    else 0
  }

  /** Whether this byte may come second after that one. */
  predicate Second(first: Byte, b: Byte) {
    (if first == 0xE0 then 0xA0 else if first == 0xF0 then 0x90 else 0x80) <= b <=
    (if first == 0xED then 0x9F else if first == 0xF4 then 0x8F else 0xBF)
  }

  predicate Follows(raw: seq<Byte>, at: nat)
    requires 1 <= at < |raw|
  {
    if at == 1 then Second(raw[0], raw[1]) else 0x80 <= raw[at] <= 0xBF
  }

  /** How much of the first character is there and well formed, counting from its at-th byte. */
  function GoodFrom(raw: seq<Byte>, at: nat): (good: nat)
    requires 1 <= at <= |raw| && at <= Width(raw[0])
    ensures at <= good <= |raw| && good <= Width(raw[0])
    decreases Width(raw[0]) - at
  {
    if at == Width(raw[0]) || at == |raw| || !Follows(raw, at) then at else GoodFrom(raw, at + 1)
  }

  function Payload(raw: seq<Byte>): int
    requires raw != [] && Width(raw[0]) <= |raw|
  {
    if Width(raw[0]) == 1 then raw[0]
    else if Width(raw[0]) == 2 then (raw[0] as int - 0xC0) * 0x40 + (raw[1] as int - 0x80)
    else if Width(raw[0]) == 3 then (raw[0] as int - 0xE0) * 0x1000 + (raw[1] as int - 0x80) * 0x40 + (raw[2] as int - 0x80)
    else if Width(raw[0]) == 4 then
      (raw[0] as int - 0xF0) * 0x4_0000 + (raw[1] as int - 0x80) * 0x1000 + (raw[2] as int - 0x80) * 0x40 + (raw[3] as int - 0x80)
    else REPLACEMENT
  }

  /** The bytes the next code point takes. */
  function Taken(raw: seq<Byte>): (n: nat)
    requires raw != []
    ensures 1 <= n <= |raw|
  {
    if Width(raw[0]) == 0 then 1 else GoodFrom(raw, 1)
  }

  /** Whether the bytes start with a whole well-formed character. */
  predicate Whole(raw: seq<Byte>)
    requires raw != []
  {
    Width(raw[0]) > 0 && Taken(raw) == Width(raw[0])
  }

  function First(raw: seq<Byte>): int
    requires raw != []
  {
    if Whole(raw) then Payload(raw) else REPLACEMENT
  }

  function Decode(raw: seq<Byte>): seq<int>
    decreases |raw|
  {
    if raw == [] then [] else [First(raw)] + Decode(raw[Taken(raw)..])
  }

  // ---- what is cut off ----

  /** The cut falls inside a well-formed character other than U+FFFD itself. */
  predicate Splits(raw: seq<Byte>, n: nat)
    requires n <= |raw|
    decreases |raw|
  {
    n > 0 &&
    if n < Taken(raw) then Whole(raw) && First(raw) != REPLACEMENT
    else Splits(raw[Taken(raw)..], n - Taken(raw))
  }

  lemma {:induction false} GoodFromCut(raw: seq<Byte>, n: nat, at: nat)
    requires 1 <= at <= n <= |raw| && at <= Width(raw[0])
    ensures GoodFrom(raw[..n], at) == if GoodFrom(raw, at) <= n then GoodFrom(raw, at) else n
    decreases Width(raw[0]) - at
  {
    if at < Width(raw[0]) && at < n && Follows(raw, at) {
      assert Follows(raw[..n], at);
      GoodFromCut(raw, n, at + 1);
    }
  }

  /** A cut leaves the characters before it as they were, and of the one it falls in at most one U+FFFD. */
  lemma FirstCut(raw: seq<Byte>, n: nat)
    requires 1 <= n <= |raw|
    ensures Taken(raw[..n]) == if Taken(raw) <= n then Taken(raw) else n
    ensures First(raw[..n]) == if Taken(raw) <= n then First(raw) else REPLACEMENT
  {
    if Width(raw[0]) > 0 { GoodFromCut(raw, n, 1); }
  }

  predicate IsPrefix(a: seq<int>, b: seq<int>) { |a| <= |b| && b[..|a|] == a }

  lemma PrefixWithHead(x: int, a: seq<int>, b: seq<int>)
    ensures IsPrefix([x] + a, [x] + b) <==> IsPrefix(a, b)
  {
    var c, d := [x] + a, [x] + b;
    assert c[1..] == a && d[1..] == b;
    if IsPrefix(c, d) { assert b[..|a|] == d[..|c|][1..]; }
    if IsPrefix(a, b) { assert d[..|c|] == [x] + b[..|a|]; }
  }

  /** The text of the first n bytes begins the text of them all exactly when the cut splits no character. */
  lemma {:induction false} CutTextIsPrefix(raw: seq<Byte>, n: nat)
    requires n <= |raw|
    ensures IsPrefix(Decode(raw[..n]), Decode(raw)) <==> !Splits(raw, n)
    decreases |raw|
  {
    var cut := raw[..n];
    if n > 0 {
      FirstCut(raw, n);
      var taken := Taken(raw);
      if n < taken {
        assert cut[n..] == [];
        assert Decode(cut) == [REPLACEMENT] + Decode([]) == [REPLACEMENT];
        assert Decode(raw) == [First(raw)] + Decode(raw[taken..]);
        assert Decode(raw)[..1] == [First(raw)];
      } else {
        var rest := raw[taken..];
        assert cut[taken..] == rest[..n - taken];
        CutTextIsPrefix(rest, n - taken);
        PrefixWithHead(First(raw), Decode(rest[..n - taken]), Decode(rest));
      }
    }
  }

  // ---- encoding ----

  /** A code point other than a surrogate. */
  predicate Scalar(c: int) { 0 <= c < 0xD800 || 0xE000 <= c < 0x11_0000 }

  function EncodeOne(c: int): (bytes: seq<Byte>)
    requires Scalar(c)
    ensures 1 <= |bytes| <= 4
  {
    if c < 0x80 then [c]
    else if c < 0x800 then [0xC0 + c / 0x40, 0x80 + c % 0x40]
    else if c < 0x1_0000 then [0xE0 + c / 0x1000, 0x80 + c / 0x40 % 0x40, 0x80 + c % 0x40]
    else [0xF0 + c / 0x4_0000, 0x80 + c / 0x1000 % 0x40, 0x80 + c / 0x40 % 0x40, 0x80 + c % 0x40]
  }

  predicate AllScalar(text: seq<int>) { forall i :: 0 <= i < |text| ==> Scalar(text[i]) }

  /** str.encode(). */
  function Encode(text: seq<int>): seq<Byte>
    requires AllScalar(text)
  {
    if text == [] then [] else EncodeOne(text[0]) + Encode(text[1..])
  }

  predicate EncodesWell(c: int, bytes: seq<Byte>) {
    && bytes != [] && |bytes| == Width(bytes[0]) && Payload(bytes) == c
    && forall at :: 1 <= at < |bytes| ==> Follows(bytes, at)
  }

  lemma ThreeBytes(c: int)
    requires Scalar(c) && 0x800 <= c < 0x1_0000
    ensures EncodesWell(c, EncodeOne(c))
  {
    assert c / 0x1000 == c / 0x40 / 0x40;
  }

  lemma FourBytes(c: int)
    requires Scalar(c) && 0x1_0000 <= c
    ensures EncodesWell(c, EncodeOne(c))
  {
    assert c / 0x4_0000 == c / 0x1000 / 0x40 && c / 0x1000 == c / 0x40 / 0x40;
  }

  /** The bytes of an encoded code point are those of a whole character. */
  lemma EncodedFollows(c: int)
    requires Scalar(c)
    ensures EncodesWell(c, EncodeOne(c))
  {
    if 0x1_0000 <= c { FourBytes(c); } else if 0x800 <= c { ThreeBytes(c); }
  }

  lemma {:induction false} GoodToTheEnd(raw: seq<Byte>, at: nat)
    requires raw != [] && 1 <= at <= Width(raw[0]) <= |raw|
    requires forall n :: 1 <= n < Width(raw[0]) ==> Follows(raw, n)
    ensures GoodFrom(raw, at) == Width(raw[0])
    decreases Width(raw[0]) - at
  {
    if at < Width(raw[0]) { GoodToTheEnd(raw, at + 1); }
  }

  lemma OneComesBack(c: int, rest: seq<Byte>)
    requires Scalar(c)
    ensures var raw := EncodeOne(c) + rest; Whole(raw) && Taken(raw) == |EncodeOne(c)| && First(raw) == c
  {
    var bytes := EncodeOne(c);
    var raw := bytes + rest;
    EncodedFollows(c);
    forall n | 1 <= n < |bytes|
      ensures Follows(raw, n)
    {
      assert Follows(bytes, n);
    }
    GoodToTheEnd(raw, 1);
  }

  /** Text that is encoded is decoded. */
  lemma {:induction false} TextComesBack(text: seq<int>)
    requires AllScalar(text)
    ensures Decode(Encode(text)) == text
  {
    if text != [] {
      var raw, rest := Encode(text), Encode(text[1..]);
      OneComesBack(text[0], rest);
      assert raw[|EncodeOne(text[0])|..] == rest;
      TextComesBack(text[1..]);
    }
  }

  // ---- which bytes are characters ----

  lemma TwoBytesBack(a: Byte, b: Byte)
    requires 0xC2 <= a <= 0xDF && 0x80 <= b <= 0xBF
    ensures var c := (a as int - 0xC0) * 0x40 + (b as int - 0x80); 0x80 <= c < 0x800 && EncodeOne(c) == [a, b]
  {}

  lemma ThreeBytesBack(a: Byte, b: Byte, d: Byte)
    requires 0xE0 <= a <= 0xEF && Second(a, b) && 0x80 <= d <= 0xBF
    ensures var c := (a as int - 0xE0) * 0x1000 + (b as int - 0x80) * 0x40 + (d as int - 0x80);
            0x800 <= c < 0x1_0000 && Scalar(c) && EncodeOne(c) == [a, b, d]
  {
    var x, y, z := a as int - 0xE0, b as int - 0x80, d as int - 0x80;
    var c := x * 0x1000 + y * 0x40 + z;
    assert c / 0x40 == x * 0x40 + y && c % 0x40 == z && c / 0x1000 == x;
  }

  lemma FourBytesBack(a: Byte, b: Byte, d: Byte, e: Byte)
    requires 0xF0 <= a <= 0xF4 && Second(a, b) && 0x80 <= d <= 0xBF && 0x80 <= e <= 0xBF
    ensures var c := (a as int - 0xF0) * 0x4_0000 + (b as int - 0x80) * 0x1000 + (d as int - 0x80) * 0x40 + (e as int - 0x80);
            0x1_0000 <= c && Scalar(c) && EncodeOne(c) == [a, b, d, e]
  {
    var x, y, z, u := a as int - 0xF0, b as int - 0x80, d as int - 0x80, e as int - 0x80;
    var c := x * 0x4_0000 + y * 0x1000 + z * 0x40 + u;
    assert c / 0x40 == x * 0x1000 + y * 0x40 + z && c % 0x40 == u;
    assert c / 0x1000 == x * 0x40 + y && c / 0x4_0000 == x;
  }

  /** Bytes of the table are those of a code point. */
  lemma WellIsEncoded(bytes: seq<Byte>)
    requires bytes != [] && |bytes| == Width(bytes[0]) && forall at :: 1 <= at < |bytes| ==> Follows(bytes, at)
    ensures Scalar(Payload(bytes)) && EncodeOne(Payload(bytes)) == bytes
  {
    if |bytes| == 2 {
      assert Follows(bytes, 1);
      TwoBytesBack(bytes[0], bytes[1]);
    } else if |bytes| == 3 {
      assert Follows(bytes, 1) && Follows(bytes, 2);
      ThreeBytesBack(bytes[0], bytes[1], bytes[2]);
    } else if |bytes| == 4 {
      assert Follows(bytes, 1) && Follows(bytes, 2) && Follows(bytes, 3);
      FourBytesBack(bytes[0], bytes[1], bytes[2], bytes[3]);
    }
  }

  lemma {:induction false} GoodStops(raw: seq<Byte>, at: nat)
    requires 1 <= at <= |raw| && at <= Width(raw[0])
    ensures var good := GoodFrom(raw, at);
            && (good == Width(raw[0]) || good == |raw| || !Follows(raw, good))
            && forall m :: at <= m < good ==> Follows(raw, m)
    decreases Width(raw[0]) - at
  {
    if at < Width(raw[0]) && at < |raw| && Follows(raw, at) { GoodStops(raw, at + 1); }
  }

  lemma WholeIsEncoded(raw: seq<Byte>)
    requires raw != [] && Whole(raw)
    ensures Scalar(First(raw)) && EncodeOne(First(raw)) == raw[..Taken(raw)]
  {
    GoodStops(raw, 1);
    var bytes := raw[..Taken(raw)];
    forall at | 1 <= at < |bytes|
      ensures Follows(bytes, at)
    {
      assert Follows(raw, at);
    }
    WellIsEncoded(bytes);
  }

  /** The next character is decoded exactly where some code point's bytes come next: no overlong form, no surrogate and
      nothing past U+10FFFF is a character. */
  lemma WholeExactly(raw: seq<Byte>)
    requires raw != []
    ensures Whole(raw) <==> exists c :: Scalar(c) && EncodeOne(c) <= raw
    ensures Whole(raw) ==> Scalar(First(raw)) && EncodeOne(First(raw)) == raw[..Taken(raw)]
  {
    if Whole(raw) { WholeIsEncoded(raw); }
    if exists c :: Scalar(c) && EncodeOne(c) <= raw {
      var c :| Scalar(c) && EncodeOne(c) <= raw;
      OneComesBack(c, raw[|EncodeOne(c)|..]);
      assert EncodeOne(c) + raw[|EncodeOne(c)|..] == raw;
    }
  }

  /** Some code point's bytes begin like this. */
  ghost predicate Begins(bytes: seq<Byte>) { exists c :: Scalar(c) && bytes <= EncodeOne(c) }

  /** One way for a character to go on. */
  function Completed(bytes: seq<Byte>): (whole: seq<Byte>)
    requires bytes != [] && |bytes| <= Width(bytes[0])
    ensures |whole| == Width(bytes[0]) && bytes <= whole
    decreases Width(bytes[0]) - |bytes|
  {
    if |bytes| == Width(bytes[0]) then bytes
    else
      var next: Byte := if |bytes| == 1 && bytes[0] == 0xE0 then 0xA0 else if |bytes| == 1 && bytes[0] == 0xF0 then 0x90 else 0x80;
      Completed(bytes + [next])
  }

  lemma {:induction false} CompletedFollows(bytes: seq<Byte>)
    requires bytes != [] && |bytes| <= Width(bytes[0]) && forall at :: 1 <= at < |bytes| ==> Follows(bytes, at)
    ensures forall at :: 1 <= at < Width(bytes[0]) ==> Follows(Completed(bytes), at)
    decreases Width(bytes[0]) - |bytes|
  {
    if |bytes| < Width(bytes[0]) {
      var next: Byte := if |bytes| == 1 && bytes[0] == 0xE0 then 0xA0 else if |bytes| == 1 && bytes[0] == 0xF0 then 0x90 else 0x80;
      forall at | 1 <= at < |bytes + [next]|
        ensures Follows(bytes + [next], at)
      {
        if at < |bytes| { assert Follows(bytes, at); }
      }
      CompletedFollows(bytes + [next]);
    }
  }

  lemma GoodBegins(raw: seq<Byte>, n: nat)
    requires 1 <= n <= |raw| && n <= Width(raw[0]) && forall at :: 1 <= at < n ==> Follows(raw, at)
    ensures Begins(raw[..n])
  {
    var bytes := raw[..n];
    forall at | 1 <= at < n
      ensures Follows(bytes, at)
    {
      assert Follows(raw, at);
    }
    CompletedFollows(bytes);
    WellIsEncoded(Completed(bytes));
    assert bytes <= EncodeOne(Payload(Completed(bytes)));
  }

  lemma BeginsFollows(raw: seq<Byte>, n: nat)
    requires n < |raw| && Begins(raw[..n + 1])
    ensures n < Width(raw[0]) && (n >= 1 ==> Follows(raw, n))
  {
    var c :| Scalar(c) && raw[..n + 1] <= EncodeOne(c);
    EncodedFollows(c);
    var bytes := EncodeOne(c);
    assert forall i :: 0 <= i <= n ==> bytes[i] == raw[i];
    if n >= 1 { assert Follows(bytes, n); }
  }

  /** What is not a character is replaced as far as it begins like one, and a byte that does not begin one by itself. */
  lemma ReplacesTheLongestStart(raw: seq<Byte>)
    requires raw != [] && !Whole(raw)
    ensures First(raw) == 0xFFFD && (Taken(raw) == 1 || Begins(raw[..Taken(raw)]))
    ensures Taken(raw) == |raw| || !Begins(raw[..Taken(raw) + 1])
  {
    if Width(raw[0]) > 0 {
      GoodStops(raw, 1);
      GoodBegins(raw, Taken(raw));
    }
    if Taken(raw) < |raw| && Begins(raw[..Taken(raw) + 1]) { BeginsFollows(raw, Taken(raw)); }
  }
}
