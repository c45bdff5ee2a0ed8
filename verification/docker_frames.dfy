/** The frames of a container's output (backend/fleet/docker.py): reading them back, in full and cut short. */
module DockerFrames {
  import Utf8Text

  type Byte = Utf8Text.Byte

  datatype Frame = Frame(stream: Byte, data: seq<Byte>)

  // ---- reading ----

  /** A 32-bit number, its most significant byte first. */
  function Number(a: Byte, b: Byte, c: Byte, d: Byte): nat {
    a as int * 0x100_0000 + b as int * 0x1_0000 + c as int * 0x100 + d as int
  }

  /** The last field of struct.unpack(">BxxxI", ...) on the eight bytes from `at`. */
  function SizeAt(raw: seq<Byte>, at: nat): nat
    requires at + 8 <= |raw|
  {
    Number(raw[at + 4], raw[at + 5], raw[at + 6], raw[at + 7])
  }

  /** raw[n:], empty past the end. */
  function After(raw: seq<Byte>, n: nat): (rest: seq<Byte>)
    ensures |rest| == if |raw| <= n then 0 else |raw| - n
  {
    if |raw| <= n then [] else raw[n..]
  }

  /** raw[:n], all of it when there is less. */
  function Upto(raw: seq<Byte>, n: nat): (start: seq<Byte>)
    ensures |start| == if |raw| <= n then |raw| else n
  {
    if |raw| <= n then raw else raw[..n]
  }

  function FramesOf(raw: seq<Byte>): seq<Frame>
    decreases |raw|
  {
    if |raw| < 8 then []
    else [Frame(raw[0], Upto(After(raw, 8), SizeAt(raw, 0)))] + FramesOf(After(raw, 8 + SizeAt(raw, 0)))
  }

  function Joined(frames: seq<Frame>, streams: set<Byte>): seq<Byte> {
    if frames == [] then []
    else (if frames[0].stream in streams then frames[0].data else []) + Joined(frames[1..], streams)
  }

  /** What _demux joins. */
  function Demux(raw: seq<Byte>, streams: set<Byte>): seq<Byte> { Joined(FramesOf(raw), streams) }

  /** _demux. */
  function DemuxText(raw: seq<Byte>, streams: set<Byte>): seq<int> { Utf8Text.Decode(Demux(raw, streams)) }

  lemma AfterAfter(raw: seq<Byte>, n: nat, m: nat)
    ensures After(After(raw, n), m) == After(raw, n + m)
  {}

  /** The frames from some byte on. */
  function FramesFrom(raw: seq<Byte>, at: nat): seq<Frame> { FramesOf(After(raw, at)) }

  lemma NextFrame(raw: seq<Byte>, at: nat, sofar: seq<Frame>, frame: Frame, next: nat)
    requires at + 8 <= |raw|
    requires frame == Frame(raw[at], Upto(After(raw, at + 8), SizeAt(raw, at))) && next == at + 8 + SizeAt(raw, at)
    ensures sofar + FramesFrom(raw, at) == sofar + [frame] + FramesFrom(raw, next)
  {
    var left := After(raw, at);
    assert SizeAt(left, 0) == SizeAt(raw, at);
    AfterAfter(raw, at, 8);
    AfterAfter(raw, at, 8 + SizeAt(raw, at));
  }

  lemma FirstAndLast(raw: seq<Byte>, at: nat)
    ensures FramesFrom(raw, 0) == FramesOf(raw)
    ensures at + 8 > |raw| ==> FramesFrom(raw, at) == []
  {
    assert After(raw, 0) == raw;
  }

  /** The next frame of _frames, and where the one after it would start. */
  method NextOf(raw: seq<Byte>, at: nat, ghost sofar: seq<Frame>) returns (frame: Frame, next: nat)
    requires at + 8 <= |raw|
    ensures next >= at + 8 && sofar + FramesFrom(raw, at) == sofar + [frame] + FramesFrom(raw, next)
  {
    var stream, size := raw[at], SizeAt(raw, at);
    frame, next := Frame(stream, Upto(After(raw, at + 8), size)), at + 8 + size;
    NextFrame(raw, at, sofar, frame, next);
  }

  /** _frames. */
  method Frames(raw: seq<Byte>) returns (frames: seq<Frame>)
    ensures frames == FramesOf(raw)
  {
    frames := [];
    var at := 0;
    FirstAndLast(raw, 0);
    while at + 8 <= |raw|
      invariant 0 <= at && frames + FramesFrom(raw, at) == FramesOf(raw)
      decreases |raw| - at
    {
      var frame, next := NextOf(raw, at, frames);
      frames := frames + [frame];
      at := next;
    }
    FirstAndLast(raw, at);
  }

  // ---- writing ----

  /** A frame as the daemon writes it; what the three bytes after the stream hold makes no difference. */
  datatype Written = Written(stream: Byte, padding: seq<Byte>, data: seq<Byte>)

  predicate WrittenOk(w: Written) { |w.padding| == 3 && |w.data| < 0x1_0000_0000 }

  /** A 32-bit number's bytes, the most significant first. */
  function BigEndian(n: nat): (bytes: seq<Byte>)
    requires n < 0x1_0000_0000
    ensures |bytes| == 4
  {
    [n / 0x100_0000, n / 0x1_0000 % 256, n / 0x100 % 256, n % 256]
  }

  function Encode(w: Written): seq<Byte>
    requires WrittenOk(w)
  {
    [w.stream] + w.padding + BigEndian(|w.data|) + w.data
  }

  predicate AllOk(ws: seq<Written>) { forall i :: 0 <= i < |ws| ==> WrittenOk(ws[i]) }

  function EncodeAll(ws: seq<Written>): seq<Byte>
    requires AllOk(ws)
  {
    if ws == [] then [] else Encode(ws[0]) + EncodeAll(ws[1..])
  }

  function Sent(ws: seq<Written>): (frames: seq<Frame>)
    ensures |frames| == |ws|
  {
    if ws == [] then [] else [Frame(ws[0].stream, ws[0].data)] + Sent(ws[1..])
  }

  // ---- what is written is read ----

  lemma BytesOfSize(n: nat)
    requires n < 0x1_0000_0000
    ensures
      var b := BigEndian(n);
      Number(b[0], b[1], b[2], b[3]) == n
  {
    assert n / 0x1_0000 / 256 == n / 0x100_0000 && n / 0x100 / 256 == n / 0x1_0000;
  }

  lemma EncodedHeader(w: Written, rest: seq<Byte>)
    requires WrittenOk(w)
    ensures
      var raw := Encode(w) + rest;
      && |raw| >= 8 && raw[0] == w.stream && SizeAt(raw, 0) == |w.data|
      && Upto(After(raw, 8), |w.data|) == w.data && After(raw, 8 + |w.data|) == rest
  {
    var raw, size := Encode(w) + rest, BigEndian(|w.data|);
    assert raw == [w.stream] + w.padding + size + (w.data + rest);
    assert raw[4] == size[0] && raw[5] == size[1] && raw[6] == size[2] && raw[7] == size[3];
    BytesOfSize(|w.data|);
    assert After(raw, 8) == w.data + rest;
  }

  /** Every frame comes back, whatever its padding, and then whatever came after: with less than a header after the
      last frame, nothing. */
  lemma {:induction false} FramesComeBack(ws: seq<Written>, rest: seq<Byte>)
    requires AllOk(ws)
    ensures FramesOf(EncodeAll(ws) + rest) == Sent(ws) + FramesOf(rest)
  {
    if ws == [] {
      assert EncodeAll(ws) + rest == rest;
    } else {
      var more := EncodeAll(ws[1..]) + rest;
      assert EncodeAll(ws) + rest == Encode(ws[0]) + more;
      EncodedHeader(ws[0], more);
      FramesComeBack(ws[1..], rest);
    }
  }

  lemma {:induction false} JoinedAppend(a: seq<Frame>, b: seq<Frame>, streams: set<Byte>)
    ensures Joined(a + b, streams) == Joined(a, streams) + Joined(b, streams)
  {
    if a == [] {
      assert a + b == b;
    } else {
      assert (a + b)[1..] == a[1..] + b;
      JoinedAppend(a[1..], b, streams);
    }
  }

  /** However a stream's bytes were cut into frames, and whatever other streams' frames lie between, they come back. */
  lemma HoweverItIsCut(ws: seq<Written>, ws': seq<Written>, streams: set<Byte>)
    requires AllOk(ws) && AllOk(ws') && Joined(Sent(ws), streams) == Joined(Sent(ws'), streams)
    ensures Demux(EncodeAll(ws), streams) == Demux(EncodeAll(ws'), streams) == Joined(Sent(ws), streams)
  {
    FramesComeBack(ws, []);
    FramesComeBack(ws', []);
    assert EncodeAll(ws) + [] == EncodeAll(ws) && EncodeAll(ws') + [] == EncodeAll(ws');
    assert Sent(ws) + [] == Sent(ws) && Sent(ws') + [] == Sent(ws');
  }

  predicate IsPrefix(a: seq<Byte>, b: seq<Byte>) { |a| <= |b| && b[..|a|] == a }

  lemma PrefixAfter(a: seq<Byte>, b: seq<Byte>, c: seq<Byte>)
    requires IsPrefix(b, c)
    ensures IsPrefix(a + b, a + c)
  {
    assert c == b + c[|b|..];
    assert a + c == (a + b) + c[|b|..];
  }

  /** Bytes cut off anywhere, in a header or in a payload, give the beginning of what the whole gives. */
  lemma {:induction false} CutShortIsPrefix(raw: seq<Byte>, n: nat, streams: set<Byte>)
    requires n <= |raw|
    ensures IsPrefix(Demux(raw[..n], streams), Demux(raw, streams))
    decreases |raw|
  {
    if n < 8 {
      assert Demux(raw[..n], streams) == [];
    } else {
      var cut, size := raw[..n], SizeAt(raw, 0);
      var data, rest := Upto(After(raw, 8), size), After(raw, 8 + size);
      var data', rest' := Upto(After(cut, 8), size), After(cut, 8 + size);
      assert SizeAt(cut, 0) == size;
      DemuxNext(raw, streams);
      DemuxNext(cut, streams);
      if 8 + size <= n {
        CutAfter(raw, n, 8 + size);
        CutUpto(raw, n, size);
        CutShortIsPrefix(rest, n - 8 - size, streams);
        PrefixAfter(if raw[0] in streams then data else [], Demux(rest', streams), Demux(rest, streams));
      } else {
        assert rest' == [] && Demux(rest', streams) == [];
        CutUpto(raw, n, size);
      }
    }
  }

  lemma CutAfter(raw: seq<Byte>, n: nat, m: nat)
    requires m <= n <= |raw|
    ensures After(raw[..n], m) == After(raw, m)[..n - m]
  {}

  lemma CutUpto(raw: seq<Byte>, n: nat, size: nat)
    requires 8 <= n <= |raw|
    ensures IsPrefix(Upto(After(raw[..n], 8), size), Upto(After(raw, 8), size))
    ensures 8 + size <= n ==> Upto(After(raw[..n], 8), size) == Upto(After(raw, 8), size)
  {
    CutAfter(raw, n, 8);
  }

  lemma DemuxNext(raw: seq<Byte>, streams: set<Byte>)
    requires |raw| >= 8
    ensures Demux(raw, streams) == (if raw[0] in streams then Upto(After(raw, 8), SizeAt(raw, 0)) else []) +
                                   Demux(After(raw, 8 + SizeAt(raw, 0)), streams)
  {
    var rest := After(raw, 8 + SizeAt(raw, 0));
    assert FramesOf(raw)[1..] == FramesOf(rest);
  }

  // ---- the decoded text ----

  /** Text written to one stream comes back, whatever frames its bytes were cut into, inside a character or not, and
      whatever other streams' frames lie between. */
  lemma TextComesBack(ws: seq<Written>, stream: Byte, text: seq<int>)
    requires AllOk(ws) && Utf8Text.AllScalar(text) && Joined(Sent(ws), {stream}) == Utf8Text.Encode(text)
    ensures DemuxText(EncodeAll(ws), {stream}) == text
  {
    HoweverItIsCut(ws, ws, {stream});
    Utf8Text.TextComesBack(text);
  }

  /** A stream cut off anywhere gives the beginning of the whole text exactly when what is left of the payloads does
      not end inside a character. */
  lemma CutTextIsPrefix(raw: seq<Byte>, n: nat, streams: set<Byte>)
    requires n <= |raw|
    ensures |Demux(raw[..n], streams)| <= |Demux(raw, streams)|
    ensures Utf8Text.IsPrefix(DemuxText(raw[..n], streams), DemuxText(raw, streams)) <==>
            !Utf8Text.Splits(Demux(raw, streams), |Demux(raw[..n], streams)|)
  {
    CutShortIsPrefix(raw, n, streams);
    Utf8Text.CutTextIsPrefix(Demux(raw, streams), |Demux(raw[..n], streams)|);
  }

  const E_ACUTE: seq<Byte> := [1, 0, 0, 0, 0, 0, 0, 2, 0xC3, 0xA9]

  /** Such a cut: a frame that holds the two bytes of U+00E9, without the last, gives U+FFFD. */
  lemma CutInsideACharacter()
    ensures DemuxText(E_ACUTE, {1}) == [0xE9] && DemuxText(E_ACUTE[..9], {1}) == [Utf8Text.REPLACEMENT]
    ensures !Utf8Text.IsPrefix(DemuxText(E_ACUTE[..9], {1}), DemuxText(E_ACUTE, {1}))
  {
    var whole: seq<Byte>, part: seq<Byte> := [0xC3, 0xA9], [0xC3];
    OneFrame(E_ACUTE, whole);
    OneFrame(E_ACUTE[..9], part);
    assert whole[2..] == [] && part[1..] == [];
    assert Utf8Text.GoodFrom(whole, 2) == 2;
    assert Utf8Text.Decode(whole) == [0xE9] + Utf8Text.Decode([]);
    assert Utf8Text.Decode(part) == [Utf8Text.REPLACEMENT] + Utf8Text.Decode([]);
  }

  lemma OneFrame(raw: seq<Byte>, data: seq<Byte>)
    requires 8 <= |raw| <= 10 && raw[..8] == [1, 0, 0, 0, 0, 0, 0, 2] && raw[8..] == data
    ensures Demux(raw, {1}) == data
  {
    assert SizeAt(raw, 0) == 2;
    DemuxNext(raw, {1});
    assert Demux([], {1}) == [];
  }
}
