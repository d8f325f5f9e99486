/**
 Length-prefixed frames: four bytes of big-endian length, a version byte, an opcode byte and
 the payload. The client's decoder is fed chunks as they arrive from the socket.
 */
module Frames {
  import opened Types

  datatype Frame = Frame(version: byte, opcode: byte, payload: Bytes)

  const PROTOCOL_VERSION: byte := 1
  const MAX_FRAME_SIZE := 16 * 1024 * 1024
  const U32 := 0x1_0000_0000

  function BigEndian(n: nat): Bytes
    requires n < U32
  {
    [(n / 0x100_0000) as byte, (n / 0x1_0000 % 256) as byte, (n / 256 % 256) as byte, (n % 256) as byte]
  }

  function ReadBigEndian(s: Bytes): nat
    requires |s| >= 4
  {
    s[0] as nat * 0x100_0000 + s[1] as nat * 0x1_0000 + s[2] as nat * 256 + s[3] as nat
  }

  lemma BigEndianRoundTrip(n: nat, rest: Bytes)
    requires n < U32
    ensures ReadBigEndian(BigEndian(n) + rest) == n
  {
    var a, b := n / 256, n / 0x1_0000;
    assert n == 256 * a + n % 256;
    assert a == 256 * b + a % 256;
    assert b == 256 * (n / 0x100_0000) + b % 256;
  }

  /** The bytes of a frame. */
  function Wire(f: Frame): Bytes
    requires 2 + |f.payload| < U32
  {
    BigEndian(2 + |f.payload|) + [f.version, f.opcode] + f.payload
  }

  /** The server's encoder. The length and the size of the buffer are 32-bit and wrap: a buffer
      too small for the header panics, and a wrapped length cuts the payload off. */
  function EncodeFrame(opcode: byte, payload: Bytes): Option<Bytes> {
    var length := (2 + |payload|) % U32;
    var size := (4 + length) % U32;
    if size < 6 then None
    else Some(BigEndian(length) + [PROTOCOL_VERSION, opcode] + payload[..size - 6])
  }

  /** Frames every decoder takes. */
  predicate Fits(f: Frame) {
    2 + |f.payload| <= MAX_FRAME_SIZE
  }

  ghost predicate AllFit(fs: seq<Frame>) {
    forall i :: 0 <= i < |fs| ==> Fits(fs[i])
  }

  // ---------- one frame ----------

  datatype ReadResult = NeedMore | Got(frame: Frame, rest: Bytes) | Invalid

  /** The client's read: waits for the length, checks it, waits for the rest. */
  function Read(buf: Bytes): (r: ReadResult)
    ensures r.Got? ==> |r.rest| + 6 + |r.frame.payload| == |buf|
  {
    if |buf| < 4 then NeedMore
    else
      var length := ReadBigEndian(buf);
      if length > MAX_FRAME_SIZE || length < 2 then Invalid
      else if |buf| < 4 + length then NeedMore
      else Got(Frame(buf[4], buf[5], buf[6..4 + length]), buf[4 + length..])
  }

  lemma ReadWire(f: Frame, rest: Bytes)
    requires Fits(f)
    ensures Read(Wire(f) + rest) == Got(f, rest)
  {
    var n := 2 + |f.payload|;
    var buf := Wire(f) + rest;
    assert buf == BigEndian(n) + ([f.version, f.opcode] + f.payload + rest);
    BigEndianRoundTrip(n, [f.version, f.opcode] + f.payload + rest);
    assert buf[6..4 + n] == f.payload && buf[4 + n..] == rest;
  }

  /** The server reads from the connection and refuses large messages before allocating. */
  datatype ServerRead = Short | Refused | Taken(frame: Frame, rest: Bytes)

  function ServerDecode(stream: Bytes, maxMessage: nat): ServerRead {
    if |stream| < 4 then Short
    else
      var length := ReadBigEndian(stream);
      if length > MAX_FRAME_SIZE || length < 2 || length - 2 > maxMessage then Refused
      else if |stream| < 4 + length then Short
      else
        var data := stream[4..4 + length];
        Taken(Frame(data[0], data[1], data[2..]), stream[4 + length..])
  }

  /** Both ends take back what the encoder was given, if and only if it is within their limits. */
  lemma EncodedFrameIff(opcode: byte, payload: Bytes, rest: Bytes, maxMessage: nat)
    ensures var f, wire := Frame(PROTOCOL_VERSION, opcode, payload), EncodeFrame(opcode, payload);
            && (wire.Some? && Read(wire.value + rest) == Got(f, rest) <==> Fits(f))
            && (wire.Some? && ServerDecode(wire.value + rest, maxMessage) == Taken(f, rest)
                <==> Fits(f) && |payload| <= maxMessage)
  {
    hide Read, ServerDecode, BigEndian;
    var f, wire := Frame(PROTOCOL_VERSION, opcode, payload), EncodeFrame(opcode, payload);
    if Fits(f) {
      assert payload[..|payload|] == payload;
      assert wire == Some(Wire(f));
      ReadWire(f, rest);
      ServerAgrees(wire.value + rest, maxMessage);
    } else if wire.Some? {
      GotFits(wire.value + rest);
      ServerAgrees(wire.value + rest, maxMessage);
    }
  }

  lemma GotFits(buf: Bytes)
    ensures Read(buf).Got? ==> Fits(Read(buf).frame)
  {
  }

  /** A payload whose length wraps to a small one is cut off without an error. */
  lemma WrappedIsCut(opcode: byte, payload: Bytes, rest: Bytes)
    requires 2 + |payload| >= U32 && 2 <= (2 + |payload|) % U32 <= MAX_FRAME_SIZE
    ensures var cut := Frame(PROTOCOL_VERSION, opcode, payload[..(2 + |payload|) % U32 - 2]);
            var wire := EncodeFrame(opcode, payload);
            wire.Some? && Read(wire.value + rest) == Got(cut, rest)
  {
    hide Read, BigEndian;
    var cut := Frame(PROTOCOL_VERSION, opcode, payload[..(2 + |payload|) % U32 - 2]);
    assert EncodeFrame(opcode, payload) == Some(Wire(cut));
    ReadWire(cut, rest);
  }

  /** Both ends read the same frame from the same bytes, up to the server's message limit. */
  lemma ServerAgrees(stream: Bytes, maxMessage: nat)
    ensures ServerDecode(stream, maxMessage).Taken? <==>
            Read(stream).Got? && |Read(stream).frame.payload| <= maxMessage
    ensures ServerDecode(stream, maxMessage).Taken? ==>
            var t := ServerDecode(stream, maxMessage); Read(stream) == Got(t.frame, t.rest)
  {
    if |stream| >= 4 {
      var length := ReadBigEndian(stream);
      if 2 <= length <= MAX_FRAME_SIZE && 4 + length <= |stream| {
        assert stream[4..4 + length][2..] == stream[6..4 + length];
      }
    }
  }

  // ---------- all frames of a buffer ----------

  datatype Parse = Parse(frames: seq<Frame>, rest: Bytes, invalid: bool)

  function ParseAll(buf: Bytes): Parse
    decreases |buf|
  {
    match Read(buf)
    case NeedMore => Parse([], buf, false)
    case Invalid => Parse([], buf, true)
    case Got(f, rest) =>
      var p := ParseAll(rest);
      Parse([f] + p.frames, p.rest, p.invalid)
  }

  /** Bytes that arrive later do not change a frame already complete. */
  lemma ReadMore(buf: Bytes, more: Bytes)
    requires Read(buf).Got?
    ensures Read(buf + more) == Got(Read(buf).frame, Read(buf).rest + more)
  {
    var length := ReadBigEndian(buf);
    assert ReadBigEndian(buf + more) == length;
    assert (buf + more)[6..4 + length] == buf[6..4 + length];
    assert (buf + more)[4 + length..] == buf[4 + length..] + more;
  }

  lemma ReadInvalidMore(buf: Bytes, more: Bytes)
    requires Read(buf).Invalid?
    ensures Read(buf + more).Invalid?
  {
    assert ReadBigEndian(buf + more) == ReadBigEndian(buf);
  }

  lemma ParseStep(buf: Bytes)
    ensures ParseAll(buf) ==
            match Read(buf)
            case NeedMore => Parse([], buf, false)
            case Invalid => Parse([], buf, true)
            case Got(f, rest) => Parse([f] + ParseAll(rest).frames, ParseAll(rest).rest, ParseAll(rest).invalid)
  {
  }

  /** Parsing a prefix first and going on from what it left comes to the same. */
  lemma {:induction false} ParseMore(buf: Bytes, more: Bytes)
    ensures var p := ParseAll(buf);
            var q := ParseAll(buf + more);
            if p.invalid then q.invalid && q.frames == p.frames
            else
              var r := ParseAll(p.rest + more);
              q == Parse(p.frames + r.frames, r.rest, r.invalid)
    decreases |buf|
  {
    hide Read, ParseAll;
    ParseStep(buf);
    ParseStep(buf + more);
    match Read(buf)
    case NeedMore => assert forall s: seq<Frame> :: [] + s == s;
    case Invalid => ReadInvalidMore(buf, more);
    case Got(f, rest) =>
      ReadMore(buf, more);
      ParseMore(rest, more);
      var p := ParseAll(rest);
      assert [f] + (p.frames + ParseAll(p.rest + more).frames) == [f] + p.frames + ParseAll(p.rest + more).frames;
  }

  ghost function WireAll(fs: seq<Frame>): Bytes
    requires AllFit(fs)
  {
    if fs == [] then [] else assert Fits(fs[0]); Wire(fs[0]) + WireAll(fs[1..])
  }

  lemma {:induction false} ParseWireAll(fs: seq<Frame>)
    requires AllFit(fs)
    ensures ParseAll(WireAll(fs)) == Parse(fs, [], false)
  {
    if fs != [] {
      ReadWire(fs[0], WireAll(fs[1..]));
      ParseWireAll(fs[1..]);
    }
  }

  // ---------- the decoder object ----------

  class FrameDecoder {
    var buffer: Bytes

    constructor ()
      ensures buffer == []
    {
      buffer := [];
    }

    method Push(chunk: Bytes)
      modifies this
      ensures buffer == old(buffer) + chunk
    {
      buffer := if |buffer| == 0 then chunk else buffer + chunk;
    }

    /** One frame, if complete. On an invalid length the source throws. */
    method ReadFrame() returns (r: Option<Frame>, threw: bool)
      modifies this
      ensures threw == Read(old(buffer)).Invalid?
      ensures r == if Read(old(buffer)).Got? then Some(Read(old(buffer)).frame) else None
      ensures buffer == if Read(old(buffer)).Got? then Read(old(buffer)).rest else old(buffer)
    {
      if |buffer| < 4 { return None, false; }
      var length := ReadBigEndian(buffer);
      if length > MAX_FRAME_SIZE || length < 2 { return None, true; }
      var total := 4 + length;
      if |buffer| < total { return None, false; }
      var f := Frame(buffer[4], buffer[5], buffer[6..total]);
      buffer := buffer[total..];
      return Some(f), false;
    }

    /** All complete frames. When it throws, the frames read in this call are lost. */
    method ReadAll() returns (frames: seq<Frame>, threw: bool)
      modifies this
      ensures buffer == ParseAll(old(buffer)).rest && threw == ParseAll(old(buffer)).invalid
      ensures !threw ==> frames == ParseAll(old(buffer)).frames
    {
      hide Read, ParseAll;
      frames := [];
      assert [] + ParseAll(buffer).frames == ParseAll(buffer).frames;
      while true
        invariant ParseAll(old(buffer)) ==
                  Parse(frames + ParseAll(buffer).frames, ParseAll(buffer).rest, ParseAll(buffer).invalid)
        decreases |buffer|
      {
        ParseStep(buffer);
        ghost var so := frames;
        var f;
        f, threw := ReadFrame();
        if threw { return [], true; }
        if f.None? { return; }
        frames := frames + [f.value];
        assert so + ([f.value] + ParseAll(buffer).frames) == frames + ParseAll(buffer).frames;
      }
    }

    /** Pushes each chunk and reads all frames after it, until an error. */
    method Feed(chunks: seq<Bytes>) returns (frames: seq<Frame>, threw: bool)
      modifies this
      ensures (if threw then Threw(frames) else Fed(frames, buffer)) == FeedAll(old(buffer), chunks)
    {
      hide ParseAll, FeedAll, After;
      frames, threw := [], false;
      var i := 0;
      assert chunks[0..] == chunks;
      AfterNothing(FeedAll(buffer, chunks));
      while i < |chunks| && !threw
        invariant i <= |chunks|
        invariant FeedAll(old(buffer), chunks) ==
                  if threw then Threw(frames) else After(frames, FeedAll(buffer, chunks[i..]))
        decreases |chunks| - i
      {
        FeedStep(buffer, chunks, i);
        Push(chunks[i]);
        ghost var p := ParseAll(buffer);
        AfterAfter(frames, p.frames, FeedAll(p.rest, chunks[i + 1..]));
        var got;
        got, threw := ReadAll();
        if !threw { frames := frames + got; }
        i := i + 1;
      }
      FeedDone(frames, buffer, chunks[i..]);
    }
  }

  // ---------- chunk boundaries ----------

  function Concat(chunks: seq<Bytes>): Bytes {
    if chunks == [] then [] else chunks[0] + Concat(chunks[1..])
  }

  /** The frames handed out so far; and the bytes left over, unless an error ended it. */
  datatype Feeding = Fed(frames: seq<Frame>, rest: Bytes) | Threw(frames: seq<Frame>)

  function After(frames: seq<Frame>, more: Feeding): Feeding {
    more.(frames := frames + more.frames)
  }

  function FeedAll(buffer: Bytes, chunks: seq<Bytes>): Feeding
    decreases |chunks|
  {
    if chunks == [] then Fed([], buffer)
    else
      var p := ParseAll(buffer + chunks[0]);
      if p.invalid then Threw([]) else After(p.frames, FeedAll(p.rest, chunks[1..]))
  }

  lemma FeedStep(buffer: Bytes, chunks: seq<Bytes>, i: nat)
    requires i < |chunks|
    ensures var p := ParseAll(buffer + chunks[i]);
            FeedAll(buffer, chunks[i..]) ==
            if p.invalid then Threw([]) else After(p.frames, FeedAll(p.rest, chunks[i + 1..]))
    ensures forall frames :: After(frames, Threw([])) == Threw(frames)
  {
    assert chunks[i..][1..] == chunks[i + 1..];
    assert forall frames: seq<Frame> :: frames + [] == frames;
  }

  lemma FeedDone(frames: seq<Frame>, buffer: Bytes, chunks: seq<Bytes>)
    ensures chunks == [] ==> After(frames, FeedAll(buffer, chunks)) == Fed(frames, buffer)
  {
    assert frames + [] == frames;
  }

  lemma AfterNothing(more: Feeding)
    ensures After([], more) == more
  {
    assert [] + more.frames == more.frames;
  }

  lemma AfterAfter(a: seq<Frame>, b: seq<Frame>, more: Feeding)
    ensures After(a, After(b, more)) == After(a + b, more)
  {
    assert a + (b + more.frames) == a + b + more.frames;
  }

  ghost predicate Idle(buffer: Bytes) {
    ParseAll(buffer) == Parse([], buffer, false)
  }

  lemma {:induction false} RestIsIdle(buf: Bytes)
    requires !ParseAll(buf).invalid
    ensures Idle(ParseAll(buf).rest)
    decreases |buf|
  {
    hide Read;
    if Read(buf).Got? { RestIsIdle(Read(buf).rest); }
  }

  /** Whole frames only, and in order: with no invalid length, all of them, wherever the bytes
      are cut; with one, the error and some of the frames before it. */
  lemma {:induction false} FeedIsParse(buffer: Bytes, chunks: seq<Bytes>)
    requires Idle(buffer)
    ensures var p := ParseAll(buffer + Concat(chunks));
            var r := FeedAll(buffer, chunks);
            if p.invalid then r.Threw? && r.frames <= p.frames else r == Fed(p.frames, p.rest)
    decreases |chunks|
  {
    hide ParseAll, Idle;
    if chunks == [] {
      assert buffer + [] == buffer;
      IdleMeans(buffer);
    } else {
      var so, tail := buffer + chunks[0], Concat(chunks[1..]);
      assert buffer + Concat(chunks) == so + tail;
      ParseMore(so, tail);
      if !ParseAll(so).invalid {
        RestIsIdle(so);
        FeedIsParse(ParseAll(so).rest, chunks[1..]);
      }
    }
  }

  lemma IdleMeans(buffer: Bytes)
    requires Idle(buffer)
    ensures ParseAll(buffer) == Parse([], buffer, false)
  {
  }

  lemma NothingIdle()
    ensures Idle([])
  {
  }

  /** Any valid frames, cut anywhere, come out as they went in and leave nothing behind. */
  lemma FramesArriveWhole(fs: seq<Frame>, chunks: seq<Bytes>)
    requires AllFit(fs) && Concat(chunks) == WireAll(fs)
    ensures FeedAll([], chunks) == Fed(fs, [])
  {
    assert [] + Concat(chunks) == WireAll(fs);
    ParseWireAll(fs);
    NothingIdle();
    FeedIsParse([], chunks);
  }

  /** The bytes up to an invalid length are exactly the frames before it. */
  lemma {:induction false} BeforeInvalid(buf: Bytes) returns (front: Bytes)
    requires ParseAll(buf).invalid
    ensures buf == front + ParseAll(buf).rest && ParseAll(front) == Parse(ParseAll(buf).frames, [], false)
    decreases |buf|
  {
    front := [];
    if Read(buf).Got? {
      var tail := BeforeInvalid(Read(buf).rest);
      front := buf[..|buf| - |Read(buf).rest|] + tail;
      FirstFrame(buf, tail);
    }
  }

  lemma FirstFrame(buf: Bytes, more: Bytes)
    requires Read(buf).Got?
    ensures var head := buf[..|buf| - |Read(buf).rest|];
            buf == head + Read(buf).rest && Read(head + more) == Got(Read(buf).frame, more)
  {
    var length := ReadBigEndian(buf);
    var head := buf[..4 + length];
    assert buf[..|buf| - |Read(buf).rest|] == head;
    assert ReadBigEndian(head + more) == length;
    assert (head + more)[6..4 + length] == buf[6..4 + length];
    assert (head + more)[4 + length..] == more;
  }

  ghost predicate SameWhereverCut(bytes: Bytes) {
    forall c, d :: Concat(c) == bytes && Concat(d) == bytes ==> FeedAll([], c) == FeedAll([], d)
  }

  /** Cuts matter in one case only: frames in front of an invalid length are delivered if they
      arrive in an earlier chunk, and lost with the error if they arrive in the same one. */
  lemma CutsDoNotMatterIff(bytes: Bytes)
    ensures SameWhereverCut(bytes) <==> !ParseAll(bytes).invalid || ParseAll(bytes).frames == []
  {
    NothingIdle();
    assert [] + bytes == bytes;
    if !ParseAll(bytes).invalid || ParseAll(bytes).frames == [] {
      forall c, d | Concat(c) == bytes && Concat(d) == bytes ensures FeedAll([], c) == FeedAll([], d) {
        FeedIsParse([], c);
        FeedIsParse([], d);
      }
    } else {
      var front := BeforeInvalid(bytes);
      CutInTwo(front, ParseAll(bytes).rest);
    }
  }

  lemma CutInTwo(front: Bytes, bad: Bytes)
    requires ParseAll(front).frames != [] && ParseAll(front).rest == [] && !ParseAll(front).invalid
    requires ParseAll(front + bad).invalid
    ensures !SameWhereverCut(front + bad)
  {
    hide ParseAll;
    var one, two := [front + bad], [front, bad];
    assert one[1..] == [] && two[1..] == [bad] && [bad][1..] == [];
    assert Concat(one) == front + bad && Concat(two) == front + bad;
    assert [] + front == front && [] + (front + bad) == front + bad;
    assert FeedAll([], one) == Threw([]);
    assert FeedAll([], two).frames != [];
  }
}
