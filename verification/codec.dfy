/** The stdio frame codec: writer, incremental decoder and their inverse relation under any
    chunking, after src/cli/network_protocol.cpp. */
module Codec {
  import opened Arithmetic
  import opened Words

  const HEADER: nat := 16
  const MAX_PAYLOAD: nat := 0x1_0000
  const MAX_BUFFER: nat := 0x1_0000 + 16 + 4096
  const VERSION: Byte := 2

  datatype Frame = Frame(kind: Byte, requestId: Word, payload: seq<Byte>)

  // ---------------------------------------------------------------- the wire format

  function Bytes32(v: Word): (r: seq<Byte>)
    ensures |r| == 4
  {
    [v % 0x100, v / 0x100 % 0x100, v / 0x1_0000 % 0x100, v / 0x100_0000]
  }

  function Word32(b: seq<Byte>): Word
    requires |b| == 4
  {
    b[0] as int + 0x100 * b[1] as int + 0x1_0000 * b[2] as int + 0x100_0000 * b[3] as int
  }

  lemma Word32RoundTrip(v: Word)
    ensures Word32(Bytes32(v)) == v
  {
    FourBytes(v);
  }

  function Header(f: Frame): (r: seq<Byte>)
    requires |f.payload| <= MAX_PAYLOAD
    ensures |r| == HEADER
  {
    ['F' as int, 'I' as int, 'L' as int, 'N' as int, VERSION, f.kind, 0, 0] + Bytes32(|f.payload|)
      + Bytes32(f.requestId)
  }

  function Encode(f: Frame): (r: seq<Byte>)
    requires |f.payload| <= MAX_PAYLOAD
    ensures |r| == HEADER + |f.payload|
  {
    Header(f) + f.payload
  }

  predicate Sendable(frames: seq<Frame>) {
    forall i | 0 <= i < |frames| :: |frames[i].payload| <= MAX_PAYLOAD
  }

  function EncodeAll(frames: seq<Frame>): seq<Byte>
    requires Sendable(frames)
  {
    if frames == [] then [] else Encode(frames[0]) + EncodeAll(frames[1..])
  }

  /** writeU32: four bytes at `offset`, least significant first. */
  method WriteU32(b: seq<Byte>, offset: nat, v: Word) returns (r: seq<Byte>)
    requires offset + 4 <= |b|
    ensures r == b[..offset] + Bytes32(v) + b[offset + 4..]
  {
    hide Bytes32, ShiftRight;
    ghost var bytes := Bytes32(v);
    r := b;
    var i := 0;
    while i < 4
      invariant 0 <= i <= 4
      invariant r == b[..offset] + bytes[..i] + b[offset + i..]
    {
      ShiftedByte(v, i);
      r := r[offset + i := ShiftRight(v, i * 8) % 0x100];
      i := i + 1;
    }
  }

  /** Shifting by whole bytes and masking selects the byte. */
  lemma ShiftedByte(v: Word, i: nat)
    requires i < 4
    ensures ShiftRight(v, i * 8) % 0x100 == Bytes32(v)[i]
  {
    assert Pow2(8) == 0x100;
    assert Pow2(12) == 16 * Pow2(8) && Pow2(16) == 16 * Pow2(12);
    assert Pow2(20) == 16 * Pow2(16) && Pow2(24) == 16 * Pow2(20);
  }

  /** The header buffer, field by field. */
  method FillHeader(f: Frame) returns (header: seq<Byte>)
    requires |f.payload| <= MAX_PAYLOAD
    ensures header == Header(f)
  {
    hide Bytes32;
    var fixed: seq<Byte> := ['F' as int, 'I' as int, 'L' as int, 'N' as int, VERSION, f.kind, 0, 0];
    header := fixed + [0, 0, 0, 0, 0, 0, 0, 0];
    header := WriteU32(header, 8, |f.payload|);
    assert header == fixed + Bytes32(|f.payload|) + [0, 0, 0, 0];
    header := WriteU32(header, 12, f.requestId);
    assert header == fixed + Bytes32(|f.payload|) + Bytes32(f.requestId);
  }

  /** writeFrame: an oversized payload is refused and nothing is written. */
  method WriteFrame(output: seq<Byte>, f: Frame) returns (r: Option<seq<Byte>>)
    ensures r == if |f.payload| > MAX_PAYLOAD then None else Some(output + Encode(f))
  {
    hide Header;
    if |f.payload| > MAX_PAYLOAD { return None; }
    var header := FillHeader(f);
    assert output + Encode(f) == output + header + f.payload;
    var written := output + header;
    if f.payload != [] { written := written + f.payload; } else { assert written + f.payload == written; }
    r := Some(written);
  }

  // ---------------------------------------------------------------- the decoder

  datatype Phase = HeaderPhase | PayloadPhase

  datatype Decoder = Decoder(bytes: seq<Byte>, payloadSize: nat, phase: Phase)

  function Fresh(): Decoder {
    Decoder([], 0, HeaderPhase)
  }

  /** Magic, version and flags as expected. */
  predicate HeaderValid(b: seq<Byte>)
    requires |b| >= HEADER
  {
    && b[0] == 'F' as int && b[1] == 'I' as int && b[2] == 'L' as int && b[3] == 'N' as int
    && b[4] == VERSION && b[6] == 0 && b[7] == 0
  }

  datatype NextResult = Waiting(d: Decoder) | Produced(frame: Frame, d: Decoder) | ParseError(d: Decoder)

  predicate Ok(d: Decoder) {
    (d.phase == PayloadPhase ==> |d.bytes| >= HEADER) && |d.bytes| <= MAX_BUFFER
  }

  /** The payload phase of next. */
  function TakePayload(d: Decoder): NextResult
    requires |d.bytes| >= HEADER
  {
    var size := HEADER + d.payloadSize;
    if |d.bytes| < size then Waiting(d)
    else Produced(Frame(d.bytes[5], Word32(d.bytes[12..16]), d.bytes[HEADER..size]),
      Decoder(d.bytes[size..], 0, HeaderPhase))
  }

  function NextOf(d: Decoder): (r: NextResult)
    requires Ok(d)
    ensures Ok(r.d) && (r.Produced? ==> |r.d.bytes| < |d.bytes|)
  {
    match d.phase
    case PayloadPhase => TakePayload(d)
    case HeaderPhase =>
      if |d.bytes| < HEADER then Waiting(d)
      else if !HeaderValid(d.bytes) then ParseError(d)
      else
        var size := Word32(d.bytes[8..12]);
        if size > MAX_PAYLOAD then ParseError(d.(payloadSize := size))
        else TakePayload(Decoder(d.bytes, size, PayloadPhase))
  }

  function AppendOf(d: Decoder, chunk: seq<Byte>): Option<Decoder>
    requires Ok(d)
  {
    if |chunk| > MAX_BUFFER - |d.bytes| then None else Some(d.(bytes := d.bytes + chunk))
  }

  /** finish: true exactly at a frame boundary. */
  predicate FinishOk(d: Decoder) {
    d.phase == HeaderPhase && d.bytes == []
  }

  datatype Drained = Drained(frames: seq<Frame>, d: Decoder, ok: bool)

  /** next until it has nothing more to give. */
  function Drain(d: Decoder): (r: Drained)
    requires Ok(d)
    ensures Ok(r.d)
    decreases |d.bytes|
  {
    match NextOf(d)
    case Waiting(d1) => Drained([], d1, true)
    case ParseError(d1) => Drained([], d1, false)
    case Produced(f, d1) => var rest := Drain(d1); rest.(frames := [f] + rest.frames)
  }

  /** A drain result with `frames` taken before it. */
  function Prefixed(frames: seq<Frame>, d: Drained): Drained {
    d.(frames := frames + d.frames)
  }

  lemma NoFrames(d: Drained)
    ensures Prefixed([], d) == d
  {
  }

  /** One step of a drain. */
  lemma DrainStep(d: Decoder, frames: seq<Frame>)
    requires Ok(d)
    ensures Ok(NextOf(d).d)
    ensures
      match NextOf(d)
      case Waiting(d1) => Prefixed(frames, Drain(d)) == Drained(frames, d1, true)
      case ParseError(d1) => Prefixed(frames, Drain(d)) == Drained(frames, d1, false)
      case Produced(f, d1) => |d1.bytes| < |d.bytes| && Prefixed(frames, Drain(d)) == Prefixed(frames + [f], Drain(d1))
  {
    hide NextOf, Ok;
    var r := NextOf(d);
    assert frames + [] == frames;
    if r.Produced? { assert frames + ([r.frame] + Drain(r.d).frames) == frames + [r.frame] + Drain(r.d).frames; }
  }

  /** Append a chunk and drain, chunk after chunk; None when a chunk does not fit or bytes do not
      parse. */
  function Receive(d: Decoder, chunks: seq<seq<Byte>>): Option<Drained>
    requires Ok(d)
    decreases |chunks|
  {
    if chunks == [] then Some(Drained([], d, true))
    else
      match AppendOf(d, chunks[0])
      case None => None
      case Some(d1) =>
        var first := Drain(d1);
        if !first.ok then None
        else
          match Receive(first.d, chunks[1..])
          case None => None
          case Some(rest) => Some(rest.(frames := first.frames + rest.frames))
  }

  function Joined(chunks: seq<seq<Byte>>): seq<Byte>
    decreases |chunks|
  {
    if chunks == [] then [] else chunks[0] + Joined(chunks[1..])
  }

  // ---------------------------------------------------------------- one frame

  lemma HeaderReads(f: Frame, b: seq<Byte>)
    requires |f.payload| <= MAX_PAYLOAD && |b| >= HEADER && b[..HEADER] == Header(f)
    ensures HeaderValid(b) && Word32(b[8..12]) == |f.payload| && b[5] == f.kind && Word32(b[12..16]) == f.requestId
  {
    hide Bytes32, Word32;
    var h := Header(f);
    Word32RoundTrip(|f.payload|);
    Word32RoundTrip(f.requestId);
    assert b[8..12] == h[8..12] == Bytes32(|f.payload|);
    assert b[12..16] == h[12..16] == Bytes32(f.requestId);
    forall i | 0 <= i < 8
      ensures b[i] == h[i]
    {
      assert b[i] == b[..HEADER][i];
    }
  }

  /** `d` is waiting for frame `f`, possibly with its header already read. */
  predicate AtFrame(d: Decoder, f: Frame) {
    d.phase == PayloadPhase ==> d.payloadSize == |f.payload|
  }

  lemma NextWhole(d: Decoder, f: Frame, rest: seq<Byte>)
    requires Ok(d) && |f.payload| <= MAX_PAYLOAD && AtFrame(d, f) && d.bytes == Encode(f) + rest
    ensures NextOf(d) == Produced(f, Decoder(rest, 0, HeaderPhase))
  {
    hide Header, HeaderValid, Word32;
    var b, size := d.bytes, HEADER + |f.payload|;
    assert b[..HEADER] == Header(f);
    HeaderReads(f, b);
    assert b[HEADER..size] == f.payload && b[size..] == rest;
  }

  /** A proper prefix of an encoded frame. */
  predicate Partial(r: seq<Byte>, f: Frame)
    requires |f.payload| <= MAX_PAYLOAD
  {
    |r| < |Encode(f)| && r == Encode(f)[..|r|]
  }

  /** The decoder holds the part `r` of frame `f`, its header read when complete. */
  predicate Settled(d: Decoder, r: seq<Byte>, f: Frame) {
    && d.bytes == r && |r| <= MAX_BUFFER
    && if |r| >= HEADER then d.phase == PayloadPhase && d.payloadSize == |f.payload| else d.phase == HeaderPhase
  }

  lemma NextPartial(d: Decoder, f: Frame)
    requires Ok(d) && |f.payload| <= MAX_PAYLOAD && AtFrame(d, f) && Partial(d.bytes, f)
    ensures NextOf(d).Waiting? && Settled(NextOf(d).d, d.bytes, f)
  {
    hide Header, HeaderValid, Word32;
    var b := d.bytes;
    if |b| >= HEADER {
      assert b[..HEADER] == Encode(f)[..HEADER] == Header(f);
      HeaderReads(f, b);
    }
  }

  // ---------------------------------------------------------------- whole streams

  lemma {:induction false} DrainDecodes(d: Decoder, frames: seq<Frame>, r: seq<Byte>, next: Frame)
    requires Ok(d) && Sendable(frames) && |next.payload| <= MAX_PAYLOAD && Partial(r, next)
    requires d.bytes == EncodeAll(frames) + r && AtFrame(d, (frames + [next])[0])
    ensures Drain(d).ok && Drain(d).frames == frames && Settled(Drain(d).d, r, next)
    decreases |frames|
  {
    hide NextOf, Encode, Partial;
    if frames == [] {
      assert d.bytes == r;
      NextPartial(d, next);
    } else {
      var rest := EncodeAll(frames[1..]) + r;
      assert d.bytes == Encode(frames[0]) + rest;
      NextWhole(d, frames[0], rest);
      DrainDecodes(Decoder(rest, 0, HeaderPhase), frames[1..], r, next);
    }
  }

  /** How many frames lie wholly in the first `n` bytes of their encoding. */
  function Whole(frames: seq<Frame>, n: nat): (k: nat)
    requires Sendable(frames)
    ensures k <= |frames|
  {
    if frames == [] || n < |Encode(frames[0])| then 0 else 1 + Whole(frames[1..], n - |Encode(frames[0])|)
  }

  function NextFrame(frames: seq<Frame>, next: Frame, k: nat): Frame
    requires k <= |frames|
  {
    if k < |frames| then frames[k] else next
  }

  lemma DropPrefix(first: seq<Byte>, more: seq<Byte>, p: seq<Byte>)
    requires p <= first + more
    ensures |p| >= |first| ==> p == first + p[|first|..] && p[|first|..] <= more
    ensures |p| < |first| ==> p == first[..|p|]
  {
    assert p == (first + more)[..|p|];
    if |p| >= |first| { assert p[|first|..] == more[..|p| - |first|]; }
  }

  /** `p` is the first `k` frames and a part of the next; the stream goes on from there. */
  predicate SplitsAt(frames: seq<Frame>, next: Frame, tail: seq<Byte>, p: seq<Byte>, k: nat)
    requires Sendable(frames) && |next.payload| <= MAX_PAYLOAD && k <= |frames|
  {
    var done := EncodeAll(frames[..k]);
    && |done| <= |p| && p == done + p[|done|..] && Partial(p[|done|..], NextFrame(frames, next, k))
    && EncodeAll(frames) + tail == done + (EncodeAll(frames[k..]) + tail)
  }

  lemma SplitNow(frames: seq<Frame>, next: Frame, tail: seq<Byte>, p: seq<Byte>)
    requires Sendable(frames) && |next.payload| <= MAX_PAYLOAD && Partial(p, NextFrame(frames, next, 0))
    ensures SplitsAt(frames, next, tail, p, 0)
  {
    hide Encode, Partial;
    assert frames[..0] == [] && frames[0..] == frames && EncodeAll([]) == [];
    assert p[0..] == p && [] + p == p && [] + (EncodeAll(frames) + tail) == EncodeAll(frames) + tail;
  }

  lemma SplitLater(frames: seq<Frame>, next: Frame, tail: seq<Byte>, q: seq<Byte>, k: nat)
    requires Sendable(frames) && frames != [] && |next.payload| <= MAX_PAYLOAD && k <= |frames| - 1
    requires SplitsAt(frames[1..], next, tail, q, k)
    ensures SplitsAt(frames, next, tail, Encode(frames[0]) + q, k + 1)
  {
    hide Encode, Partial;
    var first, p := Encode(frames[0]), Encode(frames[0]) + q;
    var done1 := EncodeAll(frames[1..][..k]);
    assert frames[..k + 1][1..] == frames[1..][..k] && frames[1..][k..] == frames[k + 1..];
    assert EncodeAll(frames[..k + 1]) == first + done1;
    assert p[|first + done1|..] == q[|done1|..];
    assert p == (first + done1) + q[|done1|..];
    var more := EncodeAll(frames[k + 1..]) + tail;
    assert EncodeAll(frames) + tail == first + (EncodeAll(frames[1..]) + tail);
    assert first + (done1 + more) == (first + done1) + more;
  }

  /** Any prefix of a stream is whole frames and a part of the one after them. */
  lemma {:induction false} PrefixSplits(frames: seq<Frame>, next: Frame, tail: seq<Byte>, p: seq<Byte>)
    requires Sendable(frames) && |next.payload| <= MAX_PAYLOAD && Partial(tail, next) && p <= EncodeAll(frames) + tail
    ensures SplitsAt(frames, next, tail, p, Whole(frames, |p|))
    decreases |frames|
  {
    hide Encode, SplitsAt;
    if frames == [] {
      assert p == tail[..|p|];
      PartialPrefix(tail, next, p);
      SplitNow(frames, next, tail, p);
    } else {
      var first, more := Encode(frames[0]), EncodeAll(frames[1..]) + tail;
      assert EncodeAll(frames) + tail == first + more;
      DropPrefix(first, more, p);
      if |p| < |first| {
        SplitNow(frames, next, tail, p);
      } else {
        var q := p[|first|..];
        PrefixSplits(frames[1..], next, tail, q);
        SplitLater(frames, next, tail, q, Whole(frames[1..], |q|));
      }
    }
  }

  lemma PartialPrefix(r: seq<Byte>, f: Frame, p: seq<Byte>)
    requires |f.payload| <= MAX_PAYLOAD && Partial(r, f) && p <= r
    ensures Partial(p, f)
  {
    hide Encode;
    assert p == r[..|p|] == Encode(f)[..|p|];
  }

  /** Every chunk fits the buffer beside the bytes of the frame it interrupts: a condition on
      lengths alone. `held` bytes of the first frame have already arrived. */
  predicate ChunksFit(frames: seq<Frame>, held: int, chunks: seq<seq<Byte>>)
    requires Sendable(frames)
    decreases |chunks|
  {
    chunks == [] ||
    var n := held + |chunks[0]|;
    && 0 <= n <= MAX_BUFFER
    && var k := Whole(frames, n);
       ChunksFit(frames[k..], n - |EncodeAll(frames[..k])|, chunks[1..])
  }

  /** The decoder holds the beginning of the first frame, and the chunks bring the rest of the
      stream: whole frames and a tail. */
  predicate Midway(d: Decoder, chunks: seq<seq<Byte>>, frames: seq<Frame>, next: Frame, tail: seq<Byte>) {
    && Ok(d) && Sendable(frames) && |next.payload| <= MAX_PAYLOAD && Partial(tail, next)
    && d.bytes + Joined(chunks) == EncodeAll(frames) + tail
    && Settled(d, d.bytes, NextFrame(frames, next, 0)) && Partial(d.bytes, NextFrame(frames, next, 0))
  }

  /** One more chunk completes exactly the frames that end in it, and leaves the decoder midway. */
  lemma ChunkArrives(d: Decoder, chunks: seq<seq<Byte>>, frames: seq<Frame>, next: Frame, tail: seq<Byte>)
    requires Midway(d, chunks, frames, next, tail) && chunks != [] && |d.bytes| + |chunks[0]| <= MAX_BUFFER
    ensures
      var d1 := AppendOf(d, chunks[0]);
      && d1.Some? && Ok(d1.value)
      && var k := Whole(frames, |d1.value.bytes|);
         var first := Drain(d1.value);
         && first.ok && first.frames == frames[..k]
         && |first.d.bytes| == |d1.value.bytes| - |EncodeAll(frames[..k])|
         && Midway(first.d, chunks[1..], frames[k..], next, tail)
  {
    hide Encode, Partial, Drain, SplitsAt, Whole;
    var d1 := AppendOf(d, chunks[0]).value;
    var p := d1.bytes;
    assert p + Joined(chunks[1..]) == EncodeAll(frames) + tail;
    assert p <= EncodeAll(frames) + tail;
    PrefixSplits(frames, next, tail, p);
    var k := Whole(frames, |p|);
    var done := EncodeAll(frames[..k]);
    SplitParts(frames, next, tail, p, k);
    var q := p[|done|..];
    FirstFrame(frames, next, k);
    DrainDecodes(d1, frames[..k], q, NextFrame(frames, next, k));
    assert p + Joined(chunks[1..]) == done + (q + Joined(chunks[1..]));
    CancelPrefix(done, q + Joined(chunks[1..]), EncodeAll(frames[k..]) + tail);
    assert NextFrame(frames[k..], next, 0) == NextFrame(frames, next, k);
  }

  /** From midway, the rest of the stream is decoded exactly when every chunk fits. */
  lemma {:induction false} ReceiveDecodes(
    d: Decoder, chunks: seq<seq<Byte>>, frames: seq<Frame>, next: Frame, tail: seq<Byte>)
    requires Midway(d, chunks, frames, next, tail)
    ensures
      var r := Receive(d, chunks);
      && (r.Some? <==> ChunksFit(frames, |d.bytes|, chunks))
      && (r.Some? ==> r.value.frames == frames && Settled(r.value.d, tail, next))
    decreases |chunks|
  {
    hide Encode, Partial, Drain, Whole, EncodeAll, Settled;
    if chunks == [] {
      assert d.bytes == EncodeAll(frames) + tail;
      OnlyTail(d.bytes, frames, next, tail);
    } else if |d.bytes| + |chunks[0]| <= MAX_BUFFER {
      ChunkArrives(d, chunks, frames, next, tail);
      var d1 := AppendOf(d, chunks[0]).value;
      var k := Whole(frames, |d1.bytes|);
      ReceiveDecodes(Drain(d1).d, chunks[1..], frames[k..], next, tail);
      assert frames[..k] + frames[k..] == frames;
    }
  }

  lemma SplitParts(frames: seq<Frame>, next: Frame, tail: seq<Byte>, p: seq<Byte>, k: nat)
    requires Sendable(frames) && |next.payload| <= MAX_PAYLOAD && k <= |frames| && SplitsAt(frames, next, tail, p, k)
    ensures
      var done := EncodeAll(frames[..k]);
      && |done| <= |p| && p == done + p[|done|..] && Partial(p[|done|..], NextFrame(frames, next, k))
      && EncodeAll(frames) + tail == done + (EncodeAll(frames[k..]) + tail)
  {
  }

  lemma FirstFrame(frames: seq<Frame>, next: Frame, k: nat)
    requires k <= |frames|
    ensures (frames[..k] + [NextFrame(frames, next, k)])[0] == NextFrame(frames, next, 0)
  {
  }

  /** A part of the first frame holds no whole frame. */
  lemma OnlyTail(b: seq<Byte>, frames: seq<Frame>, next: Frame, tail: seq<Byte>)
    requires Sendable(frames) && |next.payload| <= MAX_PAYLOAD
    requires b == EncodeAll(frames) + tail && Partial(b, NextFrame(frames, next, 0))
    ensures frames == [] && b == tail
  {
    hide Encode;
    if frames != [] { AtLeastFirst(frames, tail); }
  }

  lemma AtLeastFirst(frames: seq<Frame>, tail: seq<Byte>)
    requires Sendable(frames) && frames != []
    ensures |EncodeAll(frames) + tail| >= |Encode(frames[0])|
  {
    hide Encode;
  }

  lemma CancelPrefix(a: seq<Byte>, x: seq<Byte>, y: seq<Byte>)
    requires a + x == a + y
    ensures x == y
  {
    assert x == (a + x)[|a|..] && y == (a + y)[|a|..];
  }

  /** Codec round trip: frames within the payload limit, encoded and cut into any chunks that fit
      the buffer, come out in order, with nothing left over and a clean finish. */
  lemma CodecRoundTrip(frames: seq<Frame>, chunks: seq<seq<Byte>>)
    requires Sendable(frames) && Joined(chunks) == EncodeAll(frames)
    ensures
      var r := Receive(Fresh(), chunks);
      && (r.Some? <==> ChunksFit(frames, 0, chunks))
      && (r.Some? ==> r.value.frames == frames && FinishOk(r.value.d))
  {
    hide Receive;
    var any := Frame(0, 0, []);
    assert [] + Joined(chunks) == EncodeAll(frames) + [];
    ReceiveDecodes(Fresh(), chunks, frames, any, []);
  }

  /** finish succeeds exactly at a frame boundary: of the frames and a proper part of another one,
      cut into any chunks, the frames come out, and finish succeeds exactly when the part is empty. */
  lemma FinishExact(frames: seq<Frame>, next: Frame, tail: seq<Byte>, chunks: seq<seq<Byte>>)
    requires Sendable(frames) && |next.payload| <= MAX_PAYLOAD && Partial(tail, next)
    requires Joined(chunks) == EncodeAll(frames) + tail
    ensures
      var r := Receive(Fresh(), chunks);
      && (r.Some? <==> ChunksFit(frames, 0, chunks))
      && (r.Some? ==> r.value.frames == frames && r.value.d.bytes == tail && (FinishOk(r.value.d) <==> tail == []))
  {
    hide Receive;
    assert [] + Joined(chunks) == EncodeAll(frames) + tail;
    ReceiveDecodes(Fresh(), chunks, frames, next, tail);
  }

  /** Chunks of at most 4096 bytes always fit once the frames before them have been taken. */
  lemma {:induction false} SmallChunksFit(
    d: Decoder, chunks: seq<seq<Byte>>, frames: seq<Frame>, next: Frame, tail: seq<Byte>)
    requires Midway(d, chunks, frames, next, tail)
    requires forall i | 0 <= i < |chunks| :: |chunks[i]| <= 4096
    ensures Receive(d, chunks).Some?
    decreases |chunks|
  {
    hide Drain, Whole, EncodeAll;
    if chunks != [] {
      ChunkArrives(d, chunks, frames, next, tail);
      var d1 := AppendOf(d, chunks[0]).value;
      var k := Whole(frames, |d1.bytes|);
      SmallChunksFit(Drain(d1).d, chunks[1..], frames[k..], next, tail);
    }
  }

  /** A stream in chunks of at most 4096 bytes is decoded whole. */
  lemma SmallChunksDecode(frames: seq<Frame>, chunks: seq<seq<Byte>>)
    requires Sendable(frames) && Joined(chunks) == EncodeAll(frames)
    requires forall i | 0 <= i < |chunks| :: |chunks[i]| <= 4096
    ensures var r := Receive(Fresh(), chunks); r.Some? && r.value.frames == frames && FinishOk(r.value.d)
  {
    hide Receive;
    assert [] + Joined(chunks) == EncodeAll(frames) + [];
    SmallChunksFit(Fresh(), chunks, frames, Frame(0, 0, []), []);
    CodecRoundTrip(frames, chunks);
  }

  // ---------------------------------------------------------------- decoding loses nothing

  /** A decoder in its payload phase holds the header it has read. */
  predicate Honest(d: Decoder) {
    && Ok(d)
    && (d.phase == PayloadPhase ==>
          HeaderValid(d.bytes) && d.payloadSize == Word32(d.bytes[8..12]) && d.payloadSize <= MAX_PAYLOAD)
  }

  lemma BytesBack(b: seq<Byte>)
    requires |b| == 4
    ensures Bytes32(Word32(b)) == b
  {
    var v := Word32(b);
    var b0: int, b1: int, b2: int, b3: int := b[0], b[1], b[2], b[3];
    assert v % 0x100 == b0 && v / 0x100 == b1 + 0x100 * b2 + 0x1_0000 * b3;
    assert (b1 + 0x100 * b2 + 0x1_0000 * b3) % 0x100 == b1;
    assert v / 0x1_0000 == b2 + 0x100 * b3;
    assert (b2 + 0x100 * b3) % 0x100 == b2;
    assert v / 0x100_0000 == b3;
  }

  /** A valid header is the header of the frame it announces. */
  lemma HeaderBack(b: seq<Byte>, f: Frame)
    requires |b| >= HEADER && HeaderValid(b) && |f.payload| <= MAX_PAYLOAD
    requires f.kind == b[5] && f.requestId == Word32(b[12..16]) && |f.payload| == Word32(b[8..12])
    ensures b[..HEADER] == Header(f)
  {
    hide Word32, Bytes32;
    BytesBack(b[8..12]);
    BytesBack(b[12..16]);
    assert b[..HEADER] == b[..8] + b[8..12] + b[12..16];
  }

  /** What next produces is encoded at the front of the buffer. */
  lemma NextBack(d: Decoder)
    requires Honest(d)
    ensures
      var r := NextOf(d);
      match r
      case Waiting(d1) => Honest(d1) && d1.bytes == d.bytes
      case ParseError(d1) => d1.bytes == d.bytes
      case Produced(f, d1) => Honest(d1) && |f.payload| <= MAX_PAYLOAD && d.bytes == Encode(f) + d1.bytes
  {
    hide Word32, Header, HeaderValid;
    var r := NextOf(d);
    if r.Produced? {
      var b, size := d.bytes, HEADER + |r.frame.payload|;
      HeaderBack(b, r.frame);
      assert b == b[..HEADER] + b[HEADER..size] + b[size..];
    }
  }

  lemma {:induction false} DrainBack(d: Decoder)
    requires Honest(d)
    ensures
      var r := Drain(d);
      Sendable(r.frames) && d.bytes == EncodeAll(r.frames) + r.d.bytes && (r.ok ==> Honest(r.d))
    decreases |d.bytes|
  {
    hide NextOf, Encode, EncodeAll, Honest;
    HonestIsOk(d);
    NextBack(d);
    var r := NextOf(d);
    if r.Produced? {
      DrainBack(r.d);
      Ahead(r.frame, Drain(r.d).frames, Drain(r.d).d.bytes);
    } else {
      assert EncodeAll([]) + d.bytes == d.bytes by { NoneEncoded(); }
    }
  }

  lemma NoneEncoded()
    ensures EncodeAll([]) == []
  {
  }

  lemma Ahead(f: Frame, rest: seq<Frame>, tail: seq<Byte>)
    requires |f.payload| <= MAX_PAYLOAD && Sendable(rest)
    ensures Sendable([f] + rest) && EncodeAll([f] + rest) + tail == Encode(f) + (EncodeAll(rest) + tail)
  {
    hide Encode;
    assert ([f] + rest)[1..] == rest;
  }

  lemma HonestIsOk(d: Decoder)
    requires Honest(d)
    ensures Ok(d)
  {
  }

  /** Decoding loses nothing: whatever bytes a decoder accepts, in whatever chunks, are exactly the
      encodings of the frames it produced followed by the bytes it still holds. */
  lemma {:induction false} ReceiveBack(d: Decoder, chunks: seq<seq<Byte>>)
    requires Honest(d) && Receive(d, chunks).Some?
    ensures
      var r := Receive(d, chunks).value;
      && Sendable(r.frames) && Honest(r.d)
      && d.bytes + Joined(chunks) == EncodeAll(r.frames) + r.d.bytes
    decreases |chunks|
  {
    hide Drain, EncodeAll;
    if chunks == [] {
      assert d.bytes + [] == d.bytes && EncodeAll([]) + d.bytes == d.bytes by { EncodesNone(); }
    } else {
      var d1 := AppendOf(d, chunks[0]).value;
      AppendHonest(d, chunks[0]);
      DrainBack(d1);
      var first := Drain(d1);
      ReceiveBack(first.d, chunks[1..]);
      var rest := Receive(first.d, chunks[1..]).value;
      EncodesJoin(first.frames, rest.frames);
      assert d.bytes + (chunks[0] + Joined(chunks[1..])) == d1.bytes + Joined(chunks[1..]);
      assert EncodeAll(first.frames) + (first.d.bytes + Joined(chunks[1..])) == d1.bytes + Joined(chunks[1..]);
      assert EncodeAll(first.frames) + (EncodeAll(rest.frames) + rest.d.bytes)
             == (EncodeAll(first.frames) + EncodeAll(rest.frames)) + rest.d.bytes;
    }
  }

  lemma EncodesNone()
    ensures EncodeAll([]) == []
  {
  }

  lemma AppendHonest(d: Decoder, chunk: seq<Byte>)
    requires Honest(d) && AppendOf(d, chunk).Some?
    ensures Honest(AppendOf(d, chunk).value)
  {
    hide Word32;
    if d.phase == PayloadPhase { assert (d.bytes + chunk)[8..12] == d.bytes[8..12]; }
  }

  lemma {:induction false} EncodesJoin(a: seq<Frame>, b: seq<Frame>)
    requires Sendable(a) && Sendable(b)
    ensures Sendable(a + b) && EncodeAll(a + b) == EncodeAll(a) + EncodeAll(b)
    decreases |a|
  {
    hide Encode;
    if a == [] {
      assert a + b == b;
    } else {
      assert (a + b)[1..] == a[1..] + b;
      EncodesJoin(a[1..], b);
    }
  }

  /** No two byte streams decode alike: the same frames and the same remainder mean the same bytes. */
  lemma DecodesApart(chunks: seq<seq<Byte>>, others: seq<seq<Byte>>)
    requires Receive(Fresh(), chunks).Some? && Receive(Fresh(), others).Some?
    requires
      var r, q := Receive(Fresh(), chunks).value, Receive(Fresh(), others).value;
      r.frames == q.frames && r.d.bytes == q.d.bytes
    ensures Joined(chunks) == Joined(others)
  {
    hide Receive;
    ReceiveBack(Fresh(), chunks);
    ReceiveBack(Fresh(), others);
    assert [] + Joined(chunks) == Joined(chunks) && [] + Joined(others) == Joined(others);
  }

  // ---------------------------------------------------------------- the decoder object

  class FrameDecoder {
    var bytes: seq<Byte>
    var payloadSize: nat
    var phase: Phase

    function State(): Decoder
      reads this
    {
      Decoder(bytes, payloadSize, phase)
    }

    constructor ()
      ensures State() == Fresh()
    {
      bytes, payloadSize, phase := [], 0, HeaderPhase;
    }

    method Append(chunk: seq<Byte>) returns (ok: bool)
      requires Ok(State())
      modifies this
      ensures ok == AppendOf(old(State()), chunk).Some? && Ok(State())
      ensures State() == if ok then AppendOf(old(State()), chunk).value else old(State())
    {
      if |chunk| > MAX_BUFFER - |bytes| { return false; }
      bytes := bytes + chunk;
      ok := true;
    }

    /** next, with its fallthrough from the header to the payload phase. */
    method Next() returns (r: NextResult)
      requires Ok(State())
      modifies this
      ensures r == NextOf(old(State())) && State() == r.d && Ok(State())
    {
      hide Word32, HeaderValid;
      if phase == HeaderPhase {
        if |bytes| < HEADER { return Waiting(State()); }
        if !HeaderValid(bytes) { return ParseError(State()); }
        payloadSize := Word32(bytes[8..12]);
        if payloadSize > MAX_PAYLOAD { return ParseError(State()); }
        phase := PayloadPhase;
      }
      var size := HEADER + payloadSize;
      if |bytes| < size { return Waiting(State()); }
      var frame := Frame(bytes[5], Word32(bytes[12..16]), bytes[HEADER..size]);
      bytes := bytes[size..];
      payloadSize := 0;
      phase := HeaderPhase;
      r := Produced(frame, State());
    }

    method Finish() returns (ok: bool)
      ensures ok == FinishOk(State())
    {
      ok := phase == HeaderPhase && bytes == [];
    }

    /** The caller's loop: next until it yields nothing. */
    method TakeAll() returns (frames: seq<Frame>, ok: bool)
      requires Ok(State())
      modifies this
      ensures Drained(frames, State(), ok) == Drain(old(State()))
    {
      hide NextOf, Drain, Ok;
      frames := [];
      ghost var start := State();
      NoFrames(Drain(start));
      while true
        invariant Ok(State())
        invariant Drain(start) == Prefixed(frames, Drain(State()))
        decreases |bytes|
      {
        DrainStep(State(), frames);
        var r := Next();
        match r
        case Waiting(_) => return frames, true;
        case ParseError(_) => return frames, false;
        case Produced(f, _) => frames := frames + [f];
      }
    }
  }
}
