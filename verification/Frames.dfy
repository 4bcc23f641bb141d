/** HTTP/2 frames and header blocks split over HEADERS and CONTINUATION frames (http2.go),
    sections 4.1, 6.2 and 6.10 of RFC 9113. */
module Frames {
  import opened Sequences
  import opened Bytes
  import opened Ints
  import opened Windows

  const HEADERS: byte := 1
  const CONTINUATION: byte := 9

  const END_STREAM := 0x1
  const END_HEADERS := 0x4
  const PADDED := 0x8
  const PRIORITY := 0x20

  const PROTOCOL_ERROR := 1
  const FRAME_SIZE_ERROR := 6
  const COMPRESSION_ERROR := 9
  const ENHANCE_YOUR_CALM := 11

  const STREAM_LIMIT := 0x8000_0000
  const MAX_CONTINUATIONS := 64

  datatype Frame = Frame(typ: byte, flags: byte, streamId: nat, payload: bytes)

  predicate Has(flags: byte, bit: nat)
    requires bit > 0
  {
    flags as int / bit % 2 == 1
  }

  // ---------------------------------------------------------------- one frame

  function U32(v: nat): (b: bytes)
    requires v < 0x1_0000_0000
    ensures |b| == 4
  {
    var a := v / 256;
    var b := a / 256;
    [(b / 256) as byte, (b % 256) as byte, (a % 256) as byte, (v % 256) as byte]
  }

  function ToU32(b: bytes): nat
    requires |b| == 4
  {
    b[0] as int * 0x100_0000 + b[1] as int * 0x1_0000 + b[2] as int * 256 + b[3] as int
  }

  lemma U32RoundTrip(v: nat)
    requires v < 0x1_0000_0000
    ensures ToU32(U32(v)) == v
  {
  }

  /** The 24-bit length field keeps the low 24 bits; the reserved stream bit is cleared. */
  function FrameHead(f: Frame): (b: bytes)
    ensures |b| == 9
  {
    var n := |f.payload|;
    [(n / 0x1_0000 % 256) as byte, (n / 256 % 256) as byte, (n % 256) as byte, f.typ, f.flags]
    + U32(f.streamId % STREAM_LIMIT)
  }

  function WriteFrame(f: Frame): bytes {
    FrameHead(f) + f.payload
  }

  datatype Read<W> = Closed | Oversized | Got(frame: Frame, rest: W)

  function LengthField(head: bytes): nat
    requires |head| >= 3
  {
    head[0] as int * 0x1_0000 + head[1] as int * 256 + head[2] as int
  }

  function ReadFrame(wire: bytes, localMax: nat): Read<bytes> {
    if |wire| < 9 then Closed
    else
      var n := LengthField(wire);
      if n > localMax then Oversized
      else if |wire| < 9 + n then Closed
      else Got(Frame(wire[3], wire[4], ToU32(wire[5..9]) % STREAM_LIMIT, wire[9..9 + n]), wire[9 + n..])
  }

  lemma LengthBytes(n: nat)
    ensures (n / 0x1_0000 % 256) * 0x1_0000 + (n / 256 % 256) * 256 + n % 256 == n % FRAME_LIMIT
  {
    var q, r := n / FRAME_LIMIT, n % FRAME_LIMIT;
    assert n / 0x1_0000 == q * 256 + r / 0x1_0000;
    assert n / 256 == q * 0x1_0000 + r / 256;
    assert r / 256 == r / 0x1_0000 * 256 + r / 256 % 256;
  }

  /** These nine bytes announce the frame. */
  predicate Announces(head: bytes, f: Frame) {
    && |head| == 9 && head[3] == f.typ && head[4] == f.flags && ToU32(head[5..9]) == f.streamId
    && LengthField(head) == |f.payload| % FRAME_LIMIT
  }

  lemma HeadAnnounces(f: Frame)
    requires f.streamId < STREAM_LIMIT
    ensures Announces(FrameHead(f), f)
  {
    assert FrameHead(f)[5..9] == U32(f.streamId);
    U32RoundTrip(f.streamId);
    LengthBytes(|f.payload|);
  }

  lemma ReadAnnounced(head: bytes, f: Frame, rest: bytes, localMax: nat)
    requires Announces(head, f) && f.streamId < STREAM_LIMIT && localMax < FRAME_LIMIT
    ensures ReadFrame(head + f.payload + rest, localMax) == Got(f, rest) <==> |f.payload| <= localMax
    ensures localMax < |f.payload| < FRAME_LIMIT ==> ReadFrame(head + f.payload + rest, localMax) == Oversized
  {
    var w := head + f.payload + rest;
    assert w[5..9] == head[5..9];
    if |f.payload| <= localMax {
      assert w[9..9 + |f.payload|] == f.payload;
      assert w[9 + |f.payload|..] == rest;
    }
  }

  /** A frame is read back, and exactly its bytes are consumed, if and only if it fits the
      receiver's limit. */
  lemma FrameRoundTrip(f: Frame, rest: bytes, localMax: nat)
    requires f.streamId < STREAM_LIMIT && localMax < FRAME_LIMIT
    ensures ReadFrame(WriteFrame(f) + rest, localMax) == Got(f, rest) <==> |f.payload| <= localMax
    ensures localMax < |f.payload| < FRAME_LIMIT ==> ReadFrame(WriteFrame(f) + rest, localMax) == Oversized
  {
    HeadAnnounces(f);
    ReadAnnounced(FrameHead(f), f, rest, localMax);
  }

  // ---------------------------------------------------------------- writing a header block

  function FragmentFlags(endStream: bool, last: bool): byte {
    if endStream then (if last then 5 else 1) else (if last then 4 else 0)
  }

  /** How many pieces of at most max bytes a non-empty string is cut into. */
  ghost function Pieces(n: nat, max: nat): nat
    requires max > 0
  {
    if n <= max then 1 else 1 + Pieces(n - max, max)
  }

  lemma {:induction false} PiecesWithin(n: nat, max: nat, k: nat)
    requires max > 0 && k > 0
    ensures Pieces(n, max) <= k <==> n <= k * max
    decreases n
  {
    if n > max {
      if k > 1 {
        PiecesWithin(n - max, max, k - 1);
        assert (k - 1) * max == k * max - max;
      }
    } else {
      assert k * max >= max;
    }
  }

  ghost predicate IsContinuation(f: Frame, id: nat, max: nat, last: bool) {
    && f.typ == CONTINUATION && f.streamId == id && 0 < |f.payload| <= max
    && !Has(f.flags, END_STREAM) && (Has(f.flags, END_HEADERS) <==> last)
  }

  /** The CONTINUATION frames of a non-empty remainder. */
  ghost function Continuations(id: nat, block: bytes, max: nat): (fs: seq<Frame>)
    requires max > 0 && |block| > 0
    ensures |fs| == Pieces(|block|, max)
    ensures forall i :: 0 <= i < |fs| ==> IsContinuation(fs[i], id, max, i == |fs| - 1)
  {
    if |block| <= max then [Frame(CONTINUATION, FragmentFlags(false, true), id, block)]
    else [Frame(CONTINUATION, FragmentFlags(false, false), id, block[..max])] + Continuations(id, block[max..], max)
  }

  ghost function HeaderFrames(id: nat, endStream: bool, block: bytes, max: nat): (fs: seq<Frame>)
    requires max > 0
    ensures |fs| > 0 && fs[0].typ == HEADERS && fs[0].streamId == id && |fs[0].payload| <= max
    ensures (Has(fs[0].flags, END_STREAM) <==> endStream) && (Has(fs[0].flags, END_HEADERS) <==> |fs| == 1)
    ensures forall i :: 1 <= i < |fs| ==> IsContinuation(fs[i], id, max, i == |fs| - 1)
  {
    if |block| <= max then [Frame(HEADERS, FragmentFlags(endStream, true), id, block)]
    else [Frame(HEADERS, FragmentFlags(endStream, false), id, block[..max])] + Continuations(id, block[max..], max)
  }

  ghost function WriteAll(fs: seq<Frame>): bytes {
    if |fs| == 0 then [] else WriteFrame(fs[0]) + WriteAll(fs[1..])
  }

  /** What is left to write when `rest` remains after the HEADERS frame. */
  ghost function Remaining(id: nat, rest: bytes, max: nat): seq<Frame>
    requires max > 0
  {
    if |rest| == 0 then [] else Continuations(id, rest, max)
  }

  lemma FirstFrame(id: nat, endStream: bool, block: bytes, max: nat)
    requires max > 0
    ensures var n := Min(|block|, max);
      HeaderFrames(id, endStream, block, max) == [Frame(HEADERS, FragmentFlags(endStream, n == |block|), id, block[..n])] + Remaining(id, block[n..], max)
  {
    if |block| <= max { assert block[..|block|] == block; }
  }

  lemma NextFrame(id: nat, block: bytes, max: nat)
    requires max > 0 && |block| > 0
    ensures var n := Min(|block|, max);
      Remaining(id, block, max) == [Frame(CONTINUATION, FragmentFlags(false, n == |block|), id, block[..n])] + Remaining(id, block[n..], max)
  {
    if |block| <= max { assert block[..|block|] == block; }
  }

  /** writeHeaderBlockLocked: the frames go out in this order while the block shrinks. */
  method WriteHeaderBlock(id: nat, flags: byte, block: bytes, max: nat) returns (frames: seq<Frame>)
    requires max > 0
    ensures frames == HeaderFrames(id, Has(flags, END_STREAM), block, max)
  {
    frames := [];
    var rest := block;
    var first := true;
    var endStream := Has(flags, END_STREAM);
    ghost var all := HeaderFrames(id, endStream, block, max);
    FirstFrame(id, endStream, block, max);
    while first || |rest| > 0
      invariant first ==> frames == [] && rest == block
      invariant !first ==> frames + Remaining(id, rest, max) == all
      decreases |rest|, first
    {
      if !first { NextFrame(id, rest, max); }
      var n := Min(|rest|, max);
      var part := rest[..n];
      ghost var sent := frames;
      rest := rest[n..];
      var typ, frameFlags := CONTINUATION, 0;
      if first { typ, frameFlags, first := HEADERS, if endStream then 1 else 0, false; }
      if |rest| == 0 { frameFlags := frameFlags + 4; }
      frames := frames + [Frame(typ, frameFlags, id, part)];
      Assoc(sent, [Frame(typ, frameFlags, id, part)], Remaining(id, rest, max));
    }
  }

  // ---------------------------------------------------------------- reading it back

  datatype Fragment = Reject(code: nat) | Fragment(text: bytes)

  /** headerFragment: strips padding and the priority fields. */
  function HeaderFragment(f: Frame): Fragment {
    var p := f.payload;
    if Has(f.flags, PADDED) && |p| == 0 then Reject(PROTOCOL_ERROR)
    else
      var pad := if Has(f.flags, PADDED) then p[0] as int else 0;
      var q := if Has(f.flags, PADDED) then p[1..] else p;
      if Has(f.flags, PRIORITY) && |q| < 5 then Reject(FRAME_SIZE_ERROR)
      else if Has(f.flags, PRIORITY) && ToU32(q[..4]) % STREAM_LIMIT == f.streamId then Reject(PROTOCOL_ERROR)
      else
        var r := if Has(f.flags, PRIORITY) then q[5..] else q;
        if pad > |r| then Reject(PROTOCOL_ERROR) else Fragment(r[..|r| - pad])
  }

  datatype Block<W> = Cut | Broken(code: nat) | Complete(block: bytes, endStream: bool, rest: W)

  /** The CONTINUATION loop of handleHeaders, reading frames from any source. */
  ghost function ReadContinuations<W>(read: W -> Read<W>, id: nat, endStream: bool, block: bytes, count: nat, wire: W, maxList: nat): Block<W>
    requires count <= MAX_CONTINUATIONS
    decreases MAX_CONTINUATIONS - count
  {
    if count == MAX_CONTINUATIONS then Broken(ENHANCE_YOUR_CALM)
    else
      match read(wire)
      case Closed => Cut
      case Oversized => Broken(FRAME_SIZE_ERROR)
      case Got(f, rest) =>
        if f.typ != CONTINUATION || f.streamId != id then Broken(PROTOCOL_ERROR)
        else if |block| + |f.payload| > maxList then Broken(COMPRESSION_ERROR)
        else if Has(f.flags, END_HEADERS) then Complete(block + f.payload, endStream, rest)
        else ReadContinuations(read, id, endStream, block + f.payload, count + 1, rest, maxList)
  }

  ghost function ReadHeaderBlock<W>(read: W -> Read<W>, f: Frame, wire: W, maxList: nat): Block<W> {
    if f.streamId == 0 then Broken(PROTOCOL_ERROR)
    else
      match HeaderFragment(f)
      case Reject(code) => Broken(code)
      case Fragment(text) =>
        if |text| > maxList then Broken(COMPRESSION_ERROR)
        else if Has(f.flags, END_HEADERS) then Complete(text, Has(f.flags, END_STREAM), wire)
        else ReadContinuations(read, f.streamId, Has(f.flags, END_STREAM), text, 0, wire, maxList)
  }

  method CollectHeaderBlock<W>(read: W -> Read<W>, f: Frame, input: W, maxList: nat) returns (r: Block<W>)
    ensures r == ReadHeaderBlock(read, f, input, maxList)
  {
    if f.streamId == 0 { return Broken(PROTOCOL_ERROR); }
    var fragment := HeaderFragment(f);
    if fragment.Reject? { return Broken(fragment.code); }
    var block, wire, count, done := fragment.text, input, 0, Has(f.flags, END_HEADERS);
    var endStream := Has(f.flags, END_STREAM);
    if |block| > maxList { return Broken(COMPRESSION_ERROR); }
    while !done
      invariant 0 <= count <= MAX_CONTINUATIONS
      invariant ReadHeaderBlock(read, f, input, maxList) ==
        if done then Complete(block, endStream, wire)
        else ReadContinuations(read, f.streamId, endStream, block, count, wire, maxList)
      decreases MAX_CONTINUATIONS - count
    {
      if count + 1 > MAX_CONTINUATIONS { return Broken(ENHANCE_YOUR_CALM); }
      var next := read(wire);
      match next {
        case Closed => return Cut;
        case Oversized => return Broken(FRAME_SIZE_ERROR);
        case Got(c, rest) =>
          if c.typ != CONTINUATION || c.streamId != f.streamId { return Broken(PROTOCOL_ERROR); }
          block := block + c.payload;
          if |block| > maxList { return Broken(COMPRESSION_ERROR); }
          // CONTINUATION contributes only END_HEADERS.
          done, wire := Has(c.flags, END_HEADERS), rest;
      }
      count := count + 1;
    }
    return Complete(block, endStream, wire);
  }

  /** The source yields exactly these frames and then stands at `after`. */
  ghost predicate Yields<W>(read: W -> Read<W>, wire: W, fs: seq<Frame>, after: W)
    decreases |fs|
  {
    if |fs| == 0 then wire == after
    else read(wire).Got? && read(wire).frame == fs[0] && Yields(read, read(wire).rest, fs[1..], after)
  }

  lemma {:induction false} ContinuationsReadBack<W>(read: W -> Read<W>, id: nat, endStream: bool, acc: bytes, count: nat,
                                                    block: bytes, max: nat, wire: W, after: W, maxList: nat)
    requires max > 0 && |block| > 0 && Yields(read, wire, Continuations(id, block, max), after)
    requires count <= MAX_CONTINUATIONS && |acc| <= maxList
    ensures var r := ReadContinuations(read, id, endStream, acc, count, wire, maxList);
      if |acc| + |block| <= maxList && count + Pieces(|block|, max) <= MAX_CONTINUATIONS
      then r == Complete(acc + block, endStream, after) else r.Broken?
    decreases |block|
  {
    var fs := Continuations(id, block, max);
    if |block| > max {
      assert fs[1..] == Continuations(id, block[max..], max);
      if count < MAX_CONTINUATIONS && |acc| + max <= maxList {
        ContinuationsReadBack(read, id, endStream, acc + block[..max], count + 1, block[max..], max, read(wire).rest, after, maxList);
        assert acc + block[..max] + block[max..] == acc + block;
      }
    }
  }

  /** readFrame on bytes. */
  function Reader(localMax: nat): bytes -> Read<bytes> {
    w => ReadFrame(w, localMax)
  }

  lemma {:induction false} WireYields(fs: seq<Frame>, rest: bytes, localMax: nat)
    requires localMax < FRAME_LIMIT
    requires forall i :: 0 <= i < |fs| ==> fs[i].streamId < STREAM_LIMIT && |fs[i].payload| <= localMax
    ensures Yields(Reader(localMax), WriteAll(fs) + rest, fs, rest)
    decreases |fs|
  {
    if |fs| == 0 {
      assert WriteAll(fs) + rest == rest;
    } else {
      WireYields(fs[1..], rest, localMax);
      Assoc(WriteFrame(fs[0]), WriteAll(fs[1..]), rest);
      FrameRoundTrip(fs[0], WriteAll(fs[1..]) + rest, localMax);
    }
  }

  /** Reads a first frame and then its block, from bytes. */
  ghost function ReceiveBlock(wire: bytes, localMax: nat, maxList: nat): Block<bytes> {
    match Reader(localMax)(wire)
    case Closed => Cut
    case Oversized => Broken(FRAME_SIZE_ERROR)
    case Got(f, rest) => ReadHeaderBlock(Reader(localMax), f, rest, maxList)
  }

  /** A frame as it is written carries no padding and no priority fields. */
  lemma PlainFragment(f: Frame, endStream: bool, last: bool)
    requires f.flags == FragmentFlags(endStream, last)
    ensures HeaderFragment(f) == Fragment(f.payload)
    ensures Has(f.flags, END_STREAM) == endStream && Has(f.flags, END_HEADERS) == last
  {
    assert f.payload[..|f.payload| - 0] == f.payload;
  }

  ghost predicate ReadsBack<W>(r: Block<W>, endStream: bool, block: bytes, max: nat, after: W, maxList: nat) {
    if |block| <= maxList && |block| <= (MAX_CONTINUATIONS + 1) * max
    then r == Complete(block, endStream, after) else r.Broken?
  }

  lemma LongBlockReadBack<W>(read: W -> Read<W>, f: Frame, endStream: bool, block: bytes, max: nat, wire: W, after: W, maxList: nat)
    requires 0 < f.streamId && 0 < max < |block|
    requires f.flags == FragmentFlags(endStream, false) && f.payload == block[..max]
    requires Yields(read, wire, Continuations(f.streamId, block[max..], max), after)
    ensures ReadsBack(ReadHeaderBlock(read, f, wire, maxList), endStream, block, max, after, maxList)
  {
    PlainFragment(f, endStream, false);
    PiecesWithin(|block| - max, max, MAX_CONTINUATIONS);
    if max <= maxList {
      ContinuationsReadBack(read, f.streamId, endStream, block[..max], 0, block[max..], max, wire, after, maxList);
      assert block[..max] + block[max..] == block;
    }
  }

  lemma BlockReadBack<W>(read: W -> Read<W>, id: nat, endStream: bool, block: bytes, max: nat, wire: W, after: W, maxList: nat)
    requires 0 < id && max > 0
    requires Yields(read, wire, HeaderFrames(id, endStream, block, max)[1..], after)
    ensures ReadsBack(ReadHeaderBlock(read, HeaderFrames(id, endStream, block, max)[0], wire, maxList), endStream, block, max, after, maxList)
  {
    var fs := HeaderFrames(id, endStream, block, max);
    if |block| <= max {
      PlainFragment(fs[0], endStream, true);
    } else {
      assert fs[1..] == Continuations(id, block[max..], max);
      LongBlockReadBack(read, fs[0], endStream, block, max, wire, after, maxList);
    }
  }

  /** The frames written for a block, read from the wire, give back block and END_STREAM and
      consume exactly their bytes, if and only if the largest frame, the block and the number
      of CONTINUATION frames are within the receiver's limits. */
  lemma {:induction false} HeaderBlockRoundTrip(id: nat, endStream: bool, block: bytes, max: nat, rest: bytes, localMax: nat, maxList: nat)
    requires 0 < id < STREAM_LIMIT && DEFAULT_FRAME <= max < FRAME_LIMIT && localMax < FRAME_LIMIT
    ensures ReceiveBlock(WriteAll(HeaderFrames(id, endStream, block, max)) + rest, localMax, maxList) == Complete(block, endStream, rest)
            <==> Min(|block|, max) <= localMax && |block| <= maxList && |block| <= (MAX_CONTINUATIONS + 1) * max
  {
    var fs := HeaderFrames(id, endStream, block, max);
    if Min(|block|, max) > localMax {
      Assoc(WriteFrame(fs[0]), WriteAll(fs[1..]), rest);
      FrameRoundTrip(fs[0], WriteAll(fs[1..]) + rest, localMax);
    } else {
      WireYields(fs, rest, localMax);
      BlockReadBack(Reader(localMax), id, endStream, block, max, Reader(localMax)(WriteAll(fs) + rest).rest, rest, maxList);
    }
  }
}
