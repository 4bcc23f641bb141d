/** Every message of the chunked grammar is decoded to its content, alike by both decoders. */
module ChunkedGrammar {
  import opened Bytes
  import opened Options
  import opened Text
  import opened Chunked

  /** A chunk as it may be written: any numeral for its size, padding, and an extension. */
  datatype Chunk = Chunk(hex: bytes, pad: bytes, ext: bytes, data: bytes)

  /** A trailer line with padding around its value. */
  datatype TrailerLine = TrailerLine(name: bytes, lead: bytes, value: bytes, tail: bytes)

  function SizeLine(c: Chunk): bytes {
    c.hex + c.pad + c.ext
  }

  predicate SizeLineOk(c: Chunk) {
    && HexSize(c.hex) == Some(|c.data|) && AllOWS(c.pad)
    && (c.ext == [] || c.ext[0] == SEMICOLON) && LF !in c.ext
    && |SizeLine(c)| < MAX_LINE
  }

  function FieldLine(t: TrailerLine): bytes {
    t.name + [COLON] + (t.lead + t.value + t.tail)
  }

  predicate TrailerOk(t: TrailerLine) {
    && ValidToken(t.name) && !FramingName(t.name)
    && AllOWS(t.lead) && AllOWS(t.tail) && Bare(t.value) && !HasControl(t.value)
    && |FieldLine(t)| < MAX_LINE
  }

  /** A message: its data chunks, the line of the last chunk, its trailers. */
  datatype Message = Message(chunks: seq<Chunk>, last: Chunk, trailers: seq<TrailerLine>)

  predicate MessageOk(m: Message) {
    && (forall i :: 0 <= i < |m.chunks| ==> SizeLineOk(m.chunks[i]) && |m.chunks[i].data| > 0)
    && SizeLineOk(m.last) && m.last.data == []
    && (forall i :: 0 <= i < |m.trailers| ==> TrailerOk(m.trailers[i])) && |m.trailers| <= MAX_TRAILERS
  }

  /** The printed message followed by `rest`. */
  function PrintTrailers(ts: seq<TrailerLine>, rest: bytes): bytes {
    if |ts| == 0 then CRLF + rest else FieldLine(ts[0]) + CRLF + PrintTrailers(ts[1..], rest)
  }

  function PrintChunks(cs: seq<Chunk>, rest: bytes): bytes {
    if |cs| == 0 then rest
    else SizeLine(cs[0]) + CRLF + (cs[0].data + (CRLF + PrintChunks(cs[1..], rest)))
  }

  function Print(m: Message, rest: bytes): bytes {
    PrintChunks(m.chunks, SizeLine(m.last) + CRLF + PrintTrailers(m.trailers, rest))
  }

  function Concat(cs: seq<Chunk>): bytes {
    if |cs| == 0 then [] else cs[0].data + Concat(cs[1..])
  }

  function HeadersOf(ts: seq<TrailerLine>): seq<Header> {
    if |ts| == 0 then [] else [Header(ts[0].name, ts[0].value)] + HeadersOf(ts[1..])
  }

  // ---------------------------------------------------------------- single lines

  lemma HexIsPlain(b: bytes)
    requires HexSize(b).Some?
    ensures Bare(b) && LF !in b && SEMICOLON !in b && SignedSize(b) == HexSize(b)
  {
  }

  lemma SizeLineHasNoLF(c: Chunk)
    requires SizeLineOk(c)
    ensures LF !in SizeLine(c)
  {
    HexIsPlain(c.hex);
  }

  lemma PaddedHexTrims(hex: bytes, pad: bytes)
    requires HexSize(hex).Some? && AllOWS(pad)
    ensures TrimOWS(hex + pad) == hex && TrimSpace(hex + pad) == hex && SEMICOLON !in hex + pad
  {
    HexIsPlain(hex);
    assert [] + hex + pad == hex + pad;
    TrimPadded([], hex, pad, true);
    TrimSpacePadded([], hex, pad);
  }

  lemma ExtensionIsCut(text: bytes, ext: bytes)
    requires SEMICOLON !in text && (ext == [] || ext[0] == SEMICOLON)
    ensures var line := text + ext; var semi := IndexOf(line, SEMICOLON); (if semi >= 0 then line[..semi] else line) == text
  {
    var line := text + ext;
    if ext == [] {
      assert line == text;
    } else {
      assert line[..|text|] == text && line[|text|] == SEMICOLON;
      IndexIs(line, SEMICOLON, |text|);
    }
  }

  lemma SizeReads(d: Dialect, c: Chunk)
    requires SizeLineOk(c)
    ensures SizeOf(d, SizeLine(c)) == Some(|c.data|)
  {
    var line, text := SizeLine(c), c.hex + c.pad;
    PaddedHexTrims(c.hex, c.pad);
    HexIsPlain(c.hex);
    ExtensionIsCut(text, c.ext);
  }

  lemma TokenIsPlain(b: bytes)
    requires ValidToken(b)
    ensures COLON !in b && LF !in b
  {
  }

  lemma FieldLineHasNoLF(t: TrailerLine)
    requires TrailerOk(t)
    ensures LF !in FieldLine(t) && FieldLine(t) != []
  {
    TokenIsPlain(t.name);
    assert forall i :: 0 <= i < |t.value| ==> t.value[i] != LF;
  }

  lemma NameIsCut(name: bytes, v: bytes, line: bytes)
    requires COLON !in name && line == name + [COLON] + v
    ensures IndexOf(line, COLON) == |name| && line[..|name|] == name && line[|name| + 1..] == v
  {
    assert line[..|name|] == name && line[|name|] == COLON && line[|name| + 1..] == v;
    IndexIs(line, COLON, |name|);
  }

  lemma TrailerReads(d: Dialect, t: TrailerLine, count: nat)
    requires TrailerOk(t) && count < MAX_TRAILERS
    ensures TrailerOf(d, FieldLine(t), count) == Field(Header(t.name, t.value))
  {
    var line, v := FieldLine(t), t.lead + t.value + t.tail;
    TokenIsPlain(t.name);
    NameIsCut(t.name, v, line);
    if d == Batch {
      TrimPadded(t.lead, t.value, t.tail, true);
    } else {
      TrimSpacePadded(t.lead, t.value, t.tail);
    }
  }

  // ---------------------------------------------------------------- whole messages

  ghost predicate ReadsLine(y: Syntax, text: bytes, rest: bytes) {
    y.line(text + CRLF + rest) == Line(text, rest)
  }

  ghost predicate ReadsSize(y: Syntax, c: Chunk) {
    y.size(SizeLine(c)) == Some(|c.data|)
  }

  ghost predicate ReadsTrailer(y: Syntax, t: TrailerLine, count: nat) {
    y.trailer(FieldLine(t), count) == Field(Header(t.name, t.value))
  }

  /** The syntax reads the lines of the grammar as they are meant. */
  ghost predicate Understands(y: Syntax) {
    && Consumes(y)
    && (forall text, rest :: LF !in text && |text| < MAX_LINE ==> ReadsLine(y, text, rest))
    && (forall c :: SizeLineOk(c) ==> ReadsSize(y, c))
    && (forall t, count: nat :: TrailerOk(t) && count < MAX_TRAILERS ==> ReadsTrailer(y, t, count))
  }

  lemma BothUnderstand(d: Dialect)
    ensures Understands(SyntaxOf(d))
  {
    var y := SyntaxOf(d);
    forall text, rest | LF !in text && |text| < MAX_LINE ensures ReadsLine(y, text, rest) { LineReads(d, text, rest); }
    forall c | SizeLineOk(c) ensures ReadsSize(y, c) { SizeReads(d, c); }
    forall t, count: nat | TrailerOk(t) && count < MAX_TRAILERS ensures ReadsTrailer(y, t, count) { TrailerReads(d, t, count); }
  }

  /** A trailer line is read and the rest goes on with it. */
  ghost predicate TrailerStep(y: Syntax, body: bytes, t: TrailerLine, done: seq<Header>, w: bytes)
    requires Consumes(y)
  {
    Trailers(y, body, done, FieldLine(t) + CRLF + w) == Trailers(y, body, done + [Header(t.name, t.value)], w)
  }

  lemma OneTrailerReads(y: Syntax, body: bytes, done: seq<Header>, t: TrailerLine, w: bytes)
    requires Understands(y) && TrailerOk(t) && |done| < MAX_TRAILERS
    ensures TrailerStep(y, body, t, done, w)
  {
    FieldLineHasNoLF(t);
    assert ReadsTrailer(y, t, |done|) && ReadsLine(y, FieldLine(t), w);
  }

  lemma NoTrailers(y: Syntax, body: bytes, done: seq<Header>, rest: bytes)
    requires Understands(y)
    ensures Trailers(y, body, done, CRLF + rest) == Success(body, done, rest)
  {
    assert ReadsLine(y, [], rest);
    assert [] + CRLF + rest == CRLF + rest;
  }

  lemma {:induction false} TrailersReadBy(y: Syntax, body: bytes, done: seq<Header>, ts: seq<TrailerLine>, rest: bytes)
    requires Consumes(y) && |done| + |ts| <= MAX_TRAILERS
    requires forall done :: Trailers(y, body, done, CRLF + rest) == Success(body, done, rest)
    requires forall i, done, w :: 0 <= i < |ts| && |done| < MAX_TRAILERS ==> TrailerStep(y, body, ts[i], done, w)
    ensures Trailers(y, body, done, PrintTrailers(ts, rest)) == Success(body, done + HeadersOf(ts), rest)
    decreases |ts|
  {
    if |ts| == 0 {
      assert done + HeadersOf(ts) == done;
    } else {
      var h, w := Header(ts[0].name, ts[0].value), PrintTrailers(ts[1..], rest);
      assert TrailerStep(y, body, ts[0], done, w);
      TrailersReadBy(y, body, done + [h], ts[1..], rest);
      assert done + [h] + HeadersOf(ts[1..]) == done + HeadersOf(ts);
    }
  }

  lemma TrailersRead(y: Syntax, body: bytes, ts: seq<TrailerLine>, rest: bytes)
    requires Understands(y) && (forall i :: 0 <= i < |ts| ==> TrailerOk(ts[i])) && |ts| <= MAX_TRAILERS
    ensures Trailers(y, body, [], PrintTrailers(ts, rest)) == Success(body, HeadersOf(ts), rest)
  {
    forall done ensures Trailers(y, body, done, CRLF + rest) == Success(body, done, rest) { NoTrailers(y, body, done, rest); }
    forall i, done, w | 0 <= i < |ts| && |done| < MAX_TRAILERS ensures TrailerStep(y, body, ts[i], done, w) {
      OneTrailerReads(y, body, done, ts[i], w);
    }
    TrailersReadBy(y, body, [], ts, rest);
    assert [] + HeadersOf(ts) == HeadersOf(ts);
  }

  /** A chunk's data and the CR LF after it. */
  lemma DataReads(y: Syntax, max: nat, grants: nat -> bool, k: nat, body: bytes, data: bytes, rest: bytes)
    requires Consumes(y)
    ensures ChunkData(y, max, grants, k, body, |data|, data + (CRLF + rest)) == Chunks(y, max, grants, k, body + data, rest)
  {
    var w := data + (CRLF + rest);
    assert w[..|data|] == data && w[|data|..] == CRLF + rest;
    assert (CRLF + rest)[0] == CR && (CRLF + rest)[1] == LF && (CRLF + rest)[2..] == rest;
  }

  /** A line that announces n > 0 bytes. */
  lemma SizeLineReads(y: Syntax, max: nat, grants: nat -> bool, k: nat, body: bytes, c: Chunk, w: bytes)
    requires Understands(y) && SizeLineOk(c) && |c.data| > 0 && grants(k)
    ensures Chunks(y, max, grants, k, body, SizeLine(c) + CRLF + w) ==
      if |body| + |c.data| <= max then ChunkData(y, max, grants, k + 1, body, |c.data|, w) else Failure(TooLarge)
  {
    SizeLineHasNoLF(c);
    assert ReadsLine(y, SizeLine(c), w) && ReadsSize(y, c);
  }

  lemma LastLineReads(y: Syntax, max: nat, grants: nat -> bool, k: nat, body: bytes, c: Chunk, w: bytes)
    requires Understands(y) && SizeLineOk(c) && c.data == []
    ensures Chunks(y, max, grants, k, body, SizeLine(c) + CRLF + w) == Trailers(y, body, [], w)
  {
    SizeLineHasNoLF(c);
    assert ReadsLine(y, SizeLine(c), w) && ReadsSize(y, c);
  }

  /** What decoding must yield: the content, or a refusal when it exceeds the limit. */
  function Expected(max: nat, body: bytes, m: Message, rest: bytes): Result {
    if |body| + |Concat(m.chunks)| <= max then Success(body + Concat(m.chunks), HeadersOf(m.trailers), rest) else Failure(TooLarge)
  }

  lemma {:induction false} MessageReads(y: Syntax, max: nat, grants: nat -> bool, k: nat, body: bytes, m: Message, rest: bytes)
    requires Understands(y) && MessageOk(m) && |body| <= max && forall i :: grants(i)
    ensures Chunks(y, max, grants, k, body, Print(m, rest)) == Expected(max, body, m, rest)
    decreases |m.chunks|
  {
    if |m.chunks| == 0 {
      LastLineReads(y, max, grants, k, body, m.last, PrintTrailers(m.trailers, rest));
      TrailersRead(y, body, m.trailers, rest);
      assert body + Concat(m.chunks) == body;
    } else {
      var c, tail := m.chunks[0], Message(m.chunks[1..], m.last, m.trailers);
      var w1 := Print(tail, rest);
      FirstChunkReads(y, max, grants, k, body, c, w1);
      ExpectedStep(max, body, m, rest);
      if |body| + |c.data| <= max { MessageReads(y, max, grants, k + 1, body + c.data, tail, rest); }
    }
  }

  lemma FirstChunkReads(y: Syntax, max: nat, grants: nat -> bool, k: nat, body: bytes, c: Chunk, w: bytes)
    requires Understands(y) && SizeLineOk(c) && |c.data| > 0 && grants(k)
    ensures Chunks(y, max, grants, k, body, SizeLine(c) + CRLF + (c.data + (CRLF + w))) ==
      if |body| + |c.data| <= max then Chunks(y, max, grants, k + 1, body + c.data, w) else Failure(TooLarge)
  {
    SizeLineReads(y, max, grants, k, body, c, c.data + (CRLF + w));
    DataReads(y, max, grants, k + 1, body, c.data, w);
  }

  lemma ExpectedStep(max: nat, body: bytes, m: Message, rest: bytes)
    requires |m.chunks| > 0
    ensures var c, tail := m.chunks[0], Message(m.chunks[1..], m.last, m.trailers);
      Expected(max, body, m, rest) == if |body| + |c.data| <= max then Expected(max, body + c.data, tail, rest) else Failure(TooLarge)
  {
    var c, tail := m.chunks[0], Message(m.chunks[1..], m.last, m.trailers);
    assert body + c.data + Concat(tail.chunks) == body + Concat(m.chunks);
  }

  /** Each decoder gives every message of the grammar its content, its trailers and what follows
      it; so the two agree. */
  lemma DecodersAgree(d: Dialect, max: nat, grants: nat -> bool, m: Message, rest: bytes)
    requires MessageOk(m) && forall i :: grants(i)
    ensures Decode(d, max, grants, Print(m, rest)) == Expected(max, [], m, rest)
  {
    BothUnderstand(d);
    MessageReads(SyntaxOf(d), max, grants, 0, [], m, rest);
  }

  // ---------------------------------------------------------------- the limit

  lemma {:induction false} TrailersKeepBody(y: Syntax, body: bytes, trailers: seq<Header>, w: bytes)
    requires Consumes(y)
    ensures var r := Trailers(y, body, trailers, w); r.Success? ==> r.body == body
    decreases |w|
  {
    var l := y.line(w);
    if l.Line? && l.text != [] {
      var f := y.trailer(l.text, |trailers|);
      if f.Field? { TrailersKeepBody(y, body, trailers + [f.h], l.rest); }
    }
  }

  /** No input makes a decoder deliver more than the limit. */
  lemma {:induction false} BodyWithinLimit(y: Syntax, max: nat, grants: nat -> bool, k: nat, body: bytes, w: bytes)
    requires Consumes(y) && |body| <= max
    ensures var r := Chunks(y, max, grants, k, body, w); r.Success? ==> |r.body| <= max
    decreases |w|
  {
    var l := y.line(w);
    if l.Line? && y.size(l.text).Some? {
      var n := y.size(l.text).value;
      if n == 0 {
        TrailersKeepBody(y, body, [], l.rest);
      } else if n <= max - |body| && grants(k) && |l.rest| >= n {
        var body', w' := body + l.rest[..n], l.rest[n..];
        assert Chunks(y, max, grants, k, body, w) == ChunkEnd(y, max, grants, k + 1, body', w');
        if |w'| >= 2 { BodyWithinLimit(y, max, grants, k + 1, body', w'[2..]); }
      } else {
        assert n > max - |body| || !grants(k) || ChunkData(y, max, grants, k + 1, body, n, l.rest) == Failure(Eof);
      }
    }
  }

  // ---------------------------------------------------------------- what follows

  ghost predicate LeavesSuffix(y: Syntax, w: bytes) {
    y.line(w).Line? ==> IsSuffix(y.line(w).rest, w)
  }

  lemma LinesLeaveSuffix(d: Dialect, w: bytes)
    ensures LeavesSuffix(SyntaxOf(d), w)
  {
    if d == Batch {
      var i := CrlfFrom(w, 0);
      if i >= 0 { DropIsSuffix(w, i + 2); }
    } else {
      var j := IndexOf(w, LF);
      if j >= 0 { DropIsSuffix(w, j + 1); }
    }
  }

  lemma {:induction false} TrailersLeaveSuffix(y: Syntax, body: bytes, trailers: seq<Header>, w: bytes)
    requires Consumes(y) && forall w :: LeavesSuffix(y, w)
    ensures var r := Trailers(y, body, trailers, w); r.Success? ==> IsSuffix(r.rest, w)
    decreases |w|
  {
    assert LeavesSuffix(y, w);
    var l := y.line(w);
    if l.Line? && l.text != [] {
      var f := y.trailer(l.text, |trailers|);
      if f.Field? {
        TrailersLeaveSuffix(y, body, trailers + [f.h], l.rest);
        var r := Trailers(y, body, trailers + [f.h], l.rest);
        if r.Success? { SuffixOfSuffix(r.rest, l.rest, w); }
      }
    }
  }

  lemma {:induction false} ChunksLeaveSuffix(y: Syntax, max: nat, grants: nat -> bool, k: nat, body: bytes, w: bytes)
    requires Consumes(y) && forall w :: LeavesSuffix(y, w)
    ensures var r := Chunks(y, max, grants, k, body, w); r.Success? ==> IsSuffix(r.rest, w)
    decreases |w|
  {
    assert LeavesSuffix(y, w);
    var l, r := y.line(w), Chunks(y, max, grants, k, body, w);
    if r.Success? {
      var n := y.size(l.text).value;
      if n == 0 {
        TrailersLeaveSuffix(y, body, [], l.rest);
      } else {
        assert r == ChunkData(y, max, grants, k + 1, body, n, l.rest);
        var w1 := l.rest[n..];
        assert r == ChunkEnd(y, max, grants, k + 1, body + l.rest[..n], w1);
        ChunksLeaveSuffix(y, max, grants, k + 1, body + l.rest[..n], w1[2..]);
        DropIsSuffix(w1, 2);
        DropIsSuffix(l.rest, n);
        SuffixOfSuffix(r.rest, w1[2..], w1);
        SuffixOfSuffix(r.rest, w1, l.rest);
      }
      SuffixOfSuffix(r.rest, l.rest, w);
    }
  }

  /** What a decoder leaves is the end of what it was given: nothing is dropped or repeated. */
  lemma DecodeLeavesSuffix(d: Dialect, max: nat, grants: nat -> bool, w: bytes)
    ensures var r := Decode(d, max, grants, w); r.Success? ==> IsSuffix(r.rest, w)
  {
    forall w ensures LeavesSuffix(SyntaxOf(d), w) { LinesLeaveSuffix(d, w); }
    ChunksLeaveSuffix(SyntaxOf(d), max, grants, 0, [], w);
  }
}
