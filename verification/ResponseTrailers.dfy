/** A response with trailers is a chunked message that decodes to the body and the trailers. */
module ResponseTrailers {
  import opened Sequences
  import opened Bytes
  import opened Options
  import C = Chunked
  import G = ChunkedGrammar
  import Hex
  import R = Responses

  /** The trailer as a line of the grammar. */
  function LineOf(h: Header): G.TrailerLine {
    G.TrailerLine(h.key, [SP], h.value, [])
  }

  function LinesOf(hs: seq<Header>): seq<G.TrailerLine> {
    seq(|hs|, i requires 0 <= i < |hs| => LineOf(hs[i]))
  }

  function MessageOf(body: bytes, ts: seq<Header>): G.Message {
    G.Message(if body == [] then [] else [G.Chunk(Hex.Numeral(|body|), [], [], body)], G.Chunk([48], [], [], []), LinesOf(ts))
  }

  lemma LineIsTrailer(h: Header, rest: bytes)
    ensures R.HeaderLine(h) + rest == G.FieldLine(LineOf(h)) + CRLF + rest
  {
    assert [SP] + h.value + [] == [SP] + h.value;
    assert h.key + [COLON, SP] == h.key + [COLON] + [SP];
    assert h.key + [COLON] + ([SP] + h.value) == h.key + [COLON, SP] + h.value;
  }

  lemma {:induction false} LinesAreTrailers(ts: seq<Header>, rest: bytes)
    ensures R.HeaderLines(ts) + (CRLF + rest) == G.PrintTrailers(LinesOf(ts), rest)
    decreases |ts|
  {
    if |ts| == 0 {
      assert R.HeaderLines(ts) + (CRLF + rest) == CRLF + rest;
    } else {
      FirstLine(ts);
      LinesAreTrailers(ts[1..], rest);
      var ls := LinesOf(ts);
      assert ls[1..] == LinesOf(ts[1..]) && ls[0] == LineOf(ts[0]);
      Assoc(R.HeaderLine(ts[0]), R.HeaderLines(ts[1..]), CRLF + rest);
      LineIsTrailer(ts[0], G.PrintTrailers(ls[1..], rest));
    }
  }

  /** The lines may also be taken from the front. */
  lemma {:induction false} FirstLine(ts: seq<Header>)
    requires |ts| > 0
    ensures R.HeaderLines(ts) == R.HeaderLine(ts[0]) + R.HeaderLines(ts[1..])
    decreases |ts|
  {
    var n := |ts| - 1;
    if n == 0 {
      assert R.HeaderLines(ts[..0]) == [] && ts[1..] == [];
    } else {
      FirstLine(ts[..n]);
      assert ts[..n][1..] == ts[1..][..n - 1] && ts[1..][n - 1] == ts[n];
      var a, b, c := R.HeaderLine(ts[0]), R.HeaderLines(ts[1..][..n - 1]), R.HeaderLine(ts[n]);
      assert a + b + c == a + (b + c);
    }
  }

  lemma ZeroLine(c: G.Chunk, tail: bytes)
    requires c == G.Chunk([48], [], [], [])
    ensures Ascii("0\r\n") + tail == G.SizeLine(c) + CRLF + tail
  {
    assert G.SizeLine(c) == [48];
    assert Ascii("0\r\n") == [48] + CRLF;
  }

  lemma EndOfMessage(c: G.Chunk, ts: seq<Header>)
    requires c == G.Chunk([48], [], [], [])
    ensures Ascii("0\r\n") + R.HeaderLines(ts) + CRLF == G.SizeLine(c) + CRLF + G.PrintTrailers(LinesOf(ts), [])
  {
    LinesAreTrailers(ts, []);
    assert CRLF + [] == CRLF;
    Assoc(Ascii("0\r\n"), R.HeaderLines(ts), CRLF);
    ZeroLine(c, R.HeaderLines(ts) + CRLF);
  }

  lemma OneChunk(hex: bytes, body: bytes, last: bytes)
    ensures hex + CRLF + body + CRLF + last == G.PrintChunks([G.Chunk(hex, [], [], body)], last)
  {
    var c := G.Chunk(hex, [], [], body);
    assert G.SizeLine(c) == hex;
    assert [c][1..] == [];
    assert G.PrintChunks([], last) == last;
    var a := hex + CRLF;
    assert a + body + CRLF + last == a + (body + (CRLF + last));
  }

  lemma ContentIsMessage(body: bytes, ts: seq<Header>)
    ensures R.ChunkedContent(body, ts) == G.Print(MessageOf(body, ts), [])
  {
    var m := MessageOf(body, ts);
    EndOfMessage(m.last, ts);
    var end := G.SizeLine(m.last) + CRLF + G.PrintTrailers(m.trailers, []);
    if body == [] {
      assert [] + end == end;
    } else {
      OneChunk(Hex.Numeral(|body|), body, end);
    }
  }

  lemma ContentReadsBack(d: C.Dialect, body: bytes, ts: seq<Header>)
    requires C.HexSize(Hex.Numeral(|body|)) == Some(|body|) && |Hex.Numeral(|body|)| < C.MAX_LINE
    requires |ts| <= C.MAX_TRAILERS && forall i :: 0 <= i < |ts| ==> G.TrailerOk(LineOf(ts[i]))
    ensures C.Decode(d, |body|, C.Granted, R.ChunkedContent(body, ts)) == C.Success(body, G.HeadersOf(LinesOf(ts)), [])
  {
    var m := MessageOf(body, ts);
    C.ZeroDigit();
    ContentIsMessage(body, ts);
    assert G.MessageOk(m);
    G.DecodersAgree(d, |body|, C.Granted, m, []);
    ConcatIsBody(m.chunks, body);
  }

  lemma {:induction false} AllHeadersBack(ts: seq<Header>)
    ensures G.HeadersOf(LinesOf(ts)) == ts
    decreases |ts|
  {
    if |ts| > 0 {
      assert LinesOf(ts)[1..] == LinesOf(ts[1..]);
      AllHeadersBack(ts[1..]);
      assert [ts[0]] + ts[1..] == ts;
    }
  }

  /** For every body and every list of valid trailers, the chunked content decodes to them. */
  lemma TrailersReadBack(d: C.Dialect, body: bytes, ts: seq<Header>)
    requires |body| <= MAX_INT && |ts| <= C.MAX_TRAILERS && forall i :: 0 <= i < |ts| ==> G.TrailerOk(LineOf(ts[i]))
    ensures C.Decode(d, |body|, C.Granted, R.ChunkedContent(body, ts)) == C.Success(body, ts, [])
  {
    Hex.HexReadsBack(|body|);
    ContentReadsBack(d, body, ts);
    AllHeadersBack(ts);
  }

  lemma ConcatIsBody(cs: seq<G.Chunk>, body: bytes)
    requires if body == [] then cs == [] else |cs| == 1 && cs[0].data == body
    ensures G.Concat(cs) == body && [] + G.Concat(cs) == body
  {
    if |cs| == 1 { assert cs[1..] == []; }
  }
}
