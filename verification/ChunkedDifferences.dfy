/** Where the two chunked decoders differ: line by line exactly when, and an input for each way. */
module ChunkedDifferences {
  import opened Bytes
  import opened Options
  import opened Text
  import opened Chunked
  import G = ChunkedGrammar

  // ---------------------------------------------------------------- lines

  /** The decoders read the next line alike exactly when its first LF is within the limit and ends a
      CR LF, or there is none, or it is beyond the limit and no CR LF comes at all. */
  lemma LinesAgreeIff(w: bytes)
    ensures var j := IndexOf(w, LF);
      ReadLine(Batch, w) == ReadLine(Streaming, w) <==>
        j < 0 || (if j <= MAX_LINE then j >= 1 && w[j - 1] == CR else CrlfFrom(w, 0) < 0)
  {
    var i, j := CrlfFrom(w, 0), IndexOf(w, LF);
    if i >= 0 { assert w[i + 1] == LF && i + 1 >= j >= 0; }
    if j >= 1 && w[j - 1] == CR { assert i == j - 1; }
  }

  // ---------------------------------------------------------------- sizes

  /** The part of a size line in front of an extension. */
  function SizeText(line: bytes): bytes {
    var semi := IndexOf(line, SEMICOLON);
    if semi >= 0 then line[..semi] else line
  }

  /** A hexadecimal numeral of a 64-bit signed integer. */
  predicate Unsigned(b: bytes) {
    |b| > 0 && AllHex(b) && HexValue(b) <= MAX_INT
  }

  /** A numeral after a plus, or zeros after a minus. */
  predicate Signed(b: bytes) {
    |b| > 0 && (b[0] == 43 || b[0] == 45) && Unsigned(b[1..]) && (b[0] == 45 ==> HexValue(b[1..]) == 0)
  }

  /** They read a size alike exactly when the text without spaces and tabs around it is bare and not a
      signed numeral, or is not bare and, without any white space around it, no numeral at all. */
  lemma SizeLinesAgreeIff(line: bytes)
    ensures var t := SizeText(line);
      SizeOf(Batch, line) == SizeOf(Streaming, line) <==>
        if Bare(TrimOWS(t)) then !Signed(TrimOWS(t)) else !Unsigned(TrimSpace(t)) && !Signed(TrimSpace(t))
  {
    var t := SizeText(line);
    TrimsAgreeIff(t);
    SizesAgreeIff(TrimOWS(t));
    SizesAgreeIff(TrimSpace(t));
    if HexSize(TrimOWS(t)).Some? { G.HexIsPlain(TrimOWS(t)); }
  }

  // ---------------------------------------------------------------- trailers

  /** There is room for another trailer, and the line has a name that a trailer may have. */
  predicate NameOk(line: bytes, count: nat) {
    var colon := IndexOf(line, COLON);
    colon > 0 && ValidToken(line[..colon]) && !FramingName(line[..colon]) && count < MAX_TRAILERS
  }

  /** They read a trailer line alike exactly when its name is not in order, or what follows the colon,
      without spaces and tabs around it, has no other white space at its ends and no control byte. */
  lemma TrailersAgreeIff(line: bytes, count: nat)
    ensures var v := TrimOWS(line[IndexOf(line, COLON) + 1..]);
      TrailerOf(Batch, line, count) == TrailerOf(Streaming, line, count) <==> (NameOk(line, count) ==> Bare(v) && !HasControl(v))
  {
    TrimsAgreeIff(line[IndexOf(line, COLON) + 1..]);
  }

  /** So of the trailer lines with a proper name, the grammar admits exactly those that both decoders
      read as they are written. */
  lemma TrailerReadsIff(t: G.TrailerLine, count: nat)
    requires ValidToken(t.name) && !FramingName(t.name) && AllOWS(t.lead) && AllOWS(t.tail) && |G.FieldLine(t)| < MAX_LINE && count < MAX_TRAILERS
    ensures (forall d: Dialect :: TrailerOf(d, G.FieldLine(t), count) == Field(Header(t.name, t.value))) <==> G.TrailerOk(t)
  {
    if G.TrailerOk(t) {
      forall d: Dialect ensures TrailerOf(d, G.FieldLine(t), count) == Field(Header(t.name, t.value)) { G.TrailerReads(d, t, count); }
    } else {
      var line := G.FieldLine(t);
      TrimSpaceIsBare(line[IndexOf(line, COLON) + 1..]);
      assert TrailerOf(Streaming, line, count) != Field(Header(t.name, t.value));
    }
  }

  // ---------------------------------------------------------------- inputs

  /** A signed size is refused by the batch decoder and accepted by the incremental one. */
  lemma SignedSizeSplitsDecoders(max: nat, grants: nat -> bool, rest: bytes)
    ensures var w := Ascii("+0") + CRLF + (CRLF + rest);
      Decode(Batch, max, grants, w) == Failure(Invalid) && Decode(Streaming, max, grants, w) == Success([], [], rest)
  {
    var text := Ascii("+0");
    LineReads(Batch, text, CRLF + rest);
    LineReads(Streaming, text, CRLF + rest);
    SignedZero(text);
    EmptyLine(Streaming, rest);
  }

  lemma SignedZero(text: bytes)
    requires text == Ascii("+0")
    ensures SizeOf(Batch, text) == None && SizeOf(Streaming, text) == Some(0)
  {
    assert text == [43, 48];
    assert SEMICOLON !in text;
    assert text == [] + text + [];
    TrimPadded([], text, [], true);
    TrimSpacePadded([], text, []);
    ZeroDigit();
    assert text[1..] == [48];
    assert !IsHex(text[0]);
  }

  lemma EmptyLine(d: Dialect, rest: bytes)
    ensures ReadLine(d, CRLF + rest) == Line([], rest)
  {
    LineReads(d, [], rest);
    assert CRLF + rest == [] + CRLF + rest;
  }

  lemma ZeroLine(d: Dialect)
    ensures SizeOf(d, [48]) == Some(0)
  {
    var text: bytes := [48];
    assert SEMICOLON !in text;
    assert text == [] + text + [];
    TrimPadded([], text, [], true);
    TrimSpacePadded([], text, []);
    ZeroDigit();
  }

  /** A last chunk and one trailer line. */
  function OneTrailer(line: bytes, rest: bytes): bytes {
    [48] + CRLF + (line + CRLF + (CRLF + rest))
  }

  /** What a single trailer line leads to. */
  function AfterTrailer(f: Field, rest: bytes): Result {
    if f.Field? then Success([], [f.h], rest) else Failure(f.e)
  }

  lemma LastChunkReads(d: Dialect, max: nat, grants: nat -> bool, after: bytes)
    ensures Decode(d, max, grants, [48] + CRLF + after) == Trailers(SyntaxOf(d), [], [], after)
  {
    LineReads(d, [48], after);
    ZeroLine(d);
  }

  lemma OneTrailerReads(d: Dialect, line: bytes, rest: bytes)
    requires 0 < |line| < MAX_LINE && LF !in line
    ensures Trailers(SyntaxOf(d), [], [], line + CRLF + (CRLF + rest)) ==
      AfterTrailer(TrailerOf(d, line, 0), rest)
  {
    LineReads(d, line, CRLF + rest);
    EmptyLine(d, rest);
    var f := TrailerOf(d, line, 0);
    if f.Field? {
      assert Trailers(SyntaxOf(d), [], [f.h], CRLF + rest) == Success([], [f.h], rest);
      assert [] + [f.h] == [f.h];
    }
  }

  lemma OneTrailerDecodes(d: Dialect, max: nat, grants: nat -> bool, line: bytes, rest: bytes)
    requires 0 < |line| < MAX_LINE && LF !in line
    ensures Decode(d, max, grants, OneTrailer(line, rest)) ==
      AfterTrailer(TrailerOf(d, line, 0), rest)
  {
    LastChunkReads(d, max, grants, line + CRLF + (CRLF + rest));
    OneTrailerReads(d, line, rest);
  }

  /** A line with a one-letter name. */
  lemma LetterTrailer(v: bytes)
    ensures TrailerOf(Batch, [65, COLON] + v, 0) == Field(Header([65], TrimOWS(v)))
    ensures TrailerOf(Streaming, [65, COLON] + v, 0) == if HasControl(TrimSpace(v)) then BadField(Malformed) else Field(Header([65], TrimSpace(v)))
  {
    var line := [65, COLON] + v;
    assert line[..1] == [65] && line[1] == COLON && line[2..] == v;
    IndexIs(line, COLON, 1);
    assert !FramingName([65]);
  }

  lemma LetterTrailerDecodes(max: nat, grants: nat -> bool, v: bytes, rest: bytes)
    requires LF !in v && |v| < MAX_LINE - 2
    ensures var w := OneTrailer([65, COLON] + v, rest);
      && Decode(Batch, max, grants, w) == Success([], [Header([65], TrimOWS(v))], rest)
      && Decode(Streaming, max, grants, w) == if HasControl(TrimSpace(v)) then Failure(Malformed) else Success([], [Header([65], TrimSpace(v))], rest)
  {
    LetterTrailer(v);
    OneTrailerDecodes(Batch, max, grants, [65, COLON] + v, rest);
    OneTrailerDecodes(Streaming, max, grants, [65, COLON] + v, rest);
  }

  lemma TrimmedWide(v: bytes)
    requires v == [97, 0xC2, 0xA0]
    ensures TrimOWS(v) == v && TrimSpace(v) == [97] && !HasControl([97])
  {
    assert v == [] + v + [];
    TrimPadded([], v, [], true);
    assert SkipSpace(v, 0) == 0;
    assert Wide2(v[1], v[2]);
    assert SpaceBefore(v, 0, 3) == 2 && SpaceBefore(v, 0, 1) == 0;
    assert BackSpace(v, 0, 3) == BackSpace(v, 0, 1) == 1;
    assert v[0..1] == [97];
  }

  /** A no-break space at the end of a value stays for one decoder and is trimmed by the other. */
  lemma WideSpaceSplitsDecoders(max: nat, grants: nat -> bool, v: bytes, rest: bytes)
    requires v == [97, 0xC2, 0xA0]
    ensures var w := OneTrailer([65, COLON] + v, rest);
      && Decode(Batch, max, grants, w) == Success([], [Header([65], v)], rest)
      && Decode(Streaming, max, grants, w) == Success([], [Header([65], [97])], rest)
  {
    TrimmedWide(v);
    LetterTrailerDecodes(max, grants, v, rest);
  }

  lemma TrimmedControl(v: bytes)
    requires v == [1]
    ensures TrimOWS(v) == v && TrimSpace(v) == v && HasControl(v)
  {
    assert v == [] + v + [];
    TrimPadded([], v, [], true);
    TrimSpacePadded([], v, []);
    assert v[0] < 0x20 && v[0] != HTAB;
  }

  /** A control byte in a value is accepted by one decoder and refused by the other. */
  lemma ControlSplitsDecoders(max: nat, grants: nat -> bool, v: bytes, rest: bytes)
    requires v == [1]
    ensures var w := OneTrailer([65, COLON] + v, rest);
      && Decode(Batch, max, grants, w) == Success([], [Header([65], v)], rest)
      && Decode(Streaming, max, grants, w) == Failure(Malformed)
  {
    TrimmedControl(v);
    LetterTrailerDecodes(max, grants, v, rest);
  }

  lemma BareLFLine(text: bytes, after: bytes)
    requires text == [48, SEMICOLON, LF]
    ensures ReadLine(Batch, text + CRLF + after) == Line(text, after) && ReadLine(Streaming, text + CRLF + after) == NoLine(Malformed)
    ensures SizeOf(Batch, text) == Some(0)
  {
    var w := text + CRLF + after;
    assert w[0] == 48 && w[1] == SEMICOLON && w[2] == LF && w[3] == CR && w[4] == LF;
    assert CrlfFrom(w, 0) == 3 && w[..3] == text && w[5..] == after;
    IndexIs(w, LF, 2);
    IndexIs(text, SEMICOLON, 1);
    assert text[..1] == [48];
    ZeroLine(Batch);
    assert SEMICOLON !in [48 as byte];
  }

  /** A bare LF inside an extension is part of the line for one decoder and ends it for the other. */
  lemma BareLFSplitsDecoders(max: nat, grants: nat -> bool, text: bytes, rest: bytes)
    requires text == [48, SEMICOLON, LF]
    ensures var w := text + CRLF + (CRLF + rest);
      && Decode(Batch, max, grants, w) == Success([], [], rest)
      && Decode(Streaming, max, grants, w) == Failure(Malformed)
  {
    BareLFLine(text, CRLF + rest);
    EmptyLine(Batch, rest);
  }
}
