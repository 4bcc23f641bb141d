/** Chunked bodies (section 7.1 of RFC 9112) as the two decoders of chunked.go and
    request_stream.go read them, and a printer for the messages of the grammar. */
module Chunked {
  import opened Bytes
  import opened Options
  import opened Text

  const MAX_LINE := 4096
  const MAX_TRAILERS := 64

  /** The decoder that buffers whole bodies and the incremental one. */
  datatype Dialect = Batch | Streaming

  datatype Error = Invalid | Malformed | TooLarge | Budget | Eof

  // ---------------------------------------------------------------- sizes

  predicate IsHex(c: byte) {
    48 <= c <= 57 || 97 <= c <= 102 || 65 <= c <= 70
  }

  function Digit(c: byte): (d: nat)
    requires IsHex(c)
    ensures d < 16
  {
    if c <= 57 then (c - 48) as int else if c <= 70 then (c - 55) as int else (c - 87) as int
  }

  predicate AllHex(b: bytes) {
    forall i :: 0 <= i < |b| ==> IsHex(b[i])
  }

  /** The number a hexadecimal numeral stands for. */
  function HexValue(b: bytes): nat
    requires AllHex(b)
  {
    if |b| == 0 then 0 else HexValue(b[..|b| - 1]) * 16 + Digit(b[|b| - 1])
  }

  /** A numeral that fits a 64-bit signed integer. */
  function HexSize(b: bytes): Option<nat> {
    if |b| > 0 && AllHex(b) && HexValue(b) <= MAX_INT then Some(HexValue(b)) else None
  }

  lemma ZeroDigit()
    ensures HexSize([48]) == Some(0)
  {
    assert [48 as byte][..0] == [];
  }

  lemma {:induction false} HexValueGrows(b: bytes, i: nat)
    requires AllHex(b) && i <= |b|
    ensures HexValue(b[..i]) <= HexValue(b)
    decreases |b|
  {
    if i < |b| {
      HexValueGrows(b[..|b| - 1], i);
      assert b[..|b| - 1][..i] == b[..i];
    } else {
      assert b[..i] == b;
    }
  }

  /** parseHex: the overflow test in front of every step rejects exactly the numerals that do not fit. */
  method ParseHex(b: bytes) returns (n: int, ok: bool)
    ensures ok <==> HexSize(b).Some?
    ensures n == if ok then HexSize(b).value else 0
  {
    if |b| == 0 {
      return 0, false;
    }
    n := 0;
    for i := 0 to |b|
      invariant AllHex(b[..i])
      invariant 0 <= n == HexValue(b[..i]) <= MAX_INT
    {
      var c, d := b[i], 0;
      assert AllHex(b) ==> IsHex(b[i]);
      if 48 <= c <= 57 {
        d := (c - 48) as int;
      } else if 97 <= c <= 102 {
        d := (c - 97) as int + 10;
      } else if 65 <= c <= 70 {
        d := (c - 65) as int + 10;
      } else {
        return 0, false;
      }
      assert b[..i + 1][..i] == b[..i];
      if n > (MAX_INT - d) / 16 {
        if AllHex(b) { HexValueGrows(b, i + 1); }
        return 0, false;
      }
      n := n * 16 + d;
    }
    assert b[..|b|] == b;
    return n, true;
  }

  /** strconv.ParseInt with base 16 and a negative result refused: a sign is accepted. */
  function SignedSize(b: bytes): Option<nat> {
    if |b| > 0 && b[0] == 43 then HexSize(b[1..])
    else if |b| > 0 && b[0] == 45 then (if HexSize(b[1..]) == Some(0) then Some(0) else None)
    else HexSize(b)
  }

  /** The two ways to read a size differ exactly on signed numerals. */
  lemma SizesAgreeIff(b: bytes)
    ensures SignedSize(b) == HexSize(b) <==>
      !(|b| > 0 && ((b[0] == 43 && HexSize(b[1..]).Some?) || (b[0] == 45 && HexSize(b[1..]) == Some(0))))
  {
    assert |b| > 0 && (b[0] == 43 || b[0] == 45) ==> !IsHex(b[0]);
  }

  function SizeOf(d: Dialect, line: bytes): Option<nat> {
    var semi := IndexOf(line, SEMICOLON);
    var text := if semi >= 0 then line[..semi] else line;
    if d == Batch then HexSize(TrimOWS(text)) else SignedSize(TrimSpace(text))
  }

  // ---------------------------------------------------------------- lines

  /** LongLine: the line ends, but too late for the outcome not to depend on how it arrives. */
  datatype Line = Line(text: bytes, rest: bytes) | NoLine(e: Error) | LongLine

  /** The first position of CR LF, or -1. */
  function CrlfFrom(w: bytes, i: nat): (r: int)
    ensures -1 <= r
    ensures r >= 0 ==> i <= r && r + 1 < |w| && w[r] == CR && w[r + 1] == LF
    ensures forall k :: i <= k < |w| - 1 && (r < 0 || k < r) ==> !(w[k] == CR && w[k + 1] == LF)
    decreases |w| - i
  {
    if i + 1 >= |w| then -1 else if w[i] == CR && w[i + 1] == LF then i else CrlfFrom(w, i + 1)
  }

  function BatchLine(w: bytes): Line {
    var i := CrlfFrom(w, 0);
    if i < 0 then NoLine(if |w| > MAX_LINE then Invalid else Eof)
    else if i < MAX_LINE then Line(w[..i], w[i + 2..])
    else LongLine
  }

  function StreamLine(w: bytes): Line {
    var j := IndexOf(w, LF);
    if 0 <= j <= MAX_LINE then (if j >= 1 && w[j - 1] == CR then Line(w[..j - 1], w[j + 1..]) else NoLine(Malformed))
    else NoLine(if |w| > MAX_LINE then Invalid else Eof)
  }

  function ReadLine(d: Dialect, w: bytes): (l: Line)
    ensures l.Line? ==> |l.rest| + |l.text| + 2 == |w| && |l.text| < MAX_LINE
  {
    if d == Batch then BatchLine(w) else StreamLine(w)
  }

  /** Both decoders read a short line without LF alike. */
  lemma LineReads(d: Dialect, text: bytes, rest: bytes)
    requires LF !in text && |text| < MAX_LINE
    ensures ReadLine(d, text + CRLF + rest) == Line(text, rest)
  {
    var w := text + CRLF + rest;
    var n := |text|;
    assert w[n] == CR && w[n + 1] == LF && w[..n] == text && w[n + 2..] == rest;
    assert forall k :: 0 <= k < n ==> w[k] == text[k];
    if d == Batch {
      var i := CrlfFrom(w, 0);
      assert i == n;
    } else {
      assert LF !in w[..n + 1];
      IndexIs(w, LF, n + 1);
    }
  }

  // ---------------------------------------------------------------- trailers

  predicate FramingName(name: bytes) {
    EqualFold(name, Ascii("Content-Length")) || EqualFold(name, Ascii("Transfer-Encoding")) || EqualFold(name, Ascii("Host"))
  }

  predicate HasControl(v: bytes) {
    exists i :: 0 <= i < |v| && ((v[i] < 0x20 && v[i] != HTAB) || v[i] == 0x7f)
  }

  datatype Field = Field(h: Header) | BadField(e: Error)

  function TrailerOf(d: Dialect, line: bytes, count: nat): Field {
    var colon := IndexOf(line, COLON);
    if colon <= 0 || !ValidToken(line[..colon]) || count >= MAX_TRAILERS || FramingName(line[..colon]) then BadField(Invalid)
    else if d == Batch then Field(Header(line[..colon], TrimOWS(line[colon + 1..])))
    else if HasControl(TrimSpace(line[colon + 1..])) then BadField(Malformed)
    else Field(Header(line[..colon], TrimSpace(line[colon + 1..])))
  }

  // ---------------------------------------------------------------- decoding

  /** How a decoder reads lines, sizes and trailers, and how it reports a broken frame. */
  datatype Syntax = Syntax(line: bytes -> Line, size: bytes -> Option<nat>, trailer: (bytes, nat) -> Field, broken: Error)

  /** Reading a line consumes it. */
  ghost predicate Consumes(y: Syntax) {
    forall w :: y.line(w).Line? ==> |y.line(w).rest| < |w|
  }

  function SyntaxOf(d: Dialect): (y: Syntax)
    ensures Consumes(y)
  {
    Syntax(w => ReadLine(d, w), text => SizeOf(d, text), (text, count: nat) => TrailerOf(d, text, count),
           if d == Batch then Invalid else Malformed)
  }

  datatype Result = Success(body: bytes, trailers: seq<Header>, rest: bytes) | Failure(e: Error) | Depends

  function Trailers(y: Syntax, body: bytes, trailers: seq<Header>, w: bytes): (r: Result)
    requires Consumes(y)
    ensures r.Success? ==> |r.rest| <= |w|
    decreases |w|
  {
    match y.line(w)
    case NoLine(e) => Failure(e)
    case LongLine => Depends
    case Line(text, rest) =>
      if text == [] then Success(body, trailers, rest)
      else match y.trailer(text, |trailers|)
        case BadField(e) => Failure(e)
        case Field(h) => Trailers(y, body, trailers + [h], rest)
  }

  /** What decoding w yields, given what was decoded before. `grants` answers the k-th and later
      requests to the body budget. */
  function Chunks(y: Syntax, max: nat, grants: nat -> bool, k: nat, body: bytes, w: bytes): (r: Result)
    requires Consumes(y)
    ensures r.Success? ==> |r.rest| <= |w|
    decreases |w|, 2
  {
    match y.line(w)
    case NoLine(e) => Failure(e)
    case LongLine => Depends
    case Line(text, rest) =>
      match y.size(text)
      case None => Failure(y.broken)
      case Some(n) =>
        if n == 0 then Trailers(y, body, [], rest)
        else if n > max - |body| then Failure(TooLarge)
        else if !grants(k) then Failure(Budget)
        else ChunkData(y, max, grants, k + 1, body, n, rest)
  }

  function ChunkData(y: Syntax, max: nat, grants: nat -> bool, k: nat, body: bytes, n: nat, w: bytes): (r: Result)
    requires Consumes(y)
    ensures r.Success? ==> |r.rest| <= |w|
    decreases |w|, 4
  {
    if |w| < n then Failure(Eof) else ChunkEnd(y, max, grants, k, body + w[..n], w[n..])
  }

  function ChunkEnd(y: Syntax, max: nat, grants: nat -> bool, k: nat, body: bytes, w: bytes): (r: Result)
    requires Consumes(y)
    ensures r.Success? ==> |r.rest| <= |w|
    decreases |w|, 3
  {
    if |w| < 2 then Failure(Eof)
    else if w[0] != CR || w[1] != LF then Failure(y.broken)
    else Chunks(y, max, grants, k, body, w[2..])
  }

  /** A budget that grants everything; the incremental decoder asks for nothing. */
  const Granted: nat -> bool := (k: nat) => true

  function Decode(d: Dialect, max: nat, grants: nat -> bool, w: bytes): Result {
    Chunks(SyntaxOf(d), max, grants, 0, [], w)
  }
}
