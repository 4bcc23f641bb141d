/** The JSON string escaper of ctx.go against the string grammar of section 7 of RFC 8259. */
module JsonEscape {
  import opened Sequences
  import opened Bytes

  const QUOTE: byte := 34
  const BACKSLASH: byte := 92

  predicate NeedsEscape(c: byte) {
    c < 0x20 || c == BACKSLASH || c == QUOTE
  }

  function HexLower(d: nat): byte
    requires d < 16
  {
    if d < 10 then (48 + d) as byte else (87 + d) as byte
  }

  function EscapeByte(c: byte): bytes
    requires NeedsEscape(c)
  {
    if c == BACKSLASH || c == QUOTE then [BACKSLASH, c]
    else if c == 8 then [BACKSLASH, 98]
    else if c == 12 then [BACKSLASH, 102]
    else if c == LF then [BACKSLASH, 110]
    else if c == CR then [BACKSLASH, 114]
    else if c == HTAB then [BACKSLASH, 116]
    else [BACKSLASH, 117, 48, 48, HexLower(c as int / 16), HexLower(c as int % 16)]
  }

  function EscapeUnit(c: byte): bytes {
    if NeedsEscape(c) then EscapeByte(c) else [c]
  }

  ghost function Escape(s: bytes): bytes {
    if |s| == 0 then [] else EscapeUnit(s[0]) + Escape(s[1..])
  }

  ghost function Quoted(s: bytes): bytes {
    [QUOTE] + Escape(s) + [QUOTE]
  }

  // ---------------------------------------------------------------- the reference reader

  function HexValue(c: byte): int {
    if 48 <= c <= 57 then c as int - 48
    else if 97 <= c <= 102 then c as int - 87
    else if 65 <= c <= 70 then c as int - 55
    else -1
  }

  datatype Decoded = Malformed | Char(text: bytes, size: nat)

  /** UTF-8 of a code point of the basic multilingual plane. */
  function Utf8(v: nat): bytes
    requires v < 0x10000
  {
    if v < 0x80 then [v as byte]
    else if v < 0x800 then [(0xC0 + v / 64) as byte, (0x80 + v % 64) as byte]
    else [(0xE0 + v / 4096) as byte, (0x80 + v / 64 % 64) as byte, (0x80 + v % 64) as byte]
  }

  /** One character of string content: an unescaped byte or one escape sequence. */
  function DecodeOne(t: bytes): (d: Decoded)
    requires |t| > 0
    ensures d.Char? ==> 0 < d.size <= |t|
  {
    if t[0] < 0x20 || t[0] == QUOTE then Malformed
    else if t[0] != BACKSLASH then Char([t[0]], 1)
    else if |t| < 2 then Malformed
    else if t[1] == QUOTE || t[1] == BACKSLASH || t[1] == 47 then Char([t[1]], 2)
    else if t[1] == 98 then Char([8], 2)
    else if t[1] == 102 then Char([12], 2)
    else if t[1] == 110 then Char([LF], 2)
    else if t[1] == 114 then Char([CR], 2)
    else if t[1] == 116 then Char([HTAB], 2)
    else if t[1] == 117 && |t| >= 6 && HexValue(t[2]) >= 0 && HexValue(t[3]) >= 0 && HexValue(t[4]) >= 0 && HexValue(t[5]) >= 0 then
      var v := HexValue(t[2]) * 4096 + HexValue(t[3]) * 256 + HexValue(t[4]) * 16 + HexValue(t[5]);
      if 0xD800 <= v < 0xE000 then Malformed else Char(Utf8(v), 6)
    else Malformed
  }

  datatype Parsed = Bad | Text(value: bytes, rest: bytes)

  /** Reads string content up to the closing quote. */
  function ReadContent(t: bytes): (p: Parsed) {
    if |t| == 0 then Bad
    else if t[0] == QUOTE then Text([], t[1..])
    else
      match DecodeOne(t)
      case Malformed => Bad
      case Char(text, size) =>
        match ReadContent(t[size..])
        case Bad => Bad
        case Text(value, rest) => Text(text + value, rest)
  }

  /** Reads one JSON string and returns what follows it. */
  function ReadString(t: bytes): Parsed {
    if |t| == 0 || t[0] != QUOTE then Bad else ReadContent(t[1..])
  }

  // ---------------------------------------------------------------- escaping is invertible

  lemma UnitDecodes(c: byte, rest: bytes)
    ensures DecodeOne(EscapeUnit(c) + rest) == Char([c], |EscapeUnit(c)|)
    ensures EscapeUnit(c)[0] != QUOTE
  {
  }

  lemma {:induction false} UnitReads(c: byte, tail: bytes, value: bytes, rest: bytes)
    requires ReadContent(tail) == Text(value, rest)
    ensures ReadContent(EscapeUnit(c) + tail) == Text([c] + value, rest)
  {
    UnitDecodes(c, tail);
    var t := EscapeUnit(c) + tail;
    assert t[|EscapeUnit(c)|..] == tail;
  }

  /** Escaped content read back up to the closing quote is the input. */
  lemma {:induction false} EscapeReadsBack(s: bytes, close: bytes, rest: bytes)
    requires ReadContent(close) == Text([], rest)
    ensures ReadContent(Escape(s) + close) == Text(s, rest)
    decreases |s|
  {
    if |s| == 0 {
      assert Escape(s) + close == close;
    } else {
      EscapeReadsBack(s[1..], close, rest);
      UnitReads(s[0], Escape(s[1..]) + close, s[1..], rest);
      Assoc(EscapeUnit(s[0]), Escape(s[1..]), close);
      assert [s[0]] + s[1..] == s;
    }
  }

  /** The quoted text is one JSON string whose value is the input, whatever follows it. */
  lemma {:induction false} QuotedReadsBack(s: bytes, rest: bytes)
    ensures ReadString(Quoted(s) + rest) == Text(s, rest)
  {
    var t, close := Quoted(s) + rest, [QUOTE] + rest;
    assert close[1..] == rest;
    assert t[1..] == Escape(s) + close;
    EscapeReadsBack(s, close, rest);
  }

  // ---------------------------------------------------------------- the program's loops

  /** The switch over the bytes that must be escaped. */
  method AppendEscaped(dst: bytes, c: byte) returns (out: bytes)
    requires c < 0x20 || c == BACKSLASH || c == QUOTE
    ensures out == dst + EscapeUnit(c)
  {
    if c == BACKSLASH || c == QUOTE {
      out := dst + [BACKSLASH, c];
    } else if c == 8 {
      out := dst + [BACKSLASH, 98];
    } else if c == 12 {
      out := dst + [BACKSLASH, 102];
    } else if c == LF {
      out := dst + [BACKSLASH, 110];
    } else if c == CR {
      out := dst + [BACKSLASH, 114];
    } else if c == HTAB {
      out := dst + [BACKSLASH, 116];
    } else {
      out := dst + [BACKSLASH, 117, 48, 48, HexLower(c as int / 16), HexLower(c as int % 16)];
    }
  }

  lemma OneMoreUnit(all: bytes, done: bytes, s: bytes, i: nat)
    requires i < |s| && all == done + Escape(s[i..])
    ensures all == done + EscapeUnit(s[i]) + Escape(s[i + 1..])
  {
    assert s[i..][1..] == s[i + 1..];
    Assoc(done, EscapeUnit(s[i]), Escape(s[i + 1..]));
  }

  /** appendJSONStringContent and its byte variant: flush the clean run, then escape. */
  method AppendJsonStringContent(dst: bytes, s: bytes) returns (out: bytes)
    ensures out == dst + Escape(s)
  {
    out := dst;
    var start, i := 0, 0;
    ghost var all, done := dst + Escape(s), dst;
    assert s[0..] == s && out + s[0..0] == out;
    while i < |s|
      invariant 0 <= start <= i <= |s|
      invariant done == out + s[start..i]
      invariant all == done + Escape(s[i..])
    {
      var c := s[i];
      OneMoreUnit(all, done, s, i);
      if c < 0x20 || c == BACKSLASH || c == QUOTE {
        out := AppendEscaped(out + s[start..i], c);
        start := i + 1;
        NothingHeld(out, s, start);
      } else {
        OneMoreHeld(out, s, start, i);
      }
      done := done + EscapeUnit(c);
      i := i + 1;
    }
    NothingLeft(all, done, s);
    assert s[start..] == s[start..i];
    out := out + s[start..];
  }

  lemma NothingHeld(out: bytes, s: bytes, i: nat)
    requires i <= |s|
    ensures out + s[i..i] == out
  {
  }

  lemma OneMoreHeld(out: bytes, s: bytes, start: nat, i: nat)
    requires start <= i < |s|
    ensures out + s[start..i + 1] == out + s[start..i] + [s[i]]
  {
  }

  lemma NothingLeft(all: bytes, done: bytes, s: bytes)
    requires all == done + Escape(s[|s|..])
    ensures all == done
  {
  }

  method AppendJsonString(dst: bytes, s: bytes) returns (out: bytes)
    ensures out == dst + Quoted(s)
  {
    out := AppendJsonStringContent(dst + [QUOTE], s);
    out := out + [QUOTE];
  }
}
