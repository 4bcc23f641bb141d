/** Request lines (section 3 of RFC 9112): parseRequestLine of header.go. */
module RequestLine {
  import opened Bytes
  import opened Options
  import opened Text

  const SLASH: byte := 47
  const QUESTION: byte := 63
  const HASH: byte := 35
  const STAR: byte := 42
  const HTTP11 := Ascii("HTTP/1.1")
  const HTTP10 := Ascii("HTTP/1.0")

  datatype Error = Malformed | TooLong | Version
  datatype Parsed<T> = Parsed(value: T, used: nat) | Rejected(e: Error)

  /** authority is set for an absolute-form target and for CONNECT. */
  datatype Line = Line(verb: bytes, target: bytes, proto: bytes, uri: bytes, path: bytes, query: bytes, authority: bytes)

  // ---------------------------------------------------------------- splitting

  /** The first line without its CR LF; max <= 0 means no limit. */
  function TakeLine(buf: bytes, max: int): (r: Parsed<bytes>)
    ensures r.Parsed? ==> r.used <= |buf| && buf[..r.used] == r.value + CRLF && LF !in r.value
  {
    var nl := IndexOf(buf, LF);
    if nl < 0 || (max > 0 && nl >= max + 2) then Rejected(if max > 0 && |buf| > max then TooLong else Malformed)
    else if nl == 0 || buf[nl - 1] != CR then Rejected(Malformed)
    else
      assert buf[..nl + 1] == buf[..nl - 1] + CRLF;
      assert buf[..nl] == buf[..nl - 1] + [CR];
      Parsed(buf[..nl - 1], nl + 1)
  }

  datatype Parts = Parts(verb: bytes, target: bytes, proto: bytes)

  function Join(p: Parts): bytes {
    p.verb + ([SP] + (p.target + ([SP] + p.proto)))
  }

  function SplitLine(line: bytes): (r: Option<Parts>)
    ensures r.Some? ==> r.value.target != []
  {
    match CutAt(line, SP)
    case Whole => None
    case Pieces(verb, tail) =>
      if !ValidToken(verb) then None
      else
        match CutAt(tail, SP)
        case Whole => None
        case Pieces(target, proto) => if target == [] || proto == [] then None else Some(Parts(verb, target, proto))
  }

  /** Splitting and joining are inverse. */
  lemma JoinOfSplit(line: bytes)
    ensures SplitLine(line).Some? ==> Join(SplitLine(line).value) == line
  {
    JoinOfCut(line, SP);
    if CutAt(line, SP).Pieces? { JoinOfCut(CutAt(line, SP).after, SP); }
  }

  lemma TokenHasNoSpace(b: bytes)
    requires ValidToken(b)
    ensures SP !in b
  {
  }

  lemma SplitOfJoin(p: Parts)
    requires ValidToken(p.verb) && p.target != [] && SP !in p.target && p.proto != []
    ensures SplitLine(Join(p)) == Some(p)
  {
    TokenHasNoSpace(p.verb);
    CutOfJoin(p.verb, SP, p.target + ([SP] + p.proto));
    CutOfJoin(p.target, SP, p.proto);
  }

  // ---------------------------------------------------------------- targets

  predicate SchemeByte(c: byte) {
    97 <= c <= 122 || 65 <= c <= 90 || 48 <= c <= 57 || c == 43 || c == 45 || c == 46
  }

  /** The first position of "://" from i on, or -1. */
  function SchemeEnd(t: bytes, i: nat): (r: int)
    ensures -1 <= r && (r >= 0 ==> i <= r && r + 3 <= |t|)
    decreases |t| - i
  {
    if i + 3 > |t| then -1 else if t[i] == COLON && t[i + 1] == SLASH && t[i + 2] == SLASH then i else SchemeEnd(t, i + 1)
  }

  /** The first position from i on of a slash or a question mark, or the end. */
  function PathStart(t: bytes, i: nat): (r: nat)
    requires i <= |t|
    ensures i <= r <= |t|
    decreases |t| - i
  {
    if i < |t| && t[i] != SLASH && t[i] != QUESTION then PathStart(t, i + 1) else i
  }

  /** route is what is routed on; it is the target itself except in absolute form. */
  datatype Routed = Routed(route: bytes, authority: bytes, same: bool)

  function Route(verb: bytes, t: bytes): Option<Routed>
    requires t != []
  {
    if t[0] == SLASH then Some(Routed(t, [], true))
    else if verb == Ascii("OPTIONS") && t == [STAR] then Some(Routed(t, [], true))
    else if verb == Ascii("CONNECT") && SLASH !in t then Some(Routed(t, t, true))
    else AbsoluteForm(t)
  }

  function AbsoluteForm(t: bytes): Option<Routed> {
    var abs := SchemeEnd(t, 0);
    if abs <= 0 || abs + 3 >= |t| || exists i :: 0 <= i < abs && !SchemeByte(t[i]) then None
    else
      var start := PathStart(t, abs + 3);
      Some(Routed(if start < |t| && t[start] == SLASH then t[start..] else [], t[abs + 3..start], false))
  }

  predicate CleanTarget(t: bytes) {
    forall i :: 0 <= i < |t| ==> t[i] > 0x20 && t[i] != 0x7f && t[i] != HASH
  }

  /** Everything after the question mark at q, if there is one. */
  function After(t: bytes, q: int): bytes
    requires -1 <= q < |t|
  {
    if q >= 0 then t[q + 1..] else []
  }

  function BuildLine(p: Parts, r: Routed): (l: Line)
    ensures l.verb == p.verb && l.target == p.target && l.proto == p.proto
  {
    var q := IndexOf(r.route, QUESTION);
    if r.route == [] then Line(p.verb, p.target, p.proto, [], [SLASH], After(p.target, IndexOf(p.target, QUESTION)), r.authority)
    else Line(p.verb, p.target, p.proto, r.route, if q >= 0 then r.route[..q] else r.route, After(r.route, q), r.authority)
  }

  function ParseParts(p: Parts): (r: Parsed<Line>)
    requires p.target != []
    ensures r.Parsed? ==> Parts(r.value.verb, r.value.target, r.value.proto) == p && (p.proto == HTTP11 || p.proto == HTTP10)
  {
    if p.proto != HTTP11 && p.proto != HTTP10 then Rejected(Version)
    else
      var r := Route(p.verb, p.target);
      if r.None? || !CleanTarget(p.target) then Rejected(Malformed) else Parsed(BuildLine(p, r.value), 0)
  }

  // ---------------------------------------------------------------- printing

  function PrintLine(l: Line): bytes {
    Join(Parts(l.verb, l.target, l.proto)) + CRLF
  }

  /** The line without its CR LF. */
  function ParseText(text: bytes): Parsed<Line> {
    var p := SplitLine(text);
    if p.None? then Rejected(Malformed) else ParseParts(p.value)
  }

  function ParseLine(buf: bytes, max: int): Parsed<Line> {
    var l := TakeLine(buf, max);
    if l.Rejected? then Rejected(l.e)
    else
      var r := ParseText(l.value);
      if r.Rejected? then r else Parsed(r.value, l.used)
  }

  lemma TextReprints(text: bytes)
    ensures var r := ParseText(text);
      r.Parsed? ==> text + CRLF == PrintLine(r.value) && (r.value.proto == HTTP11 || r.value.proto == HTTP10)
  {
    JoinOfSplit(text);
  }

  /** Whatever is accepted is the printed form of what was understood. */
  lemma ParsedLineReprints(buf: bytes, max: int)
    ensures var r := ParseLine(buf, max); r.Parsed? ==> r.used <= |buf| && buf[..r.used] == PrintLine(r.value)
  {
    var l := TakeLine(buf, max);
    if l.Parsed? { TextReprints(l.value); }
  }

  lemma VersionDigit(proto: bytes)
    requires proto == HTTP11 || proto == HTTP10
    ensures |proto| == 8 && proto[5] == 49
  {
  }

  lemma VersionInLine(l: Line)
    requires l.proto == HTTP11 || l.proto == HTTP10
    ensures |PrintLine(l)| >= 10 && PrintLine(l)[|PrintLine(l)| - 5] == 49
  {
    VersionDigit(l.proto);
    ProtoInLine(l.verb, l.target, l.proto);
  }

  lemma ProtoInLine(verb: bytes, target: bytes, proto: bytes)
    requires |proto| == 8
    ensures var w := Join(Parts(verb, target, proto)) + CRLF; |w| >= 10 && w[|w| - 5] == proto[5]
  {
    var text := Join(Parts(verb, target, proto));
    assert text[|text| - 3] == proto[5];
  }

  /** An accepted line ends at the first LF and names version 1. */
  lemma AcceptedVersion(buf: bytes, max: int)
    ensures var r := ParseLine(buf, max); r.Parsed? ==> r.used == IndexOf(buf, LF) + 1 && r.used >= 10 && buf[r.used - 5] == 49
  {
    var l := TakeLine(buf, max);
    if l.Parsed? {
      TextReprints(l.value);
      ParsedLineReprints(buf, max);
      var r := ParseText(l.value);
      if r.Parsed? {
        VersionInLine(r.value);
        assert buf[l.used - 5] == buf[..l.used][l.used - 5];
      }
    }
  }

  lemma TakeIsLocal(head: bytes, rest: bytes, max: int)
    requires LF in head
    ensures TakeLine(head + rest, max) == TakeLine(head, max)
  {
    var nl := IndexOf(head, LF);
    assert (head + rest)[..nl] == head[..nl];
    IndexIs(head + rest, LF, nl);
    if nl >= 1 {
      assert (head + rest)[..nl - 1] == head[..nl - 1];
      assert (head + rest)[nl - 1] == head[nl - 1];
    }
  }

  /** What follows the line has no influence. */
  lemma LineIsLocal(head: bytes, rest: bytes, max: int)
    requires LF in head
    ensures ParseLine(head + rest, max) == ParseLine(head, max)
  {
    TakeIsLocal(head, rest, max);
  }

  predicate OriginForm(verb: bytes, target: bytes, proto: bytes) {
    ValidToken(verb) && target != [] && target[0] == SLASH && CleanTarget(target) && proto in [HTTP11, HTTP10]
  }

  /** A request line in origin form parses to its own parts, whatever follows; the path and the
      query are the target cut at its first question mark. */
  lemma OriginLineRoundTrip(verb: bytes, target: bytes, proto: bytes, max: int, rest: bytes)
    requires OriginForm(verb, target, proto)
    requires max <= 0 || |Join(Parts(verb, target, proto))| <= max
    ensures var line := Join(Parts(verb, target, proto)) + CRLF;
      ParseLine(line + rest, max) == Parsed(Line(verb, target, proto, target, PathOf(target), QueryOf(target), []), |line|)
  {
    var p := Parts(verb, target, proto);
    JoinHasNoLF(p);
    LineTaken(Join(p), max, rest);
    SplitOfJoin(p);
    OriginParts(p);
  }

  lemma OriginParts(p: Parts)
    requires OriginForm(p.verb, p.target, p.proto)
    ensures ParseParts(p) == Parsed(Line(p.verb, p.target, p.proto, p.target, PathOf(p.target), QueryOf(p.target), []), 0)
  {
    assert Route(p.verb, p.target) == Some(Routed(p.target, [], true));
  }

  lemma LineTaken(text: bytes, max: int, rest: bytes)
    requires LF !in text && (max <= 0 || |text| <= max)
    ensures TakeLine(text + CRLF + rest, max) == Parsed(text, |text| + 2)
  {
    var buf := text + CRLF + rest;
    assert buf[..|text| + 1] == text + [CR] && buf[|text| + 1] == LF && buf[..|text|] == text;
    IndexIs(buf, LF, |text| + 1);
  }

  function PathOf(target: bytes): bytes {
    var q := IndexOf(target, QUESTION);
    if q >= 0 then target[..q] else target
  }

  function QueryOf(target: bytes): bytes {
    After(target, IndexOf(target, QUESTION))
  }

  lemma PathAndQueryMakeTarget(target: bytes)
    ensures QUESTION !in PathOf(target)
    ensures target == if QUESTION in target then PathOf(target) + [QUESTION] + QueryOf(target) else PathOf(target)
  {
    var q := IndexOf(target, QUESTION);
    if q >= 0 { assert target == target[..q] + [QUESTION] + target[q + 1..]; }
  }

  lemma JoinHasNoLF(p: Parts)
    requires OriginForm(p.verb, p.target, p.proto)
    ensures LF !in Join(p) && SP !in p.target && p.proto != []
  {
  }
}
