/** Whole request heads: the request line and the header section (header.go). */
module RequestParser {
  import opened Bytes
  import opened Options
  import opened Text
  import Decimal
  import opened RequestLine
  import opened KnownHeaders
  import opened HeaderValues
  import opened HeaderFields

  // ---------------------------------------------------------------- lines and fields

  function NextLine(w: bytes): (l: HeadLine)
    ensures l.HeadLine? ==> |l.rest| < |w|
  {
    if |w| == 0 then BadLine
    else if |w| > 1 && w[0] == CR && w[1] == LF then Blank(w[2..])
    else if IsOWS(w[0]) then BadLine
    else
      var nl := IndexOf(w, LF);
      if nl <= 0 || w[nl - 1] != CR then BadLine else HeadLine(w[..nl - 1], w[nl + 1..])
  }

  predicate ValueOk(v: bytes) {
    forall i :: 0 <= i < |v| ==> (v[i] >= 0x20 || v[i] == HTAB) && v[i] != 0x7f
  }

  function FieldOf(text: bytes): Option<Header> {
    var colon := IndexOf(text, COLON);
    if colon <= 0 || !ValidToken(text[..colon]) then None
    else
      var v := Trim(text[colon + 1..], false);
      if ValueOk(v) then Some(Header(text[..colon], v)) else None
  }

  function HeadGrammar(): (g: Grammar)
    ensures Consumes(g)
  {
    Grammar(w => NextLine(w), text => FieldOf(text))
  }

  function RulesOf(proto: bytes): Rules {
    Rules(k => Kind(k), h => ValidHost(h), v => Decimal.Size(v), v => Coding(v),
          (keep, v) => Persists(keep, proto, v), (a, b) => EqualFold(a, b))
  }

  function ContextOf(line: Line, max: int): Context {
    Context(line.authority, line.proto == HTTP11, if max <= 0 then MAX_HEADERS else max)
  }

  /** parseHeadersWithLimit */
  function ParseSection(line: Line, max: int, w: bytes): Option<Section> {
    var c := ContextOf(line, max);
    Fold(HeadGrammar(), RulesOf(line.proto), c, Start(c), w)
  }

  // ---------------------------------------------------------------- printed lines are read

  predicate Printable(l: FieldLine) {
    ValidToken(l.h.key) && AllOWS(l.lead) && AllOWS(l.tail) && Tight(l.h.value, false) && ValueOk(l.h.value)
  }

  lemma TextHasNoLF(l: FieldLine)
    requires Printable(l)
    ensures LF !in TextOf(l) && COLON !in l.h.key && TextOf(l) != [] && !IsOWS(TextOf(l)[0])
  {
    assert TextOf(l)[0] == l.h.key[0];
    assert forall i :: 0 <= i < |l.h.value| ==> l.h.value[i] != LF;
  }

  lemma PrintedLineReads(l: FieldLine, rest: bytes)
    requires Printable(l)
    ensures NextLine(TextOf(l) + CRLF + rest) == HeadLine(TextOf(l), rest)
  {
    var text := TextOf(l);
    TextHasNoLF(l);
    LineReads(text, rest);
  }

  lemma LineReads(text: bytes, rest: bytes)
    requires LF !in text && text != [] && !IsOWS(text[0])
    ensures NextLine(text + CRLF + rest) == HeadLine(text, rest)
  {
    var w, n := text + CRLF + rest, |text|;
    assert w[0] == text[0] && w[n] == CR && w[n + 1] == LF && w[..n] == text && w[n + 2..] == rest;
    assert w[1] != LF by { assert n > 1 ==> w[1] == text[1]; }
    assert w[..n + 1] == text + [CR];
    IndexIs(w, LF, n + 1);
  }

  lemma PrintedFieldReads(l: FieldLine)
    requires Printable(l)
    ensures FieldOf(TextOf(l)) == Some(l.h)
  {
    TextHasNoLF(l);
    CutOfJoin(l.h.key, COLON, l.lead + l.h.value + l.tail);
    TrimPadded(l.lead, l.h.value, l.tail, false);
  }

  lemma HeadGrammarUnderstands()
    ensures Understands(HeadGrammar(), l => Printable(l))
  {
    var g := HeadGrammar();
    forall rest ensures ReadsBlank(g, rest) { assert (CRLF + rest)[2..] == rest; }
    forall l, rest | Printable(l) ensures ReadsLine(g, l, rest) { PrintedLineReads(l, rest); }
    forall l | Printable(l) ensures ReadsField(g, l) { PrintedFieldReads(l); }
  }

  // ---------------------------------------------------------------- the two theorems

  /** Every accepted section, whatever the input: its headers are acceptable (so never both chunked
      and Content-Length, and exactly one Host in HTTP/1.1), and the fields say what they mean. */
  lemma SectionSound(line: Line, max: int, w: bytes)
    ensures var s, c := ParseSection(line, max, w), ContextOf(line, max);
      s.Some? ==> Reached(RulesOf(line.proto), c, s.value.f) && Acceptable(RulesOf(line.proto), c, s.value.f.headers)
  {
    var c := ContextOf(line, max);
    StartReached(RulesOf(line.proto), c);
    FoldSound(HeadGrammar(), RulesOf(line.proto), c, Start(c), w);
  }

  /** Printing and parsing a section: it succeeds exactly when the headers are acceptable, and then
      gives back the same headers in order and what follows the section. */
  lemma SectionRoundTrip(line: Line, max: int, ls: seq<FieldLine>, rest: bytes)
    requires forall i :: 0 <= i < |ls| ==> Printable(ls[i])
    ensures var s := ParseSection(line, max, Print(ls, rest));
      && (s.Some? <==> Acceptable(RulesOf(line.proto), ContextOf(line, max), Headers(ls)))
      && (s.Some? ==> s.value.rest == rest && s.value.f.headers == Headers(ls))
  {
    var c := ContextOf(line, max);
    HeadGrammarUnderstands();
    StartReached(RulesOf(line.proto), c);
    FoldPrinted(HeadGrammar(), l => Printable(l), RulesOf(line.proto), c, Start(c), ls, rest);
    assert [] + Headers(ls) == Headers(ls);
  }
}
