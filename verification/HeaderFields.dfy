/** What a list of headers means and when it is acceptable, for any reading of the single values;
    and the parser's fold over header lines. */
module HeaderFields {
  import opened Bytes
  import opened Options
  import opened KnownHeaders

  /** How single names and values are read. */
  datatype Rules = Rules(
    kind: bytes -> Known, host: bytes -> bool, length: bytes -> Option<nat>, coding: bytes -> Option<bool>,
    persists: (bool, bytes) -> bool, sameHost: (bytes, bytes) -> bool)

  /** What the request line contributes, and the limit on the number of headers. */
  datatype Context = Context(authority: bytes, http11: bool, max: nat)

  datatype Fields = Fields(
    host: bytes, contentType: bytes, expectation: bytes, upgrade: bytes, settings: bytes, length: nat, hasLength: bool,
    keepAlive: bool, chunked: bool, unsupported: bool, seenHost: bool, seenCoding: bool, headers: seq<Header>)

  function Start(c: Context): Fields {
    Fields(c.authority, [], [], [], [], 0, false, c.http11, false, false, false, false, [])
  }

  function Effect(r: Rules, c: Context, f: Fields, key: bytes, v: bytes): (g: Option<Fields>)
    ensures g.Some? ==> g.value.headers == f.headers
  {
    match r.kind(key)
    case Host =>
      if f.seenHost || !r.host(v) || (c.authority != [] && !r.sameHost(c.authority, v)) then None
      else Some(f.(seenHost := true, host := if c.authority != [] then c.authority else v))
    case ContentType => Some(f.(contentType := v))
    case ContentLength =>
      var n := r.length(v);
      if n.None? || (f.hasLength && n.value != f.length) then None else Some(f.(length := n.value, hasLength := true))
    case Connection => Some(f.(keepAlive := r.persists(f.keepAlive, v)))
    case TransferEncoding =>
      var k := r.coding(v);
      if f.seenCoding || k.None? then None else Some(f.(seenCoding := true, chunked := k.value, unsupported := !k.value))
    case Expectation => Some(f.(expectation := v))
    case Upgrade => Some(f.(upgrade := v))
    case Http2Settings => Some(f.(settings := v))
    case Unknown => Some(f)
  }

  function Apply(r: Rules, c: Context, f: Fields, h: Header): Option<Fields> {
    var g := Effect(r, c, f, h.key, h.value);
    if g.None? || |f.headers| >= c.max then None else Some(g.value.(headers := f.headers + [h]))
  }

  /** The checks after the last line. */
  predicate Closes(c: Context, f: Fields) {
    !(f.chunked && f.hasLength) && (c.http11 ==> f.seenHost)
  }

  // ---------------------------------------------------------------- meaning of a header list

  /** The values of the known headers, each kind in order. */
  datatype Lists = Lists(
    hosts: seq<bytes>, lengths: seq<bytes>, codings: seq<bytes>, connections: seq<bytes>,
    types: seq<bytes>, expectations: seq<bytes>, upgrades: seq<bytes>, settings: seq<bytes>)

  function Push(l: Lists, kind: Known, v: bytes): Lists {
    match kind
    case Host => l.(hosts := l.hosts + [v])
    case ContentLength => l.(lengths := l.lengths + [v])
    case TransferEncoding => l.(codings := l.codings + [v])
    case Connection => l.(connections := l.connections + [v])
    case ContentType => l.(types := l.types + [v])
    case Expectation => l.(expectations := l.expectations + [v])
    case Upgrade => l.(upgrades := l.upgrades + [v])
    case Http2Settings => l.(settings := l.settings + [v])
    case Unknown => l
  }

  function Sorted(r: Rules, hs: seq<Header>): Lists {
    if |hs| == 0 then Lists([], [], [], [], [], [], [], [])
    else Push(Sorted(r, hs[..|hs| - 1]), r.kind(hs[|hs| - 1].key), hs[|hs| - 1].value)
  }

  lemma SortedSnoc(r: Rules, hs: seq<Header>, h: Header)
    ensures Sorted(r, hs + [h]) == Push(Sorted(r, hs), r.kind(h.key), h.value)
  {
    assert (hs + [h])[..|hs|] == hs;
  }

  function Last(vs: seq<bytes>): bytes {
    if |vs| == 0 then [] else vs[|vs| - 1]
  }

  /** Connection values are applied in order. */
  function KeepAliveAfter(r: Rules, keep: bool, vs: seq<bytes>): bool {
    if |vs| == 0 then keep else r.persists(KeepAliveAfter(r, keep, vs[..|vs| - 1]), vs[|vs| - 1])
  }

  ghost predicate HostsOk(r: Rules, c: Context, vs: seq<bytes>) {
    |vs| <= 1 && (|vs| == 1 ==> r.host(vs[0]) && (c.authority != [] ==> r.sameHost(c.authority, vs[0])))
  }

  /** Every Content-Length is a number, and all are the same number. */
  ghost predicate LengthsOk(r: Rules, vs: seq<bytes>) {
    forall i :: 0 <= i < |vs| ==> r.length(vs[i]).Some? && r.length(vs[i]) == r.length(vs[0])
  }

  ghost predicate CodingsOk(r: Rules, vs: seq<bytes>) {
    |vs| <= 1 && (|vs| == 1 ==> r.coding(vs[0]).Some?)
  }

  /** The values may be those of the beginning of an acceptable section. */
  ghost predicate Admissible(r: Rules, c: Context, l: Lists) {
    HostsOk(r, c, l.hosts) && LengthsOk(r, l.lengths) && CodingsOk(r, l.codings)
  }

  /** The headers are an acceptable section: never both chunked and Content-Length, and for HTTP/1.1
      exactly one Host. */
  ghost predicate Acceptable(r: Rules, c: Context, hs: seq<Header>) {
    var l := Sorted(r, hs);
    && |hs| <= c.max && Admissible(r, c, l)
    && (|l.codings| > 0 && r.coding(l.codings[0]) == Some(true) ==> |l.lengths| == 0)
    && (c.http11 ==> |l.hosts| == 1)
  }

  /** f holds what the values l mean. */
  ghost predicate Describes(r: Rules, c: Context, f: Fields, l: Lists) {
    LengthOf(r, f, l.lengths) && CodingOf(r, f, l.codings) && HostOf(c, f, l.hosts) && RestOf(r, c, f, l)
  }

  ghost predicate RestOf(r: Rules, c: Context, f: Fields, l: Lists) {
    && f.keepAlive == KeepAliveAfter(r, c.http11, l.connections)
    && f.contentType == Last(l.types) && f.expectation == Last(l.expectations)
    && f.upgrade == Last(l.upgrades) && f.settings == Last(l.settings)
  }

  ghost predicate LengthOf(r: Rules, f: Fields, vs: seq<bytes>) {
    (f.hasLength <==> |vs| > 0) && (if f.hasLength then r.length(vs[0]) == Some(f.length) else f.length == 0)
  }

  ghost predicate CodingOf(r: Rules, f: Fields, vs: seq<bytes>) {
    && (f.seenCoding <==> |vs| > 0)
    && (if f.seenCoding then r.coding(vs[0]) == Some(f.chunked) && f.unsupported == !f.chunked else !f.chunked && !f.unsupported)
  }

  ghost predicate HostOf(c: Context, f: Fields, vs: seq<bytes>) {
    (f.seenHost <==> |vs| > 0) && f.host == if c.authority != [] then c.authority else Last(vs)
  }

  // ---------------------------------------------------------------- one header

  lemma KeepAliveSnoc(r: Rules, keep: bool, vs: seq<bytes>, v: bytes)
    ensures KeepAliveAfter(r, keep, vs + [v]) == r.persists(KeepAliveAfter(r, keep, vs), v)
  {
    assert (vs + [v])[..|vs|] == vs;
  }

  lemma LengthAdmits(r: Rules, f: Fields, vs: seq<bytes>, v: bytes)
    requires LengthsOk(r, vs) && LengthOf(r, f, vs)
    ensures LengthsOk(r, vs + [v]) <==> r.length(v).Some? && (f.hasLength ==> r.length(v).value == f.length)
  {
    var ws := vs + [v];
    assert ws[|vs|] == v && forall i :: 0 <= i < |vs| ==> ws[i] == vs[i];
  }

  /** A header takes effect exactly when the values are still admissible with it. */
  lemma EffectIff(r: Rules, c: Context, f: Fields, l: Lists, key: bytes, v: bytes)
    requires Admissible(r, c, l) && Describes(r, c, f, l)
    ensures Effect(r, c, f, key, v).Some? <==> Admissible(r, c, Push(l, r.kind(key), v))
  {
    if r.kind(key) == ContentLength { LengthAdmits(r, f, l.lengths, v); }
  }

  lemma EffectOnLength(r: Rules, c: Context, f: Fields, l: Lists, key: bytes, v: bytes)
    requires LengthOf(r, f, l.lengths) && Effect(r, c, f, key, v).Some?
    ensures LengthOf(r, Effect(r, c, f, key, v).value, Push(l, r.kind(key), v).lengths)
  {
    var g := Effect(r, c, f, key, v).value;
    if r.kind(key) == ContentLength {
      assert (l.lengths + [v])[0] == if |l.lengths| > 0 then l.lengths[0] else v;
    } else {
      assert g.hasLength == f.hasLength && g.length == f.length && Push(l, r.kind(key), v).lengths == l.lengths;
    }
  }

  lemma EffectOnCoding(r: Rules, c: Context, f: Fields, l: Lists, key: bytes, v: bytes)
    requires CodingOf(r, f, l.codings) && Effect(r, c, f, key, v).Some?
    ensures CodingOf(r, Effect(r, c, f, key, v).value, Push(l, r.kind(key), v).codings)
  {
    var g := Effect(r, c, f, key, v).value;
    if r.kind(key) == TransferEncoding {
      assert (l.codings + [v])[0] == v;
    } else {
      assert g.seenCoding == f.seenCoding && g.chunked == f.chunked && g.unsupported == f.unsupported;
      assert Push(l, r.kind(key), v).codings == l.codings;
    }
  }

  lemma EffectOnHost(r: Rules, c: Context, f: Fields, l: Lists, key: bytes, v: bytes)
    requires HostOf(c, f, l.hosts) && Effect(r, c, f, key, v).Some?
    ensures HostOf(c, Effect(r, c, f, key, v).value, Push(l, r.kind(key), v).hosts)
  {
    var g := Effect(r, c, f, key, v).value;
    if r.kind(key) == Host {
      assert Last(l.hosts + [v]) == v;
    } else {
      assert g.seenHost == f.seenHost && g.host == f.host && Push(l, r.kind(key), v).hosts == l.hosts;
    }
  }

  lemma EffectOnPersistence(r: Rules, c: Context, f: Fields, l: Lists, key: bytes, v: bytes)
    requires f.keepAlive == KeepAliveAfter(r, c.http11, l.connections) && Effect(r, c, f, key, v).Some?
    ensures Effect(r, c, f, key, v).value.keepAlive == KeepAliveAfter(r, c.http11, Push(l, r.kind(key), v).connections)
  {
    if r.kind(key) == Connection {
      KeepAliveSnoc(r, c.http11, l.connections, v);
    } else {
      assert Push(l, r.kind(key), v).connections == l.connections && Effect(r, c, f, key, v).value.keepAlive == f.keepAlive;
    }
  }

  lemma PushSetsLast(l: Lists, kind: Known, v: bytes)
    ensures var m := Push(l, kind, v);
      && Last(m.types) == (if kind == ContentType then v else Last(l.types))
      && Last(m.expectations) == (if kind == Expectation then v else Last(l.expectations))
      && Last(m.upgrades) == (if kind == Upgrade then v else Last(l.upgrades))
      && Last(m.settings) == (if kind == Http2Settings then v else Last(l.settings))
  {
  }

  lemma EffectSetsLast(r: Rules, c: Context, f: Fields, key: bytes, v: bytes)
    requires Effect(r, c, f, key, v).Some?
    ensures var g, kind := Effect(r, c, f, key, v).value, r.kind(key);
      && g.contentType == (if kind == ContentType then v else f.contentType)
      && g.expectation == (if kind == Expectation then v else f.expectation)
      && g.upgrade == (if kind == Upgrade then v else f.upgrade)
      && g.settings == (if kind == Http2Settings then v else f.settings)
  {
  }

  lemma EffectOnRest(r: Rules, c: Context, f: Fields, l: Lists, key: bytes, v: bytes)
    requires RestOf(r, c, f, l) && Effect(r, c, f, key, v).Some?
    ensures RestOf(r, c, Effect(r, c, f, key, v).value, Push(l, r.kind(key), v))
  {
    EffectOnPersistence(r, c, f, l, key, v);
    PushSetsLast(l, r.kind(key), v);
    EffectSetsLast(r, c, f, key, v);
  }

  // ---------------------------------------------------------------- the fold over lines

  datatype HeadLine = HeadLine(text: bytes, rest: bytes) | Blank(rest: bytes) | BadLine

  /** How lines and the fields in them are read. */
  datatype Grammar = Grammar(line: bytes -> HeadLine, field: bytes -> Option<Header>)

  ghost predicate Consumes(g: Grammar) {
    forall w :: g.line(w).HeadLine? ==> |g.line(w).rest| < |w|
  }

  datatype Section = Section(f: Fields, rest: bytes)

  /** parseHeadersWithLimit from some line on. */
  function Fold(g: Grammar, r: Rules, c: Context, f: Fields, w: bytes): Option<Section>
    requires Consumes(g)
    decreases |w|
  {
    match g.line(w)
    case BadLine => None
    case Blank(rest) => if Closes(c, f) then Some(Section(f, rest)) else None
    case HeadLine(text, rest) =>
      match g.field(text)
      case None => None
      case Some(h) =>
        match Apply(r, c, f, h)
        case None => None
        case Some(f') => Fold(g, r, c, f', rest)
  }

  /** f is the state of the parser after the headers it holds. */
  ghost predicate Reached(r: Rules, c: Context, f: Fields) {
    |f.headers| <= c.max && Admissible(r, c, Sorted(r, f.headers)) && Describes(r, c, f, Sorted(r, f.headers))
  }

  lemma StartReached(r: Rules, c: Context)
    ensures Reached(r, c, Start(c))
  {
  }

  lemma ApplyReaches(r: Rules, c: Context, f: Fields, h: Header)
    requires Reached(r, c, f)
    ensures Apply(r, c, f, h).Some? <==> |f.headers| < c.max && Admissible(r, c, Sorted(r, f.headers + [h]))
    ensures Apply(r, c, f, h).Some? ==> Reached(r, c, Apply(r, c, f, h).value)
  {
    var l := Sorted(r, f.headers);
    SortedSnoc(r, f.headers, h);
    EffectIff(r, c, f, l, h.key, h.value);
    if Apply(r, c, f, h).Some? {
      EffectOnLength(r, c, f, l, h.key, h.value);
      EffectOnCoding(r, c, f, l, h.key, h.value);
      EffectOnHost(r, c, f, l, h.key, h.value);
      EffectOnRest(r, c, f, l, h.key, h.value);
    }
  }

  lemma ClosesIff(r: Rules, c: Context, f: Fields)
    requires Reached(r, c, f)
    ensures Closes(c, f) <==> Acceptable(r, c, f.headers)
  {
  }

  /** Every section that is accepted, whatever the input, is acceptable and is described. */
  lemma {:induction false} FoldSound(g: Grammar, r: Rules, c: Context, f: Fields, w: bytes)
    requires Consumes(g) && Reached(r, c, f)
    ensures var s := Fold(g, r, c, f, w);
      s.Some? ==> Reached(r, c, s.value.f) && Acceptable(r, c, s.value.f.headers)
    decreases |w|
  {
    var l := g.line(w);
    if l.Blank? {
      ClosesIff(r, c, f);
    } else if l.HeadLine? {
      var h := g.field(l.text);
      if h.Some? {
        ApplyReaches(r, c, f, h.value);
        var f' := Apply(r, c, f, h.value);
        if f'.Some? { FoldSound(g, r, c, f'.value, l.rest); }
      }
    }
  }

  // ---------------------------------------------------------------- printed sections

  /** A header with the blanks around its value. */
  datatype FieldLine = FieldLine(h: Header, lead: bytes, tail: bytes)

  function TextOf(l: FieldLine): bytes {
    l.h.key + ([COLON] + (l.lead + l.h.value + l.tail))
  }

  function Print(ls: seq<FieldLine>, rest: bytes): bytes {
    if |ls| == 0 then CRLF + rest else TextOf(ls[0]) + CRLF + Print(ls[1..], rest)
  }

  function Headers(ls: seq<FieldLine>): seq<Header> {
    if |ls| == 0 then [] else [ls[0].h] + Headers(ls[1..])
  }

  ghost predicate ReadsLine(g: Grammar, l: FieldLine, rest: bytes) {
    g.line(TextOf(l) + CRLF + rest) == HeadLine(TextOf(l), rest)
  }

  ghost predicate ReadsField(g: Grammar, l: FieldLine) {
    g.field(TextOf(l)) == Some(l.h)
  }

  ghost predicate ReadsBlank(g: Grammar, rest: bytes) {
    g.line(CRLF + rest) == Blank(rest)
  }

  /** The grammar reads every line that satisfies ok, and the blank line. */
  ghost predicate Understands(g: Grammar, ok: FieldLine -> bool) {
    && Consumes(g) && (forall rest :: ReadsBlank(g, rest))
    && (forall l, rest :: ok(l) ==> ReadsLine(g, l, rest)) && (forall l :: ok(l) ==> ReadsField(g, l))
  }

  lemma AdmissibleBefore(r: Rules, c: Context, l: Lists, kind: Known, v: bytes)
    requires Admissible(r, c, Push(l, kind, v))
    ensures Admissible(r, c, l)
  {
    if kind == ContentLength {
      assert forall i :: 0 <= i < |l.lengths| ==> (l.lengths + [v])[i] == l.lengths[i];
    }
  }

  lemma {:induction false} AdmissiblePrefix(r: Rules, c: Context, hs: seq<Header>, more: seq<Header>)
    requires Admissible(r, c, Sorted(r, hs + more))
    ensures Admissible(r, c, Sorted(r, hs))
    decreases |more|
  {
    if |more| == 0 {
      assert hs + more == hs;
    } else {
      var init, h := more[..|more| - 1], more[|more| - 1];
      assert hs + more == hs + init + [h];
      SortedSnoc(r, hs + init, h);
      AdmissibleBefore(r, c, Sorted(r, hs + init), r.kind(h.key), h.value);
      AdmissiblePrefix(r, c, hs, init);
    }
  }

  /** Parsing a printed section succeeds exactly when its headers are acceptable, and then yields
      these headers in order and consumes exactly the section. */
  lemma {:induction false} FoldPrinted(g: Grammar, ok: FieldLine -> bool, r: Rules, c: Context, f: Fields, ls: seq<FieldLine>, rest: bytes)
    requires Understands(g, ok) && Reached(r, c, f) && forall i :: 0 <= i < |ls| ==> ok(ls[i])
    ensures var s, all := Fold(g, r, c, f, Print(ls, rest)), f.headers + Headers(ls);
      && (s.Some? <==> Acceptable(r, c, all))
      && (s.Some? ==> s.value.rest == rest && s.value.f.headers == all)
    decreases |ls|
  {
    var all := f.headers + Headers(ls);
    if |ls| == 0 {
      assert ReadsBlank(g, rest) && all == f.headers;
      ClosesIff(r, c, f);
    } else {
      var h := ls[0].h;
      assert ReadsLine(g, ls[0], Print(ls[1..], rest)) && ReadsField(g, ls[0]);
      ApplyReaches(r, c, f, h);
      assert f.headers + [h] + Headers(ls[1..]) == all;
      if Apply(r, c, f, h).Some? {
        FoldPrinted(g, ok, r, c, Apply(r, c, f, h).value, ls[1..], rest);
      } else if Acceptable(r, c, all) {
        AdmissiblePrefix(r, c, f.headers + [h], Headers(ls[1..]));
        assert false;
      }
    }
  }
}
