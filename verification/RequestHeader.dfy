/** RequestHeader of header.go: the parsers that fill its fields, proved against the grammar. */
module RequestHeader {
  import opened Bytes
  import opened Options
  import opened Text
  import Decimal
  import opened RequestLine
  import opened KnownHeaders
  import opened HeaderValues
  import opened HeaderFields
  import opened RequestParser

  ghost predicate KindAt(r: Rules, k: bytes) { r.kind(k) == Kind(k) }
  ghost predicate HostAt(r: Rules, v: bytes) { r.host(v) == ValidHost(v) }
  ghost predicate LengthAt(r: Rules, v: bytes) { r.length(v) == Decimal.Size(v) }
  ghost predicate CodingAt(r: Rules, v: bytes) { r.coding(v) == Coding(v) }
  ghost predicate PersistsAt(r: Rules, proto: bytes, keep: bool, v: bytes) { r.persists(keep, v) == Persists(keep, proto, v) }
  ghost predicate SameAt(r: Rules, a: bytes, b: bytes) { r.sameHost(a, b) == EqualFold(a, b) }

  /** r are the rules of this parser. */
  ghost predicate Speaks(r: Rules, proto: bytes) {
    && (forall k :: KindAt(r, k)) && (forall v :: HostAt(r, v)) && (forall v :: LengthAt(r, v)) && (forall v :: CodingAt(r, v))
    && (forall keep, v :: PersistsAt(r, proto, keep, v)) && (forall a, b :: SameAt(r, a, b))
  }

  lemma RulesSpeak(proto: bytes)
    ensures Speaks(RulesOf(proto), proto)
  {
  }

  ghost predicate LineAt(g: Grammar, w: bytes) { g.line(w) == NextLine(w) }
  ghost predicate FieldAt(g: Grammar, text: bytes) { g.field(text) == FieldOf(text) }

  /** The header values read by their own parsers, as the rules say. */
  method ReadKind(ghost r: Rules, ghost proto: bytes, key: bytes) returns (kind: Known)
    requires Speaks(r, proto) && ValidToken(key)
    ensures kind == r.kind(key)
  {
    assert KindAt(r, key);
    kind := KnownHeader(key);
  }

  method ReadLength(ghost r: Rules, ghost proto: bytes, v: bytes) returns (n: Option<nat>)
    requires Speaks(r, proto)
    ensures n == r.length(v)
  {
    assert LengthAt(r, v);
    var k, ok := Decimal.ParseContentLength(v);
    n := if ok then Some(k) else None;
  }

  method ReadCoding(ghost r: Rules, ghost proto: bytes, v: bytes) returns (k: Option<bool>)
    requires Speaks(r, proto)
    ensures k == r.coding(v)
  {
    assert CodingAt(r, v);
    k := ParseTransferCoding(v);
  }

  method ReadPersists(ghost r: Rules, proto: bytes, keep: bool, v: bytes) returns (b: bool)
    requires Speaks(r, proto) && NoControl(v)
    ensures b == r.persists(keep, v)
  {
    assert PersistsAt(r, proto, keep, v);
    b := ApplyConnection(keep, proto, v);
  }

  method ReadHost(ghost r: Rules, ghost proto: bytes, authority: bytes, v: bytes) returns (ok: bool)
    requires Speaks(r, proto)
    ensures ok <==> r.host(v) && (authority != [] ==> r.sameHost(authority, v))
  {
    assert HostAt(r, v) && SameAt(r, authority, v);
    ok := ValidHost(v) && (|authority| == 0 || EqualFold(authority, v));
  }

  /** The next line of src from pos on, and the position after it. */
  method NextAt(src: bytes, pos: nat) returns (text: Option<bytes>, next: nat, blank: bool)
    requires pos <= |src|
    ensures pos <= next <= |src| && (text.Some? ==> pos < next)
    ensures NextLine(src[pos..]) ==
      if blank then Blank(src[next..]) else if text.Some? then HeadLine(text.value, src[next..]) else BadLine
  {
    ghost var w := src[pos..];
    if pos >= |src| {
      return None, pos, false;
    }
    if src[pos] == CR && pos + 1 < |src| && src[pos + 1] == LF {
      assert w[2..] == src[pos + 2..];
      return None, pos + 2, true;
    }
    if src[pos] == SP || src[pos] == HTAB {
      return None, pos, false;
    }
    var nl := IndexOf(src[pos..], LF);
    if nl < 0 {
      return None, pos, false;
    }
    if nl == 0 || src[pos + nl - 1] != CR {
      return None, pos, false;
    }
    assert w[..nl - 1] == src[pos..pos + nl - 1] && w[nl + 1..] == src[pos + nl + 1..];
    return Some(src[pos..pos + nl - 1]), pos + nl + 1, false;
  }

  /** One header line: its name, and its value without the blanks around it. */
  method ReadField(text: bytes) returns (h: Option<Header>)
    ensures h == FieldOf(text)
    ensures h.Some? ==> ValidToken(h.value.key) && NoControl(h.value.value)
  {
    var colon := IndexOf(text, COLON);
    if colon <= 0 || !ValidToken(text[..colon]) {
      return None;
    }
    var v := Trim(text[colon + 1..], false);
    var ok := CheckValue(v);
    return if ok then Some(Header(text[..colon], v)) else None;
  }

  method CheckValue(v: bytes) returns (ok: bool)
    ensures ok <==> ValueOk(v)
    ensures ok ==> NoControl(v)
  {
    for i := 0 to |v|
      invariant forall k :: 0 <= k < i ==> (v[k] >= 0x20 || v[k] == HTAB) && v[k] != 0x7f
    {
      if (v[i] < 0x20 && v[i] != HTAB) || v[i] == 0x7f {
        return false;
      }
    }
    return true;
  }

  /** g is the grammar of this parser. */
  ghost predicate Reads(g: Grammar) {
    Consumes(g) && (forall w :: LineAt(g, w)) && (forall text :: FieldAt(g, text))
  }

  lemma GrammarReads()
    ensures Reads(HeadGrammar())
  {
  }

  method FieldBy(ghost g: Grammar, text: bytes) returns (h: Option<Header>)
    requires Reads(g)
    ensures h == g.field(text) && (h.Some? ==> ValidToken(h.value.key) && NoControl(h.value.value))
  {
    assert FieldAt(g, text);
    h := ReadField(text);
  }

  // ---------------------------------------------------------------- request targets

  /** The scan over the target: forbidden bytes, and the first question mark. */
  method ScanTarget(t: bytes) returns (clean: bool, queryAt: int)
    ensures clean <==> CleanTarget(t)
    ensures clean ==> queryAt == IndexOf(t, QUESTION)
  {
    queryAt := -1;
    for i := 0 to |t|
      invariant CleanTarget(t[..i]) && -1 <= queryAt < i
      invariant if queryAt < 0 then QUESTION !in t[..i] else t[queryAt] == QUESTION && QUESTION !in t[..queryAt]
    {
      assert t[..i + 1] == t[..i] + [t[i]];
      if t[i] <= 0x20 || t[i] == 0x7f || t[i] == HASH {
        return false, queryAt;
      }
      if t[i] == QUESTION && queryAt < 0 {
        queryAt := i;
      }
    }
    assert t[..|t|] == t;
    if queryAt >= 0 { IndexIs(t, QUESTION, queryAt); }
    return true, queryAt;
  }

  /** absolute-form: the scheme's bytes are checked, the authority ends at the path or the query. */
  method SplitAbsolute(t: bytes) returns (r: Option<Routed>)
    ensures r == AbsoluteForm(t)
  {
    var abs := SchemeEnd(t, 0);
    if abs <= 0 || abs + 3 >= |t| {
      return None;
    }
    for i := 0 to abs
      invariant forall k :: 0 <= k < i ==> SchemeByte(t[k])
    {
      if !SchemeByte(t[i]) {
        return None;
      }
    }
    var start := abs + 3;
    while start < |t| && t[start] != SLASH && t[start] != QUESTION
      invariant abs + 3 <= start <= |t| && PathStart(t, abs + 3) == PathStart(t, start)
    {
      start := start + 1;
    }
    var route: bytes := [];
    if start < |t| && t[start] == SLASH {
      route := t[start..];
    }
    return Some(Routed(route, t[abs + 3..start], false));
  }

  method RouteTarget(verb: bytes, t: bytes) returns (r: Option<Routed>)
    requires t != []
    ensures r == Route(verb, t)
  {
    if t[0] == SLASH {
      return Some(Routed(t, [], true));
    }
    if verb == Ascii("OPTIONS") && |t| == 1 && t[0] == STAR {
      return Some(Routed(t, [], true));
    }
    if verb == Ascii("CONNECT") && IndexOf(t, SLASH) < 0 {
      return Some(Routed(t, t, true));
    }
    r := SplitAbsolute(t);
  }

  /** The path and the query of what is routed on; in absolute form the query is searched again. */
  method FillLine(p: Parts, r: Routed, queryAt: int) returns (l: Line)
    requires queryAt == IndexOf(p.target, QUESTION) && (r.same ==> r.route == p.target)
    ensures l == BuildLine(p, r)
  {
    var routeQueryAt := if r.same then queryAt else IndexOf(r.route, QUESTION);
    if |r.route| == 0 {
      var query := if queryAt >= 0 && queryAt + 1 < |p.target| then p.target[queryAt + 1..] else [];
      l := Line(p.verb, p.target, p.proto, r.route, [SLASH], query, r.authority);
    } else if routeQueryAt >= 0 {
      var query := if routeQueryAt + 1 < |r.route| then r.route[routeQueryAt + 1..] else [];
      l := Line(p.verb, p.target, p.proto, r.route, r.route[..routeQueryAt], query, r.authority);
    } else {
      l := Line(p.verb, p.target, p.proto, r.route, r.route, [], r.authority);
    }
  }

  method CutLine(buf: bytes, max: int) returns (text: bytes, used: nat, e: Option<Error>)
    ensures TakeLine(buf, max) == if e.None? then Parsed(text, used) else Rejected(e.value)
  {
    var limit := |buf|;
    if max > 0 && limit > max + 2 {
      limit := max + 2;
    }
    ghost var all := IndexOf(buf, LF);
    var nl := IndexOf(buf[..limit], LF);
    assert nl == if 0 <= all < limit then all else -1 by {
      if 0 <= all < limit {
        assert buf[..limit][..all] == buf[..all];
        IndexIs(buf[..limit], LF, all);
      }
    }
    if nl < 0 {
      return [], 0, Some(if max > 0 && |buf| > max then TooLong else Malformed);
    }
    if nl == 0 || buf[nl - 1] != CR {
      return [], 0, Some(Malformed);
    }
    return buf[..nl - 1], nl + 1, None;
  }

  class Parser {
    var line: Line
    var fields: Fields

    constructor ()
      ensures fields == Fields([], [], [], [], [], 0, false, false, false, false, false, false, [])
    {
      line := Line([], [], [], [], [], [], []);
      fields := Fields([], [], [], [], [], 0, false, false, false, false, false, false, []);
    }

    /** parseRequestLine: on success the line is recorded, and with it what the headers start from. */
    method ParseRequestLine(buf: bytes, max: int) returns (used: nat, e: Option<Error>)
      requires fields == Fields([], [], [], [], [], 0, false, false, false, false, false, false, [])
      modifies this
      ensures ParseLine(buf, max) == if e.None? then Parsed(line, used) else Rejected(e.value)
      ensures e.None? ==> forall n :: fields == Start(ContextOf(line, n))
    {
      var text, n, cut := CutLine(buf, max);
      if cut.Some? {
        return 0, cut;
      }
      var p := SplitLine(text);
      if p.None? {
        return 0, Some(Malformed);
      }
      if p.value.proto != HTTP11 && p.value.proto != HTTP10 {
        return 0, Some(Version);
      }
      var routed := RouteTarget(p.value.verb, p.value.target);
      if routed.None? {
        return 0, Some(Malformed);
      }
      var clean, queryAt := ScanTarget(p.value.target);
      if !clean {
        return 0, Some(Malformed);
      }
      line := FillLine(p.value, routed.value, queryAt);
      fields := fields.(host := line.authority, keepAlive := line.proto == HTTP11);
      return n, None;
    }

    /** The switch over known headers. */
    method Note(ghost r: Rules, ghost c: Context, key: bytes, v: bytes) returns (ok: bool)
      requires ValidToken(key) && NoControl(v) && Speaks(r, line.proto) && c.authority == line.authority
      modifies this`fields
      ensures ok <==> Effect(r, c, old(fields), key, v).Some?
      ensures ok ==> fields == Effect(r, c, old(fields), key, v).value
    {
      var kind := ReadKind(r, line.proto, key);
      match kind {
        case Host =>
          var valid := ReadHost(r, line.proto, line.authority, v);
          if fields.seenHost || !valid {
            return false;
          }
          fields := fields.(seenHost := true, host := if |line.authority| != 0 then line.authority else v);
        case ContentType => fields := fields.(contentType := v);
        case ContentLength =>
          var n := ReadLength(r, line.proto, v);
          if n.None? || (fields.hasLength && n.value != fields.length) {
            return false;
          }
          fields := fields.(length := n.value, hasLength := true);
        case Connection =>
          var keep := ReadPersists(r, line.proto, fields.keepAlive, v);
          fields := fields.(keepAlive := keep);
        case TransferEncoding =>
          var k := ReadCoding(r, line.proto, v);
          if fields.seenCoding || k.None? {
            return false;
          }
          fields := fields.(seenCoding := true, chunked := k.value, unsupported := !k.value);
        case Expectation => fields := fields.(expectation := v);
        case Upgrade => fields := fields.(upgrade := v);
        case Http2Settings => fields := fields.(settings := v);
        case Unknown =>
      }
      return true;
    }

    /** One header line is taken into the fields. */
    method Take(ghost g: Grammar, ghost r: Rules, c: Context, text: bytes) returns (ok: bool)
      requires Reads(g) && Speaks(r, line.proto) && c.authority == line.authority
      modifies this`fields
      ensures ok <==> g.field(text).Some? && Apply(r, c, old(fields), g.field(text).value).Some?
      ensures ok ==> fields == Apply(r, c, old(fields), g.field(text).value).value
    {
      var h := FieldBy(g, text);
      if h.None? {
        return false;
      }
      var noted := Note(r, c, h.value.key, h.value.value);
      if !noted || |fields.headers| >= c.max {
        return false;
      }
      fields := fields.(headers := fields.headers + [h.value]);
      return true;
    }

    /** parseHeadersWithLimit, after the request line. */
    method ParseHeaders(src: bytes, maxCount: int) returns (used: nat, ok: bool)
      requires fields == Start(ContextOf(line, maxCount))
      modifies this`fields
      ensures ok <==> ParseSection(line, maxCount, src).Some?
      ensures ok ==> used <= |src| && ParseSection(line, maxCount, src) == Some(Section(fields, src[used..]))
    {
      var c := ContextOf(line, maxCount);
      ghost var g, r := HeadGrammar(), RulesOf(line.proto);
      GrammarReads();
      RulesSpeak(line.proto);
      assert src[0..] == src;
      used, ok := Loop(g, r, c, src);
    }

    method Loop(ghost g: Grammar, ghost r: Rules, c: Context, src: bytes) returns (pos: nat, ok: bool)
      requires Reads(g) && Speaks(r, line.proto) && c.authority == line.authority
      modifies this`fields
      ensures var s := Fold(g, r, c, old(fields), src);
        if ok then pos <= |src| && s == Some(Section(fields, src[pos..])) else s == None
    {
      pos := 0;
      ghost var goal := Fold(g, r, c, fields, src);
      assert src[0..] == src;
      while true
        invariant pos <= |src| && goal == Fold(g, r, c, fields, src[pos..])
        decreases |src| - pos
      {
        assert LineAt(g, src[pos..]);
        var text, next, blank := NextAt(src, pos);
        if blank {
          pos := next;
          break;
        }
        if text.None? {
          return pos, false;
        }
        var taken := Take(g, r, c, text.value);
        if !taken {
          return pos, false;
        }
        pos := next;
      }
      if fields.chunked && fields.hasLength {
        return pos, false;
      }
      if c.http11 && !fields.seenHost {
        return pos, false;
      }
      return pos, true;
    }
  }
}
