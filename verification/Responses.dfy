/** The HTTP/1 response writers of ctx.go and the precomputed tables of pool.go. */
module Responses {
  import opened Bytes
  import opened Options
  import opened Hex
  import Decimal

  const RESERVE := 192
  const CACHED := 256

  const OK_LINE := Ascii("HTTP/1.1 200 OK\r\n")
  const PLAIN_TYPE := Ascii("text/plain; charset=utf-8")
  const JSON_TYPE := Ascii("application/json")

  /** SendDateHeader with the cached date line, ServerHeader, SendKeepAliveHeader. */
  datatype Config = Config(date: Option<bytes>, server: bytes, announce: bool)

  /** What a handler has set; keep is KeepAlive and not forceClose. */
  datatype Response = Response(
    status: nat, reason: bytes, contentType: Option<bytes>, custom: seq<Header>, extra: seq<Header>, cookies: seq<bytes>,
    trailers: seq<Header>, head: bool, keep: bool)

  // ---------------------------------------------------------------- the bytes of a response

  function StatusLine(r: Response): bytes {
    if r.status == 200 then OK_LINE else Ascii("HTTP/1.1 ") + Decimal.Digits(r.status) + [SP] + r.reason + CRLF
  }

  function DateLine(cfg: Config): bytes {
    if cfg.date.Some? then cfg.date.value else []
  }

  function TypeLine(ct: Option<bytes>): bytes {
    if ct.Some? then Ascii("Content-Type: ") + ct.value + CRLF else []
  }

  function HeaderLine(h: Header): bytes {
    h.key + [COLON, SP] + h.value + CRLF
  }

  function HeaderLines(hs: seq<Header>): bytes {
    if |hs| == 0 then [] else HeaderLines(hs[..|hs| - 1]) + HeaderLine(hs[|hs| - 1])
  }

  function ServerLine(cfg: Config): bytes {
    if cfg.server != [] then Ascii("Server: ") + cfg.server + CRLF else []
  }

  function CookieLine(c: bytes): bytes {
    Ascii("Set-Cookie: ") + c + CRLF
  }

  function CookieLines(cs: seq<bytes>): bytes {
    if |cs| == 0 then [] else CookieLines(cs[..|cs| - 1]) + CookieLine(cs[|cs| - 1])
  }

  function LengthLine(n: nat): bytes {
    Ascii("Content-Length: ") + Decimal.Digits(n) + CRLF
  }

  predicate BodyAllowed(status: nat) {
    status >= 200 && status != 204 && status != 205 && status != 304
  }

  function Names(ts: seq<Header>): bytes {
    if |ts| == 0 then [] else if |ts| == 1 then ts[0].key else Names(ts[..|ts| - 1]) + [COMMA] + ts[|ts| - 1].key
  }

  function FramingLines(r: Response, n: nat): bytes {
    if !BodyAllowed(r.status) then []
    else if |r.trailers| > 0 then Ascii("Transfer-Encoding: chunked\r\n") + Ascii("Trailer: ") + Names(r.trailers) + CRLF
    else LengthLine(n)
  }

  function ConnectionLine(cfg: Config, keep: bool): bytes {
    if !keep then Ascii("Connection: close\r\n") else if cfg.announce then Ascii("Connection: keep-alive\r\n") else []
  }

  /** A single chunk, the last chunk and the trailers. */
  function ChunkedContent(body: bytes, ts: seq<Header>): bytes {
    (if |body| > 0 then Numeral(|body|) + CRLF + body + CRLF else []) + (Ascii("0\r\n") + HeaderLines(ts) + CRLF)
  }

  function Content(r: Response, body: bytes): bytes {
    if !BodyAllowed(r.status) || r.head then []
    else if |r.trailers| > 0 then ChunkedContent(body, r.trailers)
    else body
  }

  function HeadBytes(cfg: Config, r: Response, n: nat): bytes {
    StatusLine(r) + DateLine(cfg) + TypeLine(r.contentType) + HeaderLines(r.custom) + HeaderLines(r.extra)
    + ServerLine(cfg) + CookieLines(r.cookies) + FramingLines(r, n) + ConnectionLine(cfg, r.keep) + CRLF
  }

  /** What the general writer puts on the wire. */
  function General(cfg: Config, r: Response, body: bytes): bytes {
    HeadBytes(cfg, r, |body|) + Content(r, body)
  }

  // ---------------------------------------------------------------- the general writer

  method AppendHeaders(dst: bytes, hs: seq<Header>) returns (buf: bytes)
    ensures buf == dst + HeaderLines(hs)
  {
    buf := dst;
    for i := 0 to |hs|
      invariant buf == dst + HeaderLines(hs[..i])
    {
      assert hs[..i + 1][..i] == hs[..i];
      buf := buf + hs[i].key;
      buf := buf + [COLON, SP];
      buf := buf + hs[i].value;
      buf := buf + CRLF;
      assert buf == dst + HeaderLines(hs[..i]) + HeaderLine(hs[i]);
    }
    assert hs[..|hs|] == hs;
  }

  method AppendCookie(dst: bytes, c: bytes) returns (buf: bytes)
    ensures buf == dst + CookieLine(c)
  {
    buf := dst + Ascii("Set-Cookie: ");
    buf := buf + c;
    buf := buf + CRLF;
    assert buf == dst + (Ascii("Set-Cookie: ") + c + CRLF);
  }

  method AppendCookies(dst: bytes, cs: seq<bytes>) returns (buf: bytes)
    ensures buf == dst + CookieLines(cs)
  {
    buf := dst;
    for i := 0 to |cs|
      invariant buf == dst + CookieLines(cs[..i])
    {
      assert cs[..i + 1][..i] == cs[..i];
      buf := AppendCookie(buf, cs[i]);
      assert buf == dst + CookieLines(cs[..i]) + CookieLine(cs[i]);
    }
    assert cs[..|cs|] == cs;
  }

  method AppendNames(dst: bytes, ts: seq<Header>) returns (buf: bytes)
    ensures buf == dst + Names(ts)
  {
    buf := dst;
    for i := 0 to |ts|
      invariant buf == dst + Names(ts[..i])
    {
      assert ts[..i + 1][..i] == ts[..i];
      if i > 0 {
        buf := buf + [COMMA];
      }
      buf := buf + ts[i].key;
      assert buf == dst + Names(ts[..i + 1]);
    }
    assert ts[..|ts|] == ts;
  }

  /** appendContentLengthLine: small lengths come from a table, which holds the same lines. */
  method AppendLength(dst: bytes, n: nat, table: seq<bytes>) returns (buf: bytes)
    requires |table| == 1024 && forall i :: 0 <= i < 1024 ==> table[i] == LengthLine(i)
    requires n <= MAX_INT
    ensures buf == dst + LengthLine(n)
  {
    if n < |table| {
      return dst + table[n];
    }
    buf := dst + Ascii("Content-Length: ");
    buf := Decimal.AppendInt(buf, n);
    buf := buf + CRLF;
    assert buf == dst + LengthLine(n);
  }

  /** The tables that an init loop fills. */
  datatype Tables = Tables(lengths: seq<bytes>, plain: seq<bytes>, json: seq<bytes>)

  function CachedHead(ct: bytes, n: nat): bytes {
    OK_LINE + TypeLine(Some(ct)) + LengthLine(n) + CRLF
  }

  ghost predicate TablesOk(t: Tables) {
    && |t.lengths| == 1024 && (forall i :: 0 <= i < 1024 ==> t.lengths[i] == LengthLine(i))
    && |t.plain| == CACHED && (forall i :: 0 <= i < CACHED ==> t.plain[i] == CachedHead(PLAIN_TYPE, i))
    && |t.json| == CACHED && (forall i :: 0 <= i < CACHED ==> t.json[i] == CachedHead(JSON_TYPE, i))
  }

  method FillTable(n: nat, line: nat -> bytes) returns (table: seq<bytes>)
    ensures |table| == n && forall i :: 0 <= i < n ==> table[i] == line(i)
  {
    table := [];
    for i := 0 to n
      invariant |table| == i && forall k :: 0 <= k < i ==> table[k] == line(k)
    {
      table := table + [line(i)];
    }
  }

  /** The loops of init: the heads reuse the lines with the lengths. */
  method InitTables() returns (t: Tables)
    ensures TablesOk(t)
  {
    var lengths := FillTable(1024, (i: nat) => LengthLine(i));
    var line := (i: nat) => if i < 1024 then lengths[i] else [];
    var plain := FillTable(CACHED, (i: nat) => OK_LINE + TypeLine(Some(PLAIN_TYPE)) + line(i) + CRLF);
    var json := FillTable(CACHED, (i: nat) => OK_LINE + TypeLine(Some(JSON_TYPE)) + line(i) + CRLF);
    forall i | 0 <= i < CACHED ensures plain[i] == CachedHead(PLAIN_TYPE, i) && json[i] == CachedHead(JSON_TYPE, i) {
      assert line(i) == LengthLine(i);
    }
    t := Tables(lengths, plain, json);
  }

  /** A response on which no flag is set: status 200 and nothing added. */
  function Plain(ct: Option<bytes>, keep: bool): Response {
    Response(200, [], ct, [], [], [], [], false, keep)
  }

  /** The head of a plain response without its empty parts. */
  function PlainHead(cfg: Config, ct: Option<bytes>, keep: bool, n: nat): bytes {
    OK_LINE + DateLine(cfg) + TypeLine(ct) + ServerLine(cfg) + LengthLine(n) + ConnectionLine(cfg, keep) + CRLF
  }

  lemma PlainIsGeneral(cfg: Config, ct: Option<bytes>, keep: bool, body: bytes)
    ensures General(cfg, Plain(ct, keep), body) == PlainHead(cfg, ct, keep, |body|) + body
  {
    var r := Plain(ct, keep);
    var front := OK_LINE + DateLine(cfg) + TypeLine(ct);
    assert HeaderLines([]) == [] && CookieLines([]) == [];
    assert front + HeaderLines(r.custom) + HeaderLines(r.extra) == front;
    assert front + ServerLine(cfg) + CookieLines(r.cookies) == front + ServerLine(cfg);
  }

  /** The common head assembly of the direct writers. */
  method AppendPlainHead(cfg: Config, ct: Option<bytes>, keep: bool, n: nat, t: Tables) returns (buf: bytes)
    requires TablesOk(t) && n <= MAX_INT
    ensures buf == PlainHead(cfg, ct, keep, n)
  {
    buf := OK_LINE;
    if cfg.date.Some? {
      buf := buf + cfg.date.value;
    }
    assert buf == OK_LINE + DateLine(cfg);
    if ct.Some? {
      buf := buf + (Ascii("Content-Type: ") + ct.value + CRLF);
    }
    assert buf == OK_LINE + DateLine(cfg) + TypeLine(ct);
    if cfg.server != [] {
      buf := buf + (Ascii("Server: ") + cfg.server + CRLF);
    }
    assert buf == OK_LINE + DateLine(cfg) + TypeLine(ct) + ServerLine(cfg);
    buf := AppendLength(buf, n, t.lengths);
    var tail := ConnectionEnd(cfg, keep);
    ghost var front := OK_LINE + DateLine(cfg) + TypeLine(ct) + ServerLine(cfg) + LengthLine(n);
    assert front + (ConnectionLine(cfg, keep) + CRLF) == front + ConnectionLine(cfg, keep) + CRLF;
    buf := buf + tail;
  }

  /** The direct writers append the connection line and the empty line as one literal. */
  method ConnectionEnd(cfg: Config, keep: bool) returns (tail: bytes)
    ensures tail == ConnectionLine(cfg, keep) + CRLF
  {
    if keep {
      if cfg.announce {
        tail := Ascii("Connection: keep-alive\r\n\r\n");
      } else {
        tail := CRLF;
      }
    } else {
      tail := Ascii("Connection: close\r\n\r\n");
    }
  }

  /** writeDirect200Bytes: what the general writer would emit, in one buffer or two. */
  method WriteDirectBytes(cfg: Config, ct: Option<bytes>, keep: bool, body: bytes, t: Tables) returns (wire: bytes)
    requires TablesOk(t) && |body| <= MAX_INT
    ensures wire == General(cfg, Plain(ct, keep), body)
  {
    PlainIsGeneral(cfg, ct, keep, body);
    var buf := AppendPlainHead(cfg, ct, keep, |body|, t);
    if |body| >= 512 {
      return buf + body;
    }
    buf := buf + body;
    return buf;
  }

  // ---------------------------------------------------------------- writeResponse

  method AppendHead(cfg: Config, r: Response, n: nat, t: Tables) returns (buf: bytes)
    requires TablesOk(t) && n <= MAX_INT
    ensures buf == HeadBytes(cfg, r, n)
  {
    buf := StatusLine(r) + DateLine(cfg) + TypeLine(r.contentType);
    buf := AppendHeaders(buf, r.custom);
    buf := AppendHeaders(buf, r.extra);
    buf := buf + ServerLine(cfg);
    buf := AppendCookies(buf, r.cookies);
    buf := AppendFraming(buf, r, n, t);
    buf := buf + ConnectionLine(cfg, r.keep);
    buf := buf + CRLF;
  }

  method AppendFraming(dst: bytes, r: Response, n: nat, t: Tables) returns (buf: bytes)
    requires TablesOk(t) && n <= MAX_INT
    ensures buf == dst + FramingLines(r, n)
  {
    buf := dst;
    if BodyAllowed(r.status) && |r.trailers| > 0 {
      var head := Ascii("Transfer-Encoding: chunked\r\n") + Ascii("Trailer: ");
      var names := AppendNames(head, r.trailers);
      buf := dst + (names + CRLF);
    } else if BodyAllowed(r.status) {
      buf := AppendLength(dst, n, t.lengths);
    }
  }

  method AppendContent(dst: bytes, r: Response, body: bytes) returns (buf: bytes)
    requires |body| <= MAX_INT
    ensures buf == dst + Content(r, body)
  {
    buf := dst;
    if BodyAllowed(r.status) && !r.head {
      if |r.trailers| > 0 {
        var chunk: bytes := [];
        if |body| > 0 {
          chunk := AppendHex(chunk, |body|);
          chunk := chunk + CRLF + body + CRLF;
        }
        var lines := AppendHeaders(Ascii("0\r\n"), r.trailers);
        buf := dst + (chunk + (lines + CRLF));
      } else {
        buf := dst + body;
      }
    }
  }

  /** writeResponse without its direct branch. */
  method WriteResponse(cfg: Config, r: Response, body: bytes, t: Tables) returns (wire: bytes)
    requires TablesOk(t) && |body| <= MAX_INT
    ensures wire == General(cfg, r, body)
  {
    var buf := AppendHead(cfg, r, |body|, t);
    wire := AppendContent(buf, r, body);
  }

  // ---------------------------------------------------------------- cached heads

  lemma Shortened(a: bytes, gap: bytes, b: bytes, s: bytes)
    ensures a + b + s == a + gap + b + s <==> gap == []
  {
    assert |a + b + s| == |a + gap + b + s| - |gap|;
    assert gap == [] ==> a + gap == a;
  }

  /** The cache may be used: a short body on a connection that is kept, without date and keep-alive headers. */
  predicate Cacheable(cfg: Config, keep: bool, n: nat) {
    n < CACHED && cfg.date.None? && !cfg.announce && keep
  }

  lemma CacheableHead(cfg: Config, ct: Option<bytes>, keep: bool, n: nat)
    requires Cacheable(cfg, keep, n)
    ensures PlainHead(cfg, ct, keep, n) == (OK_LINE + TypeLine(ct)) + ServerLine(cfg) + (LengthLine(n) + CRLF)
  {
    var front := OK_LINE + TypeLine(ct) + ServerLine(cfg);
    assert OK_LINE + DateLine(cfg) == OK_LINE;
    assert LengthLine(n) + ConnectionLine(cfg, keep) == LengthLine(n);
    assert front + LengthLine(n) + ConnectionLine(cfg, keep) == front + LengthLine(n);
    assert front + LengthLine(n) + CRLF == front + (LengthLine(n) + CRLF);
  }

  /** A cached head is the head of the plain response exactly when no Server header is configured. */
  lemma CachedHeadIff(cfg: Config, ct: bytes, keep: bool, s: bytes)
    requires Cacheable(cfg, keep, |s|)
    ensures CachedHead(ct, |s|) + s == General(cfg, Plain(Some(ct), keep), s) <==> cfg.server == []
  {
    PlainIsGeneral(cfg, Some(ct), keep, s);
    CacheableHead(cfg, Some(ct), keep, |s|);
    var a, b := OK_LINE + TypeLine(Some(ct)), LengthLine(|s|) + CRLF;
    assert CachedHead(ct, |s|) == a + b;
    Shortened(a, ServerLine(cfg), b, s);
    assert ServerLine(cfg) == [] <==> cfg.server == [];
  }

  /** writeDirect200String. `shared` tells that the content type is the program's own plain-text
      slice. Except from the cache, the general writer's bytes; from the cache, exactly when no Server
      header is configured. */
  method WriteDirectString(cfg: Config, ct: Option<bytes>, shared: bool, keep: bool, s: bytes, t: Tables) returns (wire: bytes)
    requires TablesOk(t) && |s| <= MAX_INT && (shared ==> ct == Some(PLAIN_TYPE))
    ensures wire == General(cfg, Plain(ct, keep), s) <==> cfg.server == [] || !(Cacheable(cfg, keep, |s|) && shared)
  {
    if |s| < CACHED && cfg.date.None? && !cfg.announce && keep && shared {
      CachedHeadIff(cfg, PLAIN_TYPE, keep, s);
      return t.plain[|s|] + s;
    }
    PlainIsGeneral(cfg, ct, keep, s);
    var buf := AppendPlainHead(cfg, ct, keep, |s|, t);
    return buf + s;
  }

  // ---------------------------------------------------------------- JSON in place

  /** A line of a type without CR, followed by something, is only another such line if nothing follows. */
  lemma LineClash(p: bytes, j: bytes, x: bytes, s: bytes)
    requires p + j + CRLF == p + x + CRLF + s && CR !in j
    ensures x == j && s == []
  {
    var a, b := p + j + CRLF, p + x + CRLF + s;
    assert b[|p| + |x|] == CR;
    assert x == b[|p|..|p| + |x|] && j == a[|p|..|p| + |j|];
  }

  lemma TypeLineFacts()
    ensures CR !in JSON_TYPE && |Ascii("Content-Type: ")| > 0 && |Ascii("Server: ")| > 0
    ensures Ascii("Content-Type: ")[0] != Ascii("Server: ")[0]
  {
  }

  lemma SameTypeLine(cfg: Config, ct: Option<bytes>)
    requires TypeLine(Some(JSON_TYPE)) == TypeLine(ct) + ServerLine(cfg)
    ensures ct == Some(JSON_TYPE) && cfg.server == []
  {
    var p, q := Ascii("Content-Type: "), Ascii("Server: ");
    TypeLineFacts();
    OtherLine(p, JSON_TYPE, q, cfg.server);
    assert ct.None? ==> TypeLine(ct) + ServerLine(cfg) == ServerLine(cfg);
    if ct.Some? { LineClash(p, JSON_TYPE, ct.value, ServerLine(cfg)); }
  }

  lemma OtherLine(p: bytes, x: bytes, q: bytes, y: bytes)
    requires |p| > 0 && |q| > 0 && p[0] != q[0]
    ensures p + x + CRLF != q + y + CRLF && p + x + CRLF != []
  {
    assert (p + x + CRLF)[0] == p[0] && (q + y + CRLF)[0] == q[0];
  }

  lemma Regroup(a: bytes, b: bytes, c: bytes, d: bytes, e: bytes)
    ensures (a + b) + c + (d + CRLF) + e == a + (b + c) + (d + CRLF + e)
    ensures a + b + c + d + CRLF + e == a + (b + c) + (d + CRLF + e)
  {
  }

  lemma CutMiddle(a: bytes, p: bytes, q: bytes, b: bytes)
    requires a + p + b == a + q + b
    ensures p == q
  {
    assert |p| == |q|;
    assert p == (a + p + b)[|a|..|a| + |p|];
    assert q == (a + q + b)[|a|..|a| + |q|];
  }

  /** The cached JSON head is the plain response's exactly when the type is application/json and no
      Server header is configured. */
  lemma JsonCacheIff(cfg: Config, ct: Option<bytes>, keep: bool, body: bytes)
    requires Cacheable(cfg, keep, |body|)
    ensures CachedHead(JSON_TYPE, |body|) + body == General(cfg, Plain(ct, keep), body) <==> ct == Some(JSON_TYPE) && cfg.server == []
  {
    if ct == Some(JSON_TYPE) {
      CachedHeadIff(cfg, JSON_TYPE, keep, body);
    } else {
      PlainIsGeneral(cfg, ct, keep, body);
      CacheableHead(cfg, ct, keep, |body|);
      var p, q := TypeLine(Some(JSON_TYPE)), TypeLine(ct) + ServerLine(cfg);
      Regroup(OK_LINE, p, [], LengthLine(|body|), body);
      Regroup(OK_LINE, TypeLine(ct), ServerLine(cfg), LengthLine(|body|), body);
      assert OK_LINE + p + [] == OK_LINE + p && p + [] == p;
      if CachedHead(JSON_TYPE, |body|) + body == General(cfg, Plain(ct, keep), body) {
        CutMiddle(OK_LINE, p, q, LengthLine(|body|) + CRLF + body);
        SameTypeLine(cfg, ct);
        assert false;
      }
    }
  }

  // ---------------------------------------------------------------- the reserve

  /** The length of a plain head: fixed text, and what the configuration and the body contribute. */
  lemma PlainHeadLength(cfg: Config, ct: Option<bytes>, keep: bool, n: nat)
    ensures |PlainHead(cfg, ct, keep, n)| ==
      37 + |DateLine(cfg)| + (if ct.Some? then 16 + |ct.value| else 0) + (if cfg.server != [] then 10 + |cfg.server| else 0)
      + |Decimal.Digits(n)| + (if !keep then 19 else if cfg.announce then 24 else 0)
  {
  }

  /** The longest plain head of a configuration and a type. */
  function LongestHead(cfg: Config, ct: Option<bytes>): nat {
    37 + |DateLine(cfg)| + (if ct.Some? then 16 + |ct.value| else 0) + (if cfg.server != [] then 10 + |cfg.server| else 0)
    + 19 + (if cfg.announce then 24 else 19)
  }

  lemma HeadWithinLongest(cfg: Config, ct: Option<bytes>, keep: bool, n: nat)
    requires n <= MAX_INT
    ensures |PlainHead(cfg, ct, keep, n)| <= LongestHead(cfg, ct)
    ensures n == MAX_INT && keep == cfg.announce ==> |PlainHead(cfg, ct, keep, n)| == LongestHead(cfg, ct)
  {
    PlainHeadLength(cfg, ct, keep, n);
    Decimal.DigitsWithin19(n);
    if n == MAX_INT { Decimal.DigitsOfMax(); }
  }

  ghost predicate Fits(cfg: Config, ct: Option<bytes>, keep: bool, n: nat) {
    |PlainHead(cfg, ct, keep, n)| <= RESERVE
  }

  /** The head fits the reserve for every body, on connections that stay open and that close, exactly
      when the longest one does. */
  lemma HeadFitsIff(cfg: Config, ct: Option<bytes>)
    ensures (forall keep, n: nat :: n <= MAX_INT ==> Fits(cfg, ct, keep, n)) <==> LongestHead(cfg, ct) <= RESERVE
  {
    forall keep, n: nat | n <= MAX_INT ensures |PlainHead(cfg, ct, keep, n)| <= LongestHead(cfg, ct) { HeadWithinLongest(cfg, ct, keep, n); }
    HeadWithinLongest(cfg, ct, cfg.announce, MAX_INT);
    assert LongestHead(cfg, ct) > RESERVE ==> !Fits(cfg, ct, cfg.announce, MAX_INT);
  }

  /** With date lines of 37 bytes and keep-alive headers, the JSON head fits for every body exactly
      when the Server header has at most 33 bytes. */
  lemma JsonHeadFitsIff(date: bytes, server: bytes)
    requires |date| == 37
    ensures (forall keep, n: nat :: n <= MAX_INT ==> Fits(Config(Some(date), server, true), Some(JSON_TYPE), keep, n)) <==> |server| <= 33
  {
    HeadFitsIff(Config(Some(date), server, true), Some(JSON_TYPE));
  }

  /** copy(base[start:], base[..n]) to the right; the two parts may overlap. */
  method MoveRight(base: array<byte>, start: nat, n: nat)
    requires start + n <= base.Length
    modifies base
    ensures base[start..start + n] == old(base[..n])
    ensures forall i :: start + n <= i < base.Length ==> base[i] == old(base[i])
  {
    var i := n;
    while i > 0
      invariant 0 <= i <= n
      invariant forall k :: i <= k < n ==> base[start + k] == old(base[k])
      invariant forall k :: 0 <= k < i ==> base[k] == old(base[k])
      invariant forall k :: start + n <= k < base.Length ==> base[k] == old(base[k])
    {
      i := i - 1;
      base[start + i] := base[i];
    }
  }

  method Store(base: array<byte>, at: nat, data: bytes)
    requires at + |data| <= base.Length
    modifies base
    ensures base[at..at + |data|] == data
    ensures forall i :: 0 <= i < base.Length && !(at <= i < at + |data|) ==> base[i] == old(base[i])
  {
    for i := 0 to |data|
      invariant forall k :: 0 <= k < i ==> base[at + k] == data[k]
      invariant forall k :: 0 <= k < base.Length && !(at <= k < at + i) ==> base[k] == old(base[k])
    {
      base[at + i] := data[i];
    }
  }

  /** The head is assembled at the front of the buffer and moved up against the body, which starts
      at the reserve. Without room the slice expression fails. */
  method Backfill(base: array<byte>, head: bytes, n: nat) returns (wire: Option<bytes>)
    requires RESERVE + n <= base.Length
    modifies base
    ensures wire == if |head| <= RESERVE then Some(head + old(base[RESERVE..RESERVE + n])) else None
    ensures |head| <= RESERVE ==> base[RESERVE..RESERVE + n] == old(base[RESERVE..RESERVE + n])
  {
    if |head| > RESERVE {
      return None;
    }
    ghost var body := base[RESERVE..RESERVE + n];
    Store(base, 0, head);
    assert base[..|head|] == head && base[RESERVE..RESERVE + n] == body;
    var start := RESERVE - |head|;
    MoveRight(base, start, |head|);
    assert base[start..RESERVE] == head && base[RESERVE..RESERVE + n] == body;
    assert base[start..RESERVE + n] == base[start..RESERVE] + base[RESERVE..RESERVE + n];
    return Some(base[start..RESERVE + n]);
  }

  /** writeDirectJSONBytes200. `inPlace` tells that the body lies behind the reserve of base. */
  method WriteDirectJson(cfg: Config, ct: Option<bytes>, keep: bool, base: array<byte>, out: bytes, inPlace: bool, t: Tables)
    returns (wire: Option<bytes>)
    requires TablesOk(t) && |out| <= MAX_INT && base.Length >= RESERVE + (if inPlace then |out| else 0)
    requires inPlace ==> base[RESERVE..RESERVE + |out|] == out
    modifies base
    ensures var spec, local := General(cfg, Plain(ct, keep), out), inPlace || |out| == 0;
      if Cacheable(cfg, keep, |out|) && local then wire == Some(spec) <==> ct == Some(JSON_TYPE) && cfg.server == []
      else wire == if local && |PlainHead(cfg, ct, keep, |out|)| > RESERVE then None else Some(spec)
  {
    var local := inPlace || |out| == 0;
    if Cacheable(cfg, keep, |out|) && local {
      JsonCacheIff(cfg, ct, keep, out);
      wire := SendCached(base, out, t);
      return;
    }
    PlainIsGeneral(cfg, ct, keep, out);
    var head := AppendPlainHead(cfg, ct, keep, |out|, t);
    if !local {
      return Some(head + out);
    }
    assert base[RESERVE..RESERVE + |out|] == out;
    wire := Backfill(base, head, |out|);
  }

  method SendCached(base: array<byte>, out: bytes, t: Tables) returns (wire: Option<bytes>)
    requires TablesOk(t) && |out| < CACHED && base.Length >= RESERVE + |out| && base[RESERVE..RESERVE + |out|] == out
    modifies base
    ensures wire == Some(CachedHead(JSON_TYPE, |out|) + out)
  {
    CachedHeadFits(|out|);
    wire := Backfill(base, t.json[|out|], |out|);
  }

  lemma CachedHeadFits(n: nat)
    requires n < CACHED
    ensures |CachedHead(JSON_TYPE, n)| <= RESERVE
  {
    Decimal.DigitsWithin19(n);
  }
}
