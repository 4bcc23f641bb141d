/** Whole conversations: the printed form of a list of requests is dispatched as that list. */
module Http1Pipeline {
  import opened Bytes
  import opened Options
  import opened Http1
  import opened Http1Heads
  import opened RequestParser
  import L = RequestLine
  import H = HeaderFields
  import C = Chunked
  import G = ChunkedGrammar

  /** A body of known length, or a message of the chunked grammar. */
  datatype Content = Whole(body: bytes) | Pieces(m: G.Message)

  /** A request with a target in origin form, and its header lines. */
  datatype Sent = Sent(verb: bytes, target: bytes, proto: bytes, lines: seq<H.FieldLine>, content: Content)

  // ---------------------------------------------------------------- printing

  function FirstLine(r: Sent): bytes {
    L.Join(L.Parts(r.verb, r.target, r.proto))
  }

  function PrintHead(r: Sent): bytes {
    FirstLine(r) + CRLF + H.Print(r.lines, [])
  }

  function PrintContent(c: Content, rest: bytes): bytes {
    match c
    case Whole(body) => body + rest
    case Pieces(m) => G.Print(m, rest)
  }

  function PrintRequest(r: Sent, rest: bytes): bytes {
    PrintHead(r) + PrintContent(r.content, rest)
  }

  function PrintAll(rs: seq<Sent>): bytes {
    if |rs| == 0 then [] else PrintRequest(rs[0], PrintAll(rs[1..]))
  }

  // ---------------------------------------------------------------- admissible requests

  function LineOf(r: Sent): L.Line {
    L.Line(r.verb, r.target, r.proto, r.target, L.PathOf(r.target), L.QueryOf(r.target), [])
  }

  function BodyOf(c: Content): bytes {
    match c
    case Whole(body) => body
    case Pieces(m) => G.Concat(m.chunks)
  }

  function TrailersOf(c: Content): seq<Header> {
    match c
    case Whole(_) => []
    case Pieces(m) => G.HeadersOf(m.trailers)
  }

  /** The headers announce the content as it is sent. */
  ghost predicate Announced(r: H.Rules, l: H.Lists, c: Content) {
    match c
    case Whole(body) => l.codings == [] && if l.lengths == [] then body == [] else r.length(l.lengths[0]) == Some(|body|)
    case Pieces(m) => |l.codings| == 1 && r.coding(l.codings[0]) == Some(true) && G.MessageOk(m)
  }

  ghost predicate HeadOk(lim: HeadLimits, r: Sent) {
    && L.OriginForm(r.verb, r.target, r.proto) && |FirstLine(r)| <= lim.maxLine
    && (forall i :: 0 <= i < |r.lines| ==> Printable(r.lines[i])) && |H.Print(r.lines, [])| <= lim.maxList
    && H.Acceptable(RulesOf(r.proto), ContextOf(LineOf(r), lim.maxCount), H.Headers(r.lines))
  }

  ghost predicate Sendable(lim: HeadLimits, maxBody: nat, r: Sent) {
    && HeadOk(lim, r) && Announced(RulesOf(r.proto), H.Sorted(RulesOf(r.proto), H.Headers(r.lines)), r.content)
    && |BodyOf(r.content)| <= maxBody
  }

  /** The request is understood as it was meant. */
  ghost predicate Meant(r: Sent, req: Request<Head>) {
    && req.head.line == LineOf(r) && req.head.fields.headers == H.Headers(r.lines)
    && req.body == BodyOf(r.content) && req.trailers == TrailersOf(r.content)
  }

  // ---------------------------------------------------------------- where the head ends

  /** A non-empty line in front of a head that does not begin with the empty line. */
  lemma LineBeforeHead(t: bytes, w: bytes)
    requires CR !in t && HeadEnd(w) >= 0 && w[0] != CR
    ensures HeadEnd(t + CRLF + w) == |t| + 2 + HeadEnd(w)
  {
    var a, n, i := t + CRLF + w, |t| + 2, HeadEnd(w);
    assert forall k :: 0 <= k < |t| ==> a[k] == t[k];
    assert a[|t|] == CR && a[|t| + 1] == LF && a[n] == w[0];
    assert forall k :: 0 <= k < |w| ==> a[n + k] == w[k];
    assert EmptyLineAt(a, n + i);
    forall k: nat | k < n + i ensures !EmptyLineAt(a, k) {
      if k >= n { assert !EmptyLineAt(w, k - n); }
    }
  }

  lemma LastLine(t: bytes, rest: bytes)
    requires CR !in t
    ensures HeadEnd(t + CRLF + (CRLF + rest)) == |t|
  {
    var a := t + CRLF + (CRLF + rest);
    assert forall k :: 0 <= k < |t| ==> a[k] == t[k];
    assert EmptyLineAt(a, |t|);
  }

  lemma TextHasNoCR(l: H.FieldLine)
    requires Printable(l)
    ensures CR !in H.TextOf(l) && H.TextOf(l) != []
  {
    assert forall i :: 0 <= i < |l.h.value| ==> l.h.value[i] != CR;
  }

  lemma {:induction false} PrintThen(ls: seq<H.FieldLine>, rest: bytes)
    ensures H.Print(ls, rest) == H.Print(ls, []) + rest
    decreases |ls|
  {
    if |ls| > 0 {
      PrintThen(ls[1..], rest);
      assert H.TextOf(ls[0]) + CRLF + (H.Print(ls[1..], []) + rest) == H.TextOf(ls[0]) + CRLF + H.Print(ls[1..], []) + rest;
    } else {
      assert CRLF + [] + rest == CRLF + rest;
    }
  }

  lemma {:induction false} SectionEnds(t: bytes, ls: seq<H.FieldLine>, rest: bytes)
    requires CR !in t && forall i :: 0 <= i < |ls| ==> Printable(ls[i])
    ensures HeadEnd(t + CRLF + H.Print(ls, rest)) == |t| + |H.Print(ls, [])| - 2
    decreases |ls|
  {
    if |ls| == 0 {
      LastLine(t, rest);
    } else {
      var u := H.TextOf(ls[0]);
      TextHasNoCR(ls[0]);
      SectionEnds(u, ls[1..], rest);
      PrintThen(ls[1..], rest);
      LineBeforeHead(t, u + CRLF + H.Print(ls[1..], rest));
    }
  }

  lemma FirstLineHasNoCR(r: Sent)
    requires L.OriginForm(r.verb, r.target, r.proto)
    ensures CR !in FirstLine(r)
  {
    assert CR !in r.verb && CR !in r.target && CR !in r.proto;
  }

  /** The head of a printed request ends where its section does, whatever follows. */
  lemma HeadIsFound(r: Sent, rest: bytes)
    requires L.OriginForm(r.verb, r.target, r.proto) && forall i :: 0 <= i < |r.lines| ==> Printable(r.lines[i])
    ensures HeadEnd(PrintHead(r) + rest) + 4 == |PrintHead(r)|
  {
    FirstLineHasNoCR(r);
    SectionEnds(FirstLine(r), r.lines, rest);
    PrintThen(r.lines, rest);
    assert FirstLine(r) + CRLF + (H.Print(r.lines, []) + rest) == PrintHead(r) + rest;
  }

  // ---------------------------------------------------------------- the head is understood

  /** What the parser makes of the head. */
  function FieldsOf(lim: HeadLimits, r: Sent): Option<H.Section> {
    ParseSection(LineOf(r), lim.maxCount, H.Print(r.lines, []))
  }

  lemma FieldsMean(lim: HeadLimits, maxBody: nat, r: Sent)
    requires Sendable(lim, maxBody, r)
    ensures FieldsOf(lim, r).Some?
    ensures var f := FieldsOf(lim, r).value.f;
      && f.headers == H.Headers(r.lines) && !f.unsupported && (f.chunked <==> r.content.Pieces?)
      && f.length == if r.content.Whole? then |r.content.body| else 0
  {
    SectionRoundTrip(LineOf(r), lim.maxCount, r.lines, []);
    SectionSound(LineOf(r), lim.maxCount, H.Print(r.lines, []));
  }

  lemma HeadIsUnderstood(lim: HeadLimits, policy: Head -> bool, maxBody: nat, r: Sent)
    requires Sendable(lim, maxBody, r) && FieldsOf(lim, r).Some? && policy(Head(LineOf(r), FieldsOf(lim, r).value.f))
    ensures var f := FieldsOf(lim, r).value.f;
      ParseHead(lim, policy, PrintHead(r)) == if f.unsupported then None else Some(Parsed(Head(LineOf(r), f), f.chunked, f.length))
  {
    var head, line := PrintHead(r), FirstLine(r) + CRLF;
    L.OriginLineRoundTrip(r.verb, r.target, r.proto, lim.maxLine, H.Print(r.lines, []));
    assert head[|line|..] == H.Print(r.lines, []);
  }

  // ---------------------------------------------------------------- the body is taken

  lemma ContentIsTaken(p: Parsed<Head>, maxBody: nat, grants: nat -> bool, c: Content, rest: bytes)
    requires (forall k :: grants(k)) && |BodyOf(c)| <= maxBody && (c.Pieces? ==> G.MessageOk(c.m))
    requires p.chunked == c.Pieces? && p.length == if c.Whole? then |c.body| else 0
    ensures Body(p, maxBody, grants, PrintContent(c, rest)) == Message(Request(p.head, BodyOf(c), TrailersOf(c)), rest)
  {
    match c {
      case Whole(body) =>
        assert (body + rest)[..|body|] == body && (body + rest)[|body|..] == rest;
      case Pieces(m) =>
        G.DecodersAgree(C.Batch, maxBody, grants, m, rest);
        assert [] + G.Concat(m.chunks) == G.Concat(m.chunks);
    }
  }

  /** A printed request is the next message of the stream, and what follows it is left. */
  ghost predicate Taken(parse: bytes -> Option<Parsed<Head>>, maxBody: nat, grants: nat -> bool, r: Sent, req: Request<Head>, rest: bytes) {
    Arrives(parse, maxBody, grants, PrintRequest(r, rest), req, rest)
  }

  lemma TakenBy(parse: bytes -> Option<Parsed<Head>>, p: Parsed<Head>, maxBody: nat, grants: nat -> bool, r: Sent, rest: bytes)
    requires L.OriginForm(r.verb, r.target, r.proto) && forall i :: 0 <= i < |r.lines| ==> Printable(r.lines[i])
    requires parse(PrintHead(r)) == Some(p) && p.chunked == r.content.Pieces? && p.length == if r.content.Whole? then |r.content.body| else 0
    requires (forall k :: grants(k)) && |BodyOf(r.content)| <= maxBody && (r.content.Pieces? ==> G.MessageOk(r.content.m))
    ensures Taken(parse, maxBody, grants, r, Request(p.head, BodyOf(r.content), TrailersOf(r.content)), rest)
  {
    var w, head, after := PrintRequest(r, rest), PrintHead(r), PrintContent(r.content, rest);
    HeadIsFound(r, after);
    assert w[..|head|] == head && w[|head|..] == after;
    MessageAfterHead(parse, maxBody, grants, w, |head| - 4, p);
    ContentIsTaken(p, maxBody, grants, r.content, rest);
  }

  /** The policy admits the request. */
  ghost predicate Welcome(lim: HeadLimits, policy: Head -> bool, r: Sent) {
    FieldsOf(lim, r).Some? ==> policy(Head(LineOf(r), FieldsOf(lim, r).value.f))
  }

  function RequestOf(lim: HeadLimits, r: Sent): Request<Head>
    requires FieldsOf(lim, r).Some?
  {
    Request(Head(LineOf(r), FieldsOf(lim, r).value.f), BodyOf(r.content), TrailersOf(r.content))
  }

  lemma RequestIsMeant(lim: HeadLimits, maxBody: nat, r: Sent)
    requires Sendable(lim, maxBody, r)
    ensures FieldsOf(lim, r).Some? && Meant(r, RequestOf(lim, r))
  {
    FieldsMean(lim, maxBody, r);
  }

  lemma HeadParses(lim: HeadLimits, policy: Head -> bool, maxBody: nat, r: Sent) returns (p: Parsed<Head>)
    requires Sendable(lim, maxBody, r) && Welcome(lim, policy, r)
    ensures ParseHead(lim, policy, PrintHead(r)) == Some(p)
    ensures FieldsOf(lim, r).Some? && p.head == Head(LineOf(r), FieldsOf(lim, r).value.f)
    ensures p.chunked == r.content.Pieces? && p.length == if r.content.Whole? then |r.content.body| else 0
  {
    FieldsMean(lim, maxBody, r);
    HeadIsUnderstood(lim, policy, maxBody, r);
    var f := FieldsOf(lim, r).value.f;
    p := Parsed(Head(LineOf(r), f), f.chunked, f.length);
  }

  lemma RequestIsTaken(lim: HeadLimits, policy: Head -> bool, parse: bytes -> Option<Parsed<Head>>, maxBody: nat, grants: nat -> bool, r: Sent, rest: bytes)
    requires Sendable(lim, maxBody, r) && Welcome(lim, policy, r) && (forall k :: grants(k)) && parse(PrintHead(r)) == ParseHead(lim, policy, PrintHead(r))
    ensures FieldsOf(lim, r).Some? && Meant(r, RequestOf(lim, r)) && Taken(parse, maxBody, grants, r, RequestOf(lim, r), rest)
  {
    RequestIsMeant(lim, maxBody, r);
    var p := HeadParses(lim, policy, maxBody, r);
    TakenBy(parse, p, maxBody, grants, r, rest);
  }

  // ---------------------------------------------------------------- whole conversations

  ghost predicate AllMeant(rs: seq<Sent>, reqs: seq<Request<Head>>) {
    |reqs| == |rs| && forall i :: 0 <= i < |rs| ==> Meant(rs[i], reqs[i])
  }

  /** What is left of the stream before each request, and at its end. */
  function Streams(rs: seq<Sent>): (ws: seq<bytes>)
    ensures |ws| == |rs| + 1 && ws[0] == PrintAll(rs) && ws[|rs|] == []
    ensures forall i :: 0 <= i < |rs| ==> ws[i] == PrintRequest(rs[i], ws[i + 1])
  {
    if |rs| == 0 then [[]] else [PrintAll(rs)] + Streams(rs[1..])
  }

  function RequestsOf(lim: HeadLimits, rs: seq<Sent>): seq<Request<Head>>
    requires forall i :: 0 <= i < |rs| ==> FieldsOf(lim, rs[i]).Some?
  {
    seq(|rs|, i requires 0 <= i < |rs| => RequestOf(lim, rs[i]))
  }

  /** Any list of sendable requests, printed one after the other and sent in pieces of any size, is
      dispatched as that list, if the policy and the budget have no objection and the connection is
      kept until the last. */
  method ConversationIsDispatched(rs: seq<Sent>, size: nat, lim: HeadLimits, maxBody: nat, grants: nat -> nat -> bool, h2c: bool,
                                  policy: Head -> bool, keep: seq<Request<Head>> -> bool) returns (dispatched: seq<Request<Head>>)
    requires size > 0 && lim.maxLine > 0 && lim.maxList > 0
    requires (forall i :: 0 <= i < |rs| ==> Sendable(lim, maxBody, rs[i]) && Welcome(lim, policy, rs[i])) && forall m, k :: grants(m)(k)
    requires KeptUntil(keep, |rs|)
    ensures AllMeant(rs, dispatched)
  {
    ghost var held, calls;
    dispatched, held, calls := ServeConnection(PrintAll(rs), size, lim, maxBody, grants, h2c, policy, keep);
    ConversationRuns(rs, lim, head => ParseHead(lim, policy, head), maxBody, grants, policy, keep);
  }

  lemma ConversationArrives(rs: seq<Sent>, lim: HeadLimits, parse: bytes -> Option<Parsed<Head>>, maxBody: nat, grants: nat -> nat -> bool,
                            policy: Head -> bool, ws: seq<bytes>, reqs: seq<Request<Head>>)
    requires forall head :: parse(head) == ParseHead(lim, policy, head)
    requires (forall i :: 0 <= i < |rs| ==> Sendable(lim, maxBody, rs[i]) && Welcome(lim, policy, rs[i])) && forall m, k :: grants(m)(k)
    requires |reqs| == |rs| && ws == Streams(rs) && forall i :: 0 <= i < |rs| ==> FieldsOf(lim, rs[i]).Some? && reqs[i] == RequestOf(lim, rs[i])
    ensures forall i :: 0 <= i < |reqs| ==> ArrivesAt(parse, maxBody, grants, ws, reqs, i)
  {
    forall i | 0 <= i < |reqs| ensures ArrivesAt(parse, maxBody, grants, ws, reqs, i) {
      assert ws[i] == PrintRequest(rs[i], ws[i + 1]);
      RequestIsTaken(lim, policy, parse, maxBody, grants(i), rs[i], ws[i + 1]);
    }
  }

  lemma ConversationRuns(rs: seq<Sent>, lim: HeadLimits, parse: bytes -> Option<Parsed<Head>>, maxBody: nat, grants: nat -> nat -> bool,
                         policy: Head -> bool, keep: seq<Request<Head>> -> bool)
    requires forall head :: parse(head) == ParseHead(lim, policy, head)
    requires (forall i :: 0 <= i < |rs| ==> Sendable(lim, maxBody, rs[i]) && Welcome(lim, policy, rs[i])) && forall m, k :: grants(m)(k)
    requires KeptUntil(keep, |rs|)
    ensures Determined(parse, maxBody, grants, keep, [], PrintAll(rs)) && AllMeant(rs, Dispatched(parse, maxBody, grants, keep, [], PrintAll(rs)))
  {
    forall i | 0 <= i < |rs| ensures FieldsOf(lim, rs[i]).Some? && Meant(rs[i], RequestOf(lim, rs[i])) {
      RequestIsMeant(lim, maxBody, rs[i]);
    }
    var reqs, ws := RequestsOf(lim, rs), Streams(rs);
    ConversationArrives(rs, lim, parse, maxBody, grants, policy, ws, reqs);
    ListIsDispatched(parse, maxBody, grants, keep, ws, reqs);
  }
}
