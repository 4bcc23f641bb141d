/** The connection loop with the request parser it uses. */
module Http1Heads {
  import opened Bytes
  import opened Options
  import opened Wire
  import RequestLine
  import HeaderFields
  import RequestParser
  import RequestHeader
  import opened Http1
  import opened Http1Server
  import opened BudgetCalls

  datatype Head = Head(line: RequestLine.Line, fields: HeaderFields.Fields)

  /** MaxRequestLineSize, MaxHeaderListSize, MaxHeaderCount. */
  datatype HeadLimits = HeadLimits(maxLine: nat, maxList: nat, maxCount: int)

  /** Parsing and the checks on the head; `policy` stands for the allowed hosts, the head handler,
      the expectation check and the h2c upgrade. */
  function ParseHead(lim: HeadLimits, policy: Head -> bool, head: bytes): Option<Parsed<Head>> {
    var r := RequestLine.ParseLine(head, lim.maxLine);
    if r.Rejected? || |head| - r.used > lim.maxList then None
    else
      var s := RequestParser.ParseSection(r.value, lim.maxCount, head[r.used..]);
      if s.None? || s.value.f.unsupported || !policy(Head(r.value, s.value.f)) then None
      else Some(Parsed(Head(r.value, s.value.f), s.value.f.chunked, s.value.f.length))
  }

  /** The loop parses the request line out of all it has received; the head alone gives the same. */
  lemma LineOutOfHead(lim: HeadLimits, w: bytes)
    requires HeadEnd(w) >= 0
    ensures RequestLine.ParseLine(w, lim.maxLine) == RequestLine.ParseLine(w[..HeadEnd(w) + 4], lim.maxLine)
  {
    var i := HeadEnd(w);
    assert w[..i + 4][i + 1] == LF;
    assert w == w[..i + 4] + w[i + 4..];
    RequestLine.LineIsLocal(w[..i + 4], w[i + 4..], lim.maxLine);
  }

  /** The calls the loop makes: the request line out of everything received, then the header section
      up to the end of the head. */
  method ParseAccumulated(lim: HeadLimits, policy: Head -> bool, w: bytes, headEnd: nat) returns (r: Option<Parsed<Head>>)
    requires HeadEnd(w) == headEnd && lim.maxLine > 0
    ensures r == ParseHead(lim, policy, w[..headEnd + 4])
  {
    LineOutOfHead(lim, w);
    var parser := new RequestHeader.Parser();
    var consumed, e := parser.ParseRequestLine(w, lim.maxLine);
    if e.Some? {
      return None;
    }
    LineEndsInHead(lim, w);
    if headEnd + 4 - consumed > lim.maxList {
      return None;
    }
    var section := w[consumed..headEnd + 4];
    assert section == w[..headEnd + 4][consumed..];
    var line := parser.line;
    var used, ok := parser.ParseHeaders(section, lim.maxCount);
    if !ok || parser.fields.unsupported || !policy(Head(line, parser.fields)) {
      return None;
    }
    return Some(Parsed(Head(line, parser.fields), parser.fields.chunked, parser.fields.length));
  }

  lemma LineEndsInHead(lim: HeadLimits, w: bytes)
    requires HeadEnd(w) >= 0
    ensures var r := RequestLine.ParseLine(w, lim.maxLine); r.Parsed? ==> r.used <= HeadEnd(w) + 4
  {
    LineOutOfHead(lim, w);
    RequestLine.ParsedLineReprints(w[..HeadEnd(w) + 4], lim.maxLine);
  }

  lemma LineWithinLimit(max: nat, buf: bytes)
    requires max > 0
    ensures var r := RequestLine.ParseLine(buf, max); r.Parsed? ==> r.used <= max + 2
  {
  }

  /** HTTP/2.0 is not a version that parses. */
  lemma PrefaceIsRefused(max: int)
    ensures RequestLine.ParseLine(PREFACE[..18], max).Rejected?
  {
    var buf := PREFACE[..18];
    RequestLine.AcceptedVersion(buf, max);
    assert buf[15] == LF && LF !in buf[..15];
    IndexIs(buf, LF, 15);
    assert buf[11] == 50;
  }

  lemma HeadsAreSane(lim: HeadLimits, policy: Head -> bool)
    requires lim.maxLine > 0
    ensures Sane(head => ParseHead(lim, policy, head), lim.maxLine + lim.maxList + 4)
  {
    PrefaceIsRefused(lim.maxLine);
    forall head: bytes | |head| > lim.maxLine + lim.maxList + 4 ensures ParseHead(lim, policy, head) == None {
      LineWithinLimit(lim.maxLine, head);
    }
  }

  /** serveConn on a new connection: whatever the sizes of buffer and reads, and whatever the body
      budget answers, the requests dispatched are those of the stream parsed as a whole, each while
      exactly its body is reserved; in the end the connection has given back all it took. */
  method ServeConnection(stream: bytes, size: nat, lim: HeadLimits, maxBody: nat, grants: nat -> nat -> bool, h2c: bool,
                         policy: Head -> bool, keep: seq<Request<Head>> -> bool)
    returns (dispatched: seq<Request<Head>>, ghost held: seq<nat>, ghost calls: seq<Call>)
    requires size > 0 && lim.maxLine > 0 && lim.maxList > 0
    ensures Determined(head => ParseHead(lim, policy, head), maxBody, grants, keep, [], stream) ==>
      dispatched == Dispatched(head => ParseHead(lim, policy, head), maxBody, grants, keep, [], stream)
    ensures |held| == |dispatched| && forall i :: 0 <= i < |held| ==> held[i] == |dispatched[i].body|
    ensures Balanced(calls) && Holding(calls) == 0
  {
    HeadsAreSane(lim, policy);
    var conn := new Source(stream);
    var server := new Server(conn, size);
    var http2;
    dispatched, http2, held := server.Serve(head => ParseHead(lim, policy, head), lim.maxLine + lim.maxList + 4, maxBody, grants, h2c, keep);
    calls := server.calls;
  }
}
