/** What the connection loop continues with after a streamed request body (app.go, request_stream.go). */
module StreamHandover {
  import opened Bytes
  import opened Options
  import opened Chunked
  import opened ChunkedStream
  import opened Wire
  import D = ChunkedDifferences
  import G = ChunkedGrammar

  /** The body as it follows the head: `prefix` has arrived with the head, `unread` has not. */
  ghost function Spec(chunked: bool, length: nat, max: nat, prefix: bytes, unread: bytes): Result {
    if chunked then Decode(Streaming, max, Granted, prefix + unread) else RequestBodyStream.Fixed([], length, prefix + unread)
  }

  /** Everything that arrived with the head belongs to the message, or the body has a known length. */
  predicate HandsOver(chunked: bool, unread: bytes, rest: bytes) {
    !chunked || |rest| <= |unread|
  }

  lemma TailOfSuffix(rest: bytes, prefix: bytes, unread: bytes)
    requires IsSuffix(rest, prefix + unread) && |rest| >= |unread|
    ensures rest[|rest| - |unread|..] == unread
  {
    var w := prefix + unread;
    assert rest == w[|w| - |rest|..];
    assert rest[|rest| - |unread|..] == w[|prefix|..] == unread;
  }

  /** The body is read, by the handler or to discard it, and the loop takes back what is left. It
      continues at the end of the message if and only if the message has a known length or nothing
      beyond its end had arrived with the head; otherwise it continues after everything that had. */
  method ReadAndFinish(conn: Source, prefix: bytes, length: nat, chunked: bool, max: nat, sizes: nat -> nat)
    returns (body: bytes, next: bytes, trailers: seq<Header>, e: Option<Error>)
    requires forall i :: sizes(i) > 0
    modifies conn
    ensures var spec := Spec(chunked, length, max, prefix, old(conn.unread));
      if e.Some? then spec == Failure(e.value)
      else
        && spec.Success? && spec.body == body && spec.trailers == trailers
        && (next + conn.unread == spec.rest <==> HandsOver(chunked, old(conn.unread), spec.rest))
        && (!HandsOver(chunked, old(conn.unread), spec.rest) ==> next + conn.unread == old(conn.unread))
  {
    ghost var unread := conn.unread;
    var s := new RequestBodyStream(conn, prefix, length, chunked, max);
    body, e := ReadAll(s, sizes);
    ghost var rest := s.After();
    var failed;
    next, trailers, failed := s.Finish();
    if e.None? && chunked {
      G.DecodeLeavesSuffix(Streaming, max, Granted, prefix + unread);
      if |rest| >= |unread| { TailOfSuffix(rest, prefix, unread); }
    }
  }

  /** The end of a chunked body and a request that arrived with it: the next request is lost. */
  method PipelinedRequestIsLost(conn: Source, request: bytes, max: nat, sizes: nat -> nat) returns (next: bytes)
    requires conn.unread == [] && forall i :: sizes(i) > 0
    modifies conn
    ensures Decode(Streaming, max, Granted, [48] + CRLF + (CRLF + request)) == Success([], [], request)
    ensures next + conn.unread == []
  {
    var prefix := [48] + CRLF + (CRLF + request);
    EmptyBody(max, request);
    assert prefix + conn.unread == prefix;
    var body, trailers, e;
    body, next, trailers, e := ReadAndFinish(conn, prefix, 0, true, max, sizes);
  }

  lemma EmptyBody(max: nat, rest: bytes)
    ensures Decode(Streaming, max, Granted, [48] + CRLF + (CRLF + rest)) == Success([], [], rest)
  {
    LineReads(Streaming, [48], CRLF + rest);
    D.ZeroLine(Streaming);
    D.EmptyLine(Streaming, rest);
  }
}
