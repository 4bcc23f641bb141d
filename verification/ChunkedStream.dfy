/** requestBodyStream of request_stream.go: the incremental reader of one request body. */
module ChunkedStream {
  import opened Bytes
  import opened Options
  import opened Text
  import opened Chunked
  import opened Wire

  /** What a Read call reports besides its bytes. */
  datatype Status = More | End | Fail(e: Error)

  /** Reading part of a chunk leaves the rest of the decoding as it was. */
  lemma DataStep(y: Syntax, max: nat, k: nat, body: bytes, n: nat, data: bytes, w: bytes)
    requires Consumes(y) && |data| <= n
    ensures ChunkData(y, max, Granted, k, body, n, data + w) ==
      if |data| == n then ChunkEnd(y, max, Granted, k, body + data, w) else ChunkData(y, max, Granted, k, body + data, n - |data|, w)
  {
    var all, m := data + w, n - |data|;
    if |all| >= n {
      assert all[..n] == data + w[..m] && all[n..] == w[m..];
      assert body + (data + w[..m]) == body + data + w[..m];
    }
    if m == 0 { assert body + data + w[..0] == body + data && w[0..] == w; }
  }

  lemma FixedStep(body: bytes, n: nat, data: bytes, w: bytes)
    requires |data| <= n
    ensures RequestBodyStream.Fixed(body, n, data + w) == RequestBodyStream.Fixed(body + data, n - |data|, w)
  {
    var all, m := data + w, n - |data|;
    if |all| >= n {
      assert all[..n] == data + w[..m] && all[n..] == w[m..];
      assert body + (data + w[..m]) == body + data + w[..m];
    }
  }

  /** A line read up to its first LF. */
  lemma LineEnds(line: bytes, rest: bytes)
    requires 0 < |line| <= MAX_LINE + 1 && line[|line| - 1] == LF && LF !in line[..|line| - 1]
    ensures StreamLine(line + rest) ==
      if |line| >= 2 && line[|line| - 2] == CR then Line(line[..|line| - 2], rest) else NoLine(Malformed)
  {
    var w, j := line + rest, |line| - 1;
    assert w[..j] == line[..j] && w[j] == LF && w[j + 1..] == rest;
    IndexIs(w, LF, j);
    if j >= 1 { assert w[j - 1] == line[j - 1] && w[..j - 1] == line[..j - 1]; }
  }

  lemma LineTooLong(line: bytes, rest: bytes)
    requires |line| == MAX_LINE + 1 && LF !in line
    ensures StreamLine(line + rest) == NoLine(Invalid)
  {
    var w := line + rest;
    assert forall i :: 0 <= i <= MAX_LINE ==> w[i] == line[i];
  }

  ghost predicate LineAt(y: Syntax, w: bytes) {
    y.line(w) == StreamLine(w)
  }

  ghost predicate SizeAt(y: Syntax, text: bytes) {
    y.size(text) == SizeOf(Streaming, text)
  }

  ghost predicate TrailerAt(y: Syntax, text: bytes, count: nat) {
    y.trailer(text, count) == TrailerOf(Streaming, text, count)
  }

  /** y is the syntax of this decoder. */
  ghost predicate Speaks(y: Syntax) {
    && Consumes(y) && y.broken == Malformed
    && (forall w :: LineAt(y, w)) && (forall text :: SizeAt(y, text)) && (forall text, count: nat :: TrailerAt(y, text, count))
  }

  class RequestBodyStream {
    const conn: Source
    const chunked: bool
    const max: nat
    ghost const y: Syntax
    var prefix: bytes
    var remaining: nat
    var total: nat
    var chunkLeft: nat
    var needCRLF: bool
    var done: bool
    var err: Option<Error>
    var leftover: bytes
    var trailers: seq<Header>
    /** How much had not arrived when the stream was created. */
    ghost const behind: nat
    /** History: the bytes handed to the caller and the chunks begun. */
    ghost var delivered: bytes
    ghost var begun: nat

    constructor (conn: Source, prefix: bytes, length: nat, chunked: bool, max: nat)
      ensures Valid() && delivered == [] && !done && this.conn == conn && this.chunked == chunked && this.max == max
      ensures behind == |conn.unread|
      ensures Outcome() == if chunked then Decode(Streaming, max, Granted, prefix + conn.unread) else Fixed([], length, prefix + conn.unread)
    {
      this.conn, this.chunked, this.max, y := conn, chunked, max, SyntaxOf(Streaming);
      this.prefix, remaining := prefix, length;
      total, chunkLeft, needCRLF, done := 0, 0, false, false;
      err, leftover, trailers := None, [], [];
      delivered, begun, behind := [], 0, |conn.unread|;
    }

    /** The connection is read only when the prefix is used up. */
    ghost predicate Sparing()
      reads this, conn
    {
      |conn.unread| <= behind && (prefix != [] ==> |conn.unread| == behind)
    }

    /** What has arrived or will arrive and is not yet decoded. */
    ghost function Input(): bytes
      reads this, conn
    {
      prefix + conn.unread
    }

    ghost predicate Valid()
      reads this, conn
    {
      && Speaks(y) && Sparing()
      && (!done && err.Some? ==> Input() == [] && if chunked then chunkLeft > 0 else remaining > 0)
      && total == |delivered| && (chunked ==> total + chunkLeft <= max)
      && (needCRLF ==> chunkLeft == 0)
      && (!chunked || !done ==> trailers == [])
      && (done && err.None? && !chunked ==> prefix == [])
      && (!done || chunked ==> leftover == [])
    }

    /** What follows the body, once it has been read. */
    ghost function After(): bytes
      reads this, conn
    {
      leftover + Input()
    }

    /** A body of known length. */
    static ghost function Fixed(body: bytes, n: nat, w: bytes): Result {
      if n <= |w| then Success(body + w[..n], [], w[n..]) else Failure(Eof)
    }

    /** How reading will end, whoever reads and in whatever pieces. */
    ghost function Outcome(): Result
      requires Valid()
      reads this, conn
    {
      var w := Input();
      if done then (if err.Some? then Failure(err.value) else Success(delivered, trailers, After()))
      else if !chunked then Fixed(delivered, remaining, w)
      else if chunkLeft > 0 then ChunkData(y, max, Granted, begun, delivered, chunkLeft, w)
      else if needCRLF then ChunkEnd(y, max, Granted, begun, delivered, w)
      else Chunks(y, max, Granted, begun, delivered, w)
    }

    /** readSome: up to cap bytes from the prefix, else from the connection. */
    method ReadSome(cap: nat) returns (data: bytes)
      requires cap > 0 && !done && Sparing()
      modifies this`prefix, this`err, conn
      ensures Sparing()
      ensures old(prefix + conn.unread) == data + (prefix + conn.unread) && |data| <= cap
      ensures data == [] <==> old(prefix + conn.unread) == []
      ensures err == if data == [] then Some(Eof) else old(err)
    {
      if |prefix| > 0 {
        var n := if |prefix| < cap then |prefix| else cap;
        data := prefix[..n];
        prefix := prefix[n..];
        assert old(prefix) == data + prefix;
      } else {
        data := conn.Read(cap);
        if data == [] {
          err := Some(Eof);
        }
      }
      assert old(prefix + conn.unread) == data + (prefix + conn.unread);
    }

    /** fail: the error sticks. */
    method StopWith(e: Error)
      modifies this`err, this`done
      ensures done && err == Some(e)
    {
      err, done := Some(e), true;
    }

    method ReadByte() returns (b: byte, ok: bool)
      requires !done && Sparing()
      modifies this`prefix, this`err, this`done, conn
      ensures Sparing()
      ensures ok ==> old(Input()) == [b] + Input() && !done && err == old(err)
      ensures !ok ==> old(Input()) == [] && done && err == Some(Eof)
    {
      if |prefix| > 0 {
        b := prefix[0];
        prefix := prefix[1..];
        assert old(prefix) + conn.unread == [b] + (prefix + conn.unread);
        return b, true;
      }
      var data := conn.Read(1);
      assert old(Input()) == old(conn.unread);
      if |data| == 1 {
        assert data == [data[0]];
        assert Input() == conn.unread;
        return data[0], true;
      }
      StopWith(Eof);
      return 0, false;
    }

    method ReadLine() returns (text: bytes, ok: bool)
      requires !done && Sparing() && Speaks(y)
      modifies this`prefix, this`err, this`done, conn
      ensures Sparing()
      ensures var l := y.line(old(Input()));
        if ok then l == Line(text, Input()) && !done && err == old(err) else done && err.Some? && l == NoLine(err.value)
    {
      assert LineAt(y, Input());
      text, ok := ScanLine();
    }

    method ScanLine() returns (text: bytes, ok: bool)
      requires !done && Sparing()
      modifies this`prefix, this`err, this`done, conn
      ensures Sparing()
      ensures var l := StreamLine(old(Input()));
        if ok then l == Line(text, Input()) && !done && err == old(err) else done && err.Some? && l == NoLine(err.value)
    {
      ghost var w := Input();
      var line: bytes := [];
      while |line| <= MAX_LINE
        invariant !done && Sparing() && err == old(err) && w == line + Input() && LF !in line && |line| <= MAX_LINE + 1
        decreases MAX_LINE + 1 - |line|
      {
        var b, got := ReadByte();
        if !got {
          assert w == line;
          return [], false;
        }
        assert line + [b] + Input() == line + ([b] + Input());
        line := line + [b];
        if b == LF {
          LineEnds(line, Input());
          if |line| < 2 || line[|line| - 2] != CR {
            StopWith(Malformed);
            return [], false;
          }
          return line[..|line| - 2], true;
        }
      }
      LineTooLong(line, Input());
      StopWith(Invalid);
      return [], false;
    }

    method ExpectCRLF() returns (ok: bool)
      requires !done && Sparing()
      modifies this`prefix, this`err, this`done, conn
      ensures Sparing()
      ensures var w := old(Input());
        if |w| < 2 then !ok && done && err == Some(Eof)
        else if w[0] != CR || w[1] != LF then !ok && done && err == Some(Malformed)
        else ok && !done && err == old(err) && Input() == w[2..]
    {
      ghost var w := Input();
      var a, gotA := ReadByte();
      if !gotA {
        return false;
      }
      ghost var w1 := Input();
      assert w[0] == a && w[1..] == w1;
      var b, gotB := ReadByte();
      if !gotB {
        return false;
      }
      assert w1[0] == b && w1[1..] == Input();
      assert w[2..] == w[1..][1..];
      if a != CR || b != LF {
        StopWith(Malformed);
        return false;
      }
      return true;
    }

    /** One line of the trailers: `more` while they go on. */
    method ReadTrailer() returns (more: bool)
      requires !done && Sparing() && Speaks(y)
      modifies this`prefix, this`err, this`done, this`trailers, conn
      ensures Sparing() && (done ==> !more && err.Some?) && (!done ==> err == old(err))
      ensures var spec := Trailers(y, delivered, old(trailers), old(Input()));
        if done then spec == Failure(err.value)
        else if more then spec == Trailers(y, delivered, trailers, Input()) && |Input()| < |old(Input())|
        else spec == Success(delivered, trailers, Input())
    {
      var line, got := ReadLine();
      if !got || |line| == 0 {
        return false;
      }
      var field := ParseTrailer(line, |trailers|);
      assert TrailerAt(y, line, |trailers|);
      if field.BadField? {
        StopWith(field.e);
        return false;
      }
      trailers := trailers + [field.h];
      return true;
    }

    method ReadTrailers() returns (ok: bool)
      requires !done && Sparing() && trailers == [] && Speaks(y)
      modifies this`prefix, this`err, this`done, this`trailers, conn
      ensures Sparing()
      ensures var spec := Trailers(y, delivered, [], old(Input()));
        if ok then !done && err == old(err) && spec == Success(delivered, trailers, Input()) else done && err.Some? && spec == Failure(err.value)
    {
      ghost var goal := Trailers(y, delivered, [], Input());
      var more := true;
      while more
        invariant Sparing() && (done ==> !more && err.Some? && goal == Failure(err.value)) && (!done ==> err == old(err))
        invariant !done ==> goal == if more then Trailers(y, delivered, trailers, Input()) else Success(delivered, trailers, Input())
        decreases more, |Input()|
      {
        more := ReadTrailer();
      }
      return !done;
    }

    /** The size line has been read: the next chunk is entered, or the body ends. */
    method EnterChunk(size: nat)
      requires Valid() && chunked && !done && !needCRLF && chunkLeft == 0 && size <= max - total
      modifies this, conn
      ensures Valid() && delivered == old(delivered) && (!done ==> chunkLeft > 0 && |Input()| <= |old(Input())|)
      ensures Outcome() == if size == 0 then Trailers(y, delivered, [], old(Input()))
                           else ChunkData(y, max, Granted, old(begun) + 1, delivered, size, old(Input()))
    {
      if size == 0 {
        var ok := ReadTrailers();
        if ok {
          done := true;
          assert After() == Input();
        }
        return;
      }
      chunkLeft := size;
      begun := begun + 1;
    }

    method NextChunk()
      requires Valid() && chunked && !done && !needCRLF && chunkLeft == 0
      modifies this, conn
      ensures Valid() && Outcome() == old(Outcome()) && delivered == old(delivered)
      ensures !done ==> chunkLeft > 0 && |Input()| <= |old(Input())|
    {
      var line, got := ReadLine();
      if !got {
        return;
      }
      var size := SizeOf(Streaming, line);
      assert SizeAt(y, line);
      if size.None? {
        StopWith(Malformed);
        return;
      }
      if size.value > max - total {
        StopWith(TooLarge);
        return;
      }
      EnterChunk(size.value);
    }

    /** Part of the current chunk, up to cap bytes of it. */
    method ReadChunkData(cap: nat) returns (data: bytes)
      requires Valid() && chunked && !done && chunkLeft > 0 && cap > 0
      modifies this, conn
      ensures Valid() && Outcome() == old(Outcome()) && !done
      ensures delivered == old(delivered) + data && |data| <= cap
      ensures data == [] ==> Outcome() == Failure(Eof) && err == Some(Eof)
      ensures |Input()| + |data| == |old(Input())|
    {
      var limit := if cap < chunkLeft then cap else chunkLeft;
      data := ReadSome(limit);
      DataStep(y, max, begun, delivered, chunkLeft, data, Input());
      chunkLeft := chunkLeft - |data|;
      total := total + |data|;
      delivered := delivered + data;
      if chunkLeft == 0 {
        needCRLF := true;
      }
    }

    method ReadChunked(cap: nat) returns (data: bytes, status: Status)
      requires Valid() && chunked && !done && cap > 0
      modifies this, conn
      ensures Valid() && Outcome() == old(Outcome())
      ensures delivered == old(delivered) + data && |data| <= cap && Reports(data, status)
      ensures !done ==> |Input()| + |data| <= |old(Input())|
    {
      data := [];
      if chunkLeft == 0 {
        if needCRLF {
          var ok := ExpectCRLF();
          if !ok {
            return [], Fail(err.value);
          }
          needCRLF := false;
        }
        NextChunk();
        if done {
          return [], if err.Some? then Fail(err.value) else End;
        }
      }
      data := ReadChunkData(cap);
      return data, if data == [] then Fail(Eof) else More;
    }

    /** What a status means for the whole body. */
    ghost predicate Reports(data: bytes, status: Status)
      requires Valid()
      reads this, conn
    {
      match status
      case More => data != [] && !done
      case End => done && err.None?
      case Fail(e) => Outcome() == Failure(e)
    }

    /** Part of a body of known length. */
    method ReadFixedData(cap: nat) returns (data: bytes)
      requires Valid() && !chunked && !done && remaining > 0 && cap > 0
      modifies this, conn
      ensures Valid() && Outcome() == old(Outcome()) && !done
      ensures delivered == old(delivered) + data && |data| <= cap
      ensures data == [] ==> Outcome() == Failure(Eof)
      ensures |Input()| + |data| == |old(Input())|
    {
      data := ReadSome(if cap < remaining then cap else remaining);
      FixedStep(delivered, remaining, data, Input());
      remaining := remaining - |data|;
      total := total + |data|;
      delivered := delivered + data;
    }

    /** The body is complete: what was read beyond it is the leftover. */
    method EndFixed()
      requires Valid() && !chunked && !done && remaining == 0
      modifies this`done, this`leftover, this`prefix
      ensures Valid() && Outcome() == old(Outcome()) && done && err.None?
    {
      ghost var w := Input();
      assert delivered + w[..0] == delivered && w[0..] == w;
      done, leftover, prefix := true, prefix, [];
      assert After() == w;
    }

    method ReadFixed(cap: nat) returns (data: bytes, status: Status)
      requires Valid() && !chunked && !done && cap > 0
      modifies this, conn
      ensures Valid() && Outcome() == old(Outcome())
      ensures delivered == old(delivered) + data && |data| <= cap && Reports(data, status)
      ensures !done ==> |Input()| + |data| <= |old(Input())|
    {
      data := [];
      if remaining > 0 {
        data := ReadFixedData(cap);
        if data == [] {
          return [], Fail(Eof);
        }
      }
      if remaining == 0 {
        EndFixed();
        return data, End;
      }
      return data, More;
    }

    /** One call of the reader, into the caller's buffer. */
    method Read(p: array<byte>) returns (n: nat, status: Status)
      requires Valid()
      modifies this, conn, p
      ensures Valid() && Outcome() == old(Outcome())
      ensures n <= p.Length && delivered == old(delivered) + p[..n]
      ensures forall i :: n <= i < p.Length ==> p[i] == old(p[i])
      ensures p.Length > 0 ==> Reports(p[..n], status)
      ensures !done ==> |Input()| + n <= |old(Input())|
    {
      if done {
        return 0, if err.Some? then Fail(err.value) else End;
      }
      if p.Length == 0 {
        return 0, More;
      }
      var data;
      if chunked {
        data, status := ReadChunked(p.Length);
      } else {
        data, status := ReadFixed(p.Length);
      }
      n := |data|;
      forall i | 0 <= i < n {
        p[i] := data[i];
      }
      assert p[..n] == data;
    }

    /** finish: what the connection loop gets back, and continues with. */
    method Finish() returns (rest: bytes, headers: seq<Header>, e: Option<Error>)
      requires Valid()
      ensures headers == trailers && e == err
      ensures done && e.None? ==>
        rest + conn.unread == if !chunked || |After()| <= behind then After() else After()[|After()| - behind..]
    {
      if chunked && done && err.None? {
        assert After() == prefix + conn.unread;
        if prefix != [] {
          assert After()[|After()| - behind..] == conn.unread;
        } else {
          assert prefix + conn.unread == conn.unread;
        }
        assert leftover + conn.unread == conn.unread;
      }
      return leftover, trailers, err;
    }
  }

  /** Reads a whole body through buffers of whatever sizes the caller chooses: the pieces add up to
      the body, and what follows the message is what the reader has not consumed. */
  method ReadAll(s: RequestBodyStream, sizes: nat -> nat) returns (body: bytes, e: Option<Error>)
    requires s.Valid() && s.delivered == [] && forall i :: sizes(i) > 0
    modifies s, s.conn
    ensures s.Valid() && s.Outcome() == old(s.Outcome())
    ensures s.Outcome() == if e.None? then Success(body, s.trailers, s.After()) else Failure(e.value)
    ensures e.None? ==> s.done && s.err.None?
  {
    body := [];
    var i := 0;
    while true
      invariant s.Valid() && s.Outcome() == old(s.Outcome()) && s.delivered == body
      decreases |s.Input()|
    {
      var p := new byte[sizes(i)];
      var n, status := s.Read(p);
      body := body + p[..n];
      match status
      case End => return body, None;
      case Fail(err) => return body, Some(err);
      case More => i := i + 1;
    }
  }

  method ParseTrailer(line: bytes, count: nat) returns (field: Field)
    ensures field == TrailerOf(Streaming, line, count)
  {
    var colon := IndexOf(line, COLON);
    if colon <= 0 || !ValidToken(line[..colon]) || count >= MAX_TRAILERS {
      return BadField(Invalid);
    }
    if FramingName(line[..colon]) {
      return BadField(Invalid);
    }
    var value := TrimSpace(line[colon + 1..]);
    var bad := FindControl(value);
    return if bad then BadField(Malformed) else Field(Header(line[..colon], value));
  }

  method FindControl(v: bytes) returns (found: bool)
    ensures found <==> HasControl(v)
  {
    for i := 0 to |v|
      invariant forall k :: 0 <= k < i ==> !((v[k] < 0x20 && v[k] != HTAB) || v[k] == 0x7f)
    {
      if (v[i] < 0x20 && v[i] != HTAB) || v[i] == 0x7f {
        return true;
      }
    }
    return false;
  }
}
