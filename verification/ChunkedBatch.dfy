/** The decoder of chunked.go, which buffers what it has read from the connection. */
module ChunkedBatch {
  import opened Bytes
  import opened Options
  import opened Text
  import opened Chunked
  import opened Wire
  import opened BudgetCalls
  import opened Sequences

  datatype Decoded = Decoded(body: bytes, leftover: bytes, trailers: seq<Header>) | Refused(e: Error)

  lemma CrlfOfPrefix(a: bytes, b: bytes)
    ensures CrlfFrom(a, 0) >= 0 ==> CrlfFrom(a + b, 0) == CrlfFrom(a, 0)
    ensures CrlfFrom(a, 0) < 0 && CrlfFrom(a + b, 0) >= 0 ==> CrlfFrom(a + b, 0) >= |a| - 1
  {
    var w := a + b;
    assert forall k :: 0 <= k < |a| ==> w[k] == a[k];
  }

  /** A line that has arrived whole is the line, whatever follows. */
  lemma LineArrived(a: bytes, b: bytes)
    requires CrlfFrom(a, 0) >= 0
    ensures BatchLine(a + b).LongLine? || BatchLine(a + b) == Line(a[..CrlfFrom(a, 0)], a[CrlfFrom(a, 0) + 2..] + b)
  {
    CrlfOfPrefix(a, b);
    var i := CrlfFrom(a, 0);
    assert (a + b)[..i] == a[..i] && (a + b)[i + 2..] == a[i + 2..] + b;
  }

  lemma LineTooLong(a: bytes, b: bytes)
    requires CrlfFrom(a, 0) < 0 && |a| > MAX_LINE
    ensures BatchLine(a + b).LongLine? || BatchLine(a + b) == NoLine(Invalid)
  {
    CrlfOfPrefix(a, b);
  }

  /** How reading one chunk ended; a failure tells how much had been reserved for it. */
  datatype Step = Chunk(data: bytes) | Last | Stop(e: Error, reserved: nat)

  /** A step is the beginning of decoding w, of which `rest` is still ahead. */
  ghost predicate Follows(y: Syntax, max: nat, grants: nat -> bool, k: nat, body: bytes, w: bytes, step: Step, rest: bytes)
    requires Consumes(y)
  {
    var spec := Chunks(y, max, grants, k, body, w);
    || spec.Depends?
    || spec == match step {
         case Stop(e, _) => Failure(e)
         case Last => Trailers(y, body, [], rest)
         case Chunk(data) => Chunks(y, max, grants, k + 1, body + data, rest)
       }
  }

  lemma DataSteps(y: Syntax, max: nat, grants: nat -> bool, k: nat, body: bytes, n: nat, w: bytes)
    requires Consumes(y)
    ensures ChunkData(y, max, grants, k, body, n, w) ==
      if |w| < n + 2 then Failure(Eof)
      else if w[n..][0] != CR || w[n..][1] != LF then Failure(y.broken)
      else Chunks(y, max, grants, k, body + w[..n], w[n..][2..])
  {
  }

  /** wire and pos of readChunkedBodyWithReserve. */
  class Decoder {
    const conn: Source
    var wire: bytes
    var pos: nat

    constructor (conn: Source, initial: bytes)
      ensures this.conn == conn && wire == initial && pos == 0
    {
      this.conn, wire, pos := conn, initial, 0;
    }

    ghost predicate Valid()
      reads this
    {
      pos <= |wire|
    }

    /** Everything that is still to be decoded. */
    ghost function Ahead(): bytes
      requires Valid()
      reads this, conn
    {
      wire[pos..] + conn.unread
    }

    method ReadMore() returns (ok: bool)
      requires Valid()
      modifies this`wire, conn
      ensures Valid() && Ahead() == old(Ahead())
      ensures ok ==> |wire| > |old(wire)| && |conn.unread| < |old(conn.unread)|
      ensures !ok ==> wire == old(wire) && conn.unread == [] == old(conn.unread)
    {
      var data := conn.Read(4096);
      ok := data != [];
      wire := wire + data;
      assert wire[pos..] == old(wire)[pos..] + data;
      assert old(wire)[pos..] + (data + conn.unread) == wire[pos..] + conn.unread;
    }

    /** Position of the next CR LF in what has arrived, or the end. */
    method FindCrlf() returns (i: nat, found: bool)
      requires Valid()
      ensures found ==> pos <= i && i + 2 <= |wire| && CrlfFrom(wire[pos..], 0) == i - pos
      ensures !found ==> CrlfFrom(wire[pos..], 0) < 0
    {
      i := pos;
      ghost var a := wire[pos..];
      while i + 1 < |wire|
        invariant pos <= i
        invariant forall k :: 0 <= k < i - pos && k + 1 < |a| ==> !(a[k] == CR && a[k + 1] == LF)
        decreases |wire| - i
      {
        if wire[i] == CR && wire[i + 1] == LF {
          return i, true;
        }
        i := i + 1;
      }
      return i, false;
    }

    method TakeLine(i: nat) returns (line: bytes)
      requires Valid() && pos <= i && i + 2 <= |wire| && CrlfFrom(wire[pos..], 0) == i - pos
      modifies this`pos
      ensures Valid()
      ensures BatchLine(old(Ahead())).LongLine? || BatchLine(old(Ahead())) == Line(line, Ahead())
      ensures |Ahead()| < |old(Ahead())|
    {
      LineArrived(wire[pos..], conn.unread);
      line := wire[pos..i];
      assert line == wire[pos..][..i - pos] && wire[pos..][i - pos + 2..] == wire[i + 2..];
      pos := i + 2;
    }

    method ReadLine() returns (line: bytes, e: Option<Error>)
      requires Valid()
      modifies this, conn
      ensures Valid()
      ensures var l := BatchLine(old(Ahead()));
        l.LongLine? || (if e.None? then l == Line(line, Ahead()) else l == NoLine(e.value))
      ensures e.None? ==> |Ahead()| < |old(Ahead())|
    {
      ghost var w := Ahead();
      while true
        invariant Valid() && Ahead() == w
        decreases |conn.unread|
      {
        var i, found := FindCrlf();
        if found {
          line := TakeLine(i);
          return line, None;
        }
        if |wire| - pos > MAX_LINE {
          LineTooLong(wire[pos..], conn.unread);
          return [], Some(Invalid);
        }
        var ok := ReadMore();
        if !ok {
          assert w == wire[pos..];
          return [], Some(Eof);
        }
      }
    }

    /** Waits until n bytes have arrived. */
    method Ensure(n: nat) returns (ok: bool)
      requires Valid()
      modifies this`wire, conn
      ensures Valid() && Ahead() == old(Ahead())
      ensures ok <==> |Ahead()| >= n
      ensures ok ==> |wire| - pos >= n
    {
      while |wire| - pos < n
        invariant Valid() && Ahead() == old(Ahead())
        decreases |conn.unread|
      {
        var more := ReadMore();
        if !more {
          return false;
        }
      }
      return true;
    }

    method ReadSize() returns (n: nat, e: Option<Error>)
      requires Valid()
      modifies this, conn
      ensures Valid()
      ensures var l := BatchLine(old(Ahead()));
        || l.LongLine?
        || (l.NoLine? && e == Some(l.e))
        || (l.Line? && Ahead() == l.rest && SizeOf(Batch, l.text) == (if e.None? then Some(n) else None) && (e.Some? ==> e.value == Invalid))
      ensures e.None? ==> |Ahead()| < |old(Ahead())|
    {
      n := 0;
      var line, lineErr := ReadLine();
      if lineErr.Some? {
        return 0, lineErr;
      }
      var semi := IndexOf(line, SEMICOLON);
      if semi >= 0 {
        line := line[..semi];
      }
      var size, ok := ParseHex(TrimOWS(line));
      if !ok {
        return 0, Some(Invalid);
      }
      return size, None;
    }

    /** n bytes of data and the CR LF after them. */
    method ReadData(n: nat) returns (data: bytes, e: Option<Error>)
      requires Valid()
      modifies this, conn
      ensures Valid()
      ensures var w := old(Ahead());
        if |w| < n + 2 then e == Some(Eof)
        else if w[n..][0] != CR || w[n..][1] != LF then e == Some(Invalid)
        else e == None && data == w[..n] && Ahead() == w[n..][2..]
    {
      data := [];
      ghost var w := Ahead();
      var ok := Ensure(n + 2);
      if !ok {
        return [], Some(Eof);
      }
      data := wire[pos..pos + n];
      assert data == w[..n];
      assert w[n..][0] == wire[pos + n] && w[n..][1] == wire[pos + n + 1];
      pos := pos + n;
      if wire[pos] != CR || wire[pos + 1] != LF {
        return [], Some(Invalid);
      }
      pos := pos + 2;
      assert Ahead() == w[n..][2..];
      return data, None;
    }

    method ReadTrailers(ghost y: Syntax, ghost body: bytes) returns (trailers: seq<Header>, e: Option<Error>)
      requires Valid() && y == SyntaxOf(Batch)
      modifies this, conn
      ensures Valid()
      ensures var spec := Trailers(y, body, [], old(Ahead()));
        spec.Depends? || spec == (if e.None? then Success(body, trailers, Ahead()) else Failure(e.value))
      ensures e.None? ==> |Ahead()| <= |old(Ahead())|
    {
      trailers := [];
      ghost var goal := Trailers(y, body, [], Ahead());
      while true
        invariant Valid() && (goal.Depends? || goal == Trailers(y, body, trailers, Ahead())) && |Ahead()| <= |old(Ahead())|
        decreases |Ahead()|
      {
        ghost var w := Ahead();
        assert y.line(w) == BatchLine(w);
        var line, lineErr := ReadLine();
        assert BatchLine(w).LongLine? ==> Trailers(y, body, trailers, w).Depends?;
        if lineErr.Some? {
          return trailers, lineErr;
        }
        if |line| == 0 {
          return trailers, None;
        }
        var field := ParseTrailer(line, |trailers|);
        if field.BadField? {
          return trailers, Some(field.e);
        }
        trailers := trailers + [field.h];
      }
    }

    /** One chunk: its size line, its data and the CR LF after it. `asked` is the call to the budget,
        if one was made. */
    method ReadChunk(ghost y: Syntax, max: nat, grants: nat -> bool, k: nat, body: bytes) returns (step: Step, ghost asked: seq<Call>)
      requires Valid() && y == SyntaxOf(Batch) && |body| <= max
      modifies this, conn
      ensures Valid() && Follows(y, max, grants, k, body, old(Ahead()), step, Ahead())
      ensures step.Chunk? ==> |Ahead()| < |old(Ahead())| && |body| + |step.data| <= max && asked == [Reserve(|step.data|, true)]
      ensures step.Last? ==> |Ahead()| <= |old(Ahead())| && asked == []
      ensures step.Stop? ==> (asked == [] && step.reserved == 0) || (|asked| == 1 && asked[0].Reserve? && Change(asked[0]) == step.reserved)
    {
      ghost var w := Ahead();
      assert y.line(w) == BatchLine(w);
      var n, sizeErr := ReadSize();
      if sizeErr.Some? {
        return Stop(sizeErr.value, 0), [];
      }
      if n == 0 {
        return Last, [];
      }
      if n > max - |body| {
        return Stop(TooLarge, 0), [];
      }
      if !grants(k) {
        return Stop(Budget, 0), [Reserve(n, false)];
      }
      ghost var w1 := Ahead();
      assert BatchLine(w).LongLine? || Chunks(y, max, grants, k, body, w) == ChunkData(y, max, grants, k + 1, body, n, w1);
      var data, dataErr := ReadData(n);
      DataSteps(y, max, grants, k + 1, body, n, w1);
      if dataErr.Some? {
        return Stop(dataErr.value, n), [Reserve(n, true)];
      }
      return Chunk(data), [Reserve(n, true)];
    }

    /** The whole body: for every way the stream may be cut into reads, and every buffer the decoder
        starts with, the result is that of decoding the stream as a whole. `reserved` is what the
        granted calls to the budget add up to. */
    method ReadBody(max: nat, grants: nat -> bool) returns (r: Decoded, reserved: nat, ghost calls: seq<Call>)
      requires Valid()
      modifies this, conn
      ensures Valid() && Agrees(Decode(Batch, max, grants, old(Ahead())), r, conn.unread)
      ensures r.Decoded? ==> reserved == |r.body| <= max && |r.leftover| + |conn.unread| <= |old(Ahead())|
      ensures Asks(calls) && Holding(calls) == reserved
    {
      ghost var y := SyntaxOf(Batch);
      ghost var goal := Decode(Batch, max, grants, Ahead());
      var body: bytes, k: nat := [], 0;
      reserved, calls := 0, [];
      while true
        invariant Valid() && reserved == |body| <= max && |Ahead()| <= |old(Ahead())|
        invariant Asks(calls) && Holding(calls) == reserved
        invariant goal.Depends? || goal == Chunks(y, max, grants, k, body, Ahead())
        decreases |Ahead()|
      {
        var step;
        ghost var asked;
        step, asked := ReadChunk(y, max, grants, k, body);
        if |asked| == 1 { HoldingSnoc(calls, asked[0]); assert asked == [asked[0]]; } else { assert calls + asked == calls; }
        calls := calls + asked;
        if step.Stop? {
          return Refused(step.e), reserved + step.reserved, calls;
        } else if step.Last? {
          break;
        }
        reserved := reserved + |step.data|;
        body, k := body + step.data, k + 1;
      }
      var trailers, e := ReadTrailers(y, body);
      if e.Some? {
        return Refused(e.value), reserved, calls;
      }
      return Decoded(body, wire[pos..], trailers), reserved, calls;
    }
  }

  /** The result of a decoder against the decoding of the whole stream. */
  ghost predicate Agrees(spec: Result, r: Decoded, unread: bytes) {
    spec.Depends? || spec == (if r.Decoded? then Success(r.body, r.trailers, r.leftover + unread) else Failure(r.e))
  }

  method ParseTrailer(line: bytes, count: nat) returns (field: Field)
    ensures field == TrailerOf(Batch, line, count)
  {
    var colon := IndexOf(line, COLON);
    if colon <= 0 || !ValidToken(line[..colon]) || count >= MAX_TRAILERS {
      return BadField(Invalid);
    }
    if FramingName(line[..colon]) {
      return BadField(Invalid);
    }
    return Field(Header(line[..colon], TrimOWS(line[colon + 1..])));
  }

  // ---------------------------------------------------------------- long lines

  /** readLine when `a` has arrived and the pieces follow: a long line is noticed only while its end
      is still missing. */
  function LineBy(a: bytes, pieces: seq<bytes>): Line
    decreases |pieces|
  {
    var i := CrlfFrom(a, 0);
    if i >= 0 then Line(a[..i], a[i + 2..] + Flat(pieces))
    else if |a| > MAX_LINE then NoLine(Invalid)
    else if |pieces| == 0 then NoLine(Eof)
    else LineBy(a + pieces[0], pieces[1..])
  }

  lemma {:induction false} ShortLineArrivesAnyhow(a: bytes, pieces: seq<bytes>)
    requires !BatchLine(a + Flat(pieces)).LongLine?
    ensures LineBy(a, pieces) == BatchLine(a + Flat(pieces))
    decreases |pieces|
  {
    var rest := Flat(pieces);
    if CrlfFrom(a, 0) >= 0 {
      LineArrived(a, rest);
    } else if |a| > MAX_LINE {
      LineTooLong(a, rest);
    } else if |pieces| == 0 {
      assert a + rest == a;
    } else {
      assert a + pieces[0] + Flat(pieces[1..]) == a + rest;
      ShortLineArrivesAnyhow(a + pieces[0], pieces[1..]);
    }
  }

  /** Reading a line gives the same result for every way the stream arrives exactly when the line
      that the stream begins with is shorter than 4096 bytes or never ends. */
  lemma LineIndependentIff(w: bytes)
    ensures (forall a, pieces :: a + Flat(pieces) == w ==> LineBy(a, pieces) == LineBy(w, [])) <==> !(CrlfFrom(w, 0) >= MAX_LINE)
  {
    assert w + Flat([]) == w;
    if CrlfFrom(w, 0) >= MAX_LINE {
      var i := CrlfFrom(w, 0);
      var a, pieces := w[..i + 1], [w[i + 1..]];
      assert Flat(pieces) == w[i + 1..] + Flat([]) by { assert pieces[1..] == []; }
      assert a + Flat(pieces) == w;
      assert CrlfFrom(a, 0) < 0 by { assert forall k :: 0 <= k < |a| ==> a[k] == w[k]; }
      assert LineBy(a, pieces) == NoLine(Invalid) && LineBy(w, []).Line?;
    } else {
      forall a, pieces | a + Flat(pieces) == w ensures LineBy(a, pieces) == LineBy(w, []) {
        ShortLineArrivesAnyhow(a, pieces);
        ShortLineArrivesAnyhow(w, []);
      }
    }
  }
}
