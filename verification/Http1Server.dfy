/** The keep-alive loop of serveConn in app.go: one buffer that grows, is shifted in place and is
    shrunk back, over a connection that delivers pieces of any size. */
module Http1Server {
  import opened Bytes
  import opened Options
  import opened Wire
  import opened Http1
  import opened BudgetCalls
  import Chunked
  import ChunkedBatch

  const PREFACE := Ascii("PRI * HTTP/2.0\r\n\r\nSM\r\n\r\n")

  /** copy(dst, src[from..from+n]); the two may be the same array. */
  method Move(dst: array<byte>, src: array<byte>, from: nat, n: nat)
    requires from + n <= src.Length && n <= dst.Length
    modifies dst
    ensures dst[..n] == old(src[from..from + n])
    ensures forall i :: n <= i < dst.Length ==> dst[i] == old(dst[i])
  {
    for i := 0 to n
      invariant forall k :: 0 <= k < i ==> dst[k] == old(src[from + k])
      invariant forall k :: i <= k < dst.Length ==> dst[k] == old(dst[k])
      invariant dst != src ==> forall k :: 0 <= k < src.Length ==> src[k] == old(src[k])
    {
      dst[i] := src[from + i];
    }
  }

  /** Writes data into buf at position at. */
  method Fill(buf: array<byte>, at: nat, data: bytes)
    requires at + |data| <= buf.Length
    modifies buf
    ensures buf[..at + |data|] == old(buf[..at]) + data
  {
    for i := 0 to |data|
      invariant forall k :: 0 <= k < at ==> buf[k] == old(buf[k])
      invariant forall k :: 0 <= k < i ==> buf[at + k] == data[k]
    {
      buf[at + i] := data[i];
    }
  }

  /** What the loop relies on: heads beyond the limit and the HTTP/2 preface are not HTTP/1 requests. */
  ghost predicate Sane<H>(parse: bytes -> Option<Parsed<H>>, maxHead: nat) {
    parse(PREFACE[..18]) == None && forall head :: |head| > maxHead ==> parse(head) == None
  }

  lemma PrefaceHasItsHead()
    ensures |PREFACE| == 24 && HeadEnd(PREFACE) == 14
  {
    assert EmptyLineAt(PREFACE, 14);
    assert forall k: nat :: k < 14 ==> PREFACE[k] != CR;
  }

  lemma PrefaceBegins(a: bytes)
    requires PREFACE <= a
    ensures HeadEnd(a) == 14
  {
    PrefaceHasItsHead();
    HeadEndOfPrefix(PREFACE, a[24..]);
    assert PREFACE + a[24..] == a;
  }

  /** A stream that begins like the preface has the preface's head, or none. */
  lemma PrefaceStops<H>(parse: bytes -> Option<Parsed<H>>, maxHead: nat, maxBody: nat, grants: nat -> bool, a: bytes, b: bytes)
    requires Sane(parse, maxHead) && (a <= PREFACE || PREFACE <= a) && HeadEnd(a) >= 0
    ensures NextMessage(parse, maxBody, grants, a + b) == Stop
  {
    PrefaceHasItsHead();
    if a <= PREFACE {
      HeadEndOfPrefix(a, PREFACE[|a|..]);
      assert a + PREFACE[|a|..] == PREFACE;
    } else {
      PrefaceBegins(a);
    }
    HeadEndOfPrefix(a, b);
    assert (a + b)[..18] == PREFACE[..18];
  }

  lemma NoHead<H>(parse: bytes -> Option<Parsed<H>>, maxHead: nat, maxBody: nat, grants: nat -> bool, w: bytes)
    requires Sane(parse, maxHead) && (HeadEnd(w) < 0 || HeadEnd(w) + 4 > maxHead)
    ensures NextMessage(parse, maxBody, grants, w) == Stop
  {
    if HeadEnd(w) >= 0 { assert |w[..HeadEnd(w) + 4]| > maxHead; }
  }

  /** Nothing is dispatched when the buffer or the stream ends before the head does. */
  lemma NoHeadStops<H>(parse: bytes -> Option<Parsed<H>>, maxHead: nat, maxBody: nat, grants: nat -> bool, a: bytes, b: bytes)
    requires Sane(parse, maxHead) && HeadEnd(a) < 0 && (|a| >= maxHead || b == [])
    ensures NextMessage(parse, maxBody, grants, a + b) == Stop
  {
    HeadEndOfPrefix(a, b);
    if b == [] { assert a + b == a; }
    NoHead(parse, maxHead, maxBody, grants, a + b);
  }

  /** No head has arrived, or only part of the preface, and nothing more will fit or come. */
  predicate Stuck(preface: bytes, a: bytes, b: bytes, maxHead: nat) {
    (HeadEnd(a) < 0 || a <= preface) && (|a| >= maxHead || b == [])
  }

  ghost predicate StopsAt(stop: bytes -> bool, a: bytes, b: bytes) {
    stop(a + b)
  }

  /** Streams that are given up on are streams without a further request. */
  ghost predicate GivesUp(stop: bytes -> bool, preface: bytes, maxHead: nat) {
    forall a, b :: Stuck(preface, a, b, maxHead) || preface <= a ==> StopsAt(stop, a, b)
  }

  lemma StopsGiveUp<H>(parse: bytes -> Option<Parsed<H>>, maxHead: nat, maxBody: nat, grants: nat -> bool)
    requires Sane(parse, maxHead)
    ensures GivesUp(w => NextMessage(parse, maxBody, grants, w) == Stop, PREFACE, maxHead)
  {
    forall a, b | Stuck(PREFACE, a, b, maxHead) || PREFACE <= a ensures StopsAt(w => NextMessage(parse, maxBody, grants, w) == Stop, a, b) {
      if PREFACE <= a { PrefaceBegins(a); }
      if HeadEnd(a) >= 0 {
        PrefaceStops(parse, maxHead, maxBody, grants, a, b);
      } else {
        NoHeadStops(parse, maxHead, maxBody, grants, a, b);
      }
    }
  }

  datatype PrefaceMatch = Partial | Complete | Different

  /** What one read of the head loop leads to. */
  datatype HeadStep = Arrived | Waiting | Ended | Switched

  class Server {
    const conn: Source
    const preface: bytes
    const raw: array<byte>
    var buf: array<byte>
    var len: nat
    var reservedBodyBytes: nat
    /** History: the calls made to the body budget. */
    ghost var calls: seq<Call>

    constructor (conn: Source, size: nat)
      requires size > 0
      ensures Valid() && Pending() == conn.unread && this.conn == conn && preface == PREFACE && fresh(raw) && buf == raw && calls == []
    {
      var b := new byte[size];
      this.conn, preface, raw, buf, len := conn, PREFACE, b, b, 0;
      reservedBodyBytes, calls := 0, [];
    }

    ghost predicate Valid()
      reads this
    {
      len <= buf.Length && buf.Length > 0 && raw.Length > 0 && |preface| > 0
      && Holding(calls) == reservedBodyBytes && Balanced(calls)
    }

    /** What has been received and not consumed, and what is still to come. */
    ghost function Pending(): bytes
      requires Valid()
      reads this, buf, conn
    {
      buf[..len] + conn.unread
    }

    /** reserveBufferedBody for a body of known length; the budget has answered. */
    method Ask(n: nat, granted: bool)
      requires Valid()
      modifies this`reservedBodyBytes, this`calls
      ensures Valid() && reservedBodyBytes == old(reservedBodyBytes) + if granted then n else 0
    {
      HoldingSnoc(calls, Reserve(n, granted));
      calls := calls + [Reserve(n, granted)];
      if granted {
        reservedBodyBytes := reservedBodyBytes + n;
      }
    }

    /** releaseBufferedBody after a response, and when the connection ends. */
    method GiveBack()
      requires Valid()
      modifies this`reservedBodyBytes, this`calls
      ensures Valid() && reservedBodyBytes == 0
    {
      HoldingSnoc(calls, Release(reservedBodyBytes));
      calls := calls + [Release(reservedBodyBytes)];
      reservedBodyBytes := 0;
    }

    /** One read into the free part of the buffer. */
    method Receive() returns (ok: bool)
      requires Valid() && len < buf.Length
      modifies this`len, buf, conn
      ensures Valid() && Pending() == old(Pending()) && len >= old(len)
      ensures ok ==> |conn.unread| < |old(conn.unread)|
      ensures !ok ==> conn.unread == [] && buf[..len] == old(buf[..len])
    {
      var data := conn.Read(buf.Length - len);
      Fill(buf, len, data);
      len := len + |data|;
      ok := data != [];
      assert Pending() == old(buf[..len]) + (data + conn.unread);
    }

    /** The buffer is replaced by a larger one with the same content. */
    method Grow(size: nat)
      requires Valid() && size >= buf.Length
      modifies this`buf
      ensures Valid() && Pending() == old(Pending()) && len == old(len) && buf[..len] == old(buf[..len]) && fresh(buf) && buf.Length == size
    {
      var grown := new byte[size];
      Move(grown, buf, 0, len);
      assert grown[..len] == buf[..len];
      buf := grown;
    }

    /** If the stream begins with the preface, so does what has arrived of it. */
    lemma PrefixOfPending()
      requires Valid()
      ensures preface <= Pending() && len < |preface| ==> buf[..len] == preface[..len]
      ensures preface <= Pending() && len >= |preface| ==> buf[..|preface|] == preface
    {
      if preface <= Pending() {
        assert forall k :: 0 <= k < |preface| ==> Pending()[k] == preface[k];
        assert forall k :: 0 <= k < len ==> Pending()[k] == buf[k];
      }
    }

    /** Does what has arrived look like the HTTP/2 preface? */
    method MatchPreface() returns (m: PrefaceMatch)
      requires Valid()
      ensures m.Partial? <==> len < |preface| && buf[..len] == preface[..len]
      ensures m.Complete? <==> len >= |preface| && buf[..|preface|] == preface
      ensures m.Partial? ==> buf[..len] <= preface
      ensures m.Complete? ==> preface <= buf[..len]
    {
      if len < |preface| && buf[..len] == preface[..len] {
        return Partial;
      }
      if len >= |preface| && buf[..|preface|] == preface {
        assert preface == buf[..len][..|preface|];
        return Complete;
      }
      return Different;
    }

    /** Room for at least one more byte, or the head is too large. */
    method MakeRoom(maxHead: nat) returns (ok: bool)
      requires Valid()
      modifies this`buf
      ensures Valid() && Pending() == old(Pending()) && len == old(len) && buf[..len] == old(buf[..len]) && (buf == old(buf) || fresh(buf))
      ensures if ok then len < buf.Length else len >= maxHead
    {
      if len == buf.Length {
        if len >= maxHead {
          return false;
        }
        Grow(if buf.Length * 2 > maxHead then maxHead else buf.Length * 2);
      }
      return true;
    }

    /** One read while the end of the head is missing. */
    method ReadMore(ghost stop: bytes -> bool, maxHead: nat, h2c: bool) returns (step: HeadStep)
      requires Valid() && GivesUp(stop, preface, maxHead) && (HeadEnd(buf[..len]) < 0 || buf[..len] <= preface)
      modifies this`buf, this`len, buf, conn
      ensures Valid() && Pending() == old(Pending()) && (buf == old(buf) || fresh(buf))
      ensures step.Arrived? || step.Waiting? ==> |conn.unread| < |old(conn.unread)|
      ensures step.Waiting? ==> h2c && len < |preface| && buf[..len] <= preface
      ensures step.Ended? || step.Switched? ==> stop(Pending())
      ensures step.Switched? ==> h2c && preface <= Pending()
      ensures h2c && maxHead >= |preface| && preface <= Pending() && old(len) < |preface| ==> step.Waiting? || step.Switched?
    {
      var room := MakeRoom(maxHead);
      if !room {
        assert StopsAt(stop, buf[..len], conn.unread);
        return Ended;
      }
      var ok := Receive();
      if !ok {
        assert StopsAt(stop, buf[..len], conn.unread);
        return Ended;
      }
      if h2c {
        var m := MatchPreface();
        PrefixOfPending();
        if m.Partial? {
          return Waiting;
        }
        if m.Complete? {
          assert StopsAt(stop, buf[..len], conn.unread);
          return Switched;
        }
      }
      return Arrived;
    }

    /** Reads until the end of the head has arrived. */
    method ReadHead(ghost stop: bytes -> bool, maxHead: nat, h2c: bool) returns (headEnd: int, http2: bool)
      requires Valid() && GivesUp(stop, preface, maxHead)
      modifies this`buf, this`len, buf, conn
      ensures Valid() && Pending() == old(Pending()) && (buf == old(buf) || fresh(buf))
      ensures headEnd >= 0 ==> headEnd == HeadEnd(Pending()) && headEnd + 4 <= len
      ensures headEnd < 0 ==> stop(Pending())
      ensures http2 ==> h2c && headEnd < 0 && preface <= Pending()
      ensures old(len) == 0 && h2c && maxHead >= |preface| && preface <= Pending() ==> http2
    {
      headEnd := HeadEnd(buf[..len]);
      ghost var switches := len == 0 && h2c && maxHead >= |preface| && preface <= Pending();
      while headEnd < 0
        invariant Valid() && Pending() == old(Pending()) && (buf == old(buf) || fresh(buf))
        invariant if headEnd >= 0 then headEnd == HeadEnd(buf[..len]) else HeadEnd(buf[..len]) < 0 || buf[..len] <= preface
        invariant switches ==> headEnd < 0 && len < |preface|
        decreases |conn.unread|
      {
        var step := ReadMore(stop, maxHead, h2c);
        match step {
          case Ended => return -1, false;
          case Switched => return -1, true;
          case Waiting =>
          case Arrived => headEnd := HeadEnd(buf[..len]);
        }
      }
      HeadEndOfPrefix(buf[..len], conn.unread);
      return headEnd, false;
    }

    /** Reads until a body of known length has arrived, in place or in a buffer made for it. */
    method ReadFixedBody(end: nat) returns (ok: bool)
      requires Valid()
      modifies this`buf, this`len, buf, conn
      ensures Valid() && Pending() == old(Pending()) && (buf == old(buf) || fresh(buf))
      ensures ok <==> end <= |Pending()|
      ensures ok ==> end <= len
    {
      if end > buf.Length {
        Grow(end);
      }
      while len < end
        invariant Valid() && Pending() == old(Pending()) && (buf == old(buf) || fresh(buf)) && end <= buf.Length
        decreases |conn.unread|
      {
        var more := Receive();
        if !more {
          return false;
        }
      }
      return true;
    }

    /** The bytes from `from` on become the beginning of the buffer; a grown buffer is dropped again
        once they fit the original one. */
    method Shift(from: nat)
      requires Valid() && from <= len
      modifies this`buf, this`len, buf, raw
      ensures Valid() && buf[..len] == old(buf[from..len]) && (buf == old(buf) || buf == raw)
    {
      var acc, n := buf, len - from;
      if buf.Length > raw.Length && n <= raw.Length {
        buf := raw;
      }
      Move(buf, acc, from, n);
      len := n;
    }

    /** After a chunked body, what the decoder has not used is copied back. */
    method Restore(leftover: bytes)
      requires Valid()
      modifies this`buf, this`len, buf, raw
      ensures Valid() && buf[..len] == leftover && (buf == old(buf) || buf == raw || fresh(buf))
    {
      if buf.Length > raw.Length && |leftover| <= raw.Length {
        buf := raw;
      }
      if |leftover| > buf.Length {
        buf := new byte[|leftover|];
      }
      Fill(buf, 0, leftover);
      len := |leftover|;
      assert buf[..0] == [];
    }

    /** A body of known length: it is taken out of the buffer, which then begins with what follows. */
    method TakeFixed(start: nat, n: nat) returns (body: Option<bytes>)
      requires Valid() && start <= len
      modifies this`buf, this`len, buf, raw, conn
      ensures Valid() && (buf == old(buf) || buf == raw || fresh(buf))
      ensures var w := old(Pending())[start..];
        if |w| < n then body == None else body == Some(w[..n]) && Pending() == w[n..]
    {
      ghost var p := Pending();
      var ok := ReadFixedBody(start + n);
      if !ok {
        return None;
      }
      body := Some(buf[start..start + n]);
      assert p[start..][..n] == buf[start..start + n];
      ghost var left := buf[start + n..len];
      assert p[start..][n..] == left + conn.unread;
      Shift(start + n);
    }

    /** A chunked body; each chunk is reserved before it is read. */
    method TakeChunked(start: nat, maxBody: nat, grants: nat -> bool) returns (r: ChunkedBatch.Decoded)
      requires Valid() && start <= len
      modifies this, buf, raw, conn
      ensures Valid() && (buf == old(buf) || buf == raw || fresh(buf))
      ensures var spec := Chunked.Decode(Chunked.Batch, maxBody, grants, old(Pending())[start..]);
        || spec.Depends?
        || spec == (if r.Decoded? then Chunked.Success(r.body, r.trailers, Pending()) else Chunked.Failure(r.e))
      ensures r.Decoded? ==> |Pending()| <= |old(Pending())| - start && reservedBodyBytes == old(reservedBodyBytes) + |r.body|
    {
      var d := new ChunkedBatch.Decoder(conn, buf[start..len]);
      assert d.Ahead() == Pending()[start..];
      var reserved;
      ghost var asked;
      r, reserved, asked := d.ReadBody(maxBody, grants);
      HoldingMore(calls, asked);
      calls := calls + asked;
      reservedBodyBytes := reservedBodyBytes + reserved;
      if r.Decoded? {
        Restore(r.leftover);
      }
    }

    /** One round of the loop: a request is read whole and taken out of the buffer, with its body
        reserved, or the connection ends. */
    method ReadRequest<H>(parse: bytes -> Option<Parsed<H>>, maxHead: nat, maxBody: nat, grants: nat -> bool, h2c: bool)
      returns (req: Option<Request<H>>, http2: bool)
      requires Valid() && GivesUp(w => NextMessage(parse, maxBody, grants, w) == Stop, preface, maxHead)
      modifies this, buf, raw, conn
      ensures Valid() && (buf == old(buf) || buf == raw || fresh(buf))
      ensures var n := NextMessage(parse, maxBody, grants, old(Pending()));
        n.Depends? || n == (if req.Some? then Message(req.value, Pending()) else Stop)
      ensures req.Some? ==> |Pending()| < |old(Pending())| && reservedBodyBytes == old(reservedBodyBytes) + |req.value.body|
      ensures http2 ==> req.None? && h2c && preface <= old(Pending())
      ensures old(len) == 0 && h2c && maxHead >= |preface| && preface <= old(Pending()) ==> http2
    {
      var headEnd;
      headEnd, http2 := ReadHead(w => NextMessage(parse, maxBody, grants, w) == Stop, maxHead, h2c);
      if headEnd < 0 {
        return None, http2;
      }
      req := FinishRequest(parse, headEnd, maxBody, grants);
    }

    /** The head has arrived. */
    method FinishRequest<H>(parse: bytes -> Option<Parsed<H>>, headEnd: nat, maxBody: nat, grants: nat -> bool) returns (req: Option<Request<H>>)
      requires Valid() && headEnd == HeadEnd(Pending()) && headEnd + 4 <= len
      modifies this, buf, raw, conn
      ensures Valid() && (buf == old(buf) || buf == raw || fresh(buf))
      ensures var n := NextMessage(parse, maxBody, grants, old(Pending()));
        n.Depends? || n == (if req.Some? then Message(req.value, Pending()) else Stop)
      ensures req.Some? ==> |Pending()| < |old(Pending())| && reservedBodyBytes == old(reservedBodyBytes) + |req.value.body|
    {
      ghost var w := Pending();
      assert w[..headEnd + 4] == buf[..headEnd + 4];
      var p := parse(buf[..headEnd + 4]);
      if p.None? || p.value.length > maxBody {
        RefusedHead(parse, maxBody, grants, w, headEnd);
        return None;
      }
      MessageAfterHead(parse, maxBody, grants, w, headEnd, p.value);
      req := TakeBody(p.value, headEnd + 4, maxBody, grants);
    }

    method TakeBody<H>(p: Parsed<H>, start: nat, maxBody: nat, grants: nat -> bool) returns (req: Option<Request<H>>)
      requires Valid() && start <= len && p.length <= maxBody
      modifies this, buf, raw, conn
      ensures Valid() && (buf == old(buf) || buf == raw || fresh(buf))
      ensures var n := Body(p, maxBody, grants, old(Pending())[start..]);
        n.Depends? || n == (if req.Some? then Message(req.value, Pending()) else Stop)
      ensures req.Some? ==> |Pending()| <= |old(Pending())| - start && reservedBodyBytes == old(reservedBodyBytes) + |req.value.body|
    {
      if p.chunked {
        var r := TakeChunked(start, maxBody, grants);
        if r.Refused? {
          return None;
        }
        return Some(Request(p.head, r.body, r.trailers));
      }
      if p.length > 0 {
        Ask(p.length, grants(0));
        if !grants(0) {
          return None;
        }
      }
      var body := TakeFixed(start, p.length);
      if body.None? {
        return None;
      }
      return Some(Request(p.head, body.value, []));
    }

    /** A request is read and answered while `held` bytes are reserved, and these are given back. */
    method Exchange<H>(parse: bytes -> Option<Parsed<H>>, maxHead: nat, maxBody: nat, grants: nat -> bool, h2c: bool)
      returns (req: Option<Request<H>>, http2: bool, ghost held: nat)
      requires Valid() && preface == PREFACE && Sane(parse, maxHead) && reservedBodyBytes == 0
      modifies this, buf, raw, conn
      ensures Valid() && (buf == old(buf) || buf == raw || fresh(buf)) && reservedBodyBytes == 0
      ensures var n := NextMessage(parse, maxBody, grants, old(Pending()));
        n.Depends? || n == (if req.Some? then Message(req.value, Pending()) else Stop)
      ensures req.Some? ==> |Pending()| < |old(Pending())| && held == |req.value.body|
    {
      StopsGiveUp(parse, maxHead, maxBody, grants);
      req, http2 := ReadRequest(parse, maxHead, maxBody, grants, h2c);
      held := reservedBodyBytes;
      GiveBack();
    }

    /** The keep-alive loop. For every way the stream is cut into reads, every size of the buffer and
        every budget, the requests dispatched are those of the stream as a whole. Each is dispatched
        while exactly its body is reserved (`held`), every release gives back what is held, and when
        the connection ends nothing is. */
    method Serve<H>(parse: bytes -> Option<Parsed<H>>, maxHead: nat, maxBody: nat, grants: nat -> nat -> bool, h2c: bool, keep: seq<Request<H>> -> bool)
      returns (dispatched: seq<Request<H>>, http2: bool, ghost held: seq<nat>)
      requires Valid() && preface == PREFACE && Sane(parse, maxHead) && reservedBodyBytes == 0
      modifies this, buf, raw, conn
      ensures Determined(parse, maxBody, grants, keep, [], old(Pending())) ==>
        dispatched == Dispatched(parse, maxBody, grants, keep, [], old(Pending()))
      ensures |held| == |dispatched| && forall i :: 0 <= i < |held| ==> held[i] == |dispatched[i].body|
      ensures Valid() && reservedBodyBytes == 0 && Holding(calls) == 0 && Balanced(calls)
    {
      dispatched, held := [], [];
      ghost var known := Determined(parse, maxBody, grants, keep, [], Pending());
      ghost var goal := Dispatched(parse, maxBody, grants, keep, [], Pending());
      assert known ==> OnTrack(goal, parse, maxBody, grants, keep, [], Pending());
      while true
        invariant Valid() && (buf == old(buf) || buf == raw || fresh(buf)) && reservedBodyBytes == 0
        invariant |held| == |dispatched| && forall i :: 0 <= i < |held| ==> held[i] == |dispatched[i].body|
        invariant known ==> OnTrack(goal, parse, maxBody, grants, keep, dispatched, Pending())
        decreases |Pending()|
      {
        var req;
        ghost var n;
        if known { GoesOn(goal, parse, maxBody, grants, keep, dispatched, Pending()); }
        req, http2, n := Exchange(parse, maxHead, maxBody, grants(|dispatched|), h2c);
        if req.None? {
          return;
        }
        held, dispatched := held + [n], dispatched + [req.value];
        if !keep(dispatched) {
          return;
        }
      }
    }
  }
}
