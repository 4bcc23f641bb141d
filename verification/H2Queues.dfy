/** The queues between the HTTP/2 connection and the readers of its streams (request_stream.go,
    http2_connect.go): bytes come out in the order in which the frames put them in. */
module H2Queues {
  import opened Sequences

  method CopyTo<T>(p: array<T>, at: nat, data: seq<T>)
    requires at + |data| <= p.Length
    modifies p
    ensures p[..at + |data|] == old(p[..at]) + data
    ensures forall i :: at + |data| <= i < p.Length ==> p[i] == old(p[i])
  {
    forall i | 0 <= i < |data| {
      p[at + i] := data[i];
    }
  }

  /** What a read returns with, or that it waits. */
  datatype Answer = Bytes | EndOfFile | Broken | Waits

  /** Unread bytes come first, then an error, then the end of the body. */
  function AnswerOf(queued: nat, closed: bool, eof: bool): Answer {
    if queued > 0 then Bytes else if closed then Broken else if eof then EndOfFile else Waits
  }

  /** bodyChunks, bodyChunkOffset, bodyQueued and bodyEOF of a stream; closed is its reset flag, which
      is set together with bodyErr. */
  class BodyQueue<T> {
    var chunks: seq<seq<T>>
    var offset: nat
    var queued: nat
    var eof: bool
    var closed: bool

    constructor ()
      ensures Valid() && Content() == [] && !eof && !closed
    {
      chunks, offset, queued, eof, closed := [], 0, 0, false, false;
    }

    /** END_STREAM by DATA or trailers. */
    method End()
      requires Valid()
      modifies this`eof
      ensures Valid() && Content() == old(Content()) && eof
    {
      eof := true;
    }

    /** resetStream */
    method Close()
      requires Valid()
      modifies this`eof, this`closed
      ensures Valid() && Content() == old(Content()) && eof && closed
    {
      eof, closed := true, true;
    }

    ghost predicate Valid()
      reads this
    {
      && (if |chunks| == 0 then offset == 0 else offset <= |chunks[0]|)
      && queued == |Flat(chunks)| - offset
    }

    ghost function Content(): seq<T>
      requires Valid()
      reads this
    {
      Flat(chunks)[offset..]
    }

    method Deliver(chunk: seq<T>)
      requires Valid()
      modifies this`chunks, this`queued
      ensures Valid() && Content() == old(Content()) + chunk
    {
      FlatSnoc(chunks, chunk);
      chunks := chunks + [chunk];
      queued := queued + |chunk|;
    }

    /** Up to max bytes of the first chunk; a chunk that is used up leaves the queue. */
    method TakeSome(max: nat) returns (data: seq<T>)
      requires Valid() && |chunks| > 0
      modifies this`chunks, this`offset, this`queued
      ensures Valid() && old(Content()) == data + Content() && |data| <= max
      ensures |chunks| < |old(chunks)| || (|data| == max && |chunks| == |old(chunks)|)
    {
      var chunk := chunks[0];
      ghost var all := Flat(chunks);
      var n := if |chunk| - offset < max then |chunk| - offset else max;
      data := chunk[offset..offset + n];
      assert all[offset..] == data + all[offset + n..];
      offset, queued := offset + n, queued - n;
      if offset == |chunk| {
        assert all[|chunk|..] == Flat(chunks[1..]);
        chunks, offset := chunks[1..], 0;
      }
    }

    /** The copying loop of Read: as many bytes as fit, in order. */
    method Copy(p: array<T>) returns (n: nat)
      requires Valid()
      modifies this`chunks, this`offset, this`queued, p
      ensures Valid() && n <= p.Length && old(Content()) == p[..n] + Content()
      ensures n == p.Length || Content() == []
      ensures forall i :: n <= i < p.Length ==> p[i] == old(p[i])
    {
      n := 0;
      assert p[..0] == [];
      while n < p.Length && |chunks| > 0
        invariant Valid() && n <= p.Length && old(Content()) == p[..n] + Content()
        invariant forall i :: n <= i < p.Length ==> p[i] == old(p[i])
        decreases |chunks|, p.Length - n
      {
        ghost var done := p[..n];
        var data := TakeSome(p.Length - n);
        CopyTo(p, n, data);
        Assoc(done, data, Content());
        n := n + |data|;
      }
    }

    /** Read: the oldest unread bytes in order; an error or the end of file only after all of them. */
    method Read(p: array<T>) returns (n: nat, answer: Answer)
      requires Valid()
      modifies this`chunks, this`offset, this`queued, p
      ensures Valid() && n <= p.Length && old(Content()) == p[..n] + Content() && (n == p.Length || Content() == [])
      ensures answer == if p.Length == 0 then Bytes else AnswerOf(|old(Content())|, closed, eof)
      ensures answer != Bytes ==> n == 0 && Content() == []
      ensures forall i :: n <= i < p.Length ==> p[i] == old(p[i])
    {
      if p.Length > 0 && queued == 0 {
        assert p[..0] == [];
        return 0, if closed then Broken else if eof then EndOfFile else Waits;
      }
      n := Copy(p);
      answer := Bytes;
    }
  }

  /** The inbound queue of a tunnel: a read takes from the first chunk only. */
  class TunnelQueue<T> {
    var inbound: seq<seq<T>>
    var remoteClosed: bool

    constructor ()
      ensures Content() == [] && !remoteClosed
    {
      inbound, remoteClosed := [], false;
    }

    ghost function Content(): seq<T>
      reads this
    {
      Flat(inbound)
    }

    method Deliver(chunk: seq<T>)
      modifies this`inbound
      ensures Content() == old(Content()) + chunk
    {
      FlatSnoc(inbound, chunk);
      inbound := inbound + [chunk];
    }

    method CloseRemote()
      modifies this`remoteClosed
      ensures remoteClosed
    {
      remoteClosed := true;
    }

    /** `n` bytes are credited to the windows afterwards; `eof` only after everything was read. */
    method Read(p: array<T>) returns (n: nat, eof: bool)
      modifies this`inbound, p
      ensures n <= p.Length && old(Content()) == p[..n] + Content()
      ensures eof <==> old(inbound) == [] && remoteClosed
      ensures eof ==> n == 0 && Content() == []
    {
      if |inbound| > 0 {
        var chunk := inbound[0];
        n := if |chunk| < p.Length then |chunk| else p.Length;
        forall i | 0 <= i < n {
          p[i] := chunk[i];
        }
        assert p[..n] == chunk[..n];
        ghost var rest := Flat(inbound[1..]);
        assert chunk + rest == chunk[..n] + (chunk[n..] + rest);
        if n < |chunk| {
          inbound := [chunk[n..]] + inbound[1..];
          assert inbound[1..] == old(inbound)[1..];
        } else {
          assert chunk[n..] + rest == rest;
          inbound := inbound[1..];
        }
        return n, false;
      }
      assert p[..0] == [];
      return 0, remoteClosed;
    }
  }
}
