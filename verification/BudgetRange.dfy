/** Exactly when the body budget stays in range. */
module BudgetRange {
  import opened H2Core
  import opened Sums
  import opened BudgetCalls
  import opened BodyBudget

  // ---------------------------------------------------------------- nothing to reserve

  /** No stream has ever reserved anything. */
  ghost predicate NoBytesAt(c: Conn, id: nat) {
    id in c.streams ==>
      var s := c.streams[id];
      s.body.reserved == 0 && s.body.inHand == 0 && s.body.acquired == 0 && s.body.returned == 0 && (!s.life.connect ==> s.flow.queued == 0)
  }

  ghost predicate NoBytes(cfg: Config, c: Conn) {
    (cfg.maxStreams == 0 ==> c.streams == map[]) && forall id :: NoBytesAt(c, id)
  }

  lemma PutNoBytes(cfg: Config, c: Conn, c1: Conn, id: nat, s: Stream)
    requires NoBytes(cfg, c) && c1.streams == c.streams && cfg.maxStreams > 0
    requires s.body.reserved == 0 && s.body.inHand == 0 && s.body.acquired == 0 && s.body.returned == 0 && (!s.life.connect ==> s.flow.queued == 0)
    ensures NoBytes(cfg, Put(c1, id, s))
  {
    forall k ensures NoBytesAt(Put(c1, id, s), k) { assert NoBytesAt(c, k); }
  }

  lemma SameNoBytes(cfg: Config, c: Conn, c1: Conn)
    requires NoBytes(cfg, c) && c1.streams == c.streams
    ensures NoBytes(cfg, c1)
  {
    forall k ensures NoBytesAt(c1, k) { assert NoBytesAt(c, k); }
  }

  lemma ResetNoBytes(cfg: Config, c: Conn, c1: Conn, id: nat)
    requires NoBytes(cfg, c) && c1.streams == c.streams
    ensures NoBytes(cfg, Reset(c1, id))
  {
    assert NoBytesAt(c, id);
    if id in c1.registered && id in c1.streams {
      PutNoBytes(cfg, c, c1.(registered := c1.registered - {id}), id, Abandon(c1.streams[id]));
    } else {
      SameNoBytes(cfg, c, c1);
    }
  }

  lemma TrailersNoBytes(cfg: Config, c: Conn, id: nat, end: bool, admission: Admission)
    requires NoBytes(cfg, c) && id in c.streams
    ensures NoBytes(cfg, Trailers(cfg, c, id, end, admission))
  {
    assert NoBytesAt(c, id);
    var s := c.streams[id];
    if s.life.phase == Closed {
      SameNoBytes(cfg, c, c.(failure := ProtocolError));
    } else if Trailers(cfg, c, id, end, admission) == Reset(c, id) {
      ResetNoBytes(cfg, c, c, id);
    } else {
      PutNoBytes(cfg, c, c, id, s.(life := Dispatched(RemoteEnded(cfg, s.life, true), true)));
    }
  }

  lemma OpenNoBytes(cfg: Config, c: Conn, id: nat, end: bool, connect: bool, admission: Admission)
    requires NoBytes(cfg, c) && cfg.maxStreams > 0
    ensures NoBytes(cfg, OpenStream(cfg, c, id, end, connect, admission))
  {
    var s := NewStream(connect, end);
    if admission == Cancel {
      PutNoBytes(cfg, c, c.(registered := c.registered - {id}), id, Abandon(s));
    } else {
      PutNoBytes(cfg, c, c.(registered := c.registered + {id}), id, s.(life := Dispatched(s.life, end || connect || cfg.streaming)));
    }
  }

  lemma HeadersNoBytes(cfg: Config, c: Conn, id: nat, end: bool, connect: bool, admission: Admission)
    requires NoBytes(cfg, c)
    ensures NoBytes(cfg, Headers(cfg, c, id, end, connect, admission))
  {
    if id in c.registered && id in c.streams {
      TrailersNoBytes(cfg, c, id, end, admission);
    } else if id % 2 == 0 || id <= c.lastStream {
      SameNoBytes(cfg, c, c.(failure := ProtocolError));
    } else {
      SameNoBytes(cfg, c, c.(lastStream := id));
      if !(c.draining || |c.registered| >= cfg.maxStreams || admission == Refuse) {
        OpenNoBytes(cfg, c.(lastStream := id), id, end, connect, admission);
      }
    }
  }

  lemma StoreNoBytes(cfg: Config, c: Conn, d: Data, lengthOk: bool)
    requires NoBytes(cfg, c) && d.id in c.streams && (c.streams[d.id].life.connect || d.size == 0)
    ensures NoBytes(cfg, StoreData(cfg, c, d, lengthOk))
  {
    assert NoBytesAt(c, d.id);
    var s := c.streams[d.id];
    var c1 := c.(flow := if CreditedOnArrival(cfg, s.life) then CreditLate(Charge(c.flow, d.flow), d.flow) else Charge(c.flow, d.flow));
    var s1 := Stream(RemoteEnded(cfg, s.life, d.end), StoreFlow(cfg, s.life, s.flow, d), StoreBody(s.life, s.body, d));
    if d.end && !s.life.connect && !lengthOk {
      PutNoBytes(cfg, c, c1.(registered := c1.registered - {d.id}), d.id, Abandon(s1));
    } else {
      PutNoBytes(cfg, c, c1, d.id, s1.(life := Dispatched(s1.life, d.end && !s.life.connect)));
    }
  }

  lemma DataNoBytes(cfg: Config, c: Conn, d: Data, granted: bool, lengthOk: bool)
    requires NoBytes(cfg, c) && (cfg.maxBody == 0 || cfg.maxStreams == 0)
    ensures NoBytes(cfg, HandleData(cfg, c, d, granted, lengthOk))
  {
    var c1 := c.(flow := Charge(c.flow, d.flow));
    assert NoBytesAt(c, d.id);
    if d.id == 0 || d.id !in c.registered || d.id !in c.streams {
      SameNoBytes(cfg, c, HandleData(cfg, c, d, granted, lengthOk));
    } else {
      var s := c.streams[d.id];
      if !Receivable(s.life.phase) || (!s.life.connect && s.body.received + d.size > cfg.maxBody) {
        ResetNoBytes(cfg, c, c, d.id);
      } else if d.flow > 0 && c.flow.window < d.flow {
        SameNoBytes(cfg, c, c1.(failure := ConnFlowError));
      } else if !s.life.connect && !granted && d.size > 0 {
        ResetNoBytes(cfg, c, c1, d.id);
      } else if s.flow.window < d.flow {
        PutNoBytes(cfg, c, c1.(failure := StreamFlowError), d.id, s.(flow := Charge(s.flow, d.flow), body := StoreBody(s.life, s.body, d)));
      } else {
        StoreNoBytes(cfg, c, d, lengthOk);
      }
    }
  }

  lemma ReaderNoBytes(cfg: Config, c: Conn, e: Event)
    requires NoBytes(cfg, c) && OfReader(e)
    ensures NoBytes(cfg, Step(cfg, c, e))
  {
    assert NoBytesAt(c, e.id);
    if Step(cfg, c, e) != c {
      var s := c.streams[e.id];
      match e {
        case TunnelCreditEvent(id, n) =>
          PutNoBytes(cfg, c, c.(flow := CreditLate(c.flow, n)), id, s.(flow := CreditLate(s.flow.(queued := s.flow.queued - n), n)));
        case ConsumeEvent(id, n) => PutNoBytes(cfg, c, c.(flow := CreditEarly(c.flow, n)), id, Consume(cfg, c, id, n).streams[id]);
        case FlushEvent(id) => PutNoBytes(cfg, c, c.(flow := Announce(c.flow)), id, s.(flow := Announce(s.flow)));
      }
    }
  }

  lemma AcquireNoBytes(cfg: Config, c: Conn, id: nat)
    requires NoBytes(cfg, c)
    ensures NoBytes(cfg, Acquire(cfg, c, id))
  {
    assert NoBytesAt(c, id);
    if id in c.streams && c.streams[id].life.handler.Queued? {
      var s := c.streams[id];
      if c.semaphore < cfg.maxStreams {
        PutNoBytes(cfg, c, c.(semaphore := c.semaphore + 1), id, SetHandler(s, Claimed));
      } else if id in c.registered {
        PutNoBytes(cfg, c, c.(registered := c.registered - {id}), id, Abandon(SetHandler(s, Done(false))));
      } else {
        PutNoBytes(cfg, c, c, id, SetHandler(s, Done(false)));
      }
    }
  }

  lemma HandlerNoBytes(cfg: Config, c: Conn, e: Event)
    requires NoBytes(cfg, c) && OfHandler(e)
    ensures NoBytes(cfg, Step(cfg, c, e))
  {
    assert NoBytesAt(c, e.id);
    if e.AcquireEvent? {
      AcquireNoBytes(cfg, c, e.id);
    } else if Step(cfg, c, e) != c {
      var c' := Step(cfg, c, e);
      PutNoBytes(cfg, c, c.(semaphore := c'.semaphore), e.id, c'.streams[e.id]);
      assert c' == Put(c.(semaphore := c'.semaphore), e.id, c'.streams[e.id]);
    }
  }

  lemma RegistryNoBytes(cfg: Config, c: Conn, e: Event)
    requires NoBytes(cfg, c) && !OfFrame(e) && !OfReader(e) && !OfHandler(e)
    ensures NoBytes(cfg, Step(cfg, c, e))
  {
    assert NoBytesAt(c, Target(e));
    match e {
      case ResetEvent(id) => ResetNoBytes(cfg, c, c, id);
      case EndLocalEvent(id) => if id in c.streams { PutNoBytes(cfg, c, c, id, EndLocal(c, id).streams[id]); }
      case CloseOneEvent(id) =>
        if id in c.closing && id in c.streams { PutNoBytes(cfg, c, c.(closing := c.closing - {id}), id, Abandon(c.streams[id])); }
      case _ => SameNoBytes(cfg, c, Step(cfg, c, e));
    }
  }

  lemma StepNoBytes(cfg: Config, c: Conn, e: Event)
    requires NoBytes(cfg, c) && (cfg.maxBody == 0 || cfg.maxStreams == 0)
    ensures NoBytes(cfg, Step(cfg, c, e))
  {
    if e.HeadersEvent? {
      if Reading(c) { HeadersNoBytes(cfg, c, e.id, e.end, e.connect, e.admission); }
    } else if e.DataEvent? {
      if Reading(c) { DataNoBytes(cfg, c, e.data, e.granted, e.lengthOk); }
    } else if OfReader(e) {
      ReaderNoBytes(cfg, c, e);
    } else if OfHandler(e) {
      HandlerNoBytes(cfg, c, e);
    } else {
      RegistryNoBytes(cfg, c, e);
    }
  }

  /** Only HTTP/1 connections hold anything. */
  ghost predicate PlainOnly(cfg: Config, limit: int, s: Server) {
    && s.limit == limit && (forall k :: k in s.plain ==> s.plain[k] >= 0) && (forall k :: k in s.conns ==> NoBytes(cfg, s.conns[k]))
    && s.used == Total(s.plain) && 0 <= s.used <= limit
  }

  lemma SetKeepsPlainOnly(cfg: Config, limit: int, s: Server, k: nat, v: nat)
    requires limit > 0 && PlainOnly(cfg, limit, s) && Admits(s.limit, s.used, v - if k in s.plain then s.plain[k] else 0)
    ensures PlainOnly(cfg, limit, SetPlain(s, k, v))
  {
    TotalPut(s.plain, k, v);
    TotalNotNegative(s.plain[k := v]);
  }

  lemma ConnKeepsPlainOnly(cfg: Config, limit: int, s: Server, k: nat, e: Event)
    requires limit > 0 && (cfg.maxBody == 0 || cfg.maxStreams == 0) && PlainOnly(cfg, limit, s) && k in s.conns
    ensures PlainOnly(cfg, limit, StepH2(cfg, s, k, e))
  {
    var c := s.conns[k];
    StepNoBytes(cfg, c, e);
    assert NoBytesAt(c, Target(e)) && NoBytesAt(Step(cfg, c, e), Target(e));
  }

  lemma OpenKeepsPlainOnly(cfg: Config, limit: int, s: Server, k: nat)
    requires PlainOnly(cfg, limit, s)
    ensures PlainOnly(cfg, limit, s.(conns := s.conns[k := Fresh]))
  {
    assert NoBytes(cfg, Fresh);
  }

  lemma PlainOnlyStep(cfg: Config, limit: int, s: Server, e: ServerEvent)
    requires limit > 0 && (cfg.maxBody == 0 || cfg.maxStreams == 0) && PlainOnly(cfg, limit, s) && Fits(s, e)
    ensures PlainOnly(cfg, limit, ServerStep(cfg, s, e))
  {
    if e.OnH2? {
      if e.k in s.conns { ConnKeepsPlainOnly(cfg, limit, s, e.k, Answered(s, e.e)); }
    } else if e.OpenH2? {
      OpenKeepsPlainOnly(cfg, limit, s, e.k);
    } else {
      PlainKeepsPlainOnly(cfg, limit, s, e);
    }
  }

  lemma PlainKeepsPlainOnly(cfg: Config, limit: int, s: Server, e: ServerEvent)
    requires limit > 0 && PlainOnly(cfg, limit, s) && Fits(s, e) && !e.OnH2? && !e.OpenH2?
    ensures PlainOnly(cfg, limit, ServerStep(cfg, s, e))
  {
    var s' := ServerStep(cfg, s, e);
    if s' != s {
      assert s' == SetPlain(s, e.k, s'.plain[e.k]);
      SetKeepsPlainOnly(cfg, limit, s, e.k, s'.plain[e.k]);
    }
  }

  lemma PlainOnlyRuns(cfg: Config, limit: int, events: seq<ServerEvent>)
    requires limit > 0 && (cfg.maxBody == 0 || cfg.maxStreams == 0) && Disciplined(cfg, limit, events)
    ensures PlainOnly(cfg, limit, ServerRun(cfg, NewServer(limit), events))
  {
    forall s, e | PlainOnly(cfg, limit, s) && Fits(s, e) ensures PlainOnly(cfg, limit, ServerStep(cfg, s, e)) { PlainOnlyStep(cfg, limit, s, e); }
    RunKeeps(cfg, limit, s => PlainOnly(cfg, limit, s), events);
  }

  /** The counter stays between zero and the limit in every run exactly when bodies are buffered, or
      there is no stream or no byte of a body to reserve for. */
  lemma BudgetInRangeIff(cfg: Config, limit: int)
    requires limit >= 1
    ensures AlwaysInRange(cfg, limit) <==> !(cfg.streaming && cfg.maxBody >= 1 && cfg.maxStreams >= 1)
  {
    if cfg.streaming && cfg.maxBody >= 1 && cfg.maxStreams >= 1 {
      ReleasedTwice(cfg, limit);
      var c :| Reachable(cfg, limit, -1, c);
      var events :| OnlyH2(events) && ServerRun(cfg, NewServer(limit), events) == Server(limit, -1, map[], map[0 := c]);
      forall k ensures Balanced(Project(cfg, NewServer(limit), events, k)) { NoPlainCalls(cfg, NewServer(limit), events, k); }
      assert !(0 <= ServerRun(cfg, NewServer(limit), events).used);
    } else {
      forall events | Disciplined(cfg, limit, events) ensures 0 <= ServerRun(cfg, NewServer(limit), events).used <= limit {
        if !cfg.streaming { BudgetConservation(cfg, limit, events, 0, 0); } else { PlainOnlyRuns(cfg, limit, events); }
      }
    }
  }
}
