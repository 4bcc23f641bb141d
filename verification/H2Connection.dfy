/** The connection object of http2.go: the methods that update it under its lock. Each performs a step
    of the state machine, keeps the object consistent, and says what it does to windows, credit,
    reservations and handler slots. */
module H2Connection {
  import opened H2Core
  import opened H2Promises
  import H2Lifecycle
  import H2Budget

  /** The frame exceeds the stream's window: it is charged and reserved, and the connection fails. */
  ghost function Overflow(c: Conn, d: Data): Conn
    requires d.id in c.streams
  {
    var s := c.streams[d.id];
    Put(c.(flow := Charge(c.flow, d.flow), failure := StreamFlowError), d.id,
        s.(flow := Charge(s.flow, d.flow), body := StoreBody(s.life, s.body, d)))
  }

  lemma RegisterThenReset(c: Conn, id: nat, s: Stream)
    ensures Reset(Put(c.(registered := c.registered + {id}), id, s), id) == Drop(c, id, s)
  {
    assert c.registered + {id} - {id} == c.registered - {id};
    assert c.streams[id := s][id := Abandon(s)] == c.streams[id := Abandon(s)];
  }

  ghost function AbandonAll(streams: map<nat, Stream>, ids: set<nat>): map<nat, Stream> {
    map id | id in streams :: if id in ids then Abandon(streams[id]) else streams[id]
  }

  lemma AbandonNone(streams: map<nat, Stream>)
    ensures AbandonAll(streams, {}) == streams
  {
  }

  /** One more stream is visited. */
  lemma AbandonOneMore(streams: map<nat, Stream>, ids: set<nat>, id: nat)
    requires id in streams && id !in ids
    ensures AbandonAll(streams, ids)[id] == streams[id]
    ensures AbandonAll(streams, ids)[id := Abandon(streams[id])] == AbandonAll(streams, ids + {id})
  {
    var a, b := AbandonAll(streams, ids)[id := Abandon(streams[id])], AbandonAll(streams, ids + {id});
    assert a.Keys == b.Keys;
    assert forall k :: k in a ==> a[k] == b[k];
  }

  /** The streams of `ids` have been visited. */
  ghost function Abandoned(c: Conn, ids: set<nat>): Conn {
    c.(streams := AbandonAll(c.streams, ids), closing := c.closing - ids)
  }

  lemma AbandonFirst(c: Conn, ids: set<nat>, id: nat)
    requires id in ids && id in c.streams && id in c.closing
    ensures Abandoned(CloseOne(c, id), ids - {id}) == Abandoned(c, ids)
  {
    var c1 := CloseOne(c, id);
    assert c1.closing - (ids - {id}) == c.closing - ids;
    var a, b := AbandonAll(c1.streams, ids - {id}), AbandonAll(c.streams, ids);
    assert a.Keys == b.Keys;
    assert forall k :: k in a ==> a[k] == b[k];
  }

  lemma {:induction false} AbandonKeeps(cfg: Config, tunnels: bool, c: Conn, ids: set<nat>)
    requires Consistent(cfg, tunnels, c) && ids <= c.closing && ids <= c.streams.Keys
    ensures Consistent(cfg, tunnels, Abandoned(c, ids))
    decreases |ids|
  {
    if ids == {} {
      AbandonNone(c.streams);
      assert c.closing - ids == c.closing;
    } else {
      var id :| id in ids;
      StepConsistent(cfg, tunnels, c, CloseOneEvent(id));
      AbandonKeeps(cfg, tunnels, CloseOne(c, id), ids - {id});
      AbandonFirst(c, ids, id);
    }
  }

  lemma CloseConsistent(cfg: Config, tunnels: bool, c: Conn)
    requires Consistent(cfg, tunnels, c) && c.registered !! c.closing
    ensures Consistent(cfg, tunnels, c.(streams := AbandonAll(c.streams, c.registered), registered := {}, closed := true))
    ensures c.registered <= c.streams.Keys
  {
    StepConsistent(cfg, tunnels, c, CloseAllEvent);
    AbandonKeeps(cfg, tunnels, CloseAll(c), c.registered);
    assert c.closing + c.registered - c.registered == c.closing;
  }

  class Connection {
    const cfg: Config
    /** Tunnels are enabled. */
    const tunnels: bool
    var streams: map<nat, Stream>
    var registered: set<nat>
    var closing: set<nat>
    var lastStream: nat
    var draining: bool
    var closed: bool
    var failure: Failure
    var semaphore: int
    var flow: Flow

    ghost function View(): Conn
      reads this
    {
      Conn(streams, registered, closing, lastStream, draining, closed, failure, semaphore, flow)
    }

    ghost predicate Valid()
      reads this
    {
      Consistent(cfg, tunnels, View())
    }

    constructor (cfg: Config, tunnels: bool)
      ensures this.cfg == cfg && this.tunnels == tunnels && View() == Fresh && Valid()
    {
      this.cfg, this.tunnels := cfg, tunnels;
      streams, registered, closing := map[], {}, {};
      lastStream, draining, closed := 0, false, false;
      failure, semaphore, flow := Healthy, 0, FullWindow;
      new;
      FreshIsConsistent(cfg, tunnels);
    }

    /** resetStream */
    method ResetStream(id: nat)
      requires Valid()
      modifies this`streams, this`registered
      ensures Valid() && View() == Reset(old(View()), id) && Forgotten(old(View()), id, View())
    {
      ResetForgets(cfg, tunnels, View(), id);
      Forget(id);
    }

    /** The region of resetStream, also entered from other regions. */
    method Forget(id: nat)
      modifies this`streams, this`registered
      ensures View() == Reset(old(View()), id)
    {
      if id in registered && id in streams {
        var s := streams[id];
        if !HandlerStarted(s.life.handler) {
          var released := if s.body.reserved > 0 then 1 else 0;
          s := s.(body := s.body.(reserved := 0, returned := s.body.returned + Positive(s.body.reserved),
                                  releases := s.body.releases + released));
        }
        s := s.(life := s.life.(reset := true));
        streams := streams[id := s];
        registered := registered - {id};
      }
    }

    method ChargeWindow(n: nat)
      modifies this`flow
      ensures flow == Charge(old(flow), n)
    {
      flow := flow.(window := flow.window - n, charged := flow.charged + n);
    }

    method CreditConn(n: nat)
      modifies this`flow
      ensures flow == CreditLate(old(flow), n)
    {
      var accum := flow.accum + n;
      if accum >= UPDATE_THRESHOLD {
        flow := flow.(window := flow.window + accum, accum := 0, updates := flow.updates + Positive(accum));
      } else {
        flow := flow.(accum := accum);
      }
    }

    method HandleData(d: Data, granted: bool, lengthOk: bool)
      requires Valid() && Reading(View()) && d.size <= d.flow
      modifies this
      ensures Valid() && View() == H2Core.HandleData(cfg, old(View()), d, granted, lengthOk)
      ensures Absorbs(cfg, old(View()), d, granted, View())
    {
      DataAbsorbed(cfg, tunnels, View(), d, granted, lengthOk);
      CheckData(d, granted, lengthOk);
    }

    method CheckData(d: Data, granted: bool, lengthOk: bool)
      modifies this
      ensures View() == H2Core.HandleData(cfg, old(View()), d, granted, lengthOk)
    {
      if d.id == 0 {
        failure := ProtocolError;
        return;
      }
      if d.id !in registered || d.id !in streams {
        if d.id > lastStream {
          failure := ProtocolError;
        }
        return;
      }
      var s := streams[d.id];
      if !Receivable(s.life.phase) || (!s.life.connect && s.body.received + d.size > cfg.maxBody) {
        Forget(d.id);
        return;
      }
      if d.flow > 0 && flow.window < d.flow {
        ChargeWindow(d.flow);
        failure := ConnFlowError;
        return;
      }
      ChargeWindow(d.flow);
      if !s.life.connect && !granted && d.size > 0 {
        Forget(d.id);
        return;
      }
      AcceptData(d, s, lengthOk, old(View()));
    }

    /** The rest of handleData, once the budget has granted the payload. */
    method AcceptData(d: Data, s: Stream, lengthOk: bool, ghost before: Conn)
      requires d.id in streams && s == streams[d.id] && d.id in registered
      requires View() == before.(flow := Charge(before.flow, d.flow))
      modifies this
      ensures View() == (if s.flow.window < d.flow then Overflow(before, d) else StoreData(cfg, before, d, lengthOk))
    {
      var s1 := s;
      if !s.life.connect {
        s1 := s1.(body := s.body.(received := s.body.received + d.size, reserved := s.body.reserved + d.size,
                                  acquired := s.body.acquired + d.size));
      }
      s1 := s1.(flow := Charge(s.flow, d.flow));
      if s.flow.window < d.flow {
        streams := streams[d.id := s1];
        failure := StreamFlowError;
        return;
      }
      if CreditedOnArrival(cfg, s.life) {
        CreditConn(d.flow);
        s1 := s1.(flow := CreditLate(s1.flow, d.flow));
      } else {
        s1 := s1.(flow := s1.flow.(queued := s.flow.queued + d.size));
      }
      if d.end {
        var eof := s1.life.eof || IsStreaming(cfg, s1.life);
        s1 := s1.(life := s1.life.(ended := true, phase := RemoteEnd(s1.life.phase), eof := eof));
      }
      KeepOrDrop(d.id, s1, d.end && !s.life.connect, lengthOk);
    }

    /** The record is stored; at the end of a body it is marked for dispatch, or reset. */
    method KeepOrDrop(id: nat, s1: Stream, ends: bool, lengthOk: bool)
      requires id in registered
      modifies this`streams, this`registered
      ensures View() == if ends && !lengthOk then Drop(old(View()), id, s1) else Put(old(View()), id, s1.(life := Dispatched(s1.life, ends)))
    {
      streams := streams[id := s1];
      if ends {
        if lengthOk {
          streams := streams[id := s1.(life := Dispatched(s1.life, true))];
        } else {
          Forget(id);
        }
      }
    }

    method HandleHeaders(id: nat, end: bool, connect: bool, admission: Admission)
      requires Valid() && Reading(View()) && (connect ==> tunnels)
      modifies this
      ensures Valid() && View() == Headers(cfg, old(View()), id, end, connect, admission)
      ensures Opens(cfg, old(View()), id, View())
    {
      HeadersOpen(cfg, tunnels, View(), id, end, connect, admission, Headers(cfg, View(), id, end, connect, admission));
      CheckHeaders(id, end, connect, admission);
    }

    method CheckHeaders(id: nat, end: bool, connect: bool, admission: Admission)
      modifies this
      ensures View() == Headers(cfg, old(View()), id, end, connect, admission)
    {
      if id in registered && id in streams {
        HandleTrailers(id, end, admission);
        return;
      }
      if id % 2 == 0 || id <= lastStream {
        failure := ProtocolError;
        return;
      }
      lastStream := id;
      if draining || |registered| >= cfg.maxStreams || admission == Refuse {
        return;
      }
      RegisterStream(id, end, connect, admission);
    }

    method RegisterStream(id: nat, end: bool, connect: bool, admission: Admission)
      modifies this`streams, this`registered
      ensures View() == OpenStream(cfg, old(View()), id, end, connect, admission)
    {
      var phase := if end then HalfClosedRemote else Open;
      var s := Stream(Life(phase, connect, end, false, Undispatched, false, false, end), FullWindow, Body(0, 0, 0, 0, 0, 0));
      if admission == Cancel {
        AddStream(id, s);
        RegisterThenReset(old(View()), id, s);
        Forget(id);
      } else {
        if end || connect || cfg.streaming {
          s := s.(life := s.life.(handler := Queued));
        }
        AddStream(id, s);
      }
    }

    method AddStream(id: nat, s: Stream)
      modifies this`streams, this`registered
      ensures View() == Put(old(View()).(registered := old(registered) + {id}), id, s)
    {
      streams := streams[id := s];
      registered := registered + {id};
    }

    method HandleTrailers(id: nat, end: bool, admission: Admission)
      requires id in registered && id in streams
      modifies this
      ensures View() == Trailers(cfg, old(View()), id, end, admission)
    {
      var s := streams[id];
      if s.life.phase == Closed {
        failure := ProtocolError;
      } else if s.life.phase == HalfClosedRemote
        || (!s.life.handler.Undispatched? && !(cfg.streaming && !s.life.connect))
        || !end || admission != Accept {
        Forget(id);
      } else {
        var eof := s.life.eof || IsStreaming(cfg, s.life);
        var l := s.life.(ended := true, phase := RemoteEnd(s.life.phase), eof := eof);
        if l.handler.Undispatched? {
          l := l.(handler := Queued);
        }
        streams := streams[id := s.(life := l)];
      }
    }

    /** creditWindow: a tunnel reader took n bytes. */
    method CreditWindow(id: nat, n: nat)
      requires Valid() && ReadsTunnel(View(), id, n)
      modifies this`streams, this`flow
      ensures Valid() && View() == TunnelCredit(old(View()), id, n)
      ensures CreditedLate(old(flow), flow, n) && CreditedLate(old(streams)[id].flow, streams[id].flow, n)
      ensures streams[id].flow.queued == old(streams)[id].flow.queued - n && 0 <= streams[id].flow.accum < UPDATE_THRESHOLD
    {
      TunnelCredited(cfg, tunnels, View(), id, n);
      CreditBoth(id, n);
    }

    method CreditBoth(id: nat, n: nat)
      requires ReadsTunnel(View(), id, n)
      modifies this`streams, this`flow
      ensures View() == TunnelCredit(old(View()), id, n)
    {
      var s := streams[id];
      var f := s.flow.(queued := s.flow.queued - n);
      var accum := f.accum + n;
      if accum >= UPDATE_THRESHOLD {
        f := f.(window := f.window + accum, accum := 0, updates := f.updates + Positive(accum));
      } else {
        f := f.(accum := accum);
      }
      CreditConn(n);
      streams := streams[id := s.(flow := f)];
    }

    /** consumeH2Body: a streaming handler read n bytes. */
    method ConsumeBody(id: nat, n: nat)
      requires Valid() && ReadsBody(cfg, View(), id, n)
      modifies this`streams, this`flow
      ensures Valid() && View() == Consume(cfg, old(View()), id, n)
      ensures CreditedEarly(old(flow), flow, n) && CreditedEarly(old(streams)[id].flow, streams[id].flow, n)
      ensures streams[id].flow.queued == old(streams)[id].flow.queued - n
      ensures H2Budget.HeldAt(View(), id) == H2Budget.HeldAt(old(View()), id) - n
    {
      BodyConsumed(cfg, tunnels, View(), id, n);
      ReturnBody(id, n);
    }

    method ReturnBody(id: nat, n: nat)
      requires ReadsBody(cfg, View(), id, n)
      modifies this`streams, this`flow
      ensures View() == Consume(cfg, old(View()), id, n)
    {
      var s := streams[id];
      var f := s.flow.(queued := s.flow.queued - n, window := s.flow.window + n, consumed := s.flow.consumed + n, accum := s.flow.accum + n);
      flow := flow.(window := flow.window + n, consumed := flow.consumed + n, accum := flow.accum + n);
      if f.accum >= UPDATE_THRESHOLD {
        f := f.(accum := 0, updates := f.updates + Positive(f.accum));
      }
      if flow.accum >= UPDATE_THRESHOLD {
        flow := flow.(accum := 0, updates := flow.updates + Positive(flow.accum));
      }
      streams := streams[id := s.(flow := f, body := s.body.(reserved := s.body.reserved - n, returned := s.body.returned + n))];
    }

    /** flushH2BodyCredit: the body has been read to its end. */
    method FlushCredit(id: nat)
      requires Valid() && ReadsEnd(cfg, View(), id)
      modifies this`streams, this`flow
      ensures Valid() && View() == Flush(cfg, old(View()), id)
      ensures flow.accum == 0 && flow.window == old(flow).window
      ensures streams[id].flow.updates == streams[id].flow.consumed == old(streams)[id].flow.consumed
      ensures streams[id].flow.window == old(streams)[id].flow.window
    {
      CreditFlushed(cfg, tunnels, View(), id);
      AnnounceBoth(id);
    }

    method AnnounceBoth(id: nat)
      requires ReadsEnd(cfg, View(), id)
      modifies this`streams, this`flow
      ensures View() == Flush(cfg, old(View()), id)
    {
      var f := streams[id].flow;
      streams := streams[id := streams[id].(flow := f.(accum := 0, updates := f.updates + Positive(f.accum)))];
      flow := flow.(accum := 0, updates := flow.updates + Positive(flow.accum));
    }

    /** The first half of dispatch: take a handler slot, or refuse the stream when none is free. */
    method AcquireSlot(id: nat) returns (acquired: bool)
      requires Valid() && id in streams && streams[id].life.handler.Queued?
      modifies this`streams, this`registered, this`semaphore
      ensures Valid() && View() == Acquire(cfg, old(View()), id) && id in streams
      ensures acquired <==> |H2Lifecycle.Slots(old(View()))| < cfg.maxStreams
      ensures acquired ==> H2Lifecycle.Slots(View()) == H2Lifecycle.Slots(old(View())) + {id}
      ensures !acquired ==> id !in registered && (id in old(registered) ==> streams[id].life.reset)
    {
      SlotAcquired(cfg, tunnels, View(), id, Acquire(cfg, View(), id));
      acquired := TakeSlot(id);
    }

    method TakeSlot(id: nat) returns (acquired: bool)
      requires id in streams && streams[id].life.handler.Queued?
      modifies this`streams, this`registered, this`semaphore
      ensures View() == Acquire(cfg, old(View()), id)
      ensures acquired <==> old(semaphore) < cfg.maxStreams
    {
      acquired := semaphore < cfg.maxStreams;
      var s := streams[id];
      if acquired {
        semaphore := semaphore + 1;
        streams := streams[id := s.(life := s.life.(handler := Claimed))];
      } else {
        streams := streams[id := s.(life := s.life.(handler := Done(false)))];
        Forget(id);
        assert old(streams)[id := SetHandler(s, Done(false))][id := streams[id]] == old(streams)[id := streams[id]];
      }
    }

    /** The second half: the handler is started unless the stream was reset meanwhile. */
    method StartHandler(id: nat) returns (started: bool)
      requires Valid() && id in streams && streams[id].life.handler.Claimed?
      modifies this`streams, this`semaphore
      ensures Valid() && View() == Start(old(View()), id) && id in streams
      ensures started <==> HandlerStarted(streams[id].life.handler)
      ensures started <==> !old(streams)[id].life.reset
      ensures H2Lifecycle.Slots(View()) == if started then H2Lifecycle.Slots(old(View())) else H2Lifecycle.Slots(old(View())) - {id}
    {
      HandlerMayStart(cfg, tunnels, View(), id, Start(View(), id));
      started := StartOrFree(id);
    }

    method StartOrFree(id: nat) returns (started: bool)
      requires id in streams && streams[id].life.handler.Claimed?
      modifies this`streams, this`semaphore
      ensures View() == Start(old(View()), id)
      ensures started <==> !old(streams)[id].life.reset
    {
      var s := streams[id];
      started := !s.life.reset;
      if started {
        streams := streams[id := s.(life := s.life.(handler := Started))];
      } else {
        streams := streams[id := s.(life := s.life.(handler := Done(false)))];
        semaphore := semaphore - 1;
      }
    }

    /** The handler goroutine begins and takes over the reservation. */
    method BeginHandler(id: nat)
      requires Valid() && id in streams && streams[id].life.handler.Started?
      modifies this`streams
      ensures Valid() && View() == Begin(old(View()), id)
      ensures !cfg.streaming ==> H2Budget.HeldAt(View(), id) == H2Budget.HeldAt(old(View()), id)
      ensures H2Lifecycle.Slots(View()) == H2Lifecycle.Slots(old(View()))
    {
      HandlerTakesOver(cfg, tunnels, View(), id);
      var s := streams[id];
      streams := streams[id := s.(life := s.life.(handler := Running), body := s.body.(inHand := s.body.reserved, reserved := 0))];
    }

    /** The handler goroutine ends: what it took over and its slot are given back. */
    method ExitHandler(id: nat)
      requires Valid() && id in streams && streams[id].life.handler.Running?
      modifies this`streams, this`semaphore
      ensures Valid() && View() == Exit(old(View()), id)
      ensures H2Lifecycle.Slots(View()) == H2Lifecycle.Slots(old(View())) - {id}
      ensures !cfg.streaming ==> streams[id].body.returned == streams[id].body.acquired && streams[id].body.releases <= 1
    {
      HandlerGivesBack(cfg, tunnels, View(), id);
      LeaveHandler(id);
    }

    method LeaveHandler(id: nat)
      requires id in streams && streams[id].life.handler.Running?
      modifies this`streams, this`semaphore
      ensures View() == Exit(old(View()), id)
    {
      var s := streams[id];
      var released := if s.body.inHand > 0 then 1 else 0;
      var b := s.body.(inHand := 0, returned := s.body.returned + Positive(s.body.inHand), releases := s.body.releases + released);
      streams := streams[id := s.(life := s.life.(handler := Done(true)), body := b)];
      semaphore := semaphore - 1;
    }

    /** closeAllStreams: the registry is emptied first and its streams are abandoned one by one. */
    method CloseAllStreams()
      requires Valid() && registered !! closing
      modifies this`streams, this`registered, this`closing, this`closed
      ensures Valid() && registered == {} && closed && closing == old(closing)
      ensures streams == AbandonAll(old(streams), old(registered))
    {
      CloseConsistent(cfg, tunnels, View());
      DropAll();
    }

    method DropAll()
      requires registered <= streams.Keys && registered !! closing
      modifies this`streams, this`registered, this`closing, this`closed
      ensures registered == {} && closed && closing == old(closing)
      ensures streams == AbandonAll(old(streams), old(registered))
    {
      var taken := registered;
      closing := closing + taken;
      registered := {};
      closed := true;
      AbandonTaken(taken);
      assert old(closing) + taken - taken == old(closing);
    }

    method AbandonTaken(taken: set<nat>)
      requires taken <= streams.Keys && taken <= closing
      modifies this`streams, this`closing
      ensures streams == AbandonAll(old(streams), taken) && closing == old(closing) - taken
    {
      var todo, done: set<nat> := taken, {};
      AbandonNone(streams);
      while todo != {}
        invariant done + todo == taken && done !! todo
        invariant closing == old(closing) - done && streams == AbandonAll(old(streams), done)
        decreases |todo|
      {
        var id :| id in todo;
        AbandonOneMore(old(streams), done, id);
        AbandonClosing(id);
        assert old(closing) - done - {id} == old(closing) - (done + {id}) && (done + {id}) + (todo - {id}) == taken;
        todo, done := todo - {id}, done + {id};
      }
    }

    method AbandonClosing(id: nat)
      requires id in closing && id in streams
      modifies this`streams, this`closing
      ensures streams == old(streams)[id := Abandon(old(streams)[id])] && closing == old(closing) - {id}
    {
      var s := streams[id];
      if !HandlerStarted(s.life.handler) {
        var released := if s.body.reserved > 0 then 1 else 0;
        s := s.(body := s.body.(reserved := 0, returned := s.body.returned + Positive(s.body.reserved),
                                releases := s.body.releases + released));
      }
      streams := streams[id := s.(life := s.life.(reset := true))];
      closing := closing - {id};
    }
  }
}
