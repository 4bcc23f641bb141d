/** Receive flow control of an HTTP/2 connection against a peer that keeps its own windows
    (section 6.9.1 of RFC 9113). */
module H2Receive {
  import opened H2Core
  import opened Windows
  import opened Sums
  import H2Lifecycle
  import Runs

  // ---------------------------------------------------------------- the two disciplines

  /** Credit enters the window when it is announced. */
  ghost predicate Late(f: Flow, queued: int) {
    && f.window == INITIAL_WINDOW - f.charged + f.updates
    && f.consumed == 0 && 0 <= f.accum < UPDATE_THRESHOLD
    && f.updates + f.accum + queued <= f.charged
  }

  /** Credit enters the window when it is consumed, and is announced later. */
  ghost predicate Early(f: Flow, queued: int) {
    && f.window == INITIAL_WINDOW - f.charged + f.consumed
    && f.updates + f.accum == f.consumed && f.accum >= 0
    && f.consumed + queued <= f.charged
  }

  /** The window is never behind what the peer was told. */
  ghost predicate Sound(f: Flow) {
    f.window >= INITIAL_WINDOW - f.charged + f.updates
  }

  ghost predicate StreamOk(cfg: Config, s: Stream) {
    if s.life.connect || !cfg.streaming then Late(s.flow, s.flow.queued) else Early(s.flow, s.flow.queued)
  }

  ghost function Unread(c: Conn): map<nat, int> {
    map id | id in c.streams :: c.streams[id].flow.queued
  }

  /** Connections that both stream bodies and carry tunnels mix the disciplines; nothing is said of them. */
  ghost predicate ConnOk(cfg: Config, tunnels: bool, f: Flow, queued: int) {
    if !cfg.streaming then Late(f, queued) else tunnels || Early(f, queued)
  }

  /** In streaming mode every registered request is dispatched before its first DATA frame. */
  ghost predicate Placed(cfg: Config, tunnels: bool, c: Conn, id: nat) {
    id in c.streams ==>
      && (c.streams[id].life.connect ==> tunnels)
      && (cfg.streaming && id in c.registered ==> c.streams[id].life.connect || !c.streams[id].life.handler.Undispatched?)
  }

  ghost predicate Inv(cfg: Config, tunnels: bool, c: Conn) {
    && (forall id :: id in c.streams ==> StreamOk(cfg, c.streams[id]))
    && (forall id :: Placed(cfg, tunnels, c, id))
    && ConnOk(cfg, tunnels, c.flow, Total(Unread(c)))
  }

  // ---------------------------------------------------------------- steps keep them

  lemma StaysInv(cfg: Config, tunnels: bool, c: Conn, c1: Conn)
    requires Inv(cfg, tunnels, c) && c1.streams == c.streams && c1.registered <= c.registered && c1.flow == c.flow
    ensures Inv(cfg, tunnels, c1)
  {
    forall id ensures Placed(cfg, tunnels, c1, id) { assert Placed(cfg, tunnels, c, id); }
    assert Unread(c1) == Unread(c);
  }

  ghost function UnreadAt(c: Conn, id: nat): int {
    if id in c.streams then c.streams[id].flow.queued else 0
  }

  lemma UnreadPut(c: Conn, c1: Conn, id: nat, s: Stream)
    requires c1.streams == c.streams
    ensures Total(Unread(Put(c1, id, s))) == Total(Unread(c)) + s.flow.queued - UnreadAt(c, id)
  {
    var m, m' := Unread(c)[id := s.flow.queued], Unread(Put(c1, id, s));
    assert m'.Keys == m.Keys;
    assert forall k :: k in m ==> m'[k] == m[k];
    assert m' == m;
    TotalPut(Unread(c), id, s.flow.queued);
  }

  lemma PutPlaced(cfg: Config, tunnels: bool, c: Conn, c1: Conn, id: nat, s: Stream, k: nat)
    requires Placed(cfg, tunnels, c, k) && c1.streams == c.streams && c1.registered <= c.registered + {id} && k != id
    ensures Placed(cfg, tunnels, Put(c1, id, s), k)
  {
  }

  /** A step that stores one record, old or new. */
  lemma PutInv(cfg: Config, tunnels: bool, c: Conn, c1: Conn, id: nat, s: Stream)
    requires Inv(cfg, tunnels, c) && c1.streams == c.streams && c1.registered <= c.registered + {id}
    requires StreamOk(cfg, s) && Placed(cfg, tunnels, Put(c1, id, s), id)
    requires ConnOk(cfg, tunnels, c1.flow, Total(Unread(c)) + s.flow.queued - UnreadAt(c, id))
    ensures Inv(cfg, tunnels, Put(c1, id, s))
  {
    var c' := Put(c1, id, s);
    forall k ensures Placed(cfg, tunnels, c', k) {
      assert Placed(cfg, tunnels, c, k);
      if k != id { PutPlaced(cfg, tunnels, c, c1, id, s, k); }
    }
    forall k | k in c'.streams ensures StreamOk(cfg, c'.streams[k]) { assert k != id ==> c'.streams[k] == c.streams[k]; }
    UnreadPut(c, c1, id, s);
  }

  lemma DropInv(cfg: Config, tunnels: bool, c: Conn, c1: Conn, id: nat, s: Stream)
    requires Inv(cfg, tunnels, c) && c1.streams == c.streams && c1.registered <= c.registered
    requires StreamOk(cfg, s) && (s.life.connect ==> tunnels)
    requires ConnOk(cfg, tunnels, c1.flow, Total(Unread(c)) + s.flow.queued - UnreadAt(c, id))
    ensures Inv(cfg, tunnels, Drop(c1, id, s))
  {
    PutInv(cfg, tunnels, c, c1.(registered := c1.registered - {id}), id, Abandon(s));
  }

  /** A step that changes no flow of the stream it touches. */
  lemma SameFlowInv(cfg: Config, tunnels: bool, c: Conn, c1: Conn, id: nat, s: Stream)
    requires Inv(cfg, tunnels, c) && c1.streams == c.streams && c1.registered <= c.registered && c1.flow == c.flow
    requires id in c.streams && s.flow == c.streams[id].flow && s.life.connect == c.streams[id].life.connect
    requires c.streams[id].life.handler.Undispatched? || !s.life.handler.Undispatched?
    ensures Inv(cfg, tunnels, Put(c1, id, s))
  {
    assert Placed(cfg, tunnels, c, id);
    PutInv(cfg, tunnels, c, c1, id, s);
  }

  lemma ResetInv(cfg: Config, tunnels: bool, c: Conn, id: nat)
    requires Inv(cfg, tunnels, c)
    ensures Inv(cfg, tunnels, Reset(c, id))
  {
    if id in c.registered && id in c.streams {
      SameFlowInv(cfg, tunnels, c, c.(registered := c.registered - {id}), id, Abandon(c.streams[id]));
    }
  }

  /** Charging the connection alone keeps its equation. */
  lemma ChargeInv(cfg: Config, tunnels: bool, c: Conn, n: nat)
    requires Inv(cfg, tunnels, c)
    ensures Inv(cfg, tunnels, c.(flow := Charge(c.flow, n)))
  {
    var c1 := c.(flow := Charge(c.flow, n));
    forall id ensures Placed(cfg, tunnels, c1, id) { assert Placed(cfg, tunnels, c, id); }
    assert Unread(c1) == Unread(c);
  }

  lemma TrailersInv(cfg: Config, tunnels: bool, c: Conn, id: nat, end: bool, admission: Admission)
    requires Inv(cfg, tunnels, c) && id in c.registered && id in c.streams
    ensures Inv(cfg, tunnels, Trailers(cfg, c, id, end, admission))
  {
    var s := c.streams[id];
    if s.life.phase == Closed {
      StaysInv(cfg, tunnels, c, c.(failure := ProtocolError));
    } else if Trailers(cfg, c, id, end, admission) == Reset(c, id) {
      ResetInv(cfg, tunnels, c, id);
    } else {
      SameFlowInv(cfg, tunnels, c, c, id, s.(life := Dispatched(RemoteEnded(cfg, s.life, true), true)));
    }
  }

  lemma OpenInv(cfg: Config, tunnels: bool, c: Conn, id: nat, end: bool, connect: bool, admission: Admission)
    requires Inv(cfg, tunnels, c) && (connect ==> tunnels) && id !in c.streams
    ensures Inv(cfg, tunnels, OpenStream(cfg, c.(lastStream := id), id, end, connect, admission))
  {
    var c1, s := c.(lastStream := id), NewStream(connect, end);
    if admission == Cancel {
      DropInv(cfg, tunnels, c, c1, id, s);
    } else {
      PutInv(cfg, tunnels, c, c1.(registered := c1.registered + {id}), id,
             s.(life := Dispatched(s.life, end || connect || cfg.streaming)));
    }
  }

  lemma HeadersInv(cfg: Config, tunnels: bool, c: Conn, id: nat, end: bool, connect: bool, admission: Admission)
    requires Inv(cfg, tunnels, c) && (connect ==> tunnels) && (id > c.lastStream ==> id !in c.streams)
    ensures Inv(cfg, tunnels, Headers(cfg, c, id, end, connect, admission))
  {
    var c' := Headers(cfg, c, id, end, connect, admission);
    if id in c.registered && id in c.streams {
      assert c' == Trailers(cfg, c, id, end, admission);
      TrailersInv(cfg, tunnels, c, id, end, admission);
    } else if id % 2 == 0 || id <= c.lastStream || c.draining || |c.registered| >= cfg.maxStreams || admission == Refuse {
      assert c'.streams == c.streams && c'.registered == c.registered && c'.flow == c.flow;
      StaysInv(cfg, tunnels, c, c');
    } else {
      assert c' == OpenStream(cfg, c.(lastStream := id), id, end, connect, admission);
      OpenInv(cfg, tunnels, c, id, end, connect, admission);
    }
  }

  /** Both windows stay in step when a frame is stored. */
  lemma StoreFlowOk(cfg: Config, tunnels: bool, s: Stream, f: Flow, queued: int, d: Data)
    requires StreamOk(cfg, s) && ConnOk(cfg, tunnels, f, queued) && d.size <= d.flow
    requires (s.life.connect ==> tunnels) && (cfg.streaming ==> s.life.connect || !s.life.handler.Undispatched?)
    ensures var g := StoreFlow(cfg, s.life, s.flow, d);
      && StreamOk(cfg, s.(flow := g))
      && ConnOk(cfg, tunnels, if CreditedOnArrival(cfg, s.life) then CreditLate(Charge(f, d.flow), d.flow) else Charge(f, d.flow),
                queued + g.queued - s.flow.queued)
  {
  }

  lemma StoreInv(cfg: Config, tunnels: bool, c: Conn, d: Data, lengthOk: bool)
    requires Inv(cfg, tunnels, c) && d.size <= d.flow && d.id in c.streams && d.id in c.registered
    ensures Inv(cfg, tunnels, StoreData(cfg, c, d, lengthOk))
  {
    var s := c.streams[d.id];
    assert Placed(cfg, tunnels, c, d.id);
    var c1 := c.(flow := if CreditedOnArrival(cfg, s.life) then CreditLate(Charge(c.flow, d.flow), d.flow) else Charge(c.flow, d.flow));
    var s1 := Stream(RemoteEnded(cfg, s.life, d.end), StoreFlow(cfg, s.life, s.flow, d), StoreBody(s.life, s.body, d));
    StoreFlowOk(cfg, tunnels, s, c.flow, Total(Unread(c)), d);
    if d.end && !s.life.connect && !lengthOk {
      DropInv(cfg, tunnels, c, c1, d.id, s1);
    } else {
      PutInv(cfg, tunnels, c, c1, d.id, s1.(life := Dispatched(s1.life, d.end && !s.life.connect)));
    }
  }

  /** The connection window is charged and the frame refused. */
  lemma ChargedInv(cfg: Config, tunnels: bool, c: Conn, d: Data)
    requires Inv(cfg, tunnels, c)
    ensures var c1 := c.(flow := Charge(c.flow, d.flow)); Inv(cfg, tunnels, c1.(failure := ConnFlowError)) && Inv(cfg, tunnels, Reset(c1, d.id))
  {
    var c1 := c.(flow := Charge(c.flow, d.flow));
    ChargeInv(cfg, tunnels, c, d.flow);
    StaysInv(cfg, tunnels, c1, c1.(failure := ConnFlowError));
    ResetInv(cfg, tunnels, c1, d.id);
  }

  lemma OverflowInv(cfg: Config, tunnels: bool, c: Conn, d: Data)
    requires Inv(cfg, tunnels, c) && d.id in c.streams
    ensures var s := c.streams[d.id];
      Inv(cfg, tunnels, Put(c.(flow := Charge(c.flow, d.flow), failure := StreamFlowError), d.id,
                            s.(flow := Charge(s.flow, d.flow), body := StoreBody(s.life, s.body, d))))
  {
    var s := c.streams[d.id];
    assert Placed(cfg, tunnels, c, d.id);
    PutInv(cfg, tunnels, c, c.(flow := Charge(c.flow, d.flow), failure := StreamFlowError), d.id,
           s.(flow := Charge(s.flow, d.flow), body := StoreBody(s.life, s.body, d)));
  }

  lemma DataInv(cfg: Config, tunnels: bool, c: Conn, d: Data, granted: bool, lengthOk: bool)
    requires Inv(cfg, tunnels, c) && d.size <= d.flow
    ensures Inv(cfg, tunnels, HandleData(cfg, c, d, granted, lengthOk))
  {
    if d.id == 0 || d.id !in c.registered || d.id !in c.streams {
      StaysInv(cfg, tunnels, c, HandleData(cfg, c, d, granted, lengthOk));
    } else {
      var s := c.streams[d.id];
      if !Receivable(s.life.phase) || (!s.life.connect && s.body.received + d.size > cfg.maxBody) {
        ResetInv(cfg, tunnels, c, d.id);
      } else if d.flow > 0 && c.flow.window < d.flow {
        ChargedInv(cfg, tunnels, c, d);
      } else if !s.life.connect && !granted && d.size > 0 {
        ChargedInv(cfg, tunnels, c, d);
      } else if s.flow.window < d.flow {
        OverflowInv(cfg, tunnels, c, d);
      } else {
        StoreInv(cfg, tunnels, c, d, lengthOk);
      }
    }
  }

  lemma CreditLateOk(f: Flow, queued: int, n: nat)
    requires Late(f, queued)
    ensures Late(CreditLate(f, n), queued - n)
  {
  }

  lemma CreditEarlyOk(f: Flow, queued: int, n: nat)
    requires Early(f, queued)
    ensures Early(CreditEarly(f, n), queued - n)
  {
  }

  lemma TunnelFlows(cfg: Config, tunnels: bool, s: Stream, f: Flow, total: int, n: nat)
    requires StreamOk(cfg, s) && s.life.connect && tunnels && n <= s.flow.queued && ConnOk(cfg, tunnels, f, total)
    ensures var g := CreditLate(s.flow.(queued := s.flow.queued - n), n);
      g.queued == s.flow.queued - n && StreamOk(cfg, s.(flow := g)) && ConnOk(cfg, tunnels, CreditLate(f, n), total - n)
  {
    CreditLateOk(s.flow.(queued := s.flow.queued - n), s.flow.queued, n);
    if !cfg.streaming { CreditLateOk(f, total, n); }
  }

  lemma TunnelCreditInv(cfg: Config, tunnels: bool, c: Conn, id: nat, n: nat)
    requires Inv(cfg, tunnels, c)
    ensures Inv(cfg, tunnels, TunnelCredit(c, id, n))
  {
    if ReadsTunnel(c, id, n) {
      var s := c.streams[id];
      var s' := s.(flow := CreditLate(s.flow.(queued := s.flow.queued - n), n));
      assert Placed(cfg, tunnels, c, id);
      var c1 := c.(flow := CreditLate(c.flow, n));
      TunnelFlows(cfg, tunnels, s, c.flow, Total(Unread(c)), n);
      assert TunnelCredit(c, id, n) == Put(c1, id, s') && Placed(cfg, tunnels, Put(c1, id, s'), id);
      PutInv(cfg, tunnels, c, c1, id, s');
    }
  }

  lemma ConsumeInv(cfg: Config, tunnels: bool, c: Conn, id: nat, n: nat)
    requires Inv(cfg, tunnels, c)
    ensures Inv(cfg, tunnels, Consume(cfg, c, id, n))
  {
    if ReadsBody(cfg, c, id, n) {
      var s := c.streams[id];
      var s' := Consume(cfg, c, id, n).streams[id];
      assert Placed(cfg, tunnels, c, id);
      CreditEarlyOk(s.flow.(queued := s.flow.queued - n), s.flow.queued, n);
      if !tunnels { CreditEarlyOk(c.flow, Total(Unread(c)), n); }
      assert s'.flow.queued == s.flow.queued - n;
      PutInv(cfg, tunnels, c, c.(flow := CreditEarly(c.flow, n)), id, s');
    }
  }

  lemma FlushInv(cfg: Config, tunnels: bool, c: Conn, id: nat)
    requires Inv(cfg, tunnels, c)
    ensures Inv(cfg, tunnels, Flush(cfg, c, id))
  {
    if ReadsEnd(cfg, c, id) {
      assert Placed(cfg, tunnels, c, id);
      PutInv(cfg, tunnels, c, c.(flow := Announce(c.flow)), id, c.streams[id].(flow := Announce(c.streams[id].flow)));
    }
  }

  lemma AcquireInv(cfg: Config, tunnels: bool, c: Conn, id: nat)
    requires Inv(cfg, tunnels, c)
    ensures Inv(cfg, tunnels, Acquire(cfg, c, id))
  {
    var c' := Acquire(cfg, c, id);
    AcquireEffect(cfg, c, id);
    if c' != c { SameFlowInv(cfg, tunnels, c, c'.(streams := c.streams), id, c'.streams[id]); }
  }

  lemma AcquireEffect(cfg: Config, c: Conn, id: nat)
    ensures var c' := Acquire(cfg, c, id);
      c' == c || (id in c.streams && id in c'.streams && c' == Put(c'.(streams := c.streams), id, c'.streams[id])
                  && c'.registered <= c.registered && c'.flow == c.flow && c'.streams[id].flow == c.streams[id].flow
                  && c'.streams[id].life.connect == c.streams[id].life.connect && !c'.streams[id].life.handler.Undispatched?)
  {
    var c' := Acquire(cfg, c, id);
    if id in c.streams && c.streams[id].life.handler.Queued? {
      var s := c.streams[id];
      if c.semaphore < cfg.maxStreams {
        assert c' == Put(c.(semaphore := c.semaphore + 1), id, SetHandler(s, Claimed));
      } else if id in c.registered {
        assert c' == Put(c.(registered := c.registered - {id}), id, Abandon(SetHandler(s, Done(false))));
      } else {
        assert c' == Put(c, id, SetHandler(s, Done(false)));
      }
    }
  }

  lemma StartInv(cfg: Config, tunnels: bool, c: Conn, id: nat)
    requires Inv(cfg, tunnels, c)
    ensures Inv(cfg, tunnels, Start(c, id))
  {
    if id in c.streams && c.streams[id].life.handler.Claimed? {
      var s := c.streams[id];
      if s.life.reset {
        SameFlowInv(cfg, tunnels, c, c.(semaphore := c.semaphore - 1), id, SetHandler(s, Done(false)));
      } else {
        SameFlowInv(cfg, tunnels, c, c, id, SetHandler(s, Started));
      }
    }
  }

  lemma BeginInv(cfg: Config, tunnels: bool, c: Conn, id: nat)
    requires Inv(cfg, tunnels, c)
    ensures Inv(cfg, tunnels, Begin(c, id))
  {
    if id in c.streams && c.streams[id].life.handler.Started? {
      SameFlowInv(cfg, tunnels, c, c, id, Begin(c, id).streams[id]);
    }
  }

  lemma ExitInv(cfg: Config, tunnels: bool, c: Conn, id: nat)
    requires Inv(cfg, tunnels, c)
    ensures Inv(cfg, tunnels, Exit(c, id))
  {
    if id in c.streams && c.streams[id].life.handler.Running? {
      SameFlowInv(cfg, tunnels, c, c.(semaphore := c.semaphore - 1), id, Exit(c, id).streams[id]);
    }
  }

  lemma EndLocalInv(cfg: Config, tunnels: bool, c: Conn, id: nat)
    requires Inv(cfg, tunnels, c)
    ensures Inv(cfg, tunnels, EndLocal(c, id))
  {
    if id in c.streams { SameFlowInv(cfg, tunnels, c, c, id, EndLocal(c, id).streams[id]); }
  }

  lemma CloseOneInv(cfg: Config, tunnels: bool, c: Conn, id: nat)
    requires Inv(cfg, tunnels, c)
    ensures Inv(cfg, tunnels, CloseOne(c, id))
  {
    if id in c.closing && id in c.streams {
      SameFlowInv(cfg, tunnels, c, c.(closing := c.closing - {id}), id, Abandon(c.streams[id]));
    }
  }

  /** DATA payload without padding is not longer than the frame; tunnels only where allowed. */
  ghost predicate WellFormed(tunnels: bool, e: Event) {
    match e
    case HeadersEvent(_, _, connect, _) => connect ==> tunnels
    case DataEvent(data, _, _) => data.size <= data.flow
    case _ => true
  }

  lemma StepInv(cfg: Config, tunnels: bool, c: Conn, e: Event)
    requires Inv(cfg, tunnels, c) && WellFormed(tunnels, e)
    requires forall id :: id in c.streams ==> id <= c.lastStream
    ensures Inv(cfg, tunnels, Step(cfg, c, e))
  {
    match e {
      case HeadersEvent(id, end, connect, admission) =>
        if Reading(c) { HeadersInv(cfg, tunnels, c, id, end, connect, admission); }
      case DataEvent(data, granted, lengthOk) =>
        if Reading(c) { DataInv(cfg, tunnels, c, data, granted, lengthOk); }
      case ResetEvent(id) => ResetInv(cfg, tunnels, c, id);
      case FinishEvent(id) => StaysInv(cfg, tunnels, c, Finish(c, id));
      case EndLocalEvent(id) => EndLocalInv(cfg, tunnels, c, id);
      case TunnelCreditEvent(id, n) => TunnelCreditInv(cfg, tunnels, c, id, n);
      case ConsumeEvent(id, n) => ConsumeInv(cfg, tunnels, c, id, n);
      case FlushEvent(id) => FlushInv(cfg, tunnels, c, id);
      case AcquireEvent(id) => AcquireInv(cfg, tunnels, c, id);
      case StartEvent(id) => StartInv(cfg, tunnels, c, id);
      case BeginEvent(id) => BeginInv(cfg, tunnels, c, id);
      case ExitEvent(id) => ExitInv(cfg, tunnels, c, id);
      case DrainEvent => StaysInv(cfg, tunnels, c, c.(draining := true));
      case CloseAllEvent => StaysInv(cfg, tunnels, c, CloseAll(c));
      case CloseOneEvent(id) => CloseOneInv(cfg, tunnels, c, id);
    }
  }

  // ---------------------------------------------------------------- what a step charges and announces

  ghost function FlowOn(c: Conn, id: nat): Flow {
    if id in c.streams then c.streams[id].flow else FullWindow
  }

  /** What a frame may debit. */
  ghost function Debited(e: Event): nat {
    if e.DataEvent? then e.data.flow else 0
  }

  /** At most the debit is charged, and nothing announced is taken back. */
  ghost predicate Advances(f: Flow, g: Flow, debit: nat) {
    f.charged <= g.charged <= f.charged + debit && f.updates <= g.updates
  }

  lemma StoreAdvances(cfg: Config, c: Conn, d: Data, lengthOk: bool)
    requires d.id in c.streams
    ensures var c' := StoreData(cfg, c, d, lengthOk);
      Advances(c.flow, c'.flow, d.flow) && Advances(FlowOn(c, d.id), FlowOn(c', d.id), d.flow)
  {
  }

  lemma DataAdvances(cfg: Config, c: Conn, d: Data, granted: bool, lengthOk: bool)
    ensures var c' := HandleData(cfg, c, d, granted, lengthOk);
      Advances(c.flow, c'.flow, d.flow) && Advances(FlowOn(c, d.id), FlowOn(c', d.id), d.flow)
  {
    if d.id in c.registered && d.id in c.streams {
      var s := c.streams[d.id];
      if !Receivable(s.life.phase) || (!s.life.connect && s.body.received + d.size > cfg.maxBody) {
        ResetAdvances(c, d.id);
      } else if !(d.flow > 0 && c.flow.window < d.flow) && !s.life.connect && !granted && d.size > 0 {
        ResetAdvances(c.(flow := Charge(c.flow, d.flow)), d.id);
      } else if !(d.flow > 0 && c.flow.window < d.flow) && s.flow.window >= d.flow {
        StoreAdvances(cfg, c, d, lengthOk);
      }
    }
  }

  lemma ResetAdvances(c: Conn, id: nat)
    ensures Reset(c, id).flow == c.flow && FlowOn(Reset(c, id), id) == FlowOn(c, id)
  {
  }

  lemma HeadersAdvance(cfg: Config, c: Conn, id: nat, end: bool, connect: bool, admission: Admission)
    requires id > c.lastStream ==> id !in c.streams
    ensures var c' := Headers(cfg, c, id, end, connect, admission);
      Advances(c.flow, c'.flow, 0) && Advances(FlowOn(c, id), FlowOn(c', id), 0)
  {
  }

  lemma StepAdvances(cfg: Config, c: Conn, e: Event)
    requires forall id :: id in c.streams ==> id <= c.lastStream
    ensures var c' := Step(cfg, c, e);
      Advances(c.flow, c'.flow, Debited(e)) && Advances(FlowOn(c, Target(e)), FlowOn(c', Target(e)), Debited(e))
  {
    match e {
      case HeadersEvent(id, end, connect, admission) => HeadersAdvance(cfg, c, id, end, connect, admission);
      case DataEvent(data, granted, lengthOk) => DataAdvances(cfg, c, data, granted, lengthOk);
      case _ =>
    }
  }

  // ---------------------------------------------------------------- a peer that keeps its windows

  /** DATA bytes sent and WINDOW_UPDATE bytes received so far, for the connection and per stream. */
  datatype Peer = Peer(sent: nat, got: nat, streamSent: map<nat, nat>, streamGot: map<nat, nat>)

  /** The connection, its peer, and the DATA frames on their way. */
  datatype World = World(conn: Conn, peer: Peer, wire: seq<Data>)

  const Start0 := World(Fresh, Peer(0, 0, map[], map[]), [])

  function At(m: map<nat, nat>, id: nat): nat {
    if id in m then m[id] else 0
  }

  datatype Action =
    | Local(e: Event)                                // any step of the server but receiving DATA
    | Receive(granted: bool, lengthOk: bool)         // the server handles the first frame on the wire
    | Send(d: Data)                                  // the peer sends DATA if both its windows allow it
    | Grant(n: nat)                                  // the peer receives announced connection credit
    | GrantStream(id: nat, n: nat)

  ghost predicate MaySend(p: Peer, d: Data) {
    && d.size <= d.flow <= DEFAULT_FRAME
    && p.sent + d.flow <= INITIAL_WINDOW + p.got
    && At(p.streamSent, d.id) + d.flow <= INITIAL_WINDOW + At(p.streamGot, d.id)
  }

  ghost function Act(cfg: Config, w: World, a: Action): World {
    match a
    case Local(e) => if e.DataEvent? then w else w.(conn := Step(cfg, w.conn, e))
    case Receive(granted, lengthOk) =>
      if |w.wire| == 0 then w
      else w.(conn := Step(cfg, w.conn, DataEvent(w.wire[0], granted, lengthOk)), wire := w.wire[1..])
    case Send(d) =>
      if !MaySend(w.peer, d) then w
      else w.(wire := w.wire + [d],
              peer := w.peer.(sent := w.peer.sent + d.flow,
                              streamSent := w.peer.streamSent[d.id := At(w.peer.streamSent, d.id) + d.flow]))
    case Grant(n) =>
      if w.peer.got + n > w.conn.flow.updates then w else w.(peer := w.peer.(got := w.peer.got + n))
    case GrantStream(id, n) =>
      if At(w.peer.streamGot, id) + n > FlowOn(w.conn, id).updates then w
      else w.(peer := w.peer.(streamGot := w.peer.streamGot[id := At(w.peer.streamGot, id) + n]))
  }

  ghost function InFlight(wire: seq<Data>): nat {
    if |wire| == 0 then 0 else wire[0].flow + InFlight(wire[1..])
  }

  ghost function InFlightOn(wire: seq<Data>, id: nat): nat {
    if |wire| == 0 then 0 else (if wire[0].id == id then wire[0].flow else 0) + InFlightOn(wire[1..], id)
  }

  lemma {:induction false} InFlightAppend(wire: seq<Data>, d: Data, id: nat)
    ensures InFlight(wire + [d]) == InFlight(wire) + d.flow
    ensures InFlightOn(wire + [d], id) == InFlightOn(wire, id) + if d.id == id then d.flow else 0
    decreases |wire|
  {
    if |wire| == 0 {
      assert (wire + [d])[1..] == [];
    } else {
      assert (wire + [d])[1..] == wire[1..] + [d];
      InFlightAppend(wire[1..], d, id);
    }
  }

  /** What was sent is charged, lost or still on the way; what was received was announced. */
  ghost predicate Balanced(f: Flow, sent: nat, got: nat, inFlight: nat) {
    sent <= INITIAL_WINDOW + got && got <= f.updates && f.charged + inFlight <= sent
  }

  ghost predicate StreamBalanced(w: World, id: nat) {
    Balanced(FlowOn(w.conn, id), At(w.peer.streamSent, id), At(w.peer.streamGot, id), InFlightOn(w.wire, id))
  }

  ghost predicate WorldInv(cfg: Config, tunnels: bool, w: World) {
    && H2Lifecycle.Inv(cfg, w.conn) && Inv(cfg, tunnels, w.conn)
    && Balanced(w.conn.flow, w.peer.sent, w.peer.got, InFlight(w.wire))
    && (forall id :: StreamBalanced(w, id))
    && (forall i :: 0 <= i < |w.wire| ==> w.wire[i].size <= w.wire[i].flow)
  }

  lemma OthersKeepFlow(cfg: Config, c: Conn, e: Event, id: nat)
    requires H2Lifecycle.Inv(cfg, c) && id != Target(e)
    ensures FlowOn(Step(cfg, c, e), id) == FlowOn(c, id)
  {
    H2Lifecycle.StepMoves(cfg, c, e);
    assert H2Lifecycle.SameStream(c, Step(cfg, c, e), id);
  }

  lemma ConnStepKeepsInv(cfg: Config, tunnels: bool, c: Conn, e: Event)
    requires H2Lifecycle.Inv(cfg, c) && Inv(cfg, tunnels, c) && WellFormed(tunnels, e)
    ensures H2Lifecycle.Inv(cfg, Step(cfg, c, e)) && Inv(cfg, tunnels, Step(cfg, c, e))
  {
    H2Lifecycle.StepMoves(cfg, c, e);
    H2Lifecycle.MovesKeepInv(cfg, c, Step(cfg, c, e), Target(e));
    StepInv(cfg, tunnels, c, e);
  }

  lemma LocalKeepsInv(cfg: Config, tunnels: bool, w: World, e: Event)
    requires WorldInv(cfg, tunnels, w) && WellFormed(tunnels, e) && !e.DataEvent?
    ensures WorldInv(cfg, tunnels, Act(cfg, w, Local(e)))
  {
    ConnStepKeepsInv(cfg, tunnels, w.conn, e);
    StepAdvances(cfg, w.conn, e);
    var w' := Act(cfg, w, Local(e));
    forall id ensures StreamBalanced(w', id) {
      assert StreamBalanced(w, id);
      if id != Target(e) { OthersKeepFlow(cfg, w.conn, e, id); }
    }
  }

  lemma ReceiveKeepsInv(cfg: Config, tunnels: bool, w: World, granted: bool, lengthOk: bool)
    requires WorldInv(cfg, tunnels, w) && |w.wire| > 0
    ensures WorldInv(cfg, tunnels, Act(cfg, w, Receive(granted, lengthOk)))
  {
    var e := DataEvent(w.wire[0], granted, lengthOk);
    ConnStepKeepsInv(cfg, tunnels, w.conn, e);
    StepAdvances(cfg, w.conn, e);
    var w' := Act(cfg, w, Receive(granted, lengthOk));
    forall id ensures StreamBalanced(w', id) {
      assert StreamBalanced(w, id);
      if id != w.wire[0].id { OthersKeepFlow(cfg, w.conn, e, id); }
    }
  }

  lemma SendKeepsInv(cfg: Config, tunnels: bool, w: World, d: Data)
    requires WorldInv(cfg, tunnels, w) && MaySend(w.peer, d)
    ensures WorldInv(cfg, tunnels, Act(cfg, w, Send(d)))
  {
    InFlightAppend(w.wire, d, d.id);
    var w' := Act(cfg, w, Send(d));
    forall id ensures StreamBalanced(w', id) {
      assert StreamBalanced(w, id);
      InFlightAppend(w.wire, d, id);
    }
  }

  lemma GrantKeepsInv(cfg: Config, tunnels: bool, w: World, a: Action)
    requires WorldInv(cfg, tunnels, w) && (a.Grant? || a.GrantStream?)
    ensures WorldInv(cfg, tunnels, Act(cfg, w, a))
  {
    var w' := Act(cfg, w, a);
    forall id ensures StreamBalanced(w', id) { assert StreamBalanced(w, id); }
  }

  /** A frame on the wire always fits what is left of the window it was sent for. */
  lemma FrameFits(f: Flow, sent: nat, got: nat, inFlight: nat)
    requires Sound(f) && Balanced(f, sent, got, inFlight)
    ensures inFlight <= f.window
  {
  }

  lemma {:induction false} FirstInFlight(wire: seq<Data>)
    requires |wire| > 0
    ensures wire[0].flow <= InFlight(wire) && wire[0].flow <= InFlightOn(wire, wire[0].id)
  {
  }

  /** A frame that fits its windows is never answered with a flow-control error. */
  lemma FittingFrameDoesNotTrip(cfg: Config, c: Conn, d: Data, granted: bool, lengthOk: bool)
    requires !c.failure.StreamFlowError? && FlowOn(c, d.id).window >= d.flow
    ensures !HandleData(cfg, c, d, granted, lengthOk).failure.StreamFlowError?
    ensures !c.failure.ConnFlowError? && c.flow.window >= d.flow ==> !HandleData(cfg, c, d, granted, lengthOk).failure.ConnFlowError?
  {
  }

  ghost predicate NotTripped(cfg: Config, tunnels: bool, c: Conn) {
    !c.failure.StreamFlowError? && ((cfg.streaming && tunnels) || !c.failure.ConnFlowError?)
  }

  lemma ReceiveDoesNotTrip(cfg: Config, tunnels: bool, w: World, granted: bool, lengthOk: bool)
    requires WorldInv(cfg, tunnels, w) && |w.wire| > 0 && NotTripped(cfg, tunnels, w.conn)
    ensures NotTripped(cfg, tunnels, Act(cfg, w, Receive(granted, lengthOk)).conn)
  {
    var d := w.wire[0];
    FirstInFlight(w.wire);
    assert StreamBalanced(w, d.id);
    FrameFits(FlowOn(w.conn, d.id), At(w.peer.streamSent, d.id), At(w.peer.streamGot, d.id), InFlightOn(w.wire, d.id));
    if !(cfg.streaming && tunnels) { FrameFits(w.conn.flow, w.peer.sent, w.peer.got, InFlight(w.wire)); }
    FittingFrameDoesNotTrip(cfg, w.conn, d, granted, lengthOk);
  }

  lemma LocalDoesNotTrip(cfg: Config, tunnels: bool, c: Conn, e: Event)
    requires NotTripped(cfg, tunnels, c) && !e.DataEvent?
    ensures NotTripped(cfg, tunnels, Step(cfg, c, e))
  {
  }

  ghost predicate Allowed(tunnels: bool, actions: seq<Action>) {
    forall i :: 0 <= i < |actions| ==> actions[i].Local? ==> WellFormed(tunnels, actions[i].e)
  }

  ghost function Play(cfg: Config, w: World, actions: seq<Action>): World {
    Runs.Run((w, a) => Act(cfg, w, a), w, actions)
  }

  lemma ActKeepsInv(cfg: Config, tunnels: bool, w: World, a: Action)
    requires WorldInv(cfg, tunnels, w) && NotTripped(cfg, tunnels, w.conn) && (a.Local? ==> WellFormed(tunnels, a.e))
    ensures WorldInv(cfg, tunnels, Act(cfg, w, a)) && NotTripped(cfg, tunnels, Act(cfg, w, a).conn)
  {
    match a {
      case Local(e) =>
        if !e.DataEvent? { LocalKeepsInv(cfg, tunnels, w, e); LocalDoesNotTrip(cfg, tunnels, w.conn, e); }
      case Receive(granted, lengthOk) =>
        if |w.wire| > 0 {
          ReceiveKeepsInv(cfg, tunnels, w, granted, lengthOk);
          ReceiveDoesNotTrip(cfg, tunnels, w, granted, lengthOk);
        }
      case Send(d) => if MaySend(w.peer, d) { SendKeepsInv(cfg, tunnels, w, d); }
      case _ => GrantKeepsInv(cfg, tunnels, w, a);
    }
  }

  lemma {:induction false} PlayKeepsInv(cfg: Config, tunnels: bool, w: World, actions: seq<Action>)
    requires WorldInv(cfg, tunnels, w) && NotTripped(cfg, tunnels, w.conn) && Allowed(tunnels, actions)
    ensures WorldInv(cfg, tunnels, Play(cfg, w, actions)) && NotTripped(cfg, tunnels, Play(cfg, w, actions).conn)
    decreases |actions|
  {
    if |actions| > 0 {
      ActKeepsInv(cfg, tunnels, w, actions[0]);
      PlayKeepsInv(cfg, tunnels, Act(cfg, w, actions[0]), actions[1..]);
    }
  }

  lemma StartIsInv(cfg: Config, tunnels: bool)
    ensures WorldInv(cfg, tunnels, Start0)
  {
    assert H2Lifecycle.Slots(Fresh) == {};
    assert Unread(Fresh) == map[];
  }

  /** In every run with a peer that keeps its own windows: the stream check never fires; without a
      mix of streaming bodies and tunnels the connection check never fires either, and the
      connection window is exactly what its discipline says. */
  lemma ReceiveFlowControl(cfg: Config, tunnels: bool, actions: seq<Action>)
    requires Allowed(tunnels, actions)
    ensures var c := Play(cfg, Start0, actions).conn;
      && !c.failure.StreamFlowError?
      && (!(cfg.streaming && tunnels) ==> !c.failure.ConnFlowError?)
      && (!cfg.streaming ==> c.flow.window == INITIAL_WINDOW - c.flow.charged + c.flow.updates)
      && (!cfg.streaming ==> c.flow.window + c.flow.accum <= INITIAL_WINDOW)
      && (cfg.streaming && !tunnels ==> c.flow.window == INITIAL_WINDOW - c.flow.charged + c.flow.consumed <= INITIAL_WINDOW)
  {
    StartIsInv(cfg, tunnels);
    PlayKeepsInv(cfg, tunnels, Start0, actions);
    TotalNotNegative(Unread(Play(cfg, Start0, actions).conn));
  }
}
