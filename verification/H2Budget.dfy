/** The reservation of one HTTP/2 stream: what every step of a connection with buffered bodies does to
    it (handleData, resetStream and dispatch in http2.go). */
module H2Budget {
  import opened H2Core
  import H2Lifecycle

  // ---------------------------------------------------------------- one stream's reservation

  /** What a stream still holds of the budget. */
  ghost function Held(s: Stream): int {
    s.body.reserved + s.body.inHand
  }

  /** With buffered bodies: what was reserved is held by the stream or its running handler until it
      is given back, in one piece, exactly once. */
  ghost predicate BodyOk(s: Stream, registered: bool, closing: bool) {
    && !(registered && closing)
    && s.body.reserved >= 0 && s.body.inHand >= 0
    && s.body.acquired == s.body.returned + Held(s)
    && (s.life.connect ==> s.body.acquired == 0)
    && (!s.life.handler.Undispatched? ==> s.life.ended || s.life.connect)
    && (!s.life.handler.Running? ==> s.body.inHand == 0)
    && (s.life.handler.Running? || s.life.handler == Done(true) ==> s.body.reserved == 0)
    && (!registered && !closing && !HandlerStarted(s.life.handler) ==> s.body.reserved == 0)
    && (s.body.releases == 0 ==> s.body.returned == 0)
    && (s.body.releases > 0 ==> s.body.releases == 1 && Held(s) == 0)
    && (registered && s.life.handler.Undispatched? ==> s.body.releases == 0)
  }

  ghost predicate OkAt(c: Conn, id: nat) {
    id in c.streams ==> BodyOk(c.streams[id], id in c.registered, id in c.closing)
  }

  ghost predicate Inv(cfg: Config, c: Conn) {
    H2Lifecycle.Inv(cfg, c) && c.closing <= c.streams.Keys && forall id :: OkAt(c, id)
  }

  ghost predicate SameFor(c: Conn, c': Conn, k: nat) {
    && (k in c'.streams <==> k in c.streams) && (k in c.streams ==> c'.streams[k] == c.streams[k])
    && (k in c'.registered <==> k in c.registered) && (k in c'.closing <==> k in c.closing)
  }

  ghost function HeldAt(c: Conn, id: nat): int {
    if id in c.streams then Held(c.streams[id]) else 0
  }

  /** A step concerns one stream, which stays in order and gains at most `gain` bytes of budget. */
  ghost predicate Follows(c: Conn, c': Conn, id: nat, gain: nat) {
    && OkAt(c', id) && c'.closing <= c.closing && HeldAt(c', id) <= HeldAt(c, id) + gain
    && forall k :: k != id ==> SameFor(c, c', k)
  }

  /** What a step may take from the budget. */
  ghost function Gain(e: Event): nat {
    if e.DataEvent? && e.granted then e.data.size else 0
  }

  lemma StaysOk(c: Conn, c1: Conn, id: nat, gain: nat)
    requires OkAt(c, id) && c1.streams == c.streams && c1.registered == c.registered && c1.closing == c.closing
    ensures Follows(c, c1, id, gain)
  {
  }

  lemma PutOk(c: Conn, c1: Conn, id: nat, s: Stream, gain: nat)
    requires c1.streams == c.streams && c1.registered - {id} == c.registered - {id} && c1.closing - {id} == c.closing - {id}
    requires c1.closing <= c.closing && BodyOk(s, id in c1.registered, id in c1.closing) && Held(s) <= HeldAt(c, id) + gain
    ensures Follows(c, Put(c1, id, s), id, gain)
  {
    forall k | k != id ensures SameFor(c, Put(c1, id, s), k) {
      assert k in c1.registered <==> k in c1.registered - {id};
      assert k in c1.closing <==> k in c1.closing - {id};
    }
  }

  lemma DropOk(c: Conn, c1: Conn, id: nat, s: Stream, gain: nat)
    requires c1.streams == c.streams && c1.registered == c.registered && c1.closing == c.closing && id !in c.closing
    requires BodyOk(s, id in c.registered, false) && Held(s) <= HeldAt(c, id) + gain
    ensures Follows(c, Drop(c1, id, s), id, gain)
  {
    PutOk(c, c1.(registered := c1.registered - {id}), id, Abandon(s), gain);
  }

  lemma ResetOk(c: Conn, c1: Conn, id: nat, gain: nat)
    requires OkAt(c, id) && c1.streams == c.streams && c1.registered == c.registered && c1.closing == c.closing
    ensures Follows(c, Reset(c1, id), id, gain)
  {
    if id in c.registered && id in c.streams {
      DropOk(c, c1, id, c.streams[id], gain);
    } else {
      StaysOk(c, c1, id, gain);
    }
  }

  lemma OpenOk(cfg: Config, c: Conn, id: nat, end: bool, connect: bool, admission: Admission)
    requires !cfg.streaming && id !in c.closing && id !in c.registered && id !in c.streams
    ensures Follows(c, OpenStream(cfg, c.(lastStream := id), id, end, connect, admission), id, 0)
  {
    var c1, s := c.(lastStream := id), NewStream(connect, end);
    if admission == Cancel {
      DropOk(c, c1, id, s, 0);
    } else {
      PutOk(c, c1.(registered := c1.registered + {id}), id, s.(life := Dispatched(s.life, end || connect || cfg.streaming)), 0);
    }
  }

  lemma TrailersOk(cfg: Config, c: Conn, id: nat, end: bool, admission: Admission)
    requires !cfg.streaming && OkAt(c, id) && id in c.registered && id in c.streams
    ensures Follows(c, Trailers(cfg, c, id, end, admission), id, 0)
  {
    var s := c.streams[id];
    if s.life.phase == Closed {
      StaysOk(c, c.(failure := ProtocolError), id, 0);
    } else if Trailers(cfg, c, id, end, admission) == Reset(c, id) {
      ResetOk(c, c, id, 0);
    } else {
      PutOk(c, c, id, s.(life := Dispatched(RemoteEnded(cfg, s.life, true), true)), 0);
    }
  }

  lemma HeadersOk(cfg: Config, c: Conn, id: nat, end: bool, connect: bool, admission: Admission)
    requires !cfg.streaming && OkAt(c, id)
    requires id > c.lastStream ==> id !in c.streams && id !in c.registered && id !in c.closing
    ensures Follows(c, Headers(cfg, c, id, end, connect, admission), id, 0)
  {
    var c' := Headers(cfg, c, id, end, connect, admission);
    if id in c.registered && id in c.streams {
      assert c' == Trailers(cfg, c, id, end, admission);
      TrailersOk(cfg, c, id, end, admission);
    } else if id % 2 == 0 || id <= c.lastStream {
      StaysOk(c, c', id, 0);
    } else if c.draining || |c.registered| >= cfg.maxStreams || admission == Refuse {
      StaysOk(c, c', id, 0);
    } else {
      assert c' == OpenStream(cfg, c.(lastStream := id), id, end, connect, admission);
      OpenOk(cfg, c, id, end, connect, admission);
    }
  }

  lemma StoreOk(cfg: Config, c: Conn, d: Data, lengthOk: bool, gain: nat)
    requires !cfg.streaming && OkAt(c, d.id) && d.id in c.registered && d.id in c.streams
    requires H2Lifecycle.PhaseOk(c.streams[d.id].life) && Receivable(c.streams[d.id].life.phase)
    requires c.streams[d.id].life.connect || d.size <= gain
    ensures Follows(c, StoreData(cfg, c, d, lengthOk), d.id, gain)
  {
    var s := c.streams[d.id];
    var c1 := c.(flow := if CreditedOnArrival(cfg, s.life) then CreditLate(Charge(c.flow, d.flow), d.flow) else Charge(c.flow, d.flow));
    var s1 := Stream(RemoteEnded(cfg, s.life, d.end), StoreFlow(cfg, s.life, s.flow, d), StoreBody(s.life, s.body, d));
    if d.end && !s.life.connect && !lengthOk {
      DropOk(c, c1, d.id, s1, gain);
    } else {
      PutOk(c, c1, d.id, s1.(life := Dispatched(s1.life, d.end && !s.life.connect)), gain);
    }
  }

  /** A frame beyond the stream's window is charged and reserved before the connection fails. */
  lemma OverflowOk(cfg: Config, c: Conn, d: Data, gain: nat)
    requires !cfg.streaming && OkAt(c, d.id) && d.id in c.registered && d.id in c.streams
    requires H2Lifecycle.PhaseOk(c.streams[d.id].life) && Receivable(c.streams[d.id].life.phase)
    requires c.streams[d.id].life.connect || d.size <= gain
    ensures var s := c.streams[d.id];
      Follows(c, Put(c.(flow := Charge(c.flow, d.flow), failure := StreamFlowError), d.id,
                     s.(flow := Charge(s.flow, d.flow), body := StoreBody(s.life, s.body, d))), d.id, gain)
  {
    var s := c.streams[d.id];
    PutOk(c, c.(flow := Charge(c.flow, d.flow), failure := StreamFlowError), d.id,
          s.(flow := Charge(s.flow, d.flow), body := StoreBody(s.life, s.body, d)), gain);
  }

  lemma DataOk(cfg: Config, c: Conn, d: Data, granted: bool, lengthOk: bool, gain: nat)
    requires !cfg.streaming && OkAt(c, d.id) && H2Lifecycle.PhasesOk(c) && (granted ==> d.size <= gain)
    ensures Follows(c, HandleData(cfg, c, d, granted, lengthOk), d.id, gain)
  {
    var c1 := c.(flow := Charge(c.flow, d.flow));
    if d.id == 0 || d.id !in c.registered || d.id !in c.streams {
      StaysOk(c, HandleData(cfg, c, d, granted, lengthOk), d.id, gain);
    } else {
      var s := c.streams[d.id];
      if !Receivable(s.life.phase) || (!s.life.connect && s.body.received + d.size > cfg.maxBody) {
        ResetOk(c, c, d.id, gain);
      } else if d.flow > 0 && c.flow.window < d.flow {
        StaysOk(c, c1.(failure := ConnFlowError), d.id, gain);
      } else if !s.life.connect && !granted && d.size > 0 {
        ResetOk(c, c1, d.id, gain);
      } else if s.flow.window < d.flow {
        OverflowOk(cfg, c, d, gain);
      } else {
        StoreOk(cfg, c, d, lengthOk, gain);
      }
    }
  }

  lemma AcquireOk(cfg: Config, c: Conn, id: nat)
    requires !cfg.streaming && OkAt(c, id)
    ensures Follows(c, Acquire(cfg, c, id), id, 0)
  {
    if id !in c.streams || !c.streams[id].life.handler.Queued? {
      StaysOk(c, c, id, 0);
    } else {
      var s := c.streams[id];
      if c.semaphore < cfg.maxStreams {
        PutOk(c, c.(semaphore := c.semaphore + 1), id, SetHandler(s, Claimed), 0);
      } else if id in c.registered {
        DropOk(c, c, id, SetHandler(s, Done(false)), 0);
      } else {
        PutOk(c, c, id, SetHandler(s, Done(false)), 0);
      }
    }
  }

  lemma StartOk(cfg: Config, c: Conn, id: nat)
    requires OkAt(c, id)
    ensures Follows(c, Start(c, id), id, 0)
  {
    if id !in c.streams || !c.streams[id].life.handler.Claimed? {
      StaysOk(c, c, id, 0);
    } else if c.streams[id].life.reset {
      PutOk(c, c.(semaphore := c.semaphore - 1), id, SetHandler(c.streams[id], Done(false)), 0);
    } else {
      PutOk(c, c, id, SetHandler(c.streams[id], Started), 0);
    }
  }

  lemma BeginOk(c: Conn, id: nat)
    requires OkAt(c, id)
    ensures Follows(c, Begin(c, id), id, 0)
  {
    if id !in c.streams || !c.streams[id].life.handler.Started? {
      StaysOk(c, c, id, 0);
    } else {
      PutOk(c, c, id, Begin(c, id).streams[id], 0);
    }
  }

  lemma ExitOk(c: Conn, id: nat)
    requires OkAt(c, id)
    ensures Follows(c, Exit(c, id), id, 0)
  {
    if id !in c.streams || !c.streams[id].life.handler.Running? {
      StaysOk(c, c, id, 0);
    } else {
      PutOk(c, c.(semaphore := c.semaphore - 1), id, Exit(c, id).streams[id], 0);
    }
  }

  lemma CloseOneOk(c: Conn, id: nat)
    requires OkAt(c, id)
    ensures Follows(c, CloseOne(c, id), id, 0)
  {
    if id in c.closing && id in c.streams {
      PutOk(c, c.(closing := c.closing - {id}), id, Abandon(c.streams[id]), 0);
    } else {
      StaysOk(c, c, id, 0);
    }
  }

  lemma FinishOk(c: Conn, id: nat)
    requires OkAt(c, id)
    ensures Follows(c, Finish(c, id), id, 0)
  {
    if id in c.streams && HandlerStarted(c.streams[id].life.handler) {
      var c1 := c.(registered := c.registered - {id});
      assert c1 == Put(c1, id, c.streams[id]);
      PutOk(c, c1, id, c.streams[id], 0);
    } else {
      StaysOk(c, c, id, 0);
    }
  }

  lemma TunnelCreditOk(c: Conn, id: nat, n: nat)
    requires OkAt(c, id)
    ensures Follows(c, TunnelCredit(c, id, n), id, 0)
  {
    if !ReadsTunnel(c, id, n) {
      StaysOk(c, c, id, 0);
    } else {
      PutOk(c, c.(flow := CreditLate(c.flow, n)), id, TunnelCredit(c, id, n).streams[id], 0);
    }
  }

  lemma EndLocalOk(c: Conn, id: nat)
    requires OkAt(c, id)
    ensures Follows(c, EndLocal(c, id), id, 0)
  {
    if id in c.streams {
      PutOk(c, c, id, EndLocal(c, id).streams[id], 0);
    } else {
      StaysOk(c, c, id, 0);
    }
  }

  lemma FrameFollows(cfg: Config, c: Conn, e: Event)
    requires !cfg.streaming && Inv(cfg, c) && OfFrame(e)
    ensures Follows(c, Step(cfg, c, e), Target(e), Gain(e))
  {
    assert OkAt(c, Target(e));
    if !Reading(c) {
      StaysOk(c, c, Target(e), Gain(e));
    } else if e.HeadersEvent? {
      HeadersOk(cfg, c, e.id, e.end, e.connect, e.admission);
    } else {
      DataOk(cfg, c, e.data, e.granted, e.lengthOk, Gain(e));
    }
  }

  lemma HandlerFollows(cfg: Config, c: Conn, e: Event)
    requires !cfg.streaming && Inv(cfg, c) && OfHandler(e)
    ensures Follows(c, Step(cfg, c, e), Target(e), 0)
  {
    assert OkAt(c, e.id);
    match e {
      case AcquireEvent(id) => AcquireOk(cfg, c, id);
      case StartEvent(id) => StartOk(cfg, c, id);
      case BeginEvent(id) => BeginOk(c, id);
      case ExitEvent(id) => ExitOk(c, id);
    }
  }

  lemma RegistryFollows(cfg: Config, c: Conn, e: Event)
    requires !cfg.streaming && !OfFrame(e) && !OfHandler(e) && !e.CloseAllEvent? && OkAt(c, Target(e))
    ensures Follows(c, Step(cfg, c, e), Target(e), 0)
  {
    match e {
      case ResetEvent(id) => ResetOk(c, c, id, 0);
      case FinishEvent(id) => FinishOk(c, id);
      case EndLocalEvent(id) => EndLocalOk(c, id);
      case TunnelCreditEvent(id, n) => TunnelCreditOk(c, id, n);
      case ConsumeEvent(id, n) => StaysOk(c, c, id, 0);
      case FlushEvent(id) => StaysOk(c, c, id, 0);
      case DrainEvent => StaysOk(c, c.(draining := true), 0, 0);
      case CloseOneEvent(id) => CloseOneOk(c, id);
    }
  }

  lemma StepFollows(cfg: Config, c: Conn, e: Event)
    requires !cfg.streaming && Inv(cfg, c) && !e.CloseAllEvent?
    ensures Follows(c, Step(cfg, c, e), Target(e), Gain(e))
  {
    if OfFrame(e) {
      FrameFollows(cfg, c, e);
    } else if OfHandler(e) {
      HandlerFollows(cfg, c, e);
    } else {
      assert OkAt(c, Target(e));
      RegistryFollows(cfg, c, e);
    }
  }

  lemma FollowsKeepsInv(cfg: Config, c: Conn, c': Conn, id: nat, gain: nat)
    requires Inv(cfg, c) && H2Lifecycle.Moves(cfg, c, c', id) && Follows(c, c', id, gain)
    ensures Inv(cfg, c')
  {
    H2Lifecycle.MovesKeepInv(cfg, c, c', id);
    forall k ensures OkAt(c', k) { assert k != id ==> OkAt(c, k) && SameFor(c, c', k); }
    forall k | k in c'.closing ensures k in c'.streams { assert k != id ==> SameFor(c, c', k); }
  }

  lemma CloseAllKeepsInv(cfg: Config, c: Conn)
    requires Inv(cfg, c)
    ensures Inv(cfg, CloseAll(c))
  {
    H2Lifecycle.StaysMoves(cfg, c, CloseAll(c), 0);
    H2Lifecycle.MovesKeepInv(cfg, c, CloseAll(c), 0);
    forall id ensures OkAt(CloseAll(c), id) { assert OkAt(c, id); }
  }

  lemma StepKeepsInv(cfg: Config, c: Conn, e: Event)
    requires !cfg.streaming && Inv(cfg, c)
    ensures Inv(cfg, Step(cfg, c, e))
  {
    if e.CloseAllEvent? {
      CloseAllKeepsInv(cfg, c);
    } else {
      H2Lifecycle.StepMoves(cfg, c, e);
      StepFollows(cfg, c, e);
      FollowsKeepsInv(cfg, c, Step(cfg, c, e), Target(e), Gain(e));
    }
  }
}
