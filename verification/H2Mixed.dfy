/** Streaming bodies credit the connection window when bytes are read, tunnels when the WINDOW_UPDATE
    is sent, and both share one accumulator. On a connection that has both, a peer that keeps its
    windows can be refused. */
module H2Mixed {
  import opened H2Core
  import opened Windows
  import opened H2Receive
  import H2Lifecycle
  import Runs

  ghost predicate Reachable(cfg: Config, w: World) {
    exists actions :: Allowed(true, actions) && Play(cfg, Start0, actions) == w
  }

  lemma ReachNext(cfg: Config, w: World, a: Action)
    requires Reachable(cfg, w) && (a.Local? ==> WellFormed(true, a.e))
    ensures Reachable(cfg, Act(cfg, w, a))
  {
    var actions :| Allowed(true, actions) && Play(cfg, Start0, actions) == w;
    Runs.RunThen((w, a) => Act(cfg, w, a), Start0, actions, a);
    assert Allowed(true, actions + [a]);
  }

  /** A dispatched, open, registered stream with its handler, window and unread bytes. */
  ghost predicate Ready(c: Conn, id: nat, connect: bool, h: Handler, window: int, queued: nat) {
    && id in c.registered && id in c.streams && !h.Undispatched?
    && c.streams[id].life == Life(Open, connect, false, false, h, false, false, false)
    && c.streams[id].flow.window == window && c.streams[id].flow.queued == queued && c.streams[id].body.received == 0
  }

  lemma OpenReady(cfg: Config, w: World, id: nat, connect: bool)
    requires cfg.streaming && Reachable(cfg, w) && Reading(w.conn) && !w.conn.draining
    requires id % 2 == 1 && id > w.conn.lastStream && id !in w.conn.registered && |w.conn.registered| < cfg.maxStreams
    ensures var w' := Act(cfg, w, Local(HeadersEvent(id, false, connect, Accept)));
      && Reachable(cfg, w') && Ready(w'.conn, id, connect, Queued, INITIAL_WINDOW, 0)
      && w'.conn == w.conn.(streams := w'.conn.streams, registered := w.conn.registered + {id}, lastStream := id)
      && w'.peer == w.peer && w'.wire == w.wire
  {
    ReachNext(cfg, w, Local(HeadersEvent(id, false, connect, Accept)));
  }

  /** The handler takes a slot, is started, and begins. */
  lemma HandlerBegins(cfg: Config, w: World, id: nat, connect: bool, window: int, queued: nat) returns (w': World)
    requires cfg.maxStreams >= 1 && Reachable(cfg, w) && Ready(w.conn, id, connect, Queued, window, queued) && w.conn.semaphore == 0
    ensures Reachable(cfg, w') && Ready(w'.conn, id, connect, Running, window, queued)
    ensures w'.conn == w.conn.(streams := w'.conn.streams, semaphore := 1) && w'.peer == w.peer && w'.wire == w.wire
  {
    ReachNext(cfg, w, Local(AcquireEvent(id)));
    var w1 := Act(cfg, w, Local(AcquireEvent(id)));
    assert Ready(w1.conn, id, connect, Claimed, window, queued);
    ReachNext(cfg, w1, Local(StartEvent(id)));
    var w2 := Act(cfg, w1, Local(StartEvent(id)));
    assert Ready(w2.conn, id, connect, Started, window, queued);
    ReachNext(cfg, w2, Local(BeginEvent(id)));
    w' := Act(cfg, w2, Local(BeginEvent(id)));
  }

  /** The peer resets the stream, and its handler ends. */
  lemma HandlerEnds(cfg: Config, w: World, id: nat) returns (w': World)
    requires Reachable(cfg, w) && w.conn.registered == {id} && id in w.conn.streams && w.conn.streams[id].life.handler.Running? && w.conn.semaphore == 1
    ensures Reachable(cfg, w') && w'.conn == w.conn.(streams := w'.conn.streams, registered := {}, semaphore := 0)
    ensures w'.peer == w.peer && w'.wire == w.wire
  {
    ReachNext(cfg, w, Local(ResetEvent(id)));
    var w1 := Act(cfg, w, Local(ResetEvent(id)));
    assert w.conn.registered - {id} == {} && w1.conn.streams[id].life.handler.Running?;
    ReachNext(cfg, w1, Local(ExitEvent(id)));
    w' := Act(cfg, w1, Local(ExitEvent(id)));
  }

  /** The peer sends one frame to a reader's stream and the server stores it. */
  lemma Delivered(cfg: Config, w: World, d: Data, connect: bool, h: Handler, window: int, queued: nat)
    requires cfg.streaming && Reachable(cfg, w) && w.wire == [] && Reading(w.conn)
    requires Ready(w.conn, d.id, connect, h, window, queued) && d.id != 0 && d.flow <= window && d.flow <= w.conn.flow.window
    requires MaySend(w.peer, d) && d.size == d.flow && (connect || d.size <= cfg.maxBody)
    ensures var w' := Act(cfg, Act(cfg, w, Send(d)), Receive(true, true));
      && Reachable(cfg, w') && w'.wire == []
      && w'.conn == w.conn.(streams := w'.conn.streams, flow := Charge(w.conn.flow, d.flow))
      && d.id in w'.conn.streams && w'.conn.streams[d.id].flow == Charge(w.conn.streams[d.id].flow, d.flow).(queued := queued + d.flow)
      && w'.conn.streams[d.id].life.handler == h && w'.conn.streams[d.id].life.connect == connect
      && (if d.end then !connect ==> w'.conn.streams[d.id].life.eof else connect ==> Ready(w'.conn, d.id, connect, h, window - d.flow, queued + d.flow))
      && w'.peer == w.peer.(sent := w.peer.sent + d.flow, streamSent := w.peer.streamSent[d.id := At(w.peer.streamSent, d.id) + d.flow])
  {
    var w1 := Act(cfg, w, Send(d));
    ReachNext(cfg, w, Send(d));
    assert w1.wire[0] == d && w1.wire[1..] == [];
    ReachNext(cfg, w1, Receive(true, true));
  }

  /** Nothing is registered or on its way, and the window is one byte short of what it was. */
  ghost predicate Quiet(w: World, last: nat) {
    && w.wire == [] && Reading(w.conn) && !w.conn.draining && w.conn.registered == {} && w.conn.lastStream == last && w.conn.semaphore == 0
    && w.conn.flow.window == INITIAL_WINDOW - 1 && w.peer.sent == 1
  }

  /** A tunnel is opened and its handler runs. */
  lemma TunnelRuns(cfg: Config) returns (w: World)
    requires cfg.streaming && cfg.maxStreams >= 1
    ensures Reachable(cfg, w) && w.wire == [] && w.peer == Start0.peer && Ready(w.conn, 1, true, Running, INITIAL_WINDOW, 0)
    ensures w.conn == Fresh.(streams := w.conn.streams, registered := {1}, lastStream := 1, semaphore := 1)
  {
    assert Allowed(true, []) && Play(cfg, Start0, []) == Start0;
    OpenReady(cfg, Start0, 1, true);
    assert {} + {1} == {1};
    w := HandlerBegins(cfg, Act(cfg, Start0, Local(HeadersEvent(1, false, true, Accept))), 1, true, INITIAL_WINDOW, 0);
  }

  /** One byte arrives in the tunnel. */
  lemma TunnelByteArrives(cfg: Config) returns (w: World)
    requires cfg.streaming && cfg.maxStreams >= 1
    ensures Reachable(cfg, w) && w.wire == [] && w.peer == Peer(1, 0, map[1 := 1], map[])
    ensures Ready(w.conn, 1, true, Running, INITIAL_WINDOW - 1, 1)
    ensures w.conn == Fresh.(streams := w.conn.streams, registered := {1}, lastStream := 1, semaphore := 1, flow := Charge(Fresh.flow, 1))
  {
    var w0 := TunnelRuns(cfg);
    var d := Data(1, 1, 1, false);
    Delivered(cfg, w0, d, true, Running, INITIAL_WINDOW, 0);
    w := Act(cfg, Act(cfg, w0, Send(d)), Receive(true, true));
  }

  /** It is read, and the tunnel goes: its credit waits in the shared accumulator. */
  lemma TunnelByteRead(cfg: Config) returns (w: World)
    requires cfg.streaming && cfg.maxStreams >= 1
    ensures Reachable(cfg, w) && Quiet(w, 1) && w.conn.flow.accum == 1 && w.conn.flow.updates == 0
    ensures w.peer == Peer(1, 0, map[1 := 1], map[])
  {
    var w1 := TunnelByteArrives(cfg);
    ReachNext(cfg, w1, Local(TunnelCreditEvent(1, 1)));
    var w2 := Act(cfg, w1, Local(TunnelCreditEvent(1, 1)));
    assert w2.conn == w1.conn.(streams := w2.conn.streams, flow := CreditLate(w1.conn.flow, 1)) && w2.conn.streams[1].life.handler.Running?;
    w := HandlerEnds(cfg, w2, 1);
  }

  /** A streaming request is opened, its handler runs, and an empty DATA frame ends its body. */
  lemma EmptyBodyEnds(cfg: Config, w: World) returns (w': World)
    requires cfg.streaming && cfg.maxStreams >= 1 && Reachable(cfg, w) && Quiet(w, 1) && w.peer == Peer(1, 0, map[1 := 1], map[])
    ensures Reachable(cfg, w') && w'.wire == [] && w'.peer.sent == 1 && w'.peer.got == 0 && At(w'.peer.streamSent, 5) == 0
    ensures w'.conn == w.conn.(streams := w'.conn.streams, registered := {3}, lastStream := 3, semaphore := 1, flow := Charge(w.conn.flow, 0))
    ensures ReadsEnd(cfg, w'.conn, 3) && w'.conn.streams[3].life.handler.Running?
  {
    OpenReady(cfg, w, 3, false);
    assert w.conn.registered + {3} == {3};
    var w1 := HandlerBegins(cfg, Act(cfg, w, Local(HeadersEvent(3, false, false, Accept))), 3, false, INITIAL_WINDOW, 0);
    var d := Data(3, 0, 0, true);
    Delivered(cfg, w1, d, false, Running, INITIAL_WINDOW, 0);
    w' := Act(cfg, Act(cfg, w1, Send(d)), Receive(true, true));
  }

  /** Its handler reads the end of the body, which announces the tunnel's byte too. That byte never
      entered the window: the peer may now send one byte more than the server will accept. */
  lemma OneByteTooMany(cfg: Config) returns (w: World)
    requires cfg.streaming && cfg.maxStreams >= 1
    ensures Reachable(cfg, w) && Quiet(w, 3) && w.peer.got == 1 && At(w.peer.streamSent, 5) == 0
  {
    var w0 := TunnelByteRead(cfg);
    var w1 := EmptyBodyEnds(cfg, w0);
    ReachNext(cfg, w1, Local(FlushEvent(3)));
    var w2 := Act(cfg, w1, Local(FlushEvent(3)));
    assert w2.conn == w1.conn.(streams := w2.conn.streams, flow := Announce(w1.conn.flow)) && w2.conn.streams[3].life.handler.Running?;
    var w3 := HandlerEnds(cfg, w2, 3);
    ReachNext(cfg, w3, Grant(1));
    w := Act(cfg, w3, Grant(1));
  }

  lemma FloodTrips(cfg: Config, w: World) returns (w': World)
    requires cfg.streaming && Reachable(cfg, w) && w.wire == [] && Reading(w.conn) && Ready(w.conn, 5, true, Queued, INITIAL_WINDOW, 0)
    requires w.conn.flow.window == INITIAL_WINDOW - 1
    requires w.peer.sent == w.peer.got == 1 && At(w.peer.streamSent, 5) == 0
    ensures Reachable(cfg, w') && w'.conn.failure.ConnFlowError?
  {
    var d := Data(5, DEFAULT_FRAME, DEFAULT_FRAME, false);
    Delivered(cfg, w, d, true, Queued, INITIAL_WINDOW, 0);
    var w1 := Act(cfg, Act(cfg, w, Send(d)), Receive(true, true));
    Delivered(cfg, w1, d, true, Queued, INITIAL_WINDOW - DEFAULT_FRAME, DEFAULT_FRAME);
    var w2 := Act(cfg, Act(cfg, w1, Send(d)), Receive(true, true));
    Delivered(cfg, w2, d, true, Queued, INITIAL_WINDOW - 2 * DEFAULT_FRAME, 2 * DEFAULT_FRAME);
    var w3 := Act(cfg, Act(cfg, w2, Send(d)), Receive(true, true));
    w' := LastFrameTrips(cfg, w3);
  }

  /** The peer may send 16383 bytes more; the server has room for 16382. */
  lemma LastFrameTrips(cfg: Config, w: World) returns (w': World)
    requires cfg.streaming && Reachable(cfg, w) && w.wire == [] && Reading(w.conn)
    requires Ready(w.conn, 5, true, Queued, INITIAL_WINDOW - 3 * DEFAULT_FRAME, 3 * DEFAULT_FRAME)
    requires w.conn.flow.window == DEFAULT_FRAME - 2
    requires w.peer.sent == 1 + 3 * DEFAULT_FRAME && w.peer.got == 1 && At(w.peer.streamSent, 5) == 3 * DEFAULT_FRAME
    ensures Reachable(cfg, w') && w'.conn.failure.ConnFlowError?
  {
    var last := Data(5, DEFAULT_FRAME - 1, DEFAULT_FRAME - 1, false);
    assert MaySend(w.peer, last);
    ReachNext(cfg, w, Send(last));
    var w1 := Act(cfg, w, Send(last));
    assert w1.wire == [last];
    ReachNext(cfg, w1, Receive(true, true));
    w' := Act(cfg, w1, Receive(true, true));
  }

  lemma SomeRunTrips(cfg: Config) returns (w: World)
    requires cfg.streaming && cfg.maxStreams >= 1
    ensures Reachable(cfg, w) && w.conn.failure.ConnFlowError?
  {
    var w0 := OneByteTooMany(cfg);
    OpenReady(cfg, w0, 5, true);
    w := FloodTrips(cfg, Act(cfg, w0, Local(HeadersEvent(5, false, true, Accept))));
  }

  /** Without streams there is nothing to send to. */
  lemma {:induction false} NoStreamNoTrip(cfg: Config, w: World, actions: seq<Action>)
    requires cfg.maxStreams == 0 && H2Lifecycle.Inv(cfg, w.conn) && !w.conn.failure.ConnFlowError?
    ensures !Play(cfg, w, actions).conn.failure.ConnFlowError?
    decreases |actions|
  {
    if |actions| > 0 {
      var a := actions[0];
      var w' := Act(cfg, w, a);
      assert w.conn.registered == {};
      if a.Local? && !a.e.DataEvent? { StepStaysQuiet(cfg, w.conn, a.e); }
      if a.Receive? && |w.wire| > 0 { StepStaysQuiet(cfg, w.conn, DataEvent(w.wire[0], a.granted, a.lengthOk)); }
      NoStreamNoTrip(cfg, w', actions[1..]);
    }
  }

  lemma StepStaysQuiet(cfg: Config, c: Conn, e: Event)
    requires H2Lifecycle.Inv(cfg, c) && c.registered == {} && !c.failure.ConnFlowError?
    ensures H2Lifecycle.Inv(cfg, Step(cfg, c, e)) && !Step(cfg, c, e).failure.ConnFlowError?
  {
    NothingToCharge(cfg, c, e);
    H2Lifecycle.StepKeepsInv(cfg, c, e);
  }

  lemma NothingToCharge(cfg: Config, c: Conn, e: Event)
    requires c.registered == {} && !c.failure.ConnFlowError?
    ensures !Step(cfg, c, e).failure.ConnFlowError?
  {
  }

  /** A peer that keeps its windows is refused in some run if and only if the connection both
      streams bodies and carries tunnels, and admits any stream at all. */
  lemma HonestPeerIsAcceptedIff(cfg: Config, tunnels: bool)
    ensures (forall actions :: Allowed(tunnels, actions) ==> !Play(cfg, Start0, actions).conn.failure.ConnFlowError?)
            <==> !(cfg.streaming && tunnels && cfg.maxStreams >= 1)
  {
    if cfg.streaming && tunnels && cfg.maxStreams >= 1 {
      var w := SomeRunTrips(cfg);
    } else {
      forall actions | Allowed(tunnels, actions) ensures !Play(cfg, Start0, actions).conn.failure.ConnFlowError? {
        if cfg.maxStreams == 0 {
          assert H2Lifecycle.Slots(Fresh) == {};
          NoStreamNoTrip(cfg, Start0, actions);
        } else {
          ReceiveFlowControl(cfg, tunnels, actions);
        }
      }
    }
  }
}
