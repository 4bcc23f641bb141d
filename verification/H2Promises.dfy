/** What every state of an HTTP/2 connection promises, and what each of its operations does to the
    quantities a caller relies on: windows, credit, reservations and handler slots. */
module H2Promises {
  import opened H2Core
  import opened Windows
  import opened Sums
  import H2Lifecycle
  import H2Receive
  import H2Budget

  /** The registry, both flow-control disciplines and, with buffered bodies, the reservations are in order. */
  ghost predicate Consistent(cfg: Config, tunnels: bool, c: Conn) {
    H2Lifecycle.Inv(cfg, c) && H2Receive.Inv(cfg, tunnels, c) && (!cfg.streaming ==> H2Budget.Inv(cfg, c))
  }

  lemma FreshIsConsistent(cfg: Config, tunnels: bool)
    ensures Consistent(cfg, tunnels, Fresh)
  {
    assert H2Lifecycle.Slots(Fresh) == {};
    assert H2Receive.Unread(Fresh) == map[];
  }

  lemma StepConsistent(cfg: Config, tunnels: bool, c: Conn, e: Event)
    requires Consistent(cfg, tunnels, c) && H2Receive.WellFormed(tunnels, e)
    ensures Consistent(cfg, tunnels, Step(cfg, c, e))
  {
    H2Receive.ConnStepKeepsInv(cfg, tunnels, c, e);
    if !cfg.streaming { H2Budget.StepKeepsInv(cfg, c, e); }
  }

  /** Within the limits: streams and handlers, the connection window, and with buffered bodies each
      stream has given back nothing, or once and then everything. */
  lemma Promises(cfg: Config, tunnels: bool, c: Conn, id: nat)
    requires Consistent(cfg, tunnels, c)
    ensures |c.registered| <= cfg.maxStreams && |H2Lifecycle.Slots(c)| <= cfg.maxStreams
    ensures !cfg.streaming ==> c.flow.window + c.flow.accum <= INITIAL_WINDOW
    ensures cfg.streaming && !tunnels ==> c.flow.window <= INITIAL_WINDOW
    ensures id in c.streams && !c.streams[id].life.connect ==> c.streams[id].flow.window <= INITIAL_WINDOW
    ensures !cfg.streaming && id in c.streams ==>
      var b := c.streams[id].body;
      b.releases <= 1 && b.returned == if b.releases == 0 then 0 else b.acquired
  {
    TotalNotNegative(H2Receive.Unread(c));
    if id in c.streams {
      assert H2Receive.StreamOk(cfg, c.streams[id]);
      if !cfg.streaming { assert H2Budget.OkAt(c, id); }
    }
  }

  // ---------------------------------------------------------------- frames

  /** A DATA frame concerns one stream. It charges both windows at most once, trips no flow-control
      check that it fits, adds nothing to a body that has ended, and with buffered bodies takes from
      the budget only what was granted. */
  ghost predicate Absorbs(cfg: Config, c: Conn, d: Data, granted: bool, c': Conn) {
    && H2Receive.Advances(c.flow, c'.flow, d.flow) && H2Receive.Advances(H2Receive.FlowOn(c, d.id), H2Receive.FlowOn(c', d.id), d.flow)
    && (d.flow <= c.flow.window && d.flow <= H2Receive.FlowOn(c, d.id).window ==> !c'.failure.ConnFlowError? && !c'.failure.StreamFlowError?)
    && (d.id in c.streams ==> d.id in c'.streams && H2Lifecycle.Evolves(c.streams[d.id], c'.streams[d.id]))
    && (!cfg.streaming ==> H2Budget.HeldAt(c', d.id) <= H2Budget.HeldAt(c, d.id) + if granted then d.size else 0)
    && (forall k :: k != d.id ==> H2Lifecycle.SameStream(c, c', k))
  }

  lemma DataAbsorbed(cfg: Config, tunnels: bool, c: Conn, d: Data, granted: bool, lengthOk: bool)
    requires Consistent(cfg, tunnels, c) && Reading(c) && d.size <= d.flow
    ensures Consistent(cfg, tunnels, HandleData(cfg, c, d, granted, lengthOk))
    ensures Absorbs(cfg, c, d, granted, HandleData(cfg, c, d, granted, lengthOk))
  {
    var e := DataEvent(d, granted, lengthOk);
    StepConsistent(cfg, tunnels, c, e);
    H2Receive.DataAdvances(cfg, c, d, granted, lengthOk);
    H2Lifecycle.StepMoves(cfg, c, e);
    if d.flow <= c.flow.window && d.flow <= H2Receive.FlowOn(c, d.id).window { H2Receive.FittingFrameDoesNotTrip(cfg, c, d, granted, lengthOk); }
    if !cfg.streaming { H2Budget.StepFollows(cfg, c, e); }
  }

  /** A HEADERS frame either continues a registered stream or opens a new one above all others; no
      other stream is touched, no window and no reservation changes. */
  ghost predicate Opens(cfg: Config, c: Conn, id: nat, c': Conn) {
    && (id in c'.registered && id !in c.registered ==> id % 2 == 1 && c.lastStream < id <= c'.lastStream && |c.registered| < cfg.maxStreams)
    && c'.registered <= c.registered + {id} && c'.flow == c.flow
    && (!cfg.streaming ==> H2Budget.HeldAt(c', id) <= H2Budget.HeldAt(c, id))
    && (forall k :: k != id ==> H2Lifecycle.SameStream(c, c', k))
  }

  lemma HeadersKeepFlow(cfg: Config, c: Conn, id: nat, end: bool, connect: bool, admission: Admission)
    ensures Headers(cfg, c, id, end, connect, admission).flow == c.flow
  {
  }

  lemma MovesOpen(cfg: Config, c: Conn, id: nat, c': Conn)
    requires H2Lifecycle.Moves(cfg, c, c', id) && c'.flow == c.flow && (!cfg.streaming ==> H2Budget.Follows(c, c', id, 0))
    ensures Opens(cfg, c, id, c')
  {
  }

  lemma HeadersOpen(cfg: Config, tunnels: bool, c: Conn, id: nat, end: bool, connect: bool, admission: Admission, c': Conn)
    requires Consistent(cfg, tunnels, c) && Reading(c) && (connect ==> tunnels) && c' == Headers(cfg, c, id, end, connect, admission)
    ensures Consistent(cfg, tunnels, c') && Opens(cfg, c, id, c')
  {
    var e := HeadersEvent(id, end, connect, admission);
    assert c' == Step(cfg, c, e);
    StepConsistent(cfg, tunnels, c, e);
    H2Lifecycle.StepMoves(cfg, c, e);
    if !cfg.streaming { H2Budget.StepFollows(cfg, c, e); }
    HeadersKeepFlow(cfg, c, id, end, connect, admission);
    MovesOpen(cfg, c, id, c');
  }

  // ---------------------------------------------------------------- reset

  /** A reset stream is forgotten by the registry and, unless its handler has started, holds nothing. */
  ghost predicate Forgotten(c: Conn, id: nat, c': Conn) {
    && id !in c'.registered && c'.registered == c.registered - {id}
    && (id in c.registered ==> id in c'.streams && c'.streams[id].life.reset)
    && (id in c.registered && !HandlerStarted(c'.streams[id].life.handler) ==> c'.streams[id].body.reserved == 0)
    && (forall k :: k != id ==> H2Lifecycle.SameStream(c, c', k))
  }

  lemma ResetForgets(cfg: Config, tunnels: bool, c: Conn, id: nat)
    requires Consistent(cfg, tunnels, c)
    ensures Consistent(cfg, tunnels, Reset(c, id)) && Forgotten(c, id, Reset(c, id))
  {
    StepConsistent(cfg, tunnels, c, ResetEvent(id));
  }

  // ---------------------------------------------------------------- credit

  /** Credit enters the window or waits in the accumulator, and none is lost. */
  ghost predicate CreditedLate(f: Flow, g: Flow, n: nat) {
    g.window + g.accum == f.window + f.accum + n && g.charged == f.charged && g.updates - f.updates >= g.window - f.window
  }

  /** Credit enters the window at once; it is announced, or waits for that, and none is lost. */
  ghost predicate CreditedEarly(f: Flow, g: Flow, n: nat) {
    g.window == f.window + n && g.charged == f.charged && (f.accum >= 0 ==> g.updates + g.accum == f.updates + f.accum + n)
  }

  lemma TunnelCredited(cfg: Config, tunnels: bool, c: Conn, id: nat, n: nat)
    requires Consistent(cfg, tunnels, c) && ReadsTunnel(c, id, n)
    ensures var c' := TunnelCredit(c, id, n);
      && Consistent(cfg, tunnels, c') && CreditedLate(c.flow, c'.flow, n) && CreditedLate(c.streams[id].flow, c'.streams[id].flow, n)
      && c'.streams[id].flow.queued == c.streams[id].flow.queued - n && 0 <= c'.streams[id].flow.accum < UPDATE_THRESHOLD
  {
    StepConsistent(cfg, tunnels, c, TunnelCreditEvent(id, n));
    assert H2Receive.StreamOk(cfg, TunnelCredit(c, id, n).streams[id]);
  }

  lemma BodyConsumed(cfg: Config, tunnels: bool, c: Conn, id: nat, n: nat)
    requires Consistent(cfg, tunnels, c) && ReadsBody(cfg, c, id, n)
    ensures var c' := Consume(cfg, c, id, n);
      && Consistent(cfg, tunnels, c') && CreditedEarly(c.flow, c'.flow, n) && CreditedEarly(c.streams[id].flow, c'.streams[id].flow, n)
      && c'.streams[id].flow.queued == c.streams[id].flow.queued - n && H2Budget.HeldAt(c', id) == H2Budget.HeldAt(c, id) - n
  {
    StepConsistent(cfg, tunnels, c, ConsumeEvent(id, n));
  }

  /** Nothing waits to be announced; what was due to the stream has been announced. */
  lemma CreditFlushed(cfg: Config, tunnels: bool, c: Conn, id: nat)
    requires Consistent(cfg, tunnels, c) && ReadsEnd(cfg, c, id)
    ensures var c' := Flush(cfg, c, id);
      && Consistent(cfg, tunnels, c') && c'.flow.accum == 0 && c'.flow.window == c.flow.window
      && c'.streams[id].flow.updates == c'.streams[id].flow.consumed == c.streams[id].flow.consumed
      && c'.streams[id].flow.window == c.streams[id].flow.window
  {
    StepConsistent(cfg, tunnels, c, FlushEvent(id));
    assert H2Receive.StreamOk(cfg, Flush(cfg, c, id).streams[id]);
  }

  // ---------------------------------------------------------------- handlers

  lemma SlotsAfter(c: Conn, c1: Conn, id: nat, s: Stream)
    requires id in c.streams && c1.streams == c.streams
    ensures H2Lifecycle.Slots(Put(c1, id, s)) ==
      if H2Lifecycle.HoldsSlot(s.life.handler) then H2Lifecycle.Slots(c) + {id} else H2Lifecycle.Slots(c) - {id}
  {
  }

  lemma AcquireTakes(cfg: Config, c: Conn, id: nat)
    requires id in c.streams && c.streams[id].life.handler.Queued? && c.semaphore < cfg.maxStreams
    ensures H2Lifecycle.Slots(Acquire(cfg, c, id)) == H2Lifecycle.Slots(c) + {id}
  {
    SlotsAfter(c, c.(semaphore := c.semaphore + 1), id, SetHandler(c.streams[id], Claimed));
  }

  lemma AcquireRefuses(cfg: Config, c: Conn, id: nat)
    requires id in c.streams && c.streams[id].life.handler.Queued? && c.semaphore >= cfg.maxStreams
    ensures var c' := Acquire(cfg, c, id);
      H2Lifecycle.Slots(c') == H2Lifecycle.Slots(c) && id !in c'.registered && (id in c.registered ==> c'.streams[id].life.reset)
  {
    var s := SetHandler(c.streams[id], Done(false));
    if id in c.registered {
      SlotsAfter(c, c.(registered := c.registered - {id}), id, Abandon(s));
    } else {
      SlotsAfter(c, c, id, s);
    }
    assert id !in H2Lifecycle.Slots(c);
  }

  /** A slot is taken exactly when one is free; otherwise the stream is reset if it is registered. */
  lemma SlotAcquired(cfg: Config, tunnels: bool, c: Conn, id: nat, c': Conn)
    requires Consistent(cfg, tunnels, c) && id in c.streams && c.streams[id].life.handler.Queued? && c' == Acquire(cfg, c, id)
    ensures Consistent(cfg, tunnels, c') && id in c'.streams
    ensures if |H2Lifecycle.Slots(c)| < cfg.maxStreams then H2Lifecycle.Slots(c') == H2Lifecycle.Slots(c) + {id}
            else H2Lifecycle.Slots(c') == H2Lifecycle.Slots(c) && id !in c'.registered && (id in c.registered ==> c'.streams[id].life.reset)
  {
    if c.semaphore < cfg.maxStreams { AcquireTakes(cfg, c, id); } else { AcquireRefuses(cfg, c, id); }
    StepConsistent(cfg, tunnels, c, AcquireEvent(id));
  }

  lemma StartEffect(c: Conn, id: nat)
    requires id in c.streams && c.streams[id].life.handler.Claimed?
    ensures var c' := Start(c, id);
      && (HandlerStarted(c'.streams[id].life.handler) <==> !c.streams[id].life.reset)
      && H2Lifecycle.Slots(c') == if c.streams[id].life.reset then H2Lifecycle.Slots(c) - {id} else H2Lifecycle.Slots(c)
  {
    if c.streams[id].life.reset {
      SlotsAfter(c, c.(semaphore := c.semaphore - 1), id, SetHandler(c.streams[id], Done(false)));
    } else {
      SlotsAfter(c, c, id, SetHandler(c.streams[id], Started));
    }
    assert id in H2Lifecycle.Slots(c);
  }

  /** The slot is kept by a handler that starts, and freed when the stream was reset meanwhile. */
  lemma HandlerMayStart(cfg: Config, tunnels: bool, c: Conn, id: nat, c': Conn)
    requires Consistent(cfg, tunnels, c) && id in c.streams && c.streams[id].life.handler.Claimed? && c' == Start(c, id)
    ensures Consistent(cfg, tunnels, c') && id in c'.streams && (HandlerStarted(c'.streams[id].life.handler) <==> !c.streams[id].life.reset)
    ensures H2Lifecycle.Slots(c') == if c.streams[id].life.reset then H2Lifecycle.Slots(c) - {id} else H2Lifecycle.Slots(c)
  {
    StartEffect(c, id);
    StepConsistent(cfg, tunnels, c, StartEvent(id));
  }

  /** The handler takes over the reservation; nothing is lost on the way. */
  lemma HandlerTakesOver(cfg: Config, tunnels: bool, c: Conn, id: nat)
    requires Consistent(cfg, tunnels, c) && id in c.streams && c.streams[id].life.handler.Started?
    ensures var c' := Begin(c, id);
      && Consistent(cfg, tunnels, c') && H2Lifecycle.Slots(c') == H2Lifecycle.Slots(c) && c'.streams[id].body.reserved == 0
      && (!cfg.streaming ==> H2Budget.HeldAt(c', id) == H2Budget.HeldAt(c, id))
  {
    StepConsistent(cfg, tunnels, c, BeginEvent(id));
    SlotsAfter(c, c, id, Begin(c, id).streams[id]);
    assert id in H2Lifecycle.Slots(c);
    if !cfg.streaming { assert H2Budget.OkAt(c, id); }
  }

  /** The slot is free again, and a buffered body has given back everything it took, once. */
  lemma HandlerGivesBack(cfg: Config, tunnels: bool, c: Conn, id: nat)
    requires Consistent(cfg, tunnels, c) && id in c.streams && c.streams[id].life.handler.Running?
    ensures var c' := Exit(c, id);
      && Consistent(cfg, tunnels, c') && H2Lifecycle.Slots(c') == H2Lifecycle.Slots(c) - {id}
      && (!cfg.streaming ==> c'.streams[id].body.returned == c'.streams[id].body.acquired && c'.streams[id].body.releases <= 1)
  {
    StepConsistent(cfg, tunnels, c, ExitEvent(id));
    SlotsAfter(c, c.(semaphore := c.semaphore - 1), id, Exit(c, id).streams[id]);
    if !cfg.streaming { assert H2Budget.OkAt(Exit(c, id), id); }
  }
}
