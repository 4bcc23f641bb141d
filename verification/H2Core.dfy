/** The connection state behind h.mu in http2.go: the stream registry and the stream state machine
    (section 5.1 of RFC 9113), receive windows (section 6.9), the per-stream body reservation and the
    dispatch of handlers. Every locked region is one step function. A stream keeps its record after
    it leaves the registry, because handlers still hold it.

    Records carry history fields (marked below) that no step reads. */
module H2Core {
  import opened Windows
  import Runs

  const UPDATE_THRESHOLD := INITIAL_WINDOW / 2

  datatype Config = Config(streaming: bool, maxBody: nat, maxStreams: nat)

  // ---------------------------------------------------------------- stream records

  datatype Phase = Open | HalfClosedRemote | HalfClosedLocal | Closed

  /** How far dispatch and the handler goroutine have come. */
  datatype Handler = Undispatched | Queued | Claimed | Started | Running | Done(ran: bool)

  /** eof is bodyEOF as END_STREAM sets it; a reset sets it too, together with an error that comes
      first. localEnded and headersEnded are history: END_STREAM was sent, and the HEADERS that opened
      the stream carried it. */
  datatype Life = Life(phase: Phase, connect: bool, ended: bool, reset: bool, handler: Handler, eof: bool, localEnded: bool, headersEnded: bool)

  /** queued counts bytes that arrived for a reader and were not read. charged, updates and
      consumed are history: bytes debited, bytes announced by WINDOW_UPDATE, bytes read by a
      streaming handler. */
  datatype Flow = Flow(window: int, accum: int, queued: nat, charged: nat, updates: nat, consumed: nat)

  /** reserved is bodyReserved; inHand is what the handler goroutine took over when it started.
      acquired, returned and releases are history: bytes reserved, bytes given back, and how often a
      positive amount was given back. */
  datatype Body = Body(received: nat, reserved: int, inHand: int, acquired: nat, returned: nat, releases: nat)

  datatype Stream = Stream(life: Life, flow: Flow, body: Body)

  /** A connection error: which flow-control check failed is told apart. */
  datatype Failure = Healthy | ProtocolError | ConnFlowError | StreamFlowError

  /** flow.window is connRecvWindowRemaining and flow.accum is connRecvWindowAccum; flow.queued is unused. */
  datatype Conn = Conn(streams: map<nat, Stream>, registered: set<nat>, closing: set<nat>, lastStream: nat,
                       draining: bool, closed: bool, failure: Failure, semaphore: int, flow: Flow)

  const FullWindow := Flow(INITIAL_WINDOW, 0, 0, 0, 0, 0)

  const Fresh := Conn(map[], {}, {}, 0, false, false, Healthy, 0, FullWindow)

  function NewStream(connect: bool, end: bool): Stream {
    Stream(Life(if end then HalfClosedRemote else Open, connect, end, false, Undispatched, false, false, end), FullWindow, Body(0, 0, 0, 0, 0, 0))
  }

  function Positive(x: int): nat {
    if x < 0 then 0 else x
  }

  // ---------------------------------------------------------------- stream state machine

  predicate Receivable(p: Phase) {
    p == Open || p == HalfClosedLocal
  }

  function RemoteEnd(p: Phase): Phase {
    match p
    case Open => HalfClosedRemote
    case HalfClosedLocal => Closed
    case _ => p
  }

  function LocalEnd(p: Phase): Phase {
    match p
    case Open => HalfClosedLocal
    case HalfClosedRemote => Closed
    case _ => p
  }

  predicate HandlerStarted(h: Handler) {
    h.Started? || h.Running? || (h.Done? && h.ran)
  }

  /** A handler goroutine has begun; what it reads from may outlive it. */
  predicate Begun(h: Handler) {
    h.Running? || h == Done(true)
  }

  /** END_STREAM by DATA or trailers: the reader of a streaming body is told. */
  function RemoteEnded(cfg: Config, l: Life, end: bool): Life {
    if end then l.(ended := true, phase := RemoteEnd(l.phase), eof := l.eof || IsStreaming(cfg, l)) else l
  }

  /** Marked for dispatch by the read loop. */
  function Dispatched(l: Life, now: bool): Life {
    if now && l.handler.Undispatched? then l.(handler := Queued) else l
  }

  // ---------------------------------------------------------------- removal

  function Put(c: Conn, id: nat, s: Stream): Conn {
    c.(streams := c.streams[id := s])
  }

  /** Gives the reservation back to the budget, unless a handler took it over. */
  function GiveBack(b: Body, started: bool): Body {
    if started then b
    else b.(reserved := 0, returned := b.returned + Positive(b.reserved), releases := b.releases + if b.reserved > 0 then 1 else 0)
  }

  function Abandon(s: Stream): Stream {
    s.(life := s.life.(reset := true), body := GiveBack(s.body, HandlerStarted(s.life.handler)))
  }

  /** The registry forgets the stream, which is abandoned with record s. */
  function Drop(c: Conn, id: nat, s: Stream): Conn {
    Put(c.(registered := c.registered - {id}), id, Abandon(s))
  }

  /** resetStream */
  function Reset(c: Conn, id: nat): Conn {
    if id in c.registered && id in c.streams then Drop(c, id, c.streams[id]) else c
  }

  /** h2Response.finish: the registry forgets a stream whose handler has answered. */
  function Finish(c: Conn, id: nat): Conn {
    if id in c.streams && HandlerStarted(c.streams[id].life.handler) then c.(registered := c.registered - {id}) else c
  }

  /** closeAllStreams empties the registry in one region and then visits the streams one by one. */
  function CloseAll(c: Conn): Conn {
    c.(registered := {}, closing := c.closing + c.registered, closed := true)
  }

  function CloseOne(c: Conn, id: nat): Conn {
    if id in c.closing && id in c.streams then Put(c.(closing := c.closing - {id}), id, Abandon(c.streams[id])) else c
  }

  function EndLocal(c: Conn, id: nat): Conn {
    if id !in c.streams then c
    else
      var s := c.streams[id];
      Put(c, id, s.(life := s.life.(phase := LocalEnd(s.life.phase), localEnded := true)))
  }

  // ---------------------------------------------------------------- HEADERS

  /** What the checks around registration decide: refuse before registering, register and then
      cancel before any handler (bad length, host or head handler), or accept. */
  datatype Admission = Refuse | Cancel | Accept

  function Headers(cfg: Config, c: Conn, id: nat, end: bool, connect: bool, admission: Admission): Conn {
    if id in c.registered && id in c.streams then Trailers(cfg, c, id, end, admission)
    else if id % 2 == 0 || id <= c.lastStream then c.(failure := ProtocolError)
    else if c.draining || |c.registered| >= cfg.maxStreams || admission == Refuse then c.(lastStream := id)
    else OpenStream(cfg, c.(lastStream := id), id, end, connect, admission)
  }

  function OpenStream(cfg: Config, c: Conn, id: nat, end: bool, connect: bool, admission: Admission): Conn {
    var s := NewStream(connect, end);
    if admission == Cancel then Drop(c, id, s)
    else Put(c.(registered := c.registered + {id}), id, s.(life := Dispatched(s.life, end || connect || cfg.streaming)))
  }

  function Trailers(cfg: Config, c: Conn, id: nat, end: bool, admission: Admission): Conn
    requires id in c.streams
  {
    var s := c.streams[id];
    if s.life.phase == Closed then c.(failure := ProtocolError)
    else if s.life.phase == HalfClosedRemote then Reset(c, id)
    else if !s.life.handler.Undispatched? && !(cfg.streaming && !s.life.connect) then Reset(c, id)
    else if !end || admission != Accept then Reset(c, id)
    else Put(c, id, s.(life := Dispatched(RemoteEnded(cfg, s.life, true), true)))
  }

  // ---------------------------------------------------------------- DATA

  /** A DATA frame as handleData sees it: flow-controlled size, payload size without padding, END_STREAM. */
  datatype Data = Data(id: nat, flow: nat, size: nat, end: bool)

  predicate IsStreaming(cfg: Config, l: Life) {
    !l.connect && cfg.streaming && !l.handler.Undispatched?
  }

  /** Buffered bytes are credited on arrival; the readers of tunnels and streaming bodies credit later. */
  predicate CreditedOnArrival(cfg: Config, l: Life) {
    !l.connect && !IsStreaming(cfg, l)
  }

  function Charge(f: Flow, n: nat): Flow {
    f.(window := f.window - n, charged := f.charged + n)
  }

  /** Late credit: the window grows when its WINDOW_UPDATE is sent (handleData, creditWindow). */
  function CreditLate(f: Flow, n: nat): Flow {
    var a := f.accum + n;
    if a >= UPDATE_THRESHOLD then f.(window := f.window + a, accum := 0, updates := f.updates + Positive(a)) else f.(accum := a)
  }

  /** Early credit: the window grows at once, the WINDOW_UPDATE follows (consumeH2Body). */
  function CreditEarly(f: Flow, n: nat): Flow {
    var a := f.accum + n;
    var g := f.(window := f.window + n, consumed := f.consumed + n);
    if a >= UPDATE_THRESHOLD then g.(accum := 0, updates := f.updates + Positive(a)) else g.(accum := a)
  }

  /** flushH2BodyCredit: what has accumulated is announced. */
  function Announce(f: Flow): Flow {
    f.(accum := 0, updates := f.updates + Positive(f.accum))
  }

  function StoreFlow(cfg: Config, l: Life, f: Flow, d: Data): Flow {
    if CreditedOnArrival(cfg, l) then CreditLate(Charge(f, d.flow), d.flow)
    else Charge(f, d.flow).(queued := f.queued + d.size)
  }

  function StoreBody(l: Life, b: Body, d: Data): Body {
    if l.connect then b
    else b.(received := b.received + d.size, reserved := b.reserved + d.size, acquired := b.acquired + d.size)
  }

  /** handleData: `granted` is the answer of the body budget, `lengthOk` that of the
      content-length check at the end of the body. */
  function HandleData(cfg: Config, c: Conn, d: Data, granted: bool, lengthOk: bool): Conn {
    if d.id == 0 then c.(failure := ProtocolError)
    else if d.id !in c.registered || d.id !in c.streams then (if d.id > c.lastStream then c.(failure := ProtocolError) else c)
    else
      var s := c.streams[d.id];
      if !Receivable(s.life.phase) || (!s.life.connect && s.body.received + d.size > cfg.maxBody) then Reset(c, d.id)
      else if d.flow > 0 && c.flow.window < d.flow then c.(flow := Charge(c.flow, d.flow), failure := ConnFlowError)
      else if !s.life.connect && !granted && d.size > 0 then Reset(c.(flow := Charge(c.flow, d.flow)), d.id)
      else if s.flow.window < d.flow then
        Put(c.(flow := Charge(c.flow, d.flow), failure := StreamFlowError), d.id,
            s.(flow := Charge(s.flow, d.flow), body := StoreBody(s.life, s.body, d)))
      else StoreData(cfg, c, d, lengthOk)
  }

  /** The accepted case, after both window checks. */
  function StoreData(cfg: Config, c: Conn, d: Data, lengthOk: bool): Conn
    requires d.id in c.streams
  {
    var s := c.streams[d.id];
    var c1 := c.(flow := if CreditedOnArrival(cfg, s.life) then CreditLate(Charge(c.flow, d.flow), d.flow) else Charge(c.flow, d.flow));
    var s1 := Stream(RemoteEnded(cfg, s.life, d.end), StoreFlow(cfg, s.life, s.flow, d), StoreBody(s.life, s.body, d));
    if d.end && !s.life.connect && !lengthOk then Drop(c1, d.id, s1)
    else Put(c1, d.id, s1.(life := Dispatched(s1.life, d.end && !s.life.connect)))
  }

  // ---------------------------------------------------------------- readers return credit

  /** A handler reads n bytes of its tunnel, n bytes of its body, or finds the end of its body. */
  predicate ReadsTunnel(c: Conn, id: nat, n: nat) {
    id in c.streams && c.streams[id].life.connect && Begun(c.streams[id].life.handler) && n <= c.streams[id].flow.queued
  }

  predicate ReadsBody(cfg: Config, c: Conn, id: nat, n: nat) {
    id in c.streams && IsStreaming(cfg, c.streams[id].life) && Begun(c.streams[id].life.handler) && n <= c.streams[id].flow.queued
  }

  predicate ReadsEnd(cfg: Config, c: Conn, id: nat) {
    ReadsBody(cfg, c, id, 0) && c.streams[id].flow.queued == 0 && c.streams[id].life.eof
  }

  /** h2StreamConn.creditWindow after a tunnel read of n bytes. */
  function TunnelCredit(c: Conn, id: nat, n: nat): Conn {
    if !ReadsTunnel(c, id, n) then c
    else
      var s := c.streams[id];
      Put(c.(flow := CreditLate(c.flow, n)), id, s.(flow := CreditLate(s.flow.(queued := s.flow.queued - n), n)))
  }

  /** A streaming body read of n bytes: the budget and both windows get them back at once. */
  function Consume(cfg: Config, c: Conn, id: nat, n: nat): Conn {
    if !ReadsBody(cfg, c, id, n) then c
    else
      var s := c.streams[id];
      Put(c.(flow := CreditEarly(c.flow, n)), id,
          s.(flow := CreditEarly(s.flow.(queued := s.flow.queued - n), n),
             body := s.body.(reserved := s.body.reserved - n, returned := s.body.returned + n)))
  }

  /** flushH2BodyCredit at the end of a streaming body. */
  function Flush(cfg: Config, c: Conn, id: nat): Conn {
    if !ReadsEnd(cfg, c, id) then c
    else Put(c.(flow := Announce(c.flow)), id, c.streams[id].(flow := Announce(c.streams[id].flow)))
  }

  // ---------------------------------------------------------------- dispatch and handlers

  function SetHandler(s: Stream, h: Handler): Stream {
    s.(life := s.life.(handler := h))
  }

  /** Takes a handler slot, or refuses the stream when none is free. */
  function Acquire(cfg: Config, c: Conn, id: nat): Conn {
    if id !in c.streams || !c.streams[id].life.handler.Queued? then c
    else
      var s := c.streams[id];
      if c.semaphore < cfg.maxStreams then Put(c.(semaphore := c.semaphore + 1), id, SetHandler(s, Claimed))
      else if id in c.registered then Drop(c, id, SetHandler(s, Done(false)))
      else Put(c, id, SetHandler(s, Done(false)))
  }

  /** The region that decides whether the handler goroutine is started. */
  function Start(c: Conn, id: nat): Conn {
    if id !in c.streams || !c.streams[id].life.handler.Claimed? then c
    else
      var s := c.streams[id];
      if s.life.reset then Put(c.(semaphore := c.semaphore - 1), id, SetHandler(s, Done(false)))
      else Put(c, id, SetHandler(s, Started))
  }

  /** The goroutine starts: the argument of its deferred release is evaluated now. */
  function Begin(c: Conn, id: nat): Conn {
    if id !in c.streams || !c.streams[id].life.handler.Started? then c
    else
      var s := c.streams[id];
      Put(c, id, SetHandler(s, Running).(body := s.body.(inHand := s.body.reserved, reserved := 0)))
  }

  /** The goroutine ends: the slot and what it holds are released. */
  function Exit(c: Conn, id: nat): Conn {
    if id !in c.streams || !c.streams[id].life.handler.Running? then c
    else
      var s := c.streams[id];
      var b := s.body.(inHand := 0, returned := s.body.returned + Positive(s.body.inHand),
                       releases := s.body.releases + if s.body.inHand > 0 then 1 else 0);
      Put(c.(semaphore := c.semaphore - 1), id, SetHandler(s, Done(true)).(body := b))
  }

  // ---------------------------------------------------------------- runs

  datatype Event =
    | HeadersEvent(id: nat, end: bool, connect: bool, admission: Admission)
    | DataEvent(data: Data, granted: bool, lengthOk: bool)
    | ResetEvent(id: nat) | FinishEvent(id: nat) | EndLocalEvent(id: nat)
    | TunnelCreditEvent(id: nat, n: nat) | ConsumeEvent(id: nat, n: nat) | FlushEvent(id: nat)
    | AcquireEvent(id: nat) | StartEvent(id: nat) | BeginEvent(id: nat) | ExitEvent(id: nat)
    | DrainEvent | CloseAllEvent | CloseOneEvent(id: nat)

  predicate OfFrame(e: Event) {
    e.HeadersEvent? || e.DataEvent?
  }

  predicate OfReader(e: Event) {
    e.TunnelCreditEvent? || e.ConsumeEvent? || e.FlushEvent?
  }

  predicate OfHandler(e: Event) {
    e.AcquireEvent? || e.StartEvent? || e.BeginEvent? || e.ExitEvent?
  }

  /** The one stream a step may change. */
  function Target(e: Event): nat {
    match e
    case DataEvent(data, _, _) => data.id
    case DrainEvent => 0
    case CloseAllEvent => 0
    case _ => e.id
  }

  /** Frames are no longer handled once the connection has failed or closed. */
  predicate Reading(c: Conn) {
    c.failure.Healthy? && !c.closed
  }

  function Step(cfg: Config, c: Conn, e: Event): Conn {
    match e
    case HeadersEvent(id, end, connect, admission) => if Reading(c) then Headers(cfg, c, id, end, connect, admission) else c
    case DataEvent(data, granted, lengthOk) => if Reading(c) then HandleData(cfg, c, data, granted, lengthOk) else c
    case ResetEvent(id) => Reset(c, id)
    case FinishEvent(id) => Finish(c, id)
    case EndLocalEvent(id) => EndLocal(c, id)
    case TunnelCreditEvent(id, n) => TunnelCredit(c, id, n)
    case ConsumeEvent(id, n) => Consume(cfg, c, id, n)
    case FlushEvent(id) => Flush(cfg, c, id)
    case AcquireEvent(id) => Acquire(cfg, c, id)
    case StartEvent(id) => Start(c, id)
    case BeginEvent(id) => Begin(c, id)
    case ExitEvent(id) => Exit(c, id)
    case DrainEvent => c.(draining := true)
    case CloseAllEvent => CloseAll(c)
    case CloseOneEvent(id) => CloseOne(c, id)
  }

  function Run(cfg: Config, c: Conn, events: seq<Event>): Conn {
    Runs.Run((c, e) => Step(cfg, c, e), c, events)
  }
}
