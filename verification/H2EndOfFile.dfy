/** What the reader of a streaming request body is told over whole runs (h2RequestBodyReader.Read in
    request_stream.go). It learns that the body has ended from END_STREAM on DATA or on trailers;
    END_STREAM on the HEADERS that open the stream is not passed on to it. */
module H2EndOfFile {
  import opened H2Core
  import opened H2Queues
  import opened H2Lifecycle
  import Runs

  /** What a read of at least one byte finds. */
  function ReadAnswer(s: Stream): Answer {
    AnswerOf(s.flow.queued, s.life.reset, s.life.eof)
  }

  ghost predicate Tells(cfg: Config, s: Stream, registered: bool) {
    && PhaseOk(s.life)
    && (s.life.headersEnded ==> s.life.ended && s.flow.queued == 0)
    && (cfg.streaming && !s.life.connect ==>
          && (s.life.eof <==> s.life.ended && !s.life.headersEnded)
          && (registered ==> !s.life.handler.Undispatched?))
  }

  ghost predicate Told(cfg: Config, c: Conn, id: nat) {
    id in c.streams ==> Tells(cfg, c.streams[id], id in c.registered)
  }

  /** A step that leaves the records alone, or replaces one. */
  lemma StaysTold(cfg: Config, c: Conn, c1: Conn, id: nat)
    requires Told(cfg, c, id) && c1.streams == c.streams && c1.registered <= c.registered
    ensures Told(cfg, c1, id)
  {
  }

  lemma PutTold(cfg: Config, c: Conn, c1: Conn, k: nat, s: Stream, id: nat)
    requires Told(cfg, c, id) && c1.streams == c.streams && c1.registered <= c.registered + {k}
    requires k == id ==> Tells(cfg, s, k in c1.registered)
    ensures Told(cfg, Put(c1, k, s), id)
  {
  }

  lemma DropTold(cfg: Config, c: Conn, c1: Conn, k: nat, s: Stream, id: nat)
    requires Told(cfg, c, id) && c1.streams == c.streams && c1.registered <= c.registered
    requires k == id ==> Tells(cfg, s, false)
    ensures Told(cfg, Drop(c1, k, s), id)
  {
    PutTold(cfg, c, c1.(registered := c1.registered - {k}), k, Abandon(s), id);
  }

  lemma ResetTold(cfg: Config, c: Conn, c1: Conn, k: nat, id: nat)
    requires Told(cfg, c, id) && c1.streams == c.streams && c1.registered <= c.registered
    ensures Told(cfg, Reset(c1, k), id)
  {
    if k in c1.registered && k in c.streams { DropTold(cfg, c, c1, k, c.streams[k], id); } else { StaysTold(cfg, c, c1, id); }
  }

  /** END_STREAM after the stream was opened reaches the reader. */
  lemma EndTells(cfg: Config, s: Stream, f: Flow, b: Body, end: bool, now: bool)
    requires Tells(cfg, s, true) && Receivable(s.life.phase)
    ensures Tells(cfg, Stream(Dispatched(RemoteEnded(cfg, s.life, end), now), f, b), true)
    ensures Tells(cfg, Stream(RemoteEnded(cfg, s.life, end), f, b), true)
  {
  }

  lemma KeepOrDropTold(cfg: Config, c: Conn, c1: Conn, k: nat, s: Stream, now: bool, lengthOk: bool, id: nat)
    requires Told(cfg, c, id) && c1.streams == c.streams && c1.registered == c.registered
    requires k == id ==> Tells(cfg, s, true) && Tells(cfg, s.(life := Dispatched(s.life, now)), true)
    ensures Told(cfg, if now && !lengthOk then Drop(c1, k, s) else Put(c1, k, s.(life := Dispatched(s.life, now))), id)
  {
    if now && !lengthOk { DropTold(cfg, c, c1, k, s, id); } else { PutTold(cfg, c, c1, k, s.(life := Dispatched(s.life, now)), id); }
  }

  lemma StoreTold(cfg: Config, c: Conn, d: Data, lengthOk: bool, id: nat)
    requires Told(cfg, c, id) && d.id in c.streams && d.id in c.registered && Receivable(c.streams[d.id].life.phase)
    ensures Told(cfg, StoreData(cfg, c, d, lengthOk), id)
  {
    var s := c.streams[d.id];
    var f, b := StoreFlow(cfg, s.life, s.flow, d), StoreBody(s.life, s.body, d);
    var c1 := c.(flow := if CreditedOnArrival(cfg, s.life) then CreditLate(Charge(c.flow, d.flow), d.flow) else Charge(c.flow, d.flow));
    if d.id == id { EndTells(cfg, s, f, b, d.end, d.end && !s.life.connect); }
    var s1 := Stream(RemoteEnded(cfg, s.life, d.end), f, b);
    KeepOrDropTold(cfg, c, c1, d.id, s1, d.end && !s.life.connect, lengthOk, id);
  }

  lemma DataTold(cfg: Config, c: Conn, d: Data, granted: bool, lengthOk: bool, id: nat)
    requires Told(cfg, c, id)
    ensures Told(cfg, HandleData(cfg, c, d, granted, lengthOk), id)
  {
    if d.id in c.registered && d.id in c.streams {
      var s := c.streams[d.id];
      ResetTold(cfg, c, c, d.id, id);
      ResetTold(cfg, c, c.(flow := Charge(c.flow, d.flow)), d.id, id);
      PutTold(cfg, c, c.(flow := Charge(c.flow, d.flow), failure := StreamFlowError), d.id,
              s.(flow := Charge(s.flow, d.flow), body := StoreBody(s.life, s.body, d)), id);
      if Receivable(s.life.phase) { StoreTold(cfg, c, d, lengthOk, id); }
    }
  }

  lemma TrailersTold(cfg: Config, c: Conn, k: nat, end: bool, admission: Admission, id: nat)
    requires Told(cfg, c, id) && k in c.streams && k in c.registered
    ensures Told(cfg, Trailers(cfg, c, k, end, admission), id)
  {
    var s := c.streams[k];
    ResetTold(cfg, c, c, k, id);
    if Receivable(s.life.phase) {
      if k == id { EndTells(cfg, s, s.flow, s.body, true, true); }
      PutTold(cfg, c, c, k, s.(life := Dispatched(RemoteEnded(cfg, s.life, true), true)), id);
    }
  }

  lemma OpenTold(cfg: Config, c: Conn, c1: Conn, k: nat, end: bool, connect: bool, admission: Admission, id: nat)
    requires Told(cfg, c, id) && c1.streams == c.streams && c1.registered == c.registered
    ensures Told(cfg, OpenStream(cfg, c1, k, end, connect, admission), id)
  {
    var s := NewStream(connect, end);
    if admission == Cancel { DropTold(cfg, c, c1, k, s, id); }
    else {
      PutTold(cfg, c, c1.(registered := c1.registered + {k}), k, s.(life := Dispatched(s.life, end || connect || cfg.streaming)), id);
    }
  }

  lemma HeadersTold(cfg: Config, c: Conn, k: nat, end: bool, connect: bool, admission: Admission, id: nat)
    requires Told(cfg, c, id)
    ensures Told(cfg, Headers(cfg, c, k, end, connect, admission), id)
  {
    if k in c.registered && k in c.streams {
      TrailersTold(cfg, c, k, end, admission, id);
    } else if k % 2 == 0 || k <= c.lastStream {
      StaysTold(cfg, c, c.(failure := ProtocolError), id);
    } else if c.draining || |c.registered| >= cfg.maxStreams || admission == Refuse {
      StaysTold(cfg, c, c.(lastStream := k), id);
    } else {
      OpenTold(cfg, c, c.(lastStream := k), k, end, connect, admission, id);
    }
  }

  lemma ReaderTold(cfg: Config, c: Conn, e: Event, id: nat)
    requires Told(cfg, c, id) && OfReader(e)
    ensures Told(cfg, Step(cfg, c, e), id)
  {
  }

  lemma AcquireTold(cfg: Config, c: Conn, k: nat, id: nat)
    requires Told(cfg, c, id)
    ensures Told(cfg, Acquire(cfg, c, k), id)
  {
    if k in c.streams && c.streams[k].life.handler.Queued? {
      var s := c.streams[k];
      PutTold(cfg, c, c.(semaphore := c.semaphore + 1), k, SetHandler(s, Claimed), id);
      PutTold(cfg, c, c, k, SetHandler(s, Done(false)), id);
      DropTold(cfg, c, c, k, SetHandler(s, Done(false)), id);
    }
  }

  /** A handler moves on. */
  lemma HandlerMovesTold(cfg: Config, c: Conn, c1: Conn, k: nat, s: Stream, id: nat)
    requires Told(cfg, c, id) && k in c.streams && c1.streams == c.streams && c1.registered == c.registered
    requires s.life == c.streams[k].life.(handler := s.life.handler) && s.flow == c.streams[k].flow && !s.life.handler.Undispatched?
    ensures Told(cfg, Put(c1, k, s), id)
  {
    PutTold(cfg, c, c1, k, s, id);
  }

  lemma HandlerTold(cfg: Config, c: Conn, e: Event, id: nat)
    requires Told(cfg, c, id) && OfHandler(e)
    ensures Told(cfg, Step(cfg, c, e), id)
  {
    if e.AcquireEvent? {
      AcquireTold(cfg, c, e.id, id);
    } else if e.id in c.streams {
      var s := c.streams[e.id];
      var freed := c.(semaphore := c.semaphore - 1);
      if e.StartEvent? && s.life.handler.Claimed? {
        if s.life.reset { HandlerMovesTold(cfg, c, freed, e.id, SetHandler(s, Done(false)), id); }
        else { HandlerMovesTold(cfg, c, c, e.id, SetHandler(s, Started), id); }
      } else if e.BeginEvent? && s.life.handler.Started? {
        HandlerMovesTold(cfg, c, c, e.id, SetHandler(s, Running).(body := s.body.(inHand := s.body.reserved, reserved := 0)), id);
      } else if e.ExitEvent? && s.life.handler.Running? {
        HandlerMovesTold(cfg, c, freed, e.id, Exit(c, e.id).streams[e.id], id);
      }
    }
  }

  lemma RegistryTold(cfg: Config, c: Conn, e: Event, id: nat)
    requires Told(cfg, c, id) && !OfFrame(e) && !OfReader(e) && !OfHandler(e)
    ensures Told(cfg, Step(cfg, c, e), id)
  {
  }

  lemma StepTold(cfg: Config, c: Conn, e: Event, id: nat)
    requires Told(cfg, c, id)
    ensures Told(cfg, Step(cfg, c, e), id)
  {
    if e.HeadersEvent? { HeadersTold(cfg, c, e.id, e.end, e.connect, e.admission, id); }
    else if e.DataEvent? { DataTold(cfg, c, e.data, e.granted, e.lengthOk, id); }
    else if OfReader(e) { ReaderTold(cfg, c, e, id); }
    else if OfHandler(e) { HandlerTold(cfg, c, e, id); }
    else { RegistryTold(cfg, c, e, id); }
  }

  lemma {:induction false} RunTold(cfg: Config, c: Conn, events: seq<Event>, id: nat)
    requires Told(cfg, c, id)
    ensures Told(cfg, Run(cfg, c, events), id)
    decreases |events|
  {
    if |events| > 0 {
      StepTold(cfg, c, events[0], id);
      RunTold(cfg, Step(cfg, c, events[0]), events[1..], id);
    }
  }

  /** In every run, for every streaming request that was not reset and whose bytes were all read: the
      reader finds the end of file if and only if the peer has ended the request other than by the
      HEADERS that opened it. The reader of a request that these HEADERS ended waits until a reset. */
  lemma EndOfFileIff(cfg: Config, events: seq<Event>, id: nat)
    requires cfg.streaming
    ensures var c := Run(cfg, Fresh, events);
      id in c.streams && !c.streams[id].life.connect ==>
        var s := c.streams[id];
        && (ReadAnswer(s) == EndOfFile <==> s.life.ended && !s.life.headersEnded && s.flow.queued == 0 && !s.life.reset)
        && (s.life.headersEnded ==> ReadAnswer(s) == if s.life.reset then Broken else Waits)
  {
    RunTold(cfg, Fresh, events, id);
  }

  /** Such a request is accepted and served, and its handler waits for a body that is already complete. */
  lemma EmptyRequestWaits(cfg: Config)
    requires cfg.streaming && cfg.maxStreams >= 1
    ensures var c := Run(cfg, Run(cfg, Fresh, [HeadersEvent(1, true, false, Accept), AcquireEvent(1)]), [StartEvent(1), BeginEvent(1)]);
      1 in c.streams && c.streams[1].life.ended && c.streams[1].life.handler.Running? && ReadAnswer(c.streams[1]) == Waits
  {
    Runs.ShortRuns((c, e) => Step(cfg, c, e), Fresh, HeadersEvent(1, true, false, Accept), AcquireEvent(1));
    var c := Run(cfg, Fresh, [HeadersEvent(1, true, false, Accept), AcquireEvent(1)]);
    Runs.ShortRuns((c, e) => Step(cfg, c, e), c, StartEvent(1), BeginEvent(1));
  }
}
