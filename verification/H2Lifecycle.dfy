/** Stream lifecycle over whole runs (sections 5.1, 5.1.1 and 5.1.2 of RFC 9113). */
module H2Lifecycle {
  import opened Ints
  import opened H2Core

  /** Which ends have been closed decides the phase. */
  ghost function PhaseOf(remoteEnded: bool, localEnded: bool): Phase {
    if remoteEnded then (if localEnded then Closed else HalfClosedRemote)
    else (if localEnded then HalfClosedLocal else Open)
  }

  ghost predicate PhaseOk(l: Life) {
    l.phase == PhaseOf(l.ended, l.localEnded)
  }

  function Rank(h: Handler): nat {
    match h
    case Undispatched => 0
    case Queued => 1
    case Claimed => 2
    case Started => 3
    case Running => 4
    case Done(_) => 5
  }

  predicate HoldsSlot(h: Handler) {
    h.Claimed? || h.Started? || h.Running?
  }

  function Slot(h: Handler): int {
    if HoldsSlot(h) then 1 else 0
  }

  // ---------------------------------------------------------------- what one step can do

  /** A stream only moves forward, and its body is complete once the peer has ended it. */
  ghost predicate Evolves(s: Stream, s': Stream) {
    && (s.life.ended ==> s'.life.ended && s'.body.received == s.body.received)
    && (s.life.localEnded ==> s'.life.localEnded)
    && (s.life.reset ==> s'.life.reset)
    && Rank(s.life.handler) <= Rank(s'.life.handler)
    && PhaseOk(s'.life)
  }

  function SlotAt(c: Conn, id: nat): int {
    if id in c.streams then Slot(c.streams[id].life.handler) else 0
  }

  ghost predicate SameStream(c: Conn, c': Conn, k: nat) {
    k in c.streams ==> k in c'.streams && c'.streams[k] == c.streams[k]
  }

  /** A record appears only for a new odd id above every earlier one. */
  ghost predicate Appears(cfg: Config, c: Conn, c': Conn, id: nat) {
    && id % 2 == 1 && c.lastStream < id <= c'.lastStream && |c.registered| < cfg.maxStreams
    && id in c'.streams && PhaseOk(c'.streams[id].life) && Rank(c'.streams[id].life.handler) <= 1
  }

  /** What one step can do: at most the stream `id` changes, it only moves forward, and only a
      stream that just appeared enters the registry. */
  ghost predicate Moves(cfg: Config, c: Conn, c': Conn, id: nat) {
    && c.lastStream <= c'.lastStream
    && c'.streams.Keys <= c.streams.Keys + {id}
    && (forall k :: k != id ==> SameStream(c, c', k))
    && (id in c.streams ==> id in c'.streams && Evolves(c.streams[id], c'.streams[id]))
    && (id in c'.streams && id !in c.streams ==> Appears(cfg, c, c', id))
    && c'.registered <= c.registered + {id}
    && (id in c'.registered && id !in c.registered ==> id !in c.streams && Appears(cfg, c, c', id))
    && c'.semaphore - c.semaphore == SlotAt(c', id) - SlotAt(c, id)
    && c'.semaphore <= Max(c.semaphore, cfg.maxStreams)
  }

  ghost predicate PhasesOk(c: Conn) {
    forall id :: id in c.streams ==> PhaseOk(c.streams[id].life)
  }

  /** A step that changes no record. */
  lemma StaysMoves(cfg: Config, c: Conn, c1: Conn, id: nat)
    requires PhasesOk(c) && c1.streams == c.streams && c1.registered <= c.registered
    requires c.lastStream <= c1.lastStream && c1.semaphore == c.semaphore
    ensures Moves(cfg, c, c1, id)
  {
  }

  /** A step that replaces one record. */
  lemma PutMoves(cfg: Config, c: Conn, c1: Conn, id: nat, s: Stream)
    requires PhasesOk(c) && id in c.streams && c1.streams == c.streams && c1.registered <= c.registered
    requires c.lastStream <= c1.lastStream && Evolves(c.streams[id], s)
    requires c1.semaphore - c.semaphore == Slot(s.life.handler) - Slot(c.streams[id].life.handler)
    requires c1.semaphore <= Max(c.semaphore, cfg.maxStreams)
    ensures Moves(cfg, c, Put(c1, id, s), id)
  {
  }

  lemma DropMoves(cfg: Config, c: Conn, c1: Conn, id: nat, s: Stream)
    requires PhasesOk(c) && id in c.streams && c1.streams == c.streams && c1.registered <= c.registered
    requires c.lastStream <= c1.lastStream && Evolves(c.streams[id], s)
    requires c1.semaphore - c.semaphore == Slot(s.life.handler) - Slot(c.streams[id].life.handler)
    requires c1.semaphore <= Max(c.semaphore, cfg.maxStreams)
    ensures Moves(cfg, c, Drop(c1, id, s), id)
  {
    PutMoves(cfg, c, c1.(registered := c1.registered - {id}), id, Abandon(s));
  }

  lemma ResetMoves(cfg: Config, c: Conn, c1: Conn, id: nat)
    requires PhasesOk(c) && c1.streams == c.streams && c1.registered == c.registered
    requires c.lastStream == c1.lastStream && c1.semaphore == c.semaphore
    ensures Moves(cfg, c, Reset(c1, id), id)
  {
    if id in c.registered && id in c.streams {
      DropMoves(cfg, c, c1, id, c.streams[id]);
    } else {
      StaysMoves(cfg, c, c1, id);
    }
  }

  /** A step that adds a record, registered or not. */
  lemma NewMoves(cfg: Config, c: Conn, c1: Conn, id: nat, s: Stream)
    requires PhasesOk(c) && id !in c.streams && c1.streams == c.streams && c1.registered <= c.registered + {id}
    requires id % 2 == 1 && c.lastStream < id == c1.lastStream && |c.registered| < cfg.maxStreams
    requires PhaseOk(s.life) && Rank(s.life.handler) <= 1 && c1.semaphore == c.semaphore
    ensures Moves(cfg, c, Put(c1, id, s), id)
  {
  }

  lemma OpenMoves(cfg: Config, c: Conn, id: nat, end: bool, connect: bool, admission: Admission)
    requires PhasesOk(c) && id !in c.streams
    requires id % 2 == 1 && c.lastStream < id && |c.registered| < cfg.maxStreams
    ensures Moves(cfg, c, OpenStream(cfg, c.(lastStream := id), id, end, connect, admission), id)
  {
    var c1, s := c.(lastStream := id), NewStream(connect, end);
    if admission == Cancel {
      NewMoves(cfg, c, c1.(registered := c1.registered - {id}), id, Abandon(s));
    } else {
      NewMoves(cfg, c, c1.(registered := c1.registered + {id}), id, s.(life := Dispatched(s.life, end || connect || cfg.streaming)));
    }
  }

  lemma TrailersMoves(cfg: Config, c: Conn, id: nat, end: bool, admission: Admission)
    requires PhasesOk(c) && id in c.streams
    ensures Moves(cfg, c, Trailers(cfg, c, id, end, admission), id)
  {
    var s := c.streams[id];
    if s.life.phase == Closed {
      StaysMoves(cfg, c, c.(failure := ProtocolError), id);
    } else if Trailers(cfg, c, id, end, admission) == Reset(c, id) {
      ResetMoves(cfg, c, c, id);
    } else {
      PutMoves(cfg, c, c, id, s.(life := Dispatched(RemoteEnded(cfg, s.life, true), true)));
    }
  }

  lemma HeadersMoves(cfg: Config, c: Conn, id: nat, end: bool, connect: bool, admission: Admission)
    requires PhasesOk(c) && (id > c.lastStream ==> id !in c.streams)
    ensures Moves(cfg, c, Headers(cfg, c, id, end, connect, admission), id)
  {
    if id in c.registered && id in c.streams {
      TrailersMoves(cfg, c, id, end, admission);
    } else if id % 2 == 0 || id <= c.lastStream {
      StaysMoves(cfg, c, c.(failure := ProtocolError), id);
    } else if c.draining || |c.registered| >= cfg.maxStreams || admission == Refuse {
      StaysMoves(cfg, c, c.(lastStream := id), id);
    } else {
      OpenMoves(cfg, c, id, end, connect, admission);
    }
  }

  lemma DataMoves(cfg: Config, c: Conn, d: Data, granted: bool, lengthOk: bool)
    requires PhasesOk(c)
    ensures Moves(cfg, c, HandleData(cfg, c, d, granted, lengthOk), d.id)
  {
    var c1 := c.(flow := Charge(c.flow, d.flow));
    if d.id == 0 || d.id !in c.registered || d.id !in c.streams {
      StaysMoves(cfg, c, HandleData(cfg, c, d, granted, lengthOk), d.id);
    } else {
      var s := c.streams[d.id];
      if !Receivable(s.life.phase) || (!s.life.connect && s.body.received + d.size > cfg.maxBody) {
        ResetMoves(cfg, c, c, d.id);
      } else if d.flow > 0 && c.flow.window < d.flow {
        StaysMoves(cfg, c, c1.(failure := ConnFlowError), d.id);
      } else if !s.life.connect && !granted && d.size > 0 {
        ResetMoves(cfg, c, c1, d.id);
      } else if s.flow.window < d.flow {
        PutMoves(cfg, c, c1.(failure := StreamFlowError), d.id, s.(flow := Charge(s.flow, d.flow), body := StoreBody(s.life, s.body, d)));
      } else {
        StoreMoves(cfg, c, d, lengthOk);
      }
    }
  }

  /** The record that an accepted frame leaves, before and after it is marked for dispatch. */
  lemma StoredEvolves(cfg: Config, s: Stream, d: Data)
    requires PhaseOk(s.life) && Receivable(s.life.phase)
    ensures var s1 := Stream(RemoteEnded(cfg, s.life, d.end), StoreFlow(cfg, s.life, s.flow, d), StoreBody(s.life, s.body, d));
      Evolves(s, s1) && Evolves(s, s1.(life := Dispatched(s1.life, true)))
      && s1.life.handler == s.life.handler && Slot(Dispatched(s1.life, true).handler) == Slot(s.life.handler)
  {
  }

  /** The record s1 is stored, marked for dispatch if the body has ended, or dropped. */
  lemma KeepOrDropMoves(cfg: Config, c: Conn, c1: Conn, id: nat, s1: Stream, ends: bool, lengthOk: bool)
    requires PhasesOk(c) && id in c.streams && c1.streams == c.streams && c1.registered == c.registered
    requires c.lastStream == c1.lastStream && c1.semaphore == c.semaphore
    requires Evolves(c.streams[id], s1) && Evolves(c.streams[id], s1.(life := Dispatched(s1.life, true)))
    requires s1.life.handler == c.streams[id].life.handler && Slot(Dispatched(s1.life, true).handler) == Slot(s1.life.handler)
    ensures Moves(cfg, c, if ends && !lengthOk then Drop(c1, id, s1) else Put(c1, id, s1.(life := Dispatched(s1.life, ends))), id)
  {
    if ends && !lengthOk {
      DropMoves(cfg, c, c1, id, s1);
    } else {
      PutMoves(cfg, c, c1, id, s1.(life := Dispatched(s1.life, ends)));
    }
  }

  lemma StoreMoves(cfg: Config, c: Conn, d: Data, lengthOk: bool)
    requires PhasesOk(c) && d.id in c.streams && Receivable(c.streams[d.id].life.phase)
    ensures Moves(cfg, c, StoreData(cfg, c, d, lengthOk), d.id)
  {
    var s := c.streams[d.id];
    var c1 := c.(flow := if CreditedOnArrival(cfg, s.life) then CreditLate(Charge(c.flow, d.flow), d.flow) else Charge(c.flow, d.flow));
    var s1 := Stream(RemoteEnded(cfg, s.life, d.end), StoreFlow(cfg, s.life, s.flow, d), StoreBody(s.life, s.body, d));
    StoredEvolves(cfg, s, d);
    KeepOrDropMoves(cfg, c, c1, d.id, s1, d.end && !s.life.connect, lengthOk);
  }

  lemma AcquireMoves(cfg: Config, c: Conn, id: nat)
    requires PhasesOk(c)
    ensures Moves(cfg, c, Acquire(cfg, c, id), id)
  {
    if id !in c.streams || !c.streams[id].life.handler.Queued? {
      StaysMoves(cfg, c, c, id);
    } else {
      var s := c.streams[id];
      if c.semaphore < cfg.maxStreams {
        PutMoves(cfg, c, c.(semaphore := c.semaphore + 1), id, SetHandler(s, Claimed));
      } else if id in c.registered {
        DropMoves(cfg, c, c, id, SetHandler(s, Done(false)));
      } else {
        PutMoves(cfg, c, c, id, SetHandler(s, Done(false)));
      }
    }
  }

  lemma CloseOneMoves(cfg: Config, c: Conn, id: nat)
    requires PhasesOk(c)
    ensures Moves(cfg, c, CloseOne(c, id), id)
  {
    if id in c.closing && id in c.streams {
      PutMoves(cfg, c, c.(closing := c.closing - {id}), id, Abandon(c.streams[id]));
    } else {
      StaysMoves(cfg, c, c, id);
    }
  }

  lemma EndLocalMoves(cfg: Config, c: Conn, id: nat)
    requires PhasesOk(c)
    ensures Moves(cfg, c, EndLocal(c, id), id)
  {
    if id in c.streams {
      PutMoves(cfg, c, c, id, EndLocal(c, id).streams[id]);
    } else {
      StaysMoves(cfg, c, c, id);
    }
  }

  lemma FrameMoves(cfg: Config, c: Conn, e: Event)
    requires Inv(cfg, c) && OfFrame(e)
    ensures Moves(cfg, c, Step(cfg, c, e), Target(e))
  {
    if !Reading(c) {
      StaysMoves(cfg, c, c, Target(e));
    } else if e.HeadersEvent? {
      HeadersMoves(cfg, c, e.id, e.end, e.connect, e.admission);
    } else {
      DataMoves(cfg, c, e.data, e.granted, e.lengthOk);
    }
  }

  lemma ReaderEffect(cfg: Config, c: Conn, e: Event)
    requires OfReader(e)
    ensures var c' := Step(cfg, c, e);
      c' == c || (e.id in c.streams && e.id in c'.streams && c' == Put(c.(flow := c'.flow), e.id, c'.streams[e.id])
                  && c'.streams[e.id].life == c.streams[e.id].life && c'.streams[e.id].body.received == c.streams[e.id].body.received)
  {
  }

  lemma ReaderMoves(cfg: Config, c: Conn, e: Event)
    requires PhasesOk(c) && OfReader(e)
    ensures Moves(cfg, c, Step(cfg, c, e), Target(e))
  {
    var c' := Step(cfg, c, e);
    ReaderEffect(cfg, c, e);
    if c' == c {
      StaysMoves(cfg, c, c, e.id);
    } else {
      PutMoves(cfg, c, c.(flow := c'.flow), e.id, c'.streams[e.id]);
    }
  }

  lemma HandlerEffect(cfg: Config, c: Conn, e: Event)
    requires e.StartEvent? || e.BeginEvent? || e.ExitEvent?
    ensures var c' := Step(cfg, c, e);
      c' == c || (e.id in c.streams && e.id in c'.streams && c' == Put(c.(semaphore := c'.semaphore), e.id, c'.streams[e.id])
                  && var s, s' := c.streams[e.id], c'.streams[e.id];
                     && s'.life == s.life.(handler := s'.life.handler) && Rank(s.life.handler) <= Rank(s'.life.handler)
                     && s'.body.received == s.body.received
                     && c'.semaphore - c.semaphore == Slot(s'.life.handler) - Slot(s.life.handler) && c'.semaphore <= c.semaphore)
  {
  }

  lemma HandlerMoves(cfg: Config, c: Conn, e: Event)
    requires PhasesOk(c) && OfHandler(e)
    ensures Moves(cfg, c, Step(cfg, c, e), Target(e))
  {
    if e.AcquireEvent? {
      AcquireMoves(cfg, c, e.id);
    } else {
      StartedMoves(cfg, c, e);
    }
  }

  lemma StartedMoves(cfg: Config, c: Conn, e: Event)
    requires PhasesOk(c) && (e.StartEvent? || e.BeginEvent? || e.ExitEvent?)
    ensures Moves(cfg, c, Step(cfg, c, e), e.id)
  {
    var c' := Step(cfg, c, e);
    HandlerEffect(cfg, c, e);
    if c' == c {
      StaysMoves(cfg, c, c, e.id);
    } else {
      PutMoves(cfg, c, c.(semaphore := c'.semaphore), e.id, c'.streams[e.id]);
    }
  }

  lemma RecordMoves(cfg: Config, c: Conn, e: Event)
    requires PhasesOk(c) && (e.ResetEvent? || e.EndLocalEvent? || e.CloseOneEvent?)
    ensures Moves(cfg, c, Step(cfg, c, e), Target(e))
  {
    if e.ResetEvent? {
      ResetMoves(cfg, c, c, e.id);
    } else if e.EndLocalEvent? {
      EndLocalMoves(cfg, c, e.id);
    } else {
      CloseOneMoves(cfg, c, e.id);
    }
  }

  lemma RegistryMoves(cfg: Config, c: Conn, e: Event)
    requires PhasesOk(c) && !OfFrame(e) && !OfReader(e) && !OfHandler(e)
    ensures Moves(cfg, c, Step(cfg, c, e), Target(e))
  {
    if e.ResetEvent? || e.EndLocalEvent? || e.CloseOneEvent? {
      RecordMoves(cfg, c, e);
    } else {
      StaysMoves(cfg, c, Step(cfg, c, e), Target(e));
    }
  }

  lemma StepMoves(cfg: Config, c: Conn, e: Event)
    requires Inv(cfg, c)
    ensures Moves(cfg, c, Step(cfg, c, e), Target(e))
  {
    if OfFrame(e) {
      FrameMoves(cfg, c, e);
    } else if OfReader(e) {
      ReaderMoves(cfg, c, e);
    } else if OfHandler(e) {
      HandlerMoves(cfg, c, e);
    } else {
      RegistryMoves(cfg, c, e);
    }
  }

  // ---------------------------------------------------------------- the invariant

  ghost function Slots(c: Conn): set<nat> {
    set id | id in c.streams && HoldsSlot(c.streams[id].life.handler)
  }

  ghost predicate Inv(cfg: Config, c: Conn) {
    && PhasesOk(c)
    && c.registered <= c.streams.Keys && |c.registered| <= cfg.maxStreams
    && (forall id :: id in c.streams ==> id % 2 == 1 && id <= c.lastStream)
    && |Slots(c)| == c.semaphore <= cfg.maxStreams
  }

  lemma {:induction false} SubsetSize(a: set<nat>, b: set<nat>)
    requires a <= b
    ensures |a| <= |b|
    decreases a
  {
    if a != {} {
      var x :| x in a;
      SubsetSize(a - {x}, b - {x});
    }
  }

  lemma OneElementApart(a: set<nat>, b: set<nat>, id: nat)
    requires a - {id} == b - {id}
    ensures |b| - |a| == (if id in b then 1 else 0) - (if id in a then 1 else 0)
  {
    assert |a - {id}| == |a| - if id in a then 1 else 0;
    assert |b - {id}| == |b| - if id in b then 1 else 0;
  }

  lemma SlotsFollow(cfg: Config, c: Conn, c': Conn, id: nat)
    requires Moves(cfg, c, c', id)
    ensures |Slots(c')| - |Slots(c)| == c'.semaphore - c.semaphore
  {
    forall k | k != id ensures k in Slots(c') <==> k in Slots(c) { assert SameStream(c, c', k); }
    OneElementApart(Slots(c), Slots(c'), id);
  }

  lemma RegistryFollows(cfg: Config, c: Conn, c': Conn, id: nat)
    requires Moves(cfg, c, c', id) && c.registered <= c.streams.Keys && |c.registered| <= cfg.maxStreams
    ensures c'.registered <= c'.streams.Keys && |c'.registered| <= cfg.maxStreams
  {
    forall k | k in c'.registered ensures k in c'.streams { assert k != id ==> SameStream(c, c', k); }
    if id in c'.registered && id !in c.registered {
      SubsetSize(c'.registered, c.registered + {id});
    } else {
      assert c'.registered <= c.registered;
      SubsetSize(c'.registered, c.registered);
    }
  }

  lemma MovesKeepInv(cfg: Config, c: Conn, c': Conn, id: nat)
    requires Inv(cfg, c) && Moves(cfg, c, c', id)
    ensures Inv(cfg, c')
  {
    SlotsFollow(cfg, c, c', id);
    RegistryFollows(cfg, c, c', id);
    forall k | k in c'.streams ensures PhaseOk(c'.streams[k].life) && k % 2 == 1 && k <= c'.lastStream {
      assert k != id ==> SameStream(c, c', k);
    }
  }

  // ---------------------------------------------------------------- whole runs

  /** c' comes after c: streams have only moved forward, and what is registered was registered
      before or is newer than every earlier stream. */
  ghost predicate Later(c: Conn, c': Conn) {
    && c.lastStream <= c'.lastStream
    && (forall id :: id in c.streams ==> id in c'.streams && Evolves(c.streams[id], c'.streams[id]))
    && (forall id :: id in c'.registered ==> id in c.registered || id > c.lastStream)
  }

  lemma MovesIsLater(cfg: Config, c: Conn, c': Conn, id: nat)
    requires Inv(cfg, c) && Moves(cfg, c, c', id)
    ensures Later(c, c')
  {
    forall k | k in c.streams ensures k in c'.streams && Evolves(c.streams[k], c'.streams[k]) {
      assert k != id ==> SameStream(c, c', k);
    }
  }

  lemma LaterIsTransitive(a: Conn, b: Conn, c: Conn)
    requires Later(a, b) && Later(b, c)
    ensures Later(a, c)
  {
  }

  lemma StepKeepsInv(cfg: Config, c: Conn, e: Event)
    requires Inv(cfg, c)
    ensures Inv(cfg, Step(cfg, c, e)) && Later(c, Step(cfg, c, e))
  {
    StepMoves(cfg, c, e);
    MovesKeepInv(cfg, c, Step(cfg, c, e), Target(e));
    MovesIsLater(cfg, c, Step(cfg, c, e), Target(e));
  }

  lemma {:induction false} RunKeepsInv(cfg: Config, c: Conn, events: seq<Event>)
    requires Inv(cfg, c)
    ensures Inv(cfg, Run(cfg, c, events)) && Later(c, Run(cfg, c, events))
    decreases |events|
  {
    if |events| > 0 {
      var c' := Step(cfg, c, events[0]);
      StepKeepsInv(cfg, c, events[0]);
      RunKeepsInv(cfg, c', events[1..]);
      LaterIsTransitive(c, c', Run(cfg, c', events[1..]));
    }
  }

  /** At any two moments of any run: stream ids are odd and never re-registered, registered streams
      and running handlers respect the limit, states only move forward, a stream is closed exactly
      when both ends have ended it, and no body byte is accepted after the peer's END_STREAM. */
  lemma StreamLifecycle(cfg: Config, early: seq<Event>, late: seq<Event>, id: nat)
    ensures var c := Run(cfg, Fresh, early);
      var c' := Run(cfg, c, late);
      && |c'.registered| <= cfg.maxStreams && |Slots(c')| <= cfg.maxStreams
      && (id in c'.registered ==> id % 2 == 1 && (id in c.registered || id > c.lastStream))
      && (id in c'.streams ==> var l := c'.streams[id].life; (l.phase == Closed <==> l.ended && l.localEnded))
      && (id in c.streams ==> id in c'.streams && Evolves(c.streams[id], c'.streams[id]))
  {
    assert Slots(Fresh) == {};
    RunKeepsInv(cfg, Fresh, early);
    RunKeepsInv(cfg, Run(cfg, Fresh, early), late);
  }

  ghost function RankAt(c: Conn, id: nat): nat {
    if id in c.streams then Rank(c.streams[id].life.handler) else 0
  }

  /** How many times a handler goroutine starts for the stream. */
  ghost function HandlerStarts(cfg: Config, c: Conn, events: seq<Event>, id: nat): nat
    decreases |events|
  {
    if |events| == 0 then 0
    else
      var c' := Step(cfg, c, events[0]);
      (if RankAt(c, id) < 4 <= RankAt(c', id) && id in c'.streams && c'.streams[id].life.handler.Running? then 1 else 0)
      + HandlerStarts(cfg, c', events[1..], id)
  }

  /** Every stream gets at most one handler, however dispatch, resets and frames interleave. */
  lemma {:induction false} AtMostOneHandler(cfg: Config, c: Conn, events: seq<Event>, id: nat)
    requires Inv(cfg, c)
    ensures HandlerStarts(cfg, c, events, id) <= if RankAt(c, id) < 4 then 1 else 0
    decreases |events|
  {
    if |events| > 0 {
      var c' := Step(cfg, c, events[0]);
      StepKeepsInv(cfg, c, events[0]);
      AtMostOneHandler(cfg, c', events[1..], id);
    }
  }
}
