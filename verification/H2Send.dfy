/** Send-side flow control of an HTTP/2 connection (http2.go, the state behind flowMu), section
    6.9 of RFC 9113. Each locked region is one step; a run is any interleaving of SETTINGS,
    WINDOW_UPDATE, stream registration and removal, and handlers cutting DATA frames. */
module H2Send {
  import opened Ints
  import opened Sequences
  import opened Windows
  import Runs

  const MAX_WINDOW := 0x7fff_ffff

  /** window is the program's sendWindow. The other fields are history that no step reads: bytes
      granted by WINDOW_UPDATE, bytes debited, and the largest SETTINGS_INITIAL_WINDOW_SIZE in
      force while the stream was registered. */
  datatype Stream = Stream(window: int, granted: nat, debited: nat, peak: int)

  /** connGranted and connDebited are the same history for the connection window. */
  datatype State = State(connWindow: int, initial: int, maxFrame: nat, streams: map<nat, Stream>, lastStream: nat,
                         failed: bool, connGranted: nat, connDebited: nat)

  datatype Setting = Setting(id: nat, value: nat)

  datatype Event =
    | Settings(entries: seq<Setting>)
    | WindowUpdate(id: nat, increment: nat)
    | Open(id: nat)
    | Remove(id: nat)
    | Cut(id: nat, wanted: nat)

  const Initial := State(INITIAL_WINDOW, INITIAL_WINDOW, DEFAULT_FRAME, map[], 0, false, 0, 0)

  // ---------------------------------------------------------------- steps

  function Shift(s: Stream, initial: int, delta: int): Stream {
    s.(window := s.window + delta, peak := Max(s.peak, initial + delta))
  }

  predicate Overflows(s: State, delta: int) {
    exists id :: id in s.streams && s.streams[id].window + delta > MAX_WINDOW
  }

  /** One SETTINGS entry. A violation is a connection error, after which nothing is promised. */
  function ApplySetting(s: State, e: Setting): State {
    if e.id == 2 && e.value > 1 then s.(failed := true)
    else if e.id == 4 then
      var delta := e.value - s.initial;
      if e.value > MAX_WINDOW || Overflows(s, delta) then s.(failed := true)
      else s.(initial := e.value, streams := map id | id in s.streams :: Shift(s.streams[id], s.initial, delta))
    else if e.id == 5 then
      if e.value < DEFAULT_FRAME || e.value > FRAME_LIMIT - 1 then s.(failed := true) else s.(maxFrame := e.value)
    else s
  }

  function ApplySettings(s: State, entries: seq<Setting>): State
    decreases |entries|
  {
    if s.failed || |entries| == 0 then s else ApplySettings(ApplySetting(s, entries[0]), entries[1..])
  }

  function ApplyUpdate(s: State, id: nat, increment: nat): State {
    if increment == 0 then s.(failed := true)
    else if id == 0 then
      if s.connWindow + increment > MAX_WINDOW then s.(failed := true)
      else s.(connWindow := s.connWindow + increment, connGranted := s.connGranted + increment)
    else if id !in s.streams then (if id > s.lastStream then s.(failed := true) else s)
    else if s.streams[id].window + increment > MAX_WINDOW then s.(streams := s.streams - {id})  // RST_STREAM
    else
      var t := s.streams[id];
      s.(streams := s.streams[id := t.(window := t.window + increment, granted := t.granted + increment)])
  }

  /** The length of the DATA frame that a sender with `wanted` bytes left may cut; 0 means it waits. */
  function CutLength(s: State, id: nat, wanted: nat): (n: nat)
    requires id in s.streams
    ensures n <= wanted
    ensures n > 0 ==> n <= s.maxFrame && n <= s.connWindow && n <= s.streams[id].window
    ensures n == 0 <==> wanted == 0 || s.maxFrame == 0 || s.connWindow <= 0 || s.streams[id].window <= 0
  {
    var n := Min(Min(Min(wanted, s.maxFrame), s.connWindow), s.streams[id].window);
    if n < 0 then 0 else n
  }

  function Debit(s: State, id: nat, n: nat): State
    requires id in s.streams
  {
    var t := s.streams[id];
    s.(connWindow := s.connWindow - n, connDebited := s.connDebited + n,
       streams := s.streams[id := t.(window := t.window - n, debited := t.debited + n)])
  }

  function Step(s: State, e: Event): State {
    if s.failed then s
    else
      match e
      case Settings(entries) => ApplySettings(s, entries)
      case WindowUpdate(id, increment) => ApplyUpdate(s, id, increment)
      case Open(id) =>
        if id <= s.lastStream then s
        else s.(streams := s.streams[id := Stream(s.initial, 0, 0, s.initial)], lastStream := id)
      case Remove(id) => s.(streams := s.streams - {id})
      case Cut(id, wanted) => if id in s.streams then Debit(s, id, CutLength(s, id, wanted)) else s
  }

  // ---------------------------------------------------------------- the invariant

  ghost predicate StreamOk(s: State, t: Stream) {
    && t.window == s.initial + t.granted - t.debited
    && s.initial <= t.peak
    && s.initial - t.peak <= t.window <= MAX_WINDOW
  }

  ghost predicate Inv(s: State) {
    && s.connWindow == INITIAL_WINDOW + s.connGranted - s.connDebited
    && 0 <= s.connWindow <= MAX_WINDOW
    && 0 <= s.initial <= MAX_WINDOW
    && DEFAULT_FRAME <= s.maxFrame < FRAME_LIMIT
    && forall id :: id in s.streams ==> 0 < id <= s.lastStream && StreamOk(s, s.streams[id])
  }

  lemma SettingKeepsInv(s: State, e: Setting)
    requires Inv(s)
    ensures ApplySetting(s, e).failed || Inv(ApplySetting(s, e))
  {
  }

  lemma {:induction false} SettingsKeepInv(s: State, entries: seq<Setting>)
    requires Inv(s)
    ensures ApplySettings(s, entries).failed || Inv(ApplySettings(s, entries))
    decreases |entries|
  {
    if !s.failed && |entries| > 0 {
      SettingKeepsInv(s, entries[0]);
      var next := ApplySetting(s, entries[0]);
      if !next.failed { SettingsKeepInv(next, entries[1..]); }
    }
  }

  lemma DebitKeepsInv(s: State, id: nat, n: nat)
    requires Inv(s) && id in s.streams && (n == 0 || (n <= s.connWindow && n <= s.streams[id].window))
    ensures Inv(Debit(s, id, n))
  {
  }

  lemma StepKeepsInv(s: State, e: Event)
    requires Inv(s)
    ensures Step(s, e).failed || Inv(Step(s, e))
  {
    if e.Settings? { SettingsKeepInv(s, e.entries); }
  }

  function Run(s: State, events: seq<Event>): State {
    Runs.Run(Step, s, events)
  }

  lemma {:induction false} RunKeepsInv(s: State, events: seq<Event>)
    requires s.failed || Inv(s)
    ensures Run(s, events).failed || Inv(Run(s, events))
    decreases |events|
  {
    if |events| > 0 {
      if !s.failed { StepKeepsInv(s, events[0]); }
      RunKeepsInv(Step(s, events[0]), events[1..]);
    }
  }

  /** In every run that has not ended in a connection error: both windows account exactly for
      grants and debits, the connection window stays in [0, 2^31-1], a stream window is negative
      only when the peer lowered its initial window during the stream's life, and the next DATA
      frame fits both windows, the peer's frame limit and the 24-bit length field. */
  lemma SendFlowControl(events: seq<Event>, id: nat, wanted: nat)
    requires !Run(Initial, events).failed
    ensures var s := Run(Initial, events);
      && s.connWindow == INITIAL_WINDOW + s.connGranted - s.connDebited && 0 <= s.connWindow <= MAX_WINDOW
      && (id in s.streams ==>
            var t := s.streams[id];
            && t.window == s.initial + t.granted - t.debited && t.window <= MAX_WINDOW
            && (t.window < 0 ==> s.initial < t.peak)
            && var n := CutLength(s, id, wanted);
               n <= s.maxFrame < FRAME_LIMIT && (n > 0 ==> n <= s.connWindow && n <= t.window))
  {
    RunKeepsInv(Initial, events);
  }

  // ---------------------------------------------------------------- one sender in a run

  datatype DataFrame<T> = DataFrame(payload: seq<T>, endStream: bool)

  /** What a sendData call leaves: the state, the frames written, the data not sent, and how many
      wake-ups found a window closed. */
  datatype Sent<T> = Sent(state: State, frames: seq<DataFrame<T>>, left: seq<T>, waits: nat)

  /** sendData, one pass per wake-up, each preceded by any number of steps of the other goroutines. */
  ghost function Send<T>(s: State, id: nat, data: seq<T>, end: bool, others: seq<seq<Event>>): Sent<T>
    decreases |others|
  {
    if |data| == 0 || |others| == 0 then Sent(s, [], data, 0)
    else
      var s1 := Run(s, others[0]);
      if s1.failed || id !in s1.streams then Sent(s1, [], data, 0)
      else
        var n := CutLength(s1, id, |data|);
        if n == 0 then
          var r := Send(s1, id, data, end, others[1..]);
          r.(waits := r.waits + 1)
        else
          var r := Send(Debit(s1, id, n), id, data[n..], end, others[1..]);
          r.(frames := [DataFrame(data[..n], end && n == |data|)] + r.frames)
  }

  ghost function Payload<T>(frames: seq<DataFrame<T>>): seq<T> {
    if |frames| == 0 then [] else frames[0].payload + Payload(frames[1..])
  }

  /** Whatever the other goroutines do: the frames carry the data in order with nothing lost; each
      is non-empty and fits the 24-bit length; END_STREAM is on the last frame, and only when all was
      sent; a call that ends early with stream and connection alive used up every wake-up. */
  lemma {:induction false} SendDeliversInOrder<T>(s: State, id: nat, data: seq<T>, end: bool, others: seq<seq<Event>>)
    requires Inv(s)
    ensures var r := Send(s, id, data, end, others);
      && Payload(r.frames) + r.left == data
      && (forall i :: 0 <= i < |r.frames| ==> 0 < |r.frames[i].payload| < FRAME_LIMIT)
      && (forall i :: 0 <= i < |r.frames| ==> (r.frames[i].endStream <==> end && r.left == [] && i == |r.frames| - 1))
      && (|r.left| > 0 && !r.state.failed && id in r.state.streams ==> |r.frames| + r.waits == |others|)
      && (r.state.failed || Inv(r.state))
    decreases |others|
  {
    if |data| > 0 && |others| > 0 {
      RunKeepsInv(s, others[0]);
      var s1 := Run(s, others[0]);
      if !s1.failed && id in s1.streams {
        var n := CutLength(s1, id, |data|);
        DebitKeepsInv(s1, id, n);
        SendDeliversInOrder(Debit(s1, id, n), id, data[n..], end, others[1..]);
        var r := Send(Debit(s1, id, n), id, data[n..], end, others[1..]);
        if n == 0 {
          assert data[n..] == data && Debit(s1, id, 0) == s1;
        } else {
          SentOneMore(data, n, r.frames, r.left, end);
        }
      }
    }
  }

  /** One pass of the loop. */
  lemma SendStep<T>(s: State, s1: State, id: nat, data: seq<T>, end: bool, others: seq<seq<Event>>, n: nat, r: Sent<T>, next: Sent<T>)
    requires |data| > 0 && |others| > 0 && s1 == Run(s, others[0]) && !s1.failed && id in s1.streams
    requires n == CutLength(s1, id, |data|) && r == Send(s, id, data, end, others)
    requires next == Send(if n == 0 then s1 else Debit(s1, id, n), id, if n == 0 then data else data[n..], end, others[1..])
    ensures r.state == next.state && r.left == next.left
    ensures r.frames == if n == 0 then next.frames else [DataFrame(data[..n], end && n == |data|)] + next.frames
  {
  }

  lemma SentOneMore<T>(data: seq<T>, n: nat, frames: seq<DataFrame<T>>, left: seq<T>, end: bool)
    requires 0 < n <= |data| && Payload(frames) + left == data[n..]
    ensures Payload([DataFrame(data[..n], end && n == |data|)] + frames) + left == data
  {
    var all := [DataFrame(data[..n], end && n == |data|)] + frames;
    assert all[1..] == frames;
    assert data[..n] + (Payload(frames) + left) == data;
  }

  // ---------------------------------------------------------------- the connection object

  class Sender {
    var connSendWindow: int
    var peerInitialWindow: int
    var peerMaxFrame: nat
    var streams: map<nat, Stream>
    var lastStream: nat
    var closed: bool
    var connGranted: nat   // history, as in State
    var connDebited: nat

    ghost function View(): State
      reads this
    {
      State(connSendWindow, peerInitialWindow, peerMaxFrame, streams, lastStream, closed, connGranted, connDebited)
    }

    constructor ()
      ensures View() == Initial && Inv(View())
    {
      connSendWindow, peerInitialWindow, peerMaxFrame := INITIAL_WINDOW, INITIAL_WINDOW, DEFAULT_FRAME;
      streams, lastStream, closed := map[], 0, false;
      connGranted, connDebited := 0, 0;
    }

    /** The loop over the registered streams, in whatever order the map yields them. */
    method ShiftStreams(delta: int) returns (ok: bool)
      modifies this`streams
      ensures ok <==> !Overflows(old(View()), delta)
      ensures ok ==> streams == map id | id in old(streams) :: Shift(old(streams)[id], peerInitialWindow, delta)
    {
      ghost var was := streams;
      var todo := streams.Keys;
      while todo != {}
        invariant todo <= was.Keys == streams.Keys
        invariant forall id :: id in was && id in todo ==> streams[id] == was[id]
        invariant forall id :: id in was && id !in todo ==>
          streams[id] == Shift(was[id], peerInitialWindow, delta) && was[id].window + delta <= MAX_WINDOW
        decreases |todo|
      {
        var id :| id in todo;
        streams := streams[id := Shift(streams[id], peerInitialWindow, delta)];
        if streams[id].window > MAX_WINDOW { return false; }
        todo := todo - {id};
      }
      return true;
    }

    /** Applies one SETTINGS frame; a violation closes the connection. */
    method HandleSettings(entries: seq<Setting>)
      requires !closed && Inv(View())
      modifies this
      ensures closed <==> Step(old(View()), Settings(entries)).failed
      ensures !closed ==> View() == Step(old(View()), Settings(entries)) && Inv(View())
    {
      ghost var was := View();
      SettingsKeepInv(was, entries);
      for i := 0 to |entries|
        invariant !closed && ApplySettings(was, entries) == ApplySettings(View(), entries[i..])
      {
        var id, value := entries[i].id, entries[i].value;
        assert entries[i..][1..] == entries[i + 1..];
        ghost var before := View();
        if id == 2 {
          if value > 1 { closed := true; return; }
        } else if id == 4 {
          if value > MAX_WINDOW { closed := true; return; }
          var delta := value - peerInitialWindow;
          var ok := ShiftStreams(delta);
          if !ok { closed := true; return; }
          peerInitialWindow := value;
        } else if id == 5 {
          if value < DEFAULT_FRAME || value > FRAME_LIMIT - 1 { closed := true; return; }
          peerMaxFrame := value;
        }
        assert View() == ApplySetting(before, entries[i]);
      }
    }

    /** One WINDOW_UPDATE; an overflowing stream is reset, any other violation closes the connection.
        Unless it closes, every window still accounts for grants and debits within 2^31-1, and only
        the addressed one has grown, by the increment. */
    method HandleWindowUpdate(id: nat, increment: nat)
      requires !closed && Inv(View())
      modifies this
      ensures View() == Step(old(View()), WindowUpdate(id, increment))
      ensures !closed ==> Inv(View()) && connSendWindow == old(connSendWindow) + if id == 0 then increment else 0
      ensures !closed ==> streams.Keys <= old(streams).Keys && old(streams).Keys <= streams.Keys + {id}
      ensures !closed ==> forall k :: k in streams ==> streams[k].window == old(streams)[k].window + if k == id then increment else 0
      ensures closed <==> increment == 0 || (id == 0 && old(connSendWindow) + increment > MAX_WINDOW) || id > lastStream
    {
      StepKeepsInv(View(), WindowUpdate(id, increment));
      if increment == 0 { closed := true; return; }
      if id == 0 {
        if connSendWindow + increment > MAX_WINDOW { closed := true; return; }
        connSendWindow, connGranted := connSendWindow + increment, connGranted + increment;
      } else if id !in streams {
        if id > lastStream { closed := true; }
      } else {
        var t := streams[id];
        if t.window + increment > MAX_WINDOW {
          streams := streams - {id};
        } else {
          streams := streams[id := t.(window := t.window + increment, granted := t.granted + increment)];
        }
      }
    }

    /** Anything other goroutines do between two locked regions of a sender. */
    method Interleave(events: seq<Event>)
      modifies this
      ensures View() == Run(old(View()), events)
    {
      var s := Run(State(connSendWindow, peerInitialWindow, peerMaxFrame, streams, lastStream, closed, connGranted, connDebited), events);
      connSendWindow, peerInitialWindow, peerMaxFrame := s.connWindow, s.initial, s.maxFrame;
      streams, lastStream, closed := s.streams, s.lastStream, s.failed;
      connGranted, connDebited := s.connGranted, s.connDebited;
    }

    /** The region of sendData under flowMu: how much may be cut now, debited from both windows. */
    method CutFrame(id: nat, wanted: nat) returns (n: nat)
      requires id in streams
      modifies this
      ensures n == CutLength(old(View()), id, wanted)
      ensures View() == if n == 0 then old(View()) else Debit(old(View()), id, n)
    {
      if connSendWindow <= 0 || streams[id].window <= 0 { return 0; }
      n := Min(wanted, peerMaxFrame);
      n := Min(n, connSendWindow);
      n := Min(n, streams[id].window);
      if n == 0 { return; }
      var t := streams[id];
      connSendWindow, connDebited := connSendWindow - n, connDebited + n;
      streams := streams[id := t.(window := t.window - n, debited := t.debited + n)];
    }

    /** sendData; ending a stream with nothing to send is one empty frame. */
    method SendData<T>(id: nat, data: seq<T>, end: bool, others: seq<seq<Event>>)
      returns (frames: seq<DataFrame<T>>, left: seq<T>)
      requires !closed && Inv(View())
      modifies this
      ensures Payload(frames) + left == data && (closed || Inv(View()))
      ensures if |data| == 0 && end then frames == [DataFrame([], true)] && left == [] && View() == old(View())
              else var r := Send(old(View()), id, data, end, others);
                   View() == r.state && frames == r.frames && left == r.left
    {
      if |data| == 0 && end {
        assert [DataFrame(data, true)][1..] == [];
        return [DataFrame([], true)], [];
      }
      SendDeliversInOrder(View(), id, data, end, others);
      frames, left := SendLoop(id, data, end, others);
    }

    /** One wake-up: the others have done something, and a frame is cut if the stream is still there. */
    method WakeUp(id: nat, wanted: nat, events: seq<Event>) returns (alive: bool, n: nat)
      modifies this
      ensures var s1 := Run(old(View()), events);
        if alive then
          && !s1.failed && id in s1.streams && n == CutLength(s1, id, wanted) && View() == if n == 0 then s1 else Debit(s1, id, n)
        else (s1.failed || id !in s1.streams) && View() == s1
    {
      Interleave(events);
      alive, n := !closed && id in streams, 0;
      if alive { n := CutFrame(id, wanted); }
    }

    /** One pass of the loop: what is left to send, and the frame that was cut, if any. */
    method Pass<T>(id: nat, data: seq<T>, end: bool, others: seq<seq<Event>>)
      returns (alive: bool, frames: seq<DataFrame<T>>, left: seq<T>)
      requires |data| > 0 && |others| > 0
      modifies this
      ensures var r := Send(old(View()), id, data, end, others);
        if alive then
          var next := Send(View(), id, left, end, others[1..]);
          r.state == next.state && r.left == next.left && r.frames == frames + next.frames
        else r.state == View() && r.left == left && r.frames == frames == []
    {
      var n;
      ghost var s0 := View();
      alive, n := WakeUp(id, |data|, others[0]);
      frames, left := [], data;
      if !alive { return; }
      ghost var next := Send(View(), id, if n == 0 then data else data[n..], end, others[1..]);
      SendStep(s0, Run(s0, others[0]), id, data, end, others, n, Send(s0, id, data, end, others), next);
      if n > 0 { frames, left := [DataFrame(data[..n], end && n == |data|)], data[n..]; }
    }

    method SendLoop<T>(id: nat, data: seq<T>, end: bool, others: seq<seq<Event>>)
      returns (frames: seq<DataFrame<T>>, left: seq<T>)
      modifies this
      ensures var r := Send(old(View()), id, data, end, others); View() == r.state && frames == r.frames && left == r.left
    {
      frames, left := [], data;
      ghost var goal := Send(View(), id, data, end, others);
      ghost var rest := goal;
      var todo := others;
      while |left| > 0 && |todo| > 0
        invariant rest == Send(View(), id, left, end, todo)
        invariant goal.state == rest.state && goal.frames == frames + rest.frames && goal.left == rest.left
        decreases |todo|
      {
        var alive, cut;
        alive, cut, left := Pass(id, left, end, todo);
        if !alive { return; }
        todo := todo[1..];
        rest := Send(View(), id, left, end, todo);
        Assoc(frames, cut, rest.frames);
        frames := frames + cut;
      }
    }
  }
}
