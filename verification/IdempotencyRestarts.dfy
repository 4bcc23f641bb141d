/** What a restart of the idempotency store brings back that memory no longer had, over whole runs. */
module IdempotencyRestarts {
  import opened Options
  import opened Idempotency

  /** The last line of a key that was not written by an abort. */
  function LastKept(log: seq<Line>, key: string): Option<Record> {
    if |log| == 0 then None
    else if log[|log| - 1].Entry? && log[|log| - 1].rec.key == key && !log[|log| - 1].rec.state.Aborted? then Some(log[|log| - 1].rec)
    else LastKept(log[..|log| - 1], key)
  }

  function Live(r: Option<Record>, t: int): Option<Record> {
    if r.Some? && !ExpiredAt(r.value, t) then r else None
  }

  // ---------------------------------------------------------------- keys that were dropped

  /** Begin writes a line: there is no record, or it has lapsed. */
  predicate Writes(s: Store, key: string, hash: string, now: int) {
    !s.failed && (key !in s.records || Lapsed(s, s.records[key], hash, now))
  }

  predicate Aborts(s: Store, key: string, hash: string) {
    !s.failed && key in s.records && s.records[key].hash == hash && s.records[key].state.Processing?
  }

  /** The keys that an abort, or a Begin whose write failed, has taken from memory since they were
      last answered New or the store was last opened. */
  function Drop(s: Store, dropped: set<string>, e: Event): set<string> {
    match e
    case BeginEvent(key, hash, now, w) =>
      if !Writes(s, key, hash, now) then dropped else if w.Written? then dropped - {key} else dropped + {key}
    case AbortEvent(key, hash, _, _) => if Aborts(s, key, hash) then dropped + {key} else dropped
    case ReopenEvent(_) => {}
    case _ => dropped
  }

  function Dropped(s: Store, dropped: set<string>, events: seq<Event>): set<string>
    decreases |events|
  {
    if |events| == 0 then dropped else Dropped(Step(s, events[0]), Drop(s, dropped, events[0]), events[1..])
  }

  // ---------------------------------------------------------------- the invariant

  /** Reading the log at t yields the last kept line if it has not expired; it expires last of all. */
  ghost predicate Mirrors(s: Store, key: string, t: int) {
    LiveEntry(s.log, key, t) == Live(LastKept(s.log, key), t)
  }

  ghost predicate Bounded(s: Store, key: string, now: int) {
    LastKept(s.log, key).Some? ==> LastKept(s.log, key).value.expires.Some? && LastKept(s.log, key).value.expires.value <= now + s.ttl
  }

  /** The record in memory expires with the last kept line, and is that line unless a write has failed. */
  ghost predicate Backed(s: Store, key: string) {
    key in s.records ==>
      && s.records[key].key == key && !s.records[key].state.Aborted?
      && LastKept(s.log, key).Some? && LastKept(s.log, key).value.expires == s.records[key].expires
      && (!s.failed ==> LastKept(s.log, key).value == s.records[key])
  }

  predicate AllReadable(log: seq<Line>) {
    forall i :: 0 <= i < |log| ==> Readable(log[i])
  }

  /** A key that is neither in memory nor dropped has no line that counts. */
  ghost predicate Accounted(s: Store, dropped: set<string>, key: string, now: int) {
    (key in s.records ==> key !in dropped) && (key !in s.records && key !in dropped && AllReadable(s.log) ==> Live(LastKept(s.log, key), now).None?)
  }

  ghost predicate KeyOk(s: Store, dropped: set<string>, key: string, now: int) {
    Bounded(s, key, now) && Backed(s, key) && Accounted(s, dropped, key, now)
  }

  ghost predicate Inv(s: Store, dropped: set<string>, now: int) {
    (forall key, t :: t >= now ==> Mirrors(s, key, t)) && forall key :: KeyOk(s, dropped, key, now)
  }

  lemma KeptSnoc(log: seq<Line>, l: Line, key: string)
    ensures LastKept(log + [l], key) == if l.Entry? && l.rec.key == key && !l.rec.state.Aborted? then Some(l.rec) else LastKept(log, key)
  {
    assert (log + [l])[..|log|] == log;
  }

  /** A line that expires no earlier than the one it replaces. */
  lemma MirrorsAppend(s: Store, s1: Store, l: Line, key: string, t: int)
    requires Mirrors(s, key, t) && s1.log == s.log + [l]
    requires l.Entry? && l.rec.key == key && l.rec.state.Aborted? ==> ExpiredAt(l.rec, t)
    requires l.Entry? && l.rec.key == key && !l.rec.state.Aborted? && LastKept(s.log, key).Some? ==>
      l.rec.expires.Some? && LastKept(s.log, key).value.expires.Some? && LastKept(s.log, key).value.expires.value <= l.rec.expires.value
    ensures Mirrors(s1, key, t)
  {
    LiveSnoc(s.log, l, key, t);
    KeptSnoc(s.log, l, key);
  }

  lemma ReadableBefore(log: seq<Line>, l: Line)
    requires AllReadable(log + [l])
    ensures AllReadable(log)
  {
    assert forall i :: 0 <= i < |log| ==> log[i] == (log + [l])[i];
  }

  predicate Lands(w: Write) {
    w.Written? || w.FailedUnsynced?
  }

  /** A line that an operation appends, or tries to. */
  lemma LogGrows(s: Store, s1: Store, rec: Record, w: Write, key: string, now: int)
    requires (forall t :: t >= now ==> Mirrors(s, key, t)) && Bounded(s, key, now) && s1.log == Append(s, rec, w).log && s1.ttl == s.ttl
    requires rec.state.Aborted? ==> ExpiredAt(rec, now)
    requires !rec.state.Aborted? && rec.key == key ==>
      && rec.expires.Some? && rec.expires.value <= now + s.ttl
      && (LastKept(s.log, key).Some? ==> LastKept(s.log, key).value.expires.value <= rec.expires.value)
    ensures (forall t :: t >= now ==> Mirrors(s1, key, t)) && Bounded(s1, key, now) && (AllReadable(s1.log) ==> AllReadable(s.log))
    ensures LastKept(s1.log, key) == if rec.key == key && !rec.state.Aborted? && Lands(w) then Some(rec) else LastKept(s.log, key)
  {
    if w.FailedClean? {
      forall t | t >= now ensures Mirrors(s1, key, t) { assert Mirrors(s, key, t); }
    } else {
      var l := if w.FailedTorn? then Broken else Entry(rec, w.size);
      assert s1.log == s.log + [l];
      forall t | t >= now ensures Mirrors(s1, key, t) { assert Mirrors(s, key, t); MirrorsAppend(s, s1, l, key, t); }
      KeptSnoc(s.log, l, key);
      if AllReadable(s1.log) { ReadableBefore(s.log, l); }
    }
  }

  // ---------------------------------------------------------------- steps

  lemma TimePasses(s: Store, dropped: set<string>, now: int, later: int)
    requires Inv(s, dropped, now) && now <= later
    ensures Inv(s, dropped, later)
  {
    forall key ensures KeyOk(s, dropped, key, later) { assert KeyOk(s, dropped, key, now); }
  }

  lemma BeginInv(s: Store, dropped: set<string>, key: string, hash: string, now: int, w: Write)
    requires Inv(s, dropped, now) && Writes(s, key, hash, now)
    ensures Inv(Begin(s, key, hash, now, w).0, if w.Written? then dropped - {key} else dropped + {key}, now)
  {
    var rec, s1, d1 := Fresh(s, key, hash, now), Begin(s, key, hash, now, w).0, if w.Written? then dropped - {key} else dropped + {key};
    assert s1.log == Append(s, rec, w).log;
    forall k, t | t >= now ensures Mirrors(s1, k, t) {
      assert KeyOk(s, dropped, k, now);
      LogGrows(s, s1, rec, w, k, now);
    }
    forall k ensures KeyOk(s1, d1, k, now) {
      assert KeyOk(s, dropped, k, now);
      LogGrows(s, s1, rec, w, k, now);
    }
  }

  lemma CompleteInv(s: Store, dropped: set<string>, key: string, hash: string, payload: string, now: int, w: Write)
    requires Inv(s, dropped, now) && !s.failed && key in s.records && s.records[key].hash == hash
    ensures Inv(Complete(s, key, hash, payload, now, w), dropped, now)
  {
    var rec, s1 := s.records[key].(state := Completed, payload := payload, updated := now), Complete(s, key, hash, payload, now, w);
    assert KeyOk(s, dropped, key, now);
    forall k, t | t >= now ensures Mirrors(s1, k, t) {
      assert KeyOk(s, dropped, k, now);
      LogGrows(s, s1, rec, w, k, now);
    }
    forall k ensures KeyOk(s1, dropped, k, now) {
      assert KeyOk(s, dropped, k, now);
      LogGrows(s, s1, rec, w, k, now);
    }
  }

  lemma AbortInv(s: Store, dropped: set<string>, key: string, hash: string, now: int, w: Write)
    requires Inv(s, dropped, now) && Aborts(s, key, hash)
    ensures Inv(Abort(s, key, hash, now, w), dropped + {key}, now)
  {
    var rec, s1 := s.records[key].(state := Aborted, updated := now, expires := Some(now)), Abort(s, key, hash, now, w);
    assert s1.log == Append(s, rec, w).log;
    forall k, t | t >= now ensures Mirrors(s1, k, t) {
      assert KeyOk(s, dropped, k, now);
      LogGrows(s, s1, rec, w, k, now);
    }
    forall k ensures KeyOk(s1, dropped + {key}, k, now) {
      assert KeyOk(s, dropped, k, now);
      LogGrows(s, s1, rec, w, k, now);
    }
  }

  lemma PurgeInv(s: Store, dropped: set<string>, now: int)
    requires Inv(s, dropped, now)
    ensures Inv(Purge(s, now), dropped, now)
  {
    forall k, t | t >= now ensures Mirrors(Purge(s, now), k, t) { assert Mirrors(s, k, t); }
    forall k ensures KeyOk(Purge(s, now), dropped, k, now) { assert KeyOk(s, dropped, k, now); }
  }

  lemma ReopenInv(s: Store, dropped: set<string>, now: int)
    requires Inv(s, dropped, now)
    ensures Inv(Reopen(s, now), {}, now)
  {
    var s1 := Reopen(s, now);
    LoadSucceedsIff(s.log, now);
    forall k, t | t >= now ensures Mirrors(s1, k, t) { assert Mirrors(s, k, t); }
    forall k ensures KeyOk(s1, {}, k, now) {
      assert KeyOk(s, dropped, k, now) && Mirrors(s, k, now);
      LoadFindsLive(s.log, now, k);
      KeptHasKey(s.log, k);
    }
  }

  lemma {:induction false} KeptHasKey(log: seq<Line>, key: string)
    ensures LastKept(log, key).Some? ==> LastKept(log, key).value.key == key && !LastKept(log, key).value.state.Aborted?
    decreases |log|
  {
    if |log| > 0 { KeptHasKey(log[..|log| - 1], key); }
  }

  lemma StepInv(s: Store, dropped: set<string>, e: Event, now: int)
    requires Inv(s, dropped, now) && now <= e.now
    ensures Inv(Step(s, e), Drop(s, dropped, e), e.now)
  {
    TimePasses(s, dropped, now, e.now);
    match e {
      case BeginEvent(key, hash, t, w) => if Writes(s, key, hash, t) { BeginInv(s, dropped, key, hash, t, w); }
      case CompleteEvent(key, hash, payload, t, w) =>
        if !s.failed && key in s.records && s.records[key].hash == hash { CompleteInv(s, dropped, key, hash, payload, t, w); }
      case AbortEvent(key, hash, t, w) => if Aborts(s, key, hash) { AbortInv(s, dropped, key, hash, t, w); }
      case PurgeEvent(t) => PurgeInv(s, dropped, t);
      case ReopenEvent(t) => ReopenInv(s, dropped, t);
    }
  }

  lemma {:induction false} RunInv(s: Store, dropped: set<string>, now: int, events: seq<Event>)
    requires Inv(s, dropped, now) && Monotone(now, events)
    ensures Inv(Run(s, events), Dropped(s, dropped, events), TimeAfter(now, events))
    decreases |events|
  {
    if |events| > 0 {
      StepInv(s, dropped, events[0], now);
      RunInv(Step(s, events[0]), Drop(s, dropped, events[0]), events[0].now, events[1..]);
    }
  }

  // ---------------------------------------------------------------- whole runs

  function Empty(ttl: int, timeout: int): Store {
    Store(map[], [], false, ttl, timeout)
  }

  /** In every run with a clock that does not go back: a restart at t brings back a key that memory does
      not have if and only if an abort, or a Begin whose write failed, took it away, and its last line
      not written by an abort has not expired; and then it brings back the record of that line. */
  lemma RevivedIff(ttl: int, timeout: int, now: int, events: seq<Event>, key: string, t: int)
    requires Monotone(now, events) && t >= TimeAfter(now, events)
    requires var s := Run(Empty(ttl, timeout), events); Load(s.log, t).Some? && key !in s.records
    ensures var s := Run(Empty(ttl, timeout), events);
      && (key in Load(s.log, t).value <==> key in Dropped(Empty(ttl, timeout), {}, events) && Live(LastKept(s.log, key), t).Some?)
      && (key in Load(s.log, t).value ==> Some(Load(s.log, t).value[key]) == LastKept(s.log, key))
  {
    var s, d := Run(Empty(ttl, timeout), events), Dropped(Empty(ttl, timeout), {}, events);
    var end := TimeAfter(now, events);
    RunInv(Empty(ttl, timeout), {}, now, events);
    LoadFindsLive(s.log, t, key);
    LoadSucceedsIff(s.log, t);
    assert Mirrors(s, key, t) && KeyOk(s, d, key, end);
  }

  /** A record that is purged after any such run is never brought back. */
  lemma PurgedStaysGone(ttl: int, timeout: int, now: int, events: seq<Event>, purge: int, key: string, t: int)
    requires Monotone(now, events) && TimeAfter(now, events) <= purge <= t
    requires var s := Run(Empty(ttl, timeout), events); key in s.records && key !in Purge(s, purge).records
    ensures var s := Run(Empty(ttl, timeout), events); Load(s.log, t).Some? ==> key !in Load(s.log, t).value
  {
    var s, d := Run(Empty(ttl, timeout), events), Dropped(Empty(ttl, timeout), {}, events);
    RunInv(Empty(ttl, timeout), {}, now, events);
    LoadFindsLive(s.log, t, key);
    assert Mirrors(s, key, t) && KeyOk(s, d, key, TimeAfter(now, events));
  }
}
