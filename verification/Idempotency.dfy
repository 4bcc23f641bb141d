/** The idempotency store of reliability.go: a map of records, written ahead to an append-only log,
    and the reload of that log. */
module Idempotency {
  import opened Options
  import Runs

  const MAX_LINE := 0x4_0000
  const DEFAULT_TIMEOUT := 60

  datatype State = Processing | Completed | Aborted

  /** expires None is the zero time: never. */
  datatype Record = Record(key: string, hash: string, state: State, payload: string, updated: int, expires: Option<int>)

  /** A line of the log: a record with its length in bytes, or text that is not a record. */
  datatype Line = Entry(rec: Record, size: nat) | Broken

  /** What a write did: the line is there and synced; or it failed and left nothing, a fragment, or
      the whole line unsynced. */
  datatype Write = Written(size: nat) | FailedClean | FailedTorn | FailedUnsynced(size: nat)

  datatype Store = Store(records: map<string, Record>, log: seq<Line>, failed: bool, ttl: int, timeout: int)

  datatype Decision = New(rec: Record) | Replay(rec: Record) | Conflict(rec: Record) | InProgress(rec: Record) | Refused

  // ---------------------------------------------------------------- operations

  /** appendLocked */
  function Append(s: Store, rec: Record, w: Write): Store {
    match w
    case Written(n) => s.(log := s.log + [Entry(rec, n)])
    case FailedClean => s.(failed := true)
    case FailedTorn => s.(log := s.log + [Broken], failed := true)
    case FailedUnsynced(n) => s.(log := s.log + [Entry(rec, n)], failed := true)
  }

  predicate ExpiredBefore(r: Record, now: int) {
    r.expires.Some? && r.expires.value < now
  }

  function Timeout(s: Store): int {
    if s.timeout <= 0 then DEFAULT_TIMEOUT else s.timeout
  }

  predicate TimedOut(s: Store, r: Record, now: int) {
    r.state.Processing? && now - r.updated > Timeout(s)
  }

  /** The record no longer stands in the way of a new request. */
  predicate Lapsed(s: Store, r: Record, hash: string, now: int) {
    ExpiredBefore(r, now) || (r.hash == hash && TimedOut(s, r, now))
  }

  function Answer(r: Record, hash: string): Decision {
    if r.hash != hash then Conflict(r) else if r.state.Completed? then Replay(r) else InProgress(r)
  }

  function Fresh(s: Store, key: string, hash: string, now: int): Record {
    Record(key, hash, Processing, "", now, Some(now + s.ttl))
  }

  function Begin(s: Store, key: string, hash: string, now: int, w: Write): (Store, Decision) {
    if s.failed then (s, Refused)
    else if key in s.records && !Lapsed(s, s.records[key], hash, now) then (s, Answer(s.records[key], hash))
    else
      var rec := Fresh(s, key, hash, now);
      var s1 := Append(s.(records := s.records - {key}), rec, w);
      if s1.failed then (s1, Refused) else (s1.(records := s1.records[key := rec]), New(rec))
  }

  function Complete(s: Store, key: string, hash: string, payload: string, now: int, w: Write): Store {
    if s.failed || key !in s.records || s.records[key].hash != hash then s
    else
      var rec := s.records[key].(state := Completed, payload := payload, updated := now);
      var s1 := Append(s, rec, w);
      if s1.failed then s1 else s1.(records := s1.records[key := rec])
  }

  function Abort(s: Store, key: string, hash: string, now: int, w: Write): Store {
    if s.failed || key !in s.records || s.records[key].hash != hash || !s.records[key].state.Processing? then s
    else
      var rec := s.records[key].(state := Aborted, updated := now, expires := Some(now));
      Append(s.(records := s.records - {key}), rec, w)
  }

  predicate ExpiredAt(r: Record, now: int) {
    r.expires.Some? && r.expires.value <= now
  }

  function Purge(s: Store, now: int): Store {
    s.(records := map k | k in s.records && !ExpiredAt(s.records[k], now) :: s.records[k])
  }

  /** load: every line whose record is not yet expired replaces what was there for its key. A line
      that is not a record, has no key or is too long for the scanner makes the load fail. */
  function Load(log: seq<Line>, now: int): Option<map<string, Record>> {
    if |log| == 0 then Some(map[])
    else
      var m := Load(log[..|log| - 1], now);
      var l := log[|log| - 1];
      if m.None? || !Readable(l) then None
      else if ExpiredAt(l.rec, now) then m
      else Some(m.value[l.rec.key := l.rec])
  }

  predicate Readable(l: Line) {
    l.Entry? && l.rec.key != "" && l.size < MAX_LINE
  }

  /** The process ends and the store is opened again; if the load fails there is no store. */
  function Reopen(s: Store, now: int): Store {
    var m := Load(s.log, now);
    if m.None? then s.(records := map[], failed := true) else s.(records := m.value, failed := false)
  }

  // ---------------------------------------------------------------- the write-ahead invariant

  /** The last line of the log for a key. */
  function LastEntry(log: seq<Line>, key: string): Option<Record> {
    if |log| == 0 then None
    else if log[|log| - 1].Entry? && log[|log| - 1].rec.key == key then Some(log[|log| - 1].rec)
    else LastEntry(log[..|log| - 1], key)
  }

  ghost predicate LoggedAt(s: Store, key: string) {
    key in s.records ==> s.records[key].key == key && LastEntry(s.log, key) == Some(s.records[key])
  }

  /** As long as no write has failed, the last line for every key in memory is its record. */
  ghost predicate Logged(s: Store) {
    !s.failed ==> forall key :: LoggedAt(s, key)
  }

  lemma LastEntrySnoc(log: seq<Line>, l: Line, key: string)
    ensures LastEntry(log + [l], key) == if l.Entry? && l.rec.key == key then Some(l.rec) else LastEntry(log, key)
  {
    assert (log + [l])[..|log|] == log;
  }

  /** A line for one key leaves the others as they were. */
  lemma AppendKeeps(s: Store, s1: Store, rec: Record, n: nat)
    requires Logged(s) && !s.failed && s1 == s.(records := s1.records, log := s.log + [Entry(rec, n)])
    requires forall key :: key in s1.records && key != rec.key ==> key in s.records && s1.records[key] == s.records[key]
    requires rec.key in s1.records ==> s1.records[rec.key] == rec
    ensures Logged(s1)
  {
    forall key ensures LoggedAt(s1, key) {
      LastEntrySnoc(s.log, Entry(rec, n), key);
      assert LoggedAt(s, key);
    }
  }

  lemma BeginKeeps(s: Store, key: string, hash: string, now: int, w: Write)
    requires Logged(s)
    ensures Logged(Begin(s, key, hash, now, w).0)
  {
    if !s.failed && w.Written? && !(key in s.records && !Lapsed(s, s.records[key], hash, now)) {
      AppendKeeps(s, Begin(s, key, hash, now, w).0, Fresh(s, key, hash, now), w.size);
    }
  }

  lemma CompleteKeeps(s: Store, key: string, hash: string, payload: string, now: int, w: Write)
    requires Logged(s)
    ensures Logged(Complete(s, key, hash, payload, now, w))
  {
    if !s.failed && w.Written? && key in s.records && s.records[key].hash == hash {
      assert LoggedAt(s, key);
      AppendKeeps(s, Complete(s, key, hash, payload, now, w), s.records[key].(state := Completed, payload := payload, updated := now), w.size);
    }
  }

  lemma AbortKeeps(s: Store, key: string, hash: string, now: int, w: Write)
    requires Logged(s)
    ensures Logged(Abort(s, key, hash, now, w))
  {
    if !s.failed && w.Written? && key in s.records && s.records[key].hash == hash && s.records[key].state.Processing? {
      assert LoggedAt(s, key);
      AppendKeeps(s, Abort(s, key, hash, now, w), s.records[key].(state := Aborted, updated := now, expires := Some(now)), w.size);
    }
  }

  lemma PurgeKeeps(s: Store, now: int)
    requires Logged(s)
    ensures Logged(Purge(s, now))
  {
    if !s.failed { forall key ensures LoggedAt(Purge(s, now), key) { assert LoggedAt(s, key); } }
  }

  // ---------------------------------------------------------------- runs

  datatype Event =
    | BeginEvent(key: string, hash: string, now: int, w: Write)
    | CompleteEvent(key: string, hash: string, payload: string, now: int, w: Write)
    | AbortEvent(key: string, hash: string, now: int, w: Write)
    | PurgeEvent(now: int)
    | ReopenEvent(now: int)

  function Step(s: Store, e: Event): Store {
    match e
    case BeginEvent(key, hash, now, w) => Begin(s, key, hash, now, w).0
    case CompleteEvent(key, hash, payload, now, w) => Complete(s, key, hash, payload, now, w)
    case AbortEvent(key, hash, now, w) => Abort(s, key, hash, now, w)
    case PurgeEvent(now) => Purge(s, now)
    case ReopenEvent(now) => Reopen(s, now)
  }

  function Run(s: Store, events: seq<Event>): Store {
    Runs.Run(Step, s, events)
  }

  /** Until the store is reopened, every record in memory is the last log line of its key. */
  lemma {:induction false} RecordsAreLogged(s: Store, events: seq<Event>)
    requires Logged(s) && forall i :: 0 <= i < |events| ==> !events[i].ReopenEvent?
    ensures Logged(Run(s, events))
    decreases |events|
  {
    if |events| > 0 {
      match events[0] {
        case BeginEvent(key, hash, now, w) => BeginKeeps(s, key, hash, now, w);
        case CompleteEvent(key, hash, payload, now, w) => CompleteKeeps(s, key, hash, payload, now, w);
        case AbortEvent(key, hash, now, w) => AbortKeeps(s, key, hash, now, w);
        case PurgeEvent(now) => PurgeKeeps(s, now);
      }
      RecordsAreLogged(Step(s, events[0]), events[1..]);
    }
  }

  // ---------------------------------------------------------------- reload

  /** The last line for a key that is not expired at t. */
  function LiveEntry(log: seq<Line>, key: string, t: int): Option<Record> {
    if |log| == 0 then None
    else if log[|log| - 1].Entry? && log[|log| - 1].rec.key == key && !ExpiredAt(log[|log| - 1].rec, t) then Some(log[|log| - 1].rec)
    else LiveEntry(log[..|log| - 1], key, t)
  }

  /** A load that succeeds finds for every key its last unexpired line, and nothing else. */
  lemma {:induction false} LoadFindsLive(log: seq<Line>, t: int, key: string)
    ensures var m := Load(log, t);
      m.Some? ==> (key in m.value <==> LiveEntry(log, key, t).Some?) && (key in m.value ==> m.value[key] == LiveEntry(log, key, t).value)
    decreases |log|
  {
    if |log| > 0 { LoadFindsLive(log[..|log| - 1], t, key); }
  }

  /** It succeeds exactly when every line is readable. */
  lemma {:induction false} LoadSucceedsIff(log: seq<Line>, t: int)
    ensures Load(log, t).Some? <==> forall i :: 0 <= i < |log| ==> Readable(log[i])
    decreases |log|
  {
    if |log| > 0 {
      LoadSucceedsIff(log[..|log| - 1], t);
      assert forall i :: 0 <= i < |log| - 1 ==> log[..|log| - 1][i] == log[i];
    }
  }

  ghost predicate LiveAt(s: Store, key: string, t: int) {
    key in s.records && !ExpiredAt(s.records[key], t) ==> LiveEntry(s.log, key, t) == Some(s.records[key])
  }

  /** From `now` on, whenever the log is read, it yields the records in memory that are not expired. */
  ghost predicate Recoverable(s: Store, now: int) {
    !s.failed ==> (forall key, t :: t >= now ==> LiveAt(s, key, t)) && forall key :: key in s.records ==> s.records[key].key == key
  }

  lemma LiveSnoc(log: seq<Line>, l: Line, key: string, t: int)
    ensures LiveEntry(log + [l], key, t) == if l.Entry? && l.rec.key == key && !ExpiredAt(l.rec, t) then Some(l.rec) else LiveEntry(log, key, t)
  {
    assert (log + [l])[..|log|] == log;
  }

  lemma AppendRecoverable(s: Store, s1: Store, rec: Record, n: nat, now: int)
    requires Recoverable(s, now) && !s.failed && s1 == s.(records := s1.records, log := s.log + [Entry(rec, n)])
    requires forall key :: key in s1.records && key != rec.key ==> key in s.records && s1.records[key] == s.records[key]
    requires rec.key in s1.records ==> s1.records[rec.key] == rec
    ensures Recoverable(s1, now)
  {
    forall key, t | t >= now ensures LiveAt(s1, key, t) {
      LiveSnoc(s.log, Entry(rec, n), key, t);
      assert LiveAt(s, key, t);
    }
  }

  lemma {:induction false} LiveStaysLive(log: seq<Line>, key: string, t: int, u: int)
    requires t <= u && LiveEntry(log, key, t).Some? && !ExpiredAt(LiveEntry(log, key, t).value, u)
    ensures LiveEntry(log, key, u) == LiveEntry(log, key, t) && LiveEntry(log, key, t).value.key == key
    decreases |log|
  {
    var l := log[|log| - 1];
    if !(l.Entry? && l.rec.key == key && !ExpiredAt(l.rec, t)) { LiveStaysLive(log[..|log| - 1], key, t, u); }
  }

  lemma {:induction false} LiveHasKey(log: seq<Line>, key: string, t: int)
    ensures LiveEntry(log, key, t).Some? ==> LiveEntry(log, key, t).value.key == key && !ExpiredAt(LiveEntry(log, key, t).value, t)
    decreases |log|
  {
    if |log| > 0 { LiveHasKey(log[..|log| - 1], key, t); }
  }

  lemma ReopenRecoverable(s: Store, now: int)
    ensures Recoverable(Reopen(s, now), now)
  {
    var s1 := Reopen(s, now);
    if !s1.failed {
      forall key, t | t >= now ensures LiveAt(s1, key, t) {
        LoadFindsLive(s.log, now, key);
        if key in s1.records && !ExpiredAt(s1.records[key], t) { LiveStaysLive(s.log, key, now, t); }
      }
      forall key | key in s1.records ensures s1.records[key].key == key {
        LoadFindsLive(s.log, now, key);
        LiveHasKey(s.log, key, now);
      }
    }
  }

  lemma StepRecoverable(s: Store, e: Event, now: int)
    requires Recoverable(s, now) && e.now >= now
    ensures Recoverable(Step(s, e), e.now)
  {
    match e {
      case BeginEvent(key, hash, t, w) =>
        if !s.failed && w.Written? && !(key in s.records && !Lapsed(s, s.records[key], hash, t)) {
          AppendRecoverable(s, Step(s, e), Fresh(s, key, hash, t), w.size, now);
        }
      case CompleteEvent(key, hash, payload, t, w) =>
        if !s.failed && w.Written? && key in s.records && s.records[key].hash == hash {
          AppendRecoverable(s, Step(s, e), s.records[key].(state := Completed, payload := payload, updated := t), w.size, now);
        }
      case AbortEvent(key, hash, t, w) =>
        if !s.failed && w.Written? && key in s.records && s.records[key].hash == hash && s.records[key].state.Processing? {
          AppendRecoverable(s, Step(s, e), s.records[key].(state := Aborted, updated := t, expires := Some(t)), w.size, now);
        }
      case PurgeEvent(t) =>
        forall key, u | u >= t ensures !s.failed ==> LiveAt(Step(s, e), key, u) { assert !s.failed ==> LiveAt(s, key, u); }
      case ReopenEvent(t) => ReopenRecoverable(s, t);
    }
  }

  predicate Monotone(now: int, events: seq<Event>)
    decreases |events|
  {
    |events| > 0 ==> events[0].now >= now && Monotone(events[0].now, events[1..])
  }

  function TimeAfter(now: int, events: seq<Event>): int
    decreases |events|
  {
    if |events| == 0 then now else TimeAfter(events[0].now, events[1..])
  }

  lemma {:induction false} RunRecoverable(s: Store, now: int, events: seq<Event>)
    requires Recoverable(s, now) && Monotone(now, events)
    ensures Recoverable(Run(s, events), TimeAfter(now, events))
    decreases |events|
  {
    if |events| > 0 {
      StepRecoverable(s, events[0], now);
      RunRecoverable(Step(s, events[0]), events[0].now, events[1..]);
    }
  }

  /** After any run with a clock that does not go back, restarts included: if the log can be read at t,
      every record in memory that is not expired at t is what a restart at t finds. */
  lemma ReloadKeepsRecords(ttl: int, timeout: int, now: int, events: seq<Event>, key: string, t: int)
    requires Monotone(now, events) && t >= TimeAfter(now, events)
    ensures var s := Run(Store(map[], [], false, ttl, timeout), events);
      !s.failed && key in s.records && !ExpiredAt(s.records[key], t) && Load(s.log, t).Some? ==>
        key in Load(s.log, t).value && Load(s.log, t).value[key] == s.records[key]
  {
    var s := Run(Store(map[], [], false, ttl, timeout), events);
    RunRecoverable(Store(map[], [], false, ttl, timeout), now, events);
    LoadFindsLive(s.log, t, key);
    assert !s.failed ==> LiveAt(s, key, t);
  }

  /** But a restart can bring back a record that memory no longer has: an aborted request is again
      in progress, because the expired line of the abort is skipped and not applied. */
  lemma AbortedIsRevived(key: string, hash: string)
    requires key != ""
    ensures var s := Run(Store(map[], [], false, 10, 60), [BeginEvent(key, hash, 0, Written(1)), AbortEvent(key, hash, 1, Written(1))]);
      key !in s.records && Load(s.log, 1).Some? && key in Load(s.log, 1).value && Load(s.log, 1).value[key].state == Processing
  {
    var s0 := Store(map[], [], false, 10, 60);
    var b, a := BeginEvent(key, hash, 0, Written(1)), AbortEvent(key, hash, 1, Written(1));
    var s1 := Step(s0, b);
    var rec := Fresh(s0, key, hash, 0);
    assert s1 == s0.(records := map[key := rec], log := [Entry(rec, 1)]);
    var s2 := Step(s1, a);
    Runs.ShortRuns(Step, s0, b, a);
    var gone := rec.(state := Aborted, updated := 1, expires := Some(1));
    assert s2.log == [Entry(rec, 1), Entry(gone, 1)];
    var log := [Entry(rec, 1)];
    assert s2.log[..1] == log && log[..0] == [];
    assert Load([], 1) == Some(map[]) && Load(log, 1) == Some(map[key := rec]);
    assert Load(s2.log, 1) == Some(map[key := rec]);
  }

  // ---------------------------------------------------------------- a request is new once

  predicate Lasts(r: Record, until: int) {
    r.expires.None? || r.expires.value >= until
  }

  /** The event takes away the record of key: it finds it expired or timed out, aborts it, purges it,
      or reopens the store after it has expired. */
  predicate Releases(s: Store, e: Event, key: string, until: int) {
    match e
    case BeginEvent(k, hash, now, _) => k == key && !s.failed && key in s.records && Lapsed(s, s.records[key], hash, now)
    case CompleteEvent(_, _, _, _, _) => false
    case AbortEvent(k, hash, now, _) => k == key && !s.failed && key in s.records && s.records[key].hash == hash && s.records[key].state.Processing?
    case PurgeEvent(now) => key in s.records && ExpiredAt(s.records[key], now)
    case ReopenEvent(now) => now >= until
  }

  predicate NeverReleased(s: Store, key: string, until: int, events: seq<Event>)
    decreases |events|
  {
    |events| > 0 ==> !Releases(s, events[0], key, until) && NeverReleased(Step(s, events[0]), key, until, events[1..])
  }

  predicate NeverNew(s: Store, key: string, events: seq<Event>)
    decreases |events|
  {
    |events| > 0 ==>
      && !(events[0].BeginEvent? && events[0].key == key && Begin(s, key, events[0].hash, events[0].now, events[0].w).1.New?)
      && NeverNew(Step(s, events[0]), key, events[1..])
  }

  /** The log, and memory while the store works, hold the key until the given time. */
  ghost predicate Holds(s: Store, key: string, until: int) {
    && LastEntry(s.log, key).Some? && Lasts(LastEntry(s.log, key).value, until)
    && (!s.failed ==> key in s.records && s.records[key].key == key && Lasts(s.records[key], until))
  }

  lemma {:induction false} LastIsLoaded(log: seq<Line>, key: string, t: int)
    requires LastEntry(log, key).Some? && !ExpiredAt(LastEntry(log, key).value, t)
    ensures LiveEntry(log, key, t) == LastEntry(log, key) && LastEntry(log, key).value.key == key
    decreases |log|
  {
    var l := log[|log| - 1];
    if !(l.Entry? && l.rec.key == key) { LastIsLoaded(log[..|log| - 1], key, t); }
  }

  lemma AppendHolds(log: seq<Line>, rec: Record, w: Write, s: Store, key: string, until: int)
    requires s.log == log && LastEntry(log, key).Some? && Lasts(LastEntry(log, key).value, until) && (rec.key == key ==> Lasts(rec, until))
    ensures var l := Append(s, rec, w).log; LastEntry(l, key).Some? && Lasts(LastEntry(l, key).value, until)
  {
    match w {
      case Written(n) => LastEntrySnoc(log, Entry(rec, n), key);
      case FailedClean =>
      case FailedTorn => LastEntrySnoc(log, Broken, key);
      case FailedUnsynced(n) => LastEntrySnoc(log, Entry(rec, n), key);
    }
  }

  lemma StepHolds(s: Store, e: Event, key: string, until: int)
    requires Holds(s, key, until) && !Releases(s, e, key, until)
    requires !s.failed ==> forall k :: k in s.records ==> s.records[k].key == k
    ensures Holds(Step(s, e), key, until)
  {
    match e {
      case BeginEvent(k, hash, now, w) =>
        if !s.failed && k != key { AppendHolds(s.log, Fresh(s, k, hash, now), w, s.(records := s.records - {k}), key, until); }
      case CompleteEvent(k, hash, payload, now, w) =>
        if !s.failed && k in s.records && s.records[k].hash == hash {
          AppendHolds(s.log, s.records[k].(state := Completed, payload := payload, updated := now), w, s, key, until);
        }
      case AbortEvent(k, hash, now, w) =>
        if !s.failed && k != key && k in s.records {
          AppendHolds(s.log, s.records[k].(state := Aborted, updated := now, expires := Some(now)), w, s.(records := s.records - {k}), key, until);
        }
      case PurgeEvent(now) =>
      case ReopenEvent(now) =>
        LastIsLoaded(s.log, key, now);
        LoadFindsLive(s.log, now, key);
    }
  }

  ghost predicate KeysMatch(s: Store) {
    forall k :: k in s.records ==> s.records[k].key == k
  }

  lemma StepKeysMatch(s: Store, e: Event)
    requires KeysMatch(s)
    ensures KeysMatch(Step(s, e))
  {
    if e.ReopenEvent? {
      forall k | k in Step(s, e).records ensures Step(s, e).records[k].key == k {
        LoadFindsLive(s.log, e.now, k);
        LiveHasKey(s.log, k, e.now);
      }
    }
  }

  /** Once a request has been answered New, no later request with its key is, through completions,
      failed writes and restarts, unless some event in between released the key. */
  lemma {:induction false} NewOnlyOnce(s: Store, key: string, until: int, events: seq<Event>)
    requires Holds(s, key, until) && KeysMatch(s) && NeverReleased(s, key, until, events)
    ensures NeverNew(s, key, events)
    decreases |events|
  {
    if |events| > 0 {
      StepHolds(s, events[0], key, until);
      StepKeysMatch(s, events[0]);
      NewOnlyOnce(Step(s, events[0]), key, until, events[1..]);
    }
  }

  /** The state after New is such a state. */
  lemma NewHolds(s: Store, key: string, hash: string, now: int, w: Write)
    requires KeysMatch(s) && Begin(s, key, hash, now, w).1.New?
    ensures Holds(Begin(s, key, hash, now, w).0, key, now + s.ttl) && KeysMatch(Begin(s, key, hash, now, w).0)
  {
    if w.Written? { LastEntrySnoc(s.log, Entry(Fresh(s, key, hash, now), w.size), key); }
  }

  lemma {:induction false} RunKeysMatch(s: Store, events: seq<Event>)
    requires KeysMatch(s)
    ensures KeysMatch(Run(s, events))
    decreases |events|
  {
    if |events| > 0 {
      StepKeysMatch(s, events[0]);
      RunKeysMatch(Step(s, events[0]), events[1..]);
    }
  }

  lemma NewThenReleased(s: Store, key: string, hash: string, now: int, w: Write, after: seq<Event>)
    requires KeysMatch(s) && Begin(s, key, hash, now, w).1.New?
    ensures var s1 := Begin(s, key, hash, now, w).0; NeverReleased(s1, key, now + s.ttl, after) ==> NeverNew(s1, key, after)
  {
    NewHolds(s, key, hash, now, w);
    var s1 := Begin(s, key, hash, now, w).0;
    if NeverReleased(s1, key, now + s.ttl, after) { NewOnlyOnce(s1, key, now + s.ttl, after); }
  }

  /** In every run from an empty store: New for a key is followed by another New for it only after an
      event that released it. */
  lemma SecondNewNeedsRelease(before: seq<Event>, s: Store, key: string, hash: string, now: int, w: Write, after: seq<Event>)
    requires s == Run(Store(map[], [], false, s.ttl, s.timeout), before) && Begin(s, key, hash, now, w).1.New?
    ensures var s1 := Begin(s, key, hash, now, w).0; NeverReleased(s1, key, now + s.ttl, after) ==> NeverNew(s1, key, after)
  {
    RunKeysMatch(Store(map[], [], false, s.ttl, s.timeout), before);
    NewThenReleased(s, key, hash, now, w, after);
  }

  // ---------------------------------------------------------------- the store object

  class IdempotencyStore {
    const ttl: int
    const timeout: int
    var records: map<string, Record>
    var log: seq<Line>
    var failed: bool
    /** The time of the last operation. */
    ghost var clock: int

    ghost function View(): Store
      reads this
    {
      Store(records, log, failed, ttl, timeout)
    }

    /** Whenever the log is read from now on, it yields what memory holds and has not expired. */
    ghost predicate Valid()
      reads this
    {
      Recoverable(View(), clock) && KeysMatch(View())
    }

    /** OpenIdempotencyStore on an existing log. */
    constructor (log: seq<Line>, ttl: int, timeout: int, now: int)
      ensures this.ttl == ttl && this.timeout == timeout && clock == now && Valid()
      ensures View() == Reopen(Store(map[], log, false, ttl, timeout), now)
    {
      this.ttl, this.timeout, this.log := ttl, timeout, log;
      records, failed, clock := map[], false, now;
      new;
      var ok := LoadLog(now);
      if !ok {
        records, failed := map[], true;
      }
      ghost var s := Store(map[], log, false, ttl, timeout);
      ReopenRecoverable(s, now);
      StepKeysMatch(s, ReopenEvent(now));
    }

    /** load reads the log line by line. */
    method LoadLog(now: int) returns (ok: bool)
      requires records == map[]
      modifies this`records
      ensures ok <==> Load(log, now).Some?
      ensures ok ==> records == Load(log, now).value
    {
      for i := 0 to |log|
        invariant Load(log[..i], now) == Some(records)
      {
        assert log[..i + 1][..i] == log[..i];
        if !Readable(log[i]) {
          FailsFrom(log, i, now);
          return false;
        }
        if !ExpiredAt(log[i].rec, now) {
          records := records[log[i].rec.key := log[i].rec];
        }
      }
      assert log[..|log|] == log;
      return true;
    }

    lemma FailsFrom(log: seq<Line>, i: nat, now: int)
      requires i < |log| && !Readable(log[i])
      ensures Load(log, now).None?
    {
      LoadSucceedsIff(log, now);
    }

    /** Write and Sync; any failure closes the store for writing. */
    method AppendLine(rec: Record, w: Write) returns (ok: bool)
      modifies this`log, this`failed
      ensures View() == Append(old(View()), rec, w) && (old(failed) || (ok <==> !failed))
    {
      match w {
        case Written(n) => log := log + [Entry(rec, n)];
        case FailedClean => failed := true;
        case FailedTorn => log, failed := log + [Broken], true;
        case FailedUnsynced(n) => log, failed := log + [Entry(rec, n)], true;
      }
      ok := w.Written?;
    }

    /** The store after a step, with everything it promises. */
    ghost method Passed(s: Store, e: Event)
      requires Recoverable(s, clock) && KeysMatch(s) && e.now >= clock && View() == Step(s, e)
      modifies this`clock
      ensures Valid() && clock == e.now && View() == old(View())
    {
      StepRecoverable(s, e, clock);
      StepKeysMatch(s, e);
      clock := e.now;
    }

    /** A request is new only once its record is in the log; a completed answer is replayed only to the
        same request; and unless the request is new or a write fails, nothing changes. */
    method BeginRequest(key: string, hash: string, now: int, w: Write) returns (d: Decision)
      requires Valid() && now >= clock
      modifies this`records, this`log, this`failed, this`clock
      ensures Valid() && clock == now && (View(), d) == Begin(old(View()), key, hash, now, w)
      ensures d.New? ==> key in records && records[key] == d.rec && LastEntry(log, key) == Some(d.rec)
      ensures d.Replay? ==> d.rec.state.Completed? && d.rec.hash == hash
      ensures !d.New? && !d.Refused? ==> View() == old(View()) && key in records && records[key] == d.rec
    {
      ghost var s := View();
      d := Decide(key, hash, now, w);
      if d.New? { LastEntrySnoc(s.log, Entry(d.rec, w.size), key); }
      Passed(s, BeginEvent(key, hash, now, w));
    }

    method Decide(key: string, hash: string, now: int, w: Write) returns (d: Decision)
      modifies this`records, this`log, this`failed
      ensures (View(), d) == Begin(old(View()), key, hash, now, w)
    {
      if failed {
        return Refused;
      }
      if key in records {
        var rec := records[key];
        if rec.expires.Some? && rec.expires.value < now {
          records := records - {key};
        } else {
          if rec.hash != hash {
            return Conflict(rec);
          }
          if rec.state.Completed? {
            return Replay(rec);
          }
          var limit := if timeout <= 0 then DEFAULT_TIMEOUT else timeout;
          if rec.state.Processing? && now - rec.updated > limit {
            records := records - {key};
          } else {
            return InProgress(rec);
          }
        }
      }
      assert records == old(records) - {key};
      var rec := Record(key, hash, Processing, "", now, Some(now + ttl));
      var ok := AppendLine(rec, w);
      if !ok {
        return Refused;
      }
      records := records[key := rec];
      return New(rec);
    }

    /** The answer is in memory only once it is in the log; a failed write leaves memory as it was. */
    method CompleteRequest(key: string, hash: string, payload: string, now: int, w: Write)
      requires Valid() && now >= clock
      modifies this`records, this`log, this`failed, this`clock
      ensures Valid() && clock == now && View() == Complete(old(View()), key, hash, payload, now, w)
      ensures records.Keys == old(records).Keys && forall k :: k in records && k != key ==> records[k] == old(records)[k]
      ensures failed ==> records == old(records)
      ensures !failed && records != old(records) ==> key in records && LastEntry(log, key) == Some(records[key])
    {
      ghost var s := View();
      if !failed && key in records && records[key].hash == hash {
        var rec := records[key].(state := Completed, payload := payload, updated := now);
        var ok := AppendLine(rec, w);
        if ok {
          LastEntrySnoc(s.log, Entry(rec, w.size), key);
          records := records[key := rec];
        }
      }
      Passed(s, CompleteEvent(key, hash, payload, now, w));
    }

    /** Only a request in progress with this hash is forgotten, and no other. */
    method AbortRequest(key: string, hash: string, now: int, w: Write)
      requires Valid() && now >= clock
      modifies this`records, this`log, this`failed, this`clock
      ensures Valid() && clock == now && View() == Abort(old(View()), key, hash, now, w)
      ensures forall k :: k in old(records) && k != key ==> k in records && records[k] == old(records)[k]
      ensures records.Keys <= old(records).Keys
      ensures key in old(records) && key !in records ==> old(records)[key].state.Processing? && old(records)[key].hash == hash
    {
      ghost var s := View();
      if !failed && key in records && records[key].hash == hash && records[key].state.Processing? {
        var rec := records[key].(state := Aborted, updated := now, expires := Some(now));
        records := records - {key};
        var ok := AppendLine(rec, w);
      }
      Passed(s, AbortEvent(key, hash, now, w));
    }

    /** PurgeExpired visits the keys in no particular order. */
    method PurgeExpired(now: int) returns (purged: nat)
      requires Valid() && now >= clock
      modifies this`records, this`clock
      ensures Valid() && clock == now && View() == Purge(old(View()), now)
      ensures purged == |old(records)| - |records|
    {
      purged := 0;
      var todo := records.Keys;
      while todo != {}
        invariant todo <= records.Keys <= old(records).Keys
        invariant forall k :: k in records ==> records[k] == old(records)[k]
        invariant forall k :: k in old(records) && k !in todo ==> (k in records <==> !ExpiredAt(old(records)[k], now))
        invariant purged == |old(records)| - |records|
        invariant clock == old(clock)
        decreases |todo|
      {
        var key :| key in todo;
        if records[key].expires.Some? && records[key].expires.value <= now {
          records := records - {key};
          purged := purged + 1;
        }
        todo := todo - {key};
      }
      assert records.Keys == Purge(old(View()), now).records.Keys;
      assert records == Purge(old(View()), now).records;
      Passed(old(View()), PurgeEvent(now));
    }
  }
}
