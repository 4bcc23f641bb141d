/** The process-wide budget for buffered request bodies (body_budget.go), shared by every HTTP/1
    connection and every HTTP/2 stream of the server. */
module BodyBudget {
  import opened H2Core
  import opened Windows
  import opened Sums
  import opened H2Budget
  import opened BudgetCalls
  import H2Lifecycle
  import Runs

  // ---------------------------------------------------------------- the counter

  predicate Admits(limit: int, used: int, n: int) {
    limit <= 0 || n <= 0 || n <= limit - used
  }

  function Sum(s: seq<int>): int {
    if |s| == 0 then 0 else Sum(s[..|s| - 1]) + s[|s| - 1]
  }

  /** bufferedRequestBytes with its compare-and-swap loop. */
  class Counter {
    const limit: int
    var used: int

    constructor (limit: int)
      ensures this.limit == limit && used == 0
    {
      this.limit := limit;
      used := 0;
    }

    /** `others` are the net changes other goroutines make between a load and the compare-and-swap
        that follows it. However often the loop is overtaken, it takes effect as one atomic step on
        the value it finds at the end. */
    method Reserve(n: int, others: seq<int>) returns (ok: bool, ghost rounds: nat)
      modifies this`used
      ensures rounds <= |others|
      ensures ok == Admits(limit, old(used) + Sum(others[..rounds]), n)
      ensures used == old(used) + Sum(others[..rounds]) + if ok && limit > 0 && n > 0 then n else 0
      ensures ok && limit > 0 && n > 0 ==> used <= limit
    {
      rounds := 0;
      if limit <= 0 || n <= 0 {
        return true, 0;
      }
      var i := 0;
      while true
        invariant i <= |others|
        invariant used == old(used) + Sum(others[..i])
        decreases |others| - i
      {
        var current := used;
        if n > limit - current {
          return false, i;
        }
        if i < |others| {
          assert others[..i + 1][..i] == others[..i];
          used := used + others[i];
          i := i + 1;
        }
        if used == current {
          used := current + n;
          return true, i;
        }
      }
    }

    method Release(n: int)
      modifies this`used
      ensures used == old(used) - if limit > 0 && n > 0 then n else 0
    {
      if limit > 0 && n > 0 {
        used := used - n;
      }
    }
  }

  // ---------------------------------------------------------------- the server

  /** plain holds the reservation of each HTTP/1 connection (reservedBodyBytes in serveConn). */
  datatype Server = Server(limit: int, used: int, plain: map<nat, int>, conns: map<nat, Conn>)

  datatype ServerEvent =
    | OpenPlain(k: nat) | ReservePlain(k: nat, n: nat) | ReleasePlain(k: nat, n: nat)
    | OpenH2(k: nat) | OnH2(k: nat, e: Event)

  function NewServer(limit: int): Server {
    Server(limit, 0, map[], map[])
  }

  /** What the calls made for one stream have added to the counter so far. */
  function Drawn(c: Conn, id: nat): int {
    if id in c.streams then c.streams[id].body.acquired - c.streams[id].body.returned else 0
  }

  function Counted(limit: int, used: int, delta: int): int {
    if limit > 0 then used + delta else used
  }

  /** The budget's answer to a DATA frame is the counter's own. */
  function Answered(s: Server, e: Event): Event {
    if e.DataEvent? then e.(granted := Admits(s.limit, s.used, e.data.size)) else e
  }

  function StepH2(cfg: Config, s: Server, k: nat, e: Event): Server
    requires k in s.conns
  {
    var c' := Step(cfg, s.conns[k], e);
    s.(used := Counted(s.limit, s.used, Drawn(c', Target(e)) - Drawn(s.conns[k], Target(e))), conns := s.conns[k := c'])
  }

  /** The reservation of an HTTP/1 connection becomes v, and the counter follows. */
  function SetPlain(s: Server, k: nat, v: int): Server {
    s.(used := Counted(s.limit, s.used, v - if k in s.plain then s.plain[k] else 0), plain := s.plain[k := v])
  }

  function ServerStep(cfg: Config, s: Server, e: ServerEvent): Server {
    match e
    case OpenPlain(k) => if k in s.plain then s else SetPlain(s, k, 0)
    case ReservePlain(k, n) => if k in s.plain && Admits(s.limit, s.used, n) then SetPlain(s, k, s.plain[k] + n) else s
    case ReleasePlain(k, n) => if k in s.plain then SetPlain(s, k, s.plain[k] - n) else s
    case OpenH2(k) => if k in s.conns then s else s.(conns := s.conns[k := Fresh])
    case OnH2(k, e) => if k !in s.conns then s else StepH2(cfg, s, k, Answered(s, e))
  }

  function ServerRun(cfg: Config, s: Server, events: seq<ServerEvent>): Server {
    Runs.Run((s, e) => ServerStep(cfg, s, e), s, events)
  }

  // ---------------------------------------------------------------- what HTTP/1 connections do

  /** The call that a step makes for connection k, with the counter's answer. */
  function CallOf(s: Server, e: ServerEvent, k: nat): seq<Call> {
    if e.ReservePlain? && e.k == k && k in s.plain then [Reserve(e.n, Admits(s.limit, s.used, e.n))]
    else if e.ReleasePlain? && e.k == k && k in s.plain then [Release(e.n)]
    else []
  }

  /** The calls of connection k in a run. */
  function Project(cfg: Config, s: Server, events: seq<ServerEvent>, k: nat): seq<Call>
    decreases |events|
  {
    if |events| == 0 then []
    else
      var init := events[..|events| - 1];
      Project(cfg, s, init, k) + CallOf(ServerRun(cfg, s, init), events[|events| - 1], k)
  }

  /** Every HTTP/1 connection gives back exactly what it holds, as the connection loop does
      (Http1Server.Server.Serve). */
  ghost predicate Disciplined(cfg: Config, limit: int, events: seq<ServerEvent>) {
    forall k :: Balanced(Project(cfg, NewServer(limit), events, k))
  }

  /** A release gives back what the counter has for the connection. */
  predicate Fits(s: Server, e: ServerEvent) {
    e.ReleasePlain? && e.k in s.plain ==> e.n == s.plain[e.k]
  }

  /** What the counter has for connection k is what its calls hold. */
  ghost predicate Matches(s: Server, calls: seq<Call>, k: nat) {
    if k in s.plain then s.plain[k] == Holding(calls) else calls == []
  }

  // ---------------------------------------------------------------- conservation

  ghost function HeldMap(c: Conn): map<nat, int> {
    map id | id in c.streams :: Held(c.streams[id])
  }

  /** Everything the streams of a connection hold. */
  ghost function HeldBy(c: Conn): int {
    Total(HeldMap(c))
  }

  ghost function HeldByConns(conns: map<nat, Conn>): map<nat, int> {
    map k | k in conns :: HeldBy(conns[k])
  }

  ghost function HeldInAll(s: Server): int {
    Total(s.plain) + Total(HeldByConns(s.conns))
  }

  ghost predicate ServerInv(cfg: Config, s: Server) {
    && (forall k :: k in s.plain ==> s.plain[k] >= 0)
    && (forall k :: k in s.conns ==> Inv(cfg, s.conns[k]))
    && (if s.limit > 0 then s.used == HeldInAll(s) && 0 <= s.used <= s.limit else s.used == 0)
  }

  lemma HeldByFollows(c: Conn, c': Conn, id: nat, gain: nat)
    requires Follows(c, c', id, gain) && (id in c.streams ==> id in c'.streams)
    ensures HeldBy(c') - HeldBy(c) == HeldAt(c', id) - HeldAt(c, id)
  {
    var m, m' := HeldMap(c), HeldMap(c');
    if id in c'.streams {
      var p := m[id := Held(c'.streams[id])];
      assert m'.Keys == p.Keys by { forall k | k != id ensures k in m' <==> k in p { assert SameFor(c, c', k); } }
      forall k | k in p ensures m'[k] == p[k] { assert k != id ==> SameFor(c, c', k); }
      assert m' == p;
      TotalPut(m, id, Held(c'.streams[id]));
    } else {
      assert m'.Keys == m.Keys by { forall k | k != id ensures k in m' <==> k in m { assert SameFor(c, c', k); } }
      forall k | k in m ensures m'[k] == m[k] { assert k != id ==> SameFor(c, c', k); }
      assert m' == m;
    }
  }

  lemma DrawnIsHeld(cfg: Config, c: Conn, id: nat)
    requires Inv(cfg, c)
    ensures Drawn(c, id) == HeldAt(c, id)
  {
    assert OkAt(c, id);
  }

  /** One connection step: the counter moves by exactly what its streams hold more or less. */
  lemma StepBalances(cfg: Config, c: Conn, e: Event)
    requires !cfg.streaming && Inv(cfg, c)
    ensures var c' := Step(cfg, c, e);
      && HeldBy(c') - HeldBy(c) == Drawn(c', Target(e)) - Drawn(c, Target(e))
      && HeldBy(c') <= HeldBy(c) + Gain(e)
  {
    var c' := Step(cfg, c, e);
    StepKeepsInv(cfg, c, e);
    DrawnIsHeld(cfg, c, Target(e));
    DrawnIsHeld(cfg, c', Target(e));
    if e.CloseAllEvent? {
      assert HeldMap(c') == HeldMap(c);
    } else {
      StepFollows(cfg, c, e);
      H2Lifecycle.StepMoves(cfg, c, e);
      HeldByFollows(c, c', Target(e), Gain(e));
    }
  }

  lemma ConnsPut(conns: map<nat, Conn>, k: nat, c: Conn)
    ensures Total(HeldByConns(conns[k := c])) == Total(HeldByConns(conns)) + HeldBy(c) - if k in conns then HeldBy(conns[k]) else 0
  {
    var m, m' := HeldByConns(conns), HeldByConns(conns[k := c]);
    assert m'.Keys == m[k := HeldBy(c)].Keys;
    forall j | j in m' ensures m'[j] == m[k := HeldBy(c)][j] {
      assert j != k ==> conns[k := c][j] == conns[j];
    }
    assert m' == m[k := HeldBy(c)];
    TotalPut(m, k, HeldBy(c));
  }

  lemma {:induction false} HeldIsNotNegative(cfg: Config, s: Server)
    requires forall k :: k in s.plain ==> s.plain[k] >= 0
    requires forall k :: k in s.conns ==> Inv(cfg, s.conns[k])
    ensures HeldInAll(s) >= 0
  {
    TotalNotNegative(s.plain);
    forall k | k in s.conns ensures HeldBy(s.conns[k]) >= 0 {
      forall id | id in s.conns[k].streams ensures Held(s.conns[k].streams[id]) >= 0 { assert OkAt(s.conns[k], id); }
      TotalNotNegative(HeldMap(s.conns[k]));
    }
    TotalNotNegative(HeldByConns(s.conns));
  }

  /** A connection is replaced by a later state of itself. */
  lemma ReplaceKeepsInv(cfg: Config, s: Server, k: nat, c': Conn, delta: int, gain: nat)
    requires ServerInv(cfg, s) && k in s.conns && Inv(cfg, c')
    requires delta == HeldBy(c') - HeldBy(s.conns[k]) <= gain && Admits(s.limit, s.used, gain)
    ensures ServerInv(cfg, s.(used := Counted(s.limit, s.used, delta), conns := s.conns[k := c']))
  {
    var s' := s.(used := Counted(s.limit, s.used, delta), conns := s.conns[k := c']);
    ConnsPut(s.conns, k, c');
    HeldIsNotNegative(cfg, s');
  }

  lemma StepH2KeepsInv(cfg: Config, s: Server, k: nat, e: Event)
    requires !cfg.streaming && ServerInv(cfg, s) && k in s.conns && Admits(s.limit, s.used, Gain(e))
    ensures ServerInv(cfg, StepH2(cfg, s, k, e))
  {
    var c' := Step(cfg, s.conns[k], e);
    StepKeepsInv(cfg, s.conns[k], e);
    StepBalances(cfg, s.conns[k], e);
    ReplaceKeepsInv(cfg, s, k, c', Drawn(c', Target(e)) - Drawn(s.conns[k], Target(e)), Gain(e));
  }

  ghost predicate Keeps(cfg: Config, s: Server, s': Server) {
    ServerInv(cfg, s') && s'.limit == s.limit
  }

  lemma HeldAfterPlain(s: Server, k: nat, v: int)
    ensures HeldInAll(SetPlain(s, k, v)) == HeldInAll(s) + v - if k in s.plain then s.plain[k] else 0
  {
    TotalPut(s.plain, k, v);
  }

  /** An HTTP/1 reservation is replaced by another. */
  lemma PlainKeepsInv(cfg: Config, s: Server, k: nat, v: nat)
    requires ServerInv(cfg, s) && Admits(s.limit, s.used, v - if k in s.plain then s.plain[k] else 0)
    ensures Keeps(cfg, s, SetPlain(s, k, v))
  {
    HeldAfterPlain(s, k, v);
    HeldIsNotNegative(cfg, SetPlain(s, k, v));
  }

  lemma OpenKeepsInv(cfg: Config, s: Server, k: nat)
    requires ServerInv(cfg, s) && k !in s.conns
    ensures ServerInv(cfg, s.(conns := s.conns[k := Fresh]))
  {
    FreshHoldsNothing(cfg);
    AddKeepsInv(cfg, s, k, Fresh);
  }

  lemma AddKeepsInv(cfg: Config, s: Server, k: nat, c: Conn)
    requires ServerInv(cfg, s) && k !in s.conns && Inv(cfg, c) && HeldBy(c) == 0
    ensures ServerInv(cfg, s.(conns := s.conns[k := c]))
  {
    var s' := s.(conns := s.conns[k := c]);
    ConnsPut(s.conns, k, c);
    assert HeldInAll(s') == HeldInAll(s);
    forall j | j in s'.conns ensures Inv(cfg, s'.conns[j]) {
      assert s'.conns[j] == if j == k then c else s.conns[j];
    }
  }

  lemma FreshHoldsNothing(cfg: Config)
    ensures Inv(cfg, Fresh) && HeldBy(Fresh) == 0
  {
    assert H2Lifecycle.Slots(Fresh) == {};
    assert HeldMap(Fresh) == map[];
  }

  lemma PlainStepKeepsInv(cfg: Config, s: Server, e: ServerEvent)
    requires ServerInv(cfg, s) && !e.OnH2? && !e.OpenH2? && Fits(s, e)
    ensures Keeps(cfg, s, ServerStep(cfg, s, e))
  {
    match e {
      case OpenPlain(k) => if k !in s.plain { PlainKeepsInv(cfg, s, k, 0); }
      case ReservePlain(k, n) => if k in s.plain && Admits(s.limit, s.used, n) { PlainKeepsInv(cfg, s, k, s.plain[k] + n); }
      case ReleasePlain(k, n) => if k in s.plain { PlainKeepsInv(cfg, s, k, 0); }
    }
  }

  lemma ServerStepKeepsInv(cfg: Config, s: Server, e: ServerEvent)
    requires !cfg.streaming && ServerInv(cfg, s) && Fits(s, e)
    ensures Keeps(cfg, s, ServerStep(cfg, s, e))
  {
    if e.OnH2? {
      if e.k in s.conns { StepH2KeepsInv(cfg, s, e.k, Answered(s, e.e)); }
    } else if e.OpenH2? {
      if e.k !in s.conns { OpenKeepsInv(cfg, s, e.k); }
    } else {
      PlainStepKeepsInv(cfg, s, e);
    }
  }

  lemma H2LeavesPlain(cfg: Config, s: Server, e: ServerEvent)
    requires e.OpenH2? || e.OnH2?
    ensures ServerStep(cfg, s, e).plain == s.plain
  {
  }

  function Delta(c: seq<Call>): int {
    if |c| == 1 then Change(c[0]) else 0
  }

  lemma HoldingAfter(calls: seq<Call>, c: seq<Call>)
    requires |c| <= 1
    ensures Holding(calls + c) == Holding(calls) + Delta(c)
  {
    if |c| == 1 {
      HoldingSnoc(calls, c[0]);
      assert c == [c[0]];
    } else {
      assert calls + c == calls;
    }
  }

  /** What an HTTP/1 step does to the entry of connection k. */
  lemma PlainAfter(cfg: Config, s: Server, e: ServerEvent, k: nat)
    requires !e.OpenH2? && !e.OnH2?
    ensures var p := ServerStep(cfg, s, e).plain;
      && |CallOf(s, e, k)| <= 1 && (k in s.plain ==> k in p && p[k] == s.plain[k] + Delta(CallOf(s, e, k)))
      && (k !in s.plain ==> CallOf(s, e, k) == [] && (k in p ==> p[k] == 0))
  {
  }

  lemma PlainMatches(cfg: Config, s: Server, e: ServerEvent, calls: seq<Call>, k: nat)
    requires Matches(s, calls, k) && !e.OpenH2? && !e.OnH2?
    ensures Matches(ServerStep(cfg, s, e), calls + CallOf(s, e, k), k)
  {
    PlainAfter(cfg, s, e, k);
    HoldingAfter(calls, CallOf(s, e, k));
  }

  lemma StepMatches(cfg: Config, s: Server, e: ServerEvent, calls: seq<Call>, k: nat)
    requires Matches(s, calls, k)
    ensures Matches(ServerStep(cfg, s, e), calls + CallOf(s, e, k), k)
  {
    if e.OpenH2? || e.OnH2? {
      H2LeavesPlain(cfg, s, e);
      assert calls + CallOf(s, e, k) == calls;
    } else {
      PlainMatches(cfg, s, e, calls, k);
    }
  }

  /** The last release of a balanced list gives back what the others hold. */
  lemma LastIsBalanced(calls: seq<Call>, c: seq<Call>)
    requires Balanced(calls + c)
    ensures Balanced(calls) && (|c| == 1 && c[0].Release? ==> c[0].n == Holding(calls))
  {
    assert (calls + c)[..|calls|] == calls;
    BalancedPrefix(calls + c, |calls|);
    if |c| == 1 { assert (calls + c)[|calls|] == c[0]; }
  }

  lemma EarlierIsDisciplined(cfg: Config, limit: int, events: seq<ServerEvent>, init: seq<ServerEvent>, e: ServerEvent)
    requires Disciplined(cfg, limit, events) && events == init + [e]
    ensures Disciplined(cfg, limit, init)
    ensures forall k :: Project(cfg, NewServer(limit), events, k) == Project(cfg, NewServer(limit), init, k) + CallOf(ServerRun(cfg, NewServer(limit), init), e, k)
  {
    var s0 := NewServer(limit);
    assert events[..|events| - 1] == init && events[|events| - 1] == e;
    forall k ensures Balanced(Project(cfg, s0, init, k)) {
      assert Balanced(Project(cfg, s0, events, k));
      LastIsBalanced(Project(cfg, s0, init, k), CallOf(ServerRun(cfg, s0, init), e, k));
    }
  }

  /** What a release gives back is what the counter has for the connection. */
  lemma ReleaseFits(s: Server, e: ServerEvent, calls: seq<Call>, all: seq<Call>)
    requires e.ReleasePlain? && Matches(s, calls, e.k) && all == calls + CallOf(s, e, e.k) && Balanced(all)
    ensures Fits(s, e)
  {
    if e.k in s.plain { LastIsBalanced(calls, CallOf(s, e, e.k)); }
  }

  ghost predicate AllMatch(cfg: Config, limit: int, events: seq<ServerEvent>) {
    forall k :: Matches(ServerRun(cfg, NewServer(limit), events), Project(cfg, NewServer(limit), events, k), k)
  }

  lemma NextKeeps(cfg: Config, limit: int, inv: Server -> bool, events: seq<ServerEvent>, init: seq<ServerEvent>, e: ServerEvent)
    requires Disciplined(cfg, limit, events) && events == init + [e] && inv(ServerRun(cfg, NewServer(limit), init)) && AllMatch(cfg, limit, init)
    requires forall s, e :: inv(s) && Fits(s, e) ==> inv(ServerStep(cfg, s, e))
    ensures inv(ServerRun(cfg, NewServer(limit), events)) && AllMatch(cfg, limit, events)
  {
    var s0 := NewServer(limit);
    var s := ServerRun(cfg, s0, init);
    EarlierIsDisciplined(cfg, limit, events, init, e);
    Runs.RunThen((s, e) => ServerStep(cfg, s, e), s0, init, e);
    if e.ReleasePlain? {
      assert Matches(s, Project(cfg, s0, init, e.k), e.k) && Balanced(Project(cfg, s0, events, e.k));
      ReleaseFits(s, e, Project(cfg, s0, init, e.k), Project(cfg, s0, events, e.k));
    }
    assert Fits(s, e);
    forall k ensures Matches(ServerRun(cfg, s0, events), Project(cfg, s0, events, k), k) {
      assert Matches(s, Project(cfg, s0, init, k), k);
      StepMatches(cfg, s, e, Project(cfg, s0, init, k), k);
    }
  }

  /** What every step keeps while releases fit, every run of disciplined connections keeps. */
  lemma {:induction false} RunKeeps(cfg: Config, limit: int, inv: Server -> bool, events: seq<ServerEvent>)
    requires Disciplined(cfg, limit, events) && inv(NewServer(limit)) && forall s, e :: inv(s) && Fits(s, e) ==> inv(ServerStep(cfg, s, e))
    ensures inv(ServerRun(cfg, NewServer(limit), events)) && AllMatch(cfg, limit, events)
    decreases |events|
  {
    if |events| > 0 {
      var init, e := events[..|events| - 1], events[|events| - 1];
      assert events == init + [e];
      EarlierIsDisciplined(cfg, limit, events, init, e);
      RunKeeps(cfg, limit, inv, init);
      NextKeeps(cfg, limit, inv, events, init, e);
    }
  }

  lemma RunKeepsInv(cfg: Config, limit: int, events: seq<ServerEvent>)
    requires !cfg.streaming && Disciplined(cfg, limit, events)
    ensures Keeps(cfg, NewServer(limit), ServerRun(cfg, NewServer(limit), events)) && AllMatch(cfg, limit, events)
  {
    var s0 := NewServer(limit);
    forall s, e | Keeps(cfg, s0, s) && Fits(s, e) ensures Keeps(cfg, s0, ServerStep(cfg, s, e)) { ServerStepKeepsInv(cfg, s, e); }
    RunKeeps(cfg, limit, s => Keeps(cfg, s0, s), events);
  }

  /** No stream of the connection can hold anything any more. */
  ghost predicate Ended(c: Conn) {
    && c.registered == {} && c.closing == {}
    && forall id :: id in c.streams ==> !c.streams[id].life.handler.Started? && !c.streams[id].life.handler.Running?
  }

  ghost predicate H2Ended(s: Server) {
    forall k :: k in s.conns ==> Ended(s.conns[k])
  }

  lemma EndedHoldsNothing(cfg: Config, c: Conn)
    requires Inv(cfg, c) && Ended(c)
    ensures HeldBy(c) == 0
  {
    forall id | id in c.streams ensures Held(c.streams[id]) == 0 { assert OkAt(c, id); }
    TotalOfZeros(HeldMap(c));
  }

  /** With buffered bodies, at every moment of every run: the counter is what the calls of the HTTP/1
      connections and the HTTP/2 streams hold, it stays within the limit, a stream gives its
      reservation back at most once and then in full, and the counter is back at zero when everything
      has ended. */
  lemma BudgetConservation(cfg: Config, limit: int, events: seq<ServerEvent>, k: nat, id: nat)
    requires !cfg.streaming && limit > 0 && Disciplined(cfg, limit, events)
    ensures var s := ServerRun(cfg, NewServer(limit), events);
      && s.used == HeldInAll(s) && 0 <= s.used <= limit
      && (k in s.plain ==> s.plain[k] == Holding(Project(cfg, NewServer(limit), events, k)))
      && (H2Ended(s) && (forall k :: Holding(Project(cfg, NewServer(limit), events, k)) == 0) ==> s.used == 0)
      && (k in s.conns && id in s.conns[k].streams ==>
            var b := s.conns[k].streams[id].body;
            b.releases <= 1 && b.returned == if b.releases == 1 then b.acquired else 0)
  {
    RunKeepsInv(cfg, limit, events);
    var s := ServerRun(cfg, NewServer(limit), events);
    assert Matches(s, Project(cfg, NewServer(limit), events, k), k);
    if H2Ended(s) && forall k :: Holding(Project(cfg, NewServer(limit), events, k)) == 0 {
      forall j | j in s.plain ensures s.plain[j] == 0 { assert Matches(s, Project(cfg, NewServer(limit), events, j), j); }
      TotalOfZeros(s.plain);
      forall k | k in s.conns ensures HeldBy(s.conns[k]) == 0 { EndedHoldsNothing(cfg, s.conns[k]); }
      TotalOfZeros(HeldByConns(s.conns));
    }
    if k in s.conns && id in s.conns[k].streams { assert OkAt(s.conns[k], id); }
  }

  // ---------------------------------------------------------------- streaming bodies

  ghost predicate AlwaysInRange(cfg: Config, limit: int) {
    forall events :: Disciplined(cfg, limit, events) ==> 0 <= ServerRun(cfg, NewServer(limit), events).used <= limit
  }

  predicate OnlyH2(events: seq<ServerEvent>) {
    forall i :: 0 <= i < |events| ==> events[i].OpenH2? || events[i].OnH2?
  }

  lemma {:induction false} NoPlainCalls(cfg: Config, s: Server, events: seq<ServerEvent>, k: nat)
    requires OnlyH2(events)
    ensures Project(cfg, s, events, k) == []
    decreases |events|
  {
    if |events| > 0 { NoPlainCalls(cfg, s, events[..|events| - 1], k); }
  }

  /** A run can lead to a server with the single connection c. */
  ghost predicate Reachable(cfg: Config, limit: int, used: int, c: Conn) {
    exists events :: OnlyH2(events) && ServerRun(cfg, NewServer(limit), events) == Server(limit, used, map[], map[0 := c])
  }

  lemma RunExtends(cfg: Config, limit: int, events: seq<ServerEvent>, e: ServerEvent, s: Server)
    requires s == ServerStep(cfg, ServerRun(cfg, NewServer(limit), events), e)
    ensures ServerRun(cfg, NewServer(limit), events + [e]) == s
  {
    Runs.RunThen((s, e) => ServerStep(cfg, s, e), NewServer(limit), events, e);
  }

  lemma ReachFresh(cfg: Config, limit: int)
    ensures Reachable(cfg, limit, 0, Fresh)
  {
    RunExtends(cfg, limit, [], OpenH2(0), Server(limit, 0, map[], map[0 := Fresh]));
    assert OnlyH2([] + [OpenH2(0)]);
  }

  lemma ReachNext(cfg: Config, limit: int, used: int, c: Conn, e: Event, c': Conn)
    requires limit > 0 && Reachable(cfg, limit, used, c)
    requires c' == Step(cfg, c, e) && (e.DataEvent? ==> e.granted == Admits(limit, used, e.data.size))
    ensures Reachable(cfg, limit, used + Drawn(c', Target(e)) - Drawn(c, Target(e)), c')
  {
    var s := Server(limit, used, map[], map[0 := c]);
    var events :| OnlyH2(events) && ServerRun(cfg, NewServer(limit), events) == s;
    var s' := Server(limit, used + Drawn(c', Target(e)) - Drawn(c, Target(e)), map[], map[0 := c']);
    assert Answered(s, e) == e;
    assert s.conns[0 := c'] == map[0 := c'];
    assert StepH2(cfg, s, 0, e) == s';
    RunExtends(cfg, limit, events, OnH2(0, e), s');
    assert OnlyH2(events + [OnH2(0, e)]);
  }

  /** One open stream. */
  function OneStream(handler: Handler, f: Flow, b: Body, semaphore: int): Conn {
    Conn(map[1 := Stream(Life(Open, false, false, false, handler, false, false, false), f, b)], {1}, {}, 1, false, false, Healthy,
         semaphore, f.(queued := 0))
  }

  const NoBody := Body(0, 0, 0, 0, 0, 0)

  lemma OpenEarly(cfg: Config)
    requires cfg.streaming && cfg.maxStreams >= 1
    ensures Step(cfg, Fresh, HeadersEvent(1, false, false, Accept)) == OneStream(Queued, FullWindow, NoBody, 0)
  {
    var c := Step(cfg, Fresh, HeadersEvent(1, false, false, Accept));
    assert c.streams == OneStream(Queued, FullWindow, NoBody, 0).streams;
  }

  /** A request is dispatched before its body arrives. */
  lemma DispatchedEarly(cfg: Config, limit: int)
    requires cfg.streaming && limit > 0 && cfg.maxStreams >= 1
    ensures Reachable(cfg, limit, 0, OneStream(Started, FullWindow, NoBody, 1))
  {
    ReachFresh(cfg, limit);
    OpenEarly(cfg);
    ReachNext(cfg, limit, 0, Fresh, HeadersEvent(1, false, false, Accept), OneStream(Queued, FullWindow, NoBody, 0));
    ReachNext(cfg, limit, 0, OneStream(Queued, FullWindow, NoBody, 0), AcquireEvent(1), OneStream(Claimed, FullWindow, NoBody, 1));
    ReachNext(cfg, limit, 0, OneStream(Claimed, FullWindow, NoBody, 1), StartEvent(1), OneStream(Started, FullWindow, NoBody, 1));
  }

  const OneByte := Flow(INITIAL_WINDOW - 1, 0, 1, 1, 0, 0)

  /** Its first byte arrives before the handler goroutine begins. */
  lemma ByteBeforeBegin(cfg: Config, limit: int)
    requires cfg.streaming && limit >= 1 && cfg.maxBody >= 1 && cfg.maxStreams >= 1
    ensures Reachable(cfg, limit, 1, OneStream(Running, OneByte, Body(1, 0, 1, 1, 0, 0), 1))
  {
    DispatchedEarly(cfg, limit);
    var c, c1 := OneStream(Started, FullWindow, NoBody, 1), OneStream(Started, OneByte, Body(1, 1, 0, 1, 0, 0), 1);
    var e := DataEvent(Data(1, 1, 1, false), true, true);
    assert Step(cfg, c, e).streams == c1.streams;
    ReachNext(cfg, limit, 0, c, e, c1);
    ReachNext(cfg, limit, 1, c1, BeginEvent(1), OneStream(Running, OneByte, Body(1, 0, 1, 1, 0, 0), 1));
  }

  /** The byte is given back twice: when the handler reads it, and again when the goroutine ends. */
  lemma ReleasedTwice(cfg: Config, limit: int)
    requires cfg.streaming && limit >= 1 && cfg.maxBody >= 1 && cfg.maxStreams >= 1
    ensures exists c :: Reachable(cfg, limit, -1, c)
  {
    ByteBeforeBegin(cfg, limit);
    var c := OneStream(Running, OneByte, Body(1, 0, 1, 1, 0, 0), 1);
    var c1 := OneStream(Running, Flow(INITIAL_WINDOW, 1, 0, 1, 0, 1), Body(1, -1, 1, 1, 1, 0), 1);
    assert Step(cfg, c, ConsumeEvent(1, 1)).streams == c1.streams;
    ReachNext(cfg, limit, 1, c, ConsumeEvent(1, 1), c1);
    ReachNext(cfg, limit, 0, c1, ExitEvent(1), Step(cfg, c1, ExitEvent(1)));
  }
}
