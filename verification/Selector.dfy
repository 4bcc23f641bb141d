/** The health-aware endpoint selector of httpclient_health.go: round robin over endpoints that
    are ejected after repeated failures and come back through a single probe.

    Time is a positive integer and 0 is Go's zero time. The *url.URL that Next returns is used by
    the program only as an identity, so it is a ticket number here. */
module Selector {
  import Runs

  datatype Endpoint = Endpoint(failures: nat, ejectedUntil: nat, probe: bool, generation: nat)

  datatype Selection = Selection(endpoint: nat, generation: nat, probe: bool)

  datatype Config = Config(threshold: nat, ejection: nat)

  /** How a finished round trip is judged. */
  datatype Verdict = Canceled | Failed | Succeeded

  /** The response wins over the error unless the request was canceled. */
  function Judge(canceled: bool, status: Status, failureStatuses: set<int>): (v: Verdict) {
    if canceled then Canceled
    else if status.NoResponse? || status.code in failureStatuses then Failed
    else Succeeded
  }

  datatype Status = NoResponse | Responded(code: int)

  datatype State = State(endpoints: seq<Endpoint>, inflight: map<nat, Selection>, next: nat, tickets: nat)

  // ---------------------------------------------------------------- Next

  predicate Eligible(e: Endpoint, now: nat) {
    !e.probe && e.ejectedUntil <= now
  }

  /** The endpoint `step` places after the round-robin cursor. */
  function At(s: State, step: nat): (i: nat)
    requires s.next < |s.endpoints| && step < |s.endpoints|
    ensures i < |s.endpoints|
  {
    var i := s.next + step;
    if i < |s.endpoints| then i else i - |s.endpoints|
  }

  ghost predicate AllRefused(s: State, now: nat, steps: nat)
    requires s.next < |s.endpoints| && steps <= |s.endpoints|
  {
    forall k :: 0 <= k < steps ==> !Eligible(s.endpoints[At(s, k)], now)
  }

  /** The state after endpoint i is handed out. */
  function Take(s: State, i: nat): State
    requires i < |s.endpoints|
  {
    var e := s.endpoints[i];
    var probe := e.ejectedUntil != 0;
    State(s.endpoints[i := e.(probe := e.probe || probe)],
          s.inflight[s.tickets := Selection(i, e.generation, probe)],
          if i + 1 < |s.endpoints| then i + 1 else 0, s.tickets + 1)
  }

  /** The first eligible endpoint from place `step` on, or -1. */
  ghost function Pick(s: State, now: nat, step: nat): (i: int)
    requires s.next < |s.endpoints|
    ensures -1 <= i < |s.endpoints|
    decreases |s.endpoints| - step
  {
    if step >= |s.endpoints| then -1
    else if Eligible(s.endpoints[At(s, step)], now) then At(s, step)
    else Pick(s, now, step + 1)
  }

  ghost function NextStep(s: State, now: nat): State
    requires s.next < |s.endpoints|
  {
    var i := Pick(s, now, 0);
    if i < 0 then s else Take(s, i)
  }

  /** Places between the cursor and endpoint i. */
  ghost function Distance(s: State, i: nat): (d: nat)
    requires i < |s.endpoints| && s.next < |s.endpoints|
    ensures d < |s.endpoints| && At(s, d) == i
  {
    if i >= s.next then i - s.next else i + |s.endpoints| - s.next
  }

  lemma {:induction false} PickIsFirst(s: State, now: nat, step: nat, k: nat)
    requires s.next < |s.endpoints| && step <= k < |s.endpoints|
    requires AllRefused(s, now, step) && Eligible(s.endpoints[At(s, k)], now)
    ensures exists d :: step <= d <= k && Pick(s, now, step) == At(s, d)
                     && AllRefused(s, now, d) && Eligible(s.endpoints[At(s, d)], now)
    decreases k - step
  {
    if !Eligible(s.endpoints[At(s, step)], now) {
      PickIsFirst(s, now, step + 1, k);
    }
  }

  lemma {:induction false} PickFailsOnlyOnRefusals(s: State, now: nat, step: nat)
    requires s.next < |s.endpoints| && step <= |s.endpoints|
    requires AllRefused(s, now, step) && Pick(s, now, step) < 0
    ensures AllRefused(s, now, |s.endpoints|)
    decreases |s.endpoints| - step
  {
    if step < |s.endpoints| { PickFailsOnlyOnRefusals(s, now, step + 1); }
  }

  /** Next fails exactly when every endpoint is being probed or ejected into the future. */
  lemma NextFailsIff(s: State, now: nat)
    requires s.next < |s.endpoints|
    ensures Pick(s, now, 0) < 0 <==> forall i :: 0 <= i < |s.endpoints| ==> !Eligible(s.endpoints[i], now)
  {
    forall i | 0 <= i < |s.endpoints| ensures Eligible(s.endpoints[i], now) ==> Pick(s, now, 0) >= 0 {
      if Eligible(s.endpoints[i], now) { PickIsFirst(s, now, 0, Distance(s, i)); }
    }
    if Pick(s, now, 0) < 0 {
      PickFailsOnlyOnRefusals(s, now, 0);
    } else {
      PickIsEligible(s, now, 0);
    }
  }

  lemma PickIsEligible(s: State, now: nat, step: nat)
    requires s.next < |s.endpoints|
    ensures Pick(s, now, step) >= 0 ==> Eligible(s.endpoints[Pick(s, now, step)], now)
    decreases |s.endpoints| - step
  {
  }

  // ---------------------------------------------------------------- Report

  function Eject(c: Config, e: Endpoint, failures: nat, now: nat): Endpoint {
    Endpoint(failures, now + c.ejection, false, e.generation + 1)
  }

  function Settle(c: Config, e: Endpoint, probe: bool, verdict: Verdict, now: nat): Endpoint {
    match verdict
    case Canceled => if probe then Eject(c, e, e.failures, now) else e
    case Failed =>
      if probe || e.failures + 1 >= c.threshold then Eject(c, e, c.threshold, now) else e.(failures := e.failures + 1)
    case Succeeded =>
      if probe then Endpoint(0, 0, false, e.generation + 1) else e.(failures := 0)
  }

  /** Ticket t was issued for endpoint i and no ejection or recovery has happened since. */
  ghost predicate Live(s: State, t: nat, i: nat) {
    i < |s.endpoints| && t in s.inflight && s.inflight[t].endpoint == i && s.inflight[t].generation == s.endpoints[i].generation
  }

  ghost function ReportStep(c: Config, s: State, ticket: nat, verdict: Verdict, now: nat): State {
    if ticket !in s.inflight then s
    else
      var sel := s.inflight[ticket];
      var rest := s.(inflight := s.inflight - {ticket});
      if Live(s, ticket, sel.endpoint)
      then rest.(endpoints := s.endpoints[sel.endpoint := Settle(c, s.endpoints[sel.endpoint], sel.probe, verdict, now)])
      else rest
  }

  // ---------------------------------------------------------------- the invariant

  ghost predicate EndpointOk(c: Config, e: Endpoint) {
    && (e.ejectedUntil == 0 <==> e.failures < c.threshold)
    && e.failures <= c.threshold
    && (e.probe ==> e.ejectedUntil != 0)
  }

  ghost predicate TicketsOk(s: State) {
    forall t :: t in s.inflight ==>
      t < s.tickets && s.inflight[t].endpoint < |s.endpoints|
      && s.inflight[t].generation <= s.endpoints[s.inflight[t].endpoint].generation
  }

  /** A live ticket is a probe exactly when its endpoint is ejected, and then the endpoint says so. */
  ghost predicate LiveOk(s: State) {
    forall t: nat, i: nat :: Live(s, t, i) ==>
      (s.inflight[t].probe <==> s.endpoints[i].ejectedUntil != 0) && (s.inflight[t].probe ==> s.endpoints[i].probe)
  }

  ghost predicate OneProbe(s: State) {
    && (forall i :: 0 <= i < |s.endpoints| && s.endpoints[i].probe ==> exists t :: Live(s, t, i) && s.inflight[t].probe)
    && (forall t: nat, u: nat, i: nat :: Live(s, t, i) && Live(s, u, i) && s.inflight[t].probe ==> t == u)
  }

  ghost predicate Inv(c: Config, s: State) {
    && s.next < |s.endpoints|
    && (forall i :: 0 <= i < |s.endpoints| ==> EndpointOk(c, s.endpoints[i]))
    && TicketsOk(s) && LiveOk(s) && OneProbe(s)
  }

  ghost predicate ConfigOk(c: Config) {
    c.threshold > 0 && c.ejection > 0
  }

  function Fresh(n: nat): State {
    State(seq(n, _ => Endpoint(0, 0, false, 0)), map[], 0, 0)
  }

  lemma FreshIsInv(c: Config, n: nat)
    requires ConfigOk(c) && n > 0
    ensures Inv(c, Fresh(n))
  {
  }

  lemma TakeKeepsInv(c: Config, s: State, i: nat, now: nat)
    requires Inv(c, s) && i < |s.endpoints| && Eligible(s.endpoints[i], now)
    ensures Inv(c, Take(s, i))
  {
    var s' := Take(s, i);
    forall t, j ensures Live(s', t, j) <==> (t == s.tickets && j == i) || Live(s, t, j) {}
    if s'.endpoints[i].probe {
      assert Live(s', s.tickets, i) && s'.inflight[s.tickets].probe;
    }
    forall j | 0 <= j < |s'.endpoints| && s'.endpoints[j].probe
      ensures exists t :: Live(s', t, j) && s'.inflight[t].probe
    {
      if j != i {
        var t :| Live(s, t, j) && s.inflight[t].probe;
        assert Live(s', t, j) && s'.inflight[t].probe;
      }
    }
  }

  lemma ReportKeepsInv(c: Config, s: State, ticket: nat, verdict: Verdict, now: nat)
    requires ConfigOk(c) && Inv(c, s) && now > 0
    ensures Inv(c, ReportStep(c, s, ticket, verdict, now))
  {
    if ticket in s.inflight {
      var s' := ReportStep(c, s, ticket, verdict, now);
      var i := s.inflight[ticket].endpoint;
      forall t, j | Live(s', t, j) ensures Live(s, t, j) && t != ticket {}
      forall j | 0 <= j < |s'.endpoints| && s'.endpoints[j].probe
        ensures exists t :: Live(s', t, j) && s'.inflight[t].probe
      {
        var t :| Live(s, t, j) && s.inflight[t].probe;
        assert Live(s', t, j) && s'.inflight[t].probe;
      }
    }
  }

  lemma NextKeepsInv(c: Config, s: State, now: nat)
    requires Inv(c, s)
    ensures Inv(c, NextStep(s, now))
  {
    PickIsEligible(s, now, 0);
    if Pick(s, now, 0) >= 0 { TakeKeepsInv(c, s, Pick(s, now, 0), now); }
  }

  // ---------------------------------------------------------------- whole runs

  datatype Op = NextOp(now: nat) | ReportOp(ticket: nat, verdict: Verdict, now: nat)

  /** A selector has at least one endpoint; without any, nothing happens. */
  ghost function Apply(c: Config, s: State, op: Op): (s': State)
    ensures |s'.endpoints| == |s.endpoints| && (s.next < |s.endpoints| ==> s'.next < |s'.endpoints|)
  {
    match op
    case NextOp(now) => if s.next < |s.endpoints| then NextStep(s, now) else s
    case ReportOp(ticket, verdict, now) => ReportStep(c, s, ticket, verdict, now)
  }

  ghost predicate Timed(ops: seq<Op>) {
    forall i :: 0 <= i < |ops| ==> ops[i].now > 0
  }

  ghost function Run(c: Config, s: State, ops: seq<Op>): State {
    Runs.Run((s, op) => Apply(c, s, op), s, ops)
  }

  lemma StepKeepsInv(c: Config, s: State, op: Op)
    requires ConfigOk(c) && Inv(c, s) && op.now > 0
    ensures Inv(c, Apply(c, s, op))
  {
    match op {
      case NextOp(now) => NextKeepsInv(c, s, now);
      case ReportOp(ticket, verdict, now) => ReportKeepsInv(c, s, ticket, verdict, now);
    }
  }

  /** Every reachable state keeps the invariant. */
  lemma {:induction false} RunKeepsInv(c: Config, s: State, ops: seq<Op>)
    requires ConfigOk(c) && Inv(c, s) && Timed(ops)
    ensures Inv(c, Run(c, s, ops)) && |Run(c, s, ops).endpoints| == |s.endpoints|
    decreases |ops|
  {
    if |ops| > 0 {
      StepKeepsInv(c, s, ops[0]);
      RunKeepsInv(c, Apply(c, s, ops[0]), ops[1..]);
    }
  }

  /** In every run from a fresh selector: at most one live probe per endpoint, announced by its
      probe flag; an ejected endpoint has no other live selection; an endpoint is ejected exactly
      when its failures reached the threshold. */
  lemma ProbeSafety(c: Config, n: nat, ops: seq<Op>, i: nat, t: nat, u: nat)
    requires ConfigOk(c) && n > 0 && Timed(ops) && i < n
    ensures var s := Run(c, Fresh(n), ops);
      && |s.endpoints| == n
      && (s.endpoints[i].probe <==> exists p :: Live(s, p, i) && s.inflight[p].probe)
      && (Live(s, t, i) && Live(s, u, i) && s.inflight[t].probe ==> t == u)
      && (Live(s, t, i) && s.endpoints[i].ejectedUntil != 0 ==> s.inflight[t].probe)
      && (s.endpoints[i].ejectedUntil == 0 <==> s.endpoints[i].failures < c.threshold)
      && (s.endpoints[i].ejectedUntil != 0 ==> s.endpoints[i].failures == c.threshold)
  {
    FreshIsInv(c, n);
    RunKeepsInv(c, Fresh(n), ops);
    assert EndpointOk(c, Run(c, Fresh(n), ops).endpoints[i]);
  }

  /** The ticket was issued and its report can no longer change an endpoint: it was reported, or its
      endpoint has been ejected or has recovered since. */
  ghost predicate Dead(s: State, t: nat) {
    t < s.tickets && forall i: nat :: !Live(s, t, i)
  }

  lemma StepAges(c: Config, s: State, op: Op, i: nat, t: nat)
    requires Inv(c, s) && i < |s.endpoints|
    ensures Apply(c, s, op).endpoints[i].generation >= s.endpoints[i].generation
    ensures Dead(s, t) ==> Dead(Apply(c, s, op), t)
  {
    var s' := Apply(c, s, op);
    if Dead(s, t) {
      forall j: nat ensures !Live(s', t, j) { assert !Live(s, t, j); }
    }
  }

  lemma {:induction false} RunAges(c: Config, s: State, ops: seq<Op>, i: nat, t: nat)
    requires ConfigOk(c) && Inv(c, s) && Timed(ops) && i < |s.endpoints|
    ensures var s' := Run(c, s, ops);
      i < |s'.endpoints| && s'.endpoints[i].generation >= s.endpoints[i].generation && (Dead(s, t) ==> Dead(s', t))
    decreases |ops|
  {
    if |ops| > 0 {
      StepKeepsInv(c, s, ops[0]);
      StepAges(c, s, ops[0], i, t);
      RunAges(c, Apply(c, s, ops[0]), ops[1..], i, t);
    }
  }

  /** At any two moments of any run: generations do not decrease, and a ticket that was dead at the
      first is dead at the second, where its report changes no endpoint. */
  lemma StaleReportsChangeNoEndpoint(c: Config, n: nat, early: seq<Op>, late: seq<Op>, i: nat, t: nat, verdict: Verdict, now: nat)
    requires ConfigOk(c) && n > 0 && Timed(early) && Timed(late) && i < n
    ensures var s := Run(c, Fresh(n), early);
      var s' := Run(c, s, late);
      && |s.endpoints| == |s'.endpoints| == n && s.endpoints[i].generation <= s'.endpoints[i].generation
      && (Dead(s, t) ==> Dead(s', t) && ReportStep(c, s', t, verdict, now) == s'.(inflight := s'.inflight - {t}))
  {
    FreshIsInv(c, n);
    RunKeepsInv(c, Fresh(n), early);
    RunKeepsInv(c, Run(c, Fresh(n), early), late);
    RunAges(c, Run(c, Fresh(n), early), late, i, t);
  }

  /** The report of endpoint i's own probe that brings it back. */
  ghost predicate Recovers(s: State, op: Op, i: nat) {
    op.ReportOp? && op.verdict.Succeeded? && Live(s, op.ticket, i) && s.inflight[op.ticket].probe
  }

  lemma StepRecovers(c: Config, s: State, op: Op, i: nat)
    requires ConfigOk(c) && Inv(c, s) && op.now > 0 && i < |s.endpoints| && s.endpoints[i].ejectedUntil != 0
    ensures Apply(c, s, op).endpoints[i].ejectedUntil == 0 <==> Recovers(s, op, i)
  {
  }

  lemma {:induction false} RunRecovers(c: Config, s: State, ops: seq<Op>, i: nat)
    requires ConfigOk(c) && Inv(c, s) && Timed(ops) && i < |s.endpoints| && s.endpoints[i].ejectedUntil != 0
    requires i < |Run(c, s, ops).endpoints| && Run(c, s, ops).endpoints[i].ejectedUntil == 0
    ensures exists k :: 0 <= k < |ops| && Recovers(Run(c, s, ops[..k]), ops[k], i)
    decreases |ops|
  {
    var n := |ops| - 1;
    assert n >= 0;
    var init, s1 := ops[..n], Run(c, s, ops[..n]);
    assert init + [ops[n]] == ops;
    Runs.RunThen((s, op) => Apply(c, s, op), s, init, ops[n]);
    RunKeepsInv(c, s, init);
    if s1.endpoints[i].ejectedUntil == 0 {
      RunRecovers(c, s, init, i);
      var k :| 0 <= k < n && Recovers(Run(c, s, init[..k]), init[k], i);
      assert init[..k] == ops[..k];
    } else {
      StepRecovers(c, s1, ops[n], i);
    }
  }

  /** At any two moments of any run: an endpoint ejected at the first and not at the second was
      brought back in between by a success report of its own probe. */
  lemma OnlyProbesRecover(c: Config, n: nat, early: seq<Op>, late: seq<Op>, i: nat)
    requires ConfigOk(c) && n > 0 && Timed(early) && Timed(late) && i < n
    ensures var s := Run(c, Fresh(n), early);
      var s' := Run(c, s, late);
      && |s.endpoints| == |s'.endpoints| == n
      && (s.endpoints[i].ejectedUntil != 0 && s'.endpoints[i].ejectedUntil == 0 ==>
            exists k :: 0 <= k < |late| && Recovers(Run(c, s, late[..k]), late[k], i))
  {
    FreshIsInv(c, n);
    RunKeepsInv(c, Fresh(n), early);
    var s := Run(c, Fresh(n), early);
    RunKeepsInv(c, s, late);
    if s.endpoints[i].ejectedUntil != 0 && Run(c, s, late).endpoints[i].ejectedUntil == 0 { RunRecovers(c, s, late, i); }
  }

  /** Endpoint i is eligible at each Next of the run, up to the one that returns it. */
  ghost predicate EligibleUntilChosen(c: Config, s: State, ops: seq<Op>, i: nat)
    requires s.next < |s.endpoints| && i < |s.endpoints|
    decreases |ops|
  {
    if |ops| == 0 then true
    else if ops[0].NextOp? then
      Eligible(s.endpoints[i], ops[0].now)
      && (Pick(s, ops[0].now, 0) == i || EligibleUntilChosen(c, Apply(c, s, ops[0]), ops[1..], i))
    else EligibleUntilChosen(c, Apply(c, s, ops[0]), ops[1..], i)
  }

  /** The endpoints the Next calls of the run return, -1 for a failed call. */
  ghost function Chosen(c: Config, s: State, ops: seq<Op>): seq<int>
    requires s.next < |s.endpoints|
    decreases |ops|
  {
    if |ops| == 0 then []
    else (if ops[0].NextOp? then [Pick(s, ops[0].now, 0)] else []) + Chosen(c, Apply(c, s, ops[0]), ops[1..])
  }

  /** A Next that passes over an eligible endpoint moves the cursor closer to it. */
  lemma PassingOverApproaches(s: State, now: nat, i: nat)
    requires s.next < |s.endpoints| && i < |s.endpoints| && Eligible(s.endpoints[i], now)
    ensures Pick(s, now, 0) >= 0
    ensures Pick(s, now, 0) != i ==> Distance(NextStep(s, now), i) < Distance(s, i)
  {
    PickIsFirst(s, now, 0, Distance(s, i));
  }

  /** i is among the first d + 1 picks, and no pick before it is a failure. */
  ghost predicate ServedWithin(picks: seq<int>, i: nat, d: nat) {
    |picks| > 0 && (picks[0] == i || (d > 0 && picks[0] >= 0 && ServedWithin(picks[1..], i, d - 1)))
  }

  lemma ServedLater(picks: seq<int>, i: nat, d: nat, d': nat)
    requires ServedWithin(picks, i, d) && d <= d'
    ensures ServedWithin(picks, i, d')
    decreases d
  {
  }

  /** Bounded fairness: an endpoint that stays eligible is returned after at most as many other
      endpoints as lie between it and the cursor, and every Next until then succeeds. */
  lemma {:induction false} StayingEligibleMeansChosen(c: Config, s: State, ops: seq<Op>, i: nat)
    requires s.next < |s.endpoints| && i < |s.endpoints|
    requires EligibleUntilChosen(c, s, ops, i)
    requires |Chosen(c, s, ops)| > Distance(s, i)
    ensures ServedWithin(Chosen(c, s, ops), i, Distance(s, i))
    decreases |ops|
  {
    var s', rest := Apply(c, s, ops[0]), ops[1..];
    if ops[0].NextOp? {
      PassingOverApproaches(s, ops[0].now, i);
      if Pick(s, ops[0].now, 0) != i {
        StayingEligibleMeansChosen(c, s', rest, i);
        ServedLater(Chosen(c, s', rest), i, Distance(s', i), Distance(s, i) - 1);
        assert Chosen(c, s, ops)[1..] == Chosen(c, s', rest);
      }
    } else {
      assert Chosen(c, s, ops) == Chosen(c, s', rest);
      StayingEligibleMeansChosen(c, s', rest, i);
    }
  }

  // ---------------------------------------------------------------- the selector object

  class HealthAwareSelector {
    const config: Config
    var endpoints: seq<Endpoint>
    var inflight: map<nat, Selection>
    var next: nat
    var tickets: nat

    ghost function View(): State
      reads this
    {
      State(endpoints, inflight, next, tickets)
    }

    ghost predicate Valid()
      reads this
    {
      ConfigOk(config) && Inv(config, View())
    }

    constructor (threshold: nat, ejection: nat, count: nat)
      requires count > 0
      ensures Valid() && View() == Fresh(count)
      ensures config == Config(if threshold == 0 then 3 else threshold, if ejection == 0 then 30 else ejection)
    {
      config := Config(if threshold == 0 then 3 else threshold, if ejection == 0 then 30 else ejection);
      endpoints := seq(count, _ => Endpoint(0, 0, false, 0));
      inflight, next, tickets := map[], 0, 0;
      new;
      FreshIsInv(config, count);
    }

    /** The scan of Next: the first eligible endpoint from the cursor on, or -1. */
    method Scan(now: nat) returns (index: int)
      requires next < |endpoints|
      ensures index == Pick(View(), now, 0)
    {
      var step := 0;
      while step < |endpoints|
        invariant step <= |endpoints| && Pick(View(), now, 0) == Pick(View(), now, step)
      {
        index := next + step;   // modulo the number of endpoints
        if index >= |endpoints| { index := index - |endpoints|; }
        if !(endpoints[index].probe || endpoints[index].ejectedUntil > now) { return; }
        step := step + 1;
      }
      index := -1;
    }

    /** Returns a ticket and its endpoint, or -1 when no endpoint is eligible. */
    method Next(now: nat) returns (ticket: nat, chosen: int)
      requires Valid() && now > 0
      modifies this
      ensures Valid() && View() == NextStep(old(View()), now)
      ensures chosen == Pick(old(View()), now, 0) && ticket == old(tickets)
    {
      ghost var was := View();
      NextKeepsInv(config, was, now);
      PickIsEligible(was, now, 0);
      ticket := tickets;
      chosen := Scan(now);
      if chosen < 0 { return; }
      var e := endpoints[chosen];
      var probe := e.ejectedUntil != 0;
      endpoints := endpoints[chosen := e.(probe := probe)];
      next := if chosen + 1 < |endpoints| then chosen + 1 else 0;
      inflight := inflight[ticket := Selection(chosen, e.generation, probe)];
      tickets := tickets + 1;
      assert View() == Take(was, chosen);
    }

    /** What Report does to the endpoint of a live ticket. */
    method Settled(e: Endpoint, probe: bool, canceled: bool, status: Status, failureStatuses: set<int>, now: nat)
      returns (e': Endpoint)
      ensures e' == Settle(config, e, probe, Judge(canceled, status, failureStatuses), now)
    {
      e' := e;
      if canceled {
        if probe {
          e' := e'.(probe := false, ejectedUntil := now + config.ejection, generation := e.generation + 1);
        }
        return;
      }
      var failure := status.NoResponse?;
      if status.Responded? { failure := status.code in failureStatuses; }
      if failure {
        e' := e'.(failures := e'.failures + 1);
        if probe || e'.failures >= config.threshold {
          e' := Endpoint(config.threshold, now + config.ejection, false, e.generation + 1);
        }
        return;
      }
      e' := e'.(failures := 0);
      if probe { e' := e'.(ejectedUntil := 0, probe := false, generation := e.generation + 1); }
    }

    method Report(ticket: nat, canceled: bool, status: Status, failureStatuses: set<int>, now: nat)
      requires Valid() && now > 0
      modifies this
      ensures Valid()
      ensures View() == ReportStep(config, old(View()), ticket, Judge(canceled, status, failureStatuses), now)
    {
      ReportKeepsInv(config, View(), ticket, Judge(canceled, status, failureStatuses), now);
      if ticket !in inflight { return; }
      var sel := inflight[ticket];
      inflight := inflight - {ticket};
      if sel.generation != endpoints[sel.endpoint].generation { return; }
      var e := Settled(endpoints[sel.endpoint], sel.probe, canceled, status, failureStatuses, now);
      endpoints := endpoints[sel.endpoint := e];
    }
  }
}
