/** With how many workers the file queue keeps its promises: runs with two workers that break them, and
    the proof that one worker never does. */
module FileQueueWorkers {
  import Runs
  import opened FileQueue
  import opened FileQueueCalls

  /** The queue is configured with `n` workers, which are hired anew after each crash. Without faults a
      file that is there and not too big can be read. */
  predicate Staffed(n: nat, faults: bool, steps: seq<Step>) {
    forall i :: 0 <= i < |steps| ==> (steps[i].Hire? ==> steps[i].w < n) && (steps[i].Misread? ==> faults)
  }

  // ---------------------------------------------------------------- at most one worker

  /** What a claim knows of the pending directory is still true. */
  ghost predicate UpToDate(k: Worker, f: Files, faults: bool) {
    && k.listed <= f.pending.Keys && k.listed !! k.doomed !! k.seen.Keys
    && (forall id :: id in k.seen ==> id in f.pending && f.pending[id] == k.seen[id])
    && (forall id :: id in k.doomed ==> id in f.pending && (faults || f.pending[id].big))
  }

  ghost predicate Solo(q: Queue, n: nat, faults: bool) {
    && q.workers.Keys <= (if n == 0 then {} else {0}) && (!q.running ==> q.workers == map[])
    && q.files.pending.Keys <= q.enqueued.Keys && q.files.processing.Keys <= q.enqueued.Keys
    && (0 in q.workers ==>
          UpToDate(q.workers[0], q.files, faults) && (q.workers[0].phase.Holding? ==> q.workers[0].phase.id in q.enqueued))
  }

  lemma SoloIsFresh(q: Queue, n: nat, faults: bool, s: Step)
    requires Solo(q, n, faults)
    ensures CarefulStep(q, s) && (n == 0 || !faults ==> NoOverlap(q, s))
  {
  }

  lemma ReadsStayUpToDate(k: Worker, f: Files, faults: bool, id: Id)
    requires UpToDate(k, f, faults) && id in k.listed
    ensures UpToDate(k.(listed := k.listed - {id}, seen := k.seen[id := f.pending[id]]), f, faults)
    ensures faults || f.pending[id].big ==> UpToDate(k.(listed := k.listed - {id}, doomed := k.doomed + {id}), f, faults)
  {
  }

  lemma RemovalStaysUpToDate(k: Worker, f: Files, faults: bool, id: Id)
    requires UpToDate(k, f, faults) && id in k.doomed
    ensures UpToDate(k.(doomed := k.doomed - {id}), f.(pending := f.pending - {id}), faults)
  {
  }

  lemma SoloAct(q: Queue, n: nat, faults: bool, s: Step)
    requires Solo(q, n, faults) && 0 in q.workers && (s.Misread? ==> faults)
    ensures Solo(Act(q, s, 0), n, faults)
  {
    var k := q.workers[0];
    if s.Read? || s.Misread? {
      if s.id in k.listed { ReadsStayUpToDate(k, q.files, faults, s.id); }
    } else if s.Unlink? {
      if s.id in k.doomed { RemovalStaysUpToDate(k, q.files, faults, s.id); }
    } else {
      SoloWorks(q, n, faults, s);
    }
  }

  lemma SoloWorks(q: Queue, n: nat, faults: bool, s: Step)
    requires Solo(q, n, faults) && 0 in q.workers && !s.Read? && !s.Misread? && !s.Unlink?
    ensures Solo(Act(q, s, 0), n, faults)
  {
  }

  lemma SoloStep(q: Queue, n: nat, faults: bool, s: Step)
    requires n <= 1 && Solo(q, n, faults) && (s.Hire? ==> s.w < n) && (s.Misread? ==> faults)
    ensures Solo(Next(q, s), n, faults)
  {
    match s {
      case Enqueue(id, job) =>
      case Purge(_) =>
      case Crash =>
      case RecoverOne(_) =>
      case Resume =>
      case Hire(_) =>
      case _ => if s.w in q.workers { SoloAct(q, n, faults, s); }
    }
  }

  lemma {:induction false} SoloIsCareful(q: Queue, n: nat, faults: bool, steps: seq<Step>)
    requires n <= 1 && Solo(q, n, faults) && Staffed(n, faults, steps)
    ensures Runs.Along(Next, CarefulStep, q, steps)
    ensures n == 0 || !faults ==> Runs.Along(Next, NoOverlap, q, steps)
    decreases |steps|
  {
    if |steps| > 0 {
      SoloIsFresh(q, n, faults, steps[0]);
      SoloStep(q, n, faults, steps[0]);
      SoloIsCareful(Next(q, steps[0]), n, faults, steps[1..]);
    }
  }

  // ---------------------------------------------------------------- reachable states

  ghost predicate ReachedBy(n: nat, faults: bool, q: Queue) {
    exists steps :: Staffed(n, faults, steps) && After(steps) == q
  }

  lemma ReachBy(n: nat, faults: bool, q: Queue, s: Step, q1: Queue)
    requires ReachedBy(n, faults, q) && q1 == Next(q, s) && (s.Hire? ==> s.w < n) && (s.Misread? ==> faults)
    ensures ReachedBy(n, faults, q1)
  {
    var steps :| Staffed(n, faults, steps) && After(steps) == q;
    Runs.RunThen(Next, Empty, steps, s);
    assert Staffed(n, faults, steps + [s]) && After(steps + [s]) == q1;
  }

  /** Runs of a larger staff, or with faults, include the others. */
  lemma ReachedByMore(n: nat, faults: bool, m: nat, q: Queue)
    requires n <= m && ReachedBy(n, false, q)
    ensures ReachedBy(m, faults, q)
  {
    var steps :| Staffed(n, false, steps) && After(steps) == q;
    assert Staffed(m, faults, steps);
  }

  // ---------------------------------------------------------------- a read that fails

  const AJob := Job(0, 2, 0, 0, false)

  /** One accepted job in pending and one worker. */
  function Single(k: Worker): Queue {
    Queue(Files(map[7 := AJob], map[], {}, {}), map[0 := k], true, map[7 := AJob], {}, {}, map[], 0)
  }

  /** A claim removes a file whose reading fails for any reason, so that a single worker loses a job of
      which it was never told that it is unreadable. */
  lemma FailedReadLosesJob()
    ensures exists q :: ReachedBy(1, true, q) && Lost(q, 7)
  {
    SingleLists();
    assert {7} - {7} == {} && {} + {7} == {7};
    assert Next(Single(Listing), Misread(0, 7)) == Single(Doomed);
    ReachBy(1, true, Single(Listing), Misread(0, 7), Single(Doomed));
    ReachBy(1, true, Single(Doomed), Unlink(0, 7), Next(Single(Doomed), Unlink(0, 7)));
    OverlappingRemovalLoses(Single(Doomed), 0, 7);
  }

  lemma SingleLists()
    ensures ReachedBy(1, true, Single(Listing))
  {
    assert Staffed(1, true, []) && After([]) == Empty;
    var q0 := Next(Empty, Enqueue(7, AJob));
    ReachBy(1, true, Empty, Enqueue(7, AJob), q0);
    assert Next(q0, Hire(0)) == Single(AtRest);
    ReachBy(1, true, q0, Hire(0), Single(AtRest));
    assert map[7 := AJob].Keys == {7};
    assert Next(Single(AtRest), List(0)) == Single(Listing);
    ReachBy(1, true, Single(AtRest), List(0), Single(Listing));
  }

  // ---------------------------------------------------------------- two workers

  ghost predicate Reached(q: Queue) {
    ReachedBy(2, false, q)
  }

  lemma Reach(q: Queue, s: Step, q1: Queue)
    requires Reached(q) && q1 == Next(q, s) && (s.Hire? ==> s.w < 2) && !s.Misread?
    ensures Reached(q1)
  {
    ReachBy(2, false, q, s, q1);
  }

  const Again := Retried(AJob, 0)

  /** One accepted job; worker `w` is in state `k` and the other one in state `o`. */
  function Pair(pending: map<Id, Job>, processing: map<Id, Job>, w: nat, k: Worker, o: Worker, calls: map<Id, nat>): Queue
    requires w < 2
  {
    Queue(Files(pending, processing, {}, {}), map[w := k, 1 - w := o], true, map[7 := AJob], {}, {}, calls, 0)
  }

  lemma Swap(p: map<Id, Job>, r: map<Id, Job>, w: nat, k: Worker, o: Worker, calls: map<Id, nat>)
    requires w < 2
    ensures Pair(p, r, w, k, o, calls) == Pair(p, r, 1 - w, o, k, calls)
  {
    assert map[w := k, 1 - w := o] == map[1 - w := o, w := k];
  }

  lemma Put(p: map<Id, Job>, r: map<Id, Job>, w: nat, k: Worker, o: Worker, calls: map<Id, nat>, k1: Worker)
    requires w < 2
    ensures SetWorker(Pair(p, r, w, k, o, calls), w, k1) == Pair(p, r, w, k1, o, calls)
  {
    PutFirst(w, 1 - w, k, o, k1);
  }

  lemma PutFirst(w: nat, v: nat, k: Worker, o: Worker, k1: Worker)
    requires w != v
    ensures map[w := k, v := o][w := k1] == map[w := k1, v := o]
  {
    var a, b := map[w := k, v := o][w := k1], map[w := k1, v := o];
    assert a.Keys == {w, v} == b.Keys;
    assert a[w] == b[w] && a[v] == b[v];
  }

  const Listing := Worker(Idle, {7}, map[], {})
  const Doomed := Worker(Idle, {}, map[], {7})
  const Clears := Worker(Clearing(7), {}, map[], {})

  function Sees(j: Job): Worker {
    Worker(Idle, {}, map[7 := j], {})
  }

  function Holds(j: Job, called: bool): Worker {
    Worker(Holding(7, j, called), {}, map[], {})
  }

  lemma Lists(j: Job, r: map<Id, Job>, w: nat, o: Worker, calls: map<Id, nat>)
    requires w < 2 && Reached(Pair(map[7 := j], r, w, AtRest, o, calls))
    ensures Reached(Pair(map[7 := j], r, w, Listing, o, calls))
  {
    assert map[7 := j].Keys == {7};
    Put(map[7 := j], r, w, AtRest, o, calls, Listing);
    Reach(Pair(map[7 := j], r, w, AtRest, o, calls), List(w), Pair(map[7 := j], r, w, Listing, o, calls));
  }

  lemma Reads(j: Job, r: map<Id, Job>, w: nat, o: Worker, calls: map<Id, nat>)
    requires w < 2 && !j.big && Reached(Pair(map[7 := j], r, w, AtRest, o, calls))
    ensures Reached(Pair(map[7 := j], r, w, Sees(j), o, calls))
  {
    Lists(j, r, w, o, calls);
    assert Listing.listed - {7} == {};
    Put(map[7 := j], r, w, Listing, o, calls, Sees(j));
    Reach(Pair(map[7 := j], r, w, Listing, o, calls), Read(w, 7), Pair(map[7 := j], r, w, Sees(j), o, calls));
  }

  lemma Misses(r: map<Id, Job>, w: nat, o: Worker, calls: map<Id, nat>)
    requires w < 2 && Reached(Pair(map[], r, w, Listing, o, calls))
    ensures Reached(Pair(map[], r, w, Doomed, o, calls))
  {
    assert Listing.listed - {7} == {} && {} + {7} == {7};
    Put(map[], r, w, Listing, o, calls, Doomed);
    Reach(Pair(map[], r, w, Listing, o, calls), Read(w, 7), Pair(map[], r, w, Doomed, o, calls));
  }

  lemma Claims(j: Job, seen: Job, w: nat, o: Worker, calls: map<Id, nat>)
    requires w < 2 && Reached(Pair(map[7 := j], map[], w, Sees(seen), o, calls))
    ensures Reached(Pair(map[], map[7 := j], w, Holds(seen, false), o, calls))
  {
    var q := Pair(map[7 := j], map[], w, Sees(seen), o, calls);
    assert map[7 := j] - {7} == map[];
    Put(map[7 := j], map[], w, Sees(seen), o, calls, Holds(seen, false));
    Reach(q, Claim(w, 7), Pair(map[], map[7 := j], w, Holds(seen, false), o, calls));
  }

  /** The worker claims the job as `seen` and its handler is called. */
  lemma Works(j: Job, seen: Job, w: nat, o: Worker, calls: map<Id, nat>, calls1: map<Id, nat>)
    requires w < 2 && Reached(Pair(map[7 := j], map[], w, Sees(seen), o, calls))
    requires calls1 == calls[7 := if 7 in calls then calls[7] + 1 else 1]
    ensures Reached(Pair(map[], map[7 := j], w, Holds(seen, true), o, calls1))
  {
    Claims(j, seen, w, o, calls);
    Put(map[], map[7 := j], w, Holds(seen, false), o, calls, Holds(seen, true));
    Reach(Pair(map[], map[7 := j], w, Holds(seen, false), o, calls), Call(w), Pair(map[], map[7 := j], w, Holds(seen, true), o, calls1));
  }

  /** The handler has failed: the job is written back. */
  lemma Retries(r: map<Id, Job>, w: nat, o: Worker, calls: map<Id, nat>)
    requires w < 2 && Reached(Pair(map[], r, w, Holds(AJob, true), o, calls))
    ensures Reached(Pair(map[7 := Again], r, w, Clears, o, calls))
  {
    Put(map[], r, w, Holds(AJob, true), o, calls, Clears);
    Reach(Pair(map[], r, w, Holds(AJob, true), o, calls), WriteRetry(w, 0), Pair(map[7 := Again], r, w, Clears, o, calls));
  }

  lemma Removes(j: Job, r: map<Id, Job>, w: nat, o: Worker, calls: map<Id, nat>)
    requires w < 2 && r.Keys == {7} && Reached(Pair(map[7 := j], r, w, Clears, o, calls))
    ensures Reached(Pair(map[7 := j], map[], w, AtRest, o, calls))
  {
    assert r - {7} == map[];
    Put(map[7 := j], r, w, Clears, o, calls, AtRest);
    Reach(Pair(map[7 := j], r, w, Clears, o, calls), Remove(w), Pair(map[7 := j], map[], w, AtRest, o, calls));
  }

  lemma Starts()
    ensures Reached(Pair(map[7 := AJob], map[], 0, AtRest, AtRest, map[]))
  {
    assert Staffed(2, false, []) && After([]) == Empty;
    var q0 := Queue(Files(map[7 := AJob], map[], {}, {}), map[], true, map[7 := AJob], {}, {}, map[], 0);
    Reach(Empty, Enqueue(7, AJob), q0);
    var q1 := q0.(workers := map[0 := AtRest]);
    Reach(q0, Hire(0), q1);
    Reach(q1, Hire(1), Pair(map[7 := AJob], map[], 0, AtRest, AtRest, map[]));
  }

  /** Worker 0 has called the handler and written the job back, while the other one is in state `o`. */
  lemma WritesBack(o: Worker)
    requires Reached(Pair(map[7 := AJob], map[], 0, AtRest, o, map[]))
    ensures Reached(Pair(map[7 := Again], map[7 := AJob], 0, Clears, o, map[7 := 1]))
  {
    Reads(AJob, map[], 0, o, map[]);
    Works(AJob, AJob, 0, o, map[], map[7 := 1]);
    Retries(map[7 := AJob], 0, o, map[7 := 1]);
  }

  /** A retry writes the pending file before it removes the processing file. If the job is claimed in
      between, the removal takes the new claim's file: the job is in no directory. */
  lemma OverlappingClaimLosesJob()
    ensures exists q :: Reached(q) && Lost(q, 7)
  {
    Starts();
    WritesBack(AtRest);
    var calls, r := map[7 := 1], map[7 := AJob];
    Swap(map[7 := Again], r, 0, Clears, AtRest, calls);
    Reads(Again, r, 1, Clears, calls);
    var q := Pair(map[7 := Again], r, 1, Sees(Again), Clears, calls);
    var q1 := Next(q, Claim(1, 7));
    Reach(q, Claim(1, 7), q1);
    Reach(q1, Remove(0), Next(q1, Remove(0)));
    OverlappingClaimLoses(q, 0, 1, 7);
  }

  /** The other worker has listed the job and finds its file missing. */
  lemma MissesTaken(r: map<Id, Job>, calls: map<Id, nat>)
    requires Reached(Pair(map[], r, 0, Holds(AJob, true), Listing, calls))
    ensures Reached(Pair(map[], r, 0, Holds(AJob, true), Doomed, calls))
  {
    var k := Holds(AJob, true);
    Swap(map[], r, 0, k, Listing, calls);
    Misses(r, 1, k, calls);
    Swap(map[], r, 1, Doomed, k, calls);
  }

  lemma OtherLists()
    ensures Reached(Pair(map[7 := AJob], map[], 0, AtRest, Listing, map[]))
  {
    var p := map[7 := AJob];
    Starts();
    Swap(p, map[], 0, AtRest, AtRest, map[]);
    Lists(AJob, map[], 1, AtRest, map[]);
    Swap(p, map[], 1, Listing, AtRest, map[]);
  }

  lemma OtherDoomed(r: map<Id, Job>, calls: map<Id, nat>)
    requires r == map[7 := AJob] && calls == map[7 := 1]
    ensures Reached(Pair(map[7 := Again], map[], 0, AtRest, Doomed, calls))
  {
    OtherLists();
    Reads(AJob, map[], 0, Listing, map[]);
    Works(AJob, AJob, 0, Listing, map[], calls);
    MissesTaken(r, calls);
    Retries(r, 0, Doomed, calls);
    Removes(Again, r, 0, Doomed, calls);
  }

  /** A claim removes a listed file that it cannot read. If the file was missing because another worker
      had it, and a retry has put it back, the removal loses the job. */
  lemma OverlappingRemovalLosesJob()
    ensures exists q :: Reached(q) && Lost(q, 7)
  {
    OtherDoomed(map[7 := AJob], map[7 := 1]);
    var q := Pair(map[7 := Again], map[], 0, AtRest, Doomed, map[7 := 1]);
    Reach(q, Unlink(1, 7), Next(q, Unlink(1, 7)));
    OverlappingRemovalLoses(q, 1, 7);
  }

  /** Worker 1 reads the job; worker 0 then works on it and puts it back. */
  lemma ReadBeforeRetry(calls: map<Id, nat>)
    requires calls == map[7 := 1]
    ensures Reached(Pair(map[7 := Again], map[], 1, Sees(AJob), AtRest, calls))
  {
    Starts();
    var p := map[7 := AJob];
    Swap(p, map[], 0, AtRest, AtRest, map[]);
    Reads(AJob, map[], 1, AtRest, map[]);
    Swap(p, map[], 1, Sees(AJob), AtRest, map[]);
    WritesBack(Sees(AJob));
    Removes(Again, p, 0, Sees(AJob), calls);
    Swap(map[7 := Again], map[], 0, AtRest, Sees(AJob), calls);
  }

  /** Claiming a stale copy and retrying it leaves the file as it was, with one more call. */
  lemma StaleRound(c: nat, calls: map<Id, nat>, calls1: map<Id, nat>)
    requires calls == map[7 := c] && calls1 == map[7 := c + 1]
    requires Reached(Pair(map[7 := Again], map[], 1, Sees(AJob), AtRest, calls))
    ensures Reached(Pair(map[7 := Again], map[], 1, AtRest, AtRest, calls1))
  {
    Works(Again, AJob, 1, AtRest, calls, calls1);
    Retries(map[7 := Again], 1, AtRest, calls1);
    Removes(Again, map[7 := Again], 1, AtRest, calls1);
  }

  /** A worker that has read a job before another one's retry claims it with its old number of
      attempts. No processing file is left at any claim and no job is lost, but a job with
      MaxAttempts 2 is handed to its handler three times. */
  lemma StaleClaimExceedsBound()
    ensures exists q :: Reached(q) && q.crashes == 0 && 7 in q.enqueued && Calls(q, 7) > Bound(q.enqueued[7])
  {
    ReadBeforeRetry(map[7 := 1]);
    StaleRound(1, map[7 := 1], map[7 := 2]);
    Reads(Again, map[], 1, AtRest, map[7 := 2]);
    Works(Again, Again, 1, AtRest, map[7 := 2], map[7 := 3]);
    var q := Pair(map[], map[7 := Again], 1, Holds(Again, true), AtRest, map[7 := 3]);
    assert Reached(q) && Calls(q, 7) == 3 && Bound(q.enqueued[7]) == 2;
  }

  // ---------------------------------------------------------------- how many workers

  lemma FewerWorkers(n: nat, faults: bool, steps: seq<Step>)
    requires n <= 1 && Staffed(n, faults, steps)
    ensures Careful(steps) && (n == 0 || !faults ==> Orderly(steps))
  {
    SoloIsCareful(Empty, n, faults, steps);
  }

  ghost predicate NothingLost(q: Queue) {
    forall id :: !Lost(q, id)
  }

  /** No run of a queue with n workers, crashes and recoveries included, loses an accepted job, if and
      only if there is no worker, or one worker whose reads do not fail. */
  lemma NoJobLostIff(n: nat, faults: bool)
    ensures (forall q :: ReachedBy(n, faults, q) ==> NothingLost(q)) <==> n == 0 || (n == 1 && !faults)
  {
    if n == 0 || (n == 1 && !faults) {
      forall q, id | ReachedBy(n, faults, q) ensures !Lost(q, id) {
        var steps :| Staffed(n, faults, steps) && After(steps) == q;
        FewerWorkers(n, faults, steps);
        JobsSurvive(steps, id);
      }
    } else if n == 1 {
      FailedReadLosesJob();
      var q :| ReachedBy(1, true, q) && Lost(q, 7);
      assert ReachedBy(n, faults, q) && !NothingLost(q);
    } else {
      OverlappingClaimLosesJob();
      var q :| Reached(q) && Lost(q, 7);
      ReachedByMore(2, faults, n, q);
      assert ReachedBy(n, faults, q) && !NothingLost(q);
    }
  }

  ghost predicate WithinBound(q: Queue) {
    forall id :: id in q.enqueued ==> Calls(q, id) <= Bound(q.enqueued[id]) + q.crashes
  }

  /** In every run of a queue with n workers, a job's handler is called at most as often as it had
      attempts left, and once more for each crash, if and only if n is at most one. Failing reads make
      no difference. */
  lemma CallsBoundedIff(n: nat, faults: bool)
    ensures (forall q :: ReachedBy(n, faults, q) ==> WithinBound(q)) <==> n <= 1
  {
    if n <= 1 {
      forall q, id | ReachedBy(n, faults, q) && id in q.enqueued ensures Calls(q, id) <= Bound(q.enqueued[id]) + q.crashes {
        var steps :| Staffed(n, faults, steps) && After(steps) == q;
        FewerWorkers(n, faults, steps);
        CallsAreBounded(steps, id);
      }
    } else {
      StaleClaimExceedsBound();
      var q :| Reached(q) && q.crashes == 0 && 7 in q.enqueued && Calls(q, 7) > Bound(q.enqueued[7]);
      ReachedByMore(2, faults, n, q);
      assert ReachedBy(n, faults, q) && !WithinBound(q);
    }
  }
}
