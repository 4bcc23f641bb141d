/** How often the file queue hands a job to its handler. */
module FileQueueCalls {
  import Runs
  import opened FileQueue

  /** The most handler calls a job may get while the process lives. */
  function Bound(j: Job): int {
    if Limit(j) - j.attempts > 1 then Limit(j) - j.attempts else 1
  }

  /** A job is claimed only as it was read: the claim renames the file without reading it again. */
  predicate ClaimsFresh(q: Queue, s: Step) {
    s.Claim? && s.w in q.workers && q.workers[s.w].phase.Idle? && s.id in q.workers[s.w].seen && s.id in q.files.pending ==>
      q.files.pending[s.id] == q.workers[s.w].seen[s.id]
  }

  // ---------------------------------------------------------------- invariant

  /** A job as it is now, after `calls` handler calls, of which `slack` may not be counted as attempts. */
  ghost predicate Tallies(first: Job, j: Job, calls: nat, slack: int) {
    Limit(j) == Limit(first) && calls <= j.attempts - first.attempts + slack && (j.attempts == first.attempts || j.attempts < Limit(first))
  }

  ghost predicate FilesTally(q: Queue, id: Id) {
    && (id in q.files.pending ==> id in q.enqueued && Tallies(q.enqueued[id], q.files.pending[id], Calls(q, id), q.crashes))
    && (id in q.files.processing ==>
          id in q.enqueued && Tallies(q.enqueued[id], q.files.processing[id], Calls(q, id), q.crashes + if q.running then 1 else 0))
    && (id in q.enqueued ==> Calls(q, id) <= Bound(q.enqueued[id]) + q.crashes)
    && (id !in q.enqueued ==> Calls(q, id) == 0)
  }

  ghost predicate HolderTallies(q: Queue, w: nat) {
    w in q.workers && q.workers[w].phase.Holding? ==>
      var p := q.workers[w].phase;
      && p.id !in q.files.pending && p.id in q.files.processing && q.files.processing[p.id] == p.job && p.id in q.enqueued
      && Tallies(q.enqueued[p.id], p.job, Calls(q, p.id), q.crashes + if p.called then 1 else 0)
  }

  ghost predicate Tallied(q: Queue) {
    Sound(q) && (forall id :: FilesTally(q, id)) && forall w :: HolderTallies(q, w)
  }

  // ---------------------------------------------------------------- steps

  /** No call, no new file and nothing new to hold. */
  lemma QuietTallies(q: Queue, q1: Queue)
    requires Tallied(q) && Sound(q1) && q1.calls == q.calls && q1.enqueued == q.enqueued && q1.crashes == q.crashes && q1.running == q.running
    requires forall id :: id in q1.files.pending ==> id in q.files.pending && q1.files.pending[id] == q.files.pending[id]
    requires forall id :: id in q1.files.processing ==> id in q.files.processing && q1.files.processing[id] == q.files.processing[id]
    requires forall v :: v in q1.workers && q1.workers[v].phase.Holding? ==> v in q.workers && q1.workers[v] == q.workers[v]
    ensures Tallied(q1)
  {
    forall id ensures FilesTally(q1, id) { assert FilesTally(q, id); }
    forall v ensures HolderTallies(q1, v) { assert HolderTallies(q, v) && WorkerOk(q1, v); }
  }

  lemma EnqueueTallies(q: Queue, id: Id, job: Job)
    requires Tallied(q) && id !in q.enqueued && Sound(Next(q, Enqueue(id, job)))
    ensures Tallied(Next(q, Enqueue(id, job)))
  {
    var q1 := Next(q, Enqueue(id, job));
    forall k ensures FilesTally(q1, k) { assert FilesTally(q, k); }
    forall v ensures HolderTallies(q1, v) { assert HolderTallies(q, v); }
  }

  lemma ClaimTallies(q: Queue, w: nat, id: Id)
    requires Tallied(q) && w in q.workers && q.workers[w].phase.Idle? && id in q.workers[w].seen && id in q.files.pending
    requires ClaimsAlone(q, Claim(w, id)) && ClaimsFresh(q, Claim(w, id)) && Sound(ClaimOne(q, w, id))
    ensures Tallied(ClaimOne(q, w, id))
  {
    var q1 := ClaimOne(q, w, id);
    forall k ensures FilesTally(q1, k) { assert FilesTally(q, k); }
    forall v ensures HolderTallies(q1, v) {
      assert HolderTallies(q, v) && FilesTally(q, id) && !Busy(q, v, id);
    }
  }

  lemma CallTallies(q: Queue, w: nat)
    requires Tallied(q) && q.running && w in q.workers && q.workers[w].phase.Holding? && !q.workers[w].phase.called && Sound(Act(q, Call(w), w))
    ensures Tallied(Act(q, Call(w), w))
  {
    var q1, id := Act(q, Call(w), w), q.workers[w].phase.id;
    assert HolderTallies(q, w) && Busy(q, w, id) && Alone(q, id);
    forall k ensures FilesTally(q1, k) { assert FilesTally(q, k); }
    forall v ensures HolderTallies(q1, v) {
      assert HolderTallies(q, v);
      if v != w && v in q.workers && q.workers[v].phase.Holding? { assert Busy(q, v, q.workers[v].phase.id); }
    }
  }

  /** The worker that held the job writes it back as pending. */
  lemma RewriteTallies(q: Queue, q1: Queue, w: nat, id: Id, j: Job)
    requires Tallied(q) && Busy(q, w, id) && Sound(q1) && q1.workers == q.workers[w := Worker(Clearing(id), {}, map[], {})]
    requires q1.calls == q.calls && q1.enqueued == q.enqueued && q1.crashes == q.crashes && q1.running == q.running
    requires q1.files == q.files.(pending := q.files.pending[id := j]) && id in q.enqueued && Tallies(q.enqueued[id], j, Calls(q, id), q.crashes)
    ensures Tallied(q1)
  {
    forall k ensures FilesTally(q1, k) { assert FilesTally(q, k); }
    forall v ensures HolderTallies(q1, v) {
      assert HolderTallies(q, v) && Alone(q, id);
      if v != w && v in q.workers && q.workers[v].phase.Holding? { assert Busy(q, v, q.workers[v].phase.id); }
    }
  }

  lemma RetryTallies(q: Queue, w: nat, visible: int)
    requires Tallied(q) && w in q.workers && q.workers[w].phase.Holding? && Sound(Act(q, WriteRetry(w, visible), w))
    ensures Tallied(Act(q, WriteRetry(w, visible), w))
  {
    var q1, p := Act(q, WriteRetry(w, visible), w), q.workers[w].phase;
    var j := Retried(p.job, visible);
    assert HolderTallies(q, w);
    if j.attempts >= j.max {
      QuietTallies(q, q1);
    } else {
      RewriteTallies(q, q1, w, p.id, j);
    }
  }

  /** An uncounted call is forgotten when the process dies, once. */
  lemma CrashTallies(q: Queue)
    requires Tallied(q)
    ensures Tallied(Next(q, Crash))
  {
    NextKeepsInv(q, Crash);
    forall k ensures FilesTally(Next(q, Crash), k) { assert FilesTally(q, k); }
  }

  lemma RecoverTallies(q: Queue, id: Id)
    requires Tallied(q) && !q.running
    ensures Tallied(Next(q, RecoverOne(id)))
  {
    NextKeepsInv(q, RecoverOne(id));
    forall k ensures FilesTally(Next(q, RecoverOne(id)), k) { assert FilesTally(q, k); }
  }

  lemma ResumeTallies(q: Queue)
    requires Tallied(q)
    ensures Tallied(Next(q, Resume))
  {
    NextKeepsInv(q, Resume);
    forall k ensures FilesTally(Next(q, Resume), k) { assert FilesTally(q, k); }
    forall v ensures HolderTallies(Next(q, Resume), v) { assert HolderTallies(q, v); }
  }

  /** Looking through the pending directory. */
  lemma ScanTallies(q: Queue, s: Step, w: nat)
    requires Tallied(q) && w in q.workers && Sound(Act(q, s, w))
    requires !(s.Claim? || s.Call? || s.WriteRetry? || s.WriteDone? || s.Remove? || s.GiveUp?)
    ensures Tallied(Act(q, s, w))
  {
    var q1 := Act(q, s, w);
    if q1 != q { QuietTallies(q, q1); }
  }

  lemma ActTallies(q: Queue, s: Step, w: nat)
    requires Tallied(q) && q.running && w in q.workers && CarefulStep(q, s) && (s.Claim? ==> s.w == w) && Sound(Act(q, s, w))
    ensures Tallied(Act(q, s, w))
  {
    var k := q.workers[w];
    match s {
      case Claim(_, id) =>
        if k.phase.Idle? && id in k.seen {
          if id in q.files.pending { ClaimTallies(q, w, id); } else { QuietTallies(q, Act(q, s, w)); }
        }
      case Call(_) => if k.phase.Holding? && !k.phase.called { CallTallies(q, w); }
      case WriteRetry(_, visible) => if k.phase.Holding? { RetryTallies(q, w, visible); }
      case WriteDone(_) => if k.phase.Holding? && k.phase.called { QuietTallies(q, Act(q, s, w)); }
      case Remove(_) => if k.phase.Clearing? { QuietTallies(q, Act(q, s, w)); }
      case GiveUp(_) => QuietTallies(q, Act(q, s, w));
      case _ => ScanTallies(q, s, w);
    }
  }

  lemma NextTallies(q: Queue, s: Step)
    requires Tallied(q) && CarefulStep(q, s)
    ensures Tallied(Next(q, s))
  {
    NextKeepsInv(q, s);
    match s {
      case Enqueue(id, job) => if id !in q.enqueued { EnqueueTallies(q, id, job); }
      case Crash => CrashTallies(q);
      case RecoverOne(id) => if !q.running { RecoverTallies(q, id); }
      case Resume => ResumeTallies(q);
      case Purge(id) => QuietTallies(q, Next(q, s));
      case Hire(w) => QuietTallies(q, Next(q, s));
      case _ => if s.w in q.workers { ActTallies(q, s, s.w); }
    }
  }

  // ---------------------------------------------------------------- whole runs

  ghost predicate CarefulStep(q: Queue, s: Step) {
    ClaimsAlone(q, s) && ClaimsFresh(q, s)
  }

  ghost predicate Careful(steps: seq<Step>) {
    Runs.Along(Next, CarefulStep, Empty, steps)
  }

  /** In every run without overlapping and without stale claims, whatever reads fail: a job accepted with no attempts is handed
      to its handler at most MaxAttempts times, and once more for each crash; once if it was accepted
      with no attempts left. */
  lemma CallsAreBounded(steps: seq<Step>, id: Id)
    requires Careful(steps)
    ensures var q := After(steps); id in q.enqueued ==> Calls(q, id) <= Bound(q.enqueued[id]) + q.crashes
  {
    forall q, s | Tallied(q) && CarefulStep(q, s) ensures Tallied(Next(q, s)) { NextTallies(q, s); }
    Runs.AlongKeeps(Next, CarefulStep, Tallied, Empty, steps);
    assert FilesTally(After(steps), id);
  }
}
