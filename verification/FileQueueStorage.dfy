/** The operations of FileQueueStorage when none overlaps another, on the four directories. Each performs
    steps of the queue's state machine, so that any number of workers may take turns. */
module FileQueueStorage {
  import opened Options
  import Runs
  import opened FileQueue
  import opened FileQueueCalls

  datatype Claimed = Claimed(id: Id, job: Job)

  /** The order of claims: higher priority first, then the earlier visible time. */
  predicate Before(a: Job, b: Job) {
    a.priority > b.priority || (a.priority == b.priority && a.visible <= b.visible)
  }

  predicate Eligible(j: Job, now: int) {
    !j.big && j.visible <= now
  }

  /** A step of a claim by this worker. */
  predicate Claiming(w: nat, s: Step) {
    (s.List? || s.Read? || s.Misread? || s.Unlink? || s.Claim?) && s.w == w
  }

  /** No operation is under way. */
  ghost predicate Settled(q: Queue) {
    Tallied(q) && forall w :: w in q.workers ==> !q.workers[w].phase.Clearing?
  }

  // ---------------------------------------------------------------- a claim as steps of the queue

  /** A worker in the middle of a scan: `todo` is still to be read. */
  ghost predicate Scanning(q: Queue, w: nat, todo: set<Id>) {
    && Settled(q) && q.running && w in q.workers && todo <= q.files.pending.Keys
    && q.workers[w] == Worker(Idle, todo, map id | id in q.files.pending && id !in todo :: q.files.pending[id], {})
  }

  /** The same but for this worker and the files of pending. */
  ghost predicate Undisturbed(q: Queue, q1: Queue, w: nat) {
    && w in q.workers && w in q1.workers && q1.workers == q.workers[w := q1.workers[w]]
    && q1.running == q.running && q1.enqueued == q.enqueued && q1.calls == q.calls && q1.crashes == q.crashes
    && q1.files == q.files.(pending := q1.files.pending)
  }

  /** The files that are left after those in todo were read: without the files that are too big and
      those of which the reading fails. */
  function Readable(p: map<Id, Job>, todo: set<Id>, failing: set<Id>): map<Id, Job> {
    map id | id in p && !(id in todo && Unreadable(p[id], id, failing)) :: p[id]
  }

  predicate Unreadable(j: Job, id: Id, failing: set<Id>) {
    j.big || id in failing
  }

  lemma ScanReads(q: Queue, w: nat, todo: set<Id>, id: Id)
    requires Scanning(q, w, todo) && id in todo && !q.files.pending[id].big
    ensures var q1 := Next(q, Read(w, id)); Undisturbed(q, q1, w) && Scanning(q1, w, todo - {id}) && q1.files == q.files
  {
    NextTallies(q, Read(w, id));
  }

  lemma ScanDooms(q: Queue, w: nat, todo: set<Id>, id: Id, s: Step)
    requires Scanning(q, w, todo) && id in todo && ((s == Read(w, id) && q.files.pending[id].big) || s == Misread(w, id))
    ensures var q1 := Next(q, s); Undisturbed(q, q1, w) && Settled(q1) && q1.files == q.files && q1.workers[w] == q.workers[w].(listed := todo - {id}, doomed := {id})
    ensures Next(q, s).dropped == q.dropped
  {
    NextTallies(q, s);
  }

  lemma ScanRemoves(q: Queue, w: nat, todo: set<Id>, id: Id, q1: Queue)
    requires Scanning(q, w, todo) && id in todo && Undisturbed(q, q1, w) && Settled(q1) && q1.files == q.files
    requires q1.workers[w] == q.workers[w].(listed := todo - {id}, doomed := {id})
    ensures var q2 := Next(q1, Unlink(w, id)); Undisturbed(q, q2, w) && Scanning(q2, w, todo - {id}) && q2.files.pending == q.files.pending - {id}
    ensures Next(q1, Unlink(w, id)).dropped == if q.files.pending[id].big then q1.dropped else q1.dropped + {id}
  {
    NextTallies(q1, Unlink(w, id));
    assert {id} - {id} == {};
  }

  /** One entry: the file is read, or removed because it cannot be. */
  lemma ScanOne(q: Queue, w: nat, todo: set<Id>, id: Id, failing: set<Id>) returns (steps: seq<Step>, q1: Queue)
    requires Scanning(q, w, todo) && id in todo
    ensures q1 == Runs.Run(Next, q, steps) && forall i :: 0 <= i < |steps| ==> Claiming(w, steps[i])
    ensures Undisturbed(q, q1, w) && Scanning(q1, w, todo - {id}) && q1.files.pending == Readable(q.files.pending, {id}, failing)
    ensures q1.dropped <= q.dropped + failing
  {
    var s := if id in failing then Misread(w, id) else Read(w, id);
    Runs.ShortRuns(Next, q, s, Unlink(w, id));
    if Unreadable(q.files.pending[id], id, failing) {
      ScanDooms(q, w, todo, id, s);
      ScanRemoves(q, w, todo, id, Next(q, s));
      assert q.files.pending - {id} == Readable(q.files.pending, {id}, failing);
      return [s, Unlink(w, id)], Next(Next(q, s), Unlink(w, id));
    }
    ScanReads(q, w, todo, id);
    assert q.files.pending == Readable(q.files.pending, {id}, failing);
    return [s], Next(q, s);
  }

  lemma {:induction false} ScanRuns(q: Queue, w: nat, todo: set<Id>, failing: set<Id>) returns (steps: seq<Step>, q1: Queue)
    requires Scanning(q, w, todo)
    ensures q1 == Runs.Run(Next, q, steps) && forall i :: 0 <= i < |steps| ==> Claiming(w, steps[i])
    ensures Undisturbed(q, q1, w) && Scanning(q1, w, {}) && q1.files.pending == Readable(q.files.pending, todo, failing)
    ensures q1.dropped <= q.dropped + failing
    decreases |todo|
  {
    if todo == {} { return [], q; }
    var id :| id in todo;
    var first, q2 := ScanOne(q, w, todo, id, failing);
    var more;
    more, q1 := ScanRuns(q2, w, todo - {id}, failing);
    Runs.RunParts(Next, q, first, more);
    assert Readable(Readable(q.files.pending, {id}, failing), todo - {id}, failing) == Readable(q.files.pending, todo, failing);
    steps := first + more;
  }

  /** A run of these steps leads from one settled state to another. */
  ghost predicate Leads(q: Queue, steps: seq<Step>, q1: Queue) {
    q1 == Runs.Run(Next, q, steps) && Settled(q1)
  }

  lemma ListAndScan(q: Queue, w: nat, failing: set<Id>) returns (steps: seq<Step>, q1: Queue)
    requires Settled(q) && q.running && w in q.workers && q.workers[w].phase.Idle?
    ensures forall i :: 0 <= i < |steps| ==> Claiming(w, steps[i])
    ensures Leads(q, steps, q1) && Undisturbed(q, q1, w) && Scanning(q1, w, {}) && q1.files.pending == Readable(q.files.pending, q.files.pending.Keys, failing)
    ensures q1.dropped <= q.dropped + failing
  {
    var listed, todo := Next(q, List(w)), q.files.pending.Keys;
    NextTallies(q, List(w));
    Runs.ShortRuns(Next, q, List(w), List(w));
    var more;
    more, q1 := ScanRuns(listed, w, todo, failing);
    Runs.RunParts(Next, q, [List(w)], more);
    steps := [List(w)] + more;
  }

  /** A job that was just read is claimed as it is, and no other worker has it. */
  lemma ClaimRead(q: Queue, steps: seq<Step>, q1: Queue, w: nat, id: Id) returns (more: seq<Step>, q2: Queue)
    requires Leads(q, steps, q1) && Scanning(q1, w, {}) && id in q1.files.pending && forall i :: 0 <= i < |steps| ==> Claiming(w, steps[i])
    ensures Leads(q, more, q2) && forall i :: 0 <= i < |more| ==> Claiming(w, more[i])
    ensures q2.calls == q1.calls && q2.dropped == q1.dropped && q2.workers == q1.workers[w := Worker(Holding(id, q1.files.pending[id], false), {}, map[], {})]
    ensures q2.files == q1.files.(pending := q1.files.pending - {id}, processing := q1.files.processing[id := q1.files.pending[id]])
  {
    forall v ensures !Busy(q1, v, id) { assert HolderTallies(q1, v); }
    NextTallies(q1, Claim(w, id));
    Runs.RunThen(Next, q, steps, Claim(w, id));
    return steps + [Claim(w, id)], Next(q1, Claim(w, id));
  }

  /** The outcome is written and the processing file removed. */
  lemma TwoSteps(q: Queue, s: Step, t: Step)
    requires Settled(q) && (s.WriteDone? || s.WriteRetry?) && t == Remove(s.w) && s.w in q.workers
    ensures Leads(q, [s, t], Next(Next(q, s), t))
  {
    Runs.ShortRuns(Next, q, s, t);
    NextTallies(q, s);
    NextTallies(Next(q, s), t);
  }

  lemma CompleteRuns(q: Queue, w: nat, id: Id, job: Job) returns (q1: Queue)
    requires Settled(q) && w in q.workers && q.workers[w].phase == Holding(id, job, true)
    ensures Leads(q, [WriteDone(w), Remove(w)], q1) && q1.workers == q.workers[w := AtRest]
    ensures q1.files == q.files.(done := q.files.done + {id}, processing := q.files.processing - {id})
  {
    TwoSteps(q, WriteDone(w), Remove(w));
    return Next(Next(q, WriteDone(w)), Remove(w));
  }

  lemma RetryRuns(q: Queue, w: nat, id: Id, job: Job, visible: int) returns (q1: Queue)
    requires Settled(q) && w in q.workers && q.workers[w].phase.Holding? && q.workers[w].phase.id == id && q.workers[w].phase.job == job
    ensures Leads(q, [WriteRetry(w, visible), Remove(w)], q1) && q1.workers == q.workers[w := AtRest]
    ensures q1.files == if job.attempts + 1 < Limit(job) then q.files.(pending := q.files.pending[id := Retried(job, visible)], processing := q.files.processing - {id})
                        else q.files.(failed := q.files.failed + {id}, processing := q.files.processing - {id})
  {
    TwoSteps(q, WriteRetry(w, visible), Remove(w));
    return Next(Next(q, WriteRetry(w, visible)), Remove(w));
  }

  class Storage {
    var pending: map<Id, Job>
    var processing: map<Id, Job>
    var done: map<Id, Job>
    var failed: map<Id, Job>
    /** The state of the whole queue: these files, the workers, and the history. */
    ghost var queue: Queue

    ghost function View(): Files
      reads this
    {
      Files(pending, processing, done.Keys, failed.Keys)
    }

    ghost predicate Valid()
      reads this
    {
      queue.files == View() && Settled(queue)
    }

    constructor ()
      ensures Valid() && queue == Empty
    {
      pending, processing, done, failed := map[], map[], map[], map[];
      queue := Empty;
    }

    /** In every state of the storage, an accepted job is lost only if the reading of its file failed,
        at most one worker has it, and its handler was not called too often. */
    lemma Promises(id: Id)
      requires Valid()
      ensures (Lost(queue, id) ==> id in queue.dropped) && Alone(queue, id)
      ensures id in queue.enqueued ==> Calls(queue, id) <= Bound(queue.enqueued[id]) + queue.crashes
    {
      assert Kept(queue, id) && Alone(queue, id) && FilesTally(queue, id);
    }

    /** Another step of the queue that touches no file: a worker is hired or calls its handler, the
        process dies, or starts again once everything is recovered. */
    ghost method Elsewhere(s: Step)
      requires Valid() && (s.Hire? || s.Call? || s.Crash? || s.Resume?)
      modifies this`queue
      ensures Valid() && queue == Next(old(queue), s)
    {
      NextTallies(queue, s);
      queue := Next(queue, s);
    }

    method EnqueueJob(id: Id, job: Job)
      requires Valid() && id !in queue.enqueued
      modifies this`pending, this`queue
      ensures Valid() && queue == Next(old(queue), Enqueue(id, job))
      ensures pending == old(pending)[id := job]
    {
      NextTallies(queue, Enqueue(id, job));
      queue := Next(queue, Enqueue(id, job));
      pending := pending[id := job];
    }

    /** The scan of Claim: unreadable files are removed, and the best of the visible jobs is found. */
    method Scan(now: int, failing: set<Id>) returns (best: Option<Claimed>)
      modifies this`pending
      ensures pending == Readable(old(pending), old(pending).Keys, failing)
      ensures best.Some? ==> best.value.id in pending && pending[best.value.id] == best.value.job && Eligible(best.value.job, now)
      ensures best.Some? ==> forall id :: id in pending && Eligible(pending[id], now) ==> Before(best.value.job, pending[id])
      ensures best.None? ==> forall id :: id in pending ==> !Eligible(pending[id], now)
    {
      best := None;
      var todo := pending.Keys;
      while todo != {}
        invariant todo <= pending.Keys <= old(pending).Keys
        invariant forall id :: id in pending ==> pending[id] == old(pending)[id]
        invariant forall id :: id in old(pending) && id !in todo ==> (id in pending <==> !Unreadable(old(pending)[id], id, failing))
        invariant best.Some? ==> best.value.id in pending && best.value.id !in todo && pending[best.value.id] == best.value.job && Eligible(best.value.job, now)
        invariant forall id :: id in pending && id !in todo && Eligible(pending[id], now) ==> best.Some? && Before(best.value.job, pending[id])
        decreases |todo|
      {
        var id :| id in todo;
        todo := todo - {id};
        var job := pending[id];
        if job.big || id in failing {
          pending := pending - {id};
        } else if job.visible <= now && (best.None? || Before(job, best.value.job)) {
          best := Some(Claimed(id, job));
        }
      }
    }

    /** Claim: the best visible job moves from pending to processing. `failing` are the jobs whose files
        cannot be read now for a reason outside the queue. */
    method ClaimJob(ghost w: nat, now: int, failing: set<Id>) returns (c: Option<Claimed>, ghost steps: seq<Step>)
      requires Valid() && queue.running && w in queue.workers && queue.workers[w].phase.Idle?
      modifies this`pending, this`processing, this`queue
      ensures Valid() && Leads(old(queue), steps, queue) && forall i :: 0 <= i < |steps| ==> Claiming(w, steps[i])
      ensures queue.calls == old(queue).calls && queue.dropped <= old(queue).dropped + failing && w in queue.workers && queue.workers == old(queue).workers[w := queue.workers[w]]
      ensures c.None? ==> queue.workers[w].phase.Idle? && processing == old(processing) && forall id :: id in pending ==> !Eligible(pending[id], now)
      ensures c.Some? ==>
        && c.value.id in old(pending) && old(pending)[c.value.id] == c.value.job && Eligible(c.value.job, now)
        && queue.workers[w].phase == Holding(c.value.id, c.value.job, false)
        && processing == old(processing)[c.value.id := c.value.job]
        && forall id :: id in old(pending) && id !in failing && Eligible(old(pending)[id], now) ==> Before(c.value.job, old(pending)[id])
      ensures var kept := Readable(old(pending), old(pending).Keys, failing); pending == if c.None? then kept else kept - {c.value.id}
    {
      c := Scan(now, failing);
      ghost var q := queue;
      steps, queue := ListAndScan(q, w, failing);
      if c.Some? {
        assert forall k :: k in old(pending) && k !in failing && Eligible(old(pending)[k], now) ==> k in pending && pending[k] == old(pending)[k];
        steps, queue := ClaimRead(q, steps, queue, w, c.value.id);
        processing := processing[c.value.id := pending[c.value.id]];
        pending := pending - {c.value.id};
      }
    }

    /** Complete: the job moves from processing to done. */
    method CompleteJob(ghost w: nat, id: Id, job: Job)
      requires Valid() && w in queue.workers && queue.workers[w].phase == Holding(id, job, true)
      modifies this`done, this`processing, this`queue
      ensures Valid() && Leads(old(queue), [WriteDone(w), Remove(w)], queue)
      ensures id in done && processing == old(processing) - {id} && queue.workers == old(queue).workers[w := AtRest]
    {
      queue := CompleteRuns(queue, w, id, job);
      done := done[id := job];
      processing := processing - {id};
    }

    /** Retry: one more attempt, back to pending, or to failed when the attempts are used up. */
    method RetryJob(ghost w: nat, id: Id, job: Job, now: int, backoff: int) returns (again: bool, visible: int)
      requires Valid() && w in queue.workers && queue.workers[w].phase.Holding? && queue.workers[w].phase.id == id && queue.workers[w].phase.job == job
      modifies this`pending, this`failed, this`processing, this`queue
      ensures Valid() && visible == now + backoff * (job.attempts + 1) && Leads(old(queue), [WriteRetry(w, visible), Remove(w)], queue)
      ensures again <==> job.attempts + 1 < Limit(job)
      ensures processing == old(processing) - {id} && queue.workers == old(queue).workers[w := AtRest]
      ensures if again then pending == old(pending)[id := Retried(job, visible)] && failed == old(failed)
              else pending == old(pending) && id in failed
    {
      var j := job.(attempts := job.attempts + 1, max := if job.max <= 0 then 5 else job.max);
      visible := now + backoff * j.attempts;
      queue := RetryRuns(queue, w, id, job, visible);
      if j.attempts >= j.max {
        failed := failed[id := j];
        processing := processing - {id};
        return false, visible;
      }
      pending := pending[id := j.(visible := visible)];
      processing := processing - {id};
      return true, visible;
    }

    /** Recover, before any worker is hired, renames every processing file back. */
    method RecoverJobs() returns (ghost steps: seq<Step>)
      requires Valid() && !queue.running
      modifies this`pending, this`processing, this`queue
      ensures Valid() && queue == Runs.Run(Next, old(queue), steps) && forall i :: 0 <= i < |steps| ==> steps[i].RecoverOne?
      ensures processing == map[] && pending == old(pending) + old(processing)
    {
      steps := [];
      while processing != map[]
        invariant Valid() && !queue.running && queue == Runs.Run(Next, old(queue), steps)
        invariant forall i :: 0 <= i < |steps| ==> steps[i].RecoverOne?
        invariant pending + processing == old(pending) + old(processing)
        decreases |processing|
      {
        var id :| id in processing;
        MergeStep(pending, processing, id);
        RecoverTallies(queue, id);
        Runs.RunThen(Next, old(queue), steps, RecoverOne(id));
        steps := steps + [RecoverOne(id)];
        queue := Next(queue, RecoverOne(id));
        pending := pending[id := processing[id]];
        processing := processing - {id};
      }
      assert pending + map[] == pending;
    }
  }

  lemma MergeStep(p: map<Id, Job>, r: map<Id, Job>, id: Id)
    requires id in r
    ensures p[id := r[id]] + (r - {id}) == p + r
  {
    var a, b := p[id := r[id]] + (r - {id}), p + r;
    assert a.Keys == b.Keys;
    assert forall k :: k in a ==> a[k] == b[k];
  }
}
