/** The file queue of reliability.go: one file per job in one of four directories. Every rename, write
    or remove is one step, workers interleave in any order, and the process may crash between any two
    steps. */
module FileQueue {
  import Runs

  type Id = nat

  /** big: the file exceeds maxJobFileSize and cannot be read back. */
  datatype Job = Job(attempts: int, max: int, priority: int, visible: int, big: bool)

  datatype Files = Files(pending: map<Id, Job>, processing: map<Id, Job>, done: set<Id>, failed: set<Id>)

  /** Holding: the job was claimed, `called` once its handler has run. Clearing: the outcome is written
      and the processing file is to be removed. */
  datatype Phase = Idle | Holding(id: Id, job: Job, called: bool) | Clearing(id: Id)

  /** A claim lists the pending directory, reads the files listed, removes those it cannot read, and
      tries to rename those it has read. */
  datatype Worker = Worker(phase: Phase, listed: set<Id>, seen: map<Id, Job>, doomed: set<Id>)

  /** enqueued, gone, dropped, calls and crashes are history: jobs as they were accepted, jobs discarded
      as too big or purged, jobs of which a readable file was removed as unreadable, handler calls, and
      how often the process died. */
  datatype Queue = Queue(files: Files, workers: map<nat, Worker>, running: bool, enqueued: map<Id, Job>, gone: set<Id>, dropped: set<Id>,
                         calls: map<Id, nat>, crashes: nat)

  const AtRest := Worker(Idle, {}, map[], {})

  datatype Step =
    | Enqueue(id: Id, job: Job) | Purge(id: Id) | Hire(w: nat)
    | List(w: nat) | Read(w: nat, id: Id) | Misread(w: nat, id: Id) | Unlink(w: nat, id: Id) | Claim(w: nat, id: Id)
    | Call(w: nat) | WriteDone(w: nat) | WriteRetry(w: nat, visible: int) | GiveUp(w: nat) | Remove(w: nat)
    | Crash | RecoverOne(id: Id) | Resume

  // ---------------------------------------------------------------- steps

  function SetWorker(q: Queue, w: nat, k: Worker): Queue {
    q.(workers := q.workers[w := k])
  }

  function SetPhase(q: Queue, w: nat, p: Phase): Queue
    requires w in q.workers
  {
    SetWorker(q, w, Worker(p, {}, map[], {}))
  }

  function Calls(q: Queue, id: Id): nat {
    if id in q.calls then q.calls[id] else 0
  }

  /** Retry's default for MaxAttempts. */
  function Limit(j: Job): int {
    if j.max <= 0 then 5 else j.max
  }

  function Next(q: Queue, s: Step): Queue {
    match s
    case Enqueue(id, job) =>
      if id in q.enqueued then q
      else q.(files := q.files.(pending := q.files.pending[id := job]), enqueued := q.enqueued[id := job])
    case Purge(id) =>
      if id in q.files.done || id in q.files.failed
      then q.(files := q.files.(done := q.files.done - {id}, failed := q.files.failed - {id}), gone := q.gone + {id}) else q
    case Crash => q.(workers := map[], running := false, crashes := q.crashes + 1)
    case RecoverOne(id) => if q.running then q else Recover(q, id)
    case Resume => if q.files.processing == map[] then q.(running := true) else q
    case Hire(w) => if q.running && w !in q.workers then SetWorker(q, w, AtRest) else q
    case _ => if s.w in q.workers then Act(q, s, s.w) else q
  }

  /** Recover renames the processing file back; a pending file of the same name is replaced. */
  function Recover(q: Queue, id: Id): Queue {
    if id !in q.files.processing then q
    else q.(files := q.files.(pending := q.files.pending[id := q.files.processing[id]], processing := q.files.processing - {id}))
  }

  function Act(q: Queue, s: Step, w: nat): Queue
    requires w in q.workers
  {
    var k := q.workers[w];
    match s
    case List(_) => if k.phase.Idle? then SetWorker(q, w, Worker(Idle, q.files.pending.Keys, map[], {})) else q
    case Read(_, id) => if k.phase.Idle? && id in k.listed then ReadOne(q, w, id) else q
    case Misread(_, id) => if k.phase.Idle? && id in k.listed then Doom(q, w, id) else q
    case Unlink(_, id) => if k.phase.Idle? && id in k.doomed then UnlinkOne(q, w, id) else q
    case Claim(_, id) => if k.phase.Idle? && id in k.seen then ClaimOne(q, w, id) else q
    case Call(_) =>
      if k.phase.Holding? && !k.phase.called
      then SetPhase(q, w, k.phase.(called := true)).(calls := q.calls[k.phase.id := Calls(q, k.phase.id) + 1]) else q
    case WriteDone(_) =>
      if k.phase.Holding? && k.phase.called
      then SetPhase(q, w, Clearing(k.phase.id)).(files := q.files.(done := q.files.done + {k.phase.id})) else q
    case WriteRetry(_, visible) => if k.phase.Holding? then Retry(q, w, k.phase.id, k.phase.job, visible) else q
    case GiveUp(_) => SetPhase(q, w, Idle)
    case Remove(_) =>
      if k.phase.Clearing?
      then SetPhase(q, w, Idle).(files := q.files.(processing := q.files.processing - {k.phase.id})) else q
    case _ => q
  }

  /** A listed file that cannot be read, for whatever reason, will be removed. */
  function Doom(q: Queue, w: nat, id: Id): Queue
    requires w in q.workers
  {
    var k := q.workers[w];
    SetWorker(q, w, k.(listed := k.listed - {id}, doomed := k.doomed + {id}))
  }

  /** A file that is gone or too big cannot be read. */
  function ReadOne(q: Queue, w: nat, id: Id): Queue
    requires w in q.workers
  {
    var k := q.workers[w];
    if id in q.files.pending && !q.files.pending[id].big
    then SetWorker(q, w, k.(listed := k.listed - {id}, seen := k.seen[id := q.files.pending[id]]))
    else Doom(q, w, id)
  }

  function UnlinkOne(q: Queue, w: nat, id: Id): Queue
    requires w in q.workers
  {
    var k := q.workers[w];
    var q1 := SetWorker(q, w, k.(doomed := k.doomed - {id}));
    if id !in q.files.pending then q1
    else if q.files.pending[id].big then q1.(files := q.files.(pending := q.files.pending - {id}), gone := q.gone + {id})
    else q1.(files := q.files.(pending := q.files.pending - {id}), dropped := q.dropped + {id})
  }

  /** The rename succeeds for at most one worker; the job is what was read before. */
  function ClaimOne(q: Queue, w: nat, id: Id): Queue
    requires w in q.workers && id in q.workers[w].seen
  {
    var k := q.workers[w];
    if id in q.files.pending
    then SetPhase(q, w, Holding(id, k.seen[id], false)).(files := q.files.(pending := q.files.pending - {id}, processing := q.files.processing[id := q.files.pending[id]]))
    else SetWorker(q, w, k.(seen := k.seen - {id}))
  }

  function Retried(job: Job, visible: int): Job {
    job.(attempts := job.attempts + 1, max := Limit(job), visible := visible)
  }

  function Retry(q: Queue, w: nat, id: Id, job: Job, visible: int): Queue
    requires w in q.workers
  {
    var j := Retried(job, visible);
    var q1 := SetPhase(q, w, Clearing(id));
    if j.attempts >= j.max then q1.(files := q.files.(failed := q.files.failed + {id}))
    else q1.(files := q.files.(pending := q.files.pending[id := j]))
  }

  // ---------------------------------------------------------------- overlap

  /** A file is renamed only when no worker has the job. */
  ghost predicate ClaimsAlone(q: Queue, s: Step) {
    s.Claim? && s.w in q.workers && q.workers[s.w].phase.Idle? && s.id in q.workers[s.w].seen && s.id in q.files.pending ==>
      forall v :: !Busy(q, v, s.id)
  }

  /** A file is removed as unreadable only if it is. */
  predicate RemovesUnreadable(q: Queue, s: Step) {
    s.Unlink? && s.w in q.workers && q.workers[s.w].phase.Idle? && s.id in q.workers[s.w].doomed && s.id in q.files.pending ==>
      q.files.pending[s.id].big
  }

  ghost predicate NoOverlap(q: Queue, s: Step) {
    ClaimsAlone(q, s) && RemovesUnreadable(q, s)
  }

  // ---------------------------------------------------------------- no job is lost

  predicate Written(f: Files, id: Id) {
    id in f.pending || id in f.done || id in f.failed
  }

  predicate Busy(q: Queue, w: nat, id: Id) {
    w in q.workers && !q.workers[w].phase.Idle? && q.workers[w].phase.id == id
  }

  /** A job being worked on has its processing file; once cleared away it is written elsewhere. */
  ghost predicate WorkerOk(q: Queue, w: nat) {
    w in q.workers ==>
      match q.workers[w].phase
      case Idle => true
      case Holding(id, _, _) => id in q.files.processing
      case Clearing(id) => id in q.files.processing && (Written(q.files, id) || id in q.gone || id in q.dropped)
  }

  /** At most one worker has the job. */
  ghost predicate Alone(q: Queue, id: Id) {
    forall w, v :: Busy(q, w, id) && Busy(q, v, id) ==> w == v
  }

  /** Accepted, neither discarded nor purged, and in none of the four directories. */
  predicate Lost(q: Queue, id: Id) {
    id in q.enqueued && id !in q.gone && id !in q.files.processing && !Written(q.files, id)
  }

  ghost predicate Kept(q: Queue, id: Id) {
    !Lost(q, id) || id in q.dropped
  }

  ghost predicate Inv(q: Queue) {
    (forall w :: WorkerOk(q, w)) && (forall id :: Alone(q, id)) && forall id :: Kept(q, id)
  }

  /** A step that changes one worker, which is no busier than before. */
  lemma WorkerStep(q: Queue, q1: Queue, w: nat)
    requires Inv(q) && q1.files == q.files && q1.enqueued == q.enqueued && q1.gone == q.gone && q1.dropped == q.dropped
    requires forall v :: v in q1.workers && v != w ==> v in q.workers && q1.workers[v] == q.workers[v]
    requires w in q1.workers ==>
      q1.workers[w].phase.Idle? || (w in q.workers && q.workers[w].phase.Holding? && q1.workers[w].phase.Holding? && q1.workers[w].phase.id == q.workers[w].phase.id)
    ensures Inv(q1)
  {
    forall v ensures WorkerOk(q1, v) { assert WorkerOk(q, v) && WorkerOk(q, w); }
    forall id ensures Alone(q1, id) {
      assert Alone(q, id);
      forall u, v | Busy(q1, u, id) && Busy(q1, v, id) ensures u == v { assert Busy(q, u, id) && Busy(q, v, id); }
    }
    forall id ensures Kept(q1, id) { assert Kept(q, id); }
  }

  /** A step of a worker that holds `id` writes the outcome. */
  lemma WriteStep(q: Queue, q1: Queue, w: nat, id: Id)
    requires Inv(q) && Busy(q, w, id) && q1.enqueued == q.enqueued && q1.gone == q.gone && q1.dropped == q.dropped && q1.workers == q.workers[w := Worker(Clearing(id), {}, map[], {})]
    requires q1.files.processing == q.files.processing && Written(q1.files, id)
    requires forall k :: Written(q.files, k) ==> Written(q1.files, k)
    ensures Inv(q1)
  {
    forall v ensures WorkerOk(q1, v) { assert WorkerOk(q, v) && WorkerOk(q, w); }
    forall k ensures Alone(q1, k) {
      assert Alone(q, k);
      forall u, v | Busy(q1, u, k) && Busy(q1, v, k) ensures u == v { assert Busy(q, u, k) && Busy(q, v, k); }
    }
    forall k ensures Kept(q1, k) { assert Kept(q, k); }
  }

  lemma ClaimStep(q: Queue, w: nat, id: Id)
    requires Inv(q) && w in q.workers && q.workers[w].phase.Idle? && id in q.workers[w].seen && ClaimsAlone(q, Claim(w, id))
    ensures Inv(ClaimOne(q, w, id))
  {
    var q1 := ClaimOne(q, w, id);
    if id in q.files.pending {
      forall v ensures WorkerOk(q1, v) { assert WorkerOk(q, v) && !Busy(q, v, id); }
      forall k ensures Alone(q1, k) {
        assert Alone(q, k);
        forall u, v | Busy(q1, u, k) && Busy(q1, v, k) ensures u == v {
          assert WorkerOk(q, u) && WorkerOk(q, v);
          assert u != w ==> Busy(q, u, k);
          assert v != w ==> Busy(q, v, k);
        }
      }
      forall k ensures Kept(q1, k) { assert Kept(q, k); }
    } else {
      WorkerStep(q, q1, w);
    }
  }

  lemma RemoveStep(q: Queue, w: nat)
    requires Inv(q) && w in q.workers && q.workers[w].phase.Clearing?
    ensures Inv(Act(q, Remove(w), w))
  {
    var q1, id := Act(q, Remove(w), w), q.workers[w].phase.id;
    assert WorkerOk(q, w) && Busy(q, w, id);
    forall v ensures WorkerOk(q1, v) {
      assert WorkerOk(q, v) && Alone(q, id);
      if v != w && v in q.workers && !q.workers[v].phase.Idle? { assert Busy(q, v, q.workers[v].phase.id); }
    }
    forall k ensures Alone(q1, k) {
      assert Alone(q, k);
      forall u, v | Busy(q1, u, k) && Busy(q1, v, k) ensures u == v { assert Busy(q, u, k) && Busy(q, v, k); }
    }
    forall k ensures Kept(q1, k) { assert Kept(q, k); }
  }

  lemma UnlinkStep(q: Queue, w: nat, id: Id)
    requires Inv(q) && w in q.workers && q.workers[w].phase.Idle? && id in q.workers[w].doomed
    ensures Inv(UnlinkOne(q, w, id))
  {
    var q1 := UnlinkOne(q, w, id);
    forall v ensures WorkerOk(q1, v) {
      assert WorkerOk(q, v);
    }
    forall k ensures Alone(q1, k) {
      assert Alone(q, k);
      forall u, v | Busy(q1, u, k) && Busy(q1, v, k) ensures u == v { assert Busy(q, u, k) && Busy(q, v, k); }
    }
    forall k ensures Kept(q1, k) { assert Kept(q, k); }
  }

  /** Steps outside the workers: no worker changes, no processing file goes, and no file is lost
      without being counted as gone. */
  lemma OutsideStep(q: Queue, q1: Queue)
    requires Inv(q) && q1.workers == q.workers && q.files.processing.Keys <= q1.files.processing.Keys && q.gone <= q1.gone && q1.dropped == q.dropped
    requires forall id :: Written(q.files, id) ==> Written(q1.files, id) || id in q1.gone
    requires forall id :: id in q1.enqueued && id !in q.enqueued ==> Written(q1.files, id)
    ensures Inv(q1)
  {
    forall w ensures WorkerOk(q1, w) { assert WorkerOk(q, w); }
    forall id ensures Alone(q1, id) {
      assert Alone(q, id);
      forall u, v | Busy(q1, u, id) && Busy(q1, v, id) ensures u == v { assert Busy(q, u, id) && Busy(q, v, id); }
    }
    forall id ensures Kept(q1, id) { assert Kept(q, id); }
  }

  lemma RestartStep(q: Queue, q1: Queue)
    requires Inv(q) && q1.workers == map[] && q1.enqueued == q.enqueued && q1.gone == q.gone && q1.dropped == q.dropped
    requires forall id :: Written(q.files, id) || id in q.files.processing ==> Written(q1.files, id) || id in q1.files.processing
    ensures Inv(q1)
  {
    forall id ensures Kept(q1, id) { assert Kept(q, id); }
  }

  /** Listing and reading. */
  lemma LookStep(q: Queue, s: Step, w: nat)
    requires Inv(q) && w in q.workers && !(s.Unlink? || s.Claim? || s.Call? || s.WriteDone? || s.WriteRetry? || s.GiveUp? || s.Remove?)
    ensures Inv(Act(q, s, w))
  {
    if Act(q, s, w) != q { WorkerStep(q, Act(q, s, w), w); }
  }

  lemma ActKeepsInv(q: Queue, s: Step, w: nat)
    requires Inv(q) && w in q.workers && ClaimsAlone(q, s) && (s.Claim? ==> s.w == w)
    ensures Inv(Act(q, s, w))
  {
    var k := q.workers[w];
    match s {
      case Unlink(_, id) => if k.phase.Idle? && id in k.doomed { UnlinkStep(q, w, id); }
      case Claim(_, id) => if k.phase.Idle? && id in k.seen { ClaimStep(q, w, id); }
      case WriteDone(_) => if k.phase.Holding? && k.phase.called { WriteStep(q, Act(q, s, w), w, k.phase.id); }
      case WriteRetry(_, visible) => if k.phase.Holding? { WriteStep(q, Act(q, s, w), w, k.phase.id); }
      case Remove(_) => if k.phase.Clearing? { RemoveStep(q, w); }
      case Call(_) => if k.phase.Holding? && !k.phase.called { WorkerStep(q, Act(q, s, w), w); }
      case GiveUp(_) => WorkerStep(q, Act(q, s, w), w);
      case _ => LookStep(q, s, w);
    }
  }

  lemma NextKeepsInv(q: Queue, s: Step)
    requires Inv(q) && ClaimsAlone(q, s) && (!q.running ==> q.workers == map[])
    ensures Inv(Next(q, s)) && (!Next(q, s).running ==> Next(q, s).workers == map[])
  {
    match s {
      case Enqueue(id, job) => OutsideStep(q, Next(q, s));
      case Purge(id) => OutsideStep(q, Next(q, s));
      case Crash => RestartStep(q, Next(q, s));
      case RecoverOne(id) => if !q.running { RestartStep(q, Recover(q, id)); }
      case Resume => if q.running { OutsideStep(q, Next(q, s)); } else { RestartStep(q, Next(q, s)); }
      case Hire(w) => if q.running && w !in q.workers { WorkerStep(q, Next(q, s), w); }
      case _ => if s.w in q.workers { ActKeepsInv(q, s, s.w); }
    }
  }

  // ---------------------------------------------------------------- whole runs

  const Empty := Queue(Files(map[], map[], {}, {}), map[], true, map[], {}, {}, map[], 0)

  /** The queue after these steps. */
  function After(steps: seq<Step>): Queue {
    Runs.Run(Next, Empty, steps)
  }

  ghost predicate Sound(q: Queue) {
    Inv(q) && (!q.running ==> q.workers == map[])
  }

  ghost predicate Orderly(steps: seq<Step>) {
    Runs.Along(Next, NoOverlap, Empty, steps)
  }

  /** In every run in which no job is claimed that a worker has, with failing reads, crashes and
      recoveries anywhere: a job that was accepted, and neither discarded as too big nor purged, is in
      one of the four directories unless a readable file of it was removed as unreadable, and at most
      one worker has it. */
  lemma OnlyRemovalsLose(steps: seq<Step>, id: Id)
    requires Runs.Along(Next, ClaimsAlone, Empty, steps)
    ensures (Lost(After(steps), id) ==> id in After(steps).dropped) && Alone(After(steps), id)
  {
    forall q, s | Sound(q) && ClaimsAlone(q, s) ensures Sound(Next(q, s)) { NextKeepsInv(q, s); }
    Runs.AlongKeeps(Next, ClaimsAlone, Sound, Empty, steps);
    assert Kept(After(steps), id) && Alone(After(steps), id);
  }

  ghost predicate SoundAndWhole(q: Queue) {
    Sound(q) && q.dropped == {}
  }

  /** Without overlap no job is lost. */
  lemma JobsSurvive(steps: seq<Step>, id: Id)
    requires Orderly(steps)
    ensures !Lost(After(steps), id) && Alone(After(steps), id)
  {
    forall q, s | SoundAndWhole(q) && NoOverlap(q, s) ensures SoundAndWhole(Next(q, s)) { NextKeepsInv(q, s); }
    Runs.AlongKeeps(Next, NoOverlap, SoundAndWhole, Empty, steps);
    assert Kept(After(steps), id) && Alone(After(steps), id);
  }

  // ---------------------------------------------------------------- overlap loses jobs

  /** Whenever a worker has put a job back and not yet removed the old file, a claim of the job by
      another worker loses it: the removal takes the new claim's file. */
  lemma OverlappingClaimLoses(q: Queue, v: nat, w: nat, id: Id)
    requires v in q.workers && q.workers[v].phase == Clearing(id) && id in q.enqueued && id !in q.gone && id !in q.files.done && id !in q.files.failed
    requires w in q.workers && q.workers[w].phase.Idle? && id in q.workers[w].seen && id in q.files.pending
    ensures Lost(Next(Next(q, Claim(w, id)), Remove(v)), id)
  {
    assert Next(q, Claim(w, id)).workers[v] == q.workers[v];
  }

  /** Whenever the only file of a job is a readable one in pending, a removal as unreadable loses it. */
  lemma OverlappingRemovalLoses(q: Queue, w: nat, id: Id)
    requires w in q.workers && q.workers[w].phase.Idle? && id in q.workers[w].doomed && id in q.enqueued && id !in q.gone
    requires id in q.files.pending && !q.files.pending[id].big && id !in q.files.processing && id !in q.files.done && id !in q.files.failed
    ensures Lost(Next(q, Unlink(w, id)), id)
  {
  }
}
