/** Checkpoint calls of merkle_audit.go that overlap: a writer that fills the bucket, the flush loop and
    Close each take the bucket, store the root and publish in three separate regions. */
module MerkleOverlap {
  import opened MerkleAudit
  import opened Sequences
  import Runs

  /** A call that took a bucket: its sequence number is one more than its position. */
  datatype Taken = Taken(leaves: seq<string>, prev: string, stored: bool, out: bool)

  /** published holds positions in taken, in the order in which checkpointFn received them; recorded is
      history: everything written. */
  datatype Sink = Sink(bucket: seq<string>, taken: seq<Taken>, prevRoot: string, published: seq<nat>, recorded: seq<string>)

  const Start := Sink([], [], "", [], [])

  datatype Event = Write(digest: string) | Take | Store(i: nat) | Publish(i: nat)

  ghost function Root(h: Hash, s: Sink, i: nat): string
    requires i < |s.taken|
  {
    RootOf(h, s.taken[i].leaves)
  }

  ghost function Step(h: Hash, s: Sink, e: Event): Sink {
    match e
    case Write(d) => s.(bucket := s.bucket + [d], recorded := s.recorded + [d])
    case Take => if s.bucket == [] then s else s.(bucket := [], taken := s.taken + [Taken(s.bucket, s.prevRoot, false, false)])
    case Store(i) =>
      if i < |s.taken| && !s.taken[i].stored then s.(prevRoot := Root(h, s, i), taken := s.taken[i := s.taken[i].(stored := true)]) else s
    case Publish(i) =>
      if i < |s.taken| && s.taken[i].stored && !s.taken[i].out
      then s.(published := s.published + [i], taken := s.taken[i := s.taken[i].(out := true)]) else s
  }

  ghost function Run(h: Hash, s: Sink, events: seq<Event>): Sink {
    Runs.Run((s, e) => Step(h, s, e), s, events)
  }

  /** A bucket is taken only when every root taken before is stored, and a checkpoint is published only
      when every one taken before it is. */
  predicate InOrder(s: Sink, e: Event) {
    match e
    case Take => s.bucket != [] ==> forall j :: 0 <= j < |s.taken| ==> s.taken[j].stored
    case Publish(i) => i < |s.taken| && s.taken[i].stored && !s.taken[i].out ==> forall j :: 0 <= j < i ==> s.taken[j].out
    case _ => true
  }

  ghost function CheckpointAt(h: Hash, s: Sink, i: nat): Checkpoint
    requires i < |s.taken|
  {
    Checkpoint(i + 1, Root(h, s, i), |s.taken[i].leaves|, s.taken[i].prev)
  }

  // ---------------------------------------------------------------- every run

  ghost function Buckets(s: Sink): seq<seq<string>> {
    seq(|s.taken|, i requires 0 <= i < |s.taken| => s.taken[i].leaves)
  }

  /** What is published was taken and stored, and nothing written is lost or reordered. */
  ghost predicate Sound(s: Sink) {
    && (forall a :: 0 <= a < |s.published| ==> s.published[a] < |s.taken| && s.taken[s.published[a]].out)
    && (forall i :: 0 <= i < |s.taken| && s.taken[i].out ==> i in s.published && s.taken[i].stored)
    && Flat(Buckets(s)) + s.bucket == s.recorded
  }

  lemma StepSound(h: Hash, s: Sink, e: Event)
    requires Sound(s)
    ensures Sound(Step(h, s, e))
  {
    var s' := Step(h, s, e);
    if e.Take? && s.bucket != [] {
      assert Buckets(s') == Buckets(s) + [s.bucket];
      FlatSnoc(Buckets(s), s.bucket);
    } else {
      assert Buckets(s') == Buckets(s);
      if e.Write? { Assoc(Flat(Buckets(s)), s.bucket, [e.digest]); }
      if e.Publish? && s' != s { assert s'.published[|s.published|] == e.i; }
    }
  }

  lemma {:induction false} RunSound(h: Hash, s: Sink, events: seq<Event>)
    requires Sound(s)
    ensures Sound(Run(h, s, events))
    decreases |events|
  {
    if |events| > 0 {
      StepSound(h, s, events[0]);
      RunSound(h, Step(h, s, events[0]), events[1..]);
    }
  }

  /** The checkpoints as they were published. */
  ghost function Chain(h: Hash, s: Sink): seq<Checkpoint>
    requires Sound(s)
  {
    seq(|s.published|, a requires 0 <= a < |s.published| => CheckpointAt(h, s, s.published[a]))
  }

  // ---------------------------------------------------------------- in order, or not

  ghost predicate LinkAt(h: Hash, s: Sink, k: nat)
    requires k < |s.taken|
  {
    s.taken[k].prev == if k == 0 then "" else Root(h, s, k - 1)
  }

  /** Each call found the root of the one before, at most the last one is not stored, and the
      checkpoints came out in order. */
  ghost predicate Good(h: Hash, s: Sink) {
    && (forall k :: 0 <= k < |s.taken| ==> LinkAt(h, s, k))
    && (forall k :: 0 <= k < |s.taken| - 1 ==> s.taken[k].stored)
    && s.prevRoot == (if |s.taken| == 0 then "" else if s.taken[|s.taken| - 1].stored then Root(h, s, |s.taken| - 1) else s.taken[|s.taken| - 1].prev)
    && (forall a :: 0 <= a < |s.published| ==> s.published[a] == a)
  }

  ghost predicate Bad(h: Hash, s: Sink) {
    (exists k :: 0 < k < |s.taken| && !LinkAt(h, s, k)) || exists a :: 0 <= a < |s.published| && s.published[a] != a
  }

  /** No root is empty or that of the bucket before. */
  ghost predicate Distinct(h: Hash, s: Sink) {
    && (forall i :: 0 <= i < |s.taken| ==> Root(h, s, i) != "")
    && (forall i :: 0 < i < |s.taken| ==> Root(h, s, i - 1) != Root(h, s, i))
  }

  /** Calls are not forgotten. */
  ghost predicate Grows(s: Sink, s': Sink) {
    && |s.taken| <= |s'.taken|
    && (forall i :: 0 <= i < |s.taken| ==> s'.taken[i].leaves == s.taken[i].leaves && s'.taken[i].prev == s.taken[i].prev)
    && s.published <= s'.published
  }

  lemma {:induction false} RunGrows(h: Hash, s: Sink, events: seq<Event>)
    ensures Grows(s, Run(h, s, events))
    decreases |events|
  {
    if |events| > 0 {
      assert Grows(s, Step(h, s, events[0]));
      RunGrows(h, Step(h, s, events[0]), events[1..]);
    }
  }

  lemma GrowsKeeps(h: Hash, s: Sink, s': Sink)
    requires Grows(s, s')
    ensures Distinct(h, s') ==> Distinct(h, s)
    ensures Bad(h, s) ==> Bad(h, s')
  {
    forall i | 0 <= i < |s.taken| ensures Root(h, s', i) == Root(h, s, i) && (LinkAt(h, s', i) <==> LinkAt(h, s, i)) {
      assert i > 0 ==> Root(h, s', i - 1) == Root(h, s, i - 1);
    }
    forall a | 0 <= a < |s.published| ensures s'.published[a] == s.published[a] {}
  }

  lemma TakeDecides(h: Hash, s: Sink)
    requires Good(h, s) && s.bucket != []
    ensures InOrder(s, Take) ==> Good(h, Step(h, s, Take))
    ensures !InOrder(s, Take) && Distinct(h, s) ==> Bad(h, Step(h, s, Take))
  {
    var s', n := Step(h, s, Take), |s.taken|;
    GrowsSame(h, s, s');
    if InOrder(s, Take) {
      assert LinkAt(h, s', n);
    } else {
      assert n > 0 && !s.taken[n - 1].stored && LinkAt(h, s, n - 1);
      if Distinct(h, s) { assert !LinkAt(h, s', n); }
    }
  }

  lemma GrowsSame(h: Hash, s: Sink, s': Sink)
    requires Grows(s, s')
    ensures forall k :: 0 <= k < |s.taken| ==> Root(h, s', k) == Root(h, s, k)
    ensures forall k :: 0 <= k < |s.taken| ==> (LinkAt(h, s', k) <==> LinkAt(h, s, k))
  {
  }

  lemma StoreKeepsGood(h: Hash, s: Sink, i: nat)
    requires Good(h, s)
    ensures Good(h, Step(h, s, Store(i)))
  {
    GrowsSame(h, s, Step(h, s, Store(i)));
  }

  lemma OutIffBelow(s: Sink, j: nat)
    requires Sound(s) && j < |s.taken| && forall a :: 0 <= a < |s.published| ==> s.published[a] == a
    ensures s.taken[j].out <==> j < |s.published|
  {
    if j < |s.published| { assert s.published[j] == j; }
  }

  lemma PublishDecides(h: Hash, s: Sink, i: nat)
    requires Sound(s) && Good(h, s)
    ensures if InOrder(s, Publish(i)) then Good(h, Step(h, s, Publish(i))) else Bad(h, Step(h, s, Publish(i)))
  {
    var s', m := Step(h, s, Publish(i)), |s.published|;
    GrowsSame(h, s, s');
    forall j: nat | j < |s.taken| ensures s.taken[j].out <==> j < m { OutIffBelow(s, j); }
    if s' != s { assert s'.published[m] == i && (m < i ==> !s.taken[m].out); }
  }

  lemma StepDecides(h: Hash, s: Sink, e: Event)
    requires Sound(s) && Good(h, s)
    ensures InOrder(s, e) ==> Good(h, Step(h, s, e))
    ensures !InOrder(s, e) && Distinct(h, s) ==> Bad(h, Step(h, s, e))
  {
    match e {
      case Write(_) => GrowsSame(h, s, Step(h, s, e));
      case Take => if s.bucket != [] { TakeDecides(h, s); }
      case Store(i) => StoreKeepsGood(h, s, i);
      case Publish(i) => PublishDecides(h, s, i);
    }
  }

  lemma {:induction false} RunDecides(h: Hash, s: Sink, events: seq<Event>)
    requires Sound(s) && Good(h, s)
    ensures var s' := Run(h, s, events);
      if Runs.Along((s, e) => Step(h, s, e), InOrder, s, events) then Good(h, s') else Distinct(h, s') ==> Bad(h, s')
    decreases |events|
  {
    if |events| > 0 {
      var s1, s' := Step(h, s, events[0]), Run(h, s, events);
      StepSound(h, s, events[0]);
      StepDecides(h, s, events[0]);
      RunGrows(h, s, events);
      RunGrows(h, s1, events[1..]);
      GrowsKeeps(h, s, s');
      GrowsKeeps(h, s1, s');
      if InOrder(s, events[0]) { RunDecides(h, s1, events[1..]); }
    }
  }

  // ---------------------------------------------------------------- the published chain

  lemma GoodIsLinked(h: Hash, s: Sink)
    requires Sound(s) && Good(h, s)
    ensures Linked(Chain(h, s))
  {
    var cps := Chain(h, s);
    forall a | 1 <= a < |cps| ensures Follows(cps[a - 1], cps[a]) {
      assert s.published[a] == a && s.published[a - 1] == a - 1 && LinkAt(h, s, a);
    }
  }

  /** Every call has published. */
  predicate Quiet(s: Sink) {
    forall i :: 0 <= i < |s.taken| ==> s.taken[i].out
  }

  /** Consecutive numbers that contain 0 start with it. */
  lemma {:induction false} LinkedCounts(h: Hash, s: Sink, a: nat)
    requires Sound(s) && Linked(Chain(h, s)) && a < |s.published|
    ensures s.published[a] == s.published[0] + a
    decreases a
  {
    if a > 0 {
      LinkedCounts(h, s, a - 1);
      assert Follows(Chain(h, s)[a - 1], Chain(h, s)[a]);
    }
  }

  lemma LinkedIsIdentity(h: Hash, s: Sink, a: nat)
    requires Sound(s) && Quiet(s) && Linked(Chain(h, s)) && a < |s.published|
    ensures s.published[a] == a
  {
    assert s.published[a] < |s.taken| && s.taken[0].out && 0 in s.published;
    var b :| 0 <= b < |s.published| && s.published[b] == 0;
    LinkedCounts(h, s, a);
    LinkedCounts(h, s, b);
  }

  lemma LinkedFindsRoots(h: Hash, s: Sink, k: nat)
    requires Sound(s) && Quiet(s) && Linked(Chain(h, s)) && 0 < k < |s.taken|
    ensures LinkAt(h, s, k)
  {
    assert s.taken[k].out && k in s.published;
    var a :| 0 <= a < |s.published| && s.published[a] == k;
    LinkedIsIdentity(h, s, a);
    LinkedIsIdentity(h, s, a - 1);
    assert Follows(Chain(h, s)[a - 1], Chain(h, s)[a]);
  }

  lemma LinkedIsNotBad(h: Hash, s: Sink)
    requires Sound(s) && Quiet(s) && Linked(Chain(h, s))
    ensures !Bad(h, s)
  {
    forall a | 0 <= a < |s.published| ensures s.published[a] == a { LinkedIsIdentity(h, s, a); }
    forall k | 0 < k < |s.taken| ensures LinkAt(h, s, k) { LinkedFindsRoots(h, s, k); }
  }

  /** In every run after which no call is under way, whatever overlaps: every event written is in one
      bucket, in order; and if no two neighbouring buckets have one root, the published checkpoints
      pass VerifyChain if and only if roots were stored before the next bucket was taken and
      checkpoints came out in the order in which their buckets were taken. */
  lemma ChainValidIff(h: Hash, events: seq<Event>)
    requires Quiet(Run(h, Start, events))
    ensures var s := Run(h, Start, events);
      && Sound(s) && Flat(Buckets(s)) + s.bucket == s.recorded
      && (Runs.Along((s, e) => Step(h, s, e), InOrder, Start, events) ==> Linked(Chain(h, s)))
      && (Distinct(h, s) && Linked(Chain(h, s)) ==> Runs.Along((s, e) => Step(h, s, e), InOrder, Start, events))
  {
    var s := Run(h, Start, events);
    assert Flat(Buckets(Start)) == [];
    RunSound(h, Start, events);
    RunDecides(h, Start, events);
    if Good(h, s) { GoodIsLinked(h, s); }
    if Linked(Chain(h, s)) { LinkedIsNotBad(h, s); }
  }

  lemma FillAndTake(h: Hash, s: Sink, d: string)
    requires s.bucket == []
    ensures Run(h, s, [Write(d), Take]) == s.(taken := s.taken + [Taken([d], s.prevRoot, false, false)], recorded := s.recorded + [d])
  {
    Runs.ShortRuns((s, e) => Step(h, s, e), s, Write(d), Take);
    assert s.bucket + [d] == [d];
  }

  lemma StoreAndPublish(h: Hash, s: Sink, i: nat)
    requires i < |s.taken| && !s.taken[i].stored && !s.taken[i].out
    ensures Run(h, s, [Store(i), Publish(i)]) ==
      s.(prevRoot := Root(h, s, i), taken := s.taken[i := s.taken[i].(stored := true, out := true)], published := s.published + [i])
  {
    Runs.ShortRuns((s, e) => Step(h, s, e), s, Store(i), Publish(i));
    var t := s.taken[i].(stored := true);
    assert s.taken[i := t][i := t.(out := true)] == s.taken[i := t.(out := true)];
  }

  lemma WrongPrevious(h: Hash, s: Sink, a: string)
    requires Sound(s) && |s.taken| == 2 && s.published == [0, 1] && s.taken[0].leaves == [a] && s.taken[1].prev != a
    ensures !Linked(Chain(h, s))
  {
    assert !Follows(Chain(h, s)[0], Chain(h, s)[1]);
  }

  /** Two calls that overlap, whatever the hash: the second took its bucket before the first had stored
      its root. */
  lemma OverlapBreaksChain(h: Hash, a: string, b: string) returns (s: Sink)
    requires a != ""
    ensures s == Run(h, Run(h, Run(h, Run(h, Start, [Write(a), Take]), [Write(b), Take]), [Store(0), Publish(0)]), [Store(1), Publish(1)])
    ensures Sound(s) && Quiet(s) && !Linked(Chain(h, s))
  {
    FillAndTake(h, Start, a);
    var s1 := Run(h, Start, [Write(a), Take]);
    FillAndTake(h, s1, b);
    var s2 := Run(h, s1, [Write(b), Take]);
    StoreAndPublish(h, s2, 0);
    var s3 := Run(h, s2, [Store(0), Publish(0)]);
    StoreAndPublish(h, s3, 1);
    s := Run(h, s3, [Store(1), Publish(1)]);
    assert Flat(Buckets(Start)) == [];
    RunSound(h, Start, [Write(a), Take]);
    RunSound(h, s1, [Write(b), Take]);
    RunSound(h, s2, [Store(0), Publish(0)]);
    RunSound(h, s3, [Store(1), Publish(1)]);
    WrongPrevious(h, s, a);
  }
}
