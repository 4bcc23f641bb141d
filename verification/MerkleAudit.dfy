/** The checkpointing audit sink of merkle_audit.go. A digest is a hex string; the hash is a
    parameter, and collision resistance is asked for only on the strings actually hashed. */
module MerkleAudit {
  import opened MerkleTree
  import opened Sequences

  type Hash = string -> string

  const DIGEST_LENGTH := 64

  ghost predicate FixedLength(h: Hash) {
    forall x: string :: |h(x)| == DIGEST_LENGTH
  }

  function Join(h: Hash): (string, string) -> string {
    (a, b) => h(a + b)
  }

  /** The root the program publishes: the tree, or the hash of the empty string. */
  ghost function RootOf(h: Hash, leaves: seq<string>): string {
    if |leaves| == 0 then h("") else Tree(Join(h), leaves)
  }

  method BuildMerkleRoot(h: Hash, hashes: seq<string>) returns (root: string)
    ensures root == RootOf(h, hashes)
  {
    if |hashes| == 0 { return h(""); }
    root := Fold(Join(h), hashes);
  }

  ghost predicate AllDigests(nodes: seq<string>) {
    forall i :: 0 <= i < |nodes| ==> |nodes[i]| == DIGEST_LENGTH
  }

  /** Every string hashed while building the tree. */
  ghost function Hashed(h: Hash, leaves: seq<string>): set<string>
    requires |leaves| > 0
  {
    set p | p in Joined(Join(h), leaves) :: p.0 + p.1
  }

  ghost predicate NoCollision(h: Hash, inputs: set<string>) {
    forall x, y :: x in inputs && y in inputs && h(x) == h(y) ==> x == y
  }

  lemma {:induction false} JoinedAreDigests(h: Hash, leaves: seq<string>)
    requires FixedLength(h) && AllDigests(leaves) && |leaves| > 0
    ensures |Tree(Join(h), leaves)| == DIGEST_LENGTH
    ensures forall p :: p in Joined(Join(h), leaves) ==> |p.0| == |p.1| == DIGEST_LENGTH
    decreases |leaves|
  {
    if |leaves| > 1 {
      var k := Split(|leaves|);
      JoinedAreDigests(h, leaves[..k]);
      JoinedAreDigests(h, leaves[k..]);
    }
  }

  lemma ConcatDecides(a: string, b: string, c: string, d: string)
    requires |a| == |c| && a + b == c + d
    ensures a == c && b == d
  {
    assert a == (a + b)[..|a|] && c == (c + d)[..|c|];
    assert b == (a + b)[|a|..] && d == (c + d)[|c|..];
  }

  lemma NoCollisionMeansInjective(h: Hash, a: seq<string>, b: seq<string>)
    requires FixedLength(h) && AllDigests(a) && AllDigests(b) && |a| > 0 && |b| > 0
    requires NoCollision(h, Hashed(h, a) + Hashed(h, b))
    ensures InjectiveOn(Join(h), Joined(Join(h), a) + Joined(Join(h), b))
  {
    JoinedAreDigests(h, a);
    JoinedAreDigests(h, b);
    var pairs := Joined(Join(h), a) + Joined(Join(h), b);
    forall p, q | p in pairs && q in pairs && Join(h)(p.0, p.1) == Join(h)(q.0, q.1)
      ensures p == q
    {
      assert p.0 + p.1 in Hashed(h, a) + Hashed(h, b) && q.0 + q.1 in Hashed(h, a) + Hashed(h, b);
      ConcatDecides(p.0, p.1, q.0, q.1);
    }
  }

  // ---------------------------------------------------------------- checkpoints and chains

  datatype Checkpoint = Checkpoint(sequence: nat, rootHash: string, eventCount: nat, prevCheckpointHash: string)

  method VerifyCheckpoint(h: Hash, cp: Checkpoint, eventHashes: seq<string>) returns (ok: bool)
    ensures ok <==> cp.rootHash == RootOf(h, eventHashes)
  {
    if |eventHashes| == 0 { return cp.rootHash == h(""); }
    var root := BuildMerkleRoot(h, eventHashes);
    return root == cp.rootHash;
  }

  ghost predicate Linked(cps: seq<Checkpoint>) {
    forall i :: 1 <= i < |cps| ==> Follows(cps[i - 1], cps[i])
  }

  ghost predicate Follows(prev: Checkpoint, cp: Checkpoint) {
    cp.prevCheckpointHash == prev.rootHash && cp.sequence == prev.sequence + 1
  }

  method VerifyChain(cps: seq<Checkpoint>) returns (ok: bool)
    ensures ok <==> Linked(cps)
  {
    var i := 1;
    while i < |cps|
      invariant 1 <= i && forall j :: 1 <= j < i && j < |cps| ==> Follows(cps[j - 1], cps[j])
    {
      if cps[i].prevCheckpointHash != cps[i - 1].rootHash { return false; }
      if cps[i].sequence != cps[i - 1].sequence + 1 { return false; }
      i := i + 1;
    }
    return true;
  }

  /** The checkpoints record these buckets, in order. */
  ghost predicate Records(h: Hash, cps: seq<Checkpoint>, buckets: seq<seq<string>>) {
    && |cps| == |buckets|
    && forall i :: 0 <= i < |cps| ==>
         |buckets[i]| == cps[i].eventCount > 0 && AllDigests(buckets[i]) && cps[i].rootHash == RootOf(h, buckets[i])
  }

  /** One list of checkpoints admits one event history: any second history that passes
      every root check with the recorded counts is the same, unless two hashed strings collide. */
  lemma CheckpointsBindHistory(h: Hash, cps: seq<Checkpoint>, was: seq<seq<string>>, claimed: seq<seq<string>>)
    requires FixedLength(h) && Records(h, cps, was) && Records(h, cps, claimed)
    requires forall i :: 0 <= i < |cps| ==> NoCollision(h, Hashed(h, was[i]) + Hashed(h, claimed[i]))
    ensures was == claimed
  {
    forall i | 0 <= i < |cps| ensures was[i] == claimed[i] {
      NoCollisionMeansInjective(h, was[i], claimed[i]);
      RootBindsLeaves(Join(h), was[i], claimed[i]);
    }
  }

  /** The counts are needed: VerifyCheckpoint reads only the root, and joining the first two
      events of any longer bucket by hand can give a shorter list with the same root. */
  lemma RootAloneDoesNotBindCount(h: Hash, a: string, b: string)
    ensures RootOf(h, [a, b]) == RootOf(h, [h(a + b)])
  {
    assert [a, b] == [a] + [b];
    TreeOfParts(Join(h), [a], [b]);
  }

  // ---------------------------------------------------------------- the sink

  /** A published history: linked from sequence 1 and the empty previous hash, each root that
      of its bucket. */
  ghost predicate Ledger(h: Hash, cps: seq<Checkpoint>, buckets: seq<seq<string>>) {
    && Records(h, cps, buckets)
    && Linked(cps)
    && (forall i :: 0 <= i < |cps| ==> cps[i].sequence == i + 1)
    && (|cps| > 0 ==> cps[0].prevCheckpointHash == "")
  }

  ghost function LastRoot(cps: seq<Checkpoint>): string {
    if |cps| == 0 then "" else cps[|cps| - 1].rootHash
  }

  lemma LedgerExtends(h: Hash, cps: seq<Checkpoint>, buckets: seq<seq<string>>, leaves: seq<string>)
    requires Ledger(h, cps, buckets) && AllDigests(leaves) && |leaves| > 0
    ensures Ledger(h, cps + [Checkpoint(|cps| + 1, RootOf(h, leaves), |leaves|, LastRoot(cps))], buckets + [leaves])
    ensures Flat(buckets + [leaves]) == Flat(buckets) + leaves
  {
    FlatSnoc(buckets, leaves);
    var cps' := cps + [Checkpoint(|cps| + 1, RootOf(h, leaves), |leaves|, LastRoot(cps))];
    forall i | 1 <= i < |cps'| ensures Follows(cps'[i - 1], cps'[i]) {
      if i < |cps| { assert Follows(cps[i - 1], cps[i]); }
    }
  }

  class MerkleAuditSink {
    const h: Hash
    const bucketMax: nat
    const hasNext: bool
    var bucket: seq<string>
    var prevRoot: string
    var sequence: nat
    var published: seq<Checkpoint>          // what checkpointFn received
    ghost var buckets: seq<seq<string>>     // the bucket behind each checkpoint
    ghost var recorded: seq<string>         // the digest of every event written

    ghost predicate Valid()
      reads this
    {
      && FixedLength(h) && bucketMax > 0 && AllDigests(bucket)
      && Ledger(h, published, buckets)
      && sequence == |published| && prevRoot == LastRoot(published)
      && Flat(buckets) + bucket == recorded
    }

    constructor (h: Hash, bucketSize: int, hasNext: bool)
      requires FixedLength(h)
      ensures Valid() && recorded == [] && published == []
      ensures this.h == h && this.hasNext == hasNext && bucketMax == (if bucketSize <= 0 then 100 else bucketSize)
    {
      this.h, this.hasNext := h, hasNext;
      bucketMax := if bucketSize <= 0 then 100 else bucketSize;
      bucket, prevRoot, sequence, published := [], "", 0, [];
      buckets, recorded := [], [];
    }

    /** Publishes the current bucket, if any; nothing recorded is lost or reordered. */
    method CreateCheckpoint()
      requires Valid()
      modifies this
      ensures Valid() && recorded == old(recorded) && bucket == []
      ensures old(published) <= published
      ensures buckets == if old(bucket) == [] then old(buckets) else old(buckets) + [old(bucket)]
    {
      if |bucket| == 0 { return; }
      var leaves := bucket;
      bucket := [];
      sequence := sequence + 1;
      var root := BuildMerkleRoot(h, leaves);
      var cp := Checkpoint(sequence, root, |leaves|, prevRoot);
      LedgerExtends(h, published, buckets, leaves);
      prevRoot := root;
      published := published + [cp];
      buckets := buckets + [leaves];
    }

    method WriteAudit(event: string)
      requires Valid()
      modifies this
      ensures Valid()
      ensures recorded == if hasNext then old(recorded) + [h(event)] else old(recorded)
      ensures old(published) <= published
      ensures hasNext && |old(bucket)| + 1 < bucketMax ==> published == old(published)
      ensures hasNext && |old(bucket)| + 1 >= bucketMax ==> bucket == []
    {
      if !hasNext { return; }
      bucket := bucket + [h(event)];
      recorded := recorded + [h(event)];
      if |bucket| >= bucketMax { CreateCheckpoint(); }
    }
  }
}
