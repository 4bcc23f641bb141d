/** The fold of merkle_audit.go over an arbitrary node type: `join` stands for hashing the
    concatenation of two digests. */
module MerkleTree {

  ghost predicate IsPowerOfTwo(k: nat) {
    k == 1 || (k > 1 && k % 2 == 0 && IsPowerOfTwo(k / 2))
  }

  /** The largest power of two strictly below n. */
  ghost function Split(n: nat): (k: nat)
    requires n >= 2
    ensures IsPowerOfTwo(k) && k < n <= 2 * k
  {
    if n == 2 then 1 else 2 * Split((n + 1) / 2)
  }

  /** The tree shape of section 2.1 of RFC 6962: split at the largest power of two below n. */
  ghost function Tree<D>(join: (D, D) -> D, leaves: seq<D>): D
    requires |leaves| > 0
    decreases |leaves|
  {
    if |leaves| == 1 then leaves[0]
    else
      var k := Split(|leaves|);
      join(Tree(join, leaves[..k]), Tree(join, leaves[k..]))
  }

  /** Node i of the level above: two neighbours joined, or an odd last node promoted. */
  ghost function Parent<D>(join: (D, D) -> D, nodes: seq<D>, i: nat): D
    requires 2 * i < |nodes|
  {
    if 2 * i + 1 < |nodes| then join(nodes[2 * i], nodes[2 * i + 1]) else nodes[2 * i]
  }

  /** One pass of the loop. */
  ghost function Level<D>(join: (D, D) -> D, nodes: seq<D>): (r: seq<D>)
    ensures |r| == (|nodes| + 1) / 2
    ensures forall i :: 0 <= i < |r| ==> r[i] == Parent(join, nodes, i)
  {
    seq((|nodes| + 1) / 2, i requires 0 <= i < (|nodes| + 1) / 2 => Parent(join, nodes, i))
  }

  lemma LevelOfConcat<D>(join: (D, D) -> D, a: seq<D>, b: seq<D>)
    requires |a| % 2 == 0
    ensures Level(join, a + b) == Level(join, a) + Level(join, b)
  {
    forall i | 0 <= i < |Level(join, a + b)|
      ensures Level(join, a + b)[i] == (Level(join, a) + Level(join, b))[i]
    {
      if i >= |a| / 2 { assert Parent(join, a + b, i) == Parent(join, b, i - |a| / 2); }
    }
  }

  lemma {:induction false} TreeOfParts<D>(join: (D, D) -> D, a: seq<D>, b: seq<D>)
    requires |a| > 0 && |b| > 0 && |a| == Split(|a| + |b|)
    ensures Tree(join, a + b) == join(Tree(join, a), Tree(join, b))
  {
    var whole := a + b;
    assert whole[..|a|] == a;
    assert whole[|a|..] == b;
  }

  lemma {:induction false} SplitHalves(a: nat, b: nat)
    requires b > 0 && a + b > 2 && a == Split(a + b)
    ensures a % 2 == 0 && a / 2 == Split(a / 2 + (b + 1) / 2)
  {
    assert (a + b + 1) / 2 == a / 2 + (b + 1) / 2;
  }

  lemma {:induction false} LevelOfParts<D>(join: (D, D) -> D, left: seq<D>, right: seq<D>)
    requires |left| > 0 && |right| > 0 && |left| + |right| > 2
    requires |left| == Split(|left| + |right|)
    ensures Tree(join, Level(join, left + right)) == join(Tree(join, Level(join, left)), Tree(join, Level(join, right)))
  {
    SplitHalves(|left|, |right|);
    LevelOfConcat(join, left, right);
    TreeOfParts(join, Level(join, left), Level(join, right));
  }

  /** Replacing a list of nodes by the level above it does not change its tree. */
  lemma {:induction false} LevelKeepsTree<D>(join: (D, D) -> D, nodes: seq<D>)
    requires |nodes| > 0
    ensures Tree(join, Level(join, nodes)) == Tree(join, nodes)
    decreases |nodes|
  {
    if |nodes| == 2 {
      assert nodes[..1] == [nodes[0]] && nodes[1..] == [nodes[1]];
      assert Level(join, nodes) == [join(nodes[0], nodes[1])];
    } else if |nodes| > 2 {
      var k := Split(|nodes|);
      assert nodes == nodes[..k] + nodes[k..];
      LevelOfParts(join, nodes[..k], nodes[k..]);
      LevelKeepsTree(join, nodes[..k]);
      LevelKeepsTree(join, nodes[k..]);
    }
  }

  method NextLevel<D>(join: (D, D) -> D, nodes: seq<D>) returns (next: seq<D>)
    ensures next == Level(join, nodes)
  {
    next := [];
    var i := 0;
    while i < |nodes|
      invariant i == 2 * |next| && |next| <= (|nodes| + 1) / 2
      invariant forall j :: 0 <= j < |next| ==> next[j] == Parent(join, nodes, j)
    {
      if i + 1 < |nodes| {
        next := next + [join(nodes[i], nodes[i + 1])];
      } else {
        next := next + [nodes[i]];
      }
      i := i + 2;
    }
  }

  /** The program's loop: levels until one node is left. */
  method Fold<D>(join: (D, D) -> D, leaves: seq<D>) returns (root: D)
    requires |leaves| > 0
    ensures root == Tree(join, leaves)
  {
    var nodes := leaves;
    while |nodes| > 1
      invariant |nodes| > 0 && Tree(join, nodes) == Tree(join, leaves)
      decreases |nodes|
    {
      LevelKeepsTree(join, nodes);
      nodes := NextLevel(join, nodes);
    }
    return nodes[0];
  }

  /** Every pair of nodes joined while building the tree. */
  ghost function Joined<D>(join: (D, D) -> D, leaves: seq<D>): set<(D, D)>
    requires |leaves| > 0
    decreases |leaves|
  {
    if |leaves| == 1 then {}
    else
      var k := Split(|leaves|);
      {(Tree(join, leaves[..k]), Tree(join, leaves[k..]))} + Joined(join, leaves[..k]) + Joined(join, leaves[k..])
  }

  ghost predicate InjectiveOn<D>(join: (D, D) -> D, pairs: set<(D, D)>) {
    forall p, q :: p in pairs && q in pairs && join(p.0, p.1) == join(q.0, q.1) ==> p == q
  }

  /** Two equally long leaf lists have one root exactly when they are equal, unless two
      different pairs joined for them collide. */
  lemma {:induction false} RootBindsLeaves<D>(join: (D, D) -> D, a: seq<D>, b: seq<D>)
    requires |a| == |b| > 0
    requires InjectiveOn(join, Joined(join, a) + Joined(join, b))
    ensures Tree(join, a) == Tree(join, b) <==> a == b
    decreases |a|
  {
    if |a| > 1 && Tree(join, a) == Tree(join, b) {
      var k := Split(|a|);
      var p := (Tree(join, a[..k]), Tree(join, a[k..]));
      var q := (Tree(join, b[..k]), Tree(join, b[k..]));
      assert p in Joined(join, a) && q in Joined(join, b);
      assert p == q;
      RootBindsLeaves(join, a[..k], b[..k]);
      RootBindsLeaves(join, a[k..], b[k..]);
      assert a == a[..k] + a[k..] && b == b[..k] + b[k..];
    }
  }
}
