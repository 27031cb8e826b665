/** The bottom-up loops that build a root and a proof, and the loop that checks one. */
module MerkleAlgorithms {
  import opened Bytes
  import opened Merkle
  import opened Outcomes

  // ---------------------------------------------------------------- one pass over a level

  /** The level above: neighbours are paired, a lone last element is promoted unchanged. */
  function Parents(H: Hasher, level: seq<Word>): (next: seq<Word>)
    ensures |next| == (|level| + 1) / 2
  {
    if |level| <= 1 then level
    else [NodeHash(H, level[0], level[1])] + Parents(H, level[2..])
  }

  /** The same pass on trees. */
  ghost function Pairs(ts: seq<Tree>): (next: seq<Tree>)
    ensures |next| == (|ts| + 1) / 2
    ensures ts != [] ==> next != []
  {
    if |ts| <= 1 then ts else [Node(ts[0], ts[1])] + Pairs(ts[2..])
  }

  /** Repeating the pass until one tree is left. */
  ghost function Build(ts: seq<Tree>): Tree
    requires ts != []
    decreases |ts|
  {
    if |ts| == 1 then ts[0] else Build(Pairs(ts))
  }

  ghost function Hashes(H: Hasher, ts: seq<Tree>): seq<Word> {
    seq(|ts|, i requires 0 <= i < |ts| => TreeHash(H, ts[i]))
  }

  ghost function LeafTrees(ds: seq<Bytes>): seq<Tree> {
    seq(|ds|, i requires 0 <= i < |ds| => Leaf(ds[i]))
  }

  lemma {:induction false} PairsHash(H: Hasher, ts: seq<Tree>)
    ensures Hashes(H, Pairs(ts)) == Parents(H, Hashes(H, ts))
  {
    if |ts| > 1 {
      PairsHash(H, ts[2..]);
      assert Hashes(H, ts)[2..] == Hashes(H, ts[2..]);
      assert Hashes(H, Pairs(ts)) == [TreeHash(H, Node(ts[0], ts[1]))] + Hashes(H, Pairs(ts[2..]));
    }
  }

  lemma {:induction false} ParentAt(H: Hasher, level: seq<Word>, j: nat)
    requires 2 * j < |level|
    ensures Parents(H, level)[j]
            == if 2 * j + 1 < |level| then NodeHash(H, level[2 * j], level[2 * j + 1]) else level[2 * j]
  {
    if j > 0 {
      ParentAt(H, level[2..], j - 1);
    }
  }

  lemma NextParent(H: Hasher, level: seq<Word>, j: nat)
    requires 2 * j < |level|
    ensures Parents(H, level)[..j + 1] == Parents(H, level)[..j]
              + [if 2 * j + 1 < |level| then NodeHash(H, level[2 * j], level[2 * j + 1]) else level[2 * j]]
  {
    ParentAt(H, level, j);
    TakeOneMore(Parents(H, level), j);
  }

  lemma TakeOneMore<T>(s: seq<T>, j: nat)
    requires j < |s|
    ensures s[..j + 1] == s[..j] + [s[j]]
  {
  }

  lemma PairsOfTwo(x: Tree, y: Tree, rest: seq<Tree>)
    ensures Pairs([x, y] + rest) == [Node(x, y)] + Pairs(rest)
  {
    assert ([x, y] + rest)[2..] == rest;
  }

  lemma {:induction false} PairsAppend(a: seq<Tree>, b: seq<Tree>)
    requires |a| % 2 == 0
    ensures Pairs(a + b) == Pairs(a) + Pairs(b)
  {
    if a == [] {
      assert a + b == b;
    } else {
      PairsAppend(a[2..], b);
      PairsOfTwo(a[0], a[1], a[2..]);
      PairsOfTwo(a[0], a[1], a[2..] + b);
      assert a == [a[0], a[1]] + a[2..] && a + b == [a[0], a[1]] + (a[2..] + b);
    }
  }

  lemma LeftSizeHalves(n: nat)
    requires n > 2
    ensures LeftSize(n) == 2 * LeftSize((n + 1) / 2)
  {
  }

  /** A pass over a long level works on the two sides of the split separately. */
  lemma PairsSplit(ts: seq<Tree>, k: nat, h: nat)
    requires |ts| > 2 && k == LeftSize(|ts|) && h == LeftSize((|ts| + 1) / 2)
    ensures k == 2 * h && |Pairs(ts[..k])| == h
    ensures Pairs(ts) == Pairs(ts[..k]) + Pairs(ts[k..])
    ensures Pairs(ts)[..h] == Pairs(ts[..k]) && Pairs(ts)[h..] == Pairs(ts[k..])
  {
    LeftSizeHalves(|ts|);
    var a, b := ts[..k], ts[k..];
    assert ts == a + b;
    PairsAppend(a, b);
    SliceAppend(Pairs(a), Pairs(b));
  }

  lemma SliceAppend<T>(a: seq<T>, b: seq<T>)
    ensures (a + b)[..|a|] == a && (a + b)[|a|..] == b
  {
  }

  /** Building from one side of the split starts with a pass, unless one tree is left. */
  lemma BuildStep(ts: seq<Tree>)
    requires ts != []
    ensures Build(ts) == Build(Pairs(ts))
  {
  }

  lemma TwoTrees(ts: seq<Tree>)
    requires |ts| == 2
    ensures Pairs(ts) == [Node(ts[0], ts[1])]
    ensures ts[..1] == [ts[0]] && ts[1..] == [ts[1]]
  {
    assert Pairs(ts) == [Node(ts[0], ts[1])] + Pairs(ts[2..]);
  }

  /** Bottom-up building splits where the top-down tree splits. */
  lemma {:induction false} BuildSplits(ts: seq<Tree>)
    requires |ts| >= 2
    ensures Build(ts) == Node(Build(ts[..LeftSize(|ts|)]), Build(ts[LeftSize(|ts|)..]))
    decreases |ts|
  {
    if |ts| == 2 {
      TwoTrees(ts);
    } else {
      var k := LeftSize(|ts|);
      PairsSplit(ts, k, LeftSize((|ts| + 1) / 2));
      BuildStep(ts);
      BuildSplits(Pairs(ts));
      BuildStep(ts[..k]);
      BuildStep(ts[k..]);
    }
  }

  lemma LeafTreesSplit(ds: seq<Bytes>, k: nat)
    requires k <= |ds|
    ensures LeafTrees(ds)[..k] == LeafTrees(ds[..k]) && LeafTrees(ds)[k..] == LeafTrees(ds[k..])
  {
  }

  lemma {:induction false} BuildIsTree(ds: seq<Bytes>)
    requires ds != []
    ensures Build(LeafTrees(ds)) == TreeOf(ds)
    decreases |ds|
  {
    if |ds| >= 2 {
      var k := LeftSize(|ds|);
      BuildSplits(LeafTrees(ds));
      LeafTreesSplit(ds, k);
      BuildIsTree(ds[..k]);
      BuildIsTree(ds[k..]);
    }
  }

  // ---------------------------------------------------------------- the proof of one leaf

  ghost function LeafCount(ts: seq<Tree>): nat {
    if ts == [] then 0 else |Leaves(ts[0])| + LeafCount(ts[1..])
  }

  /** The pairs formed from an even number of first trees hold the same leaves. */
  lemma {:induction false} PairsKeepLeafCount(ts: seq<Tree>, j: nat)
    requires 2 * j <= |ts|
    ensures j <= |Pairs(ts)| && LeafCount(Pairs(ts)[..j]) == LeafCount(ts[..2 * j])
  {
    if j > 0 {
      PairsKeepLeafCount(ts[2..], j - 1);
      assert Pairs(ts)[..j] == [Node(ts[0], ts[1])] + Pairs(ts[2..])[..j - 1];
      assert ts[..2 * j][1..][1..] == ts[2..][..2 * (j - 1)];
    }
  }

  lemma {:induction false} LeafCountAppend(ts: seq<Tree>, t: Tree)
    ensures LeafCount(ts + [t]) == LeafCount(ts) + |Leaves(t)|
  {
    if ts == [] {
      assert (ts + [t])[1..] == [];
    } else {
      LeafCountAppend(ts[1..], t);
      assert (ts + [t])[1..] == ts[1..] + [t];
    }
  }

  lemma {:induction false} LeafTreesCount(ds: seq<Bytes>)
    ensures LeafCount(LeafTrees(ds)) == |ds|
  {
    if ds == [] {
    } else {
      LeafTreesCount(ds[1..]);
      assert LeafTrees(ds)[1..] == LeafTrees(ds[1..]);
    }
  }

  lemma {:induction false} PairAt(ts: seq<Tree>, j: nat)
    requires 2 * j < |ts|
    ensures Pairs(ts)[j] == if 2 * j + 1 < |ts| then Node(ts[2 * j], ts[2 * j + 1]) else ts[2 * j]
  {
    if j > 0 {
      PairAt(ts[2..], j - 1);
    }
  }

  /** Where leaf `offset` of tree `i` lands in the tree formed by the pass. */
  ghost function Moved(ts: seq<Tree>, i: nat, offset: nat): nat
    requires i < |ts|
  {
    if i % 2 == 0 then offset else |Leaves(ts[i - 1])| + offset
  }

  lemma MovedKeepsIndex(ts: seq<Tree>, i: nat, offset: nat)
    requires i < |ts| && offset < |Leaves(ts[i])|
    ensures i / 2 < |Pairs(ts)|
    ensures LeafCount(Pairs(ts)[..i / 2]) + Moved(ts, i, offset) == LeafCount(ts[..i]) + offset
  {
    PairsKeepLeafCount(ts, i / 2);
    if i % 2 == 1 {
      LeafCountAppend(ts[..i - 1], ts[i - 1]);
      assert ts[..i] == ts[..i - 1] + [ts[i - 1]];
    }
  }

  /** The path of a leaf gains the other child of the node formed above it, if there is one. */
  lemma PathGrows(H: Hasher, ts: seq<Tree>, i: nat, offset: nat)
    requires i < |ts| && offset < |Leaves(ts[i])|
    ensures i / 2 < |Pairs(ts)| && Moved(ts, i, offset) < |Leaves(Pairs(ts)[i / 2])|
    ensures var sibling := if i % 2 == 0 then i + 1 else i - 1;
      Siblings(H, Pairs(ts)[i / 2], Moved(ts, i, offset))
      == Siblings(H, ts[i], offset) + if sibling < |ts| then [TreeHash(H, ts[sibling])] else []
  {
    PairAt(ts, i / 2);
    if i % 2 == 1 {
      assert Pairs(ts)[i / 2] == Node(ts[i - 1], ts[i]);
    } else if i + 1 < |ts| {
      assert Pairs(ts)[i / 2] == Node(ts[i], ts[i + 1]);
    } else {
      assert Pairs(ts)[i / 2] == ts[i];
    }
  }

  lemma {:induction false} LeftSizeIsPower(n: nat) returns (e: nat)
    requires n >= 2
    ensures LeftSize(n) == Pow2(e)
  {
    if n == 2 {
      e := 0;
    } else {
      var f := LeftSizeIsPower((n + 1) / 2);
      e := f + 1;
    }
  }

  lemma {:induction false} PowersApart(a: nat, b: nat)
    requires Pow2(a) < 2 * Pow2(b)
    ensures Pow2(a) <= Pow2(b)
  {
    if a > 0 && b > 0 {
      PowersApart(a - 1, b - 1);
    }
  }

  /** The number of siblings of leaf `i` among `n`. */
  function PathLength(n: nat, i: nat): nat
    requires i < n
  {
    if n == 1 then 0
    else if i < LeftSize(n) then 1 + PathLength(LeftSize(n), i)
    else 1 + PathLength(n - LeftSize(n), i - LeftSize(n))
  }

  lemma {:induction false} SiblingsOnPath(H: Hasher, ds: seq<Bytes>, i: nat)
    requires i < |ds|
    ensures |Siblings(H, TreeOf(ds), i)| == PathLength(|ds|, i)
    decreases |ds|
  {
    if |ds| >= 2 {
      var k := LeftSize(|ds|);
      if i < k {
        SiblingsOnPath(H, ds[..k], i);
      } else {
        SiblingsOnPath(H, ds[k..], i - k);
      }
    }
  }

  /** A side of the split has at most a power of two of leaves, below `n`: one level more fits. */
  lemma OneLevelMore(rest: nat, side: nat, n: nat)
    requires n >= 2 && Pow2(rest) < 2 * side && side <= LeftSize(n)
    ensures Pow2(1 + rest) < 2 * n
  {
    var e := LeftSizeIsPower(n);
    PowersApart(rest, e);
  }

  lemma {:induction false} PathIsShort(n: nat, i: nat)
    requires i < n
    ensures Pow2(PathLength(n, i)) < 2 * n
  {
    if n >= 2 {
      var k := LeftSize(n);
      if i < k {
        PathIsShort(k, i);
        OneLevelMore(PathLength(k, i), k, n);
      } else {
        PathIsShort(n - k, i - k);
        OneLevelMore(PathLength(n - k, i - k), n - k, n);
      }
    }
  }

  /** A proof has at most ceil(log2 n) siblings: two to its length stays below 2n. */
  lemma ProofIsShort(H: Hasher, ds: seq<Bytes>, i: nat)
    requires i < |ds|
    ensures Pow2(|Siblings(H, TreeOf(ds), i)|) < 2 * |ds|
  {
    SiblingsOnPath(H, ds, i);
    PathIsShort(|ds|, i);
  }

  // ---------------------------------------------------------------- the three functions of the source

  /** The root of a batch is the hash of its tree; an empty batch is refused. */
  method MerkleRoot(H: Hasher, digests: seq<Bytes>) returns (r: Result<Word>)
    ensures digests == [] <==> r.Err?
    ensures digests != [] ==> r == Ok(TreeHash(H, TreeOf(digests)))
  {
    if digests == [] {
      return Err("empty batch");
    }
    var level := seq(|digests|, i requires 0 <= i < |digests| => LeafHash(H, digests[i]));
    ghost var trees := LeafTrees(digests);
    BuildIsTree(digests);
    while |level| > 1
      invariant trees != [] && level == Hashes(H, trees)
      invariant Build(trees) == TreeOf(digests)
      decreases |level|
    {
      level := NextLevel(H, level);
      PairsHash(H, trees);
      trees := Pairs(trees);
    }
    return Ok(level[0]);
  }

  /** The inner loop of both builders. */
  method NextLevel(H: Hasher, level: seq<Word>) returns (next: seq<Word>)
    ensures next == Parents(H, level)
  {
    next := [];
    var i := 0;
    while i < |level|
      invariant i % 2 == 0 && 0 <= i <= |level| + 1
      invariant |next| == i / 2
      invariant next == Parents(H, level)[..|next|]
    {
      NextParent(H, level, i / 2);
      next := next + [if i + 1 < |level| then NodeHash(H, level[i], level[i + 1]) else level[i]];
      i := i + 2;
    }
  }

  /**
   * The proof for position `index`: the siblings of that leaf in the tree of the batch, at most
   * ceil(log2 n) of them, and enough to climb from the leaf to the root.
   */
  method MerkleProof(H: Hasher, digests: seq<Bytes>, index: int) returns (r: Result<seq<Word>>)
    ensures r.Err? <==> index < 0 || index >= |digests|
    ensures 0 <= index < |digests| ==> r == Ok(Siblings(H, TreeOf(digests), index))
    ensures 0 <= index < |digests| ==> Pow2(|r.value|) < 2 * |digests|
    ensures 0 <= index < |digests| ==>
      Climb(H, LeafHash(H, digests[index]), r.value) == TreeHash(H, TreeOf(digests))
  {
    if index < 0 || index >= |digests| {
      return Err("index out of range");
    }
    var proof: seq<Word> := [];
    var level := seq(|digests|, j requires 0 <= j < |digests| => LeafHash(H, digests[j]));
    var i := index;
    ghost var trees, offset: nat := LeafTrees(digests), 0;
    BuildIsTree(digests);
    LeafTreesCount(digests[..index]);
    assert trees[..index] == LeafTrees(digests[..index]);
    while |level| > 1
      invariant 0 <= i < |level| && level == Hashes(H, trees)
      invariant Build(trees) == TreeOf(digests)
      invariant offset < |Leaves(trees[i])| && LeafCount(trees[..i]) + offset == index
      invariant proof == Siblings(H, trees[i], offset)
      decreases |level|
    {
      var sibling := if i % 2 == 0 then i + 1 else i - 1;
      MovedKeepsIndex(trees, i, offset);
      PathGrows(H, trees, i, offset);
      offset := Moved(trees, i, offset);
      if sibling < |level| {
        proof := proof + [level[sibling]];
      }
      level := NextLevel(H, level);
      PairsHash(H, trees);
      trees := Pairs(trees);
      i := i / 2;
    }
    ProofIsShort(H, digests, index);
    SiblingsReachRoot(H, TreeOf(digests), index);
    return Ok(proof);
  }

  /**
   * Checking a proof: siblings may have any length, but an empty one has no numeric value and is
   * an error. The verdict is whether the climb from the leaf ends at the root.
   */
  method VerifyMerkleProof(H: Hasher, digest: Bytes, proof: seq<Bytes>, root: Bytes) returns (r: Result<bool>)
    ensures r.Err? <==> [] in proof
    ensures r.Ok? ==> (r.value <==> Climb(H, LeafHash(H, digest), proof) == root)
  {
    var h := LeafHash(H, digest);
    for i := 0 to |proof|
      invariant [] !in proof[..i]
      invariant h == Climb(H, LeafHash(H, digest), proof[..i])
    {
      if proof[i] == [] {
        return Err("cannot convert an empty sibling to a number");
      }
      assert proof[..i + 1] == proof[..i] + [proof[i]];
      assert proof[..i + 1][..i] == proof[..i];
      h := NodeHash(H, h, proof[i]);
    }
    assert proof[..|proof|] == proof;
    return Ok(h == root);
  }
}
