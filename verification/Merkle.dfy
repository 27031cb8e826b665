/** The batch tree as a recursive object: what its root and its proofs mean. */
module Merkle {
  import opened Bytes

  function LeafPreimage(digest: Bytes): Bytes { [0] + digest }

  /** Children are sorted as unsigned integers, so the two arguments may come in either order. */
  function NodePreimage(a: Bytes, b: Bytes): Bytes {
    if Value(a) < Value(b) then [1] + a + b else [1] + b + a
  }

  function LeafHash(H: Hasher, digest: Bytes): Word { H(LeafPreimage(digest)) }

  function NodeHash(H: Hasher, a: Bytes, b: Bytes): Word { H(NodePreimage(a, b)) }

  datatype Tree = Leaf(digest: Bytes) | Node(left: Tree, right: Tree)

  function TreeHash(H: Hasher, t: Tree): Word {
    match t
    case Leaf(d) => LeafHash(H, d)
    case Node(l, r) => NodeHash(H, TreeHash(H, l), TreeHash(H, r))
  }

  function Leaves(t: Tree): (ds: seq<Bytes>)
    ensures ds != []
  {
    match t
    case Leaf(d) => [d]
    case Node(l, r) => Leaves(l) + Leaves(r)
  }

  function Pow2(n: nat): (p: nat)
    ensures p >= 1
  {
    if n == 0 then 1 else 2 * Pow2(n - 1)
  }

  /** The largest power of two below `n`: how many leaves of a batch go to the left subtree. */
  function LeftSize(n: nat): (k: nat)
    requires n >= 2
    ensures 1 <= k < n <= 2 * k
  {
    if n == 2 then 1 else 2 * LeftSize((n + 1) / 2)
  }

  /** The tree of a batch, top down: a full left subtree, and the rest on the right. */
  function TreeOf(digests: seq<Bytes>): (t: Tree)
    requires digests != []
    ensures Leaves(t) == digests
    decreases |digests|
  {
    if |digests| == 1 then Leaf(digests[0])
    else
      var k := LeftSize(|digests|);
      assert digests == digests[..k] + digests[k..];
      Node(TreeOf(digests[..k]), TreeOf(digests[k..]))
  }

  /** What a proof computes from a leaf: the running hash combined with each sibling in turn. */
  function Climb(H: Hasher, h: Word, proof: seq<Bytes>): Word {
    if proof == [] then h
    else NodeHash(H, Climb(H, h, proof[..|proof| - 1]), proof[|proof| - 1])
  }

  /** The hashes of the subtrees that hang off the path to leaf `i`, lowest first. */
  function Siblings(H: Hasher, t: Tree, i: nat): seq<Word>
    requires i < |Leaves(t)|
  {
    match t
    case Leaf(_) => []
    case Node(l, r) =>
      var n := |Leaves(l)|;
      if i < n then Siblings(H, l, i) + [TreeHash(H, r)]
      else Siblings(H, r, i - n) + [TreeHash(H, l)]
  }

  // ---------------------------------------------------------------- what is hashed

  /**
   * A node is hashed as the byte 1 and its two children, the smaller one first: read from the left,
   * the first byte in which the two halves differ is smaller in the first half.
   */
  lemma NodePreimageSorted(H: Hasher, a: Word, b: Word)
    ensures var p := NodePreimage(a, b);
      && NodeHash(H, a, b) == H(p) && |p| == 65 && p[0] == 1 && multiset{p[1..33], p[33..65]} == multiset{a, b}
      && (p[1..33] == p[33..65] || FirstDiffersBelow(p[1..33], p[33..65]))
  {
    var p := NodePreimage(a, b);
    var x, y := if Value(a) < Value(b) then a else b, if Value(a) < Value(b) then b else a;
    assert p == [1] + x + y && p[1..33] == x && p[33..65] == y;
    ValueOrder(a, b);
    ValueOrder(b, a);
    if Value(a) == Value(b) {
      ValueInjective(a, b);
    }
  }

  /** Siblings of any length are placed by their numbers, one of equal value before the running hash. */
  lemma NodePreimageByValue(h: Bytes, sibling: Bytes)
    ensures exists x, y ::
      && NodePreimage(h, sibling) == [1] + x + y && multiset{x, y} == multiset{h, sibling} && Value(x) <= Value(y)
      && (Value(x) == Value(y) ==> x == sibling)
  {
    var x, y := if Value(h) < Value(sibling) then h else sibling, if Value(h) < Value(sibling) then sibling else h;
    assert NodePreimage(h, sibling) == [1] + x + y;
  }

  /** A digest is hashed with the byte 0 before it. */
  lemma LeafPreimageIsTagged(H: Hasher, digest: Bytes)
    ensures var p := LeafPreimage(digest); LeafHash(H, digest) == H(p) && p != [] && p[0] == 0 && p[1..] == digest
  {
  }

  // ---------------------------------------------------------------- completeness

  lemma NodeHashSymmetric(H: Hasher, a: Word, b: Word)
    ensures NodeHash(H, a, b) == NodeHash(H, b, a)
  {
    if Value(a) == Value(b) {
      ValueInjective(a, b);
    }
  }

  /** The siblings of leaf `i` lead from that leaf to the root. */
  lemma {:induction false} SiblingsReachRoot(H: Hasher, t: Tree, i: nat)
    requires i < |Leaves(t)|
    ensures Climb(H, LeafHash(H, Leaves(t)[i]), Siblings(H, t, i)) == TreeHash(H, t)
  {
    match t
    case Leaf(_) =>
    case Node(l, r) =>
      var n := |Leaves(l)|;
      var p := Siblings(H, t, i);
      if i < n {
        SiblingsReachRoot(H, l, i);
        assert p[..|p| - 1] == Siblings(H, l, i);
      } else {
        SiblingsReachRoot(H, r, i - n);
        assert p[..|p| - 1] == Siblings(H, r, i - n);
        NodeHashSymmetric(H, TreeHash(H, l), TreeHash(H, r));
      }
  }

  // ---------------------------------------------------------------- soundness

  /** Every byte string hashed while the tree is built. */
  ghost function TreePreimages(H: Hasher, t: Tree): set<Bytes> {
    match t
    case Leaf(d) => {LeafPreimage(d)}
    case Node(l, r) =>
      TreePreimages(H, l) + TreePreimages(H, r) + {NodePreimage(TreeHash(H, l), TreeHash(H, r))}
  }

  /** Every byte string hashed while a proof is checked. */
  ghost function ProofPreimages(H: Hasher, digest: Bytes, proof: seq<Bytes>): set<Bytes> {
    if proof == [] then {LeafPreimage(digest)}
    else
      var rest := proof[..|proof| - 1];
      ProofPreimages(H, digest, rest)
      + {NodePreimage(Climb(H, LeafHash(H, digest), rest), proof[|proof| - 1])}
  }

  /** Equal node preimages over words combine the same two children, in some order. */
  lemma NodePreimageInjective(a: Word, s: Bytes, l: Word, r: Word)
    requires NodePreimage(a, s) == NodePreimage(l, r)
    ensures (a == l && s == r) || (a == r && s == l)
  {
    assert |NodePreimage(a, s)| == 1 + |a| + |s|;
    var x, y := if Value(a) < Value(s) then a else s, if Value(a) < Value(s) then s else a;
    var u, v := if Value(l) < Value(r) then l else r, if Value(l) < Value(r) then r else l;
    assert [1] + x + y == [1] + (x + y) && [1] + u + v == [1] + (u + v);
    SplitEqual([1], x + y, [1], u + v);
    SplitEqual(x, y, u, v);
  }

  lemma TagsDiffer(d: Bytes, a: Bytes, b: Bytes)
    ensures LeafPreimage(d) != NodePreimage(a, b)
  {
    assert LeafPreimage(d)[0] == 0 && NodePreimage(a, b)[0] == 1;
  }

  lemma LeafPreimageInjective(d: Bytes, e: Bytes)
    requires LeafPreimage(d) == LeafPreimage(e)
    ensures d == e
  {
    SplitEqual([0], d, [0], e);
  }

  /**
   * Extraction: when a proof of any shape leads a digest outside the tree to its root, descending
   * the tree against the proof finds two byte strings hashed by the two runs that collide.
   */
  function Culprits(H: Hasher, t: Tree, digest: Bytes, proof: seq<Bytes>): (c: (Bytes, Bytes))
    requires Climb(H, LeafHash(H, digest), proof) == TreeHash(H, t)
    requires digest !in Leaves(t)
    ensures c.0 in TreePreimages(H, t) && c.1 in ProofPreimages(H, digest, proof)
    ensures Collide(H, c.0, c.1)
    decreases t
  {
    match t
    case Leaf(e) =>
      if proof == [] then
        assert LeafPreimage(digest) != LeafPreimage(e) by {
          if LeafPreimage(digest) == LeafPreimage(e) { LeafPreimageInjective(digest, e); }
        }
        (LeafPreimage(e), LeafPreimage(digest))
      else
        var h, s := Climb(H, LeafHash(H, digest), proof[..|proof| - 1]), proof[|proof| - 1];
        TagsDiffer(e, h, s);
        (LeafPreimage(e), NodePreimage(h, s))
    case Node(l, r) =>
      var node := NodePreimage(TreeHash(H, l), TreeHash(H, r));
      if proof == [] then
        TagsDiffer(digest, TreeHash(H, l), TreeHash(H, r));
        (node, LeafPreimage(digest))
      else
        var rest, s := proof[..|proof| - 1], proof[|proof| - 1];
        var h := Climb(H, LeafHash(H, digest), rest);
        if NodePreimage(h, s) != node then (node, NodePreimage(h, s))
        else
          NodePreimageInjective(h, s, TreeHash(H, l), TreeHash(H, r));
          if h == TreeHash(H, l) then Culprits(H, l, digest, rest)
          else Culprits(H, r, digest, rest)
  }

  // ---------------------------------------------------------------- commitment

  /** Equal up to exchanging the two children of any nodes. */
  predicate SameUpToSwaps(t: Tree, u: Tree) {
    match (t, u)
    case (Leaf(d), Leaf(e)) => d == e
    case (Node(l, r), Node(m, s)) =>
      (SameUpToSwaps(l, m) && SameUpToSwaps(r, s)) || (SameUpToSwaps(l, s) && SameUpToSwaps(r, m))
    case _ => false
  }

  lemma {:induction false} SwapsKeepLeaves(t: Tree, u: Tree)
    requires SameUpToSwaps(t, u)
    ensures multiset(Leaves(t)) == multiset(Leaves(u)) && |Leaves(t)| == |Leaves(u)|
  {
    match (t, u)
    case (Leaf(_), Leaf(_)) =>
    case (Node(l, r), Node(m, s)) =>
      if SameUpToSwaps(l, m) && SameUpToSwaps(r, s) {
        SwapsKeepLeaves(l, m);
        SwapsKeepLeaves(r, s);
      } else {
        SwapsKeepLeaves(l, s);
        SwapsKeepLeaves(r, m);
      }
  }

  lemma {:induction false} SwapsKeepRoot(H: Hasher, t: Tree, u: Tree)
    requires SameUpToSwaps(t, u)
    ensures TreeHash(H, t) == TreeHash(H, u)
  {
    match (t, u)
    case (Leaf(_), Leaf(_)) =>
    case (Node(l, r), Node(m, s)) =>
      if SameUpToSwaps(l, m) && SameUpToSwaps(r, s) {
        SwapsKeepRoot(H, l, m);
        SwapsKeepRoot(H, r, s);
      } else {
        SwapsKeepRoot(H, l, s);
        SwapsKeepRoot(H, r, m);
        NodeHashSymmetric(H, TreeHash(H, m), TreeHash(H, s));
      }
  }

  /** Two trees with one root that are not the same up to swaps give a collision. */
  function RootCulprits(H: Hasher, t: Tree, u: Tree): (c: (Bytes, Bytes))
    requires TreeHash(H, t) == TreeHash(H, u) && !SameUpToSwaps(t, u)
    ensures c.0 in TreePreimages(H, t) && c.1 in TreePreimages(H, u)
    ensures Collide(H, c.0, c.1)
  {
    match (t, u)
    case (Leaf(d), Leaf(e)) =>
      assert LeafPreimage(d) != LeafPreimage(e) by {
        if LeafPreimage(d) == LeafPreimage(e) { LeafPreimageInjective(d, e); }
      }
      (LeafPreimage(d), LeafPreimage(e))
    case (Leaf(d), Node(m, s)) =>
      TagsDiffer(d, TreeHash(H, m), TreeHash(H, s));
      (LeafPreimage(d), NodePreimage(TreeHash(H, m), TreeHash(H, s)))
    case (Node(l, r), Leaf(e)) =>
      TagsDiffer(e, TreeHash(H, l), TreeHash(H, r));
      (NodePreimage(TreeHash(H, l), TreeHash(H, r)), LeafPreimage(e))
    case (Node(l, r), Node(m, s)) =>
      var p, q := NodePreimage(TreeHash(H, l), TreeHash(H, r)), NodePreimage(TreeHash(H, m), TreeHash(H, s));
      if p != q then (p, q)
      else
        NodePreimageInjective(TreeHash(H, l), TreeHash(H, r), TreeHash(H, m), TreeHash(H, s));
        if TreeHash(H, l) == TreeHash(H, m) && TreeHash(H, r) == TreeHash(H, s) then
          if SameUpToSwaps(l, m) then RootCulprits(H, r, s) else RootCulprits(H, l, m)
        else
          if SameUpToSwaps(l, s) then RootCulprits(H, r, m) else RootCulprits(H, l, s)
  }

  /**
   * What a root commits to. Short of a collision between byte strings hashed for the two batches,
   * equal roots mean trees that are equal up to swaps, hence the same digests with the same
   * multiplicities; and such trees always have equal roots.
   */
  lemma RootCommits(H: Hasher, ds: seq<Bytes>, es: seq<Bytes>)
    requires ds != [] && es != []
    ensures SameUpToSwaps(TreeOf(ds), TreeOf(es))
            ==> TreeHash(H, TreeOf(ds)) == TreeHash(H, TreeOf(es))
    ensures TreeHash(H, TreeOf(ds)) == TreeHash(H, TreeOf(es))
            ==> || (&& SameUpToSwaps(TreeOf(ds), TreeOf(es))
                    && |ds| == |es| && multiset(ds) == multiset(es))
                || CollisionBetween(H, TreePreimages(H, TreeOf(ds)), TreePreimages(H, TreeOf(es)))
  {
    var t, u := TreeOf(ds), TreeOf(es);
    if SameUpToSwaps(t, u) {
      SwapsKeepRoot(H, t, u);
      SwapsKeepLeaves(t, u);
    } else if TreeHash(H, t) == TreeHash(H, u) {
      var c := RootCulprits(H, t, u);
      assert Collide(H, c.0, c.1);
    }
  }

  /** Membership: short of a collision between the two runs, a proof that checks is a proof of a member. */
  lemma ProofMeansMember(H: Hasher, ds: seq<Bytes>, digest: Bytes, proof: seq<Bytes>)
    requires ds != []
    requires Climb(H, LeafHash(H, digest), proof) == TreeHash(H, TreeOf(ds))
    ensures digest in ds
            || CollisionBetween(H, TreePreimages(H, TreeOf(ds)), ProofPreimages(H, digest, proof))
  {
    if digest !in ds {
      var c := Culprits(H, TreeOf(ds), digest, proof);
      assert Collide(H, c.0, c.1);
    }
  }
}
