/**
 The Merkle multi-proofs of src/ligero/merkle.rs: a heap-shaped tree over any number of leaves, with the root at
 index 1, the children of node i at 2 * i and 2 * i + 1, and leaf j of n at n + j.
 The hash of two children is an uninterpreted function.
 */
module Merkle {

  import opened Options

  type Hash<!N> = (N, N) -> N

  // ----- Marking -----

  /** A node is marked when one of the requested leaves lies below it. */
  ghost predicate Marked(n: nat, requested: seq<nat>, i: nat)
    decreases 2 * n - i
  {
    if i == 0 || i >= 2 * n then false
    else if i >= n then (i - n) in requested
    else Marked(n, requested, 2 * i) || Marked(n, requested, 2 * i + 1)
  }

  ghost predicate InRange(n: nat, requested: seq<nat>) {
    forall k :: 0 <= k < |requested| ==> requested[k] < n
  }

  ghost predicate MarkedAs(n: nat, requested: seq<nat>, marked: seq<bool>, i: nat)
    requires i < |marked|
  {
    marked[i] <==> Marked(n, requested, i)
  }

  /** `mark_tree` */
  method MarkTree(leafCount: nat, requested: seq<nat>) returns (marked: seq<bool>)
    requires leafCount > 0 && InRange(leafCount, requested)
    ensures |marked| == 2 * leafCount
    ensures forall i :: 0 < i < 2 * leafCount ==> MarkedAs(leafCount, requested, marked, i)
  {
    var n := leafCount;
    marked := seq(2 * n, i => false);
    for k := 0 to |requested|
      invariant |marked| == 2 * n
      invariant forall i :: n <= i < 2 * n ==> (marked[i] <==> (i - n) in requested[..k])
    {
      assert requested[..k + 1] == requested[..k] + [requested[k]];
      marked := marked[n + requested[k] := true];
    }
    assert requested[..|requested|] == requested;
    var index := n - 1;
    while index > 0
      invariant 0 <= index < n && |marked| == 2 * n
      invariant forall i :: index < i < 2 * n ==> MarkedAs(n, requested, marked, i)
    {
      assert MarkedAs(n, requested, marked, 2 * index) && MarkedAs(n, requested, marked, 2 * index + 1);
      ghost var before := marked;
      marked := marked[index := marked[2 * index] || marked[2 * index + 1]];
      forall i | index - 1 < i < 2 * n ensures MarkedAs(n, requested, marked, i) {
        assert index < i ==> MarkedAs(n, requested, before, i);
      }
      index := index - 1;
    }
  }

  /** The child of a marked node that the proof may have to supply. */
  ghost function ProofChild(n: nat, requested: seq<nat>, i: nat): nat {
    if Marked(n, requested, 2 * i) then 2 * i + 1 else 2 * i
  }

  ghost predicate NeedsProof(n: nat, requested: seq<nat>, i: nat) {
    0 < i < n && Marked(n, requested, i) && !Marked(n, requested, ProofChild(n, requested, i))
  }

  /** How many inner nodes above index i, scanning downwards from n - 1, need a proof node. */
  ghost function Slot(n: nat, requested: seq<nat>, i: nat): nat
    decreases n - i
  {
    if i + 1 >= n then 0
    else Slot(n, requested, i + 1) + (if NeedsProof(n, requested, i + 1) then 1 else 0)
  }

  ghost predicate IsProofNode(n: nat, requested: seq<nat>, c: nat) {
    c > 1 && NeedsProof(n, requested, c / 2) && c == ProofChild(n, requested, c / 2)
  }

  lemma {:induction false} SlotMonotone(n: nat, requested: seq<nat>, i: nat, j: nat)
    requires i <= j
    ensures Slot(n, requested, j) <= Slot(n, requested, i)
    ensures i < j < n && NeedsProof(n, requested, j) ==> Slot(n, requested, j) < Slot(n, requested, i)
    decreases j - i
  {
    if i < j {
      SlotMonotone(n, requested, i + 1, j);
    }
  }

  // ----- The tree -----

  ghost predicate BuiltAt<N>(hash: Hash<N>, digests: seq<N>, i: nat) {
    0 < i && 2 * i + 1 < |digests| ==> digests[i] == hash(digests[2 * i], digests[2 * i + 1])
  }

  /** Every inner node is the hash of its children. */
  ghost predicate Built<N>(hash: Hash<N>, digests: seq<N>) {
    forall i: nat :: BuiltAt(hash, digests, i)
  }

  /** The digests a proof for the requested leaves has to list, for inner nodes i, i - 1, ..., 1. */
  ghost function ProofFrom<N>(n: nat, requested: seq<nat>, digests: seq<N>, i: nat): seq<N>
    requires i < n && |digests| == 2 * n
  {
    if i == 0 then []
    else
      var rest := ProofFrom(n, requested, digests, i - 1);
      if NeedsProof(n, requested, i) then [digests[ProofChild(n, requested, i)]] + rest else rest
  }

  /** `N` is the type of digests and `C` of the nonces hashed into the leaves. */
  class MerkleTree<N(==), C> {
    const hash: Hash<N>
    const leafCount: nat
    var digests: seq<N>
    var nonces: seq<C>

    ghost predicate Valid()
      reads this
    {
      leafCount > 0 && |digests| == 2 * leafCount && |nonces| == leafCount
    }

    constructor (hash: Hash<N>, leafCount: nat, emptyNode: N, emptyNonce: C)
      requires leafCount > 0
      ensures Valid() && this.hash == hash && this.leafCount == leafCount
      ensures digests == seq(2 * leafCount, i => emptyNode) && nonces == seq(leafCount, i => emptyNonce)
    {
      this.hash, this.leafCount := hash, leafCount;
      digests := seq(2 * leafCount, i => emptyNode);
      nonces := seq(leafCount, i => emptyNonce);
    }

    method SetLeaf(position: nat, leaf: N, nonce: C)
      requires Valid() && position < leafCount
      modifies this
      ensures Valid() && digests == old(digests)[leafCount + position := leaf]
      ensures nonces == old(nonces)[position := nonce]
    {
      digests := digests[leafCount + position := leaf];
      nonces := nonces[position := nonce];
    }

    /** `build`: fill the inner nodes from the leaves. */
    method Build()
      requires Valid()
      modifies this`digests
      ensures Valid() && Built(hash, digests)
      ensures digests[leafCount..] == old(digests)[leafCount..] && digests[0] == old(digests)[0]
    {
      var index := leafCount - 1;
      while index > 0
        invariant 0 <= index < leafCount && Valid()
        invariant digests[leafCount..] == old(digests)[leafCount..] && digests[0] == old(digests)[0]
        invariant forall i: nat :: index < i ==> BuiltAt(hash, digests, i)
      {
        ghost var before := digests;
        digests := digests[index := hash(digests[2 * index], digests[2 * index + 1])];
        forall i: nat | index - 1 < i ensures BuiltAt(hash, digests, i) {
          assert index < i ==> BuiltAt(hash, before, i);
        }
        index := index - 1;
      }
      assert BuiltAt(hash, digests, 0);
    }

    method Root() returns (root: N)
      requires Valid()
      ensures root == digests[1]
    {
      root := digests[1];
    }

    /** `prove` */
    method Prove(requested: seq<nat>) returns (proof: seq<N>)
      requires Valid() && InRange(leafCount, requested)
      ensures proof == ProofFrom(leafCount, requested, digests, leafCount - 1)
    {
      var n := leafCount;
      var marked := MarkTree(n, requested);
      proof := [];
      var index := n - 1;
      while index > 0
        invariant 0 <= index < n
        invariant proof + ProofFrom(n, requested, digests, index) == ProofFrom(n, requested, digests, n - 1)
      {
        var l, r := 2 * index, 2 * index + 1;
        assert MarkedAs(n, requested, marked, index) && MarkedAs(n, requested, marked, l);
        assert MarkedAs(n, requested, marked, r);
        if marked[index] {
          var child := l;
          if marked[child] {
            child := r;
          }
          if !marked[child] {
            proof := proof + [digests[child]];
          }
        }
        index := index - 1;
      }
    }
  }

  // ----- Verification -----

  /** The node given last for leaf j. */
  ghost function Included<N>(nodes: seq<N>, indices: seq<nat>, j: nat): Option<N>
    requires |nodes| == |indices|
  {
    if |nodes| == 0 then None
    else
      var last := |nodes| - 1;
      if indices[last] == j then Some(nodes[last]) else Included(nodes[..last], indices[..last], j)
  }

  /** Node c before inner nodes are computed: an included leaf, a proof node or nothing. */
  ghost function Given<N>(n: nat, nodes: seq<N>, indices: seq<nat>, proof: seq<N>, c: nat): Option<N>
    requires |nodes| == |indices|
  {
    if n <= c < 2 * n && (c - n) in indices then Included(nodes, indices, c - n)
    else if IsProofNode(n, indices, c) && Slot(n, indices, c / 2) < |proof| then Some(proof[Slot(n, indices, c / 2)])
    else None
  }

  /** Node c of the partial tree that verification computes. */
  ghost function Partial<N>(hash: Hash<N>, n: nat, nodes: seq<N>, indices: seq<nat>, proof: seq<N>, c: nat): Option<N>
    requires |nodes| == |indices|
    decreases 2 * n - c
  {
    if 0 < c < n then
      var l := Partial(hash, n, nodes, indices, proof, 2 * c);
      var r := Partial(hash, n, nodes, indices, proof, 2 * c + 1);
      if l.Some? && r.Some? then Some(hash(l.value, r.value)) else Given(n, nodes, indices, proof, c)
    else Given(n, nodes, indices, proof, c)
  }

  /** The exact condition under which `verify` accepts. */
  ghost predicate Accepts<N>(hash: Hash<N>, root: N, n: nat, nodes: seq<N>, indices: seq<nat>, proof: seq<N>) {
    && |nodes| == |indices|
    && InRange(n, indices)
    && Slot(n, indices, 0) <= |proof|
    && Partial(hash, n, nodes, indices, proof, 1) == Some(root)
  }

  /** Node c once the proof nodes of the inner nodes above `index` are in place. */
  ghost function Filled<N>(n: nat, indices: seq<nat>, proof: seq<N>, index: nat, c: nat): Option<N> {
    if c / 2 > index && IsProofNode(n, indices, c) && Slot(n, indices, c / 2) < |proof|
    then Some(proof[Slot(n, indices, c / 2)]) else None
  }

  /** First loop of `verify`: hand out the proof nodes, or report that there are too few. */
  method PlaceProof<N(==)>(n: nat, indices: seq<nat>, marked: seq<bool>, proof: seq<N>)
      returns (enough: bool, partialTree: seq<Option<N>>)
    requires n > 0 && |marked| == 2 * n
    requires forall i :: 0 < i < 2 * n ==> MarkedAs(n, indices, marked, i)
    ensures enough <==> Slot(n, indices, 0) <= |proof|
    ensures enough ==> |partialTree| == 2 * n
    ensures enough ==> forall c :: 0 <= c < 2 * n ==> partialTree[c] == Filled(n, indices, proof, 0, c)
  {
    partialTree := seq(2 * n, i => None);
    var used, index := 0, n - 1;
    while index > 0
      invariant 0 <= index < n && |partialTree| == 2 * n
      invariant used == Slot(n, indices, index) <= |proof|
      invariant forall c :: 0 <= c < 2 * n ==> partialTree[c] == Filled(n, indices, proof, index, c)
    {
      var l, r := 2 * index, 2 * index + 1;
      assert MarkedAs(n, indices, marked, index) && MarkedAs(n, indices, marked, l) && MarkedAs(n, indices, marked, r);
      if marked[index] {
        var child := if marked[l] then r else l;
        if !marked[child] {
          assert NeedsProof(n, indices, index) && child == ProofChild(n, indices, index);
          if used == |proof| {
            SlotMonotone(n, indices, 0, index);
            return false, [];
          }
          partialTree := partialTree[child := Some(proof[used])];
          used := used + 1;
        }
      }
      index := index - 1;
    }
    enough := true;
  }

  /** Node c once the first k included nodes are in place as well. */
  ghost function GivenUpTo<N>(n: nat, nodes: seq<N>, indices: seq<nat>, proof: seq<N>, k: nat, c: nat): Option<N>
    requires |nodes| == |indices| && k <= |nodes|
  {
    if n <= c < 2 * n && (c - n) in indices[..k] then Included(nodes[..k], indices[..k], c - n)
    else Filled(n, indices, proof, 0, c)
  }

  lemma GivenStep<N>(n: nat, nodes: seq<N>, indices: seq<nat>, proof: seq<N>, k: nat, c: nat)
    requires |nodes| == |indices| && k < |nodes| && indices[k] < n && c < 2 * n
    ensures GivenUpTo(n, nodes, indices, proof, k + 1, c)
      == if c == n + indices[k] then Some(nodes[k]) else GivenUpTo(n, nodes, indices, proof, k, c)
  {
    assert indices[..k + 1] == indices[..k] + [indices[k]];
    assert nodes[..k + 1][..k] == nodes[..k] && indices[..k + 1][..k] == indices[..k];
  }

  lemma GivenAll<N>(n: nat, nodes: seq<N>, indices: seq<nat>, proof: seq<N>, c: nat)
    requires |nodes| == |indices|
    ensures GivenUpTo(n, nodes, indices, proof, |nodes|, c) == Given(n, nodes, indices, proof, c)
  {
    assert nodes[..|nodes|] == nodes && indices[..|indices|] == indices;
  }

  /** `verify`: accepts exactly when the partial tree it rebuilds has the given root. */
  method Verify<N(==)>(hash: Hash<N>, root: N, leafCount: nat, nodes: seq<N>, indices: seq<nat>, proof: seq<N>)
      returns (ok: bool)
    requires leafCount > 0
    ensures ok <==> Accepts(hash, root, leafCount, nodes, indices, proof)
  {
    var n := leafCount;
    if |nodes| != |indices| {
      return false;
    }
    for k := 0 to |indices|
      invariant forall j :: 0 <= j < k ==> indices[j] < n
    {
      if indices[k] >= n {
        return false;
      }
    }
    var marked := MarkTree(n, indices);
    var enough, partialTree := PlaceProof(n, indices, marked, proof);
    if !enough {
      return false;
    }
    for k := 0 to |nodes|
      invariant |partialTree| == 2 * n
      invariant forall c :: 0 <= c < 2 * n ==> partialTree[c] == GivenUpTo(n, nodes, indices, proof, k, c)
    {
      forall c: nat | c < 2 * n
        ensures GivenUpTo(n, nodes, indices, proof, k + 1, c)
          == if c == n + indices[k] then Some(nodes[k]) else GivenUpTo(n, nodes, indices, proof, k, c)
      {
        GivenStep(n, nodes, indices, proof, k, c);
      }
      partialTree := partialTree[n + indices[k] := Some(nodes[k])];
    }
    forall c: nat | c < 2 * n ensures partialTree[c] == Given(n, nodes, indices, proof, c) {
      GivenAll(n, nodes, indices, proof, c);
    }
    partialTree := Recompute(hash, n, nodes, indices, proof, partialTree);
    ok := partialTree[1] == Some(root);
  }

  ghost predicate IsPartial<N>(hash: Hash<N>, n: nat, nodes: seq<N>, indices: seq<nat>, proof: seq<N>,
                               tree: seq<Option<N>>, c: nat)
    requires |nodes| == |indices| && c < |tree|
  {
    tree[c] == Partial(hash, n, nodes, indices, proof, c)
  }

  /** Last loop of `verify`: compute every inner node whose two children are known. */
  method Recompute<N(==)>(hash: Hash<N>, n: nat, ghost nodes: seq<N>, ghost indices: seq<nat>, ghost proof: seq<N>,
                          given: seq<Option<N>>)
      returns (tree: seq<Option<N>>)
    requires n > 0 && |nodes| == |indices| && |given| == 2 * n
    requires forall c: nat :: c < 2 * n ==> given[c] == Given(n, nodes, indices, proof, c)
    ensures |tree| == 2 * n
    ensures forall c: nat :: 0 < c < 2 * n ==> tree[c] == Partial(hash, n, nodes, indices, proof, c)
  {
    tree := given;
    var index := n - 1;
    while index > 0
      invariant 0 <= index < n && |tree| == 2 * n
      invariant forall c: nat :: c <= index ==> tree[c] == Given(n, nodes, indices, proof, c)
      invariant forall c: nat :: index < c < 2 * n ==> IsPartial(hash, n, nodes, indices, proof, tree, c)
    {
      assert IsPartial(hash, n, nodes, indices, proof, tree, 2 * index);
      assert IsPartial(hash, n, nodes, indices, proof, tree, 2 * index + 1);
      var l, r := tree[2 * index], tree[2 * index + 1];
      ghost var before := tree;
      if l.Some? && r.Some? {
        tree := tree[index := Some(hash(l.value, r.value))];
      }
      forall c: nat | index - 1 < c < 2 * n ensures IsPartial(hash, n, nodes, indices, proof, tree, c) {
        assert index < c ==> IsPartial(hash, n, nodes, indices, proof, before, c);
      }
      index := index - 1;
    }
    forall c: nat | 0 < c < 2 * n ensures tree[c] == Partial(hash, n, nodes, indices, proof, c) {
      assert IsPartial(hash, n, nodes, indices, proof, tree, c);
    }
  }

  // ----- Completeness and binding -----

  /** Nothing is known below an unmarked node. */
  lemma {:induction false} UnmarkedBelow<N>(hash: Hash<N>, n: nat, nodes: seq<N>, indices: seq<nat>, proof: seq<N>,
                                            c: nat)
    requires |nodes| == |indices| && InRange(n, indices)
    requires 1 < c < 2 * n && !Marked(n, indices, c) && !Marked(n, indices, c / 2)
    ensures Partial(hash, n, nodes, indices, proof, c) == None
    decreases 2 * n - c
  {
    if c < n {
      UnmarkedBelow(hash, n, nodes, indices, proof, 2 * c);
      UnmarkedBelow(hash, n, nodes, indices, proof, 2 * c + 1);
    }
  }

  /** No proof node is overwritten when the inner nodes are recomputed. */
  lemma ProofNodeKept<N>(hash: Hash<N>, n: nat, nodes: seq<N>, indices: seq<nat>, proof: seq<N>, c: nat)
    requires |nodes| == |indices| && InRange(n, indices) && 1 < c < 2 * n && IsProofNode(n, indices, c)
    ensures Partial(hash, n, nodes, indices, proof, c) == Given(n, nodes, indices, proof, c)
  {
    assert !Marked(n, indices, c);
    if c < n {
      UnmarkedBelow(hash, n, nodes, indices, proof, 2 * c);
      UnmarkedBelow(hash, n, nodes, indices, proof, 2 * c + 1);
    }
  }

  lemma {:induction false} IncludedSome<N>(nodes: seq<N>, indices: seq<nat>, j: nat)
    requires |nodes| == |indices| && j in indices
    ensures Included(nodes, indices, j).Some?
    ensures exists k :: 0 <= k < |nodes| && indices[k] == j && Included(nodes, indices, j) == Some(nodes[k])
  {
    var last := |nodes| - 1;
    if indices[last] != j {
      assert indices == indices[..last] + [indices[last]];
      IncludedSome(nodes[..last], indices[..last], j);
      var k :| 0 <= k < last && indices[..last][k] == j
        && Included(nodes[..last], indices[..last], j) == Some(nodes[..last][k]);
      assert indices[k] == j && nodes[k] == nodes[..last][k];
    }
  }

  /** With enough proof nodes, every marked node becomes known, and an inner one from its two children. */
  lemma {:induction false} MarkedKnown<N>(hash: Hash<N>, n: nat, nodes: seq<N>, indices: seq<nat>, proof: seq<N>,
                                          c: nat)
    requires |nodes| == |indices| && InRange(n, indices) && Slot(n, indices, 0) <= |proof|
    requires 0 < c < 2 * n && Marked(n, indices, c)
    ensures Partial(hash, n, nodes, indices, proof, c).Some?
    ensures c < n ==> Partial(hash, n, nodes, indices, proof, 2 * c).Some?
    ensures c < n ==> Partial(hash, n, nodes, indices, proof, 2 * c + 1).Some?
    decreases 2 * n - c
  {
    if c >= n {
      IncludedSome(nodes, indices, c - n);
    } else {
      ChildKnown(hash, n, nodes, indices, proof, c, 2 * c);
      ChildKnown(hash, n, nodes, indices, proof, c, 2 * c + 1);
    }
  }

  lemma {:induction false} ChildKnown<N>(hash: Hash<N>, n: nat, nodes: seq<N>, indices: seq<nat>, proof: seq<N>, c: nat,
                                         child: nat)
    requires |nodes| == |indices| && InRange(n, indices) && Slot(n, indices, 0) <= |proof|
    requires 0 < c < n && Marked(n, indices, c) && (child == 2 * c || child == 2 * c + 1)
    ensures Partial(hash, n, nodes, indices, proof, child).Some?
    ensures !Marked(n, indices, child) ==>
      IsProofNode(n, indices, child) && Slot(n, indices, c) < |proof|
      && Partial(hash, n, nodes, indices, proof, child) == Some(proof[Slot(n, indices, c)])
    decreases 2 * n - c, 0
  {
    if Marked(n, indices, child) {
      MarkedKnown(hash, n, nodes, indices, proof, child);
    } else {
      assert child / 2 == c && IsProofNode(n, indices, child);
      SlotMonotone(n, indices, 0, c);
      ProofNodeKept(hash, n, nodes, indices, proof, child);
    }
  }

  lemma {:induction false} ProofEntry<N>(n: nat, requested: seq<nat>, digests: seq<N>, i: nat, j: nat)
    requires 0 < j <= i < n && |digests| == 2 * n && NeedsProof(n, requested, j)
    ensures var k := Slot(n, requested, j) - Slot(n, requested, i);
      0 <= k < |ProofFrom(n, requested, digests, i)|
      && ProofFrom(n, requested, digests, i)[k] == digests[ProofChild(n, requested, j)]
    decreases i
  {
    SlotMonotone(n, requested, j, i);
    if j < i {
      ProofEntry(n, requested, digests, i - 1, j);
    }
  }

  lemma {:induction false} ProofLength<N>(n: nat, requested: seq<nat>, digests: seq<N>, i: nat)
    requires i < n && |digests| == 2 * n
    ensures |ProofFrom(n, requested, digests, i)| == Slot(n, requested, 0) - Slot(n, requested, i)
  {
    if i > 0 {
      ProofLength(n, requested, digests, i - 1);
    }
  }

  lemma {:induction false} RootMarked(n: nat, requested: seq<nat>, i: nat)
    requires 0 < i < 2 * n && Marked(n, requested, i)
    ensures Marked(n, requested, 1)
    decreases i
  {
    if i > 1 {
      assert Marked(n, requested, i / 2) by {
        assert i == 2 * (i / 2) || i == 2 * (i / 2) + 1;
      }
      RootMarked(n, requested, i / 2);
    }
  }

  /** The partial tree rebuilt from an honest proof agrees with the real tree at every marked node. */
  lemma {:induction false} HonestNode<N>(hash: Hash<N>, n: nat, digests: seq<N>, nodes: seq<N>, indices: seq<nat>,
                                         c: nat)
    requires |nodes| == |indices| && InRange(n, indices) && |digests| == 2 * n && Built(hash, digests)
    requires forall k :: 0 <= k < |nodes| ==> nodes[k] == digests[n + indices[k]]
    requires 0 < c < 2 * n && Marked(n, indices, c)
    ensures Partial(hash, n, nodes, indices, ProofFrom(n, indices, digests, n - 1), c) == Some(digests[c])
    decreases 2 * n - c
  {
    var proof := ProofFrom(n, indices, digests, n - 1);
    ProofLength(n, indices, digests, n - 1);
    if c >= n {
      IncludedSome(nodes, indices, c - n);
    } else {
      HonestChild(hash, n, digests, nodes, indices, c, 2 * c);
      HonestChild(hash, n, digests, nodes, indices, c, 2 * c + 1);
      assert BuiltAt(hash, digests, c);
    }
  }

  lemma {:induction false} HonestChild<N>(hash: Hash<N>, n: nat, digests: seq<N>, nodes: seq<N>, indices: seq<nat>,
                                          c: nat, child: nat)
    requires |nodes| == |indices| && InRange(n, indices) && |digests| == 2 * n && Built(hash, digests)
    requires forall k :: 0 <= k < |nodes| ==> nodes[k] == digests[n + indices[k]]
    requires 0 < c < n && Marked(n, indices, c) && (child == 2 * c || child == 2 * c + 1)
    ensures Partial(hash, n, nodes, indices, ProofFrom(n, indices, digests, n - 1), child) == Some(digests[child])
    decreases 2 * n - c, 0
  {
    var proof := ProofFrom(n, indices, digests, n - 1);
    ProofLength(n, indices, digests, n - 1);
    if Marked(n, indices, child) {
      HonestNode(hash, n, digests, nodes, indices, child);
    } else {
      ChildKnown(hash, n, nodes, indices, proof, c, child);
      ProofEntry(n, indices, digests, n - 1, c);
    }
  }

  /** Completeness: for any number of leaves and any non-empty request, the honest proof is accepted. */
  lemma MerkleCompleteness<N>(hash: Hash<N>, digests: seq<N>, n: nat, nodes: seq<N>, indices: seq<nat>)
    requires |digests| == 2 * n && Built(hash, digests)
    requires 0 < |nodes| == |indices| && InRange(n, indices)
    requires forall k :: 0 <= k < |nodes| ==> nodes[k] == digests[n + indices[k]]
    ensures n > 0 && Accepts(hash, digests[1], n, nodes, indices, ProofFrom(n, indices, digests, n - 1))
  {
    assert indices[0] < n;
    assert indices[0] in indices && Marked(n, indices, n + indices[0]);
    RootMarked(n, indices, n + indices[0]);
    ProofLength(n, indices, digests, n - 1);
    HonestNode(hash, n, digests, nodes, indices, 1);
  }

  ghost predicate Collides<N>(hash: Hash<N>, a: N, b: N, c: N, d: N) {
    (a, b) != (c, d) && hash(a, b) == hash(c, d)
  }

  /** At node p, the tree and the partial tree have different pairs of children with the same hash. */
  ghost predicate CollisionAt<N>(hash: Hash<N>, digests: seq<N>, n: nat, nodes: seq<N>, indices: seq<nat>,
                                 proof: seq<N>, p: nat)
    requires |nodes| == |indices| && |digests| == 2 * n
  {
    && 0 < p < n
    && Partial(hash, n, nodes, indices, proof, 2 * p).Some?
    && Partial(hash, n, nodes, indices, proof, 2 * p + 1).Some?
    && Collides(
         hash,
         Partial(hash, n, nodes, indices, proof, 2 * p).value,
         Partial(hash, n, nodes, indices, proof, 2 * p + 1).value,
         digests[2 * p],
         digests[2 * p + 1])
  }

  /** The tree and what verification computes from the proof exhibit a collision. */
  ghost predicate Collision<N>(hash: Hash<N>, digests: seq<N>, n: nat, nodes: seq<N>, indices: seq<nat>, proof: seq<N>)
    requires |nodes| == |indices| && |digests| == 2 * n
  {
    exists p: nat :: CollisionAt(hash, digests, n, nodes, indices, proof, p)
  }

  /** Descending from equal roots, equality spreads to every marked node unless two child pairs collide. */
  lemma {:induction false} BoundNode<N>(hash: Hash<N>, n: nat, digests: seq<N>, nodes: seq<N>, indices: seq<nat>,
                                        proof: seq<N>, c: nat)
    requires |digests| == 2 * n && Built(hash, digests) && n > 0
    requires Accepts(hash, digests[1], n, nodes, indices, proof)
    requires 0 < c < 2 * n && Marked(n, indices, c)
    ensures Partial(hash, n, nodes, indices, proof, c) == Some(digests[c])
      || Collision(hash, digests, n, nodes, indices, proof)
    decreases c
  {
    if c > 1 {
      var p := c / 2;
      assert c == 2 * p || c == 2 * p + 1;
      assert Marked(n, indices, p);
      BoundNode(hash, n, digests, nodes, indices, proof, p);
      MarkedKnown(hash, n, nodes, indices, proof, p);
      var l := Partial(hash, n, nodes, indices, proof, 2 * p).value;
      var r := Partial(hash, n, nodes, indices, proof, 2 * p + 1).value;
      assert BuiltAt(hash, digests, p);
      if Partial(hash, n, nodes, indices, proof, p) == Some(digests[p])
        && (l, r) != (digests[2 * p], digests[2 * p + 1]) {
        assert CollisionAt(hash, digests, n, nodes, indices, proof, p);
      }
    }
  }

  lemma {:induction false} LastIncluded<N>(nodes: seq<N>, indices: seq<nat>, k: nat)
    requires |nodes| == |indices| && k < |nodes|
    requires forall j :: k < j < |nodes| ==> indices[j] != indices[k]
    ensures Included(nodes, indices, indices[k]) == Some(nodes[k])
  {
    var last := |nodes| - 1;
    if k < last {
      LastIncluded(nodes[..last], indices[..last], k);
    }
  }

  /**
   Binding: if verification accepts against the root of a built tree, every included node that is not overridden by
   a later one for the same index is the tree's leaf, or the tree and the partial tree of the proof hold two different
   pairs of children of the same node with the same hash.
   */
  lemma MerkleBinding<N>(hash: Hash<N>, digests: seq<N>, n: nat, nodes: seq<N>, indices: seq<nat>, proof: seq<N>,
                         k: nat)
    requires |digests| == 2 * n && Built(hash, digests) && n > 0
    requires Accepts(hash, digests[1], n, nodes, indices, proof)
    requires k < |nodes| && forall j :: k < j < |nodes| ==> indices[j] != indices[k]
    ensures nodes[k] == digests[n + indices[k]] || Collision(hash, digests, n, nodes, indices, proof)
  {
    var c := n + indices[k];
    assert indices[k] in indices && Marked(n, indices, c);
    BoundNode(hash, n, digests, nodes, indices, proof, c);
    LastIncluded(nodes, indices, k);
  }

  /** With pairwise distinct indices every included node is bound. */
  lemma MerkleBindingDistinct<N>(hash: Hash<N>, digests: seq<N>, n: nat, nodes: seq<N>, indices: seq<nat>,
                                 proof: seq<N>)
    requires |digests| == 2 * n && Built(hash, digests) && n > 0
    requires Accepts(hash, digests[1], n, nodes, indices, proof)
    requires forall i, j :: 0 <= i < j < |indices| ==> indices[i] != indices[j]
    ensures (forall k :: 0 <= k < |nodes| ==> nodes[k] == digests[n + indices[k]])
      || Collision(hash, digests, n, nodes, indices, proof)
  {
    if !Collision(hash, digests, n, nodes, indices, proof) {
      forall k | 0 <= k < |nodes| ensures nodes[k] == digests[n + indices[k]] {
        MerkleBinding(hash, digests, n, nodes, indices, proof, k);
      }
    }
  }

  /** Without distinct indices it fails: the same leaf given twice, first with a wrong node, is accepted. */
  lemma RepeatedIndexIsNotBound(hash: Hash<int>, leaf: int, wrong: int)
    requires wrong != leaf
    ensures var digests := [0, leaf];
      Built(hash, digests) && Accepts(hash, digests[1], 1, [wrong, leaf], [0, 0], [])
        && [wrong, leaf][0] != digests[1 + 0]
  {
    assert [wrong, leaf][1] == leaf && [0, 0][1] == 0;
    assert 0 in [0, 0];
  }

  lemma {:induction false} IncludedIgnores<N>(nodes: seq<N>, indices: seq<nat>, k: nat, later: nat, v: N, j: nat)
    requires |nodes| == |indices| && k < later < |nodes| && indices[later] == indices[k]
    ensures Included(nodes[k := v], indices, j) == Included(nodes, indices, j)
  {
    var last := |nodes| - 1;
    if indices[last] != j {
      assert nodes[k := v][..last] == nodes[..last][k := v];
      if later < last {
        IncludedIgnores(nodes[..last], indices[..last], k, later, v, j);
      } else {
        IncludedOther(nodes[..last], indices[..last], k, v, j);
      }
    }
  }

  lemma {:induction false} IncludedOther<N>(nodes: seq<N>, indices: seq<nat>, k: nat, v: N, j: nat)
    requires |nodes| == |indices| && k < |nodes| && indices[k] != j
    ensures Included(nodes[k := v], indices, j) == Included(nodes, indices, j)
  {
    var last := |nodes| - 1;
    if k < last {
      assert nodes[k := v][..last] == nodes[..last][k := v];
      IncludedOther(nodes[..last], indices[..last], k, v, j);
    } else {
      assert nodes[k := v][..last] == nodes[..last];
    }
  }

  lemma {:induction false} PartialIgnores<N>(hash: Hash<N>, n: nat, nodes: seq<N>, indices: seq<nat>, proof: seq<N>,
                                             k: nat, later: nat, v: N, c: nat)
    requires |nodes| == |indices| && k < later < |nodes| && indices[later] == indices[k]
    ensures Partial(hash, n, nodes[k := v], indices, proof, c) == Partial(hash, n, nodes, indices, proof, c)
    decreases 2 * n - c
  {
    if n <= c < 2 * n {
      IncludedIgnores(nodes, indices, k, later, v, c - n);
    }
    if 0 < c < n {
      PartialIgnores(hash, n, nodes, indices, proof, k, later, v, 2 * c);
      PartialIgnores(hash, n, nodes, indices, proof, k, later, v, 2 * c + 1);
    }
  }

  /** The condition of binding is exact: an included node that a later one overrides can be replaced by any other. */
  lemma OverriddenNodeIsFree<N>(hash: Hash<N>, root: N, n: nat, nodes: seq<N>, indices: seq<nat>, proof: seq<N>, k: nat,
                                later: nat, v: N)
    requires |nodes| == |indices| && k < later < |nodes| && indices[later] == indices[k]
    ensures Accepts(hash, root, n, nodes[k := v], indices, proof) <==> Accepts(hash, root, n, nodes, indices, proof)
  {
    PartialIgnores(hash, n, nodes, indices, proof, k, later, v, 1);
  }
}
