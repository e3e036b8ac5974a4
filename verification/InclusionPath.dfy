/**
 The two off-chain walks over a flat list of leaves: the indexer API's `buildInclusionPath`
 and the SDK's `PoseidonMerkleTree`.  Both rebuild the tree level by level; both are proved
 to return the path and the root of the padded tree, so they agree with each other and with
 the on-chain frontier.
 */
module InclusionPath {
  import opened Wrappers
  import opened MerkleSpec

  datatype Proof<T> = Proof(root: T, pathElements: seq<T>, pathIndices: seq<nat>)

  datatype PathError = IndexOutOfRange

  /** The level above `level`, the last node paired with the empty subtree when it has no sibling. */
  ghost predicate IsLevel<T>(hs: Hasher<T>, leaves: seq<T>, d: nat, level: seq<T>) {
    && |level| == Width(|leaves|, d)
    && forall i {:trigger level[i]} :: 0 <= i < |level| ==> level[i] == Node(hs, leaves, d, i)
  }

  /** The proof for a leaf is determined by the leaves. */
  ghost predicate IsProof<T>(hs: Hasher<T>, depth: nat, leaves: seq<T>, index: nat, p: Proof<T>) {
    && p.root == Root(hs, depth, leaves)
    && IsPath(hs, depth, leaves, index, p.pathElements, p.pathIndices)
  }

  lemma LevelNode<T>(hs: Hasher<T>, leaves: seq<T>, d: nat, level: seq<T>, i: nat)
    requires IsLevel(hs, leaves, d, level)
    ensures Node(hs, leaves, d, i) == if i < |level| then level[i] else Zeros(hs, d)
  {
    if i >= |level| {
      NodePadding(hs, leaves, d, i);
    }
  }

  /** The table of empty-subtree roots, one more entry than the tree has levels. */
  method ZeroHashes<T>(hs: Hasher<T>, depth: nat) returns (zeros: seq<T>)
    ensures |zeros| == depth + 1
    ensures forall i {:trigger zeros[i]} :: 0 <= i <= depth ==> zeros[i] == Zeros(hs, i)
  {
    zeros := [hs.zero];
    for i := 0 to depth
      invariant |zeros| == i + 1
      invariant forall j {:trigger zeros[j]} :: 0 <= j <= i ==> zeros[j] == Zeros(hs, j)
    {
      zeros := zeros + [hs.two(zeros[i], zeros[i])];
    }
  }

  /** Pairs up one level into the next. */
  method NextLevel<T>(hs: Hasher<T>, ghost leaves: seq<T>, ghost d: nat, level: seq<T>, zero: T) returns (next: seq<T>)
    requires IsLevel(hs, leaves, d, level) && zero == Zeros(hs, d)
    ensures IsLevel(hs, leaves, d + 1, next)
  {
    next := [];
    var half := (|level| + 1) / 2;
    for i := 0 to half
      invariant |next| == i
      invariant forall j {:trigger next[j]} :: 0 <= j < i ==> next[j] == Node(hs, leaves, d + 1, j)
    {
      LevelNode(hs, leaves, d, level, 2 * i);
      LevelNode(hs, leaves, d, level, 2 * i + 1);
      var l := level[2 * i];
      var r := if 2 * i + 1 < |level| then level[2 * i + 1] else zero;
      next := next + [hs.two(l, r)];
    }
  }

  method BuildInclusionPath<T>(hs: Hasher<T>, depth: nat, leaves: seq<T>, queryIndex: int)
    returns (r: Result<Proof<T>, PathError>)
    ensures r.Ok? <==> 0 <= queryIndex < |leaves|
    ensures r.Ok? ==> IsProof(hs, depth, leaves, queryIndex, r.value)
  {
    if queryIndex < 0 || queryIndex >= |leaves| {
      return Err(IndexOutOfRange);
    }
    var zeros := ZeroHashes(hs, depth);
    var pathElements: seq<T>, pathIndices: seq<nat> := [], [];
    var level, idx := leaves, queryIndex;
    for d := 0 to depth
      invariant IsLevel(hs, leaves, d, level)
      invariant idx == Shift(queryIndex, d)
      invariant IsPath(hs, d, leaves, queryIndex, pathElements, pathIndices)
    {
      var isRight := idx % 2;
      pathIndices := pathIndices + [isRight];
      var sibIdx := SiblingIndex(idx);
      LevelNode(hs, leaves, d, level, sibIdx);
      var sibling := if sibIdx < |level| then level[sibIdx] else zeros[d];
      pathElements := pathElements + [sibling];
      idx := idx / 2;
      level := NextLevel(hs, leaves, d, level, zeros[d]);
    }
    LevelNode(hs, leaves, depth, level, 0);
    var root := if |level| == 0 then zeros[depth] else level[0];
    return Ok(Proof(root, pathElements, pathIndices));
  }

  /** The SDK's off-chain mirror of the tree. */
  class PoseidonMerkleTree<T> {
    const hs: Hasher<T>
    const depth: nat
    const zeros: seq<T>
    var leaves: seq<T>

    ghost predicate Valid()
      reads this
    {
      && |zeros| == depth + 1
      && forall i {:trigger zeros[i]} :: 0 <= i <= depth ==> zeros[i] == Zeros(hs, i)
    }

    constructor (hs: Hasher<T>, depth: nat)
      ensures Valid() && this.hs == hs && this.depth == depth && leaves == []
    {
      var table := ZeroHashes(hs, depth);
      this.hs, this.depth, this.zeros := hs, depth, table;
      this.leaves := [];
    }

    method Insert(leaf: T) returns (size: nat)
      requires Valid()
      modifies this`leaves
      ensures leaves == old(leaves) + [leaf] && size == |leaves|
    {
      leaves := leaves + [leaf];
      size := |leaves|;
    }

    method Root() returns (root: T)
      requires Valid()
      ensures root == MerkleSpec.Root(hs, depth, leaves)
    {
      var p := Walk(-1);
      root := p.root;
    }

    method GetProof(index: int) returns (r: Result<Proof<T>, PathError>)
      requires Valid()
      ensures r.Ok? <==> 0 <= index < |leaves|
      ensures r.Ok? ==> IsProof(hs, depth, leaves, index, r.value)
    {
      if index < 0 || index >= |leaves| {
        return Err(IndexOutOfRange);
      }
      var p := Walk(index);
      return Ok(p);
    }

    /** One walk serves both: a negative query collects no path. */
    method Walk(queryIndex: int) returns (p: Proof<T>)
      requires Valid()
      ensures p.root == MerkleSpec.Root(hs, depth, leaves)
      ensures queryIndex >= 0 ==> IsProof(hs, depth, leaves, queryIndex, p)
    {
      var level, idx := leaves, queryIndex;
      var pathElements: seq<T>, pathIndices: seq<nat> := [], [];
      for d := 0 to depth
        invariant IsLevel(hs, leaves, d, level)
        invariant queryIndex >= 0 ==> idx == Shift(queryIndex, d)
        invariant queryIndex < 0 ==> idx < 0
        invariant queryIndex >= 0 ==> IsPath(hs, d, leaves, queryIndex, pathElements, pathIndices)
      {
        if idx >= 0 {
          var isRight := idx % 2;
          pathIndices := pathIndices + [isRight];
          var sibIdx := SiblingIndex(idx);
          LevelNode(hs, leaves, d, level, sibIdx);
          var sibling := if sibIdx < |level| then level[sibIdx] else zeros[d];
          pathElements := pathElements + [sibling];
          idx := idx / 2;
        }
        level := NextLevel(hs, leaves, d, level, zeros[d]);
      }
      LevelNode(hs, leaves, depth, level, 0);
      var root := if |level| == 0 then zeros[depth] else level[0];
      p := Proof(root, pathElements, pathIndices);
    }
  }

  /** Any two walks over the same leaves return the same proof. */
  lemma ProofIsUnique<T>(hs: Hasher<T>, depth: nat, leaves: seq<T>, index: nat, p: Proof<T>, q: Proof<T>)
    requires IsProof(hs, depth, leaves, index, p) && IsProof(hs, depth, leaves, index, q)
    ensures p == q
  {
    assert p.pathElements == q.pathElements;
    assert p.pathIndices == q.pathIndices;
  }

  /**
   Completeness of a served path: its bits spell the index, and the circuit's fold of the
   leaf along it ends in the served root.
   */
  lemma ServedPathFolds<T>(hs: Hasher<T>, depth: nat, leaves: seq<T>, index: nat, p: Proof<T>)
    requires IsProof(hs, depth, leaves, index, p) && index < |leaves| <= Pow2(depth)
    ensures |p.pathElements| == |p.pathIndices| == depth
    ensures IsBits(p.pathIndices) && BitsIndex(p.pathIndices, 0) == index
    ensures Fold(hs, leaves[index], p.pathElements, p.pathIndices, depth) == p.root
  {
    PathCompleteness(hs, depth, leaves, index, p.pathElements, p.pathIndices);
  }
}
