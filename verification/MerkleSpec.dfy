/**
 The reference definition of the commitment tree: a complete binary tree of fixed
 depth over a list of leaves, padded with the zero leaf.  Every implementation of the
 tree (the on-chain frontier, the two level-by-level walks, the circuit's path checker)
 is compared with `Node` and `Root` below.

 Nothing is assumed of the two-input hash, except where a lemma asks for `Injective`.
 */
module MerkleSpec {

  /** Poseidon over two inputs, and the value of an empty leaf. */
  datatype Hasher<!T> = Hasher(two: (T, T) -> T, zero: T)

  ghost predicate Injective<T(!new)>(hs: Hasher<T>) {
    forall a, b, c, d :: hs.two(a, b) == hs.two(c, d) ==> a == c && b == d
  }

  // ---------------------------------------------------------------------------
  // Index arithmetic by repeated halving
  // ---------------------------------------------------------------------------

  function Pow2(k: nat): (p: nat)
    ensures p > 0
  {
    if k == 0 then 1 else 2 * Pow2(k - 1)
  }

  /** `n >> i`: the index, at level i, of the ancestor of leaf n. */
  function Shift(n: nat, i: nat): nat {
    if i == 0 then n else Shift(n, i - 1) / 2
  }

  /** How many nodes of level i have a leaf below them when there are n leaves. */
  function Width(n: nat, i: nat): nat {
    if i == 0 then n else (Width(n, i - 1) + 1) / 2
  }

  lemma {:induction false} ShiftBelow(n: nat, i: nat, depth: nat)
    requires i <= depth && n < Pow2(depth)
    ensures Shift(n, i) < Pow2(depth - i)
  {
    if i > 0 {
      ShiftBelow(n, i - 1, depth);
    }
  }

  /** Counting one more leaf moves the index at every level by at most one. */
  lemma {:induction false} ShiftSuccessor(n: nat, i: nat)
    ensures Shift(n + 1, i) == Shift(n, i) || Shift(n + 1, i) == Shift(n, i) + 1
  {
    if i > 0 {
      ShiftSuccessor(n, i - 1);
    }
  }

  lemma {:induction false} WidthSuccessor(n: nat, i: nat)
    ensures Width(n + 1, i) == Shift(n, i) + 1
  {
    if i > 0 {
      WidthSuccessor(n, i - 1);
    }
  }

  // ---------------------------------------------------------------------------
  // The padded tree
  // ---------------------------------------------------------------------------

  /** The root of an empty subtree of height i. */
  function Zeros<T>(hs: Hasher<T>, i: nat): T {
    if i == 0 then hs.zero else hs.two(Zeros(hs, i - 1), Zeros(hs, i - 1))
  }

  function LeafAt<T>(hs: Hasher<T>, leaves: seq<T>, i: nat): T {
    if i < |leaves| then leaves[i] else hs.zero
  }

  /** The node with index idx at the given level, level 0 being the leaves. */
  function Node<T>(hs: Hasher<T>, leaves: seq<T>, level: nat, idx: nat): T
    decreases level
  {
    if level == 0 then
      LeafAt(hs, leaves, idx)
    else
      hs.two(Node(hs, leaves, level - 1, 2 * idx), Node(hs, leaves, level - 1, 2 * idx + 1))
  }

  function Root<T>(hs: Hasher<T>, depth: nat, leaves: seq<T>): T {
    Node(hs, leaves, depth, 0)
  }

  /** Nodes to the right of every leaf are empty subtrees. */
  lemma {:induction false} NodePadding<T>(hs: Hasher<T>, leaves: seq<T>, level: nat, idx: nat)
    requires Width(|leaves|, level) <= idx
    ensures Node(hs, leaves, level, idx) == Zeros(hs, level)
    decreases level
  {
    if level > 0 {
      NodePadding(hs, leaves, level - 1, 2 * idx);
      NodePadding(hs, leaves, level - 1, 2 * idx + 1);
    }
  }

  /** A node whose leaves are all present never changes again. */
  lemma {:induction false} NodeComplete<T>(hs: Hasher<T>, leaves: seq<T>, more: seq<T>, level: nat, idx: nat)
    requires idx < Shift(|leaves|, level)
    ensures Node(hs, leaves + more, level, idx) == Node(hs, leaves, level, idx)
    decreases level
  {
    if level > 0 {
      NodeComplete(hs, leaves, more, level - 1, 2 * idx);
      NodeComplete(hs, leaves, more, level - 1, 2 * idx + 1);
    }
  }

  /** Appending the zero leaf changes no node, so it leaves the root as it was. */
  lemma {:induction false} NodeZeroLeaf<T>(hs: Hasher<T>, leaves: seq<T>, level: nat, idx: nat)
    ensures Node(hs, leaves + [hs.zero], level, idx) == Node(hs, leaves, level, idx)
    decreases level
  {
    if level > 0 {
      NodeZeroLeaf(hs, leaves, level - 1, 2 * idx);
      NodeZeroLeaf(hs, leaves, level - 1, 2 * idx + 1);
    }
  }

  // ---------------------------------------------------------------------------
  // Inclusion paths
  // ---------------------------------------------------------------------------

  ghost predicate IsBits(bits: seq<nat>) {
    forall i :: 0 <= i < |bits| ==> bits[i] < 2
  }

  /** One level of the circuit's checker: the selector bit says on which side the sibling is. */
  function Combine<T>(hs: Hasher<T>, bit: nat, current: T, sibling: T): T {
    if bit == 0 then hs.two(current, sibling) else hs.two(sibling, current)
  }

  /** The circuit's `currentHash[k]` for a leaf and its path. */
  function Fold<T>(hs: Hasher<T>, leaf: T, siblings: seq<T>, bits: seq<nat>, k: nat): T
    requires k <= |siblings| == |bits|
  {
    if k == 0 then leaf
    else Combine(hs, bits[k - 1], Fold(hs, leaf, siblings, bits, k - 1), siblings[k - 1])
  }

  function SiblingIndex(idx: nat): nat {
    if idx % 2 == 0 then idx + 1 else idx - 1
  }

  /** `siblings` and `bits` are the path of leaf `index` in the padded tree over `leaves`. */
  ghost predicate IsPath<T>(hs: Hasher<T>, depth: nat, leaves: seq<T>, index: nat, siblings: seq<T>, bits: seq<nat>) {
    && |siblings| == |bits| == depth
    && (forall d {:trigger siblings[d]} :: 0 <= d < depth ==>
        siblings[d] == Node(hs, leaves, d, SiblingIndex(Shift(index, d))))
    && (forall d {:trigger bits[d]} :: 0 <= d < depth ==> bits[d] == Shift(index, d) % 2)
  }

  lemma {:induction false} FoldClimbs<T>(hs: Hasher<T>, depth: nat, leaves: seq<T>, index: nat,
                                         siblings: seq<T>, bits: seq<nat>, k: nat)
    requires IsPath(hs, depth, leaves, index, siblings, bits) && k <= depth
    ensures Fold(hs, LeafAt(hs, leaves, index), siblings, bits, k) == Node(hs, leaves, k, Shift(index, k))
  {
    if k > 0 {
      FoldClimbs(hs, depth, leaves, index, siblings, bits, k - 1);
    }
  }

  /** The leaf index spelled by the direction bits from level k upwards. */
  function BitsIndex(bits: seq<nat>, k: nat): nat
    requires k <= |bits|
    decreases |bits| - k
  {
    if k == |bits| then 0 else 2 * BitsIndex(bits, k + 1) + bits[k]
  }

  /** The direction bits of a path spell its leaf index in binary. */
  lemma {:induction false} PathBitsSpellIndex(index: nat, bits: seq<nat>, k: nat)
    requires k <= |bits| && index < Pow2(|bits|)
    requires forall d {:trigger bits[d]} :: 0 <= d < |bits| ==> bits[d] == Shift(index, d) % 2
    ensures BitsIndex(bits, k) == Shift(index, k)
    decreases |bits| - k
  {
    if k == |bits| {
      ShiftBelow(index, k, k);
    } else {
      PathBitsSpellIndex(index, bits, k + 1);
      assert bits[k] == Shift(index, k) % 2;
    }
  }

  /** Completeness: the path of any leaf position folds that leaf to the root. */
  lemma PathCompleteness<T>(hs: Hasher<T>, depth: nat, leaves: seq<T>, index: nat, siblings: seq<T>, bits: seq<nat>)
    requires IsPath(hs, depth, leaves, index, siblings, bits) && index < Pow2(depth)
    ensures Fold(hs, LeafAt(hs, leaves, index), siblings, bits, depth) == Root(hs, depth, leaves)
    ensures IsBits(bits) && BitsIndex(bits, 0) == index
  {
    FoldClimbs(hs, depth, leaves, index, siblings, bits, depth);
    ShiftBelow(index, depth, depth);
    PathBitsSpellIndex(index, bits, 0);
  }

  lemma CombineInjective<T(!new)>(hs: Hasher<T>, bit: nat, current: T, sibling: T, leaves: seq<T>, level: nat,
                                  parent: nat)
    requires Injective(hs) && bit < 2
    requires Combine(hs, bit, current, sibling) == Node(hs, leaves, level + 1, parent)
    ensures current == Node(hs, leaves, level, 2 * parent + bit)
    ensures sibling == Node(hs, leaves, level, SiblingIndex(2 * parent + bit))
  {
    var left, right := Node(hs, leaves, level, 2 * parent), Node(hs, leaves, level, 2 * parent + 1);
    assert Combine(hs, bit, current, sibling) == hs.two(left, right);
    assert (2 * parent + bit) % 2 == bit;
  }

  lemma {:induction false} FoldDescends<T(!new)>(hs: Hasher<T>, leaves: seq<T>, leaf: T,
                                                 siblings: seq<T>, bits: seq<nat>, k: nat)
    requires Injective(hs)
    requires k <= |siblings| == |bits| && IsBits(bits)
    requires Fold(hs, leaf, siblings, bits, |bits|) == Root(hs, |bits|, leaves)
    ensures Fold(hs, leaf, siblings, bits, k) == Node(hs, leaves, k, BitsIndex(bits, k))
    ensures k < |bits| ==> siblings[k] == Node(hs, leaves, k, SiblingIndex(BitsIndex(bits, k)))
    decreases |bits| - k
  {
    if k < |bits| {
      FoldDescends(hs, leaves, leaf, siblings, bits, k + 1);
      CombineInjective(hs, bits[k], Fold(hs, leaf, siblings, bits, k), siblings[k], leaves, k, BitsIndex(bits, k + 1));
    }
  }

  /**
   Soundness: with a collision-free hash, whatever folds to the root of a leaf list is the
   leaf at the position its direction bits spell, or the zero padding past the end.
   */
  lemma InclusionSoundness<T(!new)>(hs: Hasher<T>, leaves: seq<T>, leaf: T, siblings: seq<T>, bits: seq<nat>)
    requires Injective(hs)
    requires |siblings| == |bits| && IsBits(bits)
    requires Fold(hs, leaf, siblings, bits, |bits|) == Root(hs, |bits|, leaves)
    ensures leaf == LeafAt(hs, leaves, BitsIndex(bits, 0))
  {
    FoldDescends(hs, leaves, leaf, siblings, bits, 0);
  }

  lemma {:induction false} NodeInjective<T(!new)>(hs: Hasher<T>, a: seq<T>, b: seq<T>, level: nat, idx: nat, i: nat)
    requires Injective(hs)
    requires Node(hs, a, level, idx) == Node(hs, b, level, idx)
    requires Shift(i, level) == idx
    ensures LeafAt(hs, a, i) == LeafAt(hs, b, i)
    decreases level
  {
    if level > 0 {
      NodeInjective(hs, a, b, level - 1, Shift(i, level - 1), i);
    }
  }

  /** Two leaf lists with the same root agree at every position of the tree. */
  lemma RootInjective<T(!new)>(hs: Hasher<T>, depth: nat, a: seq<T>, b: seq<T>, i: nat)
    requires Injective(hs) && i < Pow2(depth)
    requires Root(hs, depth, a) == Root(hs, depth, b)
    ensures LeafAt(hs, a, i) == LeafAt(hs, b, i)
  {
    ShiftBelow(i, depth, depth);
    NodeInjective(hs, a, b, depth, 0, i);
  }
}
