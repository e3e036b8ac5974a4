/**
 Field elements under an ideal Poseidon: numbers, and hashes that no two different inputs
 share.  Collision-freedom, and the fact that a hash is never a small number, are theorems
 of this term algebra rather than assumptions.
 */
module FieldTerm {
  import opened MerkleSpec
  import opened IncrementalTree

  datatype Field =
    | Num(n: nat)
    | H1(x: Field)
    | H2(left: Field, right: Field)
    | H3(a: Field, b: Field, c: Field)

  const ZERO: Field := Num(0)

  function Poseidon(): Hasher<Field> {
    Hasher((l, r) => H2(l, r), ZERO)
  }

  lemma PoseidonInjective()
    ensures Injective(Poseidon())
  {
    var hs := Poseidon();
    forall a, b, c, d | hs.two(a, b) == hs.two(c, d)
      ensures a == c && b == d
    {
      assert H2(a, b) == H2(c, d);
    }
  }

  lemma RootIsHash(depth: nat, leaves: seq<Field>)
    requires 1 <= depth
    ensures Root(Poseidon(), depth, leaves).H2?
  {
  }

  /** Under any root of this hash, whatever a path folds to the root is the leaf it points at. */
  lemma TermInclusionSoundness(leaves: seq<Field>, leaf: Field, siblings: seq<Field>, bits: seq<nat>)
    requires |siblings| == |bits| && IsBits(bits)
    requires Fold(Poseidon(), leaf, siblings, bits, |bits|) == Root(Poseidon(), |bits|, leaves)
    ensures var i := BitsIndex(bits, 0); leaf == if i < |leaves| then leaves[i] else ZERO
  {
    PoseidonInjective();
    InclusionSoundness(Poseidon(), leaves, leaf, siblings, bits);
  }

  lemma {:induction false} ZeroTailKeepsRoot(depth: nat, leaves: seq<Field>, m: nat, k: nat)
    requires m <= k <= |leaves|
    requires forall i :: m <= i < k ==> leaves[i] == ZERO
    ensures RootAt(Poseidon(), depth, leaves, k) == RootAt(Poseidon(), depth, leaves, m)
    decreases k
  {
    if m < k {
      ZeroTailKeepsRoot(depth, leaves, m, k - 1);
      assert leaves[..k] == leaves[..k - 1] + [ZERO];
      NodeZeroLeaf(Poseidon(), leaves[..k - 1], depth, 0);
    }
  }

  lemma EqualRootsMeanZeroTail(depth: nat, leaves: seq<Field>, m: nat, k: nat, i: nat)
    requires m <= i < k <= |leaves| <= Pow2(depth)
    requires RootAt(Poseidon(), depth, leaves, k) == RootAt(Poseidon(), depth, leaves, m)
    ensures leaves[i] == ZERO
  {
    PoseidonInjective();
    RootInjective(Poseidon(), depth, leaves[..k], leaves[..m], i);
  }

  /**
   How long a root stays acceptable.  The root recorded at m leaves is known to a tree of N
   leaves exactly when fewer than ringLen leaves were appended since, or when the ones that
   pushed it out of the ring are all zero leaves, which do not change the root.
   */
  lemma RootLifetime(t: TreeState<Field>, leaves: seq<Field>, m: nat)
    requires Represents(Poseidon(), t, leaves) && 1 <= m <= |leaves|
    ensures IsKnownRoot(Poseidon(), t, RootAt(Poseidon(), |t.filledSubtree|, leaves, m)) <==>
      forall i :: m <= i <= |leaves| - |t.rootHistory| ==> leaves[i] == ZERO
  {
    var depth, ringLen := |t.filledSubtree|, |t.rootHistory|;
    var root := RootAt(Poseidon(), depth, leaves, m);
    RootIsHash(depth, leaves[..m]);
    KnownRootWindow(Poseidon(), t, leaves, root);
    if IsKnownRoot(Poseidon(), t, root) {
      var k :| RecentSize(|leaves|, ringLen, k) && root == RootAt(Poseidon(), depth, leaves, k);
      forall i | m <= i <= |leaves| - ringLen ensures leaves[i] == ZERO {
        EqualRootsMeanZeroTail(depth, leaves, m, k, i);
      }
    }
    if forall i :: m <= i <= |leaves| - ringLen ==> leaves[i] == ZERO {
      var k := if |leaves| - ringLen + 1 > m then |leaves| - ringLen + 1 else m;
      ZeroTailKeepsRoot(depth, leaves, m, k);
      assert RecentSize(|leaves|, ringLen, k);
    }
  }
}
