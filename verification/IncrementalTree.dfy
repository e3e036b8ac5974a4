/**
 The on-chain tree account: a frontier of one node per level, a table of empty-subtree
 roots, and a ring of the most recent roots.  `MerkleTree` is the account as the program
 mutates it; `TreeState` is its stored data, and `AppendLeaf` says what one append does
 to that data.  The lemmas compare both with the padded tree of `MerkleSpec`.
 */
module IncrementalTree {
  import opened Wrappers
  import opened MerkleSpec

  const MERKLE_DEPTH: nat := 20
  const ROOT_HISTORY_LEN: nat := 30

  datatype TreeError = TreeFull | HashFailure

  /** A 32-byte string.  Poseidon refuses the strings that do not encode a field element. */
  datatype LeafBytes<+T> = Canonical(value: T) | NonCanonical(id: nat)

  datatype TreeState<T> = TreeState(
    nextLeafIndex: nat,
    filledSubtree: seq<T>,
    rootHistory: seq<T>,
    rootCursor: nat,
    zeroHashes: seq<T>
  )

  /** The buffers have their declared sizes; a one-byte cursor can name every ring slot. */
  predicate WellShaped<T>(t: TreeState<T>) {
    && 1 <= |t.filledSubtree| == |t.zeroHashes|
    && 1 <= |t.rootHistory| <= 256
    && t.rootCursor < |t.rootHistory|
  }

  function FreshTree<T>(hs: Hasher<T>, depth: nat, ringLen: nat): TreeState<T> {
    TreeState(0, seq(depth, _ => hs.zero), seq(ringLen, _ => hs.zero), 0, seq(depth, i requires i >= 0 => Zeros(hs, i)))
  }

  // ---------------------------------------------------------------------------
  // One append
  // ---------------------------------------------------------------------------

  /** The frontier and the running hash after i levels of the walk from a new leaf. */
  function WalkUp<T>(hs: Hasher<T>, t: TreeState<T>, leaf: T, i: nat): (r: (seq<T>, T))
    requires WellShaped(t) && i <= |t.filledSubtree|
    ensures |r.0| == |t.filledSubtree|
  {
    if i == 0 then (t.filledSubtree, leaf)
    else
      var (filled, hash) := WalkUp(hs, t, leaf, i - 1);
      if Shift(t.nextLeafIndex, i - 1) % 2 == 0 then
        (filled[i - 1 := hash], hs.two(hash, t.zeroHashes[i - 1]))
      else
        (filled, hs.two(filled[i - 1], hash))
  }

  function NextCursor(cursor: nat, ringLen: nat): nat
    requires cursor < ringLen
  {
    (cursor + 1) % ringLen
  }

  /** The new account data and the root that one append returns. */
  function AppendLeaf<T>(hs: Hasher<T>, t: TreeState<T>, leaf: LeafBytes<T>): (r: Result<(TreeState<T>, T), TreeError>)
    requires WellShaped(t)
    ensures r.Ok? ==> WellShaped(r.value.0) && |r.value.0.filledSubtree| == |t.filledSubtree|
    ensures r.Ok? ==> |r.value.0.rootHistory| == |t.rootHistory|
  {
    if t.nextLeafIndex >= Pow2(|t.filledSubtree|) then Err(TreeFull)
    else if leaf.NonCanonical? then Err(HashFailure)
    else
      var (filled, root) := WalkUp(hs, t, leaf.value, |t.filledSubtree|);
      var cursor := NextCursor(t.rootCursor, |t.rootHistory|);
      Ok((TreeState(t.nextLeafIndex + 1, filled, t.rootHistory[cursor := root], cursor, t.zeroHashes), root))
  }

  predicate IsKnownRoot<T(==)>(hs: Hasher<T>, t: TreeState<T>, root: T) {
    root != hs.zero && root in t.rootHistory
  }

  // ---------------------------------------------------------------------------
  // What the stored data means
  // ---------------------------------------------------------------------------

  /** Bit i of the leaf count is set exactly when level i of the frontier holds a complete left node. */
  ghost predicate FrontierOk<T>(hs: Hasher<T>, filled: seq<T>, leaves: seq<T>) {
    forall i {:trigger filled[i]} :: 0 <= i < |filled| && Shift(|leaves|, i) % 2 == 1 ==>
      filled[i] == Node(hs, leaves, i, Shift(|leaves|, i) - 1)
  }

  /** The ring slot written `age` appends ago. */
  function Slot(cursor: nat, age: nat, ringLen: nat): (s: nat)
    requires cursor < ringLen && age < ringLen
    ensures s < ringLen
  {
    if age <= cursor then cursor - age else cursor + ringLen - age
  }

  /** The root recorded when the tree had its first m leaves. */
  function RootAt<T>(hs: Hasher<T>, depth: nat, leaves: seq<T>, m: nat): T
    requires m <= |leaves|
  {
    Root(hs, depth, leaves[..m])
  }

  /** What a slot of the given age holds; slots not yet written are still zero. */
  function AgedRoot<T>(hs: Hasher<T>, depth: nat, leaves: seq<T>, age: nat): T {
    if age < |leaves| then RootAt(hs, depth, leaves, |leaves| - age) else hs.zero
  }

  ghost predicate RingOk<T>(hs: Hasher<T>, depth: nat, history: seq<T>, cursor: nat, leaves: seq<T>)
    requires cursor < |history|
  {
    forall age {:trigger Slot(cursor, age, |history|)} :: 0 <= age < |history| ==>
      history[Slot(cursor, age, |history|)] == AgedRoot(hs, depth, leaves, age)
  }

  /** The account data is what appending exactly these leaves, in order, must leave behind. */
  ghost predicate Represents<T>(hs: Hasher<T>, t: TreeState<T>, leaves: seq<T>) {
    && WellShaped(t)
    && t.nextLeafIndex == |leaves| <= Pow2(|t.filledSubtree|)
    && (forall i {:trigger t.zeroHashes[i]} :: 0 <= i < |t.zeroHashes| ==> t.zeroHashes[i] == Zeros(hs, i))
    && FrontierOk(hs, t.filledSubtree, leaves)
    && RingOk(hs, |t.filledSubtree|, t.rootHistory, t.rootCursor, leaves)
  }

  // ---------------------------------------------------------------------------
  // The frontier walk computes nodes of the padded tree
  // ---------------------------------------------------------------------------

  lemma {:induction false} WalkComputesNodes<T>(hs: Hasher<T>, t: TreeState<T>, leaves: seq<T>, leaf: T, i: nat)
    requires Represents(hs, t, leaves) && i <= |t.filledSubtree|
    ensures WalkUp(hs, t, leaf, i).1 == Node(hs, leaves + [leaf], i, Shift(|leaves|, i))
    ensures forall j {:trigger WalkUp(hs, t, leaf, i).0[j]} :: 0 <= j < |t.filledSubtree| ==>
      WalkUp(hs, t, leaf, i).0[j] ==
        if j < i && Shift(|leaves|, j) % 2 == 0 then Node(hs, leaves + [leaf], j, Shift(|leaves|, j))
        else t.filledSubtree[j]
  {
    if i > 0 {
      WalkComputesNodes(hs, t, leaves, leaf, i - 1);
      WalkStep(hs, t, leaves, leaf, i - 1);
    }
  }

  /** The sibling the walk uses at level i is the other child of the new leaf's ancestor. */
  lemma WalkStep<T>(hs: Hasher<T>, t: TreeState<T>, leaves: seq<T>, leaf: T, i: nat)
    requires Represents(hs, t, leaves) && i < |t.filledSubtree|
    ensures var idx := Shift(|leaves|, i);
            var here := Node(hs, leaves + [leaf], i, idx);
            Node(hs, leaves + [leaf], i + 1, Shift(|leaves|, i + 1)) ==
              if idx % 2 == 0 then hs.two(here, t.zeroHashes[i]) else hs.two(t.filledSubtree[i], here)
  {
    var idx := Shift(|leaves|, i);
    assert Shift(|leaves|, i + 1) == idx / 2;
    if idx % 2 == 0 {
      assert 2 * (idx / 2) == idx;
      WidthSuccessor(|leaves|, i);
      NodePadding(hs, leaves + [leaf], i, idx + 1);
    } else {
      assert 2 * (idx / 2) + 1 == idx;
      NodeComplete(hs, leaves, [leaf], i, idx - 1);
    }
  }

  lemma FrontierStep<T>(hs: Hasher<T>, t: TreeState<T>, leaves: seq<T>, leaf: T, i: nat)
    requires Represents(hs, t, leaves) && i < |t.filledSubtree|
    requires Shift(|leaves| + 1, i) % 2 == 1
    ensures WalkUp(hs, t, leaf, |t.filledSubtree|).0[i] == Node(hs, leaves + [leaf], i, Shift(|leaves| + 1, i) - 1)
  {
    WalkComputesNodes(hs, t, leaves, leaf, |t.filledSubtree|);
    ShiftSuccessor(|leaves|, i);
    var idx := Shift(|leaves|, i);
    if idx % 2 == 1 {
      assert Shift(|leaves| + 1, i) == idx;
      NodeComplete(hs, leaves, [leaf], i, idx - 1);
    }
  }

  lemma FrontierKept<T>(hs: Hasher<T>, t: TreeState<T>, leaves: seq<T>, leaf: T)
    requires Represents(hs, t, leaves)
    ensures FrontierOk(hs, WalkUp(hs, t, leaf, |t.filledSubtree|).0, leaves + [leaf])
  {
    var filled := WalkUp(hs, t, leaf, |t.filledSubtree|).0;
    forall i | 0 <= i < |filled| && Shift(|leaves + [leaf]|, i) % 2 == 1
      ensures filled[i] == Node(hs, leaves + [leaf], i, Shift(|leaves + [leaf]|, i) - 1)
    {
      FrontierStep(hs, t, leaves, leaf, i);
    }
  }

  lemma PushAgesSlots(cursor: nat, age: nat, ringLen: nat)
    requires cursor < ringLen && age < ringLen
    ensures NextCursor(cursor, ringLen) == if cursor + 1 == ringLen then 0 else cursor + 1
    ensures var c := NextCursor(cursor, ringLen);
            if age == 0 then Slot(c, age, ringLen) == c
            else Slot(c, age, ringLen) == Slot(cursor, age - 1, ringLen) != c
  {
    NextCursorWraps(cursor, ringLen);
    hide NextCursor;
  }

  lemma NextCursorWraps(cursor: nat, ringLen: nat)
    requires cursor < ringLen
    ensures NextCursor(cursor, ringLen) == if cursor + 1 == ringLen then 0 else cursor + 1
  {
  }

  lemma RingKept<T>(hs: Hasher<T>, depth: nat, history: seq<T>, cursor: nat, leaves: seq<T>, leaf: T)
    requires cursor < |history| && RingOk(hs, depth, history, cursor, leaves)
    ensures var c := NextCursor(cursor, |history|);
            RingOk(hs, depth, history[c := Root(hs, depth, leaves + [leaf])], c, leaves + [leaf])
  {
    var c := NextCursor(cursor, |history|);
    var more := leaves + [leaf];
    var pushed := history[c := Root(hs, depth, more)];
    forall age | 0 <= age < |history|
      ensures pushed[Slot(c, age, |history|)] == AgedRoot(hs, depth, more, age)
    {
      PushAgesSlots(cursor, age, |history|);
      if age == 0 {
        assert more[..|more|] == more;
      } else {
        if age < |more| {
          assert more[..|more| - age] == leaves[..|leaves| - (age - 1)];
        }
      }
    }
  }

  // ---------------------------------------------------------------------------
  // Main results
  // ---------------------------------------------------------------------------

  lemma FreshRepresentsEmpty<T>(hs: Hasher<T>, depth: nat, ringLen: nat)
    requires 1 <= depth && 1 <= ringLen <= 256
    ensures Represents(hs, FreshTree(hs, depth, ringLen), [])
  {
    forall i: nat ensures Shift(0, i) == 0 { ShiftZero(i); }
  }

  lemma {:induction false} ShiftZero(i: nat)
    ensures Shift(0, i) == 0
  {
    if i > 0 { ShiftZero(i - 1); }
  }

  /**
   The fast append refines full recomputation: it succeeds exactly when the tree has room and
   the leaf is a field element, returns the root of the padded tree over all leaves so far,
   and leaves data that represents exactly those leaves.
   */
  lemma AppendRefinesRecompute<T>(hs: Hasher<T>, t: TreeState<T>, leaves: seq<T>, leaf: LeafBytes<T>)
    requires Represents(hs, t, leaves)
    ensures AppendLeaf(hs, t, leaf).Ok? <==> |leaves| < Pow2(|t.filledSubtree|) && leaf.Canonical?
    ensures AppendLeaf(hs, t, leaf).Ok? ==>
      var (t', root) := AppendLeaf(hs, t, leaf).value;
      Represents(hs, t', leaves + [leaf.value]) && root == Root(hs, |t.filledSubtree|, leaves + [leaf.value])
  {
    if |leaves| < Pow2(|t.filledSubtree|) && leaf.Canonical? {
      var depth := |t.filledSubtree|;
      WalkComputesNodes(hs, t, leaves, leaf.value, depth);
      ShiftBelow(|leaves|, depth, depth);
      FrontierKept(hs, t, leaves, leaf.value);
      RingKept(hs, depth, t.rootHistory, t.rootCursor, leaves, leaf.value);
    }
  }

  /** The account data after appending a whole list of leaves to a fresh tree. */
  function Replay<T>(hs: Hasher<T>, depth: nat, ringLen: nat, leaves: seq<T>): (r: Result<TreeState<T>, TreeError>)
    requires 1 <= depth && 1 <= ringLen <= 256
    ensures r.Ok? ==> WellShaped(r.value) && |r.value.filledSubtree| == depth && |r.value.rootHistory| == ringLen
  {
    if leaves == [] then Ok(FreshTree(hs, depth, ringLen))
    else
      match Replay(hs, depth, ringLen, leaves[..|leaves| - 1])
      case Err(e) => Err(e)
      case Ok(t) =>
        match AppendLeaf(hs, t, Canonical(leaves[|leaves| - 1]))
        case Err(e) => Err(e)
        case Ok((t', _)) => Ok(t')
  }

  /** Every run of appends that fits the tree ends in data representing the whole list. */
  lemma {:induction false} ReplayRepresents<T>(hs: Hasher<T>, depth: nat, ringLen: nat, leaves: seq<T>)
    requires 1 <= depth && 1 <= ringLen <= 256
    ensures Replay(hs, depth, ringLen, leaves).Ok? <==> |leaves| <= Pow2(depth)
    ensures Replay(hs, depth, ringLen, leaves).Ok? ==> Represents(hs, Replay(hs, depth, ringLen, leaves).value, leaves)
  {
    if leaves == [] {
      FreshRepresentsEmpty(hs, depth, ringLen);
    } else {
      var init, last := leaves[..|leaves| - 1], leaves[|leaves| - 1];
      ReplayRepresents(hs, depth, ringLen, init);
      assert init + [last] == leaves;
      if |init| <= Pow2(depth) {
        AppendRefinesRecompute(hs, Replay(hs, depth, ringLen, init).value, init, Canonical(last));
      }
    }
  }

  /** m is one of the last ringLen tree sizes, not counting the empty tree. */
  predicate RecentSize(size: nat, ringLen: nat, m: nat) {
    1 <= m <= size < m + ringLen
  }

  /** The ring accepts exactly the non-zero roots of the last ringLen non-empty tree sizes. */
  lemma KnownRootWindow<T>(hs: Hasher<T>, t: TreeState<T>, leaves: seq<T>, root: T)
    requires Represents(hs, t, leaves)
    ensures IsKnownRoot(hs, t, root) <==>
      root != hs.zero &&
      exists m {:trigger RootAt(hs, |t.filledSubtree|, leaves, m)} ::
        RecentSize(|leaves|, |t.rootHistory|, m) && root == RootAt(hs, |t.filledSubtree|, leaves, m)
  {
    var ringLen := |t.rootHistory|;
    var depth := |t.filledSubtree|;
    if IsKnownRoot(hs, t, root) {
      var j :| 0 <= j < ringLen && t.rootHistory[j] == root;
      var age := if j <= t.rootCursor then t.rootCursor - j else t.rootCursor + ringLen - j;
      assert Slot(t.rootCursor, age, ringLen) == j;
      assert RecentSize(|leaves|, ringLen, |leaves| - age) && root == RootAt(hs, depth, leaves, |leaves| - age);
    }
    if m :| RecentSize(|leaves|, ringLen, m) && root == RootAt(hs, depth, leaves, m) {
      assert t.rootHistory[Slot(t.rootCursor, |leaves| - m, ringLen)] == AgedRoot(hs, depth, leaves, |leaves| - m);
    }
  }

  /** The slot under the cursor, which the indexer stores against the leaf count, is the current root. */
  lemma CursorHoldsCurrentRoot<T>(hs: Hasher<T>, t: TreeState<T>, leaves: seq<T>)
    requires Represents(hs, t, leaves)
    ensures t.rootHistory[t.rootCursor] == if leaves == [] then hs.zero else Root(hs, |t.filledSubtree|, leaves)
  {
    assert t.rootHistory[Slot(t.rootCursor, 0, |t.rootHistory|)] == AgedRoot(hs, |t.filledSubtree|, leaves, 0);
    assert leaves[..|leaves|] == leaves;
  }

  /** Appending the zero leaf consumes an index and a ring slot but returns the root unchanged. */
  lemma ZeroLeafKeepsRoot<T>(hs: Hasher<T>, t: TreeState<T>, leaves: seq<T>)
    requires Represents(hs, t, leaves) && |leaves| < Pow2(|t.filledSubtree|)
    ensures AppendLeaf(hs, t, Canonical(hs.zero)).Ok?
    ensures AppendLeaf(hs, t, Canonical(hs.zero)).value.1 == Root(hs, |t.filledSubtree|, leaves)
  {
    AppendRefinesRecompute(hs, t, leaves, Canonical(hs.zero));
    NodeZeroLeaf(hs, leaves, |t.filledSubtree|, 0);
  }

  // ---------------------------------------------------------------------------
  // The account as the program mutates it
  // ---------------------------------------------------------------------------

  class MerkleTree<T(==)> {
    const hs: Hasher<T>
    var nextLeafIndex: nat
    const filledSubtree: array<T>
    const rootHistory: array<T>
    var rootCursor: nat
    const zeroHashes: array<T>

    ghost predicate Valid()
      reads this, filledSubtree, rootHistory, zeroHashes
    {
      && filledSubtree != rootHistory && filledSubtree != zeroHashes && rootHistory != zeroHashes
      && WellShaped(View())
    }

    function View(): TreeState<T>
      reads this, filledSubtree, rootHistory, zeroHashes
    {
      TreeState(nextLeafIndex, filledSubtree[..], rootHistory[..], rootCursor, zeroHashes[..])
    }

    /** `initialize_denomination`: the account starts zeroed, then the zero table is filled level by level. */
    constructor Initialize(hs: Hasher<T>, depth: nat, ringLen: nat)
      requires 1 <= depth && 1 <= ringLen <= 256
      ensures Valid() && fresh(filledSubtree) && fresh(rootHistory) && fresh(zeroHashes)
      ensures this.hs == hs && View() == FreshTree(hs, depth, ringLen)
    {
      this.hs := hs;
      nextLeafIndex, rootCursor := 0, 0;
      filledSubtree := new T[depth](_ => hs.zero);
      rootHistory := new T[ringLen](_ => hs.zero);
      zeroHashes := new T[depth](_ => hs.zero);
      new;
      for i := 1 to depth
        invariant nextLeafIndex == 0 && rootCursor == 0
        invariant forall j {:trigger zeroHashes[j]} :: 0 <= j < i ==> zeroHashes[j] == Zeros(hs, j)
        invariant forall j :: 0 <= j < depth ==> filledSubtree[j] == hs.zero
        invariant forall j :: 0 <= j < ringLen ==> rootHistory[j] == hs.zero
      {
        var prev := zeroHashes[i - 1];
        zeroHashes[i] := hs.two(prev, prev);
      }
      ghost var zeroed := FreshTree(hs, depth, ringLen);
      assert zeroHashes[..] == zeroed.zeroHashes;
      assert filledSubtree[..] == zeroed.filledSubtree && rootHistory[..] == zeroed.rootHistory;
    }

    /** Reads the account back from its stored data. */
    constructor Load(hs: Hasher<T>, t: TreeState<T>)
      requires WellShaped(t)
      ensures Valid() && fresh(filledSubtree) && fresh(rootHistory) && fresh(zeroHashes)
      ensures this.hs == hs && View() == t
    {
      this.hs := hs;
      nextLeafIndex, rootCursor := t.nextLeafIndex, t.rootCursor;
      filledSubtree := new T[|t.filledSubtree|](i requires 0 <= i < |t.filledSubtree| => t.filledSubtree[i]);
      rootHistory := new T[|t.rootHistory|](i requires 0 <= i < |t.rootHistory| => t.rootHistory[i]);
      zeroHashes := new T[|t.zeroHashes|](i requires 0 <= i < |t.zeroHashes| => t.zeroHashes[i]);
    }

    /**
     Walks from the new leaf to the root, writing the frontier in place, then bumps the leaf
     index and pushes the root onto the ring.  The first hash refuses a leaf that is not a
     field element; the runtime then discards the account, so nothing is written here.
     */
    method Append(leaf: LeafBytes<T>) returns (r: Result<T, TreeError>)
      requires Valid()
      modifies this, filledSubtree, rootHistory
      ensures Valid()
      ensures match AppendLeaf(hs, old(View()), leaf)
              case Ok((after, root)) => r == Ok(root) && View() == after
              case Err(e) => r == Err(e) && View() == old(View())
    {
      ghost var before := View();
      var depth := filledSubtree.Length;
      if nextLeafIndex >= Pow2(depth) {
        return Err(TreeFull);
      }
      if leaf.NonCanonical? {
        return Err(HashFailure);
      }
      var currentIndex, currentHash := nextLeafIndex, leaf.value;
      for i := 0 to depth
        invariant nextLeafIndex == before.nextLeafIndex && rootCursor == before.rootCursor
        invariant rootHistory[..] == before.rootHistory && zeroHashes[..] == before.zeroHashes
        invariant currentIndex == Shift(nextLeafIndex, i)
        invariant (filledSubtree[..], currentHash) == WalkUp(hs, before, leaf.value, i)
      {
        if currentIndex % 2 == 0 {
          filledSubtree[i] := currentHash;
          currentHash := hs.two(currentHash, zeroHashes[i]);
        } else {
          var sibling := filledSubtree[i];
          currentHash := hs.two(sibling, currentHash);
        }
        currentIndex := currentIndex / 2;
      }
      nextLeafIndex := nextLeafIndex + 1;
      var nextCursor := (rootCursor + 1) % rootHistory.Length;
      rootHistory[nextCursor] := currentHash;
      rootCursor := nextCursor;
      return Ok(currentHash);
    }

    /** Any slot of the ring matches; the all-zero root never does. */
    predicate KnowsRoot(root: T)
      reads this, filledSubtree, rootHistory, zeroHashes
      ensures KnowsRoot(root) == IsKnownRoot(hs, View(), root)
    {
      root != hs.zero && exists i :: 0 <= i < rootHistory.Length && rootHistory[i] == root
    }
  }
}
