/**
 The chain as the indexer sees it: transactions, each a list of pool and token instructions that
 all take effect or none, some of them reached through other programs.  The leaves the poller can
 read from this history are exactly those the pool's trees hold.
 */
module ChainTxs {
  import opened Wrappers
  import opened MerkleSpec
  import opened IncrementalTree
  import opened FieldTerm
  import opened Pool
  import opened PoolSolvency
  import Pagination
  import Poller
  import ProofService

  /** An instruction of a transaction; only top-level ones are listed with it. */
  datatype Call = Call(ix: Instruction, topLevel: bool)

  /** A transaction: its calls in execution order, and whether the node can return its body. */
  datatype ChainTx = ChainTx(signature: nat, slot: nat, retrievable: bool, calls: seq<Call>)

  // ---------------------------------------------------------------------------
  // Execution
  // ---------------------------------------------------------------------------

  /** The world after all the calls, or nothing when one of them fails. */
  function ExecuteCalls(env: Program, w: World, calls: seq<Call>): Option<World>
    requires Deployable(env)
  {
    if calls == [] then Some(w)
    else
      match ExecuteCalls(env, w, calls[..|calls| - 1])
      case None => None
      case Some(before) =>
        var ix := calls[|calls| - 1].ix;
        if Apply(env, before.pool, ix).Ok? then Some(PoolSolvency.Step(env, before, ix)) else None
  }

  /** A transaction one of whose calls fails changes nothing. */
  function ApplyTx(env: Program, w: World, tx: ChainTx): World
    requires Deployable(env)
  {
    match ExecuteCalls(env, w, tx.calls)
    case None => w
    case Some(after) => after
  }

  function RunTxs(env: Program, w: World, txs: seq<ChainTx>): World
    requires Deployable(env)
  {
    if txs == [] then w else ApplyTx(env, RunTxs(env, w, txs[..|txs| - 1]), txs[|txs| - 1])
  }

  lemma {:induction false} ExecuteKeepsInv(env: Program, w: World, calls: seq<Call>)
    requires Inv(env, w) && ExecuteCalls(env, w, calls).Some?
    ensures Inv(env, ExecuteCalls(env, w, calls).value)
  {
    if calls != [] {
      ExecuteKeepsInv(env, w, calls[..|calls| - 1]);
      PoolSolvency.StepKeepsInv(env, ExecuteCalls(env, w, calls[..|calls| - 1]).value, calls[|calls| - 1].ix);
    }
  }

  lemma {:induction false} RunTxsKeepsInv(env: Program, w: World, txs: seq<ChainTx>)
    requires Inv(env, w)
    ensures Inv(env, RunTxs(env, w, txs))
  {
    if txs != [] {
      RunTxsKeepsInv(env, w, txs[..|txs| - 1]);
      var before, tx := RunTxs(env, w, txs[..|txs| - 1]), txs[|txs| - 1];
      if ExecuteCalls(env, before, tx.calls).Some? {
        ExecuteKeepsInv(env, before, tx.calls);
      }
    }
  }

  // ---------------------------------------------------------------------------
  // What the node shows the poller
  // ---------------------------------------------------------------------------

  /** The leaf an instruction appends when it succeeds. */
  function LeafOf(ix: Instruction): Option<Poller.Leaf<Field>> {
    match ix
    case MakeDeposit(a) => if a.commitment.Canonical? then Some(Poller.Leaf(a.denomId, a.commitment.value)) else None
    case MakeWithdraw(a) => Some(Poller.Leaf(a.denomId, a.signals.changeCommitment))
    case _ => None
  }

  /** What it adds to one denomination's tree. */
  function Added(ix: Instruction, d: nat): seq<Field> {
    if LeafOf(ix).Some? && LeafOf(ix).value.denomId == d then [LeafOf(ix).value.value] else []
  }

  function Appends(calls: seq<Call>): seq<Poller.Append<Field>> {
    if calls == [] then []
    else
      var last := calls[|calls| - 1];
      Appends(calls[..|calls| - 1]) +
      match LeafOf(last.ix)
      case None => []
      case Some(leaf) => [Poller.Append(leaf, last.topLevel)]
  }

  /** The transaction as the poller's node has it. */
  function Observe(env: Program, w: World, tx: ChainTx): Poller.Tx<Field>
    requires Deployable(env)
  {
    Poller.Tx(tx.signature, tx.slot, ExecuteCalls(env, w, tx.calls).None?, tx.retrievable, Appends(tx.calls))
  }

  function History(env: Program, w: World, txs: seq<ChainTx>): (history: seq<Poller.Tx<Field>>)
    requires Deployable(env)
    ensures |history| == |txs|
  {
    if txs == [] then []
    else
      var init := txs[..|txs| - 1];
      History(env, w, init) + [Observe(env, RunTxs(env, w, init), txs[|txs| - 1])]
  }

  ghost predicate DistinctSignatures(txs: seq<ChainTx>) {
    forall i, j :: 0 <= i < j < |txs| ==> txs[i].signature != txs[j].signature
  }

  lemma {:induction false} HistoryKeepsSignatures(env: Program, w: World, txs: seq<ChainTx>, i: nat)
    requires Deployable(env) && i < |txs|
    ensures History(env, w, txs)[i].signature == txs[i].signature
  {
    if i < |txs| - 1 {
      HistoryKeepsSignatures(env, w, txs[..|txs| - 1], i);
    }
  }

  lemma HistoryIsDistinct(env: Program, w: World, txs: seq<ChainTx>)
    requires Deployable(env) && DistinctSignatures(txs)
    ensures Pagination.Distinct(Poller.Signatures(History(env, w, txs)))
  {
    var history := History(env, w, txs);
    forall i, j | 0 <= i < j < |txs| ensures Poller.Signatures(history)[i] != Poller.Signatures(history)[j] {
      HistoryKeepsSignatures(env, w, txs, i);
      HistoryKeepsSignatures(env, w, txs, j);
    }
  }

  // ---------------------------------------------------------------------------
  // The leaves agree
  // ---------------------------------------------------------------------------

  function LoggedLeaves(logs: map<nat, DenomLog>, d: nat): seq<Field> {
    if d in logs then Values(logs[d].origins) else []
  }

  /** The leaves of a denomination's tree. */
  function TreeLeaves(w: World, d: nat): seq<Field> {
    LoggedLeaves(w.logs, d)
  }

  lemma ValuesAppend(origins: seq<Origin>, leaf: Origin)
    ensures Values(origins + [leaf]) == Values(origins) + [leaf.value]
  {
  }

  lemma RecordAppends(logs: map<nat, DenomLog>, ix: Instruction, d: nat)
    requires LeafOf(ix).Some? ==> LeafOf(ix).value.denomId in logs
    requires ix.CreateDenomination? ==> ix.denomId !in logs
    requires ix.MakeDeposit? ==> ix.deposit.commitment.Canonical?
    ensures LoggedLeaves(Record(logs, ix), d) == LoggedLeaves(logs, d) + Added(ix, d)
  {
    match ix {
      case MakeDeposit(a) => ValuesAppend(logs[a.denomId].origins, DepositLeaf(a.commitment.value));
      case MakeWithdraw(a) => ValuesAppend(logs[a.denomId].origins, ChangeLeaf(a.signals.changeCommitment));
      case _ => assert Values([]) == [];
    }
  }

  lemma LeafTierIsLogged(env: Program, w: World, ix: Instruction)
    requires Inv(env, w) && Apply(env, w.pool, ix).Ok?
    ensures LeafOf(ix).Some? ==> LeafOf(ix).value.denomId in w.logs
    ensures ix.CreateDenomination? ==> ix.denomId !in w.logs
    ensures ix.MakeDeposit? ==> ix.deposit.commitment.Canonical?
  {
    if ix.MakeDeposit? {
      DepositEffect(w.pool, ix.deposit);
    } else if ix.MakeWithdraw? {
      ConcernedTierExists(env, w.pool, ix, ix.withdraw.denomId);
    }
    hide Deposit, Withdraw, DenomOk, Administer;
  }

  /** An instruction that succeeds appends its leaf to its denomination's tree and nothing to any other. */
  lemma StepAppends(env: Program, w: World, ix: Instruction, d: nat)
    requires Inv(env, w) && Apply(env, w.pool, ix).Ok?
    ensures TreeLeaves(PoolSolvency.Step(env, w, ix), d) == TreeLeaves(w, d) + Added(ix, d)
  {
    hide Apply, LoggedLeaves, Added, Record, LeafOf;
    LeafTierIsLogged(env, w, ix);
    RecordAppends(w.logs, ix, d);
  }

  /** Which appends the poller gets to see does not matter to what the chain holds. */
  lemma {:induction false} OnChainIgnoresVisibility<T>(a: seq<Poller.Append<T>>, b: seq<Poller.Append<T>>, d: nat)
    requires |a| == |b| && forall i :: 0 <= i < |a| ==> a[i].leaf == b[i].leaf
    ensures Poller.OnChain(a, d) == Poller.OnChain(b, d)
  {
    if a != [] {
      OnChainIgnoresVisibility(a[..|a| - 1], b[..|b| - 1], d);
    }
  }

  lemma AppendsLast(calls: seq<Call>, d: nat)
    requires calls != []
    ensures Poller.OnChain(Appends(calls), d) ==
              Poller.OnChain(Appends(calls[..|calls| - 1]), d) + Added(calls[|calls| - 1].ix, d)
  {
    var init, last := calls[..|calls| - 1], calls[|calls| - 1];
    if LeafOf(last.ix).Some? {
      var append := Poller.Append(LeafOf(last.ix).value, last.topLevel);
      assert Appends(calls) == Appends(init) + [append];
      assert (Appends(init) + [append])[..|Appends(init)|] == Appends(init);
    } else {
      assert Appends(calls) == Appends(init);
    }
  }

  lemma ExecuteLast(env: Program, w: World, calls: seq<Call>)
    requires Deployable(env) && calls != [] && ExecuteCalls(env, w, calls).Some?
    ensures var before, ix := ExecuteCalls(env, w, calls[..|calls| - 1]), calls[|calls| - 1].ix;
            && before.Some? && Apply(env, before.value.pool, ix).Ok?
            && ExecuteCalls(env, w, calls).value == PoolSolvency.Step(env, before.value, ix)
  {
    hide Apply, PoolSolvency.Step;
  }

  lemma {:induction false} ExecuteAppends(env: Program, w: World, calls: seq<Call>, d: nat)
    requires Inv(env, w) && ExecuteCalls(env, w, calls).Some?
    ensures TreeLeaves(ExecuteCalls(env, w, calls).value, d) == TreeLeaves(w, d) + Poller.OnChain(Appends(calls), d)
  {
    if calls == [] {
      assert TreeLeaves(w, d) + [] == TreeLeaves(w, d);
    } else {
      var init, ix := calls[..|calls| - 1], calls[|calls| - 1].ix;
      InvDeployable(env, w);
      ExecuteLast(env, w, calls);
      hide *;
      ExecuteKeepsInv(env, w, init);
      ExecuteAppends(env, w, init, d);
      StepAppends(env, ExecuteCalls(env, w, init).value, ix, d);
      AppendsLast(calls, d);
      Associates(TreeLeaves(w, d), Poller.OnChain(Appends(init), d), Added(ix, d));
    }
  }

  lemma Associates<T>(a: seq<T>, b: seq<T>, c: seq<T>)
    ensures a + b + c == a + (b + c)
  {
  }

  lemma InvDeployable(env: Program, w: World)
    requires Inv(env, w)
    ensures Deployable(env)
  {
  }

  lemma TxAppendsLeaves(env: Program, w: World, tx: ChainTx, d: nat)
    requires Inv(env, w)
    ensures TreeLeaves(ApplyTx(env, w, tx), d) ==
              TreeLeaves(w, d) + Poller.OnChain(Poller.TxAppends(Observe(env, w, tx)), d)
  {
    var seen := Observe(env, w, tx);
    if ExecuteCalls(env, w, tx.calls).Some? {
      ExecuteAppends(env, w, tx.calls, d);
      OnChainIgnoresVisibility(Poller.TxAppends(seen), Appends(tx.calls), d);
    }
  }

  /** Over every history, the leaves the poller could read are the leaves of the pool's trees. */
  lemma {:induction false} HistoryHasTreeLeaves(env: Program, w: World, txs: seq<ChainTx>, d: nat)
    requires Inv(env, w) && w.logs == map[]
    ensures ProofService.ChainLeaves(History(env, w, txs), d) == TreeLeaves(RunTxs(env, w, txs), d)
  {
    if txs != [] {
      var init, tx := txs[..|txs| - 1], txs[|txs| - 1];
      var before, seen := RunTxs(env, w, init), History(env, w, init);
      HistoryHasTreeLeaves(env, w, init, d);
      RunTxsKeepsInv(env, w, init);
      TxAppendsLeaves(env, before, tx, d);
      var last := Observe(env, before, tx);
      assert (seen + [last])[..|seen|] == seen;
      Poller.OnChainConcat(Poller.ChainAppends(seen), Poller.TxAppends(last), d);
    }
  }

  // ---------------------------------------------------------------------------
  // What the poller misses
  // ---------------------------------------------------------------------------

  /** Every call that adds a leaf to the denomination is listed with its transaction, whose body the node can return. */
  ghost predicate CallsListed(tx: ChainTx, d: nat) {
    forall j {:trigger tx.calls[j]} :: 0 <= j < |tx.calls| && Added(tx.calls[j].ix, d) != [] ==>
        tx.calls[j].topLevel && tx.retrievable
  }

  lemma AllSeenConcat<T>(a: seq<Poller.Append<T>>, b: seq<Poller.Append<T>>, d: nat)
    ensures Poller.AllSeen(a + b, d) <==> Poller.AllSeen(a, d) && Poller.AllSeen(b, d)
  {
    var both := a + b;
    if Poller.AllSeen(both, d) {
      forall i | 0 <= i < |a| && a[i].leaf.denomId == d ensures a[i].topLevel {
        assert both[i] == a[i];
      }
      forall i | 0 <= i < |b| && b[i].leaf.denomId == d ensures b[i].topLevel {
        assert both[|a| + i] == b[i];
      }
    }
  }

  /** The appends of these calls, each marked with whether the poller gets to see it. */
  function Marked(appends: seq<Poller.Append<Field>>, retrievable: bool): seq<Poller.Append<Field>> {
    seq(|appends|, i requires 0 <= i < |appends| => Poller.Append(appends[i].leaf, appends[i].topLevel && retrievable))
  }

  lemma {:induction false} CallsSeenExactlyWhen(calls: seq<Call>, retrievable: bool, d: nat)
    ensures Poller.AllSeen(Marked(Appends(calls), retrievable), d) <==>
              forall j {:trigger calls[j]} :: 0 <= j < |calls| && Added(calls[j].ix, d) != [] ==>
                  calls[j].topLevel && retrievable
  {
    if calls != [] {
      var init, last := calls[..|calls| - 1], calls[|calls| - 1];
      CallsSeenExactlyWhen(init, retrievable, d);
      assert forall j {:trigger calls[j]} :: 0 <= j < |init| ==> calls[j] == init[j];
      if LeafOf(last.ix).Some? {
        var append := Poller.Append(LeafOf(last.ix).value, last.topLevel);
        assert Appends(calls) == Appends(init) + [append];
        var before, one := Marked(Appends(init), retrievable), Marked([append], retrievable);
        assert Marked(Appends(calls), retrievable) == before + one;
        AllSeenConcat(before, one, d);
        assert one[0].leaf == append.leaf;
      } else {
        assert Appends(calls) == Appends(init);
      }
    }
  }

  lemma TxSeenExactlyWhen(env: Program, w: World, tx: ChainTx, d: nat)
    requires Deployable(env)
    ensures Poller.AllSeen(Poller.TxAppends(Observe(env, w, tx)), d) <==>
              ExecuteCalls(env, w, tx.calls).None? || CallsListed(tx, d)
  {
    CallsSeenExactlyWhen(tx.calls, tx.retrievable, d);
    if ExecuteCalls(env, w, tx.calls).Some? {
      assert Poller.TxAppends(Observe(env, w, tx)) == Marked(Appends(tx.calls), tx.retrievable);
    }
  }

  /** Transaction i failed, or all its calls that add a leaf are listed and retrievable. */
  ghost predicate TxListed(env: Program, w: World, txs: seq<ChainTx>, i: nat, d: nat)
    requires Deployable(env) && i < |txs|
  {
    ExecuteCalls(env, RunTxs(env, w, txs[..i]), txs[i].calls).None? || CallsListed(txs[i], d)
  }

  ghost predicate AllListed(env: Program, w: World, txs: seq<ChainTx>, d: nat)
    requires Deployable(env)
  {
    forall i: nat {:trigger TxListed(env, w, txs, i, d)} :: i < |txs| ==> TxListed(env, w, txs, i, d)
  }

  lemma ListedLast(env: Program, w: World, txs: seq<ChainTx>, d: nat)
    requires Deployable(env) && txs != []
    ensures AllListed(env, w, txs, d) <==>
              AllListed(env, w, txs[..|txs| - 1], d) && TxListed(env, w, txs, |txs| - 1, d)
  {
    var init := txs[..|txs| - 1];
    forall i: nat | i < |init| ensures TxListed(env, w, txs, i, d) <==> TxListed(env, w, init, i, d) {
      assert init[..i] == txs[..i] && init[i] == txs[i];
    }
    hide TxListed;
  }

  /** The poller sees every append to a denomination exactly when all calls that made one are listed and retrievable. */
  lemma {:induction false} AllSeenExactlyWhen(env: Program, w: World, txs: seq<ChainTx>, d: nat)
    requires Deployable(env)
    ensures Poller.AllSeen(Poller.ChainAppends(History(env, w, txs)), d) <==> AllListed(env, w, txs, d)
  {
    hide Poller.AllSeen, AllListed, CallsListed, ExecuteCalls, Observe, RunTxs, Poller.TxAppends;
    if txs == [] {
      NoneListed(env, w, d);
    } else {
      var init, tx := txs[..|txs| - 1], txs[|txs| - 1];
      var seen, last := History(env, w, init), Observe(env, RunTxs(env, w, init), tx);
      AllSeenExactlyWhen(env, w, init, d);
      ListedLast(env, w, txs, d);
      TxSeenExactlyWhen(env, RunTxs(env, w, init), tx, d);
      assert (seen + [last])[..|seen|] == seen;
      AllSeenConcat(Poller.ChainAppends(seen), Poller.TxAppends(last), d);
    }
  }

  lemma NoneListed(env: Program, w: World, d: nat)
    requires Deployable(env)
    ensures AllListed(env, w, [], d) && Poller.AllSeen<Field>([], d)
  {
  }

  // ---------------------------------------------------------------------------
  // The tree accounts along the way
  // ---------------------------------------------------------------------------

  /** What the poller decodes when it is shown this denomination's tree account in this state. */
  predicate ShowsTree(s: PoolState, row: Poller.TreeRow<Field>) {
    && row.denomId in s.trees
    && var t := s.trees[row.denomId];
       row.leafCount == t.nextLeafIndex && row.latestRoot == t.rootHistory[t.rootCursor]
  }

  lemma {:induction false} LeavesOnlyGrow(env: Program, w: World, txs: seq<ChainTx>, k: nat, d: nat)
    requires Inv(env, w) && k <= |txs|
    ensures TreeLeaves(RunTxs(env, w, txs[..k]), d) <= TreeLeaves(RunTxs(env, w, txs), d)
    decreases |txs|
  {
    if k == |txs| {
      assert txs[..k] == txs;
    } else {
      var init := txs[..|txs| - 1];
      LeavesOnlyGrow(env, w, init, k, d);
      assert init[..k] == txs[..k];
      RunTxsKeepsInv(env, w, init);
      TxAppendsLeaves(env, RunTxs(env, w, init), txs[|txs| - 1], d);
    }
  }

  lemma RepresentsLeaves(env: Program, w: World, d: nat)
    requires Inv(env, w) && d in w.pool.trees
    ensures var t, leaves := w.pool.trees[d], TreeLeaves(w, d);
            && t.nextLeafIndex == |leaves|
            && (leaves != [] ==> t.rootHistory[t.rootCursor] == Root(Poseidon(), env.depth, leaves))
  {
    assert d in w.logs && DenomOk(env, w.pool, d, w.logs[d]);
    CursorHoldsCurrentRoot(Poseidon(), w.pool.trees[d], TreeLeaves(w, d));
  }

  lemma PrefixRoot(depth: nat, leaves: seq<Field>, first: seq<Field>)
    requires first <= leaves
    ensures RootAt(Poseidon(), depth, leaves, |first|) == Root(Poseidon(), depth, first)
  {
    assert leaves[..|first|] == first;
  }

  /** A tree account shown at any point of the history carries a root of the chain's own leaves. */
  lemma ShownRootIsTrue(env: Program, w: World, txs: seq<ChainTx>, k: nat, row: Poller.TreeRow<Field>)
    requires Inv(env, w) && w.logs == map[] && k <= |txs|
    requires ShowsTree(RunTxs(env, w, txs[..k]).pool, row)
    ensures ProofService.TrueRow(Poseidon(), env.depth, History(env, w, txs), row)
  {
    var at, d := RunTxs(env, w, txs[..k]), row.denomId;
    RunTxsKeepsInv(env, w, txs[..k]);
    RepresentsLeaves(env, at, d);
    LeavesOnlyGrow(env, w, txs, k, d);
    HistoryHasTreeLeaves(env, w, txs, d);
    InvDeployable(env, w);
    PrefixRoot(env.depth, ProofService.ChainLeaves(History(env, w, txs), d), TreeLeaves(at, d));
    hide Inv, RunTxs, History, TreeLeaves, Root, RootAt, ProofService.ChainLeaves;
  }
}
