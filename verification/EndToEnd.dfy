/**
 From deposit to accepted withdrawal: the chain's transactions, the poller and the API that serve
 proofs from them, the circuit's path check, the root ring, and the wallet that pays, together.
 A coin of the wallet can be spent exactly when it is worth its full tier and its proof is recent.
 */
module EndToEnd {
  import opened Wrappers
  import opened MachineInts
  import opened MerkleSpec
  import opened IncrementalTree
  import opened FieldTerm
  import opened TokenLedger
  import opened Pagination
  import opened InclusionPath
  import Poller
  import opened ProofRoute
  import opened ProofService
  import opened Pool
  import PoolSolvency
  import PoolContracts
  import opened ChainTxs
  import NoteWallet

  type World = PoolSolvency.World

  // ---------------------------------------------------------------------------
  // A served proof against the chain's tree
  // ---------------------------------------------------------------------------

  /**
   A body that is a full rebuild on the first m leaves of the chain: the commitment folds along it
   to the root the chain recorded at m leaves, and the chain still accepts that root when fewer
   leaves than the ring length were appended since.
   */
  lemma ServedProofIsAccepted<T>(hs: Hasher<T>, t: TreeState<T>, leaves: seq<T>, d: nat, commitment: T, body: Body<T>)
    requires Represents(hs, t, leaves) && body.leafCount <= |leaves|
    requires Rebuilt(hs, |t.filledSubtree|, d, leaves[..body.leafCount], commitment, body)
    ensures var depth, m := |t.filledSubtree|, body.leafCount;
            && 1 <= m && body.leafIndex < m && leaves[body.leafIndex] == commitment
            && |body.proof.pathElements| == |body.proof.pathIndices| == depth
            && IsBits(body.proof.pathIndices) && BitsIndex(body.proof.pathIndices, 0) == body.leafIndex
            && Fold(hs, commitment, body.proof.pathElements, body.proof.pathIndices, depth) == body.proof.root
            && body.proof.root == RootAt(hs, depth, leaves, m)
            && (|leaves| - m < |t.rootHistory| && body.proof.root != hs.zero ==> IsKnownRoot(hs, t, body.proof.root))
  {
    var m := body.leafCount;
    ServedPathFolds(hs, |t.filledSubtree|, leaves[..m], body.leafIndex, body.proof);
    KnownRootWindow(hs, t, leaves, body.proof.root);
    if |leaves| - m < |t.rootHistory| {
      assert RecentSize(|leaves|, |t.rootHistory|, m);
    }
  }

  // ---------------------------------------------------------------------------
  // Spending a coin
  // ---------------------------------------------------------------------------

  /** A payment out of one coin: what the SDK is asked, and the randomness it draws for the change. */
  datatype Spending = Spending(
    coin: NoteWallet.Coin,
    payment: nat,
    recipient: Pubkey,
    mint: Pubkey,
    feeVault: Option<Pubkey>,
    slot: U64,
    newSecret: nat,
    newNullifier: nat
  )

  function CoinCommitment(c: NoteWallet.Coin): Field {
    Commitment(Num(c.secret), Num(c.nullifier), c.amount)
  }

  /** The witness and the public signals the SDK builds from a coin, at the coin's own amount, and a served proof. */
  function BuildSpend(env: Program, sp: Spending, body: Body<Field>): WithdrawArgs
    requires sp.payment <= sp.coin.amount
  {
    var c := sp.coin;
    var secrets := SpendWitness(Num(c.secret), Num(c.nullifier), Num(sp.newSecret), Num(sp.newNullifier),
                                body.proof.pathElements, body.proof.pathIndices);
    var hash := H1(Num(c.nullifier));
    var signals := PublicSignals(Num(c.amount), body.proof.root, hash, PubkeyField(env, sp.recipient), Num(sp.payment),
                                 Commitment(Num(sp.newSecret), Num(sp.newNullifier), c.amount - sp.payment));
    WithdrawArgs(c.denomId, hash, secrets, signals, AtaPda(sp.recipient, sp.mint), sp.feeVault, sp.slot)
  }

  /** The accounts and the configuration let a withdrawal through, and the coin is not spent yet. */
  ghost predicate Withdrawable(env: Program, s: PoolState, sp: Spending) {
    && sp.coin.denomId in s.denominations && sp.mint == s.denominations[sp.coin.denomId].mint
    && !s.config.paused && s.config.verifyingKeyHash == env.embeddedVkHash
    && (sp.coin.denomId, H1(Num(sp.coin.nullifier))) !in s.nullifiers
    && AtaPda(sp.recipient, sp.mint) in s.accounts
    && s.accounts[AtaPda(sp.recipient, sp.mint)].owner == sp.recipient
    && s.accounts[AtaPda(sp.recipient, sp.mint)].mint == sp.mint
    && (sp.feeVault.Some? ==> sp.feeVault.value in s.accounts && s.accounts[sp.feeVault.value].mint == sp.mint)
  }

  /** What the SDK builds from a path that folds to its root satisfies the circuit, whatever the coin is worth. */
  lemma BuiltSpendSatisfiesCircuit(env: Program, sp: Spending, body: Body<Field>)
    requires 0 < sp.payment <= sp.coin.amount < U64_LIMIT
    requires |body.proof.pathElements| == |body.proof.pathIndices| == env.depth && IsBits(body.proof.pathIndices)
    requires Fold(Poseidon(), CoinCommitment(sp.coin), body.proof.pathElements, body.proof.pathIndices, env.depth)
               == body.proof.root
    ensures SpendRelation(env.depth, BuildSpend(env, sp, body).signals, BuildSpend(env, sp, body).proof)
  {
  }

  /** Then, for a coin worth its full tier, only the age of the root can make the program's checks fail. */
  lemma BuiltSpendChecks(env: Program, s: PoolState, sp: Spending, body: Body<Field>)
    requires Withdrawable(env, s, sp) && 0 < sp.payment <= sp.coin.amount
    requires var d := sp.coin.denomId;
             d in s.trees && PoolVaultPda(d) in s.accounts && s.denominations[d].vault == PoolVaultPda(d)
    requires sp.coin.amount == s.denominations[sp.coin.denomId].amountMicroUsdc
    requires SpendRelation(env.depth, BuildSpend(env, sp, body).signals, BuildSpend(env, sp, body).proof)
    ensures var a := BuildSpend(env, sp, body);
            && WithdrawAccountError(s, a).None?
            && WithdrawCheckError(env, s, a) ==
                 if IsKnownRoot(Poseidon(), s.trees[a.denomId], body.proof.root) then None else Some(StaleRoot)
  {
  }

  /** The served root has not been pushed out of the ring, except by zero leaves, which do not change it. */
  ghost predicate RootStillKnown(ringLen: nat, leaves: seq<Field>, m: nat) {
    forall i {:trigger leaves[i]} :: m <= i <= |leaves| - ringLen ==> 0 <= i < |leaves| && leaves[i] == ZERO
  }

  /** No fee is charged, or its arithmetic fits and the payment names the configured vault. */
  predicate FeeIsPayable(config: PoolConfig, sp: Spending) {
    config.feeVault == DefaultKey ||
    (sp.payment * config.feeBps < U64_LIMIT && sp.feeVault == Some(config.feeVault))
  }

  /** Exactly when a coin can be spent with a proof served at `body.leafCount` leaves. */
  ghost predicate Spendable(env: Program, w: World, sp: Spending, body: Body<Field>)
    requires sp.payment <= sp.coin.amount && sp.coin.denomId in w.pool.denominations
  {
    var leaves := TreeLeaves(w, sp.coin.denomId);
    && sp.coin.amount == w.pool.denominations[sp.coin.denomId].amountMicroUsdc
    && RootStillKnown(env.ringLen, leaves, body.leafCount)
    && |leaves| < Pow2(env.depth)
    && FeeIsPayable(w.pool.config, sp)
  }

  /** The body is a full rebuild for this coin on the first leaves of its tree. */
  ghost predicate ServedFor(env: Program, w: World, c: NoteWallet.Coin, body: Body<Field>) {
    var leaves := TreeLeaves(w, c.denomId);
    && body.leafCount <= |leaves|
    && Rebuilt(Poseidon(), env.depth, c.denomId, leaves[..body.leafCount], CoinCommitment(c), body)
  }

  /** The program refuses a coin that is not worth its full tier, whatever is served for it. */
  lemma OnlyFullTierCoins(env: Program, s: PoolState, sp: Spending, body: Body<Field>)
    requires sp.payment <= sp.coin.amount && Withdraw(env, s, BuildSpend(env, sp, body)).Ok?
    ensures sp.coin.denomId in s.denominations && sp.coin.amount == s.denominations[sp.coin.denomId].amountMicroUsdc
  {
    PoolSolvency.WithdrawGuards(env, s, BuildSpend(env, sp, body));
  }

  lemma TierFacts(env: Program, w: World, d: nat)
    requires PoolSolvency.Inv(env, w) && d in w.pool.denominations
    ensures d in w.logs && d in w.pool.trees
    ensures PoolVaultPda(d) in w.pool.accounts && w.pool.denominations[d].vault == PoolVaultPda(d)
    ensures var t := w.pool.trees[d];
            && Represents(Poseidon(), t, TreeLeaves(w, d))
            && |t.filledSubtree| == env.depth && |t.rootHistory| == env.ringLen
  {
    assert PoolSolvency.DenomOk(env, w.pool, d, w.logs[d]);
  }

  lemma CoinChecks(env: Program, w: World, sp: Spending, body: Body<Field>)
    requires PoolSolvency.Inv(env, w) && Withdrawable(env, w.pool, sp) && 0 < sp.payment <= sp.coin.amount
    requires ServedFor(env, w, sp.coin, body)
    requires sp.coin.amount == w.pool.denominations[sp.coin.denomId].amountMicroUsdc
    ensures PoolSolvency.ChecksPass(env, w.pool, BuildSpend(env, sp, body)) <==>
              RootStillKnown(env.ringLen, TreeLeaves(w, sp.coin.denomId), body.leafCount)
    ensures WithdrawAccountError(w.pool, BuildSpend(env, sp, body)).None?
  {
    var d, leaves := sp.coin.denomId, TreeLeaves(w, sp.coin.denomId);
    TierFacts(env, w, d);
    var t := w.pool.trees[d];
    hide PoolSolvency.Inv, WithdrawAccountError, WithdrawCheckError, Fold, SpendRelation, Represents, TreeLeaves,
        Withdrawable;
    ServedProofIsAccepted(Poseidon(), t, leaves, d, CoinCommitment(sp.coin), body);
    RootLifetime(t, leaves, body.leafCount);
    BuiltSpendSatisfiesCircuit(env, sp, body);
    BuiltSpendChecks(env, w.pool, sp, body);
  }

  /**
   In every reachable state of the pool, an unspent coin for which a proof was served at m leaves
   is accepted exactly when it is worth its full tier, the served root has not been pushed out of
   the ring, the tree has room for the change, and the fee can be paid.
   */
  lemma CoinSpendsExactlyWhen(env: Program, w: World, sp: Spending, body: Body<Field>)
    requires PoolSolvency.Inv(env, w) && Withdrawable(env, w.pool, sp) && 0 < sp.payment <= sp.coin.amount
    requires ServedFor(env, w, sp.coin, body)
    ensures Withdraw(env, w.pool, BuildSpend(env, sp, body)).Ok? <==> Spendable(env, w, sp, body)
  {
    var a := BuildSpend(env, sp, body);
    if sp.coin.amount == w.pool.denominations[sp.coin.denomId].amountMicroUsdc {
      CoinChecks(env, w, sp, body);
      if PoolSolvency.ChecksPass(env, w.pool, a) {
        PoolSolvency.VerifiedWithdrawSucceeds(env, w, a);
        assert |PoolSolvency.Values(w.logs[a.denomId].origins)| == |w.logs[a.denomId].origins|;
      } else {
        FailedChecksRefuse(env, w.pool, a);
      }
    } else if Withdraw(env, w.pool, a).Ok? {
      OnlyFullTierCoins(env, w.pool, sp, body);
    }
  }

  /** The coin that holds what a payment leaves of its coin. */
  function ChangeCoin(sp: Spending): NoteWallet.Coin
    requires sp.payment <= sp.coin.amount
  {
    NoteWallet.Coin(sp.newSecret, sp.newNullifier, sp.coin.amount - sp.payment, sp.coin.denomId)
  }

  /**
   What an accepted payment does: exactly the payment leaves the vault for the recipient's account,
   less the fee; the coin's nullifier is spent; and the new leaf is the commitment of the change coin,
   the very coin the wallet puts into its note when there is change.
   */
  lemma SpendPaysAndLeavesChange(env: Program, w: World, sp: Spending, body: Body<Field>)
    requires PoolSolvency.Inv(env, w) && sp.payment <= sp.coin.amount
    requires Withdraw(env, w.pool, BuildSpend(env, sp, body)).Ok?
    ensures var s, s', d := w.pool, Withdraw(env, w.pool, BuildSpend(env, sp, body)).value, sp.coin.denomId;
            var ata := AtaPda(sp.recipient, sp.mint);
            && ata in s.accounts && s.accounts[ata].owner == sp.recipient && s.accounts[ata].mint == sp.mint
            && PaidOut(s.config, s.accounts, s'.accounts, PoolVaultPda(d), ata, sp.payment)
            && s'.nullifiers == s.nullifiers[(d, H1(Num(sp.coin.nullifier))) := sp.slot]
            && d in s'.trees
            && Represents(Poseidon(), s'.trees[d], TreeLeaves(w, d) + [CoinCommitment(ChangeCoin(sp))])
  {
    hide Withdraw, PoolSolvency.Inv, PaidOut, Represents, PubkeyField, SpendRelation, PoolContracts.OnlyThisTier,
         PoolContracts.RecentRoot, PoolSolvency.FeePathOpen, PoolSolvency.Spent;
    var a := BuildSpend(env, sp, body);
    PoolContracts.WithdrawsExactlyWhen(env, w, a);
    PoolSolvency.WithdrawGuards(env, w.pool, a);
  }

  /** With change left, the note a payment leaves ends in that coin. */
  lemma ChangeCoinIsKept(note: NoteWallet.Note, sp: Spending, payEnv: NoteWallet.PayEnv)
    requires sp.payment < sp.coin.amount
    requires payEnv.newSecret == sp.newSecret && payEnv.newNullifier == sp.newNullifier
    ensures var after := NoteWallet.AfterPay(note, sp.coin, sp.payment, payEnv);
            after != [] && after[|after| - 1] == ChangeCoin(sp)
  {
  }

  /** What the SDK sends, no fee vault at all, fails once the pool has one. */
  lemma NoFeeVaultIsRefused(env: Program, s: PoolState, sp: Spending, body: Body<Field>)
    requires sp.payment <= sp.coin.amount && sp.feeVault.None? && s.config.feeVault != DefaultKey
    ensures Withdraw(env, s, BuildSpend(env, sp, body)).Err?
  {
    var a := BuildSpend(env, sp, body);
    if Withdraw(env, s, a).Ok? {
      PoolSolvency.WithdrawGuards(env, s, a);
      assert !PoolSolvency.FeePathOpen(s.config, a);
    }
  }

  lemma FailedChecksRefuse(env: Program, s: PoolState, a: WithdrawArgs)
    requires !PoolSolvency.ChecksPass(env, s, a)
    ensures Withdraw(env, s, a).Err?
  {
  }

  // ---------------------------------------------------------------------------
  // The whole way
  // ---------------------------------------------------------------------------

  /** The poller was shown tree accounts as they stood after some of the transactions. */
  ghost predicate ShownTrees(env: Program, w0: World, txs: seq<ChainTx>, script: seq<Event<Field>>)
    requires Deployable(env)
  {
    forall i, row {:trigger row in script[i].attempt.rows} ::
      0 <= i < |script| && script[i].Live? && row in script[i].attempt.rows ==>
        exists k {:trigger txs[..k]} :: 0 <= k <= |txs| && ShowsTree(RunTxs(env, w0, txs[..k]).pool, row)
  }

  lemma TreesShowTrueRoots(env: Program, w0: World, txs: seq<ChainTx>, script: seq<Event<Field>>)
    requires PoolSolvency.Inv(env, w0) && w0.logs == map[] && ShownTrees(env, w0, txs, script)
    ensures ShownTrueRoots(Poseidon(), env.depth, History(env, w0, txs), script)
  {
    forall i, row | 0 <= i < |script| && script[i].Live? && row in script[i].attempt.rows
      ensures TrueRow(Poseidon(), env.depth, History(env, w0, txs), row)
    {
      var k :| 0 <= k <= |txs| && ShowsTree(RunTxs(env, w0, txs[..k]).pool, row);
      ShownRootIsTrue(env, w0, txs, k, row);
    }
  }

  /** Whoever asked, a body served for a coin's commitment spends the coin exactly when it is spendable. */
  ghost predicate ServesSpending(env: Program, w: World, reply: Reply<Field>) {
    BodyOf(reply.response).Some? ==>
      var body := BodyOf(reply.response).value;
      forall sp: Spending {:trigger Spendable(env, w, sp, body)} ::
        && sp.coin.denomId == reply.denomId && CoinCommitment(sp.coin) == reply.commitment
        && Withdrawable(env, w.pool, sp) && 0 < sp.payment <= sp.coin.amount ==>
          (Withdraw(env, w.pool, BuildSpend(env, sp, body)).Ok? <==> Spendable(env, w, sp, body))
  }

  /** A body over the whole tree: nothing but the tier, room in the tree and the fee path is in the coin's way. */
  ghost predicate ServesFresh(env: Program, w: World, reply: Reply<Field>) {
    var d, leaves := reply.denomId, TreeLeaves(w, reply.denomId);
    && BodyOf(reply.response).Some? && BodyOf(reply.response).value.leafCount == |leaves|
    && var body := BodyOf(reply.response).value;
       forall sp: Spending {:trigger BuildSpend(env, sp, body)} ::
         && sp.coin.denomId == d && CoinCommitment(sp.coin) == reply.commitment
         && Withdrawable(env, w.pool, sp) && 0 < sp.payment <= sp.coin.amount ==>
           (Withdraw(env, w.pool, BuildSpend(env, sp, body)).Ok? <==>
              && sp.coin.amount == w.pool.denominations[d].amountMicroUsdc
              && |leaves| < Pow2(env.depth) && FeeIsPayable(w.pool.config, sp))
  }

  lemma ReplyServesCoin(env: Program, w0: World, txs: seq<ChainTx>, script: seq<Event<Field>>, reply: Reply<Field>,
                        c: NoteWallet.Coin)
    requires PoolSolvency.Inv(env, w0) && w0.logs == map[]
    requires RightReply(Poseidon(), env.depth, History(env, w0, txs), script, reply)
    requires ShowsLeaves(History(env, w0, txs), script, reply) && BodyOf(reply.response).Some?
    requires c.denomId == reply.denomId && CoinCommitment(c) == reply.commitment
    ensures ServedFor(env, RunTxs(env, w0, txs), c, BodyOf(reply.response).value)
  {
    HistoryHasTreeLeaves(env, w0, txs, reply.denomId);
    hide RunTxs, History, PoolSolvency.Inv, TreeLeaves, ChainLeaves, RightReply, ShowsLeaves;
    BodyIsTheChains(Poseidon(), env.depth, History(env, w0, txs), script, reply);
  }

  lemma RightReplyServes(env: Program, w0: World, txs: seq<ChainTx>, script: seq<Event<Field>>, reply: Reply<Field>)
    requires PoolSolvency.Inv(env, w0) && w0.logs == map[]
    requires RightReply(Poseidon(), env.depth, History(env, w0, txs), script, reply)
    requires ShowsLeaves(History(env, w0, txs), script, reply)
    ensures ServesSpending(env, RunTxs(env, w0, txs), reply)
  {
    var w := RunTxs(env, w0, txs);
    RunTxsKeepsInv(env, w0, txs);
    hide PoolSolvency.Inv, RightReply, ShowsLeaves, RunTxs, History, BuildSpend, ServedFor;
    if BodyOf(reply.response).Some? {
      var body := BodyOf(reply.response).value;
      forall sp: Spending {:trigger Spendable(env, w, sp, body)}
        | sp.coin.denomId == reply.denomId && CoinCommitment(sp.coin) == reply.commitment
          && Withdrawable(env, w.pool, sp) && 0 < sp.payment <= sp.coin.amount
        ensures sp.coin.denomId in w.pool.denominations
        ensures Withdraw(env, w.pool, BuildSpend(env, sp, body)).Ok? <==> Spendable(env, w, sp, body)
      {
        ReplyServesCoin(env, w0, txs, script, reply, sp.coin);
        CoinSpendsExactlyWhen(env, w, sp, body);
      }
    }
  }

  lemma FullBodyServesFresh(env: Program, w: World, reply: Reply<Field>)
    requires Deployable(env) && ServesSpending(env, w, reply) && BodyOf(reply.response).Some?
    requires BodyOf(reply.response).value.leafCount == |TreeLeaves(w, reply.denomId)|
    ensures ServesFresh(env, w, reply)
  {
    var body := BodyOf(reply.response).value;
    hide TreeLeaves, Withdraw, BuildSpend, FeeIsPayable, Pow2;
    forall sp: Spending {:trigger BuildSpend(env, sp, body)}
      | sp.coin.denomId == reply.denomId && CoinCommitment(sp.coin) == reply.commitment
        && Withdrawable(env, w.pool, sp) && 0 < sp.payment <= sp.coin.amount
      ensures sp.coin.denomId in w.pool.denominations
      ensures Withdraw(env, w.pool, BuildSpend(env, sp, body)).Ok? <==>
        && sp.coin.amount == w.pool.denominations[reply.denomId].amountMicroUsdc
        && |TreeLeaves(w, reply.denomId)| < Pow2(env.depth)
        && FeeIsPayable(w.pool.config, sp)
    {
      RecentRootIsKnown(env.ringLen, TreeLeaves(w, reply.denomId), body.leafCount);
      assert Withdraw(env, w.pool, BuildSpend(env, sp, body)).Ok? <==> Spendable(env, w, sp, body);
    }
  }

  /** A request of the script for a leaf of the chain, made when the poller had caught up and granted its queries. */
  ghost predicate AsksWhenCaughtUp(env: Program, w0: World, txs: seq<ChainTx>, script: seq<Event<Field>>, a: nat)
    requires Deployable(env)
  {
    && a < |script| && script[a].Arrive? && Granted(script, a, |script|) == 3
    && CaughtUp(History(env, w0, txs), script, a) && FullyIndexable(History(env, w0, txs), script[a].denomId)
    && script[a].commitment in TreeLeaves(RunTxs(env, w0, txs), script[a].denomId)
  }

  ghost predicate GetsFresh(env: Program, w: World, replies: seq<Reply<Field>>, a: nat) {
    exists k {:trigger replies[k]} :: 0 <= k < |replies| && replies[k].request == a && ServesFresh(env, w, replies[k])
  }

  lemma CaughtUpGetsFresh(env: Program, w0: World, txs: seq<ChainTx>, script: seq<Event<Field>>,
                          replies: seq<Reply<Field>>, a: nat)
    requires PoolSolvency.Inv(env, w0) && w0.logs == map[]
    requires ShownTrueRoots(Poseidon(), env.depth, History(env, w0, txs), script)
    requires AllRight(Poseidon(), env.depth, History(env, w0, txs), script, replies) && AllAnswered(script, replies)
    requires AsksWhenCaughtUp(env, w0, txs, script, a)
    ensures GetsFresh(env, RunTxs(env, w0, txs), replies, a)
  {
    assert Replied(replies, a);
    var k :| 0 <= k < |replies| && replies[k].request == a;
    assert RightReply(Poseidon(), env.depth, History(env, w0, txs), script, replies[k]);
    HistoryHasTreeLeaves(env, w0, txs, script[a].denomId);
    hide PoolSolvency.Inv, History, RunTxs, FullyIndexable, CaughtUp, TreeLeaves, ChainLeaves, ShownTrueRoots, Granted,
         Rebuilt, RootAgrees, Queries, RowsBefore, ServesSpending, ServesFresh, AllRight, AllAnswered;
    CaughtUpRows(History(env, w0, txs), script, a, replies[k].shows, replies[k].denomId);
    CaughtUpIsServed(Poseidon(), env.depth, History(env, w0, txs), script, replies[k]);
    RightReplyServes(env, w0, txs, script, replies[k]);
    FullBodyServesFresh(env, RunTxs(env, w0, txs), replies[k]);
  }

  /**
   From genesis to an accepted withdrawal.  Take any chain of transactions from a new pool, any
   script of poller lives, crashes, restarts and requests to the API, starting from an empty
   database.  Whatever body the API serves for a coin's commitment from rows that are the chain's
   first leaves, a withdrawal built from it by the coin's owner after all these transactions
   succeeds exactly when the coin is worth its full tier, the served root is still in the ring, the
   tree has room and the fee can be paid.  The rows are the chain's leaves wherever the poller could
   index all that it had been shown (`ProofService.AnswersAreTheChains`).  And a body is served, over
   all leaves, to whoever asks for a leaf of the chain after the poller has caught up.
   */
  method DepositToWithdraw(env: Program, admin: Pubkey, feeBps: U16, accounts: Ledger, txs: seq<ChainTx>,
                           script: seq<Event<Field>>)
    returns (replies: seq<Reply<Field>>)
    requires Deployable(env) && InitializePool(admin, feeBps, env.embeddedVkHash, accounts).Ok?
    requires var w0 := PoolSolvency.Genesis(admin, feeBps, env.embeddedVkHash, accounts);
             DistinctSignatures(txs) && ScriptOk(script, |txs|) && ShownTrees(env, w0, txs, script)
    ensures var w0 := PoolSolvency.Genesis(admin, feeBps, env.embeddedVkHash, accounts);
            && (forall i {:trigger replies[i]} ::
                  0 <= i < |replies| && ShowsLeaves(History(env, w0, txs), script, replies[i]) ==>
                    && (BodyOf(replies[i].response).Some? || replies[i].response.CommitmentNotFound?)
                    && ServesSpending(env, RunTxs(env, w0, txs), replies[i]))
            && (forall a: nat {:trigger AsksWhenCaughtUp(env, w0, txs, script, a)} ::
                  AsksWhenCaughtUp(env, w0, txs, script, a) ==>
                    GetsFresh(env, RunTxs(env, w0, txs), replies, a))
    ensures AllAnswered(script, replies)
  {
    var w0 := PoolSolvency.Genesis(admin, feeBps, env.embeddedVkHash, accounts);
    var history := History(env, w0, txs);
    GenesisInv(env, admin, feeBps, accounts);
    hide PoolSolvency.Inv, PoolSolvency.Genesis, ScriptOk, ShownTrees, ShownTrueRoots, History, RunTxs, FullyIndexable,
        Distinct, Poller.Signatures, ServesSpending, RightReply, AllAnswered, AllRight, CacheIsUsed, AsksWhenCaughtUp,
        GetsFresh, ShowsLeaves;
    TreesShowTrueRoots(env, w0, txs, script);
    HistoryIsDistinct(env, w0, txs);
    replies := RunService(Poseidon(), env.depth, history, script);
    forall i {:trigger replies[i]} | 0 <= i < |replies| && ShowsLeaves(history, script, replies[i])
      ensures BodyOf(replies[i].response).Some? || replies[i].response.CommitmentNotFound?
      ensures ServesSpending(env, RunTxs(env, w0, txs), replies[i])
    {
      IsRight(Poseidon(), env.depth, history, script, replies, i);
      NoFalseAlarm(Poseidon(), env.depth, history, script, replies[i]);
      RightReplyServes(env, w0, txs, script, replies[i]);
    }
    forall a: nat {:trigger AsksWhenCaughtUp(env, w0, txs, script, a)} | AsksWhenCaughtUp(env, w0, txs, script, a)
      ensures GetsFresh(env, RunTxs(env, w0, txs), replies, a)
    {
      CaughtUpGetsFresh(env, w0, txs, script, replies, a);
    }
  }

  lemma IsRight<T>(hs: Hasher<T>, depth: nat, txs: seq<Poller.Tx<T>>, script: seq<Event<T>>, replies: seq<Reply<T>>,
                   i: nat)
    requires AllRight(hs, depth, txs, script, replies) && i < |replies|
    ensures RightReply(hs, depth, txs, script, replies[i]) && replies[i].shows <= |script|
  {
    assert RightReply(hs, depth, txs, script, replies[i]);
  }

  lemma GenesisInv(env: Program, admin: Pubkey, feeBps: U16, accounts: Ledger)
    requires Deployable(env) && InitializePool(admin, feeBps, env.embeddedVkHash, accounts).Ok?
    ensures PoolSolvency.Inv(env, PoolSolvency.Genesis(admin, feeBps, env.embeddedVkHash, accounts))
    ensures PoolSolvency.Genesis(admin, feeBps, env.embeddedVkHash, accounts).logs == map[]
  {
  }

  lemma DeployedCapacity()
    ensures Pow2(MERKLE_DEPTH) == 1_048_576
  {
    assert Pow2(10) == 1024;
  }

  lemma RecentRootIsKnown(ringLen: nat, leaves: seq<Field>, m: nat)
    requires |leaves| - m < ringLen
    ensures RootStillKnown(ringLen, leaves, m)
  {
  }

  lemma NoFeeVaultIsOpen(config: PoolConfig, sp: Spending)
    requires config.feeVault == DefaultKey
    ensures FeeIsPayable(config, sp)
  {
  }

  /**
   The deployed pool, a tree of depth 20 and a window of 30 roots: a full-tier coin is accepted
   with a proof served fewer than 30 leaves ago while the tree has room and no fee vault is set.
   */
  lemma ThirtyRootWindow(env: Program, w0: World, txs: seq<ChainTx>, script: seq<Event<Field>>, reply: Reply<Field>,
                         sp: Spending)
    requires env.depth == MERKLE_DEPTH && env.ringLen == ROOT_HISTORY_LEN
    requires PoolSolvency.Inv(env, w0) && w0.logs == map[]
    requires RightReply(Poseidon(), env.depth, History(env, w0, txs), script, reply) && BodyOf(reply.response).Some?
    requires ShowsLeaves(History(env, w0, txs), script, reply)
    requires sp.coin.denomId == reply.denomId && CoinCommitment(sp.coin) == reply.commitment
    requires Withdrawable(env, RunTxs(env, w0, txs).pool, sp) && 0 < sp.payment <= sp.coin.amount
    requires var w, d := RunTxs(env, w0, txs), sp.coin.denomId;
             && sp.coin.amount == w.pool.denominations[d].amountMicroUsdc && w.pool.config.feeVault == DefaultKey
             && |TreeLeaves(w, d)| - BodyOf(reply.response).value.leafCount < 30 && |TreeLeaves(w, d)| < 1_048_576
    ensures Withdraw(env, RunTxs(env, w0, txs).pool, BuildSpend(env, sp, BodyOf(reply.response).value)).Ok?
  {
    var w, body := RunTxs(env, w0, txs), BodyOf(reply.response).value;
    RunTxsKeepsInv(env, w0, txs);
    ReplyServesCoin(env, w0, txs, script, reply, sp.coin);
    hide PoolSolvency.Inv, RunTxs, History, TreeLeaves, RightReply, ShowsLeaves, ServedFor, BodyOf, CoinCommitment;
    WindowIsThirty(env, w, sp, body);
  }

  lemma WindowIsThirty(env: Program, w: World, sp: Spending, body: Body<Field>)
    requires env.depth == MERKLE_DEPTH && env.ringLen == ROOT_HISTORY_LEN
    requires PoolSolvency.Inv(env, w) && Withdrawable(env, w.pool, sp) && 0 < sp.payment <= sp.coin.amount
    requires ServedFor(env, w, sp.coin, body) && w.pool.config.feeVault == DefaultKey
    requires sp.coin.amount == w.pool.denominations[sp.coin.denomId].amountMicroUsdc
    requires |TreeLeaves(w, sp.coin.denomId)| - body.leafCount < 30 && |TreeLeaves(w, sp.coin.denomId)| < 1_048_576
    ensures Withdraw(env, w.pool, BuildSpend(env, sp, body)).Ok?
  {
    hide PoolSolvency.Inv, TreeLeaves, Withdraw, ServedFor, RootStillKnown, FeeIsPayable, BuildSpend, Pow2,
         Withdrawable;
    DeployedCapacity();
    RecentRootIsKnown(env.ringLen, TreeLeaves(w, sp.coin.denomId), body.leafCount);
    NoFeeVaultIsOpen(w.pool.config, sp);
    CoinSpendsExactlyWhen(env, w, sp, body);
  }

  // ---------------------------------------------------------------------------
  // The wallet on the chain
  // ---------------------------------------------------------------------------

  function TiersOf(s: PoolState): NoteWallet.Tiers {
    map d | d in s.denominations :: s.denominations[d].amountMicroUsdc
  }

  /** What a payment asks for besides the coin it is made from. */
  datatype Order = Order(payment: nat, recipient: Pubkey, mint: Pubkey, feeVault: Option<Pubkey>, slot: U64,
                         newSecret: nat, newNullifier: nat)

  function SpendingOf(c: NoteWallet.Coin, o: Order): Spending {
    Spending(c, o.payment, o.recipient, o.mint, o.feeVault, o.slot, o.newSecret, o.newNullifier)
  }

  /** What a payment meets when its withdrawal reaches the pool in this state: `served` is what the API answered. */
  function ChainEnv(env: Program, s: PoolState, served: NoteWallet.Coin -> Option<Body<Field>>,
                    o: Order): NoteWallet.PayEnv
  {
    NoteWallet.PayEnv(
      (c: NoteWallet.Coin) =>
        && o.payment <= c.amount && served(c).Some?
        && Withdraw(env, s, BuildSpend(env, SpendingOf(c, o), served(c).value)).Ok?,
      o.newSecret, o.newNullifier)
  }

  /** The rule the wallet's runs assume is the program's: only full-tier coins go through. */
  lemma ProgramFollowsRule(env: Program, s: PoolState, served: NoteWallet.Coin -> Option<Body<Field>>, o: Order)
    ensures NoteWallet.ChainRule(TiersOf(s), ChainEnv(env, s, served, o))
  {
    var payEnv := ChainEnv(env, s, served, o);
    forall c | payEnv.goesThrough(c) ensures NoteWallet.FullTier(TiersOf(s), c) {
      OnlyFullTierCoins(env, s, SpendingOf(c, o), served(c).value);
    }
  }

  /**
   A wallet's payment is accepted exactly when the coin it picks, the smallest that covers the
   payment, is worth its full tier and its proof, the tree and the fee are in order.  That another
   coin of the note would do is no help.
   */
  lemma PaymentAcceptedExactlyWhen(env: Program, w: World, note: NoteWallet.Note,
                                   served: NoteWallet.Coin -> Option<Body<Field>>, o: Order)
    requires PoolSolvency.Inv(env, w) && o.payment > 0 && NoteWallet.Pick(note, o.payment).Some?
    requires var c := NoteWallet.Pick(note, o.payment).value;
             && Withdrawable(env, w.pool, SpendingOf(c, o))
             && served(c).Some? && ServedFor(env, w, c, served(c).value)
    ensures var c := NoteWallet.Pick(note, o.payment).value;
            NoteWallet.PaymentGoesThrough(note, o.payment, ChainEnv(env, w.pool, served, o)) <==>
              && NoteWallet.FullTier(TiersOf(w.pool), c)
              && RootStillKnown(env.ringLen, TreeLeaves(w, c.denomId), served(c).value.leafCount)
              && |TreeLeaves(w, c.denomId)| < Pow2(env.depth)
              && FeeIsPayable(w.pool.config, SpendingOf(c, o))
  {
    var c := NoteWallet.Pick(note, o.payment).value;
    CoinSpendsExactlyWhen(env, w, SpendingOf(c, o), served(c).value);
    hide PoolSolvency.Inv, Withdraw, TreeLeaves, Withdrawable, ServedFor;
  }

  // ---------------------------------------------------------------------------
  // When the rows are not the chain's leaves
  // ---------------------------------------------------------------------------

  lemma KnownRowsAreLeaves(depth: nat, leaves: seq<Field>, rows: seq<Field>, k: nat)
    requires Distinct(rows) && |rows| <= |leaves| <= Pow2(depth) && k <= |leaves|
    requires Root(Poseidon(), depth, rows) == Root(Poseidon(), depth, leaves[..k])
    ensures if |rows| <= k then rows == leaves[..|rows|] && forall i :: |rows| <= i < k ==> leaves[i] == ZERO
            else rows == leaves[..k] + [ZERO]
  {
    PoseidonInjective();
    forall p | 0 <= p < |leaves| ensures LeafAt(Poseidon(), rows, p) == LeafAt(Poseidon(), leaves[..k], p) {
      RootInjective(Poseidon(), depth, rows, leaves[..k], p);
    }
    hide Root;
    forall p | 0 <= p < |rows| ensures rows[p] == if p < k then leaves[p] else ZERO {
      assert LeafAt(Poseidon(), rows, p) == LeafAt(Poseidon(), leaves[..k], p);
    }
    forall i | |rows| <= i < k ensures leaves[i] == ZERO {
      assert LeafAt(Poseidon(), rows, i) == LeafAt(Poseidon(), leaves[..k], i);
    }
    if k < |rows| {
      assert rows[k] == ZERO && rows[|rows| - 1] == ZERO;
    }
  }

  /**
   The exact condition for a root rebuilt from the poller's rows to be accepted: the rows are the
   chain's first leaves, or those and one zero leaf more, and the root there has not been pushed
   out of the ring.
   */
  lemma RowsAcceptedExactlyWhen(t: TreeState<Field>, leaves: seq<Field>, rows: seq<Field>)
    requires Represents(Poseidon(), t, leaves) && Distinct(rows) && 1 <= |rows| <= |leaves|
    ensures IsKnownRoot(Poseidon(), t, Root(Poseidon(), |t.filledSubtree|, rows)) <==>
              exists m {:trigger leaves[..m]} ::
                1 <= m <= |leaves| && RootStillKnown(|t.rootHistory|, leaves, m)
                && (rows == leaves[..m] || rows == leaves[..m] + [ZERO])
  {
    var depth, ringLen, root := |t.filledSubtree|, |t.rootHistory|, Root(Poseidon(), |t.filledSubtree|, rows);
    KnownRootWindow(Poseidon(), t, leaves, root);
    if IsKnownRoot(Poseidon(), t, root) {
      var k :| RecentSize(|leaves|, ringLen, k) && root == RootAt(Poseidon(), depth, leaves, k);
      KnownRowsAreLeaves(depth, leaves, rows, k);
      var m := if |rows| <= k then |rows| else k;
      assert rows == leaves[..m] || rows == leaves[..m] + [ZERO];
    }
    if m :| 1 <= m <= |leaves| && RootStillKnown(ringLen, leaves, m)
            && (rows == leaves[..m] || rows == leaves[..m] + [ZERO]) {
      NodeZeroLeaf(Poseidon(), leaves[..m], depth, 0);
      RootLifetime(t, leaves, m);
    }
  }

  lemma {:induction false} RowsBelowChain<T>(txs: seq<Poller.Tx<T>>, n: nat, d: nat)
    requires n <= |Poller.Events(txs)|
    ensures Distinct(RowsAfter(txs, n, d)) && |RowsAfter(txs, n, d)| <= |ChainLeaves(txs, d)|
  {
    Poller.IndexedDistinct(Poller.Events(txs)[..n], d);
    IndexedGrows(Poller.Events(txs), n, d);
    Poller.EventsAreObserved(txs);
    Poller.IndexedBelowChain(Poller.ChainAppends(txs), d);
  }

  /**
   So from the first place where they differ on, a denomination's proofs are out of service for
   good: no root over more of the rows is accepted, save one that ends in a zero leaf right there.
   */
  lemma NothingServedAfterDifference(t: TreeState<Field>, txs: seq<Poller.Tx<Field>>, d: nat, n: nat, j: nat)
    requires Represents(Poseidon(), t, ChainLeaves(txs, d)) && n <= |Poller.Events(txs)|
    requires j < |RowsAfter(txs, n, d)| && j < |ChainLeaves(txs, d)|
    requires RowsAfter(txs, n, d)[..j + 1] != ChainLeaves(txs, d)[..j + 1]
    requires |RowsAfter(txs, n, d)| > j + 1 || RowsAfter(txs, n, d)[j] != ZERO
    ensures !IsKnownRoot(Poseidon(), t, Root(Poseidon(), |t.filledSubtree|, RowsAfter(txs, n, d)))
  {
    var leaves, rows := ChainLeaves(txs, d), RowsAfter(txs, n, d);
    RowsBelowChain(txs, n, d);
    hide RowsAfter, ChainLeaves, Represents, RootStillKnown, Root, IsKnownRoot;
    RowsAcceptedExactlyWhen(t, leaves, rows);
    forall m | 1 <= m <= |leaves| ensures rows != leaves[..m] && rows != leaves[..m] + [ZERO] {
      if m > j {
        assert leaves[..m][..j + 1] == (leaves[..m] + [ZERO])[..j + 1] == leaves[..j + 1];
      }
    }
  }

  /** The first leaf that repeats an earlier one. */
  ghost predicate FirstRepeat<T>(leaves: seq<T>, j: nat) {
    j < |leaves| && Distinct(leaves[..j]) && leaves[j] in leaves[..j]
  }

  /** A repeated value makes such a difference. */
  lemma NothingServedAfterRepeat(t: TreeState<Field>, txs: seq<Poller.Tx<Field>>, d: nat, n: nat, j: nat)
    requires Represents(Poseidon(), t, ChainLeaves(txs, d)) && n <= |Poller.Events(txs)|
    requires FirstRepeat(ChainLeaves(txs, d), j)
    requires |RowsAfter(txs, n, d)| > j + 1 || (|RowsAfter(txs, n, d)| == j + 1 && RowsAfter(txs, n, d)[j] != ZERO)
    ensures !IsKnownRoot(Poseidon(), t, Root(Poseidon(), |t.filledSubtree|, RowsAfter(txs, n, d)))
  {
    var leaves, rows := ChainLeaves(txs, d), RowsAfter(txs, n, d);
    RowsBelowChain(txs, n, d);
    var i :| 0 <= i < j && leaves[i] == leaves[j];
    assert rows[..j + 1][i] == rows[i] && rows[..j + 1][j] == rows[j];
    assert leaves[..j + 1][i] == leaves[..j + 1][j];
    hide RowsAfter, ChainLeaves, Represents, Root, IsKnownRoot;
    NothingServedAfterDifference(t, txs, d, n, j);
  }

  /** So does a leaf that only other programs appended, or only transactions the node could not return. */
  lemma NothingServedAfterUnseen(t: TreeState<Field>, txs: seq<Poller.Tx<Field>>, d: nat, n: nat, j: nat)
    requires Represents(Poseidon(), t, ChainLeaves(txs, d)) && n <= |Poller.Events(txs)|
    requires j < |ChainLeaves(txs, d)| && Poller.NeverSeen(Poller.ChainAppends(txs), d, ChainLeaves(txs, d)[j])
    requires |RowsAfter(txs, n, d)| > j + 1 || (|RowsAfter(txs, n, d)| == j + 1 && RowsAfter(txs, n, d)[j] != ZERO)
    ensures !IsKnownRoot(Poseidon(), t, Root(Poseidon(), |t.filledSubtree|, RowsAfter(txs, n, d)))
  {
    var leaves, rows := ChainLeaves(txs, d), RowsAfter(txs, n, d);
    Poller.EventsAreObserved(txs);
    Poller.UnseenIsMissing(Poller.ChainAppends(txs), d, leaves[j]);
    IndexedGrows(Poller.Events(txs), n, d);
    hide RowsAfter, ChainLeaves, Represents, Root, IsKnownRoot, Poller.NeverSeen;
    assert leaves[..j + 1][j] == leaves[j];
    assert rows[..j + 1][j] == rows[j];
    NothingServedAfterDifference(t, txs, d, n, j);
  }
}
