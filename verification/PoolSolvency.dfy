/**
 The pool over whole runs.  Any party may send any instruction, in any order, and may also
 use the token program directly; a failed instruction is a no-op.  A log beside the pool
 records where each leaf came from and what each withdrawal spent.  The invariant of every
 run gives solvency: each spend consumes its own deposit, so the vault always holds enough.
 */
module PoolSolvency {
  import opened Wrappers
  import opened MachineInts
  import opened MerkleSpec
  import opened IncrementalTree
  import opened FieldTerm
  import opened TokenLedger
  import opened Pool
  import opened SetFacts
  import Codec

  datatype Origin = DepositLeaf(value: Field) | ChangeLeaf(value: Field)

  datatype Spend = Spend(secret: Field, nullifier: Field, leafIndex: nat, payment: nat)

  datatype DenomLog = DenomLog(origins: seq<Origin>, spends: seq<Spend>)

  datatype World = World(pool: PoolState, logs: map<nat, DenomLog>)

  datatype Instruction =
    | CreateDenomination(creator: Pubkey, denomId: nat, amount: U64, mint: Pubkey)
    | MakeDeposit(deposit: DepositArgs)
    | MakeWithdraw(withdraw: WithdrawArgs)
    | Admin(admin: Pubkey, action: AdminAction)
    | Tokens(token: TokenAction)

  // ---------------------------------------------------------------------------
  // Steps and runs
  // ---------------------------------------------------------------------------

  function Apply(env: Program, s: PoolState, ix: Instruction): Result<PoolState, PoolError>
    requires Deployable(env)
  {
    match ix
    case CreateDenomination(creator, denomId, amount, mint) =>
      InitializeDenomination(env, s, creator, denomId, amount, mint)
    case MakeDeposit(a) => Deposit(s, a)
    case MakeWithdraw(a) => Withdraw(env, s, a)
    case Admin(admin, action) => Administer(s, admin, action)
    case Tokens(action) =>
      match TokenStep(s.accounts, action)
      case Err(e) => Err(TokenProgram(e))
      case Ok(accounts) => Ok(s.(accounts := accounts))
  }

  function LogAt(logs: map<nat, DenomLog>, d: nat): DenomLog {
    if d in logs then logs[d] else DenomLog([], [])
  }

  function SpendOf(a: WithdrawArgs): Spend {
    Spend(a.proof.secret, a.proof.nullifier, BitsIndex(a.proof.pathIndices, 0),
          if a.signals.paymentAmount.Num? then a.signals.paymentAmount.n else 0)
  }

  /** What a successful instruction adds to the log. */
  function Record(logs: map<nat, DenomLog>, ix: Instruction): map<nat, DenomLog> {
    match ix
    case CreateDenomination(_, d, _, _) => logs[d := DenomLog([], [])]
    case MakeDeposit(a) =>
      var log := LogAt(logs, a.denomId);
      if a.commitment.Canonical? then
        logs[a.denomId := log.(origins := log.origins + [DepositLeaf(a.commitment.value)])]
      else logs
    case MakeWithdraw(a) =>
      var log := LogAt(logs, a.denomId);
      logs[a.denomId := DenomLog(log.origins + [ChangeLeaf(a.signals.changeCommitment)], log.spends + [SpendOf(a)])]
    case _ => logs
  }

  function Step(env: Program, w: World, ix: Instruction): World
    requires Deployable(env)
  {
    match Apply(env, w.pool, ix)
    case Err(_) => w
    case Ok(s) => World(s, Record(w.logs, ix))
  }

  function Run(env: Program, w: World, ixs: seq<Instruction>): World
    requires Deployable(env)
  {
    if ixs == [] then w
    else Step(env, Run(env, w, ixs[..|ixs| - 1]), ixs[|ixs| - 1])
  }

  // ---------------------------------------------------------------------------
  // The invariant
  // ---------------------------------------------------------------------------

  function Values(origins: seq<Origin>): seq<Field> {
    seq(|origins|, i requires 0 <= i < |origins| => origins[i].value)
  }

  function Deposits(origins: seq<Origin>): nat {
    if origins == [] then 0
    else Deposits(origins[..|origins| - 1]) + if origins[|origins| - 1].DepositLeaf? then 1 else 0
  }

  function Paid(spends: seq<Spend>): nat {
    if spends == [] then 0 else Paid(spends[..|spends| - 1]) + spends[|spends| - 1].payment
  }

  /** The change withheld by the spends: what each left of its tier amount. */
  function Change(tier: nat, spends: seq<Spend>): int {
    if spends == [] then 0 else Change(tier, spends[..|spends| - 1]) + tier - spends[|spends| - 1].payment
  }

  /** The spend consumed a leaf that a depositor paid the full tier amount for. */
  ghost predicate SpendOk(tier: nat, origins: seq<Origin>, sp: Spend) {
    && sp.leafIndex < |origins|
    && origins[sp.leafIndex] == DepositLeaf(Commitment(sp.secret, sp.nullifier, tier))
    && 0 < sp.payment <= tier
  }

  /** A change leaf commits to less than the tier, so it never passes for a deposit. */
  ghost predicate ChangeBelowTier(tier: nat, leaf: Origin) {
    leaf.ChangeLeaf? ==> leaf.value.H3? && leaf.value.c.Num? && leaf.value.c.n < tier
  }

  ghost predicate LogOk(tier: nat, log: DenomLog) {
    && (forall i :: 0 <= i < |log.origins| ==> ChangeBelowTier(tier, log.origins[i]))
    && (forall j :: 0 <= j < |log.spends| ==> SpendOk(tier, log.origins, log.spends[j]))
    && (forall j, k :: 0 <= j < k < |log.spends| ==> log.spends[j].nullifier != log.spends[k].nullifier)
  }

  ghost predicate Spent(spends: seq<Spend>, hash: Field) {
    exists j :: 0 <= j < |spends| && H1(spends[j].nullifier) == hash
  }

  ghost predicate NullifiersOk(nullifiers: map<(nat, Field), U64>, d: nat, spends: seq<Spend>) {
    forall h {:trigger Spent(spends, h)} :: (d, h) in nullifiers <==> Spent(spends, h)
  }

  ghost predicate VaultOk(s: PoolState, d: nat, log: DenomLog)
    requires d in s.denominations
  {
    var denom, vault := s.denominations[d], PoolVaultPda(d);
    && denom.vault == vault && vault in s.accounts
    && s.accounts[vault].owner == vault && s.accounts[vault].mint == denom.mint
    && denom.depositCount == Deposits(log.origins)
    && s.accounts[vault].amount + Paid(log.spends) >= denom.amountMicroUsdc * denom.depositCount
  }

  ghost predicate TreeOk(env: Program, t: TreeAccount, origins: seq<Origin>) {
    && Represents(Poseidon(), t, Values(origins))
    && |t.filledSubtree| == env.depth && |t.rootHistory| == env.ringLen
  }

  ghost predicate DenomOk(env: Program, s: PoolState, d: nat, log: DenomLog) {
    && d in s.denominations && d in s.trees
    && TreeOk(env, s.trees[d], log.origins)
    && LogOk(s.denominations[d].amountMicroUsdc, log)
    && NullifiersOk(s.nullifiers, d, log.spends)
    && VaultOk(s, d, log)
  }

  ghost predicate Inv(env: Program, w: World) {
    && Deployable(env)
    && w.pool.config.feeBps <= MAX_BPS
    && w.logs.Keys == w.pool.denominations.Keys == w.pool.trees.Keys
    && (forall n {:trigger n in w.pool.nullifiers} :: n in w.pool.nullifiers ==> n.0 in w.logs)
    && forall d {:trigger d in w.logs} :: d in w.logs ==> DenomOk(env, w.pool, d, w.logs[d])
  }

  // ---------------------------------------------------------------------------
  // Counting spends against deposits
  // ---------------------------------------------------------------------------

  ghost function DepositIndices(origins: seq<Origin>): set<nat> {
    set i: nat | i < |origins| && origins[i].DepositLeaf?
  }

  lemma {:induction false} DepositIndicesCount(origins: seq<Origin>)
    ensures |DepositIndices(origins)| == Deposits(origins)
  {
    if origins != [] {
      var last := |origins| - 1;
      DepositIndicesCount(origins[..last]);
      if origins[last].DepositLeaf? {
        assert DepositIndices(origins) == DepositIndices(origins[..last]) + {last};
      } else {
        assert DepositIndices(origins) == DepositIndices(origins[..last]);
      }
    }
  }

  ghost function SpentIndices(spends: seq<Spend>): set<nat> {
    set j | 0 <= j < |spends| :: spends[j].leafIndex
  }

  lemma SpendsHaveOwnLeaf(tier: nat, log: DenomLog, j: nat, k: nat)
    requires LogOk(tier, log) && j < k < |log.spends|
    ensures log.spends[j].leafIndex != log.spends[k].leafIndex
  {
    assert SpendOk(tier, log.origins, log.spends[j]) && SpendOk(tier, log.origins, log.spends[k]);
  }

  lemma {:induction false} SpentIndicesCount(tier: nat, log: DenomLog)
    requires LogOk(tier, log)
    ensures |SpentIndices(log.spends)| == |log.spends|
    ensures SpentIndices(log.spends) <= DepositIndices(log.origins)
    decreases |log.spends|
  {
    if log.spends != [] {
      var last := |log.spends| - 1;
      var before := log.spends[..last];
      SpentIndicesCount(tier, log.(spends := before));
      assert SpendOk(tier, log.origins, log.spends[last]);
      forall j | 0 <= j < last ensures before[j].leafIndex != log.spends[last].leafIndex {
        SpendsHaveOwnLeaf(tier, log, j, last);
      }
      assert SpentIndices(log.spends) == SpentIndices(before) + {log.spends[last].leafIndex};
    }
  }

  lemma SpendsBelowDeposits(tier: nat, log: DenomLog)
    requires LogOk(tier, log)
    ensures |log.spends| <= Deposits(log.origins)
  {
    SpentIndicesCount(tier, log);
    DepositIndicesCount(log.origins);
    SubsetCard(SpentIndices(log.spends), DepositIndices(log.origins));
  }

  lemma {:induction false} PaidPlusChange(tier: nat, origins: seq<Origin>, spends: seq<Spend>)
    requires forall j :: 0 <= j < |spends| ==> SpendOk(tier, origins, spends[j])
    ensures Paid(spends) + Change(tier, spends) == tier * |spends|
    ensures Change(tier, spends) >= 0
  {
    if spends != [] {
      var last := |spends| - 1;
      PaidPlusChange(tier, origins, spends[..last]);
      assert SpendOk(tier, origins, spends[last]);
      assert tier * |spends| == tier * last + tier;
    }
  }

  lemma MulGap(tier: nat, a: nat, b: nat)
    requires a <= b
    ensures tier * b - tier * a == tier * (b - a) >= 0
  {
  }

  // ---------------------------------------------------------------------------
  // A verified withdrawal spends a fresh deposit
  // ---------------------------------------------------------------------------

  ghost predicate ChecksPass(env: Program, s: PoolState, a: WithdrawArgs) {
    WithdrawAccountError(s, a).None? && WithdrawCheckError(env, s, a).None?
  }

  lemma VerifiedSpendHitsDeposit(env: Program, s: PoolState, log: DenomLog, a: WithdrawArgs)
    requires Deployable(env) && DenomOk(env, s, a.denomId, log) && ChecksPass(env, s, a)
    ensures SpendOk(s.denominations[a.denomId].amountMicroUsdc, log.origins, SpendOf(a))
    ensures !Spent(log.spends, H1(a.proof.nullifier))
  {
    var tier, leaves := s.denominations[a.denomId].amountMicroUsdc, Values(log.origins);
    var w := a.proof;
    KnownRootWindow(Poseidon(), s.trees[a.denomId], leaves, a.signals.root);
    var m: nat :| RecentSize(|leaves|, env.ringLen, m) && a.signals.root == RootAt(Poseidon(), env.depth, leaves, m);
    var commitment := Commitment(w.secret, w.nullifier, tier);
    TermInclusionSoundness(leaves[..m], commitment, w.pathElements, w.pathIndices);
    var i := BitsIndex(w.pathIndices, 0);
    assert i < m && log.origins[i].value == commitment;
    assert ChangeBelowTier(tier, log.origins[i]);
  }

  lemma SpendExtendsLog(tier: nat, log: DenomLog, sp: Spend, change: Field)
    requires LogOk(tier, log) && SpendOk(tier, log.origins, sp) && !Spent(log.spends, H1(sp.nullifier))
    requires ChangeBelowTier(tier, ChangeLeaf(change))
    ensures LogOk(tier, DenomLog(log.origins, log.spends + [sp]))
    ensures LogOk(tier, DenomLog(log.origins + [ChangeLeaf(change)], log.spends + [sp]))
  {
    var spends, origins := log.spends + [sp], log.origins + [ChangeLeaf(change)];
    forall j | 0 <= j < |spends|
      ensures SpendOk(tier, log.origins, spends[j]) && SpendOk(tier, origins, spends[j])
    {
      if j < |log.spends| {
        assert SpendOk(tier, log.origins, log.spends[j]);
      }
    }
    forall j, k | 0 <= j < k < |spends| ensures spends[j].nullifier != spends[k].nullifier {
      if k == |log.spends| {
        assert H1(log.spends[j].nullifier) != H1(sp.nullifier);
      }
    }
    forall i | 0 <= i < |origins| ensures ChangeBelowTier(tier, origins[i]) {
      if i < |log.origins| {
        assert ChangeBelowTier(tier, log.origins[i]);
      }
    }
  }

  /** The vault covers a full tier amount for every deposit not yet spent, plus all change. */
  lemma VaultCovers(env: Program, s: PoolState, d: nat, log: DenomLog)
    requires DenomOk(env, s, d, log)
    ensures var denom := s.denominations[d];
            && |log.spends| <= denom.depositCount
            && s.accounts[PoolVaultPda(d)].amount >=
                 denom.amountMicroUsdc * (denom.depositCount - |log.spends|) + Change(denom.amountMicroUsdc, log.spends)
            && Change(denom.amountMicroUsdc, log.spends) >= 0
  {
    var tier := s.denominations[d].amountMicroUsdc;
    SpendsBelowDeposits(tier, log);
    PaidPlusChange(tier, log.origins, log.spends);
    MulGap(tier, |log.spends|, s.denominations[d].depositCount);
  }

  lemma VerifiedSpendIsFunded(env: Program, s: PoolState, log: DenomLog, a: WithdrawArgs)
    requires Deployable(env) && DenomOk(env, s, a.denomId, log) && ChecksPass(env, s, a)
    ensures a.signals.paymentAmount.Num?
    ensures s.accounts[PoolVaultPda(a.denomId)].amount >= a.signals.paymentAmount.n
  {
    var denom := s.denominations[a.denomId];
    var tier := denom.amountMicroUsdc;
    VerifiedSpendHitsDeposit(env, s, log, a);
    SpendExtendsLog(tier, log, SpendOf(a), H3(ZERO, ZERO, Num(tier - a.signals.paymentAmount.n)));
    SpendsBelowDeposits(tier, log.(spends := log.spends + [SpendOf(a)]));
    VaultCovers(env, s, a.denomId, log);
    MulGap(tier, 1, denom.depositCount - |log.spends|);
  }

  // ---------------------------------------------------------------------------
  // What paying out does to a vault
  // ---------------------------------------------------------------------------

  /** Paying out takes the payment from the tier's own vault and nothing from any other. */
  lemma PayOutFrame(config: PoolConfig, l: Ledger, d: nat, recipientAta: Pubkey, feeVault: Option<Pubkey>,
                    payment: nat, e: nat)
    requires config.feeBps <= MAX_BPS && recipientAta.AtaPda?
    requires PayOut(config, l, PoolVaultPda(d), recipientAta, feeVault, payment).Ok?
    ensures VaultLoses(l, PayOut(config, l, PoolVaultPda(d), recipientAta, feeVault, payment).value,
                       PoolVaultPda(e), if e == d then payment else 0)
  {
    var vault := PoolVaultPda(d);
    if config.feeVault == DefaultKey {
      TransferFrame(l, vault, recipientAta, payment);
    } else {
      var fee := Fee(payment, config.feeBps);
      TransferFrame(l, vault, recipientAta, payment - fee);
      var net := Transfer(l, vault, recipientAta, payment - fee).value;
      TransferFrame(net, vault, feeVault.value, fee);
    }
  }

  // ---------------------------------------------------------------------------
  // Every instruction keeps the invariant
  // ---------------------------------------------------------------------------

  /** A tier is unaffected by a step that leaves its records alone and takes nothing from its vault. */
  lemma DenomFrame(env: Program, s: PoolState, s': PoolState, d: nat, log: DenomLog)
    requires DenomOk(env, s, d, log)
    requires d in s'.denominations && s'.denominations[d] == s.denominations[d]
    requires d in s'.trees && s'.trees[d] == s.trees[d]
    requires forall h :: (d, h) in s'.nullifiers <==> (d, h) in s.nullifiers
    requires VaultLoses(s.accounts, s'.accounts, PoolVaultPda(d), 0)
    ensures DenomOk(env, s', d, log)
  {
    forall h ensures (d, h) in s'.nullifiers <==> Spent(log.spends, h) {
      assert (d, h) in s.nullifiers <==> Spent(log.spends, h);
    }
  }

  lemma LeafExtendsTree(env: Program, t: TreeAccount, origins: seq<Origin>, leaf: Origin)
    requires TreeOk(env, t, origins) && AppendLeaf(Poseidon(), t, Canonical(leaf.value)).Ok?
    ensures TreeOk(env, AppendLeaf(Poseidon(), t, Canonical(leaf.value)).value.0, origins + [leaf])
  {
    AppendRefinesRecompute(Poseidon(), t, Values(origins), Canonical(leaf.value));
    assert Values(origins + [leaf]) == Values(origins) + [leaf.value];
  }

  lemma DepositsGrow(origins: seq<Origin>, leaf: Origin)
    ensures Deposits(origins + [leaf]) == Deposits(origins) + if leaf.DepositLeaf? then 1 else 0
  {
    assert (origins + [leaf])[..|origins|] == origins;
  }

  lemma DepositExtendsLog(tier: nat, log: DenomLog, c: Field)
    requires LogOk(tier, log)
    ensures LogOk(tier, log.(origins := log.origins + [DepositLeaf(c)]))
  {
    var origins := log.origins + [DepositLeaf(c)];
    forall i | 0 <= i < |origins| ensures ChangeBelowTier(tier, origins[i]) {
      if i < |log.origins| { assert ChangeBelowTier(tier, log.origins[i]); }
    }
    forall j | 0 <= j < |log.spends| ensures SpendOk(tier, origins, log.spends[j]) {
      assert SpendOk(tier, log.origins, log.spends[j]);
    }
  }

  /** The parts of the state that a successful deposit replaces. */
  lemma DepositEffect(s: PoolState, a: DepositArgs)
    requires Deposit(s, a).Ok?
    ensures var s', d := Deposit(s, a).value, a.denomId;
            && d in s.denominations && d in s.trees
            && AppendLeaf(Poseidon(), s.trees[d], a.commitment).Ok?
            && s'.trees == s.trees[d := AppendLeaf(Poseidon(), s.trees[d], a.commitment).value.0]
            && s'.denominations ==
                 s.denominations[d := s.denominations[d].(depositCount := s.denominations[d].depositCount + 1)]
            && Transfer(s.accounts, a.depositorAta, PoolVaultPda(d), s.denominations[d].amountMicroUsdc).Ok?
            && s'.accounts == Transfer(s.accounts, a.depositorAta, PoolVaultPda(d),
                                       s.denominations[d].amountMicroUsdc).value
            && s'.nullifiers == s.nullifiers && s'.config == s.config
            && s.accounts[a.depositorAta].owner == a.depositor && CanSign(a.depositor)
  {
  }

  lemma DepositKeepsVault(s: PoolState, a: DepositArgs, log: DenomLog)
    requires a.denomId in s.denominations && VaultOk(s, a.denomId, log) && Deposit(s, a).Ok? && a.commitment.Canonical?
    ensures a.denomId in Deposit(s, a).value.denominations
    ensures VaultOk(Deposit(s, a).value, a.denomId, log.(origins := log.origins + [DepositLeaf(a.commitment.value)]))
  {
    DepositEffect(s, a);
    var denom, vault := s.denominations[a.denomId], PoolVaultPda(a.denomId);
    DepositsGrow(log.origins, DepositLeaf(a.commitment.value));
    assert a.depositorAta != vault;
    TransferFrame(s.accounts, a.depositorAta, vault, denom.amountMicroUsdc);
    MulGap(denom.amountMicroUsdc, denom.depositCount, denom.depositCount + 1);
  }

  lemma DepositKeepsDenom(env: Program, s: PoolState, a: DepositArgs, log: DenomLog)
    requires Deployable(env) && DenomOk(env, s, a.denomId, log) && Deposit(s, a).Ok?
    ensures a.commitment.Canonical?
    ensures DenomOk(env, Deposit(s, a).value, a.denomId,
                    log.(origins := log.origins + [DepositLeaf(a.commitment.value)]))
  {
    DepositEffect(s, a);
    AppendRefinesRecompute(Poseidon(), s.trees[a.denomId], Values(log.origins), a.commitment);
    LeafExtendsTree(env, s.trees[a.denomId], log.origins, DepositLeaf(a.commitment.value));
    DepositExtendsLog(s.denominations[a.denomId].amountMicroUsdc, log, a.commitment.value);
    DepositKeepsVault(s, a, log);
  }

  lemma SpentGrows(spends: seq<Spend>, sp: Spend, h: Field)
    ensures Spent(spends + [sp], h) <==> Spent(spends, h) || h == H1(sp.nullifier)
  {
    var more := spends + [sp];
    if Spent(spends, h) {
      var j :| 0 <= j < |spends| && H1(spends[j].nullifier) == h;
      assert more[j] == spends[j];
    }
    if h == H1(sp.nullifier) {
      assert more[|spends|] == sp;
    }
  }

  /** The parts of the state that a successful withdrawal replaces. */
  lemma WithdrawEffect(env: Program, s: PoolState, a: WithdrawArgs)
    requires Withdraw(env, s, a).Ok?
    ensures ChecksPass(env, s, a) && a.signals.paymentAmount.Num?
    ensures var s', d, change := Withdraw(env, s, a).value, a.denomId, Canonical(a.signals.changeCommitment);
            var paid := PayOut(s.config, s.accounts, PoolVaultPda(d), a.recipientAta, a.feeVault,
                               a.signals.paymentAmount.n);
            && AppendLeaf(Poseidon(), s.trees[d], change).Ok?
            && s'.trees == s.trees[d := AppendLeaf(Poseidon(), s.trees[d], change).value.0]
            && s'.denominations == s.denominations
            && paid.Ok? && s'.accounts == paid.value
            && s'.nullifiers == s.nullifiers[(d, a.nullifierHash) := a.slot] && s'.config == s.config
            && a.recipientAta.AtaPda? && a.nullifierHash == H1(a.proof.nullifier)
  {
  }

  lemma WithdrawKeepsNullifiers(env: Program, s: PoolState, a: WithdrawArgs, log: DenomLog)
    requires NullifiersOk(s.nullifiers, a.denomId, log.spends) && Withdraw(env, s, a).Ok?
    ensures NullifiersOk(Withdraw(env, s, a).value.nullifiers, a.denomId, log.spends + [SpendOf(a)])
  {
    WithdrawEffect(env, s, a);
    var after, d := Withdraw(env, s, a).value.nullifiers, a.denomId;
    forall h ensures (d, h) in after <==> Spent(log.spends + [SpendOf(a)], h) {
      SpentGrows(log.spends, SpendOf(a), h);
      assert (d, h) in s.nullifiers <==> Spent(log.spends, h);
    }
  }

  lemma WithdrawKeepsVault(env: Program, s: PoolState, a: WithdrawArgs, log: DenomLog)
    requires a.denomId in s.denominations && VaultOk(s, a.denomId, log)
    requires s.config.feeBps <= MAX_BPS && Withdraw(env, s, a).Ok?
    ensures a.denomId in Withdraw(env, s, a).value.denominations
    ensures VaultOk(Withdraw(env, s, a).value, a.denomId,
                    DenomLog(log.origins + [ChangeLeaf(a.signals.changeCommitment)], log.spends + [SpendOf(a)]))
  {
    WithdrawEffect(env, s, a);
    DepositsGrow(log.origins, ChangeLeaf(a.signals.changeCommitment));
    assert (log.spends + [SpendOf(a)])[..|log.spends|] == log.spends;
    PayOutFrame(s.config, s.accounts, a.denomId, a.recipientAta, a.feeVault, SpendOf(a).payment, a.denomId);
  }

  lemma WithdrawKeepsDenom(env: Program, s: PoolState, a: WithdrawArgs, log: DenomLog)
    requires Deployable(env) && s.config.feeBps <= MAX_BPS && DenomOk(env, s, a.denomId, log) && Withdraw(env, s, a).Ok?
    ensures DenomOk(env, Withdraw(env, s, a).value, a.denomId,
                    DenomLog(log.origins + [ChangeLeaf(a.signals.changeCommitment)], log.spends + [SpendOf(a)]))
  {
    WithdrawEffect(env, s, a);
    VerifiedSpendHitsDeposit(env, s, log, a);
    SpendExtendsLog(s.denominations[a.denomId].amountMicroUsdc, log, SpendOf(a), a.signals.changeCommitment);
    LeafExtendsTree(env, s.trees[a.denomId], log.origins, ChangeLeaf(a.signals.changeCommitment));
    WithdrawKeepsNullifiers(env, s, a, log);
    WithdrawKeepsVault(env, s, a, log);
  }

  lemma FreshDenomOk(env: Program, s: PoolState, creator: Pubkey, d: nat, amount: U64, mint: Pubkey)
    requires Deployable(env) && InitializeDenomination(env, s, creator, d, amount, mint).Ok?
    requires forall h :: (d, h) !in s.nullifiers
    ensures DenomOk(env, InitializeDenomination(env, s, creator, d, amount, mint).value, d, DenomLog([], []))
  {
    FreshRepresentsEmpty(Poseidon(), env.depth, env.ringLen);
    assert Values([]) == [];
  }

  predicate Concerns(ix: Instruction, d: nat) {
    match ix
    case CreateDenomination(_, e, _, _) => d == e
    case MakeDeposit(a) => d == a.denomId
    case MakeWithdraw(a) => d == a.denomId
    case _ => false
  }

  /** No instruction takes anything from the vault of a tier it is not about. */
  lemma OtherVaultKept(env: Program, s: PoolState, ix: Instruction, d: nat)
    requires Deployable(env) && s.config.feeBps <= MAX_BPS && Apply(env, s, ix).Ok? && !Concerns(ix, d)
    requires PoolVaultPda(d) in s.accounts && s.accounts[PoolVaultPda(d)].owner == PoolVaultPda(d)
    ensures VaultLoses(s.accounts, Apply(env, s, ix).value.accounts, PoolVaultPda(d), 0)
  {
    match ix {
      case CreateDenomination(_, e, _, _) =>
      case MakeDeposit(a) =>
        DepositEffect(s, a);
        TransferFrame(s.accounts, a.depositorAta, PoolVaultPda(a.denomId), s.denominations[a.denomId].amountMicroUsdc);
      case MakeWithdraw(a) =>
        WithdrawEffect(env, s, a);
        PayOutFrame(s.config, s.accounts, a.denomId, a.recipientAta, a.feeVault, a.signals.paymentAmount.n, d);
      case Admin(_, _) =>
      case Tokens(action) =>
        TokenStepSparesVaults(s.accounts, action, PoolVaultPda(d));
    }
  }

  /** Nor does it touch the records of such a tier. */
  lemma OtherRecordsKept(env: Program, s: PoolState, ix: Instruction, d: nat)
    requires Deployable(env) && Apply(env, s, ix).Ok? && !Concerns(ix, d)
    requires d in s.denominations && d in s.trees
    ensures var s' := Apply(env, s, ix).value;
            && d in s'.denominations && s'.denominations[d] == s.denominations[d]
            && d in s'.trees && s'.trees[d] == s.trees[d]
            && (forall h :: (d, h) in s'.nullifiers <==> (d, h) in s.nullifiers)
  {
    match ix {
      case MakeDeposit(a) => DepositEffect(s, a);
      case MakeWithdraw(a) => WithdrawEffect(env, s, a);
      case _ =>
    }
  }

  lemma OtherDenomKept(env: Program, w: World, ix: Instruction, d: nat)
    requires Inv(env, w) && Apply(env, w.pool, ix).Ok? && d in w.logs && !Concerns(ix, d)
    ensures DenomOk(env, Apply(env, w.pool, ix).value, d, w.logs[d])
  {
    assert DenomOk(env, w.pool, d, w.logs[d]);
    OtherVaultKept(env, w.pool, ix, d);
    OtherRecordsKept(env, w.pool, ix, d);
    DenomFrame(env, w.pool, Apply(env, w.pool, ix).value, d, w.logs[d]);
  }

  lemma ConcernedDenomKept(env: Program, w: World, ix: Instruction, d: nat)
    requires Inv(env, w) && Apply(env, w.pool, ix).Ok? && Concerns(ix, d)
    ensures d in Record(w.logs, ix) && DenomOk(env, Apply(env, w.pool, ix).value, d, Record(w.logs, ix)[d])
  {
    match ix {
      case CreateDenomination(creator, e, amount, mint) =>
        FreshDenomOk(env, w.pool, creator, e, amount, mint);
      case MakeDeposit(a) =>
        DepositEffect(w.pool, a);
        DepositKeepsDenom(env, w.pool, a, w.logs[d]);
      case MakeWithdraw(a) =>
        WithdrawEffect(env, w.pool, a);
        WithdrawKeepsDenom(env, w.pool, a, w.logs[d]);
    }
  }

  lemma RecordFrame(logs: map<nat, DenomLog>, ix: Instruction, d: nat)
    requires d in Record(logs, ix) && !Concerns(ix, d)
    ensures d in logs && Record(logs, ix)[d] == logs[d]
  {
  }

  ghost predicate SameTiers(s: PoolState, s': PoolState) {
    && s'.denominations.Keys == s.denominations.Keys && s'.trees.Keys == s.trees.Keys
    && s'.config.feeBps == s.config.feeBps
  }

  lemma WithdrawKeepsTiers(env: Program, s: PoolState, a: WithdrawArgs)
    requires Withdraw(env, s, a).Ok?
    ensures SameTiers(s, Withdraw(env, s, a).value)
  {
    WithdrawEffect(env, s, a);
    hide Withdraw, AppendLeaf, PayOut;
  }

  /** Only creating a tier changes which tiers there are. */
  lemma TiersKept(env: Program, s: PoolState, ix: Instruction)
    requires Deployable(env) && Apply(env, s, ix).Ok? && !ix.CreateDenomination?
    ensures SameTiers(s, Apply(env, s, ix).value)
  {
    hide Withdraw, Deposit, AppendLeaf, Transfer, PayOut, TokenStep;
    match ix {
      case MakeDeposit(a) => DepositEffect(s, a);
      case MakeWithdraw(a) => WithdrawKeepsTiers(env, s, a);
      case _ =>
    }
  }

  lemma ConcernedTierExists(env: Program, s: PoolState, ix: Instruction, d: nat)
    requires Deployable(env) && Apply(env, s, ix).Ok? && !ix.CreateDenomination? && Concerns(ix, d)
    ensures d in s.denominations
  {
  }

  lemma RecordKeys(env: Program, w: World, ix: Instruction)
    requires Inv(env, w) && Apply(env, w.pool, ix).Ok?
    ensures Record(w.logs, ix).Keys == if ix.CreateDenomination? then w.logs.Keys + {ix.denomId} else w.logs.Keys
  {
    hide DenomOk, Deposit, Withdraw, Administer;
    match ix {
      case MakeDeposit(a) => ConcernedTierExists(env, w.pool, ix, a.denomId);
      case MakeWithdraw(a) => ConcernedTierExists(env, w.pool, ix, a.denomId);
      case _ =>
    }
  }

  /** The three tables keep the same tiers. */
  lemma DomainsKept(env: Program, w: World, ix: Instruction)
    requires Inv(env, w) && Apply(env, w.pool, ix).Ok?
    ensures var s' := Apply(env, w.pool, ix).value;
            && Record(w.logs, ix).Keys == s'.denominations.Keys == s'.trees.Keys
            && s'.config.feeBps <= MAX_BPS
  {
    hide Deposit, Withdraw, Administer, TokenStep, DenomOk;
    RecordKeys(env, w, ix);
    if !ix.CreateDenomination? {
      hide Apply, Record;
      TiersKept(env, w.pool, ix);
    }
  }

  /** A step adds no nullifier except for the tier it concerns. */
  lemma NullifierTiersKept(env: Program, s: PoolState, ix: Instruction, n: (nat, Field))
    requires Deployable(env) && Apply(env, s, ix).Ok? && n in Apply(env, s, ix).value.nullifiers
    ensures n in s.nullifiers || (Concerns(ix, n.0) && ix.MakeWithdraw?)
  {
    match ix {
      case MakeDeposit(a) => DepositEffect(s, a);
      case MakeWithdraw(a) => WithdrawEffect(env, s, a);
      case _ =>
    }
  }

  lemma StepKeepsDenoms(env: Program, w: World, ix: Instruction, d: nat)
    requires Inv(env, w) && Apply(env, w.pool, ix).Ok? && d in Record(w.logs, ix)
    ensures DenomOk(env, Apply(env, w.pool, ix).value, d, Record(w.logs, ix)[d])
  {
    if Concerns(ix, d) {
      ConcernedDenomKept(env, w, ix, d);
    } else {
      RecordFrame(w.logs, ix, d);
      OtherDenomKept(env, w, ix, d);
    }
  }

  lemma StepKeepsNullifierTiers(env: Program, w: World, ix: Instruction, n: (nat, Field))
    requires Inv(env, w) && Apply(env, w.pool, ix).Ok? && n in Apply(env, w.pool, ix).value.nullifiers
    ensures n.0 in Record(w.logs, ix)
  {
    RecordKeys(env, w, ix);
    NullifierTiersKept(env, w.pool, ix, n);
    if Concerns(ix, n.0) && ix.MakeWithdraw? {
      ConcernedTierExists(env, w.pool, ix, n.0);
    }
  }

  lemma StepKeepsInv(env: Program, w: World, ix: Instruction)
    requires Inv(env, w)
    ensures Inv(env, Step(env, w, ix))
  {
    if Apply(env, w.pool, ix).Ok? {
      var w' := Step(env, w, ix);
      DomainsKept(env, w, ix);
      forall n | n in w'.pool.nullifiers ensures n.0 in w'.logs {
        StepKeepsNullifierTiers(env, w, ix, n);
      }
      forall d | d in w'.logs ensures DenomOk(env, w'.pool, d, w'.logs[d]) {
        StepKeepsDenoms(env, w, ix, d);
      }
    }
  }

  /** The world of a pool that was just initialized, over any token accounts. */
  function Genesis(admin: Pubkey, feeBps: U16, vkHash: nat, accounts: Ledger): World
    requires InitializePool(admin, feeBps, vkHash, accounts).Ok?
  {
    World(InitializePool(admin, feeBps, vkHash, accounts).value, map[])
  }

  lemma {:induction false} RunKeepsInv(env: Program, w: World, ixs: seq<Instruction>)
    requires Inv(env, w)
    ensures Inv(env, Run(env, w, ixs))
  {
    if ixs != [] {
      RunKeepsInv(env, w, ixs[..|ixs| - 1]);
      StepKeepsInv(env, Run(env, w, ixs[..|ixs| - 1]), ixs[|ixs| - 1]);
    }
  }

  // ---------------------------------------------------------------------------
  // Main results
  // ---------------------------------------------------------------------------

  /**
   Solvency of one tier: every spend has its own nullifier and its own deposit leaf, holding a
   commitment to the full tier amount, so there are no more spends than deposits; and the vault
   holds a tier amount for every unspent deposit plus all the change withheld so far.
   */
  ghost predicate Solvent(s: PoolState, d: nat, log: DenomLog)
    requires d in s.denominations && PoolVaultPda(d) in s.accounts
  {
    var denom := s.denominations[d];
    var tier := denom.amountMicroUsdc;
    && (forall j, k :: 0 <= j < k < |log.spends| ==>
          log.spends[j].nullifier != log.spends[k].nullifier && log.spends[j].leafIndex != log.spends[k].leafIndex)
    && (forall j :: 0 <= j < |log.spends| ==> SpendOk(tier, log.origins, log.spends[j]))
    && (forall h :: (d, h) in s.nullifiers <==> Spent(log.spends, h))
    && |log.spends| <= denom.depositCount == Deposits(log.origins)
    && s.accounts[PoolVaultPda(d)].amount >= tier * (denom.depositCount - |log.spends|) + Change(tier, log.spends)
  }

  lemma DenomIsSolvent(env: Program, s: PoolState, d: nat, log: DenomLog)
    requires DenomOk(env, s, d, log)
    ensures Solvent(s, d, log)
  {
    VaultCovers(env, s, d, log);
    forall j, k | 0 <= j < k < |log.spends| ensures log.spends[j].leafIndex != log.spends[k].leafIndex {
      SpendsHaveOwnLeaf(s.denominations[d].amountMicroUsdc, log, j, k);
    }
    forall h ensures (d, h) in s.nullifiers <==> Spent(log.spends, h) {
    }
  }

  lemma PoolIsSolvent(env: Program, admin: Pubkey, feeBps: U16, accounts: Ledger, ixs: seq<Instruction>, d: nat)
    requires Deployable(env) && InitializePool(admin, feeBps, env.embeddedVkHash, accounts).Ok?
    ensures var w := Run(env, Genesis(admin, feeBps, env.embeddedVkHash, accounts), ixs);
            d in w.pool.denominations ==>
              d in w.logs && PoolVaultPda(d) in w.pool.accounts && Solvent(w.pool, d, w.logs[d])
  {
    var w0 := Genesis(admin, feeBps, env.embeddedVkHash, accounts);
    RunKeepsInv(env, w0, ixs);
    var w := Run(env, w0, ixs);
    if d in w.pool.denominations {
      assert d in w.logs;
      DenomIsSolvent(env, w.pool, d, w.logs[d]);
    }
  }

  /** The fee, when one is charged, must fit the width of its arithmetic and name the configured vault. */
  predicate FeePathOpen(config: PoolConfig, a: WithdrawArgs) {
    config.feeVault == DefaultKey ||
    (a.signals.paymentAmount.Num? && a.signals.paymentAmount.n * config.feeBps < U64_LIMIT
     && a.feeVault == Some(config.feeVault))
  }

  lemma FundedPayOut(s: PoolState, a: WithdrawArgs)
    requires WithdrawAccountError(s, a).None? && a.signals.paymentAmount.Num? && s.config.feeBps <= MAX_BPS
    requires s.accounts[PoolVaultPda(a.denomId)].mint == s.denominations[a.denomId].mint
    requires a.recipientAta != PoolVaultPda(a.denomId)
    requires s.accounts[PoolVaultPda(a.denomId)].amount >= a.signals.paymentAmount.n
    ensures var r := PayOut(s.config, s.accounts, PoolVaultPda(a.denomId), a.recipientAta, a.feeVault,
                            a.signals.paymentAmount.n);
            && (r.Ok? <==> FeePathOpen(s.config, a))
            && (r.Err? ==> r.error in {Overflow, FeeVaultNotSet, FeeVaultMismatch})
  {
  }

  /**
   In every reachable state a withdrawal whose checks pass is never refused for lack of vault
   funds: it succeeds exactly when the tree has room for the change leaf and the fee can be paid.
   */
  lemma VerifiedWithdrawSucceeds(env: Program, w: World, a: WithdrawArgs)
    requires Inv(env, w) && ChecksPass(env, w.pool, a)
    ensures a.denomId in w.logs
    ensures Withdraw(env, w.pool, a).Ok? <==>
              FeePathOpen(w.pool.config, a) && |w.logs[a.denomId].origins| < Pow2(env.depth)
    ensures Withdraw(env, w.pool, a).Err? ==>
              Withdraw(env, w.pool, a).error in {Overflow, FeeVaultNotSet, FeeVaultMismatch, Tree(TreeFull)}
  {
    var log, d := w.logs[a.denomId], a.denomId;
    assert DenomOk(env, w.pool, d, log);
    VerifiedSpendIsFunded(env, w.pool, log, a);
    FundedPayOut(w.pool, a);
    AppendRefinesRecompute(Poseidon(), w.pool.trees[d], Values(log.origins), Canonical(a.signals.changeCommitment));
  }

  /** No pool instruction creates or destroys tokens; only minting does. */
  lemma StepConservesTokens(env: Program, s: PoolState, ix: Instruction, mint: Pubkey)
    requires Deployable(env) && s.config.feeBps <= MAX_BPS && Apply(env, s, ix).Ok?
    requires !(ix.Tokens? && ix.token.Mint?)
    ensures Total(Apply(env, s, ix).value.accounts, mint) == Total(s.accounts, mint)
  {
    match ix {
      case CreateDenomination(_, d, _, m) =>
        OpenKeepsTotal(s.accounts, PoolVaultPda(d), PoolVaultPda(d), m, mint);
      case MakeDeposit(a) =>
        DepositEffect(s, a);
        TransferConserves(s.accounts, a.depositorAta, PoolVaultPda(a.denomId),
                          s.denominations[a.denomId].amountMicroUsdc, mint);
      case MakeWithdraw(a) =>
        WithdrawEffect(env, s, a);
        PayOutConserves(s.config, s.accounts, PoolVaultPda(a.denomId), a.recipientAta, a.feeVault,
                        a.signals.paymentAmount.n, mint);
      case Admin(_, _) =>
      case Tokens(action) =>
        TokenStepConserves(s.accounts, action, mint);
    }
  }

  /** Recipient and fee vault together receive exactly what the vault pays. */
  lemma PayOutConserves(config: PoolConfig, l: Ledger, vault: Pubkey, recipientAta: Pubkey, feeVault: Option<Pubkey>,
                        payment: nat, mint: Pubkey)
    requires config.feeBps <= MAX_BPS && PayOut(config, l, vault, recipientAta, feeVault, payment).Ok?
    ensures Total(PayOut(config, l, vault, recipientAta, feeVault, payment).value, mint) == Total(l, mint)
  {
    if config.feeVault == DefaultKey {
      TransferConserves(l, vault, recipientAta, payment, mint);
    } else {
      var fee := Fee(payment, config.feeBps);
      TransferConserves(l, vault, recipientAta, payment - fee, mint);
      TransferConserves(Transfer(l, vault, recipientAta, payment - fee).value, vault, feeVault.value, fee, mint);
    }
  }

  /**
   Where an accepted withdrawal's payment goes: out of the tier's vault, to the associated account
   of an owner that the proof determines in its low 253 bits, less the fee, rounded down, that
   goes to the configured fee vault.  Every other balance stays, and a fresh nullifier is spent.
   */
  lemma WithdrawPaysBoundRecipient(env: Program, s: PoolState, a: WithdrawArgs)
    requires s.config.feeBps <= MAX_BPS && Withdraw(env, s, a).Ok?
    ensures var s', vault, payment := Withdraw(env, s, a).value, PoolVaultPda(a.denomId), a.signals.paymentAmount.n;
            var owner := s.accounts[a.recipientAta].owner;
            && a.recipientAta == AtaPda(owner, s.denominations[a.denomId].mint)
            && a.signals.recipient == PubkeyField(env, owner)
            && PaidOut(s.config, s.accounts, s'.accounts, vault, a.recipientAta, payment)
            && (a.denomId, a.signals.nullifierHash) !in s.nullifiers
            && (a.denomId, a.signals.nullifierHash) in s'.nullifiers
  {
    WithdrawEffect(env, s, a);
    WithdrawGuards(env, s, a);
    PayOutMeans(s.config, s.accounts, PoolVaultPda(a.denomId), a.recipientAta, a.feeVault, a.signals.paymentAmount.n);
  }

  /** Two withdrawals accepted for one recipient signal pay accounts of owners with the same low 253 bits. */
  lemma RecipientIsBound(env: Program, s: PoolState, a: WithdrawArgs, s2: PoolState, b: WithdrawArgs)
    requires Withdraw(env, s, a).Ok? && Withdraw(env, s2, b).Ok?
    requires a.signals.recipient == b.signals.recipient
    ensures var first, second := s.accounts[a.recipientAta].owner, s2.accounts[b.recipientAta].owner;
            Codec.Value(env.keyBytes(first)) % Codec.TWO_253 == Codec.Value(env.keyBytes(second)) % Codec.TWO_253
  {
    WithdrawGuards(env, s, a);
    WithdrawGuards(env, s2, b);
    PubkeyFieldDetermines(env, s.accounts[a.recipientAta].owner, s2.accounts[b.recipientAta].owner);
  }

  lemma WithdrawGuards(env: Program, s: PoolState, a: WithdrawArgs)
    requires Withdraw(env, s, a).Ok?
    ensures a.nullifierHash == a.signals.nullifierHash && (a.denomId, a.nullifierHash) !in s.nullifiers
    ensures a.recipientAta == AtaPda(s.accounts[a.recipientAta].owner, s.denominations[a.denomId].mint)
    ensures a.signals.recipient == PubkeyField(env, s.accounts[a.recipientAta].owner)
    ensures !s.config.paused && s.config.verifyingKeyHash == env.embeddedVkHash
    ensures a.denomId in s.denominations && a.signals.amount == Num(s.denominations[a.denomId].amountMicroUsdc)
  {
  }

  /** While the pool is paused no deposit and no withdrawal goes through, whoever sends it. */
  lemma PausedPoolIsFrozen(env: Program, s: PoolState, ix: Instruction)
    requires Deployable(env) && s.config.paused && (ix.MakeDeposit? || ix.MakeWithdraw?)
    ensures Apply(env, s, ix).Err?
  {
    if ix.MakeWithdraw? && Withdraw(env, s, ix.withdraw).Ok? {
      WithdrawGuards(env, s, ix.withdraw);
    }
  }

  // ---------------------------------------------------------------------------
  // The verifying-key time lock
  // ---------------------------------------------------------------------------

  /** The instruction queues a verifying key with this hash at this slot, signed by this admin. */
  predicate Queues(ix: Instruction, admin: Pubkey, hash: nat, slot: nat) {
    && ix.Admin? && ix.admin == admin && ix.action.QueueVkUpgrade?
    && ix.action.newVkHash == hash && ix.action.slot == slot
  }

  /** Only the admin's own instructions change the configuration, and none changes the admin. */
  lemma ConfigKept(env: Program, s: PoolState, ix: Instruction)
    requires Deployable(env) && Apply(env, s, ix).Ok?
    ensures !ix.Admin? ==> Apply(env, s, ix).value.config == s.config
    ensures ix.Admin? ==> ix.admin == s.config.admin && Apply(env, s, ix).value.config.admin == s.config.admin
  {
    hide AppendLeaf, Transfer, PayOut, TokenStep, WithdrawCheckError, WithdrawAccountError;
  }

  /** Whatever key is pending was queued by the admin, a lock's length before it may apply. */
  lemma {:induction false} PendingWasQueued(env: Program, w: World, ixs: seq<Instruction>)
    requires Deployable(env) && w.pool.config.pendingAppliesAtSlot == 0
    ensures Run(env, w, ixs).pool.config.admin == w.pool.config.admin
    ensures var c := Run(env, w, ixs).pool.config;
            c.pendingAppliesAtSlot != 0 ==>
              && c.pendingAppliesAtSlot >= PENDING_VK_LOCK_SLOTS
              && exists i {:trigger ixs[i]} :: 0 <= i < |ixs|
                   && Queues(ixs[i], c.admin, c.pendingVkHash, c.pendingAppliesAtSlot - PENDING_VK_LOCK_SLOTS)
  {
    if ixs != [] {
      var init, ix := ixs[..|ixs| - 1], ixs[|ixs| - 1];
      PendingWasQueued(env, w, init);
      var before := Run(env, w, init);
      if Apply(env, before.pool, ix).Ok? {
        ConfigKept(env, before.pool, ix);
      }
      var c, c0 := Run(env, w, ixs).pool.config, before.pool.config;
      hide Apply, Queues, Run;
      if c.pendingAppliesAtSlot != 0 {
        PendingStep(env, before, ix);
        if c.pendingAppliesAtSlot == c0.pendingAppliesAtSlot && c.pendingVkHash == c0.pendingVkHash {
          var queuedAt := c0.pendingAppliesAtSlot - PENDING_VK_LOCK_SLOTS;
          var i :| 0 <= i < |init| && Queues(init[i], c0.admin, c0.pendingVkHash, queuedAt);
          assert ixs[i] == init[i];
        } else {
          assert ixs[|ixs| - 1] == ix;
        }
      }
    }
  }

  lemma PendingStep(env: Program, w: World, ix: Instruction)
    requires Deployable(env)
    ensures var c, c' := w.pool.config, Step(env, w, ix).pool.config;
            c'.pendingAppliesAtSlot != 0 ==>
              || (c'.pendingAppliesAtSlot == c.pendingAppliesAtSlot && c'.pendingVkHash == c.pendingVkHash)
              || (c'.pendingAppliesAtSlot >= PENDING_VK_LOCK_SLOTS
                  && Queues(ix, c.admin, c'.pendingVkHash, c'.pendingAppliesAtSlot - PENDING_VK_LOCK_SLOTS))
  {
    if Apply(env, w.pool, ix).Ok? {
      ConfigKept(env, w.pool, ix);
      hide Deposit, Withdraw, InitializeDenomination, TokenStep;
    }
  }

  /**
   The verifying key that withdrawals are checked against changes only when the admin applies a
   key that the admin queued at least the lock's 432,000 slots before.
   */
  lemma VkUpgradeWaits(env: Program, w: World, ixs: seq<Instruction>, ix: Instruction)
    requires Deployable(env) && w.pool.config.pendingAppliesAtSlot == 0
    ensures var admin, before, after := w.pool.config.admin, Run(env, w, ixs), Step(env, Run(env, w, ixs), ix);
            after.pool.config.verifyingKeyHash != before.pool.config.verifyingKeyHash ==>
              && ix.Admin? && ix.admin == admin && ix.action.ApplyVkUpgrade?
              && ix.action.slot >= PENDING_VK_LOCK_SLOTS
              && exists i, q: nat {:trigger Queues(ixs[i], admin, after.pool.config.verifyingKeyHash, q)} ::
                   && 0 <= i < |ixs| && q + PENDING_VK_LOCK_SLOTS <= ix.action.slot
                   && Queues(ixs[i], admin, after.pool.config.verifyingKeyHash, q)
  {
    PendingWasQueued(env, w, ixs);
    var before := Run(env, w, ixs);
    if Apply(env, before.pool, ix).Ok? {
      ConfigKept(env, before.pool, ix);
      hide Deposit, Withdraw, InitializeDenomination, TokenStep, Run;
    }
  }

  // ---------------------------------------------------------------------------
  // The program itself, driven through a run
  // ---------------------------------------------------------------------------

  /** One instruction handed to the handler it is for; the token program works on the same accounts. */
  method Dispatch(p: PoolProgram, ix: Instruction)
    requires Deployable(p.env)
    modifies p
    ensures var spec := Apply(p.env, old(p.View()), ix);
            p.View() == if spec.Ok? then spec.value else old(p.View())
  {
    var r: Result<(), PoolError>;
    match ix {
      case CreateDenomination(creator, d, amount, mint) =>
        r := p.InitializeDenominationHandler(creator, d, amount, mint);
      case MakeDeposit(a) => r := p.DepositHandler(a);
      case MakeWithdraw(a) => r := p.WithdrawHandler(a);
      case Admin(admin, action) => r := p.AdminHandler(admin, action);
      case Tokens(action) =>
        var used := TokenStep(p.accounts, action);
        if used.Ok? {
          p.accounts := used.value;
        }
    }
  }

  /** The handlers, driven through any run, are where the run says: the results above are about them. */
  method Execute(env: Program, admin: Pubkey, feeBps: U16, accounts: Ledger, ixs: seq<Instruction>)
      returns (p: PoolProgram)
    requires Deployable(env) && InitializePool(admin, feeBps, env.embeddedVkHash, accounts).Ok?
    ensures fresh(p) && p.View() == Run(env, Genesis(admin, feeBps, env.embeddedVkHash, accounts), ixs).pool
  {
    p := new PoolProgram(env, admin, feeBps, accounts);
    ghost var w0 := Genesis(admin, feeBps, env.embeddedVkHash, accounts);
    for i := 0 to |ixs|
      invariant fresh(p) && p.env == env && p.View() == Run(env, w0, ixs[..i]).pool
    {
      Dispatch(p, ixs[i]);
      assert ixs[..i + 1][..i] == ixs[..i];
    }
    assert ixs[..|ixs|] == ixs;
  }
}
