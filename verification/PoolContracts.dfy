/**
 When each instruction of the pool succeeds and what it then leaves, in every reachable state: the
 conditions are read off the accounts and the log of leaves and spends, and the effects off the
 accounts before and after.
 */
module PoolContracts {
  import opened Wrappers
  import opened MachineInts
  import opened MerkleSpec
  import opened IncrementalTree
  import opened FieldTerm
  import opened TokenLedger
  import opened Pool
  import opened PoolSolvency

  /** What the invariant says of one tier. */
  lemma TierFacts(env: Program, w: World, d: nat)
    requires Inv(env, w)
    ensures d in w.logs <==> d in w.pool.denominations
    ensures d in w.logs <==> d in w.pool.trees
    ensures d in w.logs ==>
              var denom, t, vault := w.pool.denominations[d], w.pool.trees[d], PoolVaultPda(d);
              && denom.vault == vault && vault in w.pool.accounts
              && w.pool.accounts[vault].owner == vault && w.pool.accounts[vault].mint == denom.mint
              && Represents(Poseidon(), t, Values(w.logs[d].origins))
              && |t.filledSubtree| == env.depth && |t.rootHistory| == env.ringLen
              && forall h {:trigger (d, h) in w.pool.nullifiers} ::
                   (d, h) in w.pool.nullifiers <==> Spent(w.logs[d].spends, h)
  {
    hide Represents, LogOk;
    if d in w.logs {
      assert DenomOk(env, w.pool, d, w.logs[d]);
    }
  }

  // ---------------------------------------------------------------------------
  // Deposits
  // ---------------------------------------------------------------------------

  /** A signing depositor can pay the tier amount from an account of its own, and there is room for the leaf. */
  ghost predicate Depositable(env: Program, w: World, a: DepositArgs)
    requires Inv(env, w)
  {
    && CanSign(a.depositor) && a.denomId in w.logs && !w.pool.config.paused
    && var denom := w.pool.denominations[a.denomId];
       && a.depositorAta in w.pool.accounts && w.pool.accounts[a.depositorAta].owner == a.depositor
       && w.pool.accounts[a.depositorAta].mint == denom.mint
       && Balance(w.pool.accounts, a.depositorAta) >= denom.amountMicroUsdc
       && a.commitment.Canonical? && |w.logs[a.denomId].origins| < Pow2(env.depth)
       && denom.depositCount + 1 < U64_LIMIT
  }

  /** The trees and counts of all tiers but one are as they were, and no tier changed its terms. */
  ghost predicate OnlyThisTier(before: PoolState, after: PoolState, d: nat) {
    && after.config == before.config
    && after.denominations.Keys == before.denominations.Keys && after.trees.Keys == before.trees.Keys
    && (forall e {:trigger after.denominations[e]} :: e in before.denominations ==>
          after.denominations[e].(depositCount := 0) == before.denominations[e].(depositCount := 0))
    && (forall e {:trigger after.denominations[e]} :: e in before.denominations && e != d ==>
          after.denominations[e] == before.denominations[e])
    && (forall e {:trigger after.trees[e]} :: e in before.trees && e != d ==> after.trees[e] == before.trees[e])
  }

  /** The tier amount went from the depositor to the vault, the commitment is the last leaf, and one more is counted. */
  ghost predicate Deposited(env: Program, w: World, after: PoolState, a: DepositArgs)
    requires Inv(env, w) && a.denomId in w.logs && a.commitment.Canonical?
  {
    var before, d := w.pool, a.denomId;
    && OnlyThisTier(before, after, d) && after.nullifiers == before.nullifiers
    && d in after.denominations && d in after.trees
    && Moves(before.accounts, after.accounts, a.depositorAta, PoolVaultPda(d), before.denominations[d].amountMicroUsdc)
    && after.denominations[d].depositCount == before.denominations[d].depositCount + 1
    && Represents(Poseidon(), after.trees[d], Values(w.logs[d].origins) + [a.commitment.value])
  }

  lemma DepositNeeds(s: PoolState, a: DepositArgs, leaves: seq<Field>)
    requires var d := a.denomId;
             && d in s.denominations && d in s.trees && Represents(Poseidon(), s.trees[d], leaves)
             && s.denominations[d].vault == PoolVaultPda(d) && PoolVaultPda(d) in s.accounts
             && s.accounts[PoolVaultPda(d)].mint == s.denominations[d].mint
    ensures Deposit(s, a).Ok? <==>
              var denom := s.denominations[a.denomId];
              && CanSign(a.depositor) && !s.config.paused
              && a.depositorAta in s.accounts && s.accounts[a.depositorAta].owner == a.depositor
              && s.accounts[a.depositorAta].mint == denom.mint
              && Balance(s.accounts, a.depositorAta) >= denom.amountMicroUsdc
              && a.commitment.Canonical? && |leaves| < Pow2(|s.trees[a.denomId].filledSubtree|)
              && denom.depositCount + 1 < U64_LIMIT
  {
    AppendRefinesRecompute(Poseidon(), s.trees[a.denomId], leaves, a.commitment);
    hide Represents, AppendLeaf, Root;
  }

  lemma DepositLeaves(s: PoolState, a: DepositArgs, leaves: seq<Field>)
    requires Deposit(s, a).Ok? && Represents(Poseidon(), s.trees[a.denomId], leaves)
    requires s.accounts[PoolVaultPda(a.denomId)].owner == PoolVaultPda(a.denomId)
    ensures var s', d := Deposit(s, a).value, a.denomId;
            && OnlyThisTier(s, s', d) && s'.nullifiers == s.nullifiers
            && d in s.denominations && d in s'.denominations && d in s'.trees && a.commitment.Canonical?
            && Moves(s.accounts, s'.accounts, a.depositorAta, PoolVaultPda(d), s.denominations[d].amountMicroUsdc)
            && s'.denominations[d].depositCount == s.denominations[d].depositCount + 1
            && Represents(Poseidon(), s'.trees[d], leaves + [a.commitment.value])
  {
    DepositEffect(s, a);
    hide Deposit, Represents, AppendLeaf, Moves, Transfer, Root;
    AppendRefinesRecompute(Poseidon(), s.trees[a.denomId], leaves, a.commitment);
    TransferMoves(s.accounts, a.depositorAta, PoolVaultPda(a.denomId), s.denominations[a.denomId].amountMicroUsdc);
  }

  /** In every reachable state a deposit succeeds exactly when it can be paid and counted and the tree has room. */
  lemma DepositsExactlyWhen(env: Program, w: World, a: DepositArgs)
    requires Inv(env, w)
    ensures Deposit(w.pool, a).Ok? <==> Depositable(env, w, a)
    ensures Deposit(w.pool, a).Ok? ==> Deposited(env, w, Deposit(w.pool, a).value, a)
  {
    var d := a.denomId;
    hide Represents, OnlyThisTier, Moves, DenomOk;
    TierFacts(env, w, d);
    if d in w.logs {
      DepositNeeds(w.pool, a, Values(w.logs[d].origins));
      hide Deposit;
      if Deposit(w.pool, a).Ok? {
        DepositLeaves(w.pool, a, Values(w.logs[d].origins));
      }
    }
  }

  // ---------------------------------------------------------------------------
  // Withdrawals
  // ---------------------------------------------------------------------------

  /** The payment goes to an account that the proof's recipient owns, and the fee account, if named, exists. */
  ghost predicate PayeesAgree(env: Program, s: PoolState, a: WithdrawArgs)
    requires a.denomId in s.denominations
  {
    var mint := s.denominations[a.denomId].mint;
    && a.recipientAta in s.accounts && s.accounts[a.recipientAta].mint == mint
    && a.recipientAta == AtaPda(s.accounts[a.recipientAta].owner, mint)
    && a.signals.recipient == PubkeyField(env, s.accounts[a.recipientAta].owner)
    && (a.feeVault.Some? ==> a.feeVault.value in s.accounts && s.accounts[a.feeVault.value].mint == mint)
  }

  /** The root is one the tier's tree had at one of its latest sizes. */
  ghost predicate RecentRoot(env: Program, leaves: seq<Field>, root: Field) {
    exists m: nat {:trigger RootAt(Poseidon(), env.depth, leaves, m)} ::
      RecentSize(|leaves|, env.ringLen, m) && root == RootAt(Poseidon(), env.depth, leaves, m)
  }

  /** An unspent full-tier commitment under a recent root is opened for accounts that agree, and the fee can be paid. */
  ghost predicate WithdrawalIsDue(env: Program, w: World, a: WithdrawArgs)
    requires Inv(env, w)
  {
    && a.denomId in w.logs && !w.pool.config.paused && w.pool.config.verifyingKeyHash == env.embeddedVkHash
    && var log, sig := w.logs[a.denomId], a.signals;
       && PayeesAgree(env, w.pool, a)
       && a.nullifierHash == sig.nullifierHash && !Spent(log.spends, sig.nullifierHash)
       && sig.amount == Num(w.pool.denominations[a.denomId].amountMicroUsdc)
       && RecentRoot(env, Values(log.origins), sig.root) && SpendRelation(env.depth, sig, a.proof)
       && |log.origins| < Pow2(env.depth) && FeePathOpen(w.pool.config, a)
  }

  /** The payment was split as agreed, the nullifier is spent, the change is the last leaf, and that is all. */
  ghost predicate Withdrawn(env: Program, w: World, after: PoolState, a: WithdrawArgs)
    requires Inv(env, w) && a.denomId in w.logs && a.signals.paymentAmount.Num?
  {
    var before, d := w.pool, a.denomId;
    && OnlyThisTier(before, after, d) && after.denominations == before.denominations && d in after.trees
    && PaidOut(before.config, before.accounts, after.accounts, PoolVaultPda(d), a.recipientAta,
               a.signals.paymentAmount.n)
    && after.nullifiers == before.nullifiers[(d, a.signals.nullifierHash) := a.slot]
    && Represents(Poseidon(), after.trees[d], Values(w.logs[d].origins) + [a.signals.changeCommitment])
  }

  lemma RecentRootIsKnown(env: Program, t: TreeState<Field>, leaves: seq<Field>, root: Field)
    requires Represents(Poseidon(), t, leaves) && |t.filledSubtree| == env.depth && |t.rootHistory| == env.ringLen
    requires Deployable(env)
    ensures IsKnownRoot(Poseidon(), t, root) <==> RecentRoot(env, leaves, root)
  {
    KnownRootWindow(Poseidon(), t, leaves, root);
    if m: nat :| RecentSize(|leaves|, env.ringLen, m) && root == RootAt(Poseidon(), env.depth, leaves, m) {
      RootIsHash(env.depth, leaves[..m]);
    }
  }

  lemma ChecksAre(env: Program, w: World, a: WithdrawArgs)
    requires Inv(env, w)
    ensures WithdrawalIsDue(env, w, a) <==>
              && ChecksPass(env, w.pool, a) && a.denomId in w.logs
              && FeePathOpen(w.pool.config, a) && |w.logs[a.denomId].origins| < Pow2(env.depth)
  {
    var d := a.denomId;
    TierFacts(env, w, d);
    if d in w.logs {
      RecentRootIsKnown(env, w.pool.trees[d], Values(w.logs[d].origins), a.signals.root);
      assert (d, a.nullifierHash) in w.pool.nullifiers <==> Spent(w.logs[d].spends, a.nullifierHash);
      hide Inv, Represents, IsKnownRoot, RecentRoot, PubkeyField, FeePathOpen, Spent, Fold;
    }
  }

  /** In every reachable state a withdrawal succeeds exactly when it is due. */
  lemma WithdrawsExactlyWhen(env: Program, w: World, a: WithdrawArgs)
    requires Inv(env, w)
    ensures Withdraw(env, w.pool, a).Ok? <==> WithdrawalIsDue(env, w, a)
    ensures Withdraw(env, w.pool, a).Ok? ==>
              a.signals.paymentAmount.Num? && Withdrawn(env, w, Withdraw(env, w.pool, a).value, a)
  {
    ChecksAre(env, w, a);
    hide WithdrawalIsDue, ChecksPass, FeePathOpen, DenomOk;
    if ChecksPass(env, w.pool, a) {
      VerifiedWithdrawSucceeds(env, w, a);
    }
    if Withdraw(env, w.pool, a).Ok? {
      ConcernedTierExists(env, w.pool, MakeWithdraw(a), a.denomId);
      TierFacts(env, w, a.denomId);
      hide Withdraw, Represents, PaidOut, OnlyThisTier;
      WithdrawLeaves(env, w.pool, a, Values(w.logs[a.denomId].origins));
    }
  }

  lemma WithdrawLeaves(env: Program, s: PoolState, a: WithdrawArgs, leaves: seq<Field>)
    requires Withdraw(env, s, a).Ok? && s.config.feeBps <= MAX_BPS
    requires Represents(Poseidon(), s.trees[a.denomId], leaves)
    ensures var s', d := Withdraw(env, s, a).value, a.denomId;
            && OnlyThisTier(s, s', d) && s'.denominations == s.denominations && d in s'.trees
            && a.signals.paymentAmount.Num?
            && PaidOut(s.config, s.accounts, s'.accounts, PoolVaultPda(d), a.recipientAta, a.signals.paymentAmount.n)
            && s'.nullifiers == s.nullifiers[(d, a.signals.nullifierHash) := a.slot]
            && Represents(Poseidon(), s'.trees[d], leaves + [a.signals.changeCommitment])
  {
    WithdrawEffect(env, s, a);
    WithdrawGuards(env, s, a);
    hide Withdraw, PayOut, PaidOut, ChecksPass, Represents, AppendLeaf, Root, PubkeyField, Credit;
    AppendRefinesRecompute(Poseidon(), s.trees[a.denomId], leaves, Canonical(a.signals.changeCommitment));
    PayOutMeans(s.config, s.accounts, PoolVaultPda(a.denomId), a.recipientAta, a.feeVault,
                a.signals.paymentAmount.n);
  }

  // ---------------------------------------------------------------------------
  // Setting up and administering
  // ---------------------------------------------------------------------------

  /** A pool starts unpaused, without fee vault, tiers or pending key, with the fee it was given. */
  lemma PoolStartsExactlyWhen(admin: Pubkey, feeBps: U16, vkHash: nat, accounts: Ledger)
    ensures InitializePool(admin, feeBps, vkHash, accounts).Ok? <==> CanSign(admin) && feeBps <= 10_000
    ensures InitializePool(admin, feeBps, vkHash, accounts).Ok? ==>
              var s := InitializePool(admin, feeBps, vkHash, accounts).value;
              && s.config.admin == admin && s.config.feeBps == feeBps && !s.config.paused
              && s.config.feeVault == DefaultKey && s.config.verifyingKeyHash == vkHash
              && s.config.pendingVkHash == s.config.pendingAppliesAtSlot == 0
              && s.denominations == map[] && s.trees == map[] && s.nullifiers == map[] && s.accounts == accounts
  {
  }

  /** A tier is created once, by the admin, with the given terms, no leaves and an empty vault. */
  lemma TierStartsExactlyWhen(env: Program, s: PoolState, creator: Pubkey, d: nat, amount: U64, mint: Pubkey)
    requires Deployable(env)
    ensures InitializeDenomination(env, s, creator, d, amount, mint).Ok? <==>
              && CanSign(creator) && creator == s.config.admin
              && d !in s.denominations && d !in s.trees && PoolVaultPda(d) !in s.accounts
    ensures InitializeDenomination(env, s, creator, d, amount, mint).Ok? ==>
              var s' := InitializeDenomination(env, s, creator, d, amount, mint).value;
              && s'.config == s.config && s'.nullifiers == s.nullifiers
              && s'.denominations == s.denominations[d := Denomination(amount, 0, PoolVaultPda(d), mint)]
              && s'.accounts == s.accounts[PoolVaultPda(d) := TokenAccount(PoolVaultPda(d), mint, 0)]
              && s'.trees.Keys == s.trees.Keys + {d} && Represents(Poseidon(), s'.trees[d], [])
              && |s'.trees[d].filledSubtree| == env.depth && |s'.trees[d].rootHistory| == env.ringLen
              && forall e {:trigger s'.trees[e]} :: e in s.trees ==> s'.trees[e] == s.trees[e]
  {
    hide Represents;
    FreshRepresentsEmpty(Poseidon(), env.depth, env.ringLen);
  }

  /** The conditions an admin action has besides the admin's signature. */
  predicate ActionIsOpen(s: PoolState, action: AdminAction) {
    match action
    case SetPaused(_) => true
    case SetFeeVault(feeVault) => feeVault in s.accounts
    case QueueVkUpgrade(_, slot) => slot + 432_000 < U64_LIMIT
    case ApplyVkUpgrade(slot) => 0 < s.config.pendingAppliesAtSlot <= slot
  }

  /** Each action sets its own part of the configuration, to what it was given, and no other. */
  ghost predicate Configured(before: PoolConfig, after: PoolConfig, action: AdminAction) {
    && after.admin == before.admin && after.feeBps == before.feeBps
    && after.paused == (if action.SetPaused? then action.paused else before.paused)
    && after.feeVault == (if action.SetFeeVault? then action.feeVault else before.feeVault)
    && after.verifyingKeyHash == (if action.ApplyVkUpgrade? then before.pendingVkHash else before.verifyingKeyHash)
    && (after.pendingVkHash, after.pendingAppliesAtSlot) ==
         if action.QueueVkUpgrade? then (action.newVkHash, action.slot + 432_000)
         else if action.ApplyVkUpgrade? then (0, 0)
         else (before.pendingVkHash, before.pendingAppliesAtSlot)
  }

  lemma AdministersExactlyWhen(s: PoolState, admin: Pubkey, action: AdminAction)
    ensures Administer(s, admin, action).Ok? <==>
              CanSign(admin) && admin == s.config.admin && ActionIsOpen(s, action)
    ensures Administer(s, admin, action).Ok? ==>
              var after := Administer(s, admin, action).value;
              Configured(s.config, after.config, action) && after == s.(config := after.config)
  {
  }

  // ---------------------------------------------------------------------------
  // Errors
  // ---------------------------------------------------------------------------

  lemma TreeErrorIsTrue(t: TreeState<Field>, leaves: seq<Field>, leaf: LeafBytes<Field>)
    requires Represents(Poseidon(), t, leaves) && AppendLeaf(Poseidon(), t, leaf).Err?
    ensures match AppendLeaf(Poseidon(), t, leaf).error
            case TreeFull => |leaves| >= Pow2(|t.filledSubtree|)
            case HashFailure => leaf.NonCanonical?
  {
  }

  /** What an error of a deposit says about the state. */
  ghost predicate DepositCause(env: Program, w: World, a: DepositArgs, e: PoolError)
    requires Inv(env, w)
  {
    var s, d, ata := w.pool, a.denomId, a.depositorAta;
    match e
    case MissingSignature => !CanSign(a.depositor)
    case AccountMissing => d !in w.logs || ata !in s.accounts
    case UnknownDenomination =>
      && d in w.logs && ata in s.accounts
      && (s.accounts[ata].owner != a.depositor || s.accounts[ata].mint != s.denominations[d].mint)
    case Paused => s.config.paused
    case Token(InsufficientFunds) => d in w.logs && Balance(s.accounts, ata) < s.denominations[d].amountMicroUsdc
    case Tree(TreeFull) => d in w.logs && |w.logs[d].origins| >= Pow2(env.depth)
    case Tree(HashFailure) => a.commitment.NonCanonical?
    case Overflow => d in w.logs && s.denominations[d].depositCount + 1 >= U64_LIMIT
    case _ => false
  }

  /** A refused deposit names a true cause. */
  lemma DepositErrorIsTrue(env: Program, w: World, a: DepositArgs)
    requires Inv(env, w) && Deposit(w.pool, a).Err?
    ensures DepositCause(env, w, a, Deposit(w.pool, a).error)
  {
    var d := a.denomId;
    hide DenomOk, Represents, AppendLeaf, Spent;
    TierFacts(env, w, d);
    if d in w.logs && AppendLeaf(Poseidon(), w.pool.trees[d], a.commitment).Err? {
      TreeErrorIsTrue(w.pool.trees[d], Values(w.logs[d].origins), a.commitment);
    }
  }

  /** What an error of a withdrawal says about the state. */
  ghost predicate WithdrawCause(env: Program, w: World, a: WithdrawArgs, e: PoolError)
    requires Inv(env, w)
  {
    var s, d, sig := w.pool, a.denomId, a.signals;
    match e
    case AccountMissing =>
      d !in w.logs || a.recipientAta !in s.accounts || (a.feeVault.Some? && a.feeVault.value !in s.accounts)
    case UnknownDenomination =>
      && d in w.logs && a.recipientAta in s.accounts
      && s.accounts[a.recipientAta].mint != s.denominations[d].mint
    case AlreadyInUse => d in w.logs && Spent(w.logs[d].spends, a.nullifierHash)
    case Paused => s.config.paused
    case NullifierMismatch => a.nullifierHash != sig.nullifierHash
    case RecipientMismatch =>
      a.recipientAta in s.accounts && sig.recipient != PubkeyField(env, s.accounts[a.recipientAta].owner)
    case NonCanonicalAta =>
      && d in w.logs && a.recipientAta in s.accounts
      && a.recipientAta != AtaPda(s.accounts[a.recipientAta].owner, s.denominations[d].mint)
    case StaleRoot => d in w.logs && !RecentRoot(env, Values(w.logs[d].origins), sig.root)
    case AmountMismatch => d in w.logs && sig.amount != Num(s.denominations[d].amountMicroUsdc)
    case VkHashMismatch => s.config.verifyingKeyHash != env.embeddedVkHash
    case InvalidProof => !SpendRelation(env.depth, sig, a.proof)
    case Overflow => sig.paymentAmount.Num? && sig.paymentAmount.n * s.config.feeBps >= U64_LIMIT
    case FeeVaultNotSet => s.config.feeVault != DefaultKey && a.feeVault.None?
    case FeeVaultMismatch =>
      a.feeVault.Some? && (a.feeVault.value != s.config.feeVault
                           || (d in w.logs && a.feeVault.value in s.accounts
                               && s.accounts[a.feeVault.value].mint != s.denominations[d].mint))
    case Tree(TreeFull) => d in w.logs && |w.logs[d].origins| >= Pow2(env.depth)
    case _ => false
  }

  lemma FeeErrorIsTrue(config: PoolConfig, l: Ledger, vault: Pubkey, recipientAta: Pubkey, feeVault: Option<Pubkey>,
                       payment: nat)
    requires config.feeBps <= MAX_BPS && PayOut(config, l, vault, recipientAta, feeVault, payment).Err?
    ensures match PayOut(config, l, vault, recipientAta, feeVault, payment).error
            case Overflow => payment * config.feeBps >= U64_LIMIT
            case FeeVaultNotSet => config.feeVault != DefaultKey && feeVault.None?
            case FeeVaultMismatch => feeVault.Some? && feeVault.value != config.feeVault
            case Token(_) => true
            case _ => false
  {
    assert Fee(payment, config.feeBps) <= payment;
    hide Fee, Transfer;
  }

  lemma CheckErrorIsTrue(env: Program, w: World, a: WithdrawArgs)
    requires Inv(env, w)
    ensures var e := WithdrawAccountError(w.pool, a);
            if e.Some? then WithdrawCause(env, w, a, e.value)
            else
              var e := WithdrawCheckError(env, w.pool, a);
              a.denomId in w.logs && (e.Some? ==> WithdrawCause(env, w, a, e.value))
  {
    var d := a.denomId;
    hide DenomOk, Represents, IsKnownRoot, RecentRoot, PubkeyField, Spent, Fold;
    TierFacts(env, w, d);
    if d in w.logs {
      RecentRootIsKnown(env, w.pool.trees[d], Values(w.logs[d].origins), a.signals.root);
      assert (d, a.nullifierHash) in w.pool.nullifiers <==> Spent(w.logs[d].spends, a.nullifierHash);
    }
  }

  lemma PaymentIsNumber(env: Program, s: PoolState, a: WithdrawArgs)
    requires ChecksPass(env, s, a)
    ensures a.signals.paymentAmount.Num?
  {
  }

  lemma PayErrorIsTrue(env: Program, w: World, a: WithdrawArgs)
    requires Inv(env, w) && ChecksPass(env, w.pool, a) && Withdraw(env, w.pool, a).Err?
    ensures WithdrawCause(env, w, a, Withdraw(env, w.pool, a).error)
  {
    hide DenomOk, PayOut, AppendLeaf, RecentRoot, PubkeyField, Spent, SpendRelation, WithdrawCheckError,
         WithdrawAccountError, FeePathOpen;
    PaymentIsNumber(env, w.pool, a);
    VerifiedWithdrawSucceeds(env, w, a);
    var s, vault := w.pool, PoolVaultPda(a.denomId);
    TierFacts(env, w, a.denomId);
    if AppendLeaf(Poseidon(), s.trees[a.denomId], Canonical(a.signals.changeCommitment)).Err? {
      TreeErrorIsTrue(s.trees[a.denomId], Values(w.logs[a.denomId].origins), Canonical(a.signals.changeCommitment));
    }
    if PayOut(s.config, s.accounts, vault, a.recipientAta, a.feeVault, a.signals.paymentAmount.n).Err? {
      FeeErrorIsTrue(s.config, s.accounts, vault, a.recipientAta, a.feeVault, a.signals.paymentAmount.n);
    }
  }

  /** A refused withdrawal names a true cause. */
  lemma WithdrawErrorIsTrue(env: Program, w: World, a: WithdrawArgs)
    requires Inv(env, w) && Withdraw(env, w.pool, a).Err?
    ensures WithdrawCause(env, w, a, Withdraw(env, w.pool, a).error)
  {
    CheckErrorIsTrue(env, w, a);
    if ChecksPass(env, w.pool, a) {
      PayErrorIsTrue(env, w, a);
    }
    hide Inv, WithdrawCause, WithdrawAccountError, WithdrawCheckError, PayOut, AppendLeaf;
  }
}
