/**
 The shielded pool program.  Each instruction has a specification function from the stored
 state to a new state or an error, and a method of `PoolProgram` that carries it out step by
 step as the program does.  An instruction that fails changes nothing: the runtime writes the
 accounts back only when the handler returns normally.

 Groth16 verification is ideal: a proof is accepted exactly when it carries a witness for the
 circuit's constraints.
 */
module Pool {
  import opened Wrappers
  import opened MachineInts
  import opened MerkleSpec
  import opened IncrementalTree
  import opened FieldTerm
  import opened TokenLedger
  import Codec

  const MAX_BPS: nat := 10000
  const PENDING_VK_LOCK_SLOTS: nat := 432_000

  datatype PoolError =
    | MissingSignature
    | AccountMissing
    | AlreadyInUse
    | Paused
    | NotAdmin
    | UnknownDenomination
    | Tree(tree: TreeError)
    | StaleRoot
    | InvalidProof
    | PaymentAmountOverflow
    | AmountMismatch
    | NullifierMismatch
    | RecipientMismatch
    | NonCanonicalAta
    | VkUpgradeLocked
    | VkHashMismatch
    | NoPendingUpgrade
    | Overflow
    | FeeVaultNotSet
    | FeeVaultMismatch
    | FeeBpsTooHigh
    | Token(token: TransferError)
    | TokenProgram(refusal: TokenActionError)

  type TreeAccount = t: TreeState<Field> | WellShaped(t) witness TreeState(0, [ZERO], [ZERO], 0, [ZERO])

  /** The compiled program: tree size, root window and verifying key; and the 32 bytes of every address. */
  datatype Program = Program(depth: nat, ringLen: nat, embeddedVkHash: nat, keyBytes: Pubkey -> Codec.Bytes32)

  /** `pubkey_to_field`: the field element that stands for an address in a proof. */
  function PubkeyField(env: Program, key: Pubkey): Field {
    Num(Codec.Value(Codec.MaskPubkey(env.keyBytes(key))))
  }

  /** Two addresses stand for the same field element exactly when their low 253 bits agree. */
  lemma PubkeyFieldDetermines(env: Program, a: Pubkey, b: Pubkey)
    ensures PubkeyField(env, a) == PubkeyField(env, b) <==>
              Codec.Value(env.keyBytes(a)) % Codec.TWO_253 == Codec.Value(env.keyBytes(b)) % Codec.TWO_253
  {
    Codec.MaskedPubkeyIsFieldElement(env.keyBytes(a));
    Codec.MaskedPubkeyIsFieldElement(env.keyBytes(b));
  }

  predicate Deployable(env: Program) {
    1 <= env.depth && 1 <= env.ringLen <= 256
  }

  datatype PoolConfig = PoolConfig(
    admin: Pubkey,
    feeBps: U16,
    paused: bool,
    verifyingKeyHash: nat,
    pendingVkHash: nat,
    pendingAppliesAtSlot: U64,
    feeVault: Pubkey
  )

  datatype Denomination = Denomination(amountMicroUsdc: U64, depositCount: nat, vault: Pubkey, mint: Pubkey)

  datatype PoolState = PoolState(
    config: PoolConfig,
    denominations: map<nat, Denomination>,
    trees: map<nat, TreeAccount>,
    nullifiers: map<(nat, Field), U64>,
    accounts: Ledger
  )

  // ---------------------------------------------------------------------------
  // The spend circuit
  // ---------------------------------------------------------------------------

  /** In the circuit's declaration order, which is also the verifier's. */
  datatype PublicSignals = PublicSignals(
    amount: Field,
    root: Field,
    nullifierHash: Field,
    recipient: Field,
    paymentAmount: Field,
    changeCommitment: Field
  )

  datatype SpendWitness = SpendWitness(
    secret: Field,
    nullifier: Field,
    newSecret: Field,
    newNullifier: Field,
    pathElements: seq<Field>,
    pathIndices: seq<nat>
  )

  function Commitment(secret: Field, nullifier: Field, amount: nat): Field {
    H3(secret, nullifier, Num(amount))
  }

  predicate FitsU64(x: Field) {
    x.Num? && x.n < U64_LIMIT
  }

  predicate SpendRelation(depth: nat, pub: PublicSignals, w: SpendWitness) {
    && |w.pathElements| == |w.pathIndices| == depth
    && (forall i :: 0 <= i < depth ==> w.pathIndices[i] < 2)
    && Fold(Poseidon(), H3(w.secret, w.nullifier, pub.amount), w.pathElements, w.pathIndices, depth) == pub.root
    && pub.nullifierHash == H1(w.nullifier)
    && FitsU64(pub.amount) && FitsU64(pub.paymentAmount)
    && 0 < pub.paymentAmount.n <= pub.amount.n
    && pub.changeCommitment == Commitment(w.newSecret, w.newNullifier, pub.amount.n - pub.paymentAmount.n)
  }

  // ---------------------------------------------------------------------------
  // Specification of the instructions
  // ---------------------------------------------------------------------------

  function InitializePool(admin: Pubkey, feeBps: U16, vkHash: nat, accounts: Ledger): Result<PoolState, PoolError> {
    if !CanSign(admin) then Err(MissingSignature)
    else if feeBps > MAX_BPS then Err(FeeBpsTooHigh)
    else Ok(PoolState(PoolConfig(admin, feeBps, false, vkHash, 0, 0, DefaultKey), map[], map[], map[], accounts))
  }

  function InitializeDenomination(env: Program, s: PoolState, admin: Pubkey, denomId: nat, amount: U64, mint: Pubkey)
    : Result<PoolState, PoolError>
    requires Deployable(env)
  {
    var vault := PoolVaultPda(denomId);
    if !CanSign(admin) then Err(MissingSignature)
    else if admin != s.config.admin then Err(NotAdmin)
    else if denomId in s.denominations || denomId in s.trees || vault in s.accounts then Err(AlreadyInUse)
    else
      Ok(s.(denominations := s.denominations[denomId := Denomination(amount, 0, vault, mint)],
            trees := s.trees[denomId := FreshTree(Poseidon(), env.depth, env.ringLen)],
            accounts := s.accounts[vault := TokenAccount(vault, mint, 0)]))
  }

  datatype DepositArgs = DepositArgs(denomId: nat, commitment: LeafBytes<Field>, depositor: Pubkey,
                                     depositorAta: Pubkey)

  function Deposit(s: PoolState, a: DepositArgs): Result<PoolState, PoolError> {
    var vault := PoolVaultPda(a.denomId);
    if !CanSign(a.depositor) then Err(MissingSignature)
    else if a.denomId !in s.denominations || a.denomId !in s.trees then Err(AccountMissing)
    else
      var denom := s.denominations[a.denomId];
      if vault !in s.accounts || a.depositorAta !in s.accounts then Err(AccountMissing)
      else if vault != denom.vault then Err(UnknownDenomination)
      else if s.accounts[a.depositorAta].mint != denom.mint then Err(UnknownDenomination)
      else if s.accounts[a.depositorAta].owner != a.depositor then Err(UnknownDenomination)
      else if s.config.paused then Err(Paused)
      else
        match Transfer(s.accounts, a.depositorAta, vault, denom.amountMicroUsdc)
        case Err(e) => Err(Token(e))
        case Ok(accounts) =>
          match AppendLeaf(Poseidon(), s.trees[a.denomId], a.commitment)
          case Err(e) => Err(Tree(e))
          case Ok((tree, _)) =>
            if denom.depositCount + 1 >= U64_LIMIT then Err(Overflow)
            else
              var counted := denom.(depositCount := denom.depositCount + 1);
              Ok(s.(denominations := s.denominations[a.denomId := counted],
                    trees := s.trees[a.denomId := tree],
                    accounts := accounts))
  }

  /** The depositor signs and can pay the tier amount, and there is room for the leaf and the count. */
  predicate DepositOpen(s: PoolState, a: DepositArgs) {
    var vault := PoolVaultPda(a.denomId);
    && CanSign(a.depositor) && !s.config.paused
    && a.denomId in s.denominations && a.denomId in s.trees && vault in s.accounts && a.depositorAta in s.accounts
    && var denom := s.denominations[a.denomId];
       && denom.vault == vault && s.accounts[vault].mint == denom.mint
       && s.accounts[a.depositorAta].mint == denom.mint && s.accounts[a.depositorAta].owner == a.depositor
       && Balance(s.accounts, a.depositorAta) >= denom.amountMicroUsdc && denom.depositCount + 1 < U64_LIMIT
       && s.trees[a.denomId].nextLeafIndex < Pow2(|s.trees[a.denomId].filledSubtree|) && a.commitment.Canonical?
  }

  /** A deposit succeeds exactly then, and moves the tier amount into the vault. */
  lemma DepositContract(s: PoolState, a: DepositArgs)
    ensures Deposit(s, a).Ok? <==> DepositOpen(s, a)
    ensures Deposit(s, a).Ok? && a.depositorAta != PoolVaultPda(a.denomId) ==>
              Moves(s.accounts, Deposit(s, a).value.accounts, a.depositorAta, PoolVaultPda(a.denomId),
                    s.denominations[a.denomId].amountMicroUsdc)
  {
    hide WalkUp, Moves;
    if Deposit(s, a).Ok? && a.depositorAta != PoolVaultPda(a.denomId) {
      TransferMoves(s.accounts, a.depositorAta, PoolVaultPda(a.denomId), s.denominations[a.denomId].amountMicroUsdc);
    }
  }

  datatype WithdrawArgs = WithdrawArgs(
    denomId: nat,
    nullifierHash: Field,
    proof: SpendWitness,
    signals: PublicSignals,
    recipientAta: Pubkey,
    feeVault: Option<Pubkey>,
    slot: U64
  )

  /** The account constraints checked before the handler runs. */
  function WithdrawAccountError(s: PoolState, a: WithdrawArgs): Option<PoolError> {
    var vault := PoolVaultPda(a.denomId);
    if a.denomId !in s.denominations || a.denomId !in s.trees then Some(AccountMissing)
    else
      var denom := s.denominations[a.denomId];
      if vault !in s.accounts then Some(AccountMissing)
      else if vault != denom.vault then Some(UnknownDenomination)
      else if (a.denomId, a.nullifierHash) in s.nullifiers then Some(AlreadyInUse)
      else if a.recipientAta !in s.accounts then Some(AccountMissing)
      else if s.accounts[a.recipientAta].mint != denom.mint then Some(UnknownDenomination)
      else if a.feeVault.Some? && a.feeVault.value !in s.accounts then Some(AccountMissing)
      else if a.feeVault.Some? && s.accounts[a.feeVault.value].mint != denom.mint then Some(FeeVaultMismatch)
      else None
  }

  /** The handler's own checks, in its order. */
  function WithdrawCheckError(env: Program, s: PoolState, a: WithdrawArgs): Option<PoolError>
    requires WithdrawAccountError(s, a).None?
  {
    var denom, owner := s.denominations[a.denomId], s.accounts[a.recipientAta].owner;
    if s.config.paused then Some(Paused)
    else if a.nullifierHash != a.signals.nullifierHash then Some(NullifierMismatch)
    else if a.signals.recipient != PubkeyField(env, owner) then Some(RecipientMismatch)
    else if AtaPda(owner, denom.mint) != a.recipientAta then Some(NonCanonicalAta)
    else if !IsKnownRoot(Poseidon(), s.trees[a.denomId], a.signals.root) then Some(StaleRoot)
    else if a.signals.amount != Num(denom.amountMicroUsdc) then Some(AmountMismatch)
    else if env.embeddedVkHash != s.config.verifyingKeyHash then Some(VkHashMismatch)
    else if !SpendRelation(env.depth, a.signals, a.proof) then Some(InvalidProof)
    else if !FitsU64(a.signals.paymentAmount) then Some(PaymentAmountOverflow)
    else None
  }

  function Fee(payment: nat, feeBps: nat): (fee: nat)
    ensures feeBps <= MAX_BPS ==> fee <= payment
  {
    FeeBounded(payment, feeBps);
    payment * feeBps / MAX_BPS
  }

  lemma FeeBounded(payment: nat, feeBps: nat)
    ensures feeBps <= MAX_BPS ==> payment * feeBps / MAX_BPS <= payment
  {
    if feeBps <= MAX_BPS {
      assert payment * feeBps <= payment * MAX_BPS;
    }
  }

  /** What is withheld from a payment: nothing without a fee vault, else feeBps ten-thousandths rounded down. */
  function Withheld(config: PoolConfig, payment: nat): nat {
    if config.feeVault == DefaultKey then 0 else Fee(payment, config.feeBps)
  }

  lemma FeeRoundsDown(payment: nat, feeBps: nat)
    ensures MAX_BPS * Fee(payment, feeBps) <= payment * feeBps < MAX_BPS * (Fee(payment, feeBps) + 1)
  {
  }

  /** What a pay-out adds to an account, whichever of the three accounts coincide. */
  function Credit(config: PoolConfig, vault: Pubkey, recipientAta: Pubkey, payment: nat, account: Pubkey): int {
    var fee := Withheld(config, payment);
    (if account == recipientAta then payment - fee else 0)
    + (if config.feeVault != DefaultKey && account == config.feeVault then fee else 0)
    - (if account == vault then payment else 0)
  }

  /** Seen from outside: every account changed by its credit, and no owner or mint changed. */
  ghost predicate PaidOut(config: PoolConfig, before: Ledger, after: Ledger, vault: Pubkey, recipientAta: Pubkey,
                          payment: nat)
  {
    && SameAccounts(before, after)
    && forall k {:trigger Balance(after, k)} ::
         Balance(after, k) == Balance(before, k) + Credit(config, vault, recipientAta, payment, k)
  }

  /** Pays the recipient, and the fee vault when one is configured. */
  function PayOut(config: PoolConfig, accounts: Ledger, vault: Pubkey, recipientAta: Pubkey, feeVault: Option<Pubkey>,
                  payment: nat): Result<Ledger, PoolError>
  {
    if config.feeVault == DefaultKey then
      match Transfer(accounts, vault, recipientAta, payment)
      case Err(e) => Err(Token(e))
      case Ok(paid) => Ok(paid)
    else if payment * config.feeBps >= U64_LIMIT then Err(Overflow)
    else
      var fee := Fee(payment, config.feeBps);
      if fee > payment then Err(Overflow)
      else if feeVault.None? then Err(FeeVaultNotSet)
      else if feeVault.value != config.feeVault then Err(FeeVaultMismatch)
      else
        match Transfer(accounts, vault, recipientAta, payment - fee)
        case Err(e) => Err(Token(e))
        case Ok(net) =>
          match Transfer(net, vault, feeVault.value, fee)
          case Err(e) => Err(Token(e))
          case Ok(paid) => Ok(paid)
  }

  /**
   A pay-out that goes through takes exactly the payment from the vault and hands on all of it; the
   fee is rounded down.
   */
  lemma PayOutMeans(config: PoolConfig, l: Ledger, vault: Pubkey, recipientAta: Pubkey, feeVault: Option<Pubkey>,
                    payment: nat)
    requires config.feeBps <= MAX_BPS
    ensures var r := PayOut(config, l, vault, recipientAta, feeVault, payment);
            r.Ok? ==> PaidOut(config, l, r.value, vault, recipientAta, payment)
    ensures var fee := Withheld(config, payment);
            if config.feeVault == DefaultKey then fee == 0
            else MAX_BPS * fee <= payment * config.feeBps < MAX_BPS * (fee + 1)
  {
    FeeRoundsDown(payment, config.feeBps);
    hide PayOut, Credit, Balance, SameAccounts, Fee;
    var r := PayOut(config, l, vault, recipientAta, feeVault, payment);
    if r.Ok? {
      PayOutCredits(config, l, vault, recipientAta, feeVault, payment, vault);
      forall k ensures Balance(r.value, k) == Balance(l, k) + Credit(config, vault, recipientAta, payment, k) {
        PayOutCredits(config, l, vault, recipientAta, feeVault, payment, k);
      }
    }
  }

  lemma PayOutCredits(config: PoolConfig, l: Ledger, vault: Pubkey, recipientAta: Pubkey, feeVault: Option<Pubkey>,
                      payment: nat, k: Pubkey)
    requires config.feeBps <= MAX_BPS && PayOut(config, l, vault, recipientAta, feeVault, payment).Ok?
    ensures var paid := PayOut(config, l, vault, recipientAta, feeVault, payment).value;
            SameAccounts(l, paid) && Balance(paid, k) == Balance(l, k) + Credit(config, vault, recipientAta, payment, k)
  {
    hide Fee, Transfer, Balance, SameAccounts;
    if config.feeVault == DefaultKey {
      TransferCredits(l, vault, recipientAta, payment, k);
    } else {
      FeeCredits(config, l, vault, recipientAta, payment, k);
    }
  }

  /** With a fee vault there are two transfers. */
  lemma FeeCredits(config: PoolConfig, l: Ledger, vault: Pubkey, recipientAta: Pubkey, payment: nat, k: Pubkey)
    requires config.feeBps <= MAX_BPS && config.feeVault != DefaultKey
    requires var net := Transfer(l, vault, recipientAta, payment - Fee(payment, config.feeBps));
             net.Ok? && Transfer(net.value, vault, config.feeVault, Fee(payment, config.feeBps)).Ok?
    ensures var fee := Fee(payment, config.feeBps);
            var net := Transfer(l, vault, recipientAta, payment - fee).value;
            var paid := Transfer(net, vault, config.feeVault, fee).value;
            SameAccounts(l, paid) && Balance(paid, k) == Balance(l, k) + Credit(config, vault, recipientAta, payment, k)
  {
    hide Fee, Transfer, Balance;
    var fee := Fee(payment, config.feeBps);
    TransferCredits(l, vault, recipientAta, payment - fee, k);
    TransferCredits(Transfer(l, vault, recipientAta, payment - fee).value, vault, config.feeVault, fee, k);
  }

  function Withdraw(env: Program, s: PoolState, a: WithdrawArgs): Result<PoolState, PoolError> {
    match WithdrawAccountError(s, a)
    case Some(e) => Err(e)
    case None =>
      match WithdrawCheckError(env, s, a)
      case Some(e) => Err(e)
      case None =>
        match PayOut(s.config, s.accounts, PoolVaultPda(a.denomId), a.recipientAta, a.feeVault,
                     a.signals.paymentAmount.n)
        case Err(e) => Err(e)
        case Ok(accounts) =>
          match AppendLeaf(Poseidon(), s.trees[a.denomId], Canonical(a.signals.changeCommitment))
          case Err(e) => Err(Tree(e))
          case Ok((tree, _)) =>
            Ok(s.(trees := s.trees[a.denomId := tree],
                  nullifiers := s.nullifiers[(a.denomId, a.nullifierHash) := a.slot],
                  accounts := accounts))
  }

  /** The instructions that only the admin may send and that touch nothing but the configuration. */
  datatype AdminAction =
    | SetPaused(paused: bool)
    | QueueVkUpgrade(newVkHash: nat, slot: U64)
    | ApplyVkUpgrade(slot: U64)
    | SetFeeVault(feeVault: Pubkey)

  function Administer(s: PoolState, admin: Pubkey, action: AdminAction): Result<PoolState, PoolError> {
    if !CanSign(admin) then Err(MissingSignature)
    else if admin != s.config.admin then Err(NotAdmin)
    else
      match action
      case SetPaused(paused) => Ok(s.(config := s.config.(paused := paused)))
      case QueueVkUpgrade(hash, slot) =>
        if slot + PENDING_VK_LOCK_SLOTS >= U64_LIMIT then Err(Overflow)
        else Ok(s.(config := s.config.(pendingVkHash := hash, pendingAppliesAtSlot := slot + PENDING_VK_LOCK_SLOTS)))
      case ApplyVkUpgrade(slot) =>
        if s.config.pendingAppliesAtSlot == 0 then Err(NoPendingUpgrade)
        else if slot < s.config.pendingAppliesAtSlot then Err(VkUpgradeLocked)
        else Ok(s.(config := s.config.(verifyingKeyHash := s.config.pendingVkHash, pendingVkHash := 0,
                                       pendingAppliesAtSlot := 0)))
      case SetFeeVault(feeVault) =>
        if feeVault !in s.accounts then Err(AccountMissing)
        else Ok(s.(config := s.config.(feeVault := feeVault)))
  }

  // ---------------------------------------------------------------------------
  // The handlers
  // ---------------------------------------------------------------------------

  /** A handler either commits exactly what the specification says, or fails and changes nothing. */
  ghost predicate Committed(spec: Result<PoolState, PoolError>, before: PoolState, after: PoolState,
                            r: Result<(), PoolError>)
  {
    match spec
    case Ok(s) => r.Ok? && after == s
    case Err(e) => r == Err(e) && after == before
  }

  class PoolProgram {
    const env: Program
    var config: PoolConfig
    var denominations: map<nat, Denomination>
    var trees: map<nat, TreeAccount>
    var nullifiers: map<(nat, Field), U64>
    var accounts: Ledger

    function View(): PoolState
      reads this
    {
      PoolState(config, denominations, trees, nullifiers, accounts)
    }

    constructor (env: Program, admin: Pubkey, feeBps: U16, accounts: Ledger)
      requires InitializePool(admin, feeBps, env.embeddedVkHash, accounts).Ok?
      ensures this.env == env && View() == InitializePool(admin, feeBps, env.embeddedVkHash, accounts).value
    {
      this.env := env;
      config := PoolConfig(admin, feeBps, false, env.embeddedVkHash, 0, 0, DefaultKey);
      denominations, trees, nullifiers := map[], map[], map[];
      this.accounts := accounts;
    }

    method InitializeDenominationHandler(admin: Pubkey, denomId: nat, amount: U64, mint: Pubkey)
      returns (r: Result<(), PoolError>)
      requires Deployable(env)
      modifies this
      ensures Committed(InitializeDenomination(env, old(View()), admin, denomId, amount, mint), old(View()), View(), r)
    {
      var vault := PoolVaultPda(denomId);
      if !CanSign(admin) { return Err(MissingSignature); }
      if admin != config.admin { return Err(NotAdmin); }
      if denomId in denominations || denomId in trees || vault in accounts { return Err(AlreadyInUse); }
      var tree := new MerkleTree<Field>.Initialize(Poseidon(), env.depth, env.ringLen);
      denominations := denominations[denomId := Denomination(amount, 0, vault, mint)];
      trees := trees[denomId := tree.View()];
      accounts := accounts[vault := TokenAccount(vault, mint, 0)];
      return Ok(());
    }

    method DepositHandler(a: DepositArgs) returns (r: Result<(), PoolError>)
      modifies this
      ensures r.Ok? <==> DepositOpen(old(View()), a)
      ensures r.Ok? && a.depositorAta != PoolVaultPda(a.denomId) ==>
                Moves(old(accounts), accounts, a.depositorAta, PoolVaultPda(a.denomId),
                      old(denominations)[a.denomId].amountMicroUsdc)
      ensures Committed(Deposit(old(View()), a), old(View()), View(), r)
    {
      DepositContract(View(), a);
      hide DepositOpen, Moves;
      var vault := PoolVaultPda(a.denomId);
      if !CanSign(a.depositor) { return Err(MissingSignature); }
      if a.denomId !in denominations || a.denomId !in trees { return Err(AccountMissing); }
      if vault !in accounts || a.depositorAta !in accounts { return Err(AccountMissing); }
      var denom := denominations[a.denomId];
      if vault != denom.vault { return Err(UnknownDenomination); }
      if accounts[a.depositorAta].mint != denom.mint { return Err(UnknownDenomination); }
      if accounts[a.depositorAta].owner != a.depositor { return Err(UnknownDenomination); }
      if config.paused { return Err(Paused); }

      var paid := Transfer(accounts, a.depositorAta, vault, denom.amountMicroUsdc);
      if paid.Err? { return Err(Token(paid.error)); }
      var tree := new MerkleTree<Field>.Load(Poseidon(), trees[a.denomId]);
      var root := tree.Append(a.commitment);
      if root.Err? { return Err(Tree(root.error)); }
      if denom.depositCount + 1 >= U64_LIMIT { return Err(Overflow); }

      denominations := denominations[a.denomId := denom.(depositCount := denom.depositCount + 1)];
      trees := trees[a.denomId := tree.View()];
      accounts := paid.value;
      return Ok(());
    }

    /** The fee split and the transfers out of the vault, on a working copy of the token accounts. */
    method PayOutStep(vault: Pubkey, recipientAta: Pubkey, feeVault: Option<Pubkey>, payment: nat)
      returns (r: Result<Ledger, PoolError>)
      ensures r == PayOut(config, accounts, vault, recipientAta, feeVault, payment)
      ensures config.feeBps <= MAX_BPS && r.Ok? ==> PaidOut(config, accounts, r.value, vault, recipientAta, payment)
    {
      if config.feeBps <= MAX_BPS {
        PayOutMeans(config, accounts, vault, recipientAta, feeVault, payment);
      }
      hide PaidOut;
      if config.feeVault != DefaultKey {
        if payment * config.feeBps >= U64_LIMIT { return Err(Overflow); }
        var feeAmount := Fee(payment, config.feeBps);
        if feeAmount > payment { return Err(Overflow); }
        if feeVault.None? { return Err(FeeVaultNotSet); }
        if feeVault.value != config.feeVault { return Err(FeeVaultMismatch); }
        var net := Transfer(accounts, vault, recipientAta, payment - feeAmount);
        if net.Err? { return Err(Token(net.error)); }
        var fee := Transfer(net.value, vault, feeVault.value, feeAmount);
        if fee.Err? { return Err(Token(fee.error)); }
        return Ok(fee.value);
      } else {
        var paid := Transfer(accounts, vault, recipientAta, payment);
        if paid.Err? { return Err(Token(paid.error)); }
        return Ok(paid.value);
      }
    }

    method WithdrawHandler(a: WithdrawArgs) returns (r: Result<(), PoolError>)
      modifies this
      ensures Committed(Withdraw(env, old(View()), a), old(View()), View(), r)
    {
      hide PaidOut, SpendRelation, IsKnownRoot, PayOut, PubkeyField;
      var rejected := WithdrawAccountError(View(), a);
      if rejected.Some? { return Err(rejected.value); }
      rejected := WithdrawCheckError(env, View(), a);
      if rejected.Some? { return Err(rejected.value); }

      var paid := PayOutStep(PoolVaultPda(a.denomId), a.recipientAta, a.feeVault, a.signals.paymentAmount.n);
      if paid.Err? { return Err(paid.error); }
      var tree := new MerkleTree<Field>.Load(Poseidon(), trees[a.denomId]);
      var root := tree.Append(Canonical(a.signals.changeCommitment));
      if root.Err? { return Err(Tree(root.error)); }

      nullifiers := nullifiers[(a.denomId, a.nullifierHash) := a.slot];
      trees := trees[a.denomId := tree.View()];
      accounts := paid.value;
      return Ok(());
    }

    method AdminHandler(admin: Pubkey, action: AdminAction) returns (r: Result<(), PoolError>)
      modifies this`config
      ensures Committed(Administer(old(View()), admin, action), old(View()), View(), r)
      ensures config != old(config) ==> r.Ok? && CanSign(admin) && admin == old(config).admin == config.admin
      ensures config.verifyingKeyHash != old(config).verifyingKeyHash ==>
                && action.ApplyVkUpgrade? && config.verifyingKeyHash == old(config).pendingVkHash
                && 0 < old(config).pendingAppliesAtSlot <= action.slot
    {
      if !CanSign(admin) { return Err(MissingSignature); }
      if admin != config.admin { return Err(NotAdmin); }
      match action {
        case SetPaused(paused) =>
          config := config.(paused := paused);
        case QueueVkUpgrade(hash, slot) =>
          if slot + PENDING_VK_LOCK_SLOTS >= U64_LIMIT { return Err(Overflow); }
          config := config.(pendingVkHash := hash, pendingAppliesAtSlot := slot + PENDING_VK_LOCK_SLOTS);
        case ApplyVkUpgrade(slot) =>
          if config.pendingAppliesAtSlot == 0 { return Err(NoPendingUpgrade); }
          if slot < config.pendingAppliesAtSlot { return Err(VkUpgradeLocked); }
          config := config.(verifyingKeyHash := config.pendingVkHash, pendingVkHash := 0, pendingAppliesAtSlot := 0);
        case SetFeeVault(feeVault) =>
          if feeVault !in accounts { return Err(AccountMissing); }
          config := config.(feeVault := feeVault);
      }
      return Ok(());
    }
  }
}
