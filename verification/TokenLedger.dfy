/**
 The token program as the pool and the escrow use it: accounts with an owner and a mint,
 and transfers between them.  Program-derived addresses are distinct by construction.
 */
module TokenLedger {
  import opened Wrappers

  /**
   Addresses.  `Wallet` stands for every address outside the two programs, and only those can
   sign a transaction; the others are derived by the programs that own them.
   */
  datatype Pubkey =
    | DefaultKey
    | Wallet(id: nat)
    | AtaPda(owner: Pubkey, mint: Pubkey)
    | PoolVaultPda(denomId: nat)
    | EscrowVaultPda(client: Pubkey, nonce: nat)

  predicate CanSign(key: Pubkey) {
    key.Wallet?
  }

  datatype TokenAccount = TokenAccount(owner: Pubkey, mint: Pubkey, amount: nat)

  type Ledger = map<Pubkey, TokenAccount>

  datatype TransferError = UnknownAccount | MintMismatch | InsufficientFunds

  /** A transfer to the same account is checked and then changes nothing. */
  function Transfer(l: Ledger, source: Pubkey, dest: Pubkey, amount: nat): Result<Ledger, TransferError> {
    if source !in l || dest !in l then Err(UnknownAccount)
    else if l[source].mint != l[dest].mint then Err(MintMismatch)
    else if l[source].amount < amount then Err(InsufficientFunds)
    else if source == dest then Ok(l)
    else Ok(l[source := l[source].(amount := l[source].amount - amount)]
             [dest := l[dest].(amount := l[dest].amount + amount)])
  }

  // ---------------------------------------------------------------------------
  // What the accounts show from outside
  // ---------------------------------------------------------------------------

  function Balance(l: Ledger, account: Pubkey): nat {
    if account in l then l[account].amount else 0
  }

  /** Accounts keep their owners and mints. */
  ghost predicate SameAccounts(before: Ledger, after: Ledger) {
    && after.Keys == before.Keys
    && forall k {:trigger after[k]} :: k in before ==>
       after[k].owner == before[k].owner && after[k].mint == before[k].mint
  }

  /** This many tokens of one mint went from one account to another, and nothing else changed. */
  ghost predicate Moves(before: Ledger, after: Ledger, source: Pubkey, dest: Pubkey, amount: nat) {
    && source != dest && source in before && dest in before && before[source].mint == before[dest].mint
    && SameAccounts(before, after)
    && Balance(before, source) - Balance(after, source) == amount
    && Balance(after, dest) - Balance(before, dest) == amount
    && (forall k {:trigger after[k]} :: k in before && k != source && k != dest ==> after[k].amount == before[k].amount)
  }

  /** What a transfer does to one account's balance, also when source and destination are the same. */
  lemma TransferCredits(l: Ledger, source: Pubkey, dest: Pubkey, amount: nat, account: Pubkey)
    requires Transfer(l, source, dest, amount).Ok?
    ensures var l' := Transfer(l, source, dest, amount).value;
            && SameAccounts(l, l')
            && Balance(l', account) == Balance(l, account)
                 + (if account == dest then amount else 0) - (if account == source then amount else 0)
  {
  }

  lemma TransferMoves(l: Ledger, source: Pubkey, dest: Pubkey, amount: nat)
    requires source != dest && Transfer(l, source, dest, amount).Ok?
    ensures Moves(l, Transfer(l, source, dest, amount).value, source, dest, amount)
  {
  }

  /** A transfer needs two accounts of one mint and the funds; to the same account it changes nothing. */
  lemma TransfersExactlyWhen(l: Ledger, source: Pubkey, dest: Pubkey, amount: nat)
    ensures Transfer(l, source, dest, amount).Ok? <==>
              && source in l && dest in l && l[source].mint == l[dest].mint && Balance(l, source) >= amount
    ensures Transfer(l, source, dest, amount).Ok? ==>
              var l' := Transfer(l, source, dest, amount).value;
              if source == dest then l' == l else Moves(l, l', source, dest, amount)
  {
  }

  // ---------------------------------------------------------------------------
  // The total of a mint
  // ---------------------------------------------------------------------------

  function Share(a: TokenAccount, mint: Pubkey): nat {
    if a.mint == mint then a.amount else 0
  }

  ghost function Total(l: Ledger, mint: Pubkey): nat
    decreases |l|
  {
    if l == map[] then 0
    else
      var k :| k in l;
      Share(l[k], mint) + Total(l - {k}, mint)
  }

  /** Any account may be counted first. */
  lemma {:induction false} TotalSplits(l: Ledger, mint: Pubkey, k: Pubkey)
    requires k in l
    ensures Total(l, mint) == Share(l[k], mint) + Total(l - {k}, mint)
    decreases |l|
  {
    var j :| j in l && Total(l, mint) == Share(l[j], mint) + Total(l - {j}, mint);
    if j != k {
      TotalSplits(l - {j}, mint, k);
      TotalSplits(l - {k}, mint, j);
      assert l - {j} - {k} == l - {k} - {j};
    }
  }

  lemma TotalUpdate(l: Ledger, mint: Pubkey, k: Pubkey, a: TokenAccount)
    ensures Total(l[k := a], mint) == Total(l - {k}, mint) + Share(a, mint)
    ensures k in l ==> Total(l[k := a], mint) == Total(l, mint) - Share(l[k], mint) + Share(a, mint)
  {
    TotalSplits(l[k := a], mint, k);
    assert l[k := a] - {k} == l - {k};
    if k in l {
      TotalSplits(l, mint, k);
    }
  }

  /** Transfers move tokens and neither create nor destroy any. */
  lemma TransferConserves(l: Ledger, source: Pubkey, dest: Pubkey, amount: nat, mint: Pubkey)
    requires Transfer(l, source, dest, amount).Ok?
    ensures Total(Transfer(l, source, dest, amount).value, mint) == Total(l, mint)
  {
    if source != dest {
      var debited := l[source := l[source].(amount := l[source].amount - amount)];
      TotalUpdate(l, mint, source, debited[source]);
      TotalUpdate(debited, mint, dest, l[dest].(amount := l[dest].amount + amount));
    }
  }

  /** An account that is neither end of a transfer is untouched, and no owner or mint ever changes. */
  lemma TransferFrame(l: Ledger, source: Pubkey, dest: Pubkey, amount: nat)
    requires Transfer(l, source, dest, amount).Ok?
    ensures var l' := Transfer(l, source, dest, amount).value;
            && l'.Keys == l.Keys
            && (forall k :: k in l ==> l'[k].owner == l[k].owner && l'[k].mint == l[k].mint)
            && (forall k :: k in l && k != source && k != dest ==> l'[k] == l[k])
            && (source != dest ==> l'[source].amount == l[source].amount - amount)
            && (source != dest ==> l'[dest].amount == l[dest].amount + amount)
  {
  }

  // ---------------------------------------------------------------------------
  // Direct use of the token program by anyone
  // ---------------------------------------------------------------------------

  datatype TokenAction =
    | Move(signer: Pubkey, source: Pubkey, dest: Pubkey, amount: nat)
    | Mint(dest: Pubkey, amount: nat)
    | Open(key: Pubkey, owner: Pubkey, mint: Pubkey)
    | SetOwner(signer: Pubkey, key: Pubkey, owner: Pubkey)
    | Close(signer: Pubkey, key: Pubkey)

  datatype TokenActionError = NotOwner | AddressTaken | NotEmpty | Refused(why: TransferError)

  predicate Controls(l: Ledger, signer: Pubkey, key: Pubkey) {
    CanSign(signer) && key in l && l[key].owner == signer
  }

  /** Accounts are opened at wallet or associated addresses; the programs open their own vaults. */
  function TokenStep(l: Ledger, action: TokenAction): Result<Ledger, TokenActionError> {
    match action
    case Move(signer, source, dest, amount) =>
      if !Controls(l, signer, source) then Err(NotOwner)
      else
        (match Transfer(l, source, dest, amount)
         case Err(e) => Err(Refused(e))
         case Ok(l') => Ok(l'))
    case Mint(dest, amount) =>
      if dest !in l then Err(Refused(UnknownAccount))
      else Ok(l[dest := l[dest].(amount := l[dest].amount + amount)])
    case Open(key, owner, mint) =>
      if key in l || !(key.Wallet? || key == AtaPda(owner, mint)) then Err(AddressTaken)
      else Ok(l[key := TokenAccount(owner, mint, 0)])
    case SetOwner(signer, key, owner) =>
      if !Controls(l, signer, key) then Err(NotOwner)
      else Ok(l[key := l[key].(owner := owner)])
    case Close(signer, key) =>
      if !Controls(l, signer, key) then Err(NotOwner)
      else if l[key].amount != 0 then Err(NotEmpty)
      else Ok(l - {key})
  }

  /** Everyone may mint into and open accounts; moving, handing over and closing take the owner's signature. */
  predicate MayUse(l: Ledger, action: TokenAction) {
    match action
    case Move(signer, source, dest, amount) =>
      && Controls(l, signer, source) && dest in l && l[source].mint == l[dest].mint && Balance(l, source) >= amount
    case Mint(dest, _) => dest in l
    case Open(key, owner, mint) => key !in l && (key.Wallet? || key == AtaPda(owner, mint))
    case SetOwner(signer, key, _) => Controls(l, signer, key)
    case Close(signer, key) => Controls(l, signer, key) && Balance(l, key) == 0
  }

  /** What the action leaves: the account it is about is changed as it says, and no other. */
  ghost predicate Used(l: Ledger, l': Ledger, action: TokenAction) {
    match action
    case Move(_, source, dest, amount) => if source == dest then l' == l else Moves(l, l', source, dest, amount)
    case Mint(dest, amount) => dest in l && l' == l[dest := l[dest].(amount := Balance(l, dest) + amount)]
    case Open(key, owner, mint) => l' == l[key := TokenAccount(owner, mint, 0)]
    case SetOwner(_, key, owner) =>
      key in l && l' == l[key := TokenAccount(owner, l[key].mint, Balance(l, key))]
    case Close(_, key) => l' == map k | k in l && k != key :: l[k]
  }

  lemma UsedExactlyWhen(l: Ledger, action: TokenAction)
    ensures TokenStep(l, action).Ok? <==> MayUse(l, action)
    ensures TokenStep(l, action).Ok? ==> Used(l, TokenStep(l, action).value, action)
  {
    if action.Move? {
      TransfersExactlyWhen(l, action.source, action.dest, action.amount);
      hide Transfer, Moves;
    }
  }

  /** A vault keeps its identity and loses at most `out`. */
  ghost predicate VaultLoses(before: Ledger, after: Ledger, vault: Pubkey, out: nat) {
    vault in before ==>
      && vault in after
      && after[vault].owner == before[vault].owner && after[vault].mint == before[vault].mint
      && after[vault].amount + out >= before[vault].amount
  }

  /** Nobody can take tokens out of an account whose owner cannot sign, or open one at its address. */
  lemma TokenStepSparesVaults(l: Ledger, action: TokenAction, vault: Pubkey)
    requires TokenStep(l, action).Ok? && (vault.PoolVaultPda? || vault.EscrowVaultPda?)
    requires vault in l ==> l[vault].owner == vault
    ensures VaultLoses(l, TokenStep(l, action).value, vault, 0)
    ensures vault !in l ==> vault !in TokenStep(l, action).value
  {
  }

  /** Only minting changes the total of a mint. */
  lemma TokenStepConserves(l: Ledger, action: TokenAction, mint: Pubkey)
    requires TokenStep(l, action).Ok? && !action.Mint?
    ensures Total(TokenStep(l, action).value, mint) == Total(l, mint)
  {
    match action {
      case Move(_, source, dest, amount) => TransferConserves(l, source, dest, amount, mint);
      case Open(key, owner, m) =>
        OpenKeepsTotal(l, key, owner, m, mint);
      case SetOwner(_, key, owner) => TotalUpdate(l, mint, key, l[key].(owner := owner));
      case Close(_, key) => TotalSplits(l, mint, key);
    }
  }

  lemma OpenKeepsTotal(l: Ledger, key: Pubkey, owner: Pubkey, m: Pubkey, mint: Pubkey)
    requires key !in l
    ensures Total(l[key := TokenAccount(owner, m, 0)], mint) == Total(l, mint)
  {
    TotalUpdate(l, mint, key, TokenAccount(owner, m, 0));
    assert l - {key} == l;
  }
}
