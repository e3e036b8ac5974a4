/**
 The escrow program: a client locks a price for an agent's job, and the price leaves the
 job's vault once, to the agent on release or back to the client otherwise.  Each of the
 eight instructions has a specification function and a handler of `EscrowProgram`.
 */
module Escrow {
  import opened Wrappers
  import opened MachineInts
  import opened TokenLedger

  const I64_MAX: int := 0x7FFF_FFFF_FFFF_FFFF
  const DISPUTE_TIMEOUT_SECONDS: int := 7 * 24 * 3600
  const ACCEPT_TIMEOUT_SECONDS: int := 7 * 24 * 3600

  type I64 = x: int | -I64_MAX - 1 <= x <= I64_MAX

  datatype JobState = Created | Accepted | Completed | Released | Disputed | Refunded

  datatype JobKey = JobKey(client: Pubkey, nonce: nat)

  datatype Job = Job(
    client: Pubkey,
    agent: Pubkey,
    nonce: nat,
    priceMicro: U64,
    createdAt: I64,
    acceptedAt: I64,
    completedAt: I64,
    resolvedAt: I64,
    state: JobState
  )

  datatype EscrowError =
    | MissingSignature
    | AccountMissing
    | AlreadyInUse
    | WrongAddress
    | InvalidState
    | NotAgent
    | NotClient
    | PriceMustBePositive
    | AgentAtaMismatch
    | ClientAtaMismatch
    | MintDiffers
    | AcceptTimeoutNotElapsed
    | DisputeTimeoutNotElapsed
    | Overflow
    | Token(token: TransferError)

  datatype EscrowState = EscrowState(jobs: map<JobKey, Job>, accounts: Ledger)

  datatype Action =
    | Create(agent: Pubkey, priceMicro: U64, clientAta: Pubkey, mint: Pubkey)
    | Accept
    | Complete
    | Release(agentAta: Pubkey)
    | Dispute
    | Cancel(clientAta: Pubkey)
    | Resolve(clientAta: Pubkey)
    | Close

  /** An instruction: the job it addresses, who signed it, and the cluster clock when it runs. */
  datatype Instruction = Instruction(key: JobKey, signer: Pubkey, now: I64, action: Action)

  function Vault(key: JobKey): Pubkey {
    EscrowVaultPda(key.client, key.nonce)
  }

  predicate Final(state: JobState) {
    state == Released || state == Refunded
  }

  /** The token account an instruction pays, if it is one that pays. */
  function Payee(action: Action): Option<Pubkey> {
    match action
    case Release(ata) => Some(ata)
    case Cancel(ata) => Some(ata)
    case Resolve(ata) => Some(ata)
    case _ => None
  }

  // ---------------------------------------------------------------------------
  // Specification of the instructions
  // ---------------------------------------------------------------------------

  function CreateJob(s: EscrowState, ix: Instruction): Result<EscrowState, EscrowError>
    requires ix.action.Create?
  {
    var Create(agent, price, clientAta, mint) := ix.action;
    var vault := Vault(ix.key);
    if ix.signer != ix.key.client then Err(WrongAddress)
    else if ix.key in s.jobs || vault in s.accounts then Err(AlreadyInUse)
    else if clientAta !in s.accounts then Err(AccountMissing)
    else if s.accounts[clientAta].owner != ix.signer then Err(ClientAtaMismatch)
    else if s.accounts[clientAta].mint != mint then Err(MintDiffers)
    else if price == 0 then Err(PriceMustBePositive)
    else
      match Transfer(s.accounts[vault := TokenAccount(vault, mint, 0)], clientAta, vault, price)
      case Err(e) => Err(Token(e))
      case Ok(accounts) =>
        var job := Job(ix.signer, agent, ix.key.nonce, price, ix.now, 0, 0, 0, Created);
        Ok(EscrowState(s.jobs[ix.key := job], accounts))
  }

  function AcceptJob(job: Job, signer: Pubkey, now: I64): Result<Job, EscrowError> {
    if job.state != Created then Err(InvalidState)
    else if signer != job.agent then Err(NotAgent)
    else Ok(job.(acceptedAt := now, state := Accepted))
  }

  function CompleteJob(job: Job, signer: Pubkey, now: I64): Result<Job, EscrowError> {
    if signer != job.agent then Err(WrongAddress)
    else if job.state != Accepted then Err(InvalidState)
    else Ok(job.(completedAt := now, state := Completed))
  }

  function DisputeJob(job: Job, signer: Pubkey): Result<Job, EscrowError> {
    if job.state != Completed then Err(InvalidState)
    else if signer != job.client then Err(NotClient)
    else Ok(job.(state := Disputed))
  }

  /** Constraints on the vault and the account the price goes to. */
  function PayeeError(accounts: Ledger, vault: Pubkey, payeeAta: Pubkey, payee: Pubkey, mismatch: EscrowError)
    : Option<EscrowError>
  {
    if vault !in accounts || payeeAta !in accounts then Some(AccountMissing)
    else if accounts[payeeAta].owner != payee then Some(mismatch)
    else if accounts[payeeAta].mint != accounts[vault].mint then Some(MintDiffers)
    else None
  }

  /** The handler's checks before the price is released to the agent. */
  function ReleaseError(job: Job, signer: Pubkey): Option<EscrowError> {
    if job.state != Completed then Some(InvalidState)
    else if signer != job.client then Some(NotClient)
    else None
  }

  /** A client may cancel before acceptance, or seven days after an acceptance that led nowhere. */
  function CancelError(job: Job, signer: Pubkey, now: I64): Option<EscrowError> {
    if signer != job.client then Some(NotClient)
    else if job.state == Created then None
    else if job.state == Accepted then
      if job.acceptedAt + ACCEPT_TIMEOUT_SECONDS > I64_MAX then Some(Overflow)
      else if now < job.acceptedAt + ACCEPT_TIMEOUT_SECONDS then Some(AcceptTimeoutNotElapsed)
      else None
    else Some(InvalidState)
  }

  /** Anyone may resolve a dispute, seven days after completion. */
  function ResolveError(job: Job, now: I64): Option<EscrowError> {
    if job.state != Disputed then Some(InvalidState)
    else if job.completedAt + DISPUTE_TIMEOUT_SECONDS > I64_MAX then Some(Overflow)
    else if now < job.completedAt + DISPUTE_TIMEOUT_SECONDS then Some(DisputeTimeoutNotElapsed)
    else None
  }

  /** Moves the price out of the vault and puts the job in its final state. */
  function Settle(s: EscrowState, key: JobKey, payeeAta: Pubkey, settled: Job): Result<EscrowState, EscrowError> {
    match Transfer(s.accounts, Vault(key), payeeAta, settled.priceMicro)
    case Err(e) => Err(Token(e))
    case Ok(accounts) => Ok(EscrowState(s.jobs[key := settled], accounts))
  }

  function Replace(s: EscrowState, key: JobKey, r: Result<Job, EscrowError>): Result<EscrowState, EscrowError> {
    match r
    case Err(e) => Err(e)
    case Ok(job) => Ok(s.(jobs := s.jobs[key := job]))
  }

  function Apply(s: EscrowState, ix: Instruction): Result<EscrowState, EscrowError> {
    if !CanSign(ix.signer) then Err(MissingSignature)
    else if ix.action.Create? then CreateJob(s, ix)
    else if ix.key !in s.jobs then Err(AccountMissing)
    else
      var job := s.jobs[ix.key];
      match ix.action
      case Accept => Replace(s, ix.key, AcceptJob(job, ix.signer, ix.now))
      case Complete => Replace(s, ix.key, CompleteJob(job, ix.signer, ix.now))
      case Dispute => Replace(s, ix.key, DisputeJob(job, ix.signer))
      case Release(agentAta) =>
        (match PayeeError(s.accounts, Vault(ix.key), agentAta, job.agent, AgentAtaMismatch)
         case Some(e) => Err(e)
         case None =>
           match ReleaseError(job, ix.signer)
           case Some(e) => Err(e)
           case None => Settle(s, ix.key, agentAta, job.(state := Released)))
      case Cancel(clientAta) =>
        (match PayeeError(s.accounts, Vault(ix.key), clientAta, job.client, ClientAtaMismatch)
         case Some(e) => Err(e)
         case None =>
           match CancelError(job, ix.signer, ix.now)
           case Some(e) => Err(e)
           case None => Settle(s, ix.key, clientAta, job.(state := Refunded)))
      case Resolve(clientAta) =>
        (match PayeeError(s.accounts, Vault(ix.key), clientAta, job.client, ClientAtaMismatch)
         case Some(e) => Err(e)
         case None =>
           match ResolveError(job, ix.now)
           case Some(e) => Err(e)
           case None => Settle(s, ix.key, clientAta, job.(state := Refunded, resolvedAt := ix.now)))
      case Close =>
        if job.state != Released && job.state != Refunded then Err(InvalidState)
        else Ok(s.(jobs := s.jobs - {ix.key}))
      case Create(_, _, _, _) => Err(AlreadyInUse)
  }

  // ---------------------------------------------------------------------------
  // What every reachable state satisfies
  // ---------------------------------------------------------------------------

  /** A job belongs to the client and nonce it is stored under, and its vault holds the price until it is final. */
  ghost predicate JobSound(s: EscrowState, key: JobKey)
    requires key in s.jobs
  {
    var job, vault := s.jobs[key], Vault(key);
    && job.client == key.client && job.nonce == key.nonce && CanSign(key.client) && job.priceMicro > 0
    && (job.state != Created && job.state != Refunded ==> CanSign(job.agent))
    && vault in s.accounts && s.accounts[vault].owner == vault
    && (!Final(job.state) ==> s.accounts[vault].amount >= job.priceMicro)
  }

  ghost predicate Sound(s: EscrowState) {
    forall key {:trigger key in s.jobs} :: key in s.jobs ==> JobSound(s, key)
  }

  /** The payout constraints on an account: it is the payee's, of the vault's mint. */
  predicate CanReceive(s: EscrowState, key: JobKey, ata: Pubkey, payee: Pubkey) {
    && Vault(key) in s.accounts && ata in s.accounts
    && s.accounts[ata].owner == payee && s.accounts[ata].mint == s.accounts[Vault(key)].mint
  }

  /** Who a paying instruction pays: the agent on release, the client otherwise. */
  function Recipient(job: Job, action: Action): Pubkey {
    if action.Release? then job.agent else job.client
  }

  /** Which instruction may move a job, sent by whom, and from when on. */
  predicate Enabled(job: Job, ix: Instruction) {
    match ix.action
    case Create(_, _, _, _) => false
    case Accept => job.state == Created && ix.signer == job.agent
    case Complete => job.state == Accepted && ix.signer == job.agent
    case Release(_) => job.state == Completed && ix.signer == job.client
    case Dispute => job.state == Completed && ix.signer == job.client
    case Cancel(_) =>
      && ix.signer == job.client
      && (job.state == Created || (job.state == Accepted && ix.now >= job.acceptedAt + ACCEPT_TIMEOUT_SECONDS))
    case Resolve(_) => job.state == Disputed && ix.now >= job.completedAt + DISPUTE_TIMEOUT_SECONDS
    case Close => Final(job.state)
  }

  /** No other job changed, and this one kept its parties and its price. */
  ghost predicate OnlyThisJob(before: EscrowState, after: EscrowState, key: JobKey)
    requires key in before.jobs
  {
    && (forall k {:trigger k in after.jobs} :: k != key ==> (k in after.jobs <==> k in before.jobs))
    && (forall k {:trigger after.jobs[k]} :: k != key && k in before.jobs && k in after.jobs ==>
        after.jobs[k] == before.jobs[k])
    && (key in after.jobs ==>
          var job, job' := before.jobs[key], after.jobs[key];
          job'.client == job.client && job'.agent == job.agent && job'.nonce == job.nonce
              && job'.priceMicro == job.priceMicro)
  }

  /** The price, and nothing else, went from the job's vault to this account, and the job is settled. */
  ghost predicate PaidOut(before: EscrowState, after: EscrowState, key: JobKey, ata: Pubkey, settled: JobState) {
    && key in before.jobs && key in after.jobs
    && Moves(before.accounts, after.accounts, Vault(key), ata, before.jobs[key].priceMicro)
    && after.jobs[key].state == settled && OnlyThisJob(before, after, key)
  }

  /**
   In every sound state a paying instruction succeeds exactly when it may move the job and the
   account named is the recipient's: never is a vault short of the price.  It then moves exactly
   the price out of the vault into that account.
   */
  lemma PaysExactlyWhen(s: EscrowState, ix: Instruction)
    requires Sound(s) && ix.key in s.jobs && Payee(ix.action).Some?
    ensures var job, ata := s.jobs[ix.key], Payee(ix.action).value;
            && (Apply(s, ix).Ok? <==>
                  CanSign(ix.signer) && Enabled(job, ix) && CanReceive(s, ix.key, ata, Recipient(job, ix.action)))
            && (Apply(s, ix).Ok? ==>
                  && !Final(job.state) && ata != Vault(ix.key)
                  && PaidOut(s, Apply(s, ix).value, ix.key, ata, if ix.action.Release? then Released else Refunded))
  {
    var job, ata := s.jobs[ix.key], Payee(ix.action).value;
    assert JobSound(s, ix.key);
    if Apply(s, ix).Ok? {
      assert ata != Vault(ix.key);
      TransferMoves(s.accounts, Vault(ix.key), ata, job.priceMicro);
    }
  }

  /** What a successful instruction writes into its job: the new state, and the clock in the stamp that goes with it. */
  ghost predicate Stamped(job: Job, job': Job, ix: Instruction) {
    && (match ix.action
        case Accept => job'.state == Accepted
        case Complete => job'.state == Completed
        case Release(_) => job'.state == Released
        case Dispute => job'.state == Disputed
        case _ => job'.state == Refunded)
    && job'.createdAt == job.createdAt
    && job'.acceptedAt == (if ix.action.Accept? then ix.now else job.acceptedAt)
    && job'.completedAt == (if ix.action.Complete? then ix.now else job.completedAt)
    && job'.resolvedAt == (if ix.action.Resolve? then ix.now else job.resolvedAt)
  }

  /** Every instruction but closing leaves its job in the state it stands for, stamped with its clock. */
  lemma JobIsStamped(s: EscrowState, ix: Instruction)
    requires ix.key in s.jobs && Apply(s, ix).Ok?
    ensures ix.key in Apply(s, ix).value.jobs <==> !ix.action.Close?
    ensures !ix.action.Close? ==> Stamped(s.jobs[ix.key], Apply(s, ix).value.jobs[ix.key], ix)
  {
    hide Transfer;
  }

  /** The other instructions on a job succeed exactly when they may move it, and move no tokens. */
  lemma MovesNoTokens(s: EscrowState, ix: Instruction)
    requires ix.key in s.jobs && !ix.action.Create? && Payee(ix.action).None?
    ensures Apply(s, ix).Ok? <==> CanSign(ix.signer) && Enabled(s.jobs[ix.key], ix)
    ensures Apply(s, ix).Ok? ==>
              var after := Apply(s, ix).value;
              && after.accounts == s.accounts && OnlyThisJob(s, after, ix.key)
              && (ix.key in after.jobs <==> !ix.action.Close?)
  {
  }

  /** The new vault holds exactly the price, taken from the client's account, and nothing else changed. */
  ghost predicate Locked(before: Ledger, after: Ledger, clientAta: Pubkey, vault: Pubkey, mint: Pubkey, price: nat) {
    && vault !in before && clientAta in before && price <= before[clientAta].amount
       && after.Keys == before.Keys + {vault}
    && after[vault] == TokenAccount(vault, mint, price)
    && after[clientAta] == before[clientAta].(amount := before[clientAta].amount - price)
    && forall k {:trigger after[k]} :: k in before && k != clientAta ==> after[k] == before[k]
  }

  /** A job is created exactly when its client can pay the price into a vault that does not exist yet. */
  lemma LocksExactlyWhen(s: EscrowState, ix: Instruction)
    requires ix.action.Create?
    ensures var Create(agent, price, clientAta, mint) := ix.action;
            && (Apply(s, ix).Ok? <==>
                  && CanSign(ix.signer) && ix.signer == ix.key.client
                  && ix.key !in s.jobs && Vault(ix.key) !in s.accounts
                  && clientAta in s.accounts && s.accounts[clientAta].owner == ix.signer
                  && s.accounts[clientAta].mint == mint && 0 < price <= s.accounts[clientAta].amount)
            && (Apply(s, ix).Ok? ==>
                  var after := Apply(s, ix).value;
                  && Locked(s.accounts, after.accounts, clientAta, Vault(ix.key), mint, price)
                  && after.jobs ==
                       s.jobs[ix.key := Job(ix.signer, agent, ix.key.nonce, price, ix.now, 0, 0, 0, Created)])
  {
  }

  // ---------------------------------------------------------------------------
  // Errors
  // ---------------------------------------------------------------------------

  /** The states an action is for. */
  predicate IsFor(action: Action, state: JobState) {
    match action
    case Create(_, _, _, _) => false
    case Accept => state == Created
    case Complete => state == Accepted
    case Release(_) => state == Completed
    case Dispute => state == Completed
    case Cancel(_) => state == Created || state == Accepted
    case Resolve(_) => state == Disputed
    case Close => Final(state)
  }

  /** What an error says about the state. */
  ghost predicate Cause(s: EscrowState, ix: Instruction, e: EscrowError) {
    var action, vault := ix.action, Vault(ix.key);
    var ata := if action.Create? then Some(action.clientAta) else Payee(action);
    match e
    case MissingSignature => !CanSign(ix.signer)
    case AccountMissing =>
      (!action.Create? && ix.key !in s.jobs) || (ata.Some? && (ata.value !in s.accounts || vault !in s.accounts))
    case AlreadyInUse => action.Create? && (ix.key in s.jobs || vault in s.accounts)
    case InvalidState => ix.key in s.jobs && !IsFor(action, s.jobs[ix.key].state)
    case NotAgent => action.Accept? && ix.key in s.jobs && ix.signer != s.jobs[ix.key].agent
    case WrongAddress =>
      || (action.Create? && ix.signer != ix.key.client)
      || (action.Complete? && ix.key in s.jobs && ix.signer != s.jobs[ix.key].agent)
    case NotClient => ix.key in s.jobs && ix.signer != s.jobs[ix.key].client
    case PriceMustBePositive => action.Create? && action.priceMicro == 0
    case AgentAtaMismatch =>
      && action.Release? && ix.key in s.jobs && action.agentAta in s.accounts
      && s.accounts[action.agentAta].owner != s.jobs[ix.key].agent
    case ClientAtaMismatch =>
      && ata.Some? && ata.value in s.accounts && !action.Release?
      && if action.Create? then s.accounts[ata.value].owner != ix.signer
         else ix.key in s.jobs && s.accounts[ata.value].owner != s.jobs[ix.key].client
    case MintDiffers =>
      && ata.Some? && ata.value in s.accounts
      && if action.Create? then s.accounts[ata.value].mint != action.mint
         else vault in s.accounts && s.accounts[ata.value].mint != s.accounts[vault].mint
    case AcceptTimeoutNotElapsed =>
      && action.Cancel? && ix.key in s.jobs && s.jobs[ix.key].state == Accepted
      && ix.now < s.jobs[ix.key].acceptedAt + ACCEPT_TIMEOUT_SECONDS
    case DisputeTimeoutNotElapsed =>
      action.Resolve? && ix.key in s.jobs && ix.now < s.jobs[ix.key].completedAt + DISPUTE_TIMEOUT_SECONDS
    case Overflow =>
      && ix.key in s.jobs
      && var stamp := if action.Cancel? then s.jobs[ix.key].acceptedAt else s.jobs[ix.key].completedAt;
         stamp + 604_800 > I64_MAX
    case Token(InsufficientFunds) => action.Create? && Balance(s.accounts, action.clientAta) < action.priceMicro
    case _ => false
  }

  /** A refused instruction names a true cause; in a sound state a payout never fails for lack of funds. */
  lemma ErrorIsTrue(s: EscrowState, ix: Instruction)
    requires Sound(s) && Apply(s, ix).Err?
    ensures Cause(s, ix, Apply(s, ix).error)
  {
    if ix.key in s.jobs {
      assert JobSound(s, ix.key);
    }
  }

  // ---------------------------------------------------------------------------
  // Every step keeps the state sound
  // ---------------------------------------------------------------------------

  lemma PayingKeepsSound(s: EscrowState, ix: Instruction)
    requires Sound(s) && Payee(ix.action).Some? && Apply(s, ix).Ok?
    ensures Sound(Apply(s, ix).value)
  {
    PaysExactlyWhen(s, ix);
    var after := Apply(s, ix).value;
    assert JobSound(s, ix.key);
    hide Apply;
    forall key | key in after.jobs ensures JobSound(after, key) {
      assert JobSound(s, key);
      assert Vault(key) == Vault(ix.key) <==> key == ix.key;
    }
  }

  lemma QuietKeepsSound(s: EscrowState, ix: Instruction)
    requires Sound(s) && ix.key in s.jobs && !ix.action.Create? && Payee(ix.action).None? && Apply(s, ix).Ok?
    ensures Sound(Apply(s, ix).value)
  {
    MovesNoTokens(s, ix);
    var after := Apply(s, ix).value;
    forall key | key in after.jobs ensures JobSound(after, key) {
      assert JobSound(s, key);
    }
  }

  lemma CreateKeepsSound(s: EscrowState, ix: Instruction)
    requires Sound(s) && ix.action.Create? && Apply(s, ix).Ok?
    ensures Sound(Apply(s, ix).value)
  {
    LocksExactlyWhen(s, ix);
    var after := Apply(s, ix).value;
    hide Apply;
    forall key | key in after.jobs ensures JobSound(after, key) {
      if key != ix.key {
        assert JobSound(s, key);
      }
    }
  }

  lemma ApplyKeepsSound(s: EscrowState, ix: Instruction)
    requires Sound(s) && Apply(s, ix).Ok?
    ensures Sound(Apply(s, ix).value)
  {
    if ix.action.Create? {
      CreateKeepsSound(s, ix);
    } else if Payee(ix.action).Some? {
      PayingKeepsSound(s, ix);
    } else {
      QuietKeepsSound(s, ix);
    }
  }

  lemma TokenStepKeepsSound(s: EscrowState, action: TokenAction)
    requires Sound(s) && TokenStep(s.accounts, action).Ok?
    ensures Sound(s.(accounts := TokenStep(s.accounts, action).value))
  {
    forall key | key in s.jobs ensures JobSound(s.(accounts := TokenStep(s.accounts, action).value), key) {
      assert JobSound(s, key);
      TokenStepSparesVaults(s.accounts, action, Vault(key));
    }
  }

  /** What the paying handlers promise, in every sound state. */
  lemma PayingContract(s: EscrowState, ix: Instruction)
    requires Sound(s) && Payee(ix.action).Some?
    ensures ix.key !in s.jobs ==> Apply(s, ix).Err?
    ensures ix.key in s.jobs ==>
              var job, ata := s.jobs[ix.key], Payee(ix.action).value;
              && job.client == ix.key.client && CanSign(ix.key.client)
              && (Apply(s, ix).Ok? <==>
                    CanSign(ix.signer) && Enabled(job, ix) && CanReceive(s, ix.key, ata, Recipient(job, ix.action)))
    ensures Apply(s, ix).Ok? ==>
              && Sound(Apply(s, ix).value)
              && PaidOut(s, Apply(s, ix).value, ix.key, Payee(ix.action).value,
                         if ix.action.Release? then Released else Refunded)
  {
    if ix.key in s.jobs {
      assert JobSound(s, ix.key);
      PaysExactlyWhen(s, ix);
      if Apply(s, ix).Ok? {
        ApplyKeepsSound(s, ix);
      }
    }
  }

  // ---------------------------------------------------------------------------
  // The handlers
  // ---------------------------------------------------------------------------

  /** A handler commits exactly what the specification says, or fails and changes nothing. */
  ghost predicate Committed(spec: Result<EscrowState, EscrowError>, before: EscrowState, after: EscrowState,
                            r: Result<(), EscrowError>)
  {
    match spec
    case Ok(s) => r.Ok? && after == s
    case Err(e) => r == Err(e) && after == before
  }

  class EscrowProgram {
    var jobs: map<JobKey, Job>
    var accounts: Ledger

    function View(): EscrowState
      reads this
    {
      EscrowState(jobs, accounts)
    }

    ghost predicate Valid()
      reads this
    {
      Sound(View())
    }

    constructor (accounts: Ledger)
      ensures Valid() && View() == EscrowState(map[], accounts)
    {
      jobs := map[];
      this.accounts := accounts;
    }

    method CreateHandler(key: JobKey, client: Pubkey, now: I64, agent: Pubkey, priceMicro: U64,
                         clientAta: Pubkey, mint: Pubkey)
      returns (r: Result<(), EscrowError>)
      requires Valid()
      modifies this
      ensures Valid()
      ensures r.Ok? <==>
                && CanSign(client) && client == key.client && key !in old(jobs) && Vault(key) !in old(accounts)
                && clientAta in old(accounts) && old(accounts)[clientAta].owner == client
                && old(accounts)[clientAta].mint == mint && 0 < priceMicro <= old(accounts)[clientAta].amount
      ensures r.Ok? ==> Locked(old(accounts), accounts, clientAta, Vault(key), mint, priceMicro)
      ensures var ix := Instruction(key, client, now, Create(agent, priceMicro, clientAta, mint));
              Committed(Apply(old(View()), ix), old(View()), View(), r)
    {
      ghost var ix := Instruction(key, client, now, Create(agent, priceMicro, clientAta, mint));
      LocksExactlyWhen(View(), ix);
      if Apply(View(), ix).Ok? { ApplyKeepsSound(View(), ix); }
      var vault := Vault(key);
      if !CanSign(client) { return Err(MissingSignature); }
      if client != key.client { return Err(WrongAddress); }
      if key in jobs || vault in accounts { return Err(AlreadyInUse); }
      if clientAta !in accounts { return Err(AccountMissing); }
      if accounts[clientAta].owner != client { return Err(ClientAtaMismatch); }
      if accounts[clientAta].mint != mint { return Err(MintDiffers); }
      if priceMicro == 0 { return Err(PriceMustBePositive); }
      var withVault := accounts[vault := TokenAccount(vault, mint, 0)];
      var job := Job(client, agent, key.nonce, priceMicro, now, 0, 0, 0, Created);
      var locked := Transfer(withVault, clientAta, vault, priceMicro);
      if locked.Err? { return Err(Token(locked.error)); }
      jobs, accounts := jobs[key := job], locked.value;
      return Ok(());
    }

    method AcceptHandler(key: JobKey, agent: Pubkey, now: I64) returns (r: Result<(), EscrowError>)
      requires Valid()
      modifies this`jobs
      ensures Valid()
      ensures Committed(Apply(old(View()), Instruction(key, agent, now, Accept)), old(View()), View(), r)
    {
      ghost var ix := Instruction(key, agent, now, Accept);
      if Apply(View(), ix).Ok? { ApplyKeepsSound(View(), ix); }
      if !CanSign(agent) { return Err(MissingSignature); }
      if key !in jobs { return Err(AccountMissing); }
      var job := jobs[key];
      if job.state != Created { return Err(InvalidState); }
      if agent != job.agent { return Err(NotAgent); }
      jobs := jobs[key := job.(acceptedAt := now, state := Accepted)];
      return Ok(());
    }

    method CompleteHandler(key: JobKey, agent: Pubkey, now: I64) returns (r: Result<(), EscrowError>)
      requires Valid()
      modifies this`jobs
      ensures Valid()
      ensures Committed(Apply(old(View()), Instruction(key, agent, now, Complete)), old(View()), View(), r)
    {
      ghost var ix := Instruction(key, agent, now, Complete);
      if Apply(View(), ix).Ok? { ApplyKeepsSound(View(), ix); }
      if !CanSign(agent) { return Err(MissingSignature); }
      if key !in jobs { return Err(AccountMissing); }
      var job := jobs[key];
      if agent != job.agent { return Err(WrongAddress); }
      if job.state != Accepted { return Err(InvalidState); }
      jobs := jobs[key := job.(completedAt := now, state := Completed)];
      return Ok(());
    }

    /** Pays the agent exactly when the client releases a completed job into the agent's account. */
    method ReleaseHandler(key: JobKey, client: Pubkey, now: I64, agentAta: Pubkey) returns (r: Result<(), EscrowError>)
      requires Valid()
      modifies this
      ensures Valid()
      ensures r.Ok? <==>
                && key in old(jobs) && old(jobs)[key].state == Completed && client == key.client
                && CanReceive(old(View()), key, agentAta, old(jobs)[key].agent)
      ensures r.Ok? ==> PaidOut(old(View()), View(), key, agentAta, Released)
      ensures Committed(Apply(old(View()), Instruction(key, client, now, Release(agentAta))), old(View()), View(), r)
    {
      ghost var ix := Instruction(key, client, now, Release(agentAta));
      hide PaidOut, Sound, Transfer, PayeeError, CanReceive;
      PayingContract(View(), ix);
      if !CanSign(client) { return Err(MissingSignature); }
      if key !in jobs { return Err(AccountMissing); }
      var job := jobs[key];
      var refused := PayeeError(accounts, Vault(key), agentAta, job.agent, AgentAtaMismatch);
      if refused.Some? { return Err(refused.value); }
      if job.state != Completed { return Err(InvalidState); }
      if client != job.client { return Err(NotClient); }
      var paid := Transfer(accounts, Vault(key), agentAta, job.priceMicro);
      if paid.Err? { return Err(Token(paid.error)); }
      jobs, accounts := jobs[key := job.(state := Released)], paid.value;
      return Ok(());
    }

    method DisputeHandler(key: JobKey, client: Pubkey, now: I64) returns (r: Result<(), EscrowError>)
      requires Valid()
      modifies this`jobs
      ensures Valid()
      ensures Committed(Apply(old(View()), Instruction(key, client, now, Dispute)), old(View()), View(), r)
    {
      ghost var ix := Instruction(key, client, now, Dispute);
      if Apply(View(), ix).Ok? { ApplyKeepsSound(View(), ix); }
      if !CanSign(client) { return Err(MissingSignature); }
      if key !in jobs { return Err(AccountMissing); }
      var job := jobs[key];
      if job.state != Completed { return Err(InvalidState); }
      if client != job.client { return Err(NotClient); }
      jobs := jobs[key := job.(state := Disputed)];
      return Ok(());
    }

    /** Refunds the client exactly when it cancels before acceptance, or seven days after it. */
    method CancelHandler(key: JobKey, client: Pubkey, now: I64, clientAta: Pubkey) returns (r: Result<(), EscrowError>)
      requires Valid()
      modifies this
      ensures Valid()
      ensures r.Ok? <==>
                && key in old(jobs) && client == key.client && CanReceive(old(View()), key, clientAta, client)
                && var job := old(jobs)[key];
                   job.state == Created || (job.state == Accepted && now >= job.acceptedAt + ACCEPT_TIMEOUT_SECONDS)
      ensures r.Ok? ==> PaidOut(old(View()), View(), key, clientAta, Refunded)
      ensures Committed(Apply(old(View()), Instruction(key, client, now, Cancel(clientAta))), old(View()), View(), r)
    {
      ghost var ix := Instruction(key, client, now, Cancel(clientAta));
      hide PaidOut, Sound, Transfer, PayeeError, CanReceive;
      PayingContract(View(), ix);
      if !CanSign(client) { return Err(MissingSignature); }
      if key !in jobs { return Err(AccountMissing); }
      var job := jobs[key];
      var refused := PayeeError(accounts, Vault(key), clientAta, job.client, ClientAtaMismatch);
      if refused.Some? { return Err(refused.value); }
      if client != job.client { return Err(NotClient); }
      match job.state {
        case Created =>
        case Accepted =>
          if job.acceptedAt + ACCEPT_TIMEOUT_SECONDS > I64_MAX { return Err(Overflow); }
          if now < job.acceptedAt + ACCEPT_TIMEOUT_SECONDS { return Err(AcceptTimeoutNotElapsed); }
        case _ => return Err(InvalidState);
      }
      var paid := Transfer(accounts, Vault(key), clientAta, job.priceMicro);
      if paid.Err? { return Err(Token(paid.error)); }
      jobs, accounts := jobs[key := job.(state := Refunded)], paid.value;
      return Ok(());
    }

    /** Refunds the client exactly when anyone resolves a dispute seven days after completion. */
    method ResolveHandler(key: JobKey, caller: Pubkey, now: I64, clientAta: Pubkey) returns (r: Result<(), EscrowError>)
      requires Valid()
      modifies this
      ensures Valid()
      ensures r.Ok? <==>
                && CanSign(caller) && key in old(jobs) && CanReceive(old(View()), key, clientAta, key.client)
                && var job := old(jobs)[key];
                   job.state == Disputed && now >= job.completedAt + DISPUTE_TIMEOUT_SECONDS
      ensures r.Ok? ==> PaidOut(old(View()), View(), key, clientAta, Refunded)
      ensures Committed(Apply(old(View()), Instruction(key, caller, now, Resolve(clientAta))), old(View()), View(), r)
    {
      ghost var ix := Instruction(key, caller, now, Resolve(clientAta));
      hide PaidOut, Sound, Transfer, PayeeError, CanReceive;
      PayingContract(View(), ix);
      if !CanSign(caller) { return Err(MissingSignature); }
      if key !in jobs { return Err(AccountMissing); }
      var job := jobs[key];
      var refused := PayeeError(accounts, Vault(key), clientAta, job.client, ClientAtaMismatch);
      if refused.Some? { return Err(refused.value); }
      if job.state != Disputed { return Err(InvalidState); }
      if job.completedAt + DISPUTE_TIMEOUT_SECONDS > I64_MAX { return Err(Overflow); }
      if now < job.completedAt + DISPUTE_TIMEOUT_SECONDS { return Err(DisputeTimeoutNotElapsed); }
      var paid := Transfer(accounts, Vault(key), clientAta, job.priceMicro);
      if paid.Err? { return Err(Token(paid.error)); }
      jobs, accounts := jobs[key := job.(resolvedAt := now, state := Refunded)], paid.value;
      return Ok(());
    }

    method CloseHandler(key: JobKey, claimant: Pubkey, now: I64) returns (r: Result<(), EscrowError>)
      requires Valid()
      modifies this`jobs
      ensures Valid()
      ensures Committed(Apply(old(View()), Instruction(key, claimant, now, Action.Close)), old(View()), View(), r)
    {
      ghost var ix := Instruction(key, claimant, now, Action.Close);
      if Apply(View(), ix).Ok? { ApplyKeepsSound(View(), ix); }
      if !CanSign(claimant) { return Err(MissingSignature); }
      if key !in jobs { return Err(AccountMissing); }
      if jobs[key].state != Released && jobs[key].state != Refunded { return Err(InvalidState); }
      jobs := jobs - {key};
      return Ok(());
    }

    /** The token program at work on the same accounts. */
    method UseTokens(action: TokenAction)
      requires Valid()
      modifies this`accounts
      ensures Valid()
      ensures accounts == if TokenStep(old(accounts), action).Ok? then TokenStep(old(accounts), action).value
                else old(accounts)
    {
      var used := TokenStep(accounts, action);
      if used.Ok? {
        TokenStepKeepsSound(View(), action);
        accounts := used.value;
      }
    }
  }
}
