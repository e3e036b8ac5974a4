/**
 The escrow over whole runs of many jobs: any party sends any instruction at any time and
 may use the token program directly.  A run keeps the terms each job was created with, the
 jobs a release succeeded on, and, seen from outside, the token accounts before and after
 every step; what a job paid is read off those accounts alone.
 */
module EscrowRuns {
  import opened Wrappers
  import opened TokenLedger
  import opened Escrow

  datatype Terms = Terms(agent: Pubkey, price: nat)

  /** The token accounts around one step of a run. */
  datatype Change = Change(before: Ledger, after: Ledger)

  datatype World = World(state: EscrowState, terms: map<JobKey, Terms>, released: set<JobKey>, history: seq<Change>)

  datatype Event = Escrowed(ix: Instruction) | Tokens(token: TokenAction)

  function NextState(s: EscrowState, e: Event): EscrowState {
    match e
    case Escrowed(ix) =>
      (match Apply(s, ix)
       case Err(_) => s
       case Ok(after) => after)
    case Tokens(action) =>
      match TokenStep(s.accounts, action)
      case Err(_) => s
      case Ok(accounts) => s.(accounts := accounts)
  }

  predicate Succeeds(s: EscrowState, e: Event) {
    e.Escrowed? && Apply(s, e.ix).Ok?
  }

  function Step(w: World, e: Event): World {
    var after, ok := NextState(w.state, e), Succeeds(w.state, e);
    World(after,
          if ok && e.ix.action.Create? then w.terms[e.ix.key := Terms(e.ix.action.agent, e.ix.action.priceMicro)]
              else w.terms,
          if ok && e.ix.action.Release? then w.released + {e.ix.key} else w.released,
          w.history + [Change(w.state.accounts, after.accounts)])
  }

  function Run(w: World, es: seq<Event>): World {
    if es == [] then w else Step(Run(w, es[..|es| - 1]), es[|es| - 1])
  }

  function Genesis(accounts: Ledger): World {
    World(EscrowState(map[], accounts), map[], {}, [])
  }

  // ---------------------------------------------------------------------------
  // What left a vault
  // ---------------------------------------------------------------------------

  predicate Drains(c: Change, vault: Pubkey) {
    Balance(c.after, vault) < Balance(c.before, vault)
  }

  /** The steps at which tokens left the job's vault. */
  function Outflows(history: seq<Change>, key: JobKey): seq<Change> {
    if history == [] then []
    else
      var last := history[|history| - 1];
      Outflows(history[..|history| - 1], key) + if Drains(last, Vault(key)) then [last] else []
  }

  lemma OutflowsAppend(history: seq<Change>, c: Change, key: JobKey)
    ensures Outflows(history + [c], key) ==
              if Drains(c, Vault(key)) then Outflows(history, key) + [c] else Outflows(history, key)
  {
    assert (history + [c])[..|history|] == history;
  }

  ghost predicate PaysInto(c: Change, vault: Pubkey, ata: Pubkey, owner: Pubkey, amount: nat) {
    Moves(c.before, c.after, vault, ata, amount) && c.before[ata].owner == owner
  }

  /** Exactly once did tokens leave the vault: this amount, all of it into one account of this owner. */
  ghost predicate PaidOnce(out: seq<Change>, key: JobKey, owner: Pubkey, amount: nat) {
    |out| == 1 && exists ata :: PaysInto(out[0], Vault(key), ata, owner, amount)
  }

  // ---------------------------------------------------------------------------
  // The invariant
  // ---------------------------------------------------------------------------

  /** Whose the price is once it has left the vault: the agent's if a release succeeded, else the client's. */
  function Beneficiary(w: World, key: JobKey): Pubkey
    requires key in w.terms
  {
    if key in w.released then w.terms[key].agent else key.client
  }

  /** A live job matches its terms and nothing has left its vault; a final one was paid out once. */
  ghost predicate JobOk(w: World, key: JobKey)
    requires key in w.state.jobs && key in w.terms
  {
    var job, terms := w.state.jobs[key], w.terms[key];
    && JobSound(w.state, key)
    && job.agent == terms.agent && job.priceMicro == terms.price
    && (job.state == Released <==> key in w.released)
    && if Final(job.state) then PaidOnce(Outflows(w.history, key), key, Beneficiary(w, key), terms.price)
       else Outflows(w.history, key) == []
  }

  ghost predicate KeyOk(w: World, key: JobKey) {
    && (key in w.terms ==>
          && w.terms[key].price > 0
          && Vault(key) in w.state.accounts && w.state.accounts[Vault(key)].owner == Vault(key)
          && if key in w.state.jobs then JobOk(w, key)
             else PaidOnce(Outflows(w.history, key), key, Beneficiary(w, key), w.terms[key].price))
    && (key !in w.terms ==>
          && key !in w.state.jobs && key !in w.released
          && Outflows(w.history, key) == [] && Vault(key) !in w.state.accounts)
  }

  ghost predicate Inv(w: World) {
    forall key :: KeyOk(w, key)
  }

  lemma InvIsSound(w: World)
    requires Inv(w)
    ensures Sound(w.state)
  {
    forall key | key in w.state.jobs ensures JobSound(w.state, key) {
      assert KeyOk(w, key);
    }
  }

  // ---------------------------------------------------------------------------
  // Every step keeps the invariant
  // ---------------------------------------------------------------------------

  /** A job is unaffected by a step about another job that takes nothing from its vault. */
  lemma KeyFrame(w: World, w': World, key: JobKey)
    requires KeyOk(w, key)
    requires (key in w'.terms <==> key in w.terms) && (key in w.terms ==> w'.terms[key] == w.terms[key])
    requires key in w'.released <==> key in w.released
    requires key in w'.state.jobs <==> key in w.state.jobs
    requires key in w.state.jobs ==> w'.state.jobs[key] == w.state.jobs[key]
    requires VaultLoses(w.state.accounts, w'.state.accounts, Vault(key), 0)
    requires Vault(key) !in w.state.accounts ==> Vault(key) !in w'.state.accounts
    requires w'.history == w.history + [Change(w.state.accounts, w'.state.accounts)]
    ensures KeyOk(w', key)
  {
    OutflowsAppend(w.history, Change(w.state.accounts, w'.state.accounts), key);
  }

  lemma CreateKeeps(w: World, ix: Instruction, key: JobKey)
    requires Inv(w) && ix.action.Create? && Apply(w.state, ix).Ok?
    ensures KeyOk(Step(w, Escrowed(ix)), key)
  {
    assert KeyOk(w, key) && KeyOk(w, ix.key);
    InvIsSound(w);
    LocksExactlyWhen(w.state, ix);
    ApplyKeepsSound(w.state, ix);
    var w' := Step(w, Escrowed(ix));
    hide Apply;
    if key == ix.key {
      OutflowsAppend(w.history, Change(w.state.accounts, w'.state.accounts), key);
      assert JobSound(w'.state, key);
    } else {
      KeyFrame(w, w', key);
    }
  }

  lemma PayingKeeps(w: World, ix: Instruction, key: JobKey)
    requires Inv(w) && Payee(ix.action).Some? && Apply(w.state, ix).Ok?
    ensures KeyOk(Step(w, Escrowed(ix)), key)
  {
    assert KeyOk(w, key) && KeyOk(w, ix.key);
    hide Apply, Inv;
    InvIsSound(w);
    PaysExactlyWhen(w.state, ix);
    ApplyKeepsSound(w.state, ix);
    var w' := Step(w, Escrowed(ix));
    assert Vault(key) == Vault(ix.key) <==> key == ix.key;
    if key == ix.key {
      var c := Change(w.state.accounts, w'.state.accounts);
      var ata, owner := Payee(ix.action).value, Recipient(w.state.jobs[key], ix.action);
      OutflowsAppend(w.history, c, key);
      hide Outflows, PaidOnce, PaysInto;
      OnePayout(w.history, w'.history, c, key, ata, owner, w.terms[key].price);
      assert JobSound(w'.state, key);
    } else {
      KeyFrame(w, w', key);
    }
  }

  lemma OnePayout(history: seq<Change>, history': seq<Change>, c: Change, key: JobKey, ata: Pubkey, owner: Pubkey,
                  amount: nat)
    requires Outflows(history, key) == [] && history' == history + [c]
    requires PaysInto(c, Vault(key), ata, owner, amount) && amount > 0
    ensures PaidOnce(Outflows(history', key), key, owner, amount)
  {
    OutflowsAppend(history, c, key);
    assert Outflows(history', key)[0] == c;
  }

  lemma QuietKeeps(w: World, ix: Instruction, key: JobKey)
    requires Inv(w) && !ix.action.Create? && Payee(ix.action).None? && Apply(w.state, ix).Ok?
    ensures KeyOk(Step(w, Escrowed(ix)), key)
  {
    assert KeyOk(w, key) && KeyOk(w, ix.key);
    InvIsSound(w);
    MovesNoTokens(w.state, ix);
    ApplyKeepsSound(w.state, ix);
    var w' := Step(w, Escrowed(ix));
    if key == ix.key {
      OutflowsAppend(w.history, Change(w.state.accounts, w'.state.accounts), key);
      hide Outflows, PaidOnce;
    } else {
      KeyFrame(w, w', key);
    }
  }

  lemma TokensKeep(w: World, action: TokenAction, key: JobKey)
    requires Inv(w)
    ensures KeyOk(Step(w, Tokens(action)), key)
  {
    assert KeyOk(w, key);
    if TokenStep(w.state.accounts, action).Ok? {
      TokenStepSparesVaults(w.state.accounts, action, Vault(key));
    }
    KeyFrame(w, Step(w, Tokens(action)), key);
  }

  lemma StepKeepsInv(w: World, e: Event)
    requires Inv(w)
    ensures Inv(Step(w, e))
  {
    forall key ensures KeyOk(Step(w, e), key) {
      if e.Tokens? {
        TokensKeep(w, e.token, key);
      } else if Apply(w.state, e.ix).Err? {
        assert KeyOk(w, key);
        KeyFrame(w, Step(w, e), key);
      } else if e.ix.action.Create? {
        CreateKeeps(w, e.ix, key);
      } else if Payee(e.ix.action).Some? {
        PayingKeeps(w, e.ix, key);
      } else {
        QuietKeeps(w, e.ix, key);
      }
    }
  }

  /** No escrow vault exists before the program has run. */
  ghost predicate NoVaults(accounts: Ledger) {
    forall key: JobKey {:trigger Vault(key)} :: Vault(key) !in accounts
  }

  lemma GenesisInv(accounts: Ledger)
    requires NoVaults(accounts)
    ensures Inv(Genesis(accounts))
  {
    forall key ensures KeyOk(Genesis(accounts), key) {
      assert Vault(key) !in accounts;
    }
  }

  lemma {:induction false} RunKeepsInv(w: World, es: seq<Event>)
    requires Inv(w)
    ensures Inv(Run(w, es))
  {
    if es != [] {
      RunKeepsInv(w, es[..|es| - 1]);
      StepKeepsInv(Run(w, es[..|es| - 1]), es[|es| - 1]);
    }
  }

  // ---------------------------------------------------------------------------
  // The program itself, driven through a run
  // ---------------------------------------------------------------------------

  /** One event handed to the handler it is for. */
  method Dispatch(p: EscrowProgram, e: Event)
    requires p.Valid()
    modifies p
    ensures p.Valid() && p.View() == NextState(old(p.View()), e)
  {
    var r: Result<(), EscrowError>;
    match e {
      case Tokens(action) => p.UseTokens(action);
      case Escrowed(ix) =>
        match ix.action {
          case Create(agent, price, ata, mint) =>
            r := p.CreateHandler(ix.key, ix.signer, ix.now, agent, price, ata, mint);
          case Accept => r := p.AcceptHandler(ix.key, ix.signer, ix.now);
          case Complete => r := p.CompleteHandler(ix.key, ix.signer, ix.now);
          case Release(ata) => r := p.ReleaseHandler(ix.key, ix.signer, ix.now, ata);
          case Dispute => r := p.DisputeHandler(ix.key, ix.signer, ix.now);
          case Cancel(ata) => r := p.CancelHandler(ix.key, ix.signer, ix.now, ata);
          case Resolve(ata) => r := p.ResolveHandler(ix.key, ix.signer, ix.now, ata);
          case Close => r := p.CloseHandler(ix.key, ix.signer, ix.now);
        }
    }
  }

  /** The handlers, driven through any run, are where the run says: the results below are about them. */
  method Execute(accounts: Ledger, es: seq<Event>) returns (p: EscrowProgram)
    ensures fresh(p) && p.Valid() && p.View() == Run(Genesis(accounts), es).state
  {
    p := new EscrowProgram(accounts);
    for i := 0 to |es|
      invariant fresh(p) && p.Valid() && p.View() == Run(Genesis(accounts), es[..i]).state
    {
      Dispatch(p, es[i]);
      assert es[..i + 1][..i] == es[..i];
    }
    assert es[..|es|] == es;
  }

  // ---------------------------------------------------------------------------
  // Main results
  // ---------------------------------------------------------------------------

  /**
   After any run, a job that was ever created is in exactly one of two situations.  While it is
   live no token has ever left its vault, which holds at least its price.  Once it is final or
   closed, tokens left the vault at exactly one step of the run: the price, into one account, of
   its agent if a release succeeded on it and of its client otherwise.
   */
  lemma PaysOutOnce(accounts: Ledger, es: seq<Event>, key: JobKey)
    requires NoVaults(accounts)
    ensures var w := Run(Genesis(accounts), es);
            if key !in w.terms then key !in w.state.jobs && Outflows(w.history, key) == []
            else
              var terms := w.terms[key];
              && terms.price > 0
              && if key in w.state.jobs && !Final(w.state.jobs[key].state)
                 then Outflows(w.history, key) == [] && Balance(w.state.accounts, Vault(key)) >= terms.price
                 else PaidOnce(Outflows(w.history, key), key, Beneficiary(w, key), terms.price)
    ensures var w := Run(Genesis(accounts), es);
            key in w.state.jobs ==> (w.state.jobs[key].state == Released <==> key in w.released)
  {
    GenesisInv(accounts);
    RunKeepsInv(Genesis(accounts), es);
    assert KeyOk(Run(Genesis(accounts), es), key);
  }

  predicate Mints(e: Event) {
    e.Tokens? && e.token.Mint?
  }

  lemma StepConserves(w: World, e: Event, mint: Pubkey)
    requires !Mints(e)
    ensures Total(Step(w, e).state.accounts, mint) == Total(w.state.accounts, mint)
  {
    match e {
      case Tokens(action) =>
        if TokenStep(w.state.accounts, action).Ok? {
          TokenStepConserves(w.state.accounts, action, mint);
        }
      case Escrowed(ix) =>
        if Apply(w.state, ix).Ok? {
          ApplyConserves(w.state, ix, mint);
        }
    }
  }

  lemma ApplyConserves(s: EscrowState, ix: Instruction, mint: Pubkey)
    requires Apply(s, ix).Ok?
    ensures Total(Apply(s, ix).value.accounts, mint) == Total(s.accounts, mint)
  {
    if ix.action.Create? {
      var vault, m := Vault(ix.key), ix.action.mint;
      var withVault := s.accounts[vault := TokenAccount(vault, m, 0)];
      OpenKeepsTotal(s.accounts, vault, vault, m, mint);
      TransferConserves(withVault, ix.action.clientAta, vault, ix.action.priceMicro, mint);
    } else if Payee(ix.action).Some? {
      TransferConserves(s.accounts, Vault(ix.key), Payee(ix.action).value, s.jobs[ix.key].priceMicro, mint);
    }
  }

  /** The tokens of every mint are conserved over every run without minting. */
  lemma {:induction false} RunConserves(w: World, es: seq<Event>, mint: Pubkey)
    requires forall i :: 0 <= i < |es| ==> !Mints(es[i])
    ensures Total(Run(w, es).state.accounts, mint) == Total(w.state.accounts, mint)
  {
    if es != [] {
      RunConserves(w, es[..|es| - 1], mint);
      StepConserves(Run(w, es[..|es| - 1]), es[|es| - 1], mint);
    }
  }

  const LAST_RANK: nat := 6

  /** How far a job has come; each successful instruction takes it further. */
  function Rank(w: World, key: JobKey): (r: nat)
    ensures r <= LAST_RANK
  {
    if key !in w.terms then 0
    else if key !in w.state.jobs then LAST_RANK
    else
      match w.state.jobs[key].state
      case Created => 1
      case Accepted => 2
      case Completed => 3
      case Disputed => 4
      case Released => 5
      case Refunded => 5
  }

  function Advances(w: World, e: Event, key: JobKey): nat {
    if e.Escrowed? && e.ix.key == key && Apply(w.state, e.ix).Ok? then 1 else 0
  }

  /** A successful instruction takes its own job further, and leaves the rank of every other job alone. */
  lemma StepRaisesRank(w: World, e: Event, key: JobKey)
    requires Inv(w)
    ensures Rank(Step(w, e), key) >= Rank(w, key) + Advances(w, e, key)
    ensures Advances(w, e, key) == 0 ==> Rank(Step(w, e), key) == Rank(w, key)
  {
    hide Transfer, Outflows, PaidOnce, JobSound;
    if Succeeds(w.state, e) {
      assert KeyOk(w, e.ix.key);
    }
  }

  /** How many instructions of a run succeeded on a job. */
  function Successes(w: World, es: seq<Event>, key: JobKey): nat {
    if es == [] then 0
    else Successes(w, es[..|es| - 1], key) + Advances(Run(w, es[..|es| - 1]), es[|es| - 1], key)
  }

  lemma {:induction false} RunRaisesRank(accounts: Ledger, es: seq<Event>, key: JobKey)
    requires NoVaults(accounts)
    ensures Rank(Run(Genesis(accounts), es), key) >= Successes(Genesis(accounts), es, key)
  {
    if es != [] {
      RunRaisesRank(accounts, es[..|es| - 1], key);
      GenesisInv(accounts);
      RunKeepsInv(Genesis(accounts), es[..|es| - 1]);
      StepRaisesRank(Run(Genesis(accounts), es[..|es| - 1]), es[|es| - 1], key);
    }
  }

  /** A job takes at most six successful instructions, whatever the parties send. */
  lemma JobIsBounded(accounts: Ledger, es: seq<Event>, key: JobKey)
    requires NoVaults(accounts)
    ensures Successes(Genesis(accounts), es, key) <= LAST_RANK
  {
    RunRaisesRank(accounts, es, key);
  }

  /** A client and nonce never host a second job, even after the first is closed: its vault is still there. */
  lemma {:induction false} NonceIsUsedOnce(w: World, es: seq<Event>, key: JobKey)
    requires Inv(w) && key in w.terms
    ensures Inv(Run(w, es))
    ensures key in Run(w, es).terms && Run(w, es).terms[key] == w.terms[key]
    ensures forall ix: Instruction :: ix.key == key && ix.action.Create? ==> Apply(Run(w, es).state, ix).Err?
  {
    if es != [] {
      NonceIsUsedOnce(w, es[..|es| - 1], key);
      var before, e := Run(w, es[..|es| - 1]), es[|es| - 1];
      StepKeepsInv(before, e);
    }
    var after := Run(w, es);
    assert KeyOk(after, key);
    forall ix: Instruction | ix.key == key && ix.action.Create? ensures Apply(after.state, ix).Err? {
      assert Vault(ix.key) in after.state.accounts;
    }
  }

  /**
   When a job can be created: in every reachable state exactly when its client signs, never used the
   nonce before, and owns an account of the mint that holds the price.  The price is then in the vault.
   */
  lemma CreatesExactlyWhen(w: World, ix: Instruction)
    requires Inv(w) && ix.action.Create?
    ensures var Create(agent, price, ata, mint) := ix.action;
            && (Apply(w.state, ix).Ok? <==>
                  && CanSign(ix.key.client) && ix.signer == ix.key.client && ix.key !in w.terms
                  && ata in w.state.accounts && w.state.accounts[ata].owner == ix.key.client
                  && w.state.accounts[ata].mint == mint && 0 < price <= Balance(w.state.accounts, ata))
            && (Apply(w.state, ix).Ok? ==>
                  var after := Apply(w.state, ix).value;
                  && Locked(w.state.accounts, after.accounts, ata, Vault(ix.key), mint, price)
                  && var job := Job(ix.key.client, agent, ix.key.nonce, price, ix.now, 0, 0, 0, Created);
                     after.jobs == w.state.jobs[ix.key := job])
  {
    assert KeyOk(w, ix.key);
    LocksExactlyWhen(w.state, ix);
  }

  /**
   Who can move a job and when: in every reachable state an instruction on it succeeds exactly
   when its sender signs and may move the job now, and, if it pays, the account it names is the
   recipient's.  The funds are always there.
   */
  lemma WhoMayMove(w: World, ix: Instruction)
    requires Inv(w) && ix.key in w.state.jobs
    ensures var job := w.state.jobs[ix.key];
            Apply(w.state, ix).Ok? <==>
              && CanSign(ix.signer) && Enabled(job, ix)
              && (Payee(ix.action).Some? ==> CanReceive(w.state, ix.key, Payee(ix.action).value,
                                                        Recipient(job, ix.action)))
  {
    InvIsSound(w);
    if Payee(ix.action).Some? {
      PaysExactlyWhen(w.state, ix);
    } else if !ix.action.Create? {
      MovesNoTokens(w.state, ix);
    }
  }

  /** A client's release of a completed job always pays: the agent is up by the price. */
  lemma ReleaseAlwaysPays(w: World, ix: Instruction)
    requires Inv(w) && ix.key in w.state.jobs && ix.action.Release? && CanSign(ix.signer)
    requires CanReceive(w.state, ix.key, ix.action.agentAta, w.state.jobs[ix.key].agent)
    ensures Apply(w.state, ix).Ok? <==> w.state.jobs[ix.key].state == Completed && ix.signer == ix.key.client
    ensures Apply(w.state, ix).Ok? ==> PaidOut(w.state, Apply(w.state, ix).value, ix.key, ix.action.agentAta, Released)
  {
    InvIsSound(w);
    assert JobSound(w.state, ix.key);
    PaysExactlyWhen(w.state, ix);
  }

  // ---------------------------------------------------------------------------
  // What the parties can count on over time
  // ---------------------------------------------------------------------------

  /** Only a successful instruction on the job itself changes its record, and none brings back a missing one. */
  lemma StepFrame(w: World, e: Event, key: JobKey)
    requires Inv(w) && key in w.terms && !(Succeeds(w.state, e) && e.ix.key == key)
    ensures var w' := Step(w, e);
            && (key in w'.state.jobs <==> key in w.state.jobs)
            && (key in w.state.jobs ==> w'.state.jobs[key] == w.state.jobs[key])
            && key in w'.terms && w'.terms[key] == w.terms[key] && (key in w'.released <==> key in w.released)
  {
    if Succeeds(w.state, e) && e.ix.key in w.state.jobs {
      WhatChanges(w, e.ix);
    }
  }

  /** A successful instruction on an existing job changes the record of that job only. */
  lemma WhatChanges(w: World, ix: Instruction)
    requires Inv(w) && ix.key in w.state.jobs && Apply(w.state, ix).Ok?
    ensures CanSign(ix.signer) && Enabled(w.state.jobs[ix.key], ix)
    ensures OnlyThisJob(w.state, Apply(w.state, ix).value, ix.key)
    ensures Step(w, Escrowed(ix)).terms == w.terms
  {
    InvIsSound(w);
    if Payee(ix.action).Some? {
      PaysExactlyWhen(w.state, ix);
    } else if !ix.action.Create? {
      MovesNoTokens(w.state, ix);
    }
  }

  /** The event is no instruction on this job that may move it from the given state. */
  predicate LeavesAlone(job: Job, key: JobKey, e: Event) {
    e.Escrowed? && e.ix.key == key ==> !Enabled(job, e.ix)
  }

  /** A job stays as it is, and funded if not final, while nobody sends what could move it. */
  lemma {:induction false} JobWaits(w: World, es: seq<Event>, key: JobKey)
    requires Inv(w) && key in w.state.jobs
    requires forall i {:trigger es[i]} :: 0 <= i < |es| ==> LeavesAlone(w.state.jobs[key], key, es[i])
    ensures var w' := Run(w, es);
            && Inv(w') && key in w'.terms && key in w'.state.jobs && w'.state.jobs[key] == w.state.jobs[key]
            && (!Final(w.state.jobs[key].state) ==>
                Balance(w'.state.accounts, Vault(key)) >= w.state.jobs[key].priceMicro)
  {
    if es != [] {
      var init, e := es[..|es| - 1], es[|es| - 1];
      assert forall i {:trigger init[i]} :: 0 <= i < |init| ==> init[i] == es[i];
      JobWaits(w, init, key);
      var before := Run(w, init);
      StepKeepsInv(before, e);
      assert LeavesAlone(w.state.jobs[key], key, e);
      hide Apply, Step, Enabled;
      if Succeeds(before.state, e) && e.ix.key == key {
        WhoMayMove(before, e.ix);
      }
      StepFrame(before, e, key);
    }
    assert KeyOk(Run(w, es), key);
    hide Outflows, PaidOnce;
  }

  /** What a step leaves of a job's stamps: acceptance and completion are stamped once. */
  lemma StampsStep(w: World, e: Event, key: JobKey)
    requires Inv(w) && key in w.terms
    ensures var w' := Step(w, e);
            key in w'.state.jobs ==>
              && key in w.state.jobs
              && (Rank(w, key) >= 2 ==> w'.state.jobs[key].acceptedAt == w.state.jobs[key].acceptedAt)
              && (Rank(w, key) >= 3 ==> w'.state.jobs[key].completedAt == w.state.jobs[key].completedAt)
  {
    assert KeyOk(w, key);
    hide Outflows, PaidOnce, Transfer, Apply, JobSound;
    if Succeeds(w.state, e) && e.ix.key == key {
      if key in w.state.jobs {
        WhoMayMove(w, e.ix);
        JobIsStamped(w.state, e.ix);
      } else {
        NonceIsUsedOnce(w, [], key);
        NoJobNoMove(w.state, e.ix);
      }
    } else {
      StepFrame(w, e, key);
    }
  }

  lemma NoJobNoMove(s: EscrowState, ix: Instruction)
    requires ix.key !in s.jobs && !ix.action.Create?
    ensures Apply(s, ix).Err?
  {
  }

  /** Over every run, a job accepted or completed keeps the clock of that instruction. */
  lemma {:induction false} StampsStay(w: World, es: seq<Event>, key: JobKey)
    requires Inv(w) && key in w.terms
    ensures var w' := Run(w, es);
            && Inv(w') && key in w'.terms && Rank(w', key) >= Rank(w, key)
            && (key in w'.state.jobs ==>
                && key in w.state.jobs
                && (Rank(w, key) >= 2 ==> w'.state.jobs[key].acceptedAt == w.state.jobs[key].acceptedAt)
                && (Rank(w, key) >= 3 ==> w'.state.jobs[key].completedAt == w.state.jobs[key].completedAt))
  {
    if es != [] {
      var before, e := Run(w, es[..|es| - 1]), es[|es| - 1];
      StampsStay(w, es[..|es| - 1], key);
      hide Rank, Step, Inv;
      StepKeepsInv(before, e);
      NonceIsUsedOnce(before, [e], key);
      RunOne(before, e);
      StampsStep(before, e, key);
      StepRaisesRank(before, e, key);
    }
  }

  lemma RunOne(w: World, e: Event)
    ensures Run(w, [e]) == Step(w, e)
  {
    assert [e][..0] == [];
  }

  /** The job just after an instruction on it succeeded. */
  lemma JustMoved(w: World, ix: Instruction)
    requires Inv(w) && ix.key in w.state.jobs && !ix.action.Close? && Apply(w.state, ix).Ok?
    ensures var w' := Step(w, Escrowed(ix));
            && Inv(w') && ix.key in w'.state.jobs && ix.key in w'.terms
            && Stamped(w.state.jobs[ix.key], w'.state.jobs[ix.key], ix)
            && w'.state.jobs[ix.key].agent == w.state.jobs[ix.key].agent
            && Enabled(w.state.jobs[ix.key], ix)
  {
    StepKeepsInv(w, Escrowed(ix));
    JobIsStamped(w.state, ix);
    WhatChanges(w, ix);
    assert KeyOk(Step(w, Escrowed(ix)), ix.key);
    hide Apply, Outflows, PaidOnce, JobSound, Enabled;
  }

  lemma ExistsToMove(w: World, ix: Instruction)
    requires Inv(w) && !ix.action.Create? && Apply(w.state, ix).Ok?
    ensures ix.key in w.state.jobs
  {
    if ix.key !in w.state.jobs {
      NoJobNoMove(w.state, ix);
    }
  }

  /** When the client can have an accepted job back: seven days after the clock of the acceptance, not before. */
  ghost predicate CancelsFrom(s: EscrowState, key: JobKey, from: int) {
    forall cancel: Instruction {:trigger Apply(s, cancel)} ::
      && cancel.key == key && cancel.action.Cancel? && cancel.signer == key.client
      && CanReceive(s, key, cancel.action.clientAta, key.client) ==>
        (Apply(s, cancel).Ok? <==> cancel.now >= from)
  }

  /**
   For seven days from the clock of its acceptance a job is its agent's: until the agent completes it
   nothing can take the price away, and from then on the client can.
   */
  lemma AcceptedJobIsHeld(w: World, accept: Instruction, es: seq<Event>)
    requires Inv(w) && accept.action.Accept? && Apply(w.state, accept).Ok?
    requires forall i {:trigger es[i]} :: 0 <= i < |es| && es[i].Escrowed? && es[i].ix.key == accept.key ==>
               es[i].ix.signer != accept.signer && es[i].ix.now < accept.now + ACCEPT_TIMEOUT_SECONDS
    ensures var key, w' := accept.key, Run(Step(w, Escrowed(accept)), es);
            && key in w'.state.jobs && w'.state.jobs[key].state == Accepted
            && w'.state.jobs[key].agent == accept.signer && w'.state.jobs[key].acceptedAt == accept.now
            && Balance(w'.state.accounts, Vault(key)) >= w'.state.jobs[key].priceMicro
            && CancelsFrom(w'.state, key, accept.now + ACCEPT_TIMEOUT_SECONDS)
  {
    var key, w1 := accept.key, Step(w, Escrowed(accept));
    ExistsToMove(w, accept);
    JustMoved(w, accept);
    JobWaits(w1, es, key);
    hide Apply, Step, Run, Inv, CancelsFrom;
    CancelsAfterTimeout(Run(w1, es), key);
  }

  lemma CancelsAfterTimeout(w: World, key: JobKey)
    requires Inv(w) && key in w.state.jobs && w.state.jobs[key].state == Accepted
    ensures CancelsFrom(w.state, key, w.state.jobs[key].acceptedAt + ACCEPT_TIMEOUT_SECONDS)
  {
    ClientIsSound(w, key);
    hide Apply, Inv, CanReceive;
    forall cancel: Instruction {:trigger Apply(w.state, cancel)}
      | cancel.key == key && cancel.action.Cancel? && cancel.signer == key.client
        && CanReceive(w.state, key, cancel.action.clientAta, key.client)
      ensures Apply(w.state, cancel).Ok? <==> cancel.now >= w.state.jobs[key].acceptedAt + ACCEPT_TIMEOUT_SECONDS
    {
      WhoMayMove(w, cancel);
    }
  }

  lemma ClientIsSound(w: World, key: JobKey)
    requires Inv(w) && key in w.state.jobs
    ensures w.state.jobs[key].client == key.client && CanSign(key.client) && key in w.terms
  {
    assert KeyOk(w, key);
  }

  /**
   A disputed job refunds exactly from seven days after the clock of its completion, whoever asks and
   whatever has happened since: the client is up by the price.
   */
  lemma TimedOutDisputeRefunds(w: World, complete: Instruction, es: seq<Event>, resolve: Instruction)
    requires Inv(w) && complete.action.Complete? && Apply(w.state, complete).Ok?
    requires resolve.key == complete.key && resolve.action.Resolve? && CanSign(resolve.signer)
    requires var key, w' := complete.key, Run(Step(w, Escrowed(complete)), es);
             && key in w'.state.jobs && w'.state.jobs[key].state == Disputed
             && CanReceive(w'.state, key, resolve.action.clientAta, key.client)
    ensures var s := Run(Step(w, Escrowed(complete)), es).state;
            && (Apply(s, resolve).Ok? <==> resolve.now >= complete.now + DISPUTE_TIMEOUT_SECONDS)
            && (Apply(s, resolve).Ok? ==>
                && PaidOut(s, Apply(s, resolve).value, resolve.key, resolve.action.clientAta, Refunded)
                && Stamped(s.jobs[resolve.key], Apply(s, resolve).value.jobs[resolve.key], resolve))
  {
    var key, w1 := complete.key, Step(w, Escrowed(complete));
    ExistsToMove(w, complete);
    JustMoved(w, complete);
    StampsStay(w1, es, key);
    var w' := Run(w1, es);
    ClientIsSound(w', key);
    InvIsSound(w');
    hide Step, Run, Inv, Sound, CanReceive, PaidOut;
    PaysExactlyWhen(w'.state, resolve);
    if Apply(w'.state, resolve).Ok? {
      JobIsStamped(w'.state, resolve);
    }
    hide Apply;
  }

  /** A completed job waits for its client, for ever: whatever the others send, the agent is not paid. */
  lemma CompletedWaitsForClient(w: World, es: seq<Event>, key: JobKey)
    requires Inv(w) && key in w.state.jobs && w.state.jobs[key].state == Completed
    requires forall i {:trigger es[i]} :: 0 <= i < |es| && es[i].Escrowed? && es[i].ix.key == key ==>
               es[i].ix.signer != key.client
    ensures var w' := Run(w, es);
            && key in w'.state.jobs && w'.state.jobs[key] == w.state.jobs[key]
            && Balance(w'.state.accounts, Vault(key)) >= w.state.jobs[key].priceMicro
  {
    assert KeyOk(w, key);
    JobWaits(w, es, key);
  }

  /** Once disputed, a job is never released: in every continuation it stays disputed or its client is refunded. */
  lemma {:induction false} DisputedNeverReleases(w: World, es: seq<Event>, key: JobKey)
    requires Inv(w) && key in w.state.jobs && w.state.jobs[key].state in {Disputed, Refunded}
    ensures var w' := Run(w, es);
            && Inv(w') && key in w.terms && key in w'.terms && w'.terms[key] == w.terms[key] && key !in w'.released
            && (key in w'.state.jobs ==> w'.state.jobs[key].state in {Disputed, Refunded})
            && (key !in w'.state.jobs || w'.state.jobs[key].state == Refunded ==>
                  PaidOnce(Outflows(w'.history, key), key, key.client, w.terms[key].price))
  {
    assert KeyOk(w, key);
    hide Outflows, PaidOnce;
    if es != [] {
      DisputedNeverReleases(w, es[..|es| - 1], key);
      var before, e := Run(w, es[..|es| - 1]), es[|es| - 1];
      StepKeepsInv(before, e);
      DisputedStep(before, e, key);
    }
    assert KeyOk(Run(w, es), key);
  }

  lemma DisputedStep(w: World, e: Event, key: JobKey)
    requires Inv(w) && key in w.terms && key !in w.released
    requires key in w.state.jobs ==> w.state.jobs[key].state in {Disputed, Refunded}
    ensures var w' := Step(w, e);
            && key in w'.terms && w'.terms[key] == w.terms[key] && key !in w'.released
            && (key in w'.state.jobs ==> w'.state.jobs[key].state in {Disputed, Refunded})
  {
    if Succeeds(w.state, e) && e.ix.key == key {
      assert KeyOk(w, key);
    } else {
      StepFrame(w, e, key);
    }
  }

  /**
   From seven days after the clock of completion the client can dispute and have it resolved at once,
   and gets the price back.
   */
  lemma DisputeThenResolve(w: World, complete: Instruction, es: seq<Event>, disputedAt: I64, resolver: Pubkey, now: I64,
                           clientAta: Pubkey)
    requires Inv(w) && complete.action.Complete? && Apply(w.state, complete).Ok? && CanSign(resolver)
    requires var key, w' := complete.key, Run(Step(w, Escrowed(complete)), es);
             && key in w'.state.jobs && w'.state.jobs[key].state == Completed
             && CanReceive(w'.state, key, clientAta, key.client)
    requires now >= complete.now + DISPUTE_TIMEOUT_SECONDS
    ensures var key, w' := complete.key, Run(Step(w, Escrowed(complete)), es);
            var after := Run(w', [Escrowed(Instruction(key, key.client, disputedAt, Dispute)),
                                  Escrowed(Instruction(key, resolver, now, Resolve(clientAta)))]);
            PaidOut(w'.state, after.state, key, clientAta, Refunded)
  {
    var key, w1 := complete.key, Step(w, Escrowed(complete));
    ExistsToMove(w, complete);
    JustMoved(w, complete);
    StampsStay(w1, es, key);
    hide Apply, Step, Run, Inv, CanReceive, PaidOut;
    DisputeResolves(Run(w1, es), key, disputedAt, resolver, now, clientAta);
  }

  lemma DisputeResolves(w: World, key: JobKey, disputedAt: I64, resolver: Pubkey, now: I64, clientAta: Pubkey)
    requires Inv(w) && key in w.state.jobs && w.state.jobs[key].state == Completed && CanSign(resolver)
    requires CanReceive(w.state, key, clientAta, key.client)
               && now >= w.state.jobs[key].completedAt + DISPUTE_TIMEOUT_SECONDS
    ensures var w' := Run(w, [Escrowed(Instruction(key, key.client, disputedAt, Dispute)),
                              Escrowed(Instruction(key, resolver, now, Resolve(clientAta)))]);
            PaidOut(w.state, w'.state, key, clientAta, Refunded)
  {
    var dispute, resolve := Instruction(key, key.client, disputedAt, Dispute),
        Instruction(key, resolver, now, Resolve(clientAta));
    RunTwo(w, Escrowed(dispute), Escrowed(resolve));
    assert KeyOk(w, key);
    WhoMayMove(w, dispute);
    var disputed := Step(w, Escrowed(dispute));
    StepKeepsInv(w, Escrowed(dispute));
    assert disputed.state == w.state.(jobs := w.state.jobs[key := w.state.jobs[key].(state := Disputed)]);
    InvIsSound(disputed);
    PaysExactlyWhen(disputed.state, resolve);
  }

  lemma RunTwo(w: World, first: Event, second: Event)
    ensures Run(w, [first, second]) == Step(Step(w, first), second)
  {
    var es := [first, second];
    assert es[..1] == [first] && es[..1][..0] == [];
    assert Run(w, [first]) == Step(Run(w, []), first);
  }

  /** Closing removes a job's record for good: no instruction on it ever succeeds, and nothing more is paid. */
  lemma {:induction false} ClosedIsFinal(w: World, es: seq<Event>, key: JobKey)
    requires Inv(w) && key in w.terms && key !in w.state.jobs
    ensures Inv(Run(w, es)) && key in Run(w, es).terms && key !in Run(w, es).state.jobs
    ensures Outflows(Run(w, es).history, key) == Outflows(w.history, key)
    ensures forall ix: Instruction :: ix.key == key ==> Apply(Run(w, es).state, ix).Err?
  {
    if es != [] {
      var init, e := es[..|es| - 1], es[|es| - 1];
      ClosedIsFinal(w, init, key);
      StepKeepsInv(Run(w, init), e);
      ClosedStep(Run(w, init), e, key);
    }
    var after := Run(w, es);
    assert KeyOk(after, key);
    forall ix: Instruction | ix.key == key ensures Apply(after.state, ix).Err? {
      assert Vault(ix.key) in after.state.accounts;
    }
  }

  lemma ClosedStep(w: World, e: Event, key: JobKey)
    requires Inv(w) && key in w.terms && key !in w.state.jobs && Inv(Step(w, e))
    ensures key in Step(w, e).terms && key !in Step(w, e).state.jobs
    ensures Outflows(Step(w, e).history, key) == Outflows(w.history, key)
  {
    assert KeyOk(w, key) && KeyOk(Step(w, e), key);
    StepFrame(w, e, key);
    OutflowsAppend(w.history, Change(w.state.accounts, Step(w, e).state.accounts), key);
  }
}
