# Verified model of the Qietr shielded-payments stack

This project models, in Dafny, the parts of Qietr that have to agree with one another for
private payments to work, and proves that they do.

- **The commitment tree.** `MerkleSpec` defines the padded tree of fixed depth. The on-chain
  frontier with its ring of roots (`IncrementalTree`), the indexer's and the SDK's
  level-by-level walks (`InclusionPath`) and the circuit's path checker are all compared with
  it, for an arbitrary two-input hash. `FieldTerm` instantiates the hash by an ideal Poseidon
  in which collision-freedom is a theorem.
- **The pool.** `Pool` has the eight instructions, each as a specification and as a handler that
  carries it out on the account tables; `PoolSolvency` runs them in any order, by any party,
  next to unrestricted use of the token program, and proves solvency; `PoolContracts` says exactly
  when each succeeds and what it leaves. `TokenLedger` is the token
  program both on-chain programs use.
- **Ingestion and serving.** `Pagination` and `Poller` replay the chain into a table through
  crashes; `ProofRoute` serves proofs from it through a cache; `ProofService` runs both at once
  for many requests; `IxCodec` says which instruction bytes are leaves. `ChainTxs` executes
  transactions on the pool and shows them to the poller, and `EndToEnd` proves that what is
  served is what is accepted.
- **Escrow.** `Escrow` has the eight instructions and `EscrowRuns` the many-job runs.
- **The relayer's guards.** `RateLimit`, `SpendGuard` and `ReplayGuard`, over whole runs in time.
- **The SDK.** `X402` is the HTTP 402 payment loop (section 15.5.3 of RFC 9110) against an
  adversarial server, `NoteWallet` the note it pays from, and `Codec` the byte and hex codecs.

## How to read it

An imperative component of the source is a class or a method with loops, proved equal to a
specification function of the old state; the lemmas about that function say what the component
is for. Handlers work on a copy of each account and write it back on success, as the runtime
does, so a failed instruction changes nothing. Runs are sequences of instructions or events,
and the lemmas named in the table quantify over all of them; methods such as
`EscrowRuns.Execute`, `PoolSolvency.Execute`, `SpendGuard.Serve` and `ProofService.RunService` drive
the classes through them. What a payment does is stated in balances of the token accounts before and after. Clocks,
random draws, answers of servers and of the chain, and the points at which a process dies are
inputs of the model.

Parameters and idealizations:

- Tree depth and ring length are parameters (at least 1; the ring at most 256, the range of its
  one-byte cursor); `MERKLE_DEPTH` and `ROOT_HISTORY_LEN` are 20 and 30.
- Groth16 verification is ideal: a proof is accepted exactly when it carries a witness of the
  circuit's constraints. The public-signal order is the one the program indexes
  (`qietr-pool/programs/qietr_pool/src/lib.rs:143-148`); `docs/dev/02-TRD.md:62` and the header of
  the circuit list another.
- The verifier is taken to refuse public signals at or above the field prime: a nullifier account
  is named by raw bytes, so uniqueness of nullifiers rests on each having one encoding. The model
  has this by typing the signals as field elements.
- Program-derived and associated addresses are distinct terms; every other address is a wallet,
  and only wallets sign. A sha256 digest stands for the transaction it was made from.
- Poseidon refuses 32-byte strings that encode no field element; such a deposit fails.
- The RPC history only grows at its newest end.

## What the proofs found

- The SDK keeps the change of a payment in the note as a coin to pay from
  (`qietr-sdk/src/sdk.ts:435-448`), but `withdraw` demands the full tier amount
  (`qietr-pool/programs/qietr_pool/src/lib.rs:188-190`): a coin can be spent only if it is worth
  its full tier (`EndToEnd.CoinSpendsExactlyWhen`). The SDK pays from the smallest coin that covers
  (`qietr-sdk/src/sdk.ts:317-326`), so change also stands in the way: of a 7 left over and a fresh
  10 it tries to pay 5 from the 7 and is refused (`NoteWallet.SmallerChangeIsPicked`). A payment is
  accepted exactly when the picked coin is a full-tier coin
  (`EndToEnd.PaymentAcceptedExactlyWhen`); with a single tier, once a payment p left change t - p,
  nothing up to t - p can be paid again (`NoteWallet.ChangeBlocksPayments`). What a payment leaves
  behind stays in the vault, which is why the surplus in `PoolSolvency.PoolIsSolvent` has all change.
- Each withdrawal appends a leaf, so a full tree refuses withdrawals as well as deposits. This and
  the fee path are the only ways a verified withdrawal can fail
  (`PoolSolvency.VerifiedWithdrawSucceeds`). The SDK passes no fee vault
  (`qietr-sdk/src/sdk.ts:416-431`), so its withdrawals fail once one is configured
  (`EndToEnd.NoFeeVaultIsRefused`).
- The comment at `qietr-indexer/poller/src/db.ts:176-182` calls value-deduplication correct because
  commitments are unique. Depositors may repeat a value, and an instruction may be reached through
  another program; the exact condition is `Poller.TableIsChainExactlyWhen`. One repeated or unseen
  leaf takes the tier's proofs out of service for good (`EndToEnd.NothingServedAfterRepeat`,
  `EndToEnd.NothingServedAfterUnseen`); what is still accepted is exactly
  `EndToEnd.RowsAcceptedExactlyWhen`.
- The comment at `qietr-relayer/src/policy/rate-limit.ts:34-39` says dead keys age out. No key ever
  leaves the table (`RateLimit.KeysAreNeverDropped`), and a hit expires only when its own key is
  checked again (`RateLimit.ExpiredHitStays`).
- The spend guard tests and commits separately. With c requests in flight the cap is exceeded by up
  to c - 1 (`SpendGuard.ConcurrentCap`), and that is reached (`SpendGuard.ConcurrentCapIsReached`).
- The dispute timeout counts from completion, not from the dispute, so a client can dispute and be
  refunded back to back (`EscrowRuns.DisputeThenResolve`), and an agent whose client never returns
  is never paid (`EscrowRuns.CompletedWaitsForClient`).
- `docs/dev/02-TRD.md` section 3.4 has appends computed off chain; the program recomputes the path
  itself, and the model follows it.

## Model

| member | source | states |
|---|---|---|
| `MerkleSpec.PathCompleteness` | qietr-circuits/circuits/qietr_payment.circom:66-92 | Folding any leaf position along its siblings ends in the root of the padded tree, and the direction bits spell the index in binary; for every hash. |
| `MerkleSpec.InclusionSoundness` | qietr-circuits/circuits/qietr_payment.circom:66-92 | With a collision-free hash, whatever folds to the root of a leaf list along any siblings is the leaf its bits point at, or the zero padding past the end, at every depth. |
| `MerkleSpec.RootInjective` | qietr-pool/programs/qietr_pool/src/merkle.rs:64-97 | Leaf lists with equal roots agree, padding included, at every position of the tree. |
| `MerkleSpec.NodePadding` | qietr-pool/programs/qietr_pool/src/merkle.rs:51-57 | Every node to the right of the leaves is the precomputed empty-subtree root of its level, which is why the append may use the zero table. |
| `MerkleSpec.NodeComplete` | qietr-pool/programs/qietr_pool/src/state.rs:54-56 | A node all of whose leaves are present keeps its value whatever is appended later, which is why a frontier suffices. |
| `IncrementalTree.MerkleTree.Initialize` | qietr-pool/programs/qietr_pool/src/lib.rs:81-97 | The level-by-level loop leaves a fresh tree whose zero table holds the empty-subtree roots and whose ring and frontier are zero. |
| `IncrementalTree.MerkleTree.Load` | qietr-pool/programs/qietr_pool/src/state.rs:58-73 | Reading the stored account data back gives an account with exactly that data in buffers of its own. |
| `IncrementalTree.MerkleTree.Append` | qietr-pool/programs/qietr_pool/src/merkle.rs:65-96 | The in-place walk leaves exactly the specified data and root; at capacity, and on a leaf that is no field element, it fails and leaves the account unchanged. |
| `IncrementalTree.MerkleTree.KnowsRoot` | qietr-pool/programs/qietr_pool/src/state.rs:78-83 | Matches any ring slot, and never the all-zero root. |
| `IncrementalTree.WalkComputesNodes` | qietr-pool/programs/qietr_pool/src/merkle.rs:69-83 | After i levels the running hash is the new leaf's ancestor at level i in the padded tree, and the frontier differs from the old one exactly at the levels where that ancestor is a left child. |
| `IncrementalTree.AppendRefinesRecompute` | qietr-pool/programs/qietr_pool/src/merkle.rs:64-97 | The frontier append refines full recomputation: it succeeds exactly when there is room and the leaf is a field element, returns the padded tree's root over all leaves so far, and keeps the invariant that ties frontier, zero table and ring to the leaf list. |
| `IncrementalTree.ReplayRepresents` | qietr-pool/programs/qietr_pool/src/merkle.rs:64-97 | For every leaf list: appending it to a fresh tree succeeds exactly when it fits in 2^depth, and then the data represents exactly that list. |
| `IncrementalTree.KnownRootWindow` | qietr-pool/programs/qietr_pool/src/state.rs:76-83 | After any appends a root is known if and only if it is nonzero and was recorded at one of the last min(k, ring length) non-empty sizes, including the start, when unused slots are zero and slot 0 is written last. |
| `IncrementalTree.CursorHoldsCurrentRoot` | qietr-indexer/poller/src/decode.ts:96-102 | The slot under the cursor is the root at the current leaf count (zero for an empty tree), so the row the poller stores is the right one. |
| `IncrementalTree.ZeroLeafKeepsRoot` | qietr-pool/programs/qietr_pool/src/merkle.rs:64-97 | Appending the zero leaf succeeds while there is room and returns the root unchanged. |
| `FieldTerm.PoseidonInjective` | qietr-pool/programs/qietr_pool/src/merkle.rs:18-49 | In the term algebra of field elements no two different pairs hash to the same value. |
| `FieldTerm.RootLifetime` | qietr-pool/programs/qietr_pool/src/state.rs:76-83 | The root recorded at m leaves is known at N leaves if and only if fewer than the ring length were appended since, or all the leaves that pushed it out are zero leaves. |
| `InclusionPath.ZeroHashes` | qietr-indexer/api/src/poseidon-tree.ts:29-38 | The off-chain zero table is the on-chain one with one more entry. |
| `InclusionPath.BuildInclusionPath` | qietr-indexer/api/src/poseidon-tree.ts:51-86 | Fails exactly on an index outside the list; otherwise returns the root of the padded tree and, at every level, the sibling node and the direction bit of the index. |
| `InclusionPath.PoseidonMerkleTree.constructor` | qietr-sdk/src/merkle.ts:29-39 | A new tree has no leaves and the empty-subtree roots of every level. |
| `InclusionPath.PoseidonMerkleTree.Insert` | qietr-sdk/src/merkle.ts:47-50 | Adds the leaf at the end and returns the new size. |
| `InclusionPath.PoseidonMerkleTree.Root` | qietr-sdk/src/merkle.ts:53-55 | The root of the padded tree over the inserted leaves. |
| `InclusionPath.PoseidonMerkleTree.GetProof` | qietr-sdk/src/merkle.ts:58-63 | Fails exactly on an index outside the tree; otherwise the path and root of that leaf. |
| `InclusionPath.PoseidonMerkleTree.Walk` | qietr-sdk/src/merkle.ts:74-104 | One loop gives the root for any query and the path for a non-negative one. |
| `InclusionPath.ProofIsUnique` | qietr-indexer/api/src/poseidon-tree.ts:5-9 | The SDK's walk and the API's walk return the same proof for the same leaves. |
| `InclusionPath.ServedPathFolds` | qietr-indexer/api/src/poseidon-tree.ts:46-86 | Every served path has one sibling and one bit a level, its bits spell the leaf index, and the circuit's fold along it reaches the served root. |
| `Pool.PoolProgram.constructor` | qietr-pool/programs/qietr_pool/src/lib.rs:52-64 | A new pool is unpaused, with the given fee, no fee vault, no tiers and the embedded verifying-key hash. |
| `Pool.PoolProgram.InitializeDenominationHandler` | qietr-pool/programs/qietr_pool/src/lib.rs:67-100 | Creates tier, empty tree and empty vault exactly once, by the admin only; any failure changes nothing. |
| `Pool.PoolProgram.DepositHandler` | qietr-pool/programs/qietr_pool/src/lib.rs:103-131 | Succeeds if and only if the depositor signs and can pay the tier amount from its own account, the pool is not paused, the leaf encodes a field element and there is room for it and for the count; then exactly the tier amount moves into the vault, the leaf is appended and counted; otherwise nothing changes, the token transfer included. |
| `Pool.PoolProgram.WithdrawHandler` | qietr-pool/programs/qietr_pool/src/lib.rs:134-296 | Commits the specified withdrawal, or fails with the specified error and changes nothing, nullifier and transfers included. |
| `Pool.PayOutMeans` | qietr-pool/programs/qietr_pool/src/lib.rs:226-290 | Seen from the balances: whatever accounts coincide, a pay-out takes exactly the payment from the vault, the fee, rounded down, reaches the configured fee vault, the rest the recipient, and no other balance, owner or mint changes. |
| `Pool.PubkeyFieldDetermines` | qietr-pool/programs/qietr_pool/src/lib.rs:348-358 | Two addresses stand for the same field element if and only if their low 253 bits agree. |
| `PoolSolvency.VerifiedSpendHitsDeposit` | qietr-pool/programs/qietr_pool/src/lib.rs:150-205 | A withdrawal that passes the checks opens a leaf that some depositor paid a full tier amount for, never a change leaf or padding, with a nullifier not spent before. |
| `PoolSolvency.SpendsBelowDeposits` | qietr-pool/programs/qietr_pool/src/lib.rs:103-296 | Distinct nullifiers map to distinct deposit leaves, so there are no more spends than deposits. |
| `PoolSolvency.StepKeepsInv` | qietr-pool/programs/qietr_pool/src/lib.rs:47-335 | Every instruction of any party, and every direct use of the token program, keeps the pool invariant of all tiers. |
| `PoolSolvency.PoolIsSolvent` | qietr-pool/programs/qietr_pool/src/lib.rs:47-335 | Over every run: each nullifier is spent at most once, spends are at most deposits, and every vault holds the tier amount for each unspent deposit plus all change withheld. |
| `PoolSolvency.VerifiedWithdrawSucceeds` | qietr-pool/programs/qietr_pool/src/lib.rs:204-296 | In every reachable state a withdrawal whose checks pass succeeds if and only if the tree has room for the change leaf and the fee can be charged; it never fails for lack of vault funds. |
| `PoolSolvency.WithdrawPaysBoundRecipient` | qietr-pool/programs/qietr_pool/src/lib.rs:159-182 | The payment goes from the tier's vault to the canonical account of the owner whose masked key the proof names, less the fee to the fee vault, also when those accounts coincide; nothing else changes, and a fresh nullifier is spent. |
| `PoolSolvency.RecipientIsBound` | qietr-pool/programs/qietr_pool/src/lib.rs:159-165 | Any two owners paid for one recipient signal, in whatever states, agree in the low 253 bits of their keys. |
| `PoolSolvency.StepConservesTokens` | qietr-pool/programs/qietr_pool/src/lib.rs:255-290 | No pool instruction creates or destroys tokens of any mint. |
| `PoolSolvency.PausedPoolIsFrozen` | qietr-pool/programs/qietr_pool/src/lib.rs:108-141 | While paused no deposit and no withdrawal succeeds. |
| `PoolSolvency.VkUpgradeWaits` | qietr-pool/programs/qietr_pool/src/lib.rs:304-327 | Over every run the verifying key changes only when the admin applies a key that the admin queued at least 432,000 slots before; nobody else can change it, and the admin stays the same. |
| `PoolSolvency.Execute` | qietr-pool/programs/qietr_pool/src/lib.rs:47-335 | The handlers, called for every instruction of any run, end in the state the run theorems are about. |
| `PoolContracts.DepositsExactlyWhen` | qietr-pool/programs/qietr_pool/src/lib.rs:103-131 | In every reachable state a deposit succeeds if and only if the depositor signs, the tier exists, the pool is not paused, the account named is the depositor's, of the tier's mint and holds the tier amount, the commitment encodes a field element, the tree has room and the count fits a u64; then exactly the tier amount moves from that account to the vault, the commitment is the tree's last leaf, one more deposit is counted, and nothing else changes. |
| `PoolContracts.WithdrawsExactlyWhen` | qietr-pool/programs/qietr_pool/src/lib.rs:134-296 | In every reachable state a withdrawal succeeds if and only if the tier exists, the pool is not paused, the verifying key is the blessed one, the accounts are those the proof and the tier name, the nullifier was not spent in the tier, the amount is the tier's, the root is one of the latest, the witness satisfies the circuit, the tree has room and the fee path is open; then the payment is split as agreed, the nullifier is recorded with its slot, the change is the tree's last leaf, and nothing else changes. |
| `PoolContracts.PoolStartsExactlyWhen` | qietr-pool/programs/qietr_pool/src/lib.rs:52-64 | A pool is set up if and only if the admin signs and the fee is at most 10,000 basis points; it has the given admin, fee and key hash, and is otherwise empty and unpaused. |
| `PoolContracts.TierStartsExactlyWhen` | qietr-pool/programs/qietr_pool/src/lib.rs:67-100 | A tier is created if and only if the admin signs and neither tier, tree nor vault exists; it has the given amount and mint, no deposits, an empty tree and an empty vault, and nothing else changes. |
| `PoolContracts.AdministersExactlyWhen` | qietr-pool/programs/qietr_pool/src/lib.rs:299-335 | An admin action succeeds if and only if the admin signs and, for a fee vault, the account exists, for queueing, the slot plus 432,000 fits a u64, for applying, a key is pending and its slot reached; it sets exactly its own part of the configuration to what it was given. |
| `PoolContracts.DepositErrorIsTrue` | qietr-pool/programs/qietr_pool/src/lib.rs:103-131 | Whatever error a deposit is refused with in a reachable state, what the error says is so. |
| `PoolContracts.WithdrawErrorIsTrue` | qietr-pool/programs/qietr_pool/src/lib.rs:134-296 | The same for withdrawals. |
| `TokenLedger.TransferConserves` | qietr-pool/programs/qietr_pool/src/lib.rs:110-119 | A transfer leaves the total of every mint as it was, self-transfers included. |
| `TokenLedger.TransferMoves` | qietr-escrow/programs/qietr_escrow/src/lib.rs:111-122 | A transfer between two accounts lowers one balance and raises the other by the amount, and changes nothing else. |
| `TokenLedger.TransfersExactlyWhen` | qietr-pool/programs/qietr_pool/src/lib.rs:110-119 | A transfer succeeds if and only if both accounts exist, have one mint, and the source holds the amount; to the same account it changes nothing. |
| `TokenLedger.UsedExactlyWhen` | qietr-pool/programs/qietr_pool/src/lib.rs:407-415 | Direct use of the token program succeeds exactly with the owner's signature where one is needed, and changes only the account it is about. |
| `TokenLedger.TokenStepSparesVaults` | qietr-pool/programs/qietr_pool/src/lib.rs:407-415 | No direct use of the token program takes from, closes, re-owns or opens a program vault. |
| `EndToEnd.BuiltSpendSatisfiesCircuit` | qietr-sdk/src/prover.ts:97-133 | The witness the SDK builds from a coin, at the coin's own amount, and a path that folds to its root satisfies all circuit constraints. |
| `EndToEnd.ServedProofIsAccepted` | qietr-indexer/api/src/routes/merkle-proof.ts:116-148 | A body rebuilt on the first m leaves of a tree folds from the queried commitment to the root the chain recorded at its m-th append, and the chain knows that root while fewer than the ring length were appended since; for every hash. |
| `EndToEnd.CoinSpendsExactlyWhen` | qietr-pool/programs/qietr_pool/src/lib.rs:134-296 | In every reachable state an unspent coin with a served proof is accepted if and only if its amount is its full tier, the served root is still in the ring (or was pushed out by zero leaves only), the tree has room, and the fee path is open. |
| `EndToEnd.SpendPaysAndLeavesChange` | qietr-sdk/src/sdk.ts:336-448 | A withdrawal built from a coin and accepted takes exactly the asked payment from the vault to the asked recipient's associated account, less the fee, spends the coin's nullifier, and appends the commitment of the change coin as the tree's last leaf. |
| `EndToEnd.ChangeCoinIsKept` | qietr-sdk/src/sdk.ts:435-448 | That change coin, with the same secret, nullifier, amount and tier, is the last of the note the wallet keeps. |
| `EndToEnd.OnlyFullTierCoins` | qietr-pool/programs/qietr_pool/src/lib.rs:188-190 | In any state whatever, and with any proof, a withdrawal built from a coin of another amount than its tier is refused: change is never paid out. |
| `EndToEnd.PaymentAcceptedExactlyWhen` | qietr-sdk/src/sdk.ts:304-433 | A wallet payment is accepted if and only if the coin it picks, the first among the smallest that cover it, is worth its full tier and the window, room and fee conditions hold; another coin of the note that would do is no help. |
| `EndToEnd.ProgramFollowsRule` | qietr-sdk/src/sdk.ts:416-433 | The rule under which the wallet runs are stated is the program's own. |
| `EndToEnd.DepositToWithdraw` | qietr-indexer/api/src/routes/merkle-proof.ts:41-159 | From genesis, for any chain of transactions and any script of poller lives, crashes, restarts and interleaved requests from an empty database and cache: while the rows an answer shows are the chain's first leaves, it is a body or not found, and a body served for a coin's commitment spends that coin on the resulting pool exactly under the conditions above; every request that gets its queries is answered once; and whoever asks for a leaf of a fully indexable tier once the poller has caught up gets a body over all its leaves, with which the coin is accepted if and only if it is worth its full tier, the tree has room and the fee path is open. |
| `EndToEnd.NoFeeVaultIsRefused` | qietr-sdk/src/sdk.ts:416-431 | In any state of the pool with a fee vault, a withdrawal built without one, as the SDK builds it, is refused. |
| `EndToEnd.RowsAcceptedExactlyWhen` | qietr-indexer/poller/src/db.ts:176-182 | A root over any rows without repetitions, no more than there are leaves, is known to the chain if and only if the rows are the chain's first m leaves, or those and one zero leaf, for an m whose root is still in the ring. |
| `EndToEnd.NothingServedAfterRepeat` | qietr-indexer/poller/src/db.ts:176-182 | Once a leaf value has repeated, no root the API can rebuild for that tier from more rows is accepted, save one that ends in a zero leaf at that place. |
| `EndToEnd.NothingServedAfterUnseen` | qietr-indexer/poller/src/rpc.ts:98-133 | The same once a leaf was appended only through other programs, or only in transactions the node could not return. |
| `EndToEnd.ThirtyRootWindow` | qietr-pool/programs/qietr_pool/src/state.rs:9-10 | For depth 20, 30 roots and any chain of transactions: a full-tier coin spent with a served proof, fewer than 30 appends later, with room in the tree and no fee vault, is accepted. |
| `ChainTxs.HistoryHasTreeLeaves` | qietr-pool/programs/qietr_pool/src/lib.rs:103-296 | Over every history of all-or-nothing transactions from a new pool, the leaves the transactions show, deposits and withdraw change interleaved, are the leaves of the pool's trees. |
| `ChainTxs.AllSeenExactlyWhen` | qietr-indexer/poller/src/rpc.ts:98-133 | Over every history the poller gets to see all leaves of a tier if and only if every call that appended one was a top-level instruction of a transaction whose body the node can return. |
| `ChainTxs.ShownRootIsTrue` | qietr-indexer/poller/src/decode.ts:96-102 | The root under the cursor of a tree account read at any point of the history is the root of the chain's first leaves, as many as the account counts. |
| `Pagination.PageSlice` | qietr-indexer/poller/src/rpc.ts:84-89 | Whatever arrived since the first page, the next page is the newest slice below the current position and above the checkpoint. |
| `Pagination.GetNewSignatures` | qietr-indexer/poller/src/rpc.ts:70-96 | For every history length and page size, exact multiples included, and any arrivals between pages: terminates and returns exactly the signatures newer than the checkpoint that existed at the first page, oldest first, each once. |
| `Poller.Db.CommitmentExists` | qietr-indexer/poller/src/db.ts:183-189 | Finds a value if and only if some row of the denomination has it. |
| `Poller.Db.MaxLeafIndex` | qietr-indexer/poller/src/db.ts:167-174 | The largest stored index of the denomination, or -1 when it has none. |
| `Poller.Db.InsertCommitment` | qietr-indexer/poller/src/db.ts:100-112 | Inserts the row, or does nothing when its index is taken. |
| `Poller.Db.Checkpoint` | qietr-indexer/poller/src/db.ts:127-141 | Records the signature; the slot never goes back. |
| `Poller.SyncAccountState` | qietr-indexer/poller/src/index.ts:69-85 | Stores the root of each tree account under its leaf count: afterwards each leaf count among the first rows, as many as the process lived to store, has the root its last row carries, and every other is as it was. |
| `Poller.UpsertedStores` | qietr-indexer/poller/src/db.ts:84-98 | After any list of rows, each leaf count they name has the root of the last row that names it, and every other leaf count is as it was. |
| `Poller.AppendLeaf` | qietr-indexer/poller/src/index.ts:116-151 | Extends a gap-free table by one event: a new value takes the next index, a value already there takes none. |
| `Poller.ReplayAbsorbed` | qietr-indexer/poller/src/index.ts:134-137 | Replaying an event that was already taken in leaves table and counters as they were. |
| `Poller.IngestTransaction` | qietr-indexer/poller/src/index.ts:153-165 | Killed after a number of leaves, the table holds exactly the events handled by then; it is killed only when that number is too small, and otherwise holds all the transaction's leaves. |
| `Poller.ReplayTransaction` | qietr-indexer/poller/src/index.ts:153-176 | One transaction is stored and then checkpointed; the crash happens exactly when the process dies before the checkpoint, and leaves the checkpoint where it was and a prefix that covers it. |
| `Poller.SyncCommitments` | qietr-indexer/poller/src/index.ts:101-179 | One batch, killed before any leaf or checkpoint or not: the table is a prefix of the chain's events that covers the checkpoint; it stops exactly at the last checkpoint its lifetime in steps pays for, with the rest spent on the next transaction's leaves; a batch that completes has everything visible at its start. |
| `Poller.LongLifeAdvances` | qietr-indexer/poller/src/index.ts:163-176 | A life long enough for any one transaction moves the checkpoint forward, or had nothing left to do. |
| `Poller.RunPoller` | qietr-indexer/poller/src/index.ts:223-232 | Over any schedule of lives, crashes and arrivals: the table is a gap-free prefix of the observed events; it is all of them after a completed batch that saw the whole chain, and also when every batch crashes, once as many lives as the chain has transactions were each long enough for the account rows and one transaction. |
| `Poller.TableIsChainExactlyWhen` | qietr-indexer/poller/src/db.ts:176-182 | A caught-up table is the chain's own leaf sequence if and only if no leaf value repeats in the tier and every append was made by a top-level instruction of a transaction the node could return. |
| `Poller.RepeatedLeafIsLost` | qietr-indexer/poller/src/db.ts:176-182 | Two deposits of one value: two leaves on chain, one row. |
| `Poller.UnseenLeafIsLost` | qietr-indexer/poller/src/rpc.ts:98-133 | A deposit made through another program and one made directly: two leaves on chain, one row, the second's. |
| `ProofRoute.Route.Rebuild` | qietr-indexer/api/src/routes/merkle-proof.ts:104-139 | Reports a gap exactly when the indices have one; otherwise serves the path of the target if and only if no root is stored for that size or it is the rebuilt one. |
| `ProofRoute.Route.Finish` | qietr-indexer/api/src/routes/merkle-proof.ts:104-157 | Caches a served body under the number of leaves it was built from, and nothing otherwise. |
| `ProofService.TableIsChainPrefix` | qietr-indexer/poller/src/index.ts:130-176 | However far the poller has come, its rows of a fully indexable tier are a prefix of the chain's leaves. |
| `ProofService.SelectedRowsAreIndexed` | qietr-indexer/api/src/routes/merkle-proof.ts:96-114 | The ordered rows of a gap-free table pass the contiguity check and are the indexed leaves. |
| `ProofService.Begin` | qietr-indexer/api/src/routes/merkle-proof.ts:65-80 | The count is the number of rows in the table at the lookup. The request is answered at once if and only if the cache holds an unexpired body for its key that was built from as many rows, and the answer is then what a full rebuild on the current table gives. |
| `ProofService.RunService` | qietr-indexer/api/src/routes/merkle-proof.ts:41-159 | From an empty database and an empty cache, for every interleaving of poller lives with the separate queries of any number of requests: a request that gets its queries is answered, and none twice; its count is the number of rows the lives so far had indexed on arrival; a hit is the full rebuild on the table at arrival and is given if and only if the last body rebuilt for the key has as many leaves and is under ten seconds old; a miss is the full rebuild on the table as it was when the request read it, and no stored root contradicts it; not found means not in the table when it looked; a mismatch means another root is stored for that many rows; nothing else is answered. |
| `ProofService.RootIsStoredWhen` | qietr-indexer/poller/src/index.ts:69-85 | Over every script a root is stored for a leaf count if and only if some life was shown one and lived to store it. |
| `ProofService.RootIsTheLastShown` | qietr-indexer/poller/src/index.ts:69-85 | And it is the root that the last such life stored last. |
| `ProofService.ServableIsRight` | qietr-indexer/api/src/routes/merkle-proof.ts:25-31 | Coherence of the cache: after any right answers, the body it may serve for a key is what a full rebuild on the current table would give. |
| `ProofService.ServableIsRecent` | qietr-indexer/api/src/routes/merkle-proof.ts:25-36 | What the cache may serve was rebuilt and sent for the same key less than ten seconds before, over as many rows as the table has now. |
| `ProofService.AnswersAreTheChains` | qietr-indexer/api/src/routes/merkle-proof.ts:116-139 | As far as the shown history is fully indexable, the table an answer shows is a prefix of the chain's leaves, and the answer is a body or not found: no false alarm, no error. |
| `ProofService.CaughtUpIsServed` | qietr-indexer/api/src/routes/merkle-proof.ts:82-148 | A request for any leaf of a fully indexable tier, made once the poller has caught up, is answered by a body over all leaves of the tier. |
| `ProofService.CaughtUpWhen` | qietr-indexer/poller/src/index.ts:223-232 | The poller has caught up after a life that saw the whole chain and had steps enough for what was left of it, and also, when every life is cut short, after as many lives as the chain has transactions, each long enough for any one of them, whatever lies between. |
| `ProofRoute.RebuiltIsUnique` | qietr-indexer/api/src/routes/merkle-proof.ts:31-36 | With distinct leaves there is only one body a rebuild can give, so hit and rebuild are equal. |
| `IxCodec.PollerReadsTheAppendedLeaf` | qietr-indexer/poller/src/decode.ts:135-176 | On every byte string the poller's parsers read exactly the leaf the program would append, or none when it appends none. |
| `IxCodec.BuildDepositIx` | qietr-sdk/src/program.ts:189-221 | Refuses a commitment that is not 32 bytes; otherwise the program reads back the same arguments. |
| `IxCodec.BuildWithdrawIx` | qietr-sdk/src/program.ts:251-317 | Refuses wrong lengths; otherwise the program reads back the same nullifier hash, proof and six signals. |
| `EscrowRuns.CreatesExactlyWhen` | qietr-escrow/programs/qietr_escrow/src/lib.rs:41-74 | In every reachable state a job is created if and only if its client signs, never used the nonce before, and owns an account of the mint holding the positive price; the new vault then holds exactly the price, taken from that account, and the job has the given agent and price, the clock as its creation time and no other stamp. |
| `EscrowRuns.AcceptedJobIsHeld` | qietr-escrow/programs/qietr_escrow/src/lib.rs:76-83 | In a run that begins with a successful acceptance, for seven days from its clock and whatever anyone but the agent sends, the job stays accepted and its vault funded; and a client's cancellation succeeds if and only if seven days have passed since that clock. |
| `Escrow.JobIsStamped` | qietr-escrow/programs/qietr_escrow/src/lib.rs:76-211 | Every successful instruction leaves its job in the state it stands for; acceptance, completion and resolution stamp it with the clock, and no other stamp changes. |
| `EscrowRuns.StampsStay` | qietr-escrow/programs/qietr_escrow/src/lib.rs:76-92 | Over every run an accepted job keeps the clock of its acceptance and a completed one the clock of its completion. |
| `Escrow.ErrorIsTrue` | qietr-escrow/programs/qietr_escrow/src/lib.rs:41-222 | Whatever error an instruction is refused with in a sound state, what the error says is so; a payout never fails for lack of funds. |
| `EscrowRuns.CompletedWaitsForClient` | qietr-escrow/programs/qietr_escrow/src/lib.rs:85-92 | Once completed, over every run without an instruction of its client, the job stays completed and funded and the agent unpaid. |
| `Escrow.EscrowProgram.ReleaseHandler` | qietr-escrow/programs/qietr_escrow/src/lib.rs:94-126 | Keeps every vault funded; succeeds if and only if the job is completed, its client signs, and the account is the agent's; then the vault is down and the agent's account up by exactly the price, and no other account or job has changed. |
| `EscrowRuns.DisputedNeverReleases` | qietr-escrow/programs/qietr_escrow/src/lib.rs:128-134 | Once disputed, no run releases the price to the agent: the job stays disputed, or its client was paid the price, once. |
| `Escrow.EscrowProgram.CancelHandler` | qietr-escrow/programs/qietr_escrow/src/lib.rs:136-174 | Succeeds if and only if the client signs before acceptance or seven days after it and names an account of its own; then exactly the price goes from the vault to that account and nothing else changes. |
| `Escrow.EscrowProgram.ResolveHandler` | qietr-escrow/programs/qietr_escrow/src/lib.rs:176-211 | For any caller: succeeds if and only if the job is disputed, seven days have passed since completion and the account is the client's; then exactly the price goes from the vault to that account and nothing else changes. |
| `EscrowRuns.DisputeThenResolve` | qietr-escrow/programs/qietr_escrow/src/lib.rs:128-211 | From seven days after the clock of its completion, a job still completed can be disputed by the client and resolved in the next instruction, which pays the client the price. |
| `EscrowRuns.ClosedIsFinal` | qietr-escrow/programs/qietr_escrow/src/lib.rs:213-222 | After closing, in every run, no instruction on the job succeeds and nothing more leaves its vault. |
| `EscrowRuns.Execute` | qietr-escrow/programs/qietr_escrow/src/lib.rs:41-222 | The handlers, called for every instruction of any run, keep all vaults funded and end in the state the run theorems are about. |
| `EscrowRuns.StepKeepsInv` | qietr-escrow/programs/qietr_escrow/src/lib.rs:41-222 | Every instruction by anyone on any job, and every direct use of the token program, keeps the invariant of all jobs. |
| `EscrowRuns.PaysOutOnce` | qietr-escrow/programs/qietr_escrow/src/lib.rs:94-211 | Measured on the token accounts: while a job is live no token has ever left its vault, which holds at least the price; once it is final or closed, tokens left the vault at exactly one step, the price, all into one account, of its agent if a release succeeded on it and else of its client. |
| `EscrowRuns.RunConserves` | qietr-escrow/programs/qietr_escrow/src/lib.rs:41-222 | The total of every mint is constant over every run without minting; burning is not part of the model. |
| `EscrowRuns.StepRaisesRank` | qietr-escrow/programs/qietr_escrow/src/lib.rs:11-19 | Every successful instruction takes its job a rank further and leaves the rank of every other job alone. |
| `EscrowRuns.RunRaisesRank` | qietr-escrow/programs/qietr_escrow/src/lib.rs:11-19 | Over every run a job's rank is at least the number of instructions that succeeded on it. |
| `EscrowRuns.JobIsBounded` | qietr-escrow/programs/qietr_escrow/src/lib.rs:11-19 | At most six instructions ever succeed on a job. |
| `EscrowRuns.NonceIsUsedOnce` | qietr-escrow/programs/qietr_escrow/src/lib.rs:255-272 | Once created, a client and nonce never host a second job in any continuation, closed or not, and the terms never change. |
| `EscrowRuns.WhoMayMove` | qietr-escrow/programs/qietr_escrow/src/lib.rs:76-222 | In every reachable state an instruction on a job succeeds if and only if its sender signs and may move the job from its state at that time, and, if it pays, names an account of the recipient: never is a vault short. |
| `EscrowRuns.TimedOutDisputeRefunds` | qietr-escrow/programs/qietr_escrow/src/lib.rs:176-211 | After a completion and any run, a disputed job resolves if and only if seven days have passed since the clock of that completion; the client's account is then up by exactly the price and the job stamped with the clock. |
| `EscrowRuns.ReleaseAlwaysPays` | qietr-escrow/programs/qietr_escrow/src/lib.rs:94-126 | A release succeeds if and only if the job is completed and its client signs, and the agent's account is then up by exactly the price. |
| `SlidingWindow.DropExpired` | qietr-relayer/src/policy/rate-limit.ts:53-54 | Drops exactly the leading times at or before the cutoff. |
| `RateLimit.RateLimiter.Check` | qietr-relayer/src/policy/rate-limit.ts:42-74 | Updates only this key's bucket, to the trimmed hits plus the admission, and returns the specified decision; a limit below one gives no retry time. |
| `RateLimit.WindowBound` | qietr-relayer/src/policy/rate-limit.ts:34-74 | Over every run with a monotone clock any span shorter than the window has at most limit admissions, and the bucket is a sorted tail of them of at most limit. |
| `RateLimit.AdmitsExactlyWhen` | qietr-relayer/src/policy/rate-limit.ts:42-74 | After every run with a monotone clock, and for every window and limit, a check is admitted if and only if fewer than limit admissions are less than a window old, and is told how many more there is room for. |
| `RateLimit.RetryAfterIsHonoured` | qietr-relayer/src/policy/rate-limit.ts:56-66 | A rejected caller is told to wait at least a second; with no other traffic on the key a check after the wait is admitted, and one earlier than the rounding allows is rejected. |
| `RateLimit.KeysAreIndependent` | qietr-relayer/src/policy/rate-limit.ts:40-51 | Whatever windows and limits other callers pass, each key's bucket and its admissions are what its own checks alone would give. |
| `RateLimit.OwnChecksRun` | qietr-relayer/src/policy/rate-limit.ts:40-51 | With one window and limit for the key, its bucket and its admissions in the run of everybody's checks are those of the run the bounds are stated for. |
| `RateLimit.KeyIsBounded` | qietr-relayer/src/policy/rate-limit.ts:34-74 | In every run of many callers' checks with a monotone clock and fixed terms for a key, any span shorter than the window has at most limit admissions on the key. |
| `RateLimit.KeyAdmitsExactlyWhen` | qietr-relayer/src/policy/rate-limit.ts:42-74 | The same for a key in a run of many callers: only the key's own admissions count. |
| `RateLimit.Serve` | qietr-relayer/src/policy/rate-limit.ts:38-74 | The limiter's own method, called for any run of checks by many callers, leaves the table of the run and decides each check as the run says. |
| `RateLimit.KeysAreNeverDropped` | qietr-relayer/src/policy/rate-limit.ts:34-39 | Over every run the keys in the table are exactly the keys ever checked: none ages out. |
| `RateLimit.ExpiredHitStays` | qietr-relayer/src/policy/rate-limit.ts:34-39 | A key checked once still has its hit in the table after a later check of another key, however long the hit has expired. |
| `SpendGuard.Serve` | qietr-relayer/src/routes/submit.ts:131-142 | The guard's own methods, called for any interleaving of requests that test, wait for the balance, send, and commit or give up, leave the guard and the list of sends exactly where the run says. |
| `SpendGuard.ConcurrentCap` | qietr-relayer/src/routes/submit.ts:131-142 | With a monotone clock and at most c requests between test and commit, any span shorter than the window has at most cap + c - 1 sends: exactly the cap for serial requests. |
| `SpendGuard.ConcurrentCapIsReached` | qietr-relayer/src/routes/submit.ts:131-142 | For every window, cap and c there is a run that reaches cap + c - 1 sends in one instant. |
| `SpendGuard.FloorIsHeld` | qietr-relayer/src/policy/spend-guard.ts:50-79 | Over every run each committed send passed a check whose balance was at or above the floor, as reported to a question its own check asked or one asked less than the cache time before it. |
| `SpendGuard.ChecksExactlyWhen` | qietr-relayer/src/policy/spend-guard.ts:50-75 | After every run with a monotone clock a check is refused for the cap if and only if that many sends are less than a window old; otherwise it is decided by the last balance answered if and only if that was asked for less than the cache time ago, and allowed if and only if that balance is at the floor or above. |
| `ReplayGuard.Guard.SweepExpired` | qietr-relayer/src/policy/replay-guard.ts:30-34 | Deleting during the iteration leaves exactly the entries whose time to live has not passed, with their times. |
| `ReplayGuard.Guard.AdmitTransaction` | qietr-relayer/src/policy/replay-guard.ts:37-49 | Sweeps when due, then admits and records or refuses, as specified. |
| `ReplayGuard.Serve` | qietr-relayer/src/policy/replay-guard.ts:26-49 | The guard's own method, called for every call of any run, leaves the table of the run and admits the calls the run admits. |
| `ReplayGuard.SweepIsInvisible` | qietr-relayer/src/policy/replay-guard.ts:26-49 | Over every run with a monotone clock a call is admitted if and only if the transaction was not admitted within the time to live; a guard that never sweeps decides the same; none is admitted twice in that time; the table exceeds the number of admissions that were still within their time to live at the last sweep by at most 64. |
| `X402.SelectRequirement` | qietr-sdk/src/x402.ts:196-217 | The first requirement that matches scheme and network, or the reason there is none. |
| `X402.MatchesExactlyWhen` | qietr-sdk/src/x402.ts:203-208 | A requirement matches if and only if its scheme is one of the two supported and its network, normalized, is the configured one. |
| `X402.GuardExactly` | qietr-sdk/src/x402.ts:218-266 | A matching requirement passes if and only if it names the configured asset or none, asks a positive integer price, in maxAmountRequired or else in amount, within the cap, of an allowed recipient, and was not settled in this call; the payment is then for its recipient, price and resource. Each refusal is given exactly when its condition holds. |
| `X402.KeysTellApart` | qietr-sdk/src/x402.ts:259-261 | With recipients that have no colon, settled payments are taken for the same exactly when recipient, amount and resource are the same. |
| `X402.Prepare` | qietr-sdk/src/x402.ts:193-276 | Whatever is prepared for payment is what the first matching requirement asks for, is within the caller's limits and was not settled in this call; nothing is prepared only for a stated reason that holds. |
| `X402.PayLoop` | qietr-sdk/src/x402.ts:185-338 | Through any answers: payment i answers the server's i-th answer, a 402 whose first matching requirement asks for exactly its recipient, price and resource; payments went through in turn, stay distinct and within limits, and the note is what they leave; how the loop ends is determined, with the server's last answer or the reason why nothing more was paid. |
| `X402.WrappedFetch` | qietr-sdk/src/x402.ts:163-339 | Against any server: terminates with at most maxRetries payments, each for exactly what the 402 it answers asks, no two alike, each positive, within the cap and allowlisted, so total spend is at most maxRetries times the cap; the note loses exactly what was sent, and nothing when the call fails before the first payment; the call ends with the server's last answer exactly when that is no 402 or the attempts are used up. |
| `NoteWallet.PickCoin` | qietr-sdk/src/sdk.ts:317-326 | Sorting by amount and taking the first coin that covers finds the first in note order among the smallest coins that cover; none exactly when no coin does. |
| `NoteWallet.PickIsFirst` | qietr-sdk/src/sdk.ts:317-326 | The coin picked covers the payment, coins before it that cover are larger, and coins after it no smaller. |
| `NoteWallet.Wallet.Deposit` | qietr-sdk/src/sdk.ts:266-284 | Appends exactly the deposited coin after a sent transaction, and changes nothing otherwise. |
| `NoteWallet.Wallet.PayMicroExact` | qietr-sdk/src/sdk.ts:304-458 | Succeeds if and only if the amount is positive and the picked coin exists and goes through; the note is then that coin replaced by its change, and otherwise unchanged. |
| `NoteWallet.PayKeepsNote` | qietr-sdk/src/sdk.ts:435-455 | With distinct pairs a payment removes just the picked coin, keeps the others in order, adds its change, of the same tier, at the end, keeps pairs distinct and lowers the total by exactly the payment. |
| `NoteWallet.PayLowersTotalExactlyWhen` | qietr-sdk/src/sdk.ts:438-440 | For every note: the total falls by exactly the payment if and only if the coins dropped with the spent one are together worth no more than it. |
| `NoteWallet.SharedPairLosesValue` | qietr-sdk/src/sdk.ts:438-440 | Two coins sharing a pair: paying 5 from one also drops the other, worth 7. |
| `NoteWallet.RunConservesTotal` | qietr-sdk/src/sdk.ts:273-279 | Over every run of deposits and tried payments with fresh randomness, under the program's rule that only full-tier coins go through, pairs stay distinct and the total is the deposits minus the payments that went through. |
| `NoteWallet.ChangeIsNeverSpent` | qietr-sdk/src/sdk.ts:435-448 | Under that rule a change coin, once in the note, is in it after every further run. |
| `NoteWallet.ChangeBlocksPayments` | qietr-sdk/src/sdk.ts:317-326 | While a change coin covers a payment and no tier amount lies between the two, the payment is refused after every run, however many full-tier coins are deposited. |
| `NoteWallet.PaidOnceBlocksTheRest` | qietr-sdk/src/sdk.ts:435-448 | With one tier of 10: after paying 3, no payment up to 7 ever goes through again. |
| `NoteWallet.SmallerChangeIsPicked` | qietr-sdk/src/sdk.ts:317-326 | Of a 7 left over and a fresh 10, a payment of 5 picks the 7 and is refused, though it would go through with the 10 alone. |
| `Codec.FieldDecToBE32` | qietr-sdk/src/randomness.ts:19-28 | Printing in hex, trimming, padding and parsing pairs gives the low 256 bits as big-endian bytes. |
| `Codec.BeToBigInt` | qietr-indexer/api/src/poseidon-tree.ts:89-93 | The loop computes the big-endian value of any byte string. |
| `Codec.Be32ToFieldDec` | qietr-sdk/src/randomness.ts:31-36 | Refuses any length but 32; otherwise the big-endian value. |
| `Codec.FieldCodecRoundTrips` | qietr-sdk/src/randomness.ts:19-36 | Decoding an encoding gives the number modulo 2^256, and encoding a decoding gives the bytes back. |
| `Codec.PrintThenParse` | qietr-indexer/api/src/poseidon-tree.ts:96-129 | The printer accepts exactly the numbers below 2^256; parsing its output gives back every field element and refuses everything from the prime up. |
| `Codec.PubkeyToField` | qietr-sdk/src/pubkey.ts:35-50 | The masked fresh copy and the number read from it are those of the program's mask. |
| `Codec.MaskedPubkeyIsFieldElement` | qietr-pool/programs/qietr_pool/src/lib.rs:348-358 | A masked key is the key modulo 2^253, below the field prime, and the SDK's number for it encodes to the very bytes the program compares. |
| `Codec.PaymentFromField` | qietr-pool/programs/qietr_pool/src/lib.rs:214-224 | Accepts exactly the values below 2^64 and reads them unchanged. |
| `Codec.AmountRoundTrip` | qietr-pool/programs/qietr_pool/src/lib.rs:341-346 | A tier amount's field bytes are its 32-byte encoding and read back as the amount. |

## Left out

- Groth16, pairings, the Poseidon permutation, keccak and sha256: foreign cryptography, ideal here.
- Account rent, program-derived address bumps, compute budgets, the Anchor account discriminators and frozen token accounts: not modelled.
- The token program has transfers, minting and account handling, but no burning and no delegates.
- Token balances are unbounded naturals; a mint's supply fits 64 bits, so no transfer between existing accounts overflows.
- The geyser plugin: it sees only deposits and depends on the validator's callback order; the poller is the ingest path.
- The tables for denominations and nullifiers and their foreign keys: plain upserts beside the leaves and roots that are modelled.
- Poller.RunPoller: a transaction the node could not return counts as never returned; one that is returned by a later attempt only is not modelled, nor are two pollers on one database.
- ProofService.RunService: parsing of the denomination parameter, SQL and JSON are left out; a query reads the table in one step.
- RateLimit.RateLimiter.Check: windows are whole seconds.
- NoteWallet.Wallet.PayMicroExact: amounts are exact naturals, where the source converts through a double above 2^53; two payments running at once on one SDK object are not modelled, and the indexer, prover and chain steps are one outcome per coin, which `EndToEnd.PaymentAcceptedExactlyWhen` determines.
- X402.WrappedFetch: request headers, the settlement envelope, timeouts and the error observer are left out; integer parsing, network names and public-key syntax are arbitrary functions.
- Codec.PrintThenParse: the surrounding blanks that the parser trims are taken to be gone already.
- InclusionPath.BuildInclusionPath: index arithmetic is exact, where the source's bit operations are those of 32-bit integers, which differ only beyond 2^31 leaves.
- The attestor, Kora and HTTP clients, configuration, authentication, sanctions lists, messaging, the web application: input and output, or simple stores.
