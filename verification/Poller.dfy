/**
 The poller: in every life it stores the roots of the tree accounts, then replays the program's
 transactions, oldest first, into a table of leaves, checkpointing after every transaction.  A
 crash may stop it at any point; on restart it resumes from the checkpoint and skips leaf values
 it has already stored.
 */
module Poller {
  import opened Wrappers
  import opened Pagination

  datatype Leaf<T> = Leaf(denomId: nat, value: T)

  /** A leaf appended on chain; only top-level instructions are seen by the poller. */
  datatype Append<T> = Append(leaf: Leaf<T>, topLevel: bool)

  /**
   A transaction of the program: whether it failed, whether the node can return its body, and
   the leaves its deposits and withdrawals append when it succeeds, in execution order.
   */
  datatype Tx<T> = Tx(signature: nat, slot: nat, failed: bool, retrievable: bool, appends: seq<Append<T>>)

  function Max(a: int, b: int): int { if a < b then b else a }

  function Min(a: int, b: int): int { if a < b then a else b }

  // ---------------------------------------------------------------------------
  // The chain's leaves and what the poller sees of them
  // ---------------------------------------------------------------------------

  function Observed<T>(appends: seq<Append<T>>): seq<Leaf<T>> {
    if appends == [] then []
    else
      var a := appends[|appends| - 1];
      Observed(appends[..|appends| - 1]) + if a.topLevel then [a.leaf] else []
  }

  /** The leaves `getPoolIxs` and the two parsers yield for one transaction. */
  function LeavesOf<T>(tx: Tx<T>): seq<Leaf<T>> {
    if tx.failed || !tx.retrievable then [] else Observed(tx.appends)
  }

  function Events<T>(txs: seq<Tx<T>>): seq<Leaf<T>> {
    if txs == [] then [] else Events(txs[..|txs| - 1]) + LeavesOf(txs[|txs| - 1])
  }

  function Signatures<T>(txs: seq<Tx<T>>): seq<nat> {
    seq(|txs|, i requires 0 <= i < |txs| => txs[i].signature)
  }

  /** The leaf table of one denomination after these events: each value once, in order of first arrival. */
  function Indexed<T(==)>(events: seq<Leaf<T>>, d: nat): seq<T> {
    if events == [] then []
    else
      var before, e := Indexed(events[..|events| - 1], d), events[|events| - 1];
      if e.denomId == d && e.value !in before then before + [e.value] else before
  }

  type Table<T> = map<(nat, nat), T>

  /** The stored rows are exactly these events, numbered from 0 without gaps. */
  ghost predicate Holds<T>(table: Table<T>, events: seq<Leaf<T>>) {
    && (forall d: nat, i: nat {:trigger (d, i) in table} :: (d, i) in table <==> i < |Indexed(events, d)|)
    && (forall d: nat, i: nat {:trigger table[(d, i)]} :: (d, i) in table ==> table[(d, i)] == Indexed(events, d)[i])
  }

  lemma IndexedAppend<T>(events: seq<Leaf<T>>, e: Leaf<T>, d: nat)
    ensures Indexed(events + [e], d) ==
              var before := Indexed(events, d);
              if e.denomId == d && e.value !in before then before + [e.value] else before
  {
    assert (events + [e])[..|events|] == events;
  }

  lemma {:induction false} IndexedContains<T>(events: seq<Leaf<T>>, i: nat)
    requires i < |events|
    ensures events[i].value in Indexed(events, events[i].denomId)
  {
    if i < |events| - 1 {
      assert events[..|events| - 1][i] == events[i];
      IndexedContains(events[..|events| - 1], i);
    }
  }

  /** Replaying an event already taken in changes nothing. */
  lemma ReplayAbsorbed<T>(table: Table<T>, counters: map<nat, nat>, events: seq<Leaf<T>>, i: nat)
    requires i < |events|
    requires Holds(table, events + [events[i]]) && CountersOk(counters, events + [events[i]])
    ensures Holds(table, events) && CountersOk(counters, events)
  {
    IndexedContains(events, i);
    forall d: nat ensures Indexed(events + [events[i]], d) == Indexed(events, d) {
      IndexedAppend(events, events[i], d);
    }
  }

  lemma {:induction false} EventsSplit<T>(txs: seq<Tx<T>>, k: nat)
    requires k < |txs|
    ensures Events(txs[..k + 1]) == Events(txs[..k]) + LeavesOf(txs[k])
  {
    assert txs[..k + 1][..k] == txs[..k];
  }

  lemma {:induction false} EventsPrefix<T>(txs: seq<Tx<T>>, k: nat)
    requires k <= |txs|
    ensures |Events(txs[..k])| <= |Events(txs)|
    ensures Events(txs)[..|Events(txs[..k])|] == Events(txs[..k])
    decreases |txs|
  {
    if k == |txs| {
      assert txs[..k] == txs;
    } else {
      var init := txs[..|txs| - 1];
      EventsPrefix(init, k);
      assert init[..k] == txs[..k];
    }
  }

  // ---------------------------------------------------------------------------
  // The database
  // ---------------------------------------------------------------------------

  class Db<T(==)> {
    var commitments: Table<T>
    var roots: Table<T>
    var lastSlot: nat
    var lastSignature: Option<nat>

    constructor ()
      ensures commitments == map[] && roots == map[] && lastSignature == None
    {
      commitments, roots, lastSlot, lastSignature := map[], map[], 0, None;
    }

    method CommitmentExists(denomId: nat, value: T) returns (found: bool)
      ensures found <==> exists i: nat :: (denomId, i) in commitments && commitments[(denomId, i)] == value
    {
      found := exists k: (nat, nat) :: k in commitments && k.0 == denomId && commitments[k] == value;
      if found {
        var k: (nat, nat) :| k in commitments && k.0 == denomId && commitments[k] == value;
        assert (denomId, k.1) in commitments && commitments[(denomId, k.1)] == value;
      }
    }

    /** The largest stored index of a denomination, or -1. */
    method MaxLeafIndex(denomId: nat) returns (max: int)
      ensures max >= -1
      ensures max >= 0 ==> (denomId, max) in commitments
      ensures forall i: nat :: (denomId, i) in commitments ==> i <= max
    {
      max := -1;
      var rows := commitments.Keys;
      while rows != {}
        invariant rows <= commitments.Keys && max >= -1
        invariant max >= 0 ==> (denomId, max) in commitments
        invariant forall i: nat :: (denomId, i) in commitments && (denomId, i) !in rows ==> i <= max
        decreases |rows|
      {
        var row: (nat, nat) :| row in rows;
        if row.0 == denomId && row.1 > max {
          max := row.1;
        }
        rows := rows - {row};
      }
    }

    /** Inserts a row unless its index is taken. */
    method InsertCommitment(denomId: nat, leafIndex: nat, value: T)
      modifies this`commitments
      ensures commitments == if (denomId, leafIndex) in old(commitments) then old(commitments)
                             else old(commitments)[(denomId, leafIndex) := value]
    {
      if (denomId, leafIndex) !in commitments {
        commitments := commitments[(denomId, leafIndex) := value];
      }
    }

    /** Inserts or overwrites the root of a leaf count. */
    method UpsertRoot(denomId: nat, leafCount: nat, root: T)
      modifies this`roots
      ensures roots == old(roots)[(denomId, leafCount) := root]
    {
      roots := roots[(denomId, leafCount) := root];
    }

    method Checkpoint(slot: nat, signature: nat)
      modifies this`lastSlot, this`lastSignature
      ensures lastSignature == Some(signature)
      ensures lastSlot == if slot > old(lastSlot) then slot else old(lastSlot)
    {
      lastSlot := if slot > lastSlot then slot else lastSlot;
      lastSignature := Some(signature);
    }
  }

  // ---------------------------------------------------------------------------
  // Account state
  // ---------------------------------------------------------------------------

  /** What the poller decodes from a tree account: its leaf count and the root under its cursor. */
  datatype TreeRow<T> = TreeRow(denomId: nat, leafCount: nat, latestRoot: T)

  function Upserted<T>(roots: Table<T>, rows: seq<TreeRow<T>>): Table<T> {
    if rows == [] then roots
    else
      var last := rows[|rows| - 1];
      Upserted(roots, rows[..|rows| - 1])[(last.denomId, last.leafCount) := last.latestRoot]
  }

  function RowKey<T>(row: TreeRow<T>): (nat, nat) {
    (row.denomId, row.leafCount)
  }

  /** Row i is the last one for its denomination and leaf count. */
  ghost predicate IsLastRow<T>(rows: seq<TreeRow<T>>, i: nat) {
    i < |rows| && forall j {:trigger rows[j]} :: i < j < |rows| ==> RowKey(rows[j]) != RowKey(rows[i])
  }

  ghost predicate Mentions<T>(rows: seq<TreeRow<T>>, k: (nat, nat)) {
    exists i {:trigger rows[i]} :: 0 <= i < |rows| && RowKey(rows[i]) == k
  }

  /** Each leaf count the rows name now has the root its last row carries; every other is as it was. */
  ghost predicate RootsStored<T>(before: Table<T>, after: Table<T>, rows: seq<TreeRow<T>>) {
    && (forall i: nat {:trigger IsLastRow(rows, i)} :: IsLastRow(rows, i) ==>
          RowKey(rows[i]) in after && after[RowKey(rows[i])] == rows[i].latestRoot)
    && (forall k {:trigger Mentions(rows, k)} {:trigger k in after} :: !Mentions(rows, k) ==>
          (k in after <==> k in before) && (k in before ==> after[k] == before[k]))
  }

  lemma {:induction false} UpsertedStores<T>(roots: Table<T>, rows: seq<TreeRow<T>>)
    ensures RootsStored(roots, Upserted(roots, rows), rows)
  {
    if rows != [] {
      var init, last := rows[..|rows| - 1], rows[|rows| - 1];
      UpsertedStores(roots, init);
      hide Upserted;
      StoresOneMore(roots, Upserted(roots, init), init, last);
      assert init + [last] == rows;
    }
  }

  lemma StoresOneMore<T>(before: Table<T>, stored: Table<T>, rows: seq<TreeRow<T>>, last: TreeRow<T>)
    requires RootsStored(before, stored, rows)
    ensures RootsStored(before, stored[RowKey(last) := last.latestRoot], rows + [last])
  {
    var more, after := rows + [last], stored[RowKey(last) := last.latestRoot];
    assert more[|rows|] == last;
    forall i: nat | IsLastRow(more, i)
      ensures RowKey(more[i]) in after && after[RowKey(more[i])] == more[i].latestRoot
    {
      if i < |rows| {
        assert forall j {:trigger rows[j]} :: 0 <= j < |rows| ==> more[j] == rows[j];
        assert IsLastRow(rows, i);
      }
    }
    forall k | !Mentions(more, k)
      ensures (k in after <==> k in before) && (k in before ==> after[k] == before[k])
    {
      MentionsMore(rows, last, k);
    }
  }

  lemma MentionsMore<T>(rows: seq<TreeRow<T>>, last: TreeRow<T>, k: (nat, nat))
    ensures Mentions(rows + [last], k) <==> Mentions(rows, k) || RowKey(last) == k
  {
    var more := rows + [last];
    assert more[|rows|] == last && forall i {:trigger rows[i]} :: 0 <= i < |rows| ==> more[i] == rows[i];
  }

  /** Every stored root was there before or is one of the rows. */
  lemma {:induction false} UpsertedFrom<T>(roots: Table<T>, rows: seq<TreeRow<T>>, k: (nat, nat))
    requires k in Upserted(roots, rows)
    ensures (k in roots && Upserted(roots, rows)[k] == roots[k]) || TreeRow(k.0, k.1, Upserted(roots, rows)[k]) in rows
  {
    if rows != [] {
      var init, last := rows[..|rows| - 1], rows[|rows| - 1];
      assert last in rows && forall row :: row in init ==> row in rows;
      if k != (last.denomId, last.leafCount) {
        UpsertedFrom(roots, init, k);
      }
    }
  }

  /** Stores the roots of the tree accounts one by one; the process may die before any of them. */
  method SyncAccountState<T(==)>(db: Db<T>, rows: seq<TreeRow<T>>, fuel: nat) returns (left: nat, crashed: bool)
    modifies db`roots
    ensures db.roots == Upserted(old(db.roots), rows[..Min(|rows|, fuel)])
    ensures RootsStored(old(db.roots), db.roots, rows[..Min(|rows|, fuel)])
    ensures if fuel < |rows| then crashed else !crashed && left == fuel - |rows|
  {
    left := fuel;
    UpsertedStores(db.roots, rows[..Min(|rows|, fuel)]);
    hide RootsStored;
    for i := 0 to |rows|
      invariant left == fuel - i && db.roots == Upserted(old(db.roots), rows[..i])
    {
      if left == 0 {
        crashed := true;
        return;
      }
      left := left - 1;
      assert rows[..i + 1][..i] == rows[..i];
      db.UpsertRoot(rows[i].denomId, rows[i].leafCount, rows[i].latestRoot);
    }
    crashed := false;
  }

  // ---------------------------------------------------------------------------
  // Ingestion
  // ---------------------------------------------------------------------------

  /** How many transactions the checkpoint says are done. */
  ghost function Done<T>(txs: seq<Tx<T>>, lastSignature: Option<nat>): (c: nat)
    ensures c <= |txs|
  {
    Start(Signatures(txs), lastSignature)
  }

  ghost predicate CheckpointKnown<T>(txs: seq<Tx<T>>, lastSignature: Option<nat>) {
    lastSignature.Some? ==> lastSignature.value in Signatures(txs)
  }

  /**
   The database holds the first n events of the chain, for some n that covers every transaction
   the checkpoint says is done.
   */
  ghost predicate Ingested<T>(db: Db<T>, txs: seq<Tx<T>>, n: nat)
    reads db`commitments, db`lastSignature
  {
    && CheckpointKnown(txs, db.lastSignature)
    && |Events(txs[..Done(txs, db.lastSignature)])| <= n <= |Events(txs)|
    && Holds(db.commitments, Events(txs)[..n])
  }

  /** The next index of each denomination seen in this batch, as the poller keeps it in memory. */
  ghost predicate CountersOk<T>(nextLeaf: map<nat, nat>, events: seq<Leaf<T>>) {
    forall d {:trigger d in nextLeaf} :: d in nextLeaf ==> nextLeaf[d] == |Indexed(events, d)|
  }

  /** A value that is there already changes neither the rows nor the counters. */
  lemma PresentHolds<T>(table: Table<T>, counters: map<nat, nat>, events: seq<Leaf<T>>, leaf: Leaf<T>)
    requires Holds(table, events) && CountersOk(counters, events) && leaf.value in Indexed(events, leaf.denomId)
    ensures Holds(table, events + [leaf]) && CountersOk(counters, events + [leaf])
  {
    forall d: nat ensures Indexed(events + [leaf], d) == Indexed(events, d) {
      IndexedAppend(events, leaf, d);
    }
  }

  /** A new value at the next index of its denomination. */
  lemma InsertHolds<T>(table: Table<T>, events: seq<Leaf<T>>, leaf: Leaf<T>)
    requires Holds(table, events) && leaf.value !in Indexed(events, leaf.denomId)
    ensures var idx := |Indexed(events, leaf.denomId)|;
            (leaf.denomId, idx) !in table && Holds(table[(leaf.denomId, idx) := leaf.value], events + [leaf])
  {
    hide Indexed;
    forall d: nat ensures Indexed(events + [leaf], d) ==
      if d == leaf.denomId then Indexed(events, d) + [leaf.value] else Indexed(events, d)
    {
      IndexedAppend(events, leaf, d);
    }
  }

  lemma InsertCounts<T>(counters: map<nat, nat>, events: seq<Leaf<T>>, leaf: Leaf<T>)
    requires CountersOk(counters, events) && leaf.value !in Indexed(events, leaf.denomId)
    ensures CountersOk(counters[leaf.denomId := |Indexed(events, leaf.denomId)| + 1], events + [leaf])
  {
    forall d: nat ensures Indexed(events + [leaf], d) ==
      if d == leaf.denomId then Indexed(events, d) + [leaf.value] else Indexed(events, d)
    {
      IndexedAppend(events, leaf, d);
    }
  }

  lemma NextIndex<T>(table: Table<T>, events: seq<Leaf<T>>, d: nat, max: int)
    requires Holds(table, events) && max >= -1 && (max >= 0 ==> (d, max) in table)
    requires forall i: nat :: (d, i) in table ==> i <= max
    ensures max + 1 == |Indexed(events, d)|
  {
    if |Indexed(events, d)| > 0 {
      assert (d, |Indexed(events, d)| - 1) in table;
    }
  }

  lemma PresentMeansIndexed<T>(table: Table<T>, events: seq<Leaf<T>>, leaf: Leaf<T>, present: bool)
    requires Holds(table, events)
    requires present <==> exists i: nat :: (leaf.denomId, i) in table && table[(leaf.denomId, i)] == leaf.value
    ensures present <==> leaf.value in Indexed(events, leaf.denomId)
  {
    if leaf.value in Indexed(events, leaf.denomId) {
      var i :| 0 <= i < |Indexed(events, leaf.denomId)| && Indexed(events, leaf.denomId)[i] == leaf.value;
      assert (leaf.denomId, i) in table;
    }
  }

  /** Stores one appended leaf at the next index of its denomination, unless its value is already there. */
  method AppendLeaf<T(==)>(db: Db<T>, nextLeaf: map<nat, nat>, leaf: Leaf<T>, ghost events: seq<Leaf<T>>)
    returns (counters: map<nat, nat>, inserted: bool)
    requires Holds(db.commitments, events) && CountersOk(nextLeaf, events)
    modifies db`commitments
    ensures Holds(db.commitments, events + [leaf]) && CountersOk(counters, events + [leaf])
    ensures inserted <==> leaf.value !in Indexed(events, leaf.denomId)
  {
    hide Holds, Indexed;
    var d := leaf.denomId;
    var present := db.CommitmentExists(d, leaf.value);
    PresentMeansIndexed(db.commitments, events, leaf, present);
    if present {
      PresentHolds(db.commitments, nextLeaf, events, leaf);
      return nextLeaf, false;
    }
    counters := nextLeaf;
    if d !in counters {
      var max := db.MaxLeafIndex(d);
      NextIndex(db.commitments, events, d, max);
      counters := counters[d := max + 1];
    }
    var idx := counters[d];
    InsertCounts(nextLeaf, events, leaf);
    counters := counters[d := idx + 1];
    assert counters == nextLeaf[d := |Indexed(events, d)| + 1];
    InsertHolds(db.commitments, events, leaf);
    db.InsertCommitment(d, idx, leaf.value);
    inserted := true;
  }

  lemma SignaturesPrefix<T>(chain: seq<Tx<T>>, v: nat)
    requires v <= |chain| && Distinct(Signatures(chain))
    ensures Signatures(chain[..v]) == Signatures(chain)[..v]
    ensures Distinct(Signatures(chain[..v]))
  {
    forall i, j | 0 <= i < j < v ensures Signatures(chain[..v])[i] != Signatures(chain[..v])[j] {
      assert Signatures(chain)[i] != Signatures(chain)[j];
    }
  }

  lemma DoneAt<T>(txs: seq<Tx<T>>, k: nat)
    requires Distinct(Signatures(txs)) && k < |txs|
    ensures CheckpointKnown(txs, Some(txs[k].signature)) && Done(txs, Some(txs[k].signature)) == k + 1
  {
    assert Signatures(txs)[k] == txs[k].signature;
    DistinctIndex(Signatures(txs), k);
  }

  lemma DoneStable<T>(chain: seq<Tx<T>>, v: nat, v': nat, last: Option<nat>)
    requires v <= v' <= |chain| && Distinct(Signatures(chain)) && CheckpointKnown(chain[..v], last)
    ensures CheckpointKnown(chain[..v'], last) && Done(chain[..v'], last) == Done(chain[..v], last)
  {
    if last.Some? {
      SignaturesPrefix(chain, v);
      SignaturesPrefix(chain, v');
      var i := IndexOf(Signatures(chain[..v]), last.value);
      DoneAt(chain[..v], i);
      DoneAt(chain[..v'], i);
    }
  }

  /** The chain only grows, so what was ingested stays ingested. */
  lemma GrowthKeepsIngested<T>(db: Db<T>, chain: seq<Tx<T>>, v: nat, v': nat, n: nat)
    requires v <= v' <= |chain| && Distinct(Signatures(chain)) && Ingested(db, chain[..v], n)
    ensures Ingested(db, chain[..v'], n)
  {
    var txs, more := chain[..v], chain[..v'];
    DoneStable(chain, v, v', db.lastSignature);
    var c := Done(txs, db.lastSignature);
    assert more[..v] == txs && more[..c] == txs[..c];
    EventsPrefix(more, v);
    assert Events(more)[..n] == Events(txs)[..n];
  }

  /** The transaction behind a signature. */
  method GetPoolIxs<T>(chain: seq<Tx<T>>, signature: nat) returns (tx: Tx<T>, leaves: seq<Leaf<T>>)
    requires signature in Signatures(chain)
    ensures tx in chain && tx.signature == signature && leaves == LeavesOf(tx)
    ensures tx == chain[IndexOf(Signatures(chain), signature)]
  {
    tx := chain[IndexOf(Signatures(chain), signature)];
    leaves := LeavesOf(tx);
  }

  /** Taking in the event at pos, new or replayed, leaves exactly the first max(n, pos + 1) events. */
  lemma TakeIn<T>(table: Table<T>, counters: map<nat, nat>, all: seq<Leaf<T>>, pos: nat, n: nat)
    requires pos <= n <= |all| && pos < |all|
    requires Holds(table, all[..n] + [all[pos]]) && CountersOk(counters, all[..n] + [all[pos]])
    ensures var m := if pos < n then n else pos + 1;
            Holds(table, all[..m]) && CountersOk(counters, all[..m])
  {
    if pos < n {
      assert all[..n][pos] == all[pos];
      ReplayAbsorbed(table, counters, all[..n], pos);
    } else {
      assert all[..n + 1] == all[..n] + [all[pos]];
    }
  }

  /**
   Stores the leaves of one transaction, the events from position `base` of `all`.  At most
   `fuel` of them: the process may die before any of them.  Leaves that an earlier life already
   stored are skipped without using an index.
   */
  method IngestTransaction<T(==)>(db: Db<T>, nextLeaf: map<nat, nat>, ixs: seq<Leaf<T>>, fuel: nat,
                                  ghost all: seq<Leaf<T>>, ghost base: nat, ghost n0: nat)
    returns (counters: map<nat, nat>, left: nat, crashed: bool, ghost n: nat)
    requires base + |ixs| <= |all| && all[base..base + |ixs|] == ixs
    requires base <= n0 <= |all|
    requires Holds(db.commitments, all[..n0]) && CountersOk(nextLeaf, all[..n0])
    modifies db`commitments
    ensures n == Max(n0, base + if crashed then fuel else |ixs|) <= |all|
    ensures Holds(db.commitments, all[..n]) && CountersOk(counters, all[..n])
    ensures if fuel < |ixs| then crashed else !crashed && left == fuel - |ixs|
  {
    hide Holds, CountersOk;
    counters, left, n := nextLeaf, fuel, n0;
    for j := 0 to |ixs|
      invariant left == fuel - j
      invariant n == Max(n0, base + j)
      invariant Holds(db.commitments, all[..n]) && CountersOk(counters, all[..n])
    {
      if left == 0 {
        crashed := true;
        return;
      }
      left := left - 1;
      assert all[base..base + |ixs|][j] == all[base + j];
      var inserted;
      counters, inserted := AppendLeaf(db, counters, ixs[j], all[..n]);
      TakeIn(db.commitments, counters, all, base + j, n);
      n := if base + j < n then n else base + j + 1;
    }
    crashed := false;
  }

  /** Where the leaves of transaction k lie in the whole event list. */
  lemma EventsOfTx<T>(txs: seq<Tx<T>>, k: nat)
    requires k < |txs|
    ensures var base, next := |Events(txs[..k])|, |Events(txs[..k + 1])|;
            next == base + |LeavesOf(txs[k])| <= |Events(txs)| && Events(txs)[base..next] == LeavesOf(txs[k])
  {
    EventsSplit(txs, k);
    EventsPrefix(txs, k + 1);
    var base, next := |Events(txs[..k])|, |Events(txs[..k + 1])|;
    assert Events(txs)[base..next] == Events(txs)[..next][base..];
  }

  /** Looking a signature up finds the transaction it was listed for. */
  lemma FetchedTx<T>(chain: seq<Tx<T>>, k: nat)
    requires k < |chain| && Distinct(Signatures(chain))
    ensures chain[k].signature in Signatures(chain)
    ensures IndexOf(Signatures(chain), chain[k].signature) == k
  {
    assert Signatures(chain)[k] == chain[k].signature;
    DistinctIndex(Signatures(chain), k);
  }

  /** The poller is about to process transaction k and holds the first n events of the history txs. */
  ghost predicate At<T>(db: Db<T>, txs: seq<Tx<T>>, nextLeaf: map<nat, nat>, k: nat, n: nat)
    reads db`commitments, db`lastSignature
  {
    && Ingested(db, txs, n) && Done(txs, db.lastSignature) == k
    && CountersOk(nextLeaf, Events(txs)[..n])
  }

  /** Fetches one transaction, stores its leaves, then checkpoints it. */
  method ReplayTransaction<T(==)>(db: Db<T>, chain: seq<Tx<T>>, signature: nat, nextLeaf: map<nat, nat>, fuel: nat,
                                  ghost v: nat, ghost k: nat, ghost n0: nat)
    returns (counters: map<nat, nat>, left: nat, crashed: bool, ghost n: nat)
    requires Distinct(Signatures(chain)) && k < v <= |chain| && signature == chain[k].signature
    requires At(db, chain[..v], nextLeaf, k, n0)
    modifies db`commitments, db`lastSlot, db`lastSignature
    ensures Ingested(db, chain[..v], n) && Done(chain[..v], db.lastSignature) == if crashed then k else k + 1
    ensures var base, leaves := |Events(chain[..k])|, |LeavesOf(chain[k])|;
            && n == Max(n0, base + if crashed then fuel else leaves)
            && if fuel <= leaves then crashed else !crashed && left == fuel - leaves - 1
    ensures !crashed ==> At(db, chain[..v], counters, k + 1, n)
  {
    hide Holds, CountersOk, Events, Done, Distinct, Signatures, CheckpointKnown, LeavesOf;
    assert chain[..v][..k] == chain[..k];
    ghost var txs := chain[..v];
    SignaturesPrefix(chain, v);
    FetchedTx(chain, k);
    var tx, ixs := GetPoolIxs(chain, signature);
    EventsOfTx(txs, k);
    counters, left, crashed, n := IngestTransaction(db, nextLeaf, ixs, fuel, Events(txs), |Events(txs[..k])|, n0);
    if crashed || left == 0 {
      crashed := true;
      return;
    }
    left := left - 1;
    db.Checkpoint(tx.slot, tx.signature);
    DoneAt(txs, k);
  }

  /** Where the poller stands: the transactions its checkpoint covers and the events its table holds. */
  datatype Standing = Standing(done: nat, indexed: nat)

  /** Where a batch of `fuel` steps, a leaf or a checkpoint each, takes it on these transactions. */
  function AfterBatch<T>(txs: seq<Tx<T>>, s: Standing, fuel: nat): (s': Standing)
    ensures s.done <= s'.done && s.indexed <= s'.indexed
    decreases |txs| - s.done
  {
    if s.done >= |txs| then s
    else
      var base, leaves := |Events(txs[..s.done])|, |LeavesOf(txs[s.done])|;
      if fuel <= leaves then Standing(s.done, Max(s.indexed, base + fuel))
      else AfterBatch(txs, Standing(s.done + 1, Max(s.indexed, base + leaves)), fuel - leaves - 1)
  }

  /**
   One batch.  `chain` is the eventual history and `visible` how much of it the node has at each
   request.  The process may die before any step, a leaf or a checkpoint: after `fuel` steps it
   stops where it is, and no earlier.  Whatever happens the database holds a prefix of the chain's
   leaves that covers the checkpoint; a batch that completes has taken in everything that was
   visible when it began.
   */
  method SyncCommitments<T(==)>(db: Db<T>, chain: seq<Tx<T>>, visible: nat -> nat, fuel: nat, ghost n0: nat)
    returns (crashed: bool, ghost n: nat)
    requires Distinct(Signatures(chain))
    requires forall i: nat :: visible(0) <= visible(i) <= |chain|
    requires Ingested(db, chain[..visible(0)], n0)
    modifies db`commitments, db`lastSlot, db`lastSignature
    ensures Ingested(db, chain[..visible(0)], n)
    ensures var txs := chain[..visible(0)];
            var s, s' := Standing(Done(txs, old(db.lastSignature)), n0), Standing(Done(txs, db.lastSignature), n);
            s' == AfterBatch(txs, s, fuel) && Stopped(txs, s, s', fuel) && (crashed <==> s'.done < |txs|)
    ensures !crashed ==> n == |Events(chain[..visible(0)])|
  {
    hide Holds, CountersOk, Events, Stopped, AfterBatch, Done, Distinct;
    ghost var v := visible(0);
    SignaturesPrefix(chain, v);
    var sigs := GetNewSignatures(Signatures(chain), visible, db.lastSignature, PAGE_LIMIT);
    Listed(chain, v, db.lastSignature, sigs);
    BatchStops(chain[..v], Standing(Done(chain[..v], db.lastSignature), n0), fuel);
    crashed, n := ReplayListed(db, chain, sigs, fuel, v, n0);
  }

  /** Replays the listed transactions one after the other, with fresh counters. */
  method ReplayListed<T(==)>(db: Db<T>, chain: seq<Tx<T>>, sigs: seq<nat>, fuel: nat, ghost v: nat, ghost n0: nat)
    returns (crashed: bool, ghost n: nat)
    requires Distinct(Signatures(chain)) && v <= |chain| && Ingested(db, chain[..v], n0)
    requires var c := Done(chain[..v], db.lastSignature);
             |sigs| == v - c && forall k :: 0 <= k < |sigs| ==> sigs[k] == chain[c + k].signature
    modifies db`commitments, db`lastSlot, db`lastSignature
    ensures Ingested(db, chain[..v], n)
    ensures Standing(Done(chain[..v], db.lastSignature), n) ==
              AfterBatch(chain[..v], Standing(Done(chain[..v], old(db.lastSignature)), n0), fuel)
    ensures crashed <==> Done(chain[..v], db.lastSignature) < v
    ensures !crashed ==> n == |Events(chain[..v])|
  {
    hide Holds, CountersOk, Events, AfterBatch, Done, Distinct, At, Ingested, Signatures;
    ghost var c := Done(chain[..v], db.lastSignature);
    var nextLeaf: map<nat, nat> := map[];
    var left := fuel;
    n := n0;
    AtStart(db, chain[..v], nextLeaf, n);
    for k := 0 to |sigs|
      invariant At(db, chain[..v], nextLeaf, c + k, n)
      invariant AfterBatch(chain[..v], Standing(c, n0), fuel) == AfterBatch(chain[..v], Standing(c + k, n), left)
    {
      BatchStep(chain, v, Standing(c + k, n), left);
      nextLeaf, left, crashed, n := ReplayTransaction(db, chain, sigs[k], nextLeaf, left, v, c + k, n);
      if crashed {
        return;
      }
    }
    AtEnd(db, chain[..v], nextLeaf, left, n);
    crashed := false;
  }

  /** The signatures to replay are those of the transactions after the checkpoint, in order. */
  lemma Listed<T>(chain: seq<Tx<T>>, v: nat, last: Option<nat>, sigs: seq<nat>)
    requires v <= |chain| && Distinct(Signatures(chain))
    requires sigs == Signatures(chain)[Start(Signatures(chain)[..v], last)..v]
    ensures var c := Done(chain[..v], last);
            |sigs| == v - c && forall k :: 0 <= k < |sigs| ==> sigs[k] == chain[c + k].signature
  {
    SignaturesPrefix(chain, v);
  }

  lemma AtStart<T>(db: Db<T>, txs: seq<Tx<T>>, counters: map<nat, nat>, n: nat)
    requires Ingested(db, txs, n) && counters == map[]
    ensures At(db, txs, counters, Done(txs, db.lastSignature), n)
  {
  }

  lemma AtEnd<T>(db: Db<T>, txs: seq<Tx<T>>, counters: map<nat, nat>, left: nat, n: nat)
    requires At(db, txs, counters, |txs|, n)
    ensures Ingested(db, txs, n) && Done(txs, db.lastSignature) == |txs| && n == |Events(txs)| == |Events(txs[..|txs|])|
    ensures AfterBatch(txs, Standing(|txs|, n), left) == Standing(|txs|, n)
  {
    assert txs[..|txs|] == txs;
  }

  lemma NothingIngested<T>(db: Db<T>, txs: seq<Tx<T>>)
    requires txs == [] && db.commitments == map[] && db.lastSignature.None?
    ensures Ingested(db, txs, 0)
  {
  }

  /** The steps, a leaf or a checkpoint each, that take the poller from transaction c to transaction k. */
  ghost function Steps<T>(txs: seq<Tx<T>>, c: nat, k: nat): int
    requires c <= k <= |txs|
  {
    |Events(txs[..k])| - |Events(txs[..c])| + k - c
  }

  /**
   Where a batch of `fuel` steps stops: at the last checkpoint it can pay for, with what is left
   spent on the leaves of the next transaction.
   */
  ghost predicate Stopped<T>(txs: seq<Tx<T>>, s: Standing, s': Standing, fuel: nat) {
    var c, k := s.done, s'.done;
    && c <= k <= |txs| && Steps(txs, c, k) <= fuel
    && (k < |txs| ==> fuel < Steps(txs, c, k + 1))
    && s'.indexed == Max(s.indexed, |Events(txs[..k])| + if k < |txs| then fuel - Steps(txs, c, k) else 0)
  }

  lemma EventsGrow<T>(txs: seq<Tx<T>>, c: nat, k: nat)
    requires c <= k <= |txs|
    ensures |Events(txs[..c])| <= |Events(txs[..k])|
  {
    EventsPrefix(txs[..k], c);
    assert txs[..k][..c] == txs[..c];
  }

  lemma {:induction false} BatchStops<T>(txs: seq<Tx<T>>, s: Standing, fuel: nat)
    requires s.done <= |txs| && |Events(txs[..s.done])| <= s.indexed
    ensures Stopped(txs, s, AfterBatch(txs, s, fuel), fuel)
    decreases |txs| - s.done
  {
    hide Events, LeavesOf;
    if s.done < |txs| {
      EventsSplit(txs, s.done);
      var base, leaves := |Events(txs[..s.done])|, |LeavesOf(txs[s.done])|;
      if fuel > leaves {
        var next := Standing(s.done + 1, Max(s.indexed, base + leaves));
        BatchStops(txs, next, fuel - leaves - 1);
        StoppedLater(txs, s, next, AfterBatch(txs, next, fuel - leaves - 1), fuel);
      }
    }
  }

  lemma StoppedLater<T>(txs: seq<Tx<T>>, s: Standing, next: Standing, s': Standing, fuel: nat)
    requires s.done < |txs| && |LeavesOf(txs[s.done])| < fuel
    requires var base, leaves := |Events(txs[..s.done])|, |LeavesOf(txs[s.done])|;
             && next == Standing(s.done + 1, Max(s.indexed, base + leaves))
             && Stopped(txs, next, s', fuel - leaves - 1)
    ensures Stopped(txs, s, s', fuel)
  {
    EventsSplit(txs, s.done);
    hide Events, LeavesOf;
    EventsGrow(txs, next.done, s'.done);
  }

  /** With steps enough for all that is left a batch runs to its end. */
  lemma BatchEnds<T>(txs: seq<Tx<T>>, s: Standing, fuel: nat)
    requires s.done <= |txs| && |Events(txs[..s.done])| <= s.indexed && Steps(txs, s.done, |txs|) <= fuel
    ensures AfterBatch(txs, s, fuel).done == |txs|
  {
    hide Events, AfterBatch;
    BatchStops(txs, s, fuel);
    var s' := AfterBatch(txs, s, fuel);
    if s'.done < |txs| {
      EventsGrow(txs, s'.done + 1, |txs|);
    }
  }

  /** One transaction of the batch. */
  lemma BatchStep<T>(chain: seq<Tx<T>>, v: nat, s: Standing, left: nat)
    requires s.done < v <= |chain|
    ensures var base, leaves := |Events(chain[..s.done])|, |LeavesOf(chain[s.done])|;
            AfterBatch(chain[..v], s, left) ==
              if left <= leaves then Standing(s.done, Max(s.indexed, base + left))
              else AfterBatch(chain[..v], Standing(s.done + 1, Max(s.indexed, base + leaves)), left - leaves - 1)
  {
    hide Events, LeavesOf;
    assert chain[..v][..s.done] == chain[..s.done] && chain[..v][s.done] == chain[s.done];
  }

  /**
   One life of the poller process: the tree accounts it is shown, the node's view of the history
   while it runs, and how many steps it survives.
   */
  datatype Attempt<T> = Attempt(rows: seq<TreeRow<T>>, visible: nat -> nat, fuel: nat)

  /** A life long enough to store and checkpoint any one transaction of a chain that has stopped growing. */
  ghost predicate LongEnough<T>(a: Attempt<T>, chain: seq<Tx<T>>) {
    a.visible(0) == |chain| && forall k :: 0 <= k < |chain| ==> |a.rows| + |LeavesOf(chain[k])| < a.fuel
  }

  /** Lives s up to a are all long enough. */
  ghost predicate LongLives<T>(schedule: seq<Attempt<T>>, s: nat, a: nat, chain: seq<Tx<T>>)
    requires a <= |schedule|
  {
    forall b {:trigger schedule[b]} :: s <= b < a ==> LongEnough(schedule[b], chain)
  }

  /** The node never forgets what it showed when the attempt began. */
  ghost predicate AttemptOk<T>(a: Attempt<T>, length: nat) {
    forall i: nat :: a.visible(0) <= a.visible(i) <= length
  }

  /** From one attempt to the next the visible history only grows. */
  ghost predicate ScheduleOk<T>(schedule: seq<Attempt<T>>, length: nat) {
    && (forall a :: 0 <= a < |schedule| ==> AttemptOk(schedule[a], length))
    && (forall a, b :: 0 <= a < b < |schedule| ==> schedule[a].visible(0) <= schedule[b].visible(0))
  }

  /** How much history was visible in the last attempt before a. */
  function VisibleBefore<T>(schedule: seq<Attempt<T>>, a: nat): nat
    requires a <= |schedule|
  {
    if a == 0 then 0 else schedule[a - 1].visible(0)
  }

  lemma NextAttempt<T>(schedule: seq<Attempt<T>>, length: nat, a: nat)
    requires ScheduleOk(schedule, length) && a < |schedule|
    ensures AttemptOk(schedule[a], length) && VisibleBefore(schedule, a) <= schedule[a].visible(0) <= length
  {
    assert AttemptOk(schedule[a], length);
  }

  /** Where a life takes the poller: nowhere if it dies before its batch begins. */
  function AfterLife<T>(chain: seq<Tx<T>>, a: Attempt<T>, s: Standing): (s': Standing)
    ensures s.done <= s'.done && s.indexed <= s'.indexed
  {
    if a.fuel < |a.rows| then s
    else AfterBatch(chain[..Min(a.visible(0), |chain|)], s, a.fuel - |a.rows|)
  }

  /** One life: the tree accounts' roots first, then a batch of transactions. */
  method RunAttempt<T(==)>(db: Db<T>, chain: seq<Tx<T>>, attempt: Attempt<T>, ghost v: nat, ghost n0: nat)
    returns (crashed: bool, ghost n: nat)
    requires Distinct(Signatures(chain)) && AttemptOk(attempt, |chain|)
    requires v <= attempt.visible(0) <= |chain| && Ingested(db, chain[..v], n0)
    modifies db
    ensures Ingested(db, chain[..attempt.visible(0)], n) && n0 <= n
    ensures db.roots == Upserted(old(db.roots), attempt.rows[..Min(|attempt.rows|, attempt.fuel)])
    ensures Standing(Done(chain, db.lastSignature), n) ==
              AfterLife(chain, attempt, Standing(Done(chain, old(db.lastSignature)), n0))
    ensures crashed <==> attempt.fuel < |attempt.rows| || Done(chain, db.lastSignature) < attempt.visible(0)
    ensures !crashed ==> n == |Events(chain[..attempt.visible(0)])|
  {
    hide Ingested, Events, Signatures, Distinct, Done, AfterBatch, Stopped, CheckpointKnown, Upserted, Steps;
    GrowthKeepsIngested(db, chain, v, attempt.visible(0), n0);
    IngestedIsKnown(db, chain[..attempt.visible(0)], n0);
    DoneInChain(chain, attempt.visible(0), db.lastSignature);
    var left, died := SyncAccountState(db, attempt.rows, attempt.fuel);
    if died {
      return true, n0;
    }
    crashed, n := SyncCommitments(db, chain, attempt.visible, left, n0);
    IngestedIsKnown(db, chain[..attempt.visible(0)], n);
    DoneInChain(chain, attempt.visible(0), db.lastSignature);
  }

  lemma IngestedIsKnown<T>(db: Db<T>, txs: seq<Tx<T>>, n: nat)
    requires Ingested(db, txs, n)
    ensures CheckpointKnown(txs, db.lastSignature)
  {
  }

  lemma DoneInChain<T>(chain: seq<Tx<T>>, v: nat, last: Option<nat>)
    requires v <= |chain| && Distinct(Signatures(chain)) && CheckpointKnown(chain[..v], last)
    ensures Done(chain, last) == Done(chain[..v], last)
  {
    DoneStable(chain, v, |chain|, last);
    assert chain[..|chain|] == chain;
  }

  /** A batch takes in nothing beyond what it is shown. */
  lemma {:induction false} BatchWithin<T>(txs: seq<Tx<T>>, s: Standing, fuel: nat)
    ensures AfterBatch(txs, s, fuel).indexed <= Max(s.indexed, |Events(txs)|)
    decreases |txs| - s.done
  {
    hide Events, LeavesOf;
    if s.done < |txs| {
      var base, leaves := |Events(txs[..s.done])|, |LeavesOf(txs[s.done])|;
      EventsOfTx(txs, s.done);
      if fuel > leaves {
        BatchWithin(txs, Standing(s.done + 1, Max(s.indexed, base + leaves)), fuel - leaves - 1);
      }
    }
  }

  lemma LifeWithin<T>(chain: seq<Tx<T>>, a: Attempt<T>, s: Standing)
    ensures AfterLife(chain, a, s).indexed <=
              Max(s.indexed, |Events(chain[..Min(a.visible(0), |chain|)])|) <= Max(s.indexed, |Events(chain)|)
  {
    var v := Min(a.visible(0), |chain|);
    EventsPrefix(chain, v);
    hide Events, AfterBatch;
    if a.fuel >= |a.rows| {
      BatchWithin(chain[..v], s, a.fuel - |a.rows|);
    }
  }

  /** A life long enough for any one transaction advances the checkpoint unless nothing is left to do. */
  lemma LongLifeAdvances<T>(chain: seq<Tx<T>>, a: Attempt<T>, s: Standing)
    requires LongEnough(a, chain)
    ensures AfterLife(chain, a, s).done >= Min(|chain|, s.done + 1)
  {
    assert chain[..|chain|] == chain;
    if s.done < |chain| {
      assert |a.rows| + |LeavesOf(chain[s.done])| < a.fuel;
    }
  }

  /** Each of the last lives that was long enough checkpointed at least one transaction more. */
  ghost predicate Advanced<T>(schedule: seq<Attempt<T>>, a: nat, chain: seq<Tx<T>>, lastSignature: Option<nat>)
    requires a <= |schedule|
  {
    forall s: nat {:trigger LongLives(schedule, s, a, chain)} ::
      s <= a && LongLives(schedule, s, a, chain) ==> Done(chain, lastSignature) >= Min(|chain|, a - s)
  }

  lemma AtFirst<T>(schedule: seq<Attempt<T>>, chain: seq<Tx<T>>, lastSignature: Option<nat>)
    ensures Advanced(schedule, 0, chain, lastSignature)
  {
  }

  lemma CaughtUp<T>(schedule: seq<Attempt<T>>, chain: seq<Tx<T>>, lastSignature: Option<nat>)
    requires Advanced(schedule, |schedule|, chain, lastSignature)
    ensures forall s: nat :: s + |chain| <= |schedule| && LongLives(schedule, s, |schedule|, chain) ==>
              Done(chain, lastSignature) == |chain|
  {
    hide Done, LongLives;
  }

  lemma AttemptAdvances<T>(schedule: seq<Attempt<T>>, a: nat, chain: seq<Tx<T>>, before: Option<nat>,
                           after: Option<nat>, n0: nat, n: nat)
    requires a < |schedule| && Advanced(schedule, a, chain, before)
    requires Standing(Done(chain, after), n) == AfterLife(chain, schedule[a], Standing(Done(chain, before), n0))
    ensures Advanced(schedule, a + 1, chain, after)
  {
    hide Done, AfterLife, LongEnough;
    forall s: nat {:trigger LongLives(schedule, s, a + 1, chain)} | s <= a && LongLives(schedule, s, a + 1, chain)
      ensures Done(chain, after) >= Min(|chain|, a + 1 - s)
    {
      assert LongEnough(schedule[a], chain) && LongLives(schedule, s, a, chain);
      LongLifeAdvances(chain, schedule[a], Standing(Done(chain, before), n0));
    }
  }

  /**
   Restarts until the schedule is over, whatever the crashes.  The table is caught up after a
   batch that completes, and also, if every batch crashes, once the chain has stopped growing and
   as many lives as it has transactions were each long enough for one transaction.
   */
  method RunPoller<T(==)>(chain: seq<Tx<T>>, schedule: seq<Attempt<T>>) returns (db: Db<T>, crashed: bool, ghost n: nat)
    requires Distinct(Signatures(chain)) && ScheduleOk(schedule, |chain|)
    ensures Ingested(db, chain, n)
    ensures schedule != [] && !crashed && VisibleBefore(schedule, |schedule|) == |chain| ==>
              Holds(db.commitments, Events(chain))
    ensures forall s: nat :: s + |chain| <= |schedule| && LongLives(schedule, s, |schedule|, chain) ==>
              Holds(db.commitments, Events(chain))
  {
    db := new Db<T>();
    NothingIngested(db, chain[..0]);
    hide Ingested, Events, Distinct, Signatures, Holds, ScheduleOk, AttemptOk, Done, AfterLife, LongLives, Advanced;
    AtFirst(schedule, chain, db.lastSignature);
    n, crashed := 0, false;
    for a := 0 to |schedule|
      invariant VisibleBefore(schedule, a) <= |chain| && fresh(db)
      invariant Ingested(db, chain[..VisibleBefore(schedule, a)], n)
      invariant a > 0 && !crashed ==> n == |Events(chain[..VisibleBefore(schedule, a)])|
      invariant Advanced(schedule, a, chain, db.lastSignature)
    {
      NextAttempt(schedule, |chain|, a);
      ghost var before, n0 := db.lastSignature, n;
      crashed, n := RunAttempt(db, chain, schedule[a], VisibleBefore(schedule, a), n);
      AttemptAdvances(schedule, a, chain, before, db.lastSignature, n0, n);
    }
    GrowthKeepsIngested(db, chain, VisibleBefore(schedule, |schedule|), |chain|, n);
    WhatIsIngested(db, chain, n);
    CaughtUp(schedule, chain, db.lastSignature);
  }

  lemma WhatIsIngested<T>(db: Db<T>, txs: seq<Tx<T>>, n: nat)
    requires Ingested(db, txs[..|txs|], n)
    ensures Ingested(db, txs, n)
    ensures n == |Events(txs[..|txs|])| || Done(txs, db.lastSignature) == |txs| ==> Holds(db.commitments, Events(txs))
  {
    assert txs[..|txs|] == txs;
    if n == |Events(txs)| {
      assert Events(txs)[..n] == Events(txs);
    }
  }

  // ---------------------------------------------------------------------------
  // When the table is the chain's own leaf sequence
  // ---------------------------------------------------------------------------

  /** What the chain appends, in order, each marked with whether the poller gets to see it. */
  function ChainAppends<T>(txs: seq<Tx<T>>): seq<Append<T>> {
    if txs == [] then []
    else ChainAppends(txs[..|txs| - 1]) + TxAppends(txs[|txs| - 1])
  }

  function TxAppends<T>(tx: Tx<T>): seq<Append<T>> {
    if tx.failed then []
    else seq(|tx.appends|, i requires 0 <= i < |tx.appends| =>
               Append(tx.appends[i].leaf, tx.appends[i].topLevel && tx.retrievable))
  }

  /** The leaves of one denomination's tree, in the order the chain appended them. */
  function OnChain<T>(appends: seq<Append<T>>, d: nat): seq<T> {
    if appends == [] then []
    else
      var a := appends[|appends| - 1];
      OnChain(appends[..|appends| - 1], d) + if a.leaf.denomId == d then [a.leaf.value] else []
  }

  lemma {:induction false} OnChainConcat<T>(a: seq<Append<T>>, b: seq<Append<T>>, d: nat)
    ensures OnChain(a + b, d) == OnChain(a, d) + OnChain(b, d)
  {
    if b == [] {
      assert a + b == a;
    } else {
      OnChainConcat(a, b[..|b| - 1], d);
      assert (a + b)[..|a + b| - 1] == a + b[..|b| - 1];
    }
  }

  ghost predicate AllSeen<T>(appends: seq<Append<T>>, d: nat) {
    forall i :: 0 <= i < |appends| && appends[i].leaf.denomId == d ==> appends[i].topLevel
  }

  lemma ObservedLast<T>(appends: seq<Append<T>>)
    requires appends != []
    ensures var init, a := appends[..|appends| - 1], appends[|appends| - 1];
            Observed(appends) == if a.topLevel then Observed(init) + [a.leaf] else Observed(init)
  {
  }

  lemma {:induction false} ObservedConcat<T>(a: seq<Append<T>>, b: seq<Append<T>>)
    ensures Observed(a + b) == Observed(a) + Observed(b)
  {
    if b == [] {
      assert a + b == a;
    } else {
      ObservedConcat(a, b[..|b| - 1]);
      assert (a + b)[..|a + b| - 1] == a + b[..|b| - 1];
    }
  }

  lemma {:induction false} ObservedHidden<T>(tx: Tx<T>, k: nat)
    requires k <= |tx.appends| && !tx.failed
    ensures Observed(TxAppends(tx)[..k]) == if tx.retrievable then Observed(tx.appends[..k]) else []
  {
    if k > 0 {
      ObservedHidden(tx, k - 1);
      assert TxAppends(tx)[..k][..k - 1] == TxAppends(tx)[..k - 1];
      assert tx.appends[..k][..k - 1] == tx.appends[..k - 1];
    }
  }

  lemma {:induction false} EventsAreObserved<T>(txs: seq<Tx<T>>)
    ensures Events(txs) == Observed(ChainAppends(txs))
  {
    if txs != [] {
      var init, tx := txs[..|txs| - 1], txs[|txs| - 1];
      EventsAreObserved(init);
      ObservedConcat(ChainAppends(init), TxAppends(tx));
      if !tx.failed {
        ObservedHidden(tx, |tx.appends|);
        assert TxAppends(tx)[..|tx.appends|] == TxAppends(tx) && tx.appends[..|tx.appends|] == tx.appends;
      }
    }
  }

  lemma {:induction false} IndexedDistinct<T>(events: seq<Leaf<T>>, d: nat)
    ensures Distinct(Indexed(events, d))
  {
    if events != [] {
      IndexedDistinct(events[..|events| - 1], d);
    }
  }

  lemma NothingObserved<T>(appends: seq<Append<T>>, d: nat)
    requires appends == []
    ensures Observed(appends) == [] && AllSeen(appends, d)
  {
  }

  lemma AllSeenExtends<T>(appends: seq<Append<T>>, d: nat)
    requires appends != []
    ensures var a := appends[|appends| - 1];
            AllSeen(appends[..|appends| - 1], d) && (a.leaf.denomId == d ==> a.topLevel) ==> AllSeen(appends, d)
  {
  }

  /** The table has at most as many rows as the chain has leaves; as many means every leaf was seen. */
  lemma {:induction false} IndexedBelowChain<T>(appends: seq<Append<T>>, d: nat)
    ensures |Indexed(Observed(appends), d)| <= |OnChain(appends, d)|
    ensures |Indexed(Observed(appends), d)| == |OnChain(appends, d)| ==> AllSeen(appends, d)
  {
    hide Observed, AllSeen;
    if appends == [] {
      NothingObserved(appends, d);
    } else {
      var init, a := appends[..|appends| - 1], appends[|appends| - 1];
      IndexedBelowChain(init, d);
      ObservedLast(appends);
      IndexedAppend(Observed(init), a.leaf, d);
      AllSeenExtends(appends, d);
    }
  }

  /** Each value once, in order of first occurrence. */
  function Dedup<T(==)>(values: seq<T>): seq<T> {
    if values == [] then []
    else
      var before, last := Dedup(values[..|values| - 1]), values[|values| - 1];
      if last in before then before else before + [last]
  }

  /** When every append was seen, the rows are the chain's leaves without their repetitions. */
  lemma {:induction false} IndexedIsDedup<T>(appends: seq<Append<T>>, d: nat)
    requires AllSeen(appends, d)
    ensures Indexed(Observed(appends), d) == Dedup(OnChain(appends, d))
  {
    if appends != [] {
      var init, a := appends[..|appends| - 1], appends[|appends| - 1];
      IndexedIsDedup(init, d);
      ObservedLast(appends);
      IndexedAppend(Observed(init), a.leaf, d);
      if a.leaf.denomId == d {
        assert OnChain(appends, d) == OnChain(init, d) + [a.leaf.value];
        assert OnChain(appends, d)[..|OnChain(init, d)|] == OnChain(init, d);
      } else {
        assert OnChain(appends, d) == OnChain(init, d);
      }
    }
  }

  /** Up to the first repetition nothing is dropped. */
  lemma {:induction false} DedupKeepsDistinct<T>(values: seq<T>, j: nat)
    requires j <= |values| && Distinct(values[..j])
    ensures |Dedup(values)| >= j && Dedup(values)[..j] == values[..j]
    ensures j == |values| ==> Dedup(values) == values
    decreases |values|
  {
    if values != [] {
      var init := values[..|values| - 1];
      var i := if j < |values| then j else |init|;
      assert init[..i] == values[..i];
      if j == |values| {
        assert values[..j] == values;
      }
      DedupKeepsDistinct(init, i);
    }
  }

  lemma IndexedIsChain<T>(appends: seq<Append<T>>, d: nat)
    requires AllSeen(appends, d) && Distinct(OnChain(appends, d))
    ensures Indexed(Observed(appends), d) == OnChain(appends, d)
  {
    IndexedIsDedup(appends, d);
    var leaves := OnChain(appends, d);
    assert leaves[..|leaves|] == leaves;
    DedupKeepsDistinct(leaves, |leaves|);
  }

  /**
   Exactly when a caught-up table is the chain's own leaf sequence: when no leaf value repeats
   in the denomination and the poller saw every append, that is, all were made by top-level
   instructions of transactions the node could return.
   */
  lemma TableIsChainExactlyWhen<T>(table: Table<T>, txs: seq<Tx<T>>, d: nat)
    requires Holds(table, Events(txs))
    ensures var leaves := OnChain(ChainAppends(txs), d);
            (&& (forall i: nat :: (d, i) in table <==> i < |leaves|)
             && (forall i: nat :: i < |leaves| ==> (d, i) in table && table[(d, i)] == leaves[i]))
            <==> Distinct(leaves) && AllSeen(ChainAppends(txs), d)
  {
    var appends := ChainAppends(txs);
    var leaves, rows := OnChain(appends, d), Indexed(Events(txs), d);
    EventsAreObserved(txs);
    IndexedDistinct(Events(txs), d);
    IndexedBelowChain(appends, d);
    if Distinct(leaves) && AllSeen(appends, d) {
      IndexedIsChain(appends, d);
    }
    if (forall i: nat :: (d, i) in table <==> i < |leaves|)
        && (forall i: nat :: i < |leaves| ==> table[(d, i)] == leaves[i]) {
      RowsAre(table, d, rows, leaves);
    }
  }

  /** Every append of the value to the denomination is one the poller does not get to see. */
  ghost predicate NeverSeen<T>(appends: seq<Append<T>>, d: nat, value: T) {
    forall a :: a in appends && a.leaf == Leaf(d, value) ==> !a.topLevel
  }

  lemma {:induction false} UnseenIsMissing<T>(appends: seq<Append<T>>, d: nat, value: T)
    requires NeverSeen(appends, d, value)
    ensures value !in Indexed(Observed(appends), d)
  {
    if appends != [] {
      var init, a := appends[..|appends| - 1], appends[|appends| - 1];
      assert a in appends && forall b :: b in init ==> b in appends;
      UnseenIsMissing(init, d, value);
      ObservedLast(appends);
      IndexedAppend(Observed(init), a.leaf, d);
    }
  }

  lemma RowsAre<T>(table: Table<T>, d: nat, rows: seq<T>, leaves: seq<T>)
    requires forall i: nat :: (d, i) in table <==> i < |rows|
    requires forall i: nat :: i < |rows| ==> table[(d, i)] == rows[i]
    requires forall i: nat :: (d, i) in table <==> i < |leaves|
    requires forall i: nat :: i < |leaves| ==> table[(d, i)] == leaves[i]
    ensures rows == leaves
  {
    assert (d, |rows|) in table <==> |rows| < |leaves|;
    assert (d, |leaves|) in table <==> |leaves| < |rows|;
    assert forall i: nat :: i < |rows| ==> rows[i] == table[(d, i)] == leaves[i];
  }

  /** Two deposits of the same value: the tree has two leaves, the table one row, however often it is replayed. */
  lemma RepeatedLeafIsLost(value: nat)
    ensures var tx := Tx(1, 0, false, true, [Append(Leaf(0, value), true), Append(Leaf(0, value), true)]);
            OnChain(ChainAppends([tx]), 0) == [value, value] && Indexed(Events([tx]), 0) == [value]
  {
    var e := Leaf(0, value);
    var a := Append(e, true);
    var tx := Tx(1, 0, false, true, [a, a]);
    assert [tx][..0] == [] && [a, a][..1] == [a] && [a][..0] == [];
    assert ChainAppends([tx]) == TxAppends(tx) == [a, a];
    assert OnChain([a], 0) == [value];
    assert Observed([a]) == [e];
    assert LeavesOf(tx) == Observed([a, a]) == [e, e];
    TwoEqualEvents(e);
    assert Events([tx]) == [e, e];
  }

  lemma TwoEqualEvents(e: Leaf<nat>)
    ensures Indexed([e, e], e.denomId) == [e.value]
  {
    IndexedAppend([], e, e.denomId);
    IndexedAppend([e], e, e.denomId);
    assert [] + [e] == [e] && [e] + [e] == [e, e];
  }

  /** A deposit made through another program and one made directly: the tree has both, the table only the second. */
  lemma UnseenLeafIsLost(x: nat, y: nat)
    ensures var tx := Tx(1, 0, false, true, [Append(Leaf(0, x), false), Append(Leaf(0, y), true)]);
            OnChain(ChainAppends([tx]), 0) == [x, y] && Indexed(Events([tx]), 0) == [y]
  {
    var a, b := Append(Leaf(0, x), false), Append(Leaf(0, y), true);
    var tx := Tx(1, 0, false, true, [a, b]);
    assert [tx][..0] == [] && [a, b][..1] == [a] && [a][..0] == [];
    assert ChainAppends([tx]) == TxAppends(tx) == [a, b];
    assert OnChain([a], 0) == [x];
    assert Observed([a]) == [];
    assert LeavesOf(tx) == Observed([a, b]) == [b.leaf];
    assert Events([tx]) == [b.leaf];
    IndexedAppend([], b.leaf, 0);
    assert [] + [b.leaf] == [b.leaf];
  }
}
