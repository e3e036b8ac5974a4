/**
 The poller and the API as they run together.  The poller lives, dies and is restarted while
 requests arrive at the API; between any two queries of a request the table may grow and other
 requests may be answered.  Database and cache start empty.
 */
module ProofService {
  import opened Wrappers
  import opened MerkleSpec
  import opened IncrementalTree
  import opened Pagination
  import opened InclusionPath
  import opened Poller
  import opened ProofRoute

  // ---------------------------------------------------------------------------
  // The chain's leaves and the poller's rows
  // ---------------------------------------------------------------------------

  /** Taking in more events only extends a denomination's rows. */
  lemma {:induction false} IndexedGrows<T>(events: seq<Leaf<T>>, n: nat, d: nat)
    requires n <= |events|
    ensures |Indexed(events[..n], d)| <= |Indexed(events, d)|
    ensures Indexed(events, d)[..|Indexed(events[..n], d)|] == Indexed(events[..n], d)
    decreases |events|
  {
    if n == |events| {
      assert events[..n] == events;
    } else {
      var init := events[..|events| - 1];
      IndexedGrows(init, n, d);
      assert init[..n] == events[..n];
    }
  }

  /** The leaves the chain appended to one denomination's tree. */
  function ChainLeaves<T>(txs: seq<Tx<T>>, d: nat): seq<T> {
    OnChain(ChainAppends(txs), d)
  }

  /** No value repeats in the denomination and the poller saw every append. */
  ghost predicate FullyIndexable<T>(txs: seq<Tx<T>>, d: nat) {
    Distinct(ChainLeaves(txs, d)) && AllSeen(ChainAppends(txs), d)
  }

  /** The rows of a denomination after the first n events of the chain. */
  function RowsAfter<T(==)>(txs: seq<Tx<T>>, n: nat, d: nat): seq<T>
    requires n <= |Events(txs)|
  {
    Indexed(Events(txs)[..n], d)
  }

  /** Whatever the poller has ingested so far, its rows are a prefix of the chain's leaves. */
  lemma TableIsChainPrefix<T>(txs: seq<Tx<T>>, d: nat, n: nat)
    requires n <= |Events(txs)| && FullyIndexable(txs, d)
    ensures |RowsAfter(txs, n, d)| <= |ChainLeaves(txs, d)|
    ensures RowsAfter(txs, n, d) == ChainLeaves(txs, d)[..|RowsAfter(txs, n, d)|]
  {
    EventsAreObserved(txs);
    IndexedIsChain(ChainAppends(txs), d);
    IndexedGrows(Events(txs), n, d);
  }

  lemma RowsGrow<T>(txs: seq<Tx<T>>, d: nat, n0: nat, n: nat)
    requires n0 <= n <= |Events(txs)|
    ensures RowsAfter(txs, n0, d) <= RowsAfter(txs, n, d)
  {
    IndexedGrows(Events(txs)[..n], n0, d);
    assert Events(txs)[..n][..n0] == Events(txs)[..n0];
  }

  /** The chain only appends. */
  lemma {:induction false} LeavesGrow<T>(txs: seq<Tx<T>>, v: nat, d: nat)
    requires v <= |txs|
    ensures ChainLeaves(txs[..v], d) <= ChainLeaves(txs, d)
    decreases |txs|
  {
    if v == |txs| {
      assert txs[..v] == txs;
    } else {
      var init := txs[..|txs| - 1];
      LeavesGrow(init, v, d);
      assert init[..v] == txs[..v];
      OnChainConcat(ChainAppends(init), TxAppends(txs[|txs| - 1]), d);
    }
  }

  /** It is enough that the part of the chain the poller has been shown is fully indexable. */
  lemma ShownRowsAreLeaves<T>(txs: seq<Tx<T>>, v: nat, d: nat, n: nat)
    requires v <= |txs| && n <= |Events(txs[..v])| <= |Events(txs)| && FullyIndexable(txs[..v], d)
    ensures RowsAfter(txs, n, d) <= ChainLeaves(txs, d)
  {
    EventsPrefix(txs, v);
    assert Events(txs[..v])[..n] == Events(txs)[..n];
    TableIsChainPrefix(txs[..v], d, n);
    LeavesGrow(txs, v, d);
  }

  // ---------------------------------------------------------------------------
  // The API's queries on the poller's table
  // ---------------------------------------------------------------------------

  /** The rows of one denomination in ascending order of leaf index. */
  ghost predicate SelectsRows<T>(table: Table<T>, d: nat, rows: seq<Row<T>>) {
    && (forall i, j :: 0 <= i < j < |rows| ==> rows[i].leafIndex < rows[j].leafIndex)
    && (forall i :: 0 <= i < |rows| ==>
          (d, rows[i].leafIndex) in table && table[(d, rows[i].leafIndex)] == rows[i].value)
    && (forall k: nat :: (d, k) in table ==> exists i :: 0 <= i < |rows| && rows[i].leafIndex == k)
  }

  /** The rows with an index below k have been listed. */
  ghost predicate ListsBelow<T>(table: Table<T>, d: nat, rows: seq<Row<T>>, k: nat) {
    && (forall i {:trigger rows[i]} :: 0 <= i < |rows| ==>
          rows[i].leafIndex < k && (d, rows[i].leafIndex) in table && table[(d, rows[i].leafIndex)] == rows[i].value)
    && (forall i, j {:trigger rows[i], rows[j]} :: 0 <= i < j < |rows| ==> rows[i].leafIndex < rows[j].leafIndex)
    && (forall m: nat {:trigger (d, m) in table} :: m < k && (d, m) in table ==>
          exists i {:trigger rows[i]} :: 0 <= i < |rows| && rows[i].leafIndex == m)
  }

  lemma ListsNext<T>(table: Table<T>, d: nat, rows: seq<Row<T>>, k: nat)
    requires ListsBelow(table, d, rows, k)
    ensures if (d, k) in table then ListsBelow(table, d, rows + [Row(k, table[(d, k)])], k + 1)
            else ListsBelow(table, d, rows, k + 1)
  {
    if (d, k) in table {
      var more := rows + [Row(k, table[(d, k)])];
      assert more[|rows|].leafIndex == k;
      forall m: nat | m < k && (d, m) in table ensures exists i :: 0 <= i < |more| && more[i].leafIndex == m {
        var i :| 0 <= i < |rows| && rows[i].leafIndex == m;
        assert more[i] == rows[i];
      }
    }
  }

  lemma ListsAll<T>(table: Table<T>, d: nat, rows: seq<Row<T>>, k: nat)
    requires ListsBelow(table, d, rows, k) && forall i: nat :: (d, i) in table ==> i < k
    ensures SelectsRows(table, d, rows)
  {
  }

  method SelectRows<T(==)>(db: Db<T>, d: nat) returns (rows: seq<Row<T>>)
    ensures SelectsRows(db.commitments, d, rows)
  {
    hide SelectsRows;
    var max := db.MaxLeafIndex(d);
    rows := [];
    assert ListsBelow(db.commitments, d, rows, 0);
    hide ListsBelow;
    for k := 0 to max + 1
      invariant ListsBelow(db.commitments, d, rows, k)
    {
      ListsNext(db.commitments, d, rows, k);
      if (d, k) in db.commitments {
        rows := rows + [Row(k, db.commitments[(d, k)])];
      }
    }
    ListsAll(db.commitments, d, rows, max + 1);
  }

  /** Some row of the denomination that holds the value. */
  method FindCommitment<T(==)>(db: Db<T>, d: nat, value: T) returns (index: Option<nat>)
    ensures index.Some? ==> (d, index.value) in db.commitments && db.commitments[(d, index.value)] == value
    ensures index.None? ==> forall k: nat :: (d, k) in db.commitments ==> db.commitments[(d, k)] != value
  {
    var rows := SelectRows(db, d);
    for i := 0 to |rows|
      invariant forall j :: 0 <= j < i ==> rows[j].value != value
    {
      if rows[i].value == value {
        return Some(rows[i].leafIndex);
      }
    }
    return None;
  }

  lemma {:induction false} RowIsNumbered<T>(table: Table<T>, events: seq<Leaf<T>>, d: nat, rows: seq<Row<T>>, i: nat)
    requires Holds(table, events) && SelectsRows(table, d, rows)
    requires i < |rows| || i < |Indexed(events, d)|
    ensures i < |rows| && i < |Indexed(events, d)| && rows[i].leafIndex == i
  {
    if i > 0 {
      RowIsNumbered(table, events, d, rows, i - 1);
    }
    if i < |rows| {
      assert (d, rows[i].leafIndex) in table;
    }
    if i < |Indexed(events, d)| {
      assert (d, i) in table;
      var r :| 0 <= r < |rows| && rows[r].leafIndex == i;
    }
  }

  /** A table without gaps passes the route's contiguity check. */
  lemma SelectedRowsAreIndexed<T>(table: Table<T>, events: seq<Leaf<T>>, d: nat, rows: seq<Row<T>>)
    requires Holds(table, events) && SelectsRows(table, d, rows)
    ensures Contiguous(rows) && Values(rows) == Indexed(events, d)
  {
    var listed := Indexed(events, d);
    forall i | 0 <= i < |rows| ensures i < |listed| && rows[i].leafIndex == i && rows[i].value == listed[i] {
      RowIsNumbered(table, events, d, rows, i);
    }
    if |rows| < |listed| {
      RowIsNumbered(table, events, d, rows, |rows|);
    } else if |listed| < |rows| {
      RowIsNumbered(table, events, d, rows, |listed|);
    }
    assert Values(rows) == listed;
  }

  // ---------------------------------------------------------------------------
  // Scripts
  // ---------------------------------------------------------------------------

  /**
   What happens next: a life of the poller, a request that counts the leaves and consults the
   cache, or the next query of a request that is under way.  A request is named by the place of
   its arrival in the script.
   */
  datatype Event<T> =
    | Live(attempt: Attempt<T>)
    | Arrive(denomId: nat, commitment: T, now: int)
    | Find(request: nat)
    | ReadRows(request: nat)
    | Answer(request: nat, later: int)

  /** A request between its queries, with what they have told it, and when it read the rows. */
  datatype Waiting<T> =
    | Counted(denomId: nat, commitment: T, count: nat)
    | Located(denomId: nat, commitment: T, count: nat, target: nat)
    | Collected(denomId: nat, commitment: T, count: nat, target: nat, rows: seq<Row<T>>, readAt: nat)

  /** An answer, the count its request was told, the event whose table it shows, and the event that sent it. */
  datatype Reply<T> = Reply(
    request: nat,
    denomId: nat,
    commitment: T,
    count: nat,
    shows: nat,
    sent: nat,
    response: Response<T>
  )

  /** The visible history only grows from life to life. */
  ghost predicate ScriptOk<T>(script: seq<Event<T>>, length: nat) {
    && (forall i :: 0 <= i < |script| && script[i].Live? ==> AttemptOk(script[i].attempt, length))
    && (forall i, j :: 0 <= i < j < |script| && script[i].Live? && script[j].Live? ==>
          script[i].attempt.visible(0) <= script[j].attempt.visible(0))
  }

  /** How much of the history the poller has been shown before event i. */
  function ShownBefore<T>(script: seq<Event<T>>, i: nat): nat
    requires i <= |script|
  {
    if i == 0 then 0
    else if script[i - 1].Live? then script[i - 1].attempt.visible(0) else ShownBefore(script, i - 1)
  }

  lemma {:induction false} ShownGrows<T>(script: seq<Event<T>>, i: nat, j: nat, length: nat)
    requires ScriptOk(script, length) && i <= j < |script| && script[j].Live?
    ensures ShownBefore(script, i) <= script[j].attempt.visible(0) <= length
  {
    assert AttemptOk(script[j].attempt, length);
    if i > 0 && !script[i - 1].Live? {
      ShownGrows(script, i - 1, j, length);
    }
  }

  /** Where the lives before event i have taken a poller that started from an empty database. */
  function StandingBefore<T>(txs: seq<Tx<T>>, script: seq<Event<T>>, i: nat): (s: Standing)
    requires i <= |script|
    ensures s.indexed <= |Events(txs)|
  {
    if i == 0 then Standing(0, 0)
    else
      var before := StandingBefore(txs, script, i - 1);
      if script[i - 1].Live? then
        LifeWithin(txs, script[i - 1].attempt, before);
        AfterLife(txs, script[i - 1].attempt, before)
      else before
  }

  /** The rows the table holds for a denomination before event i. */
  function RowsBefore<T(==)>(txs: seq<Tx<T>>, script: seq<Event<T>>, i: nat, d: nat): seq<T>
    requires i <= |script|
  {
    RowsAfter(txs, StandingBefore(txs, script, i).indexed, d)
  }

  /** The roots the poller has stored before event i. */
  function RootsBefore<T>(script: seq<Event<T>>, i: nat): Table<T>
    requires i <= |script|
  {
    if i == 0 then map[]
    else if script[i - 1].Live? then
      var a := script[i - 1].attempt;
      Upserted(RootsBefore(script, i - 1), a.rows[..Min(|a.rows|, a.fuel)])
    else RootsBefore(script, i - 1)
  }

  lemma {:induction false} StandingGrows<T>(txs: seq<Tx<T>>, script: seq<Event<T>>, i: nat, j: nat)
    requires i <= j <= |script|
    ensures StandingBefore(txs, script, i).indexed <= StandingBefore(txs, script, j).indexed
    ensures StandingBefore(txs, script, i).done <= StandingBefore(txs, script, j).done
    decreases j
  {
    if i < j {
      StandingGrows(txs, script, i, j - 1);
    }
  }

  /** The table only grows. */
  lemma RowsBeforeGrow<T>(txs: seq<Tx<T>>, script: seq<Event<T>>, i: nat, j: nat, d: nat)
    requires i <= j <= |script|
    ensures RowsBefore(txs, script, i, d) <= RowsBefore(txs, script, j, d)
  {
    StandingGrows(txs, script, i, j);
    RowsGrow(txs, d, StandingBefore(txs, script, i).indexed, StandingBefore(txs, script, j).indexed);
  }

  // ---------------------------------------------------------------------------
  // Which queries a script grants
  // ---------------------------------------------------------------------------

  function Stage<T>(w: Waiting<T>): nat {
    match w
    case Counted(_, _, _) => 0
    case Located(_, _, _, _) => 1
    case Collected(_, _, _, _, _, _) => 2
  }

  /** The event is the next query of a request at this stage. */
  predicate IsNext<T>(e: Event<T>, request: nat, stage: nat) {
    || (e == Find(request) && stage == 0)
    || (e == ReadRows(request) && stage == 1)
    || (e.Answer? && e.request == request && stage == 2)
  }

  /** How many of its queries the script has granted a request, the third being the one that answers it. */
  function Granted<T(==)>(script: seq<Event<T>>, request: nat, i: nat): (stage: nat)
    requires request < i <= |script|
    ensures stage <= 3
  {
    if i == request + 1 then 0
    else
      var before := Granted(script, request, i - 1);
      if IsNext(script[i - 1], request, before) then before + 1 else before
  }

  /** Event i is the query of the request that is numbered `stage`. */
  predicate Queries<T(==)>(script: seq<Event<T>>, request: nat, i: nat, stage: nat) {
    request < i < |script| && IsNext(script[i], request, stage) && Granted(script, request, i) == stage
  }

  // ---------------------------------------------------------------------------
  // What the answers should be
  // ---------------------------------------------------------------------------

  /** No root is stored for this many rows, or it is their root. */
  ghost predicate RootAgrees<T>(hs: Hasher<T>, depth: nat, roots: Table<T>, d: nat, rows: seq<T>) {
    (d, |rows|) in roots ==> roots[(d, |rows|)] == Root(hs, depth, rows)
  }

  /**
   A right answer to a request of the script.  The count is that of the rows in the table when the
   request arrived.  A body is what a full rebuild gives on the whole table: as it stood at the
   arrival if it comes from the cache, else as it stood when the request read the rows.  "Not
   found" means not among the rows when the request looked for it; a mismatch means that the
   poller has stored another root for that many rows; and nothing else is ever answered.
   */
  ghost predicate RightReply<T>(hs: Hasher<T>, depth: nat, txs: seq<Tx<T>>, script: seq<Event<T>>, r: Reply<T>) {
    && r.request <= r.shows <= r.sent < |script| && script[r.request].Arrive?
    && r.denomId == script[r.request].denomId && r.commitment == script[r.request].commitment
    && r.count == |RowsBefore(txs, script, r.request, r.denomId)|
    && var rows := RowsBefore(txs, script, r.shows, r.denomId);
       match r.response
       case Hit(body) => r.sent == r.request && Rebuilt(hs, depth, r.denomId, rows, r.commitment, body)
       case Miss(body) =>
         && Queries(script, r.request, r.shows, 1) && Queries(script, r.request, r.sent, 2)
         && Rebuilt(hs, depth, r.denomId, rows, r.commitment, body)
         && RootAgrees(hs, depth, RootsBefore(script, r.sent), r.denomId, rows)
       case CommitmentNotFound =>
         r.sent == r.shows && Queries(script, r.request, r.shows, 0) && r.commitment !in rows
       case RootMismatch =>
         && Queries(script, r.request, r.shows, 1) && Queries(script, r.request, r.sent, 2)
         && r.commitment in rows && !RootAgrees(hs, depth, RootsBefore(script, r.sent), r.denomId, rows)
       case _ => false
  }

  ghost predicate AllRight<T>(hs: Hasher<T>, depth: nat, txs: seq<Tx<T>>, script: seq<Event<T>>,
                              replies: seq<Reply<T>>)
  {
    forall k {:trigger replies[k]} :: 0 <= k < |replies| ==> RightReply(hs, depth, txs, script, replies[k])
  }

  /** An answer that was rebuilt is kept for a while. */
  predicate Keeps<T>(script: seq<Event<T>>, r: Reply<T>) {
    r.response.Miss? && r.sent < |script| && script[r.sent].Answer?
  }

  function Kept<T>(script: seq<Event<T>>, r: Reply<T>): CachedProof<T>
    requires Keeps(script, r)
  {
    CachedProof(r.response.body.leafCount, script[r.sent].later + PROOF_CACHE_TTL_MS, r.response.body)
  }

  /** The cache before event i: the last answer rebuilt for each key. */
  function CacheBefore<T(==)>(script: seq<Event<T>>, replies: seq<Reply<T>>, i: nat): map<Key<T>, CachedProof<T>> {
    if replies == [] then map[]
    else
      var before, r := CacheBefore(script, replies[..|replies| - 1], i), replies[|replies| - 1];
      if r.sent < i && Keeps(script, r) then before[(r.denomId, r.commitment) := Kept(script, r)] else before
  }

  /** On arrival the cache has an answer that has not expired and was built from as many rows as there are now. */
  predicate Servable<T(==)>(txs: seq<Tx<T>>, script: seq<Event<T>>, replies: seq<Reply<T>>, a: nat)
    requires a < |script| && script[a].Arrive?
  {
    var key, cache := (script[a].denomId, script[a].commitment), CacheBefore(script, replies, a);
    && key in cache && cache[key].expires > script[a].now
    && cache[key].leafCount == |RowsBefore(txs, script, a, script[a].denomId)|
  }

  /** The request is answered from the cache exactly when the cache can serve it. */
  ghost predicate UsesCache<T>(txs: seq<Tx<T>>, script: seq<Event<T>>, replies: seq<Reply<T>>, r: Reply<T>) {
    && r.request < |script| && script[r.request].Arrive?
    && if Servable(txs, script, replies, r.request)
       then
         var key := (script[r.request].denomId, script[r.request].commitment);
         r.response == Hit(CacheBefore(script, replies, r.request)[key].body)
       else !r.response.Hit?
  }

  ghost predicate CacheIsUsed<T>(txs: seq<Tx<T>>, script: seq<Event<T>>, replies: seq<Reply<T>>) {
    forall k {:trigger replies[k]} :: 0 <= k < |replies| ==> UsesCache(txs, script, replies, replies[k])
  }

  ghost predicate Replied<T>(replies: seq<Reply<T>>, request: nat) {
    exists k {:trigger replies[k]} :: 0 <= k < |replies| && replies[k].request == request
  }

  /** Every request that was granted its three further queries was answered, and none twice. */
  ghost predicate AllAnswered<T>(script: seq<Event<T>>, replies: seq<Reply<T>>) {
    && (forall a {:trigger script[a]} ::
          0 <= a < |script| && script[a].Arrive? && Granted(script, a, |script|) == 3 ==> Replied(replies, a))
    && (forall k, l {:trigger replies[k], replies[l]} ::
          0 <= k < l < |replies| ==> replies[k].request != replies[l].request)
  }

  // ---------------------------------------------------------------------------
  // The cache and the answers that filled it
  // ---------------------------------------------------------------------------

  lemma CacheAppend<T>(script: seq<Event<T>>, replies: seq<Reply<T>>, r: Reply<T>, i: nat)
    ensures CacheBefore(script, replies + [r], i) ==
              var before := CacheBefore(script, replies, i);
              if r.sent < i && Keeps(script, r) then before[(r.denomId, r.commitment) := Kept(script, r)] else before
  {
    assert (replies + [r])[..|replies|] == replies;
  }

  /** All the answers were sent before event i. */
  ghost predicate SentBefore<T>(replies: seq<Reply<T>>, i: nat) {
    forall k {:trigger replies[k]} :: 0 <= k < |replies| ==> replies[k].sent < i
  }

  lemma {:induction false} CacheIsCurrent<T>(script: seq<Event<T>>, replies: seq<Reply<T>>, i: nat, j: nat)
    requires SentBefore(replies, i) && i <= j
    ensures CacheBefore(script, replies, j) == CacheBefore(script, replies, i)
  {
    if replies != [] {
      CacheIsCurrent(script, replies[..|replies| - 1], i, j);
    }
  }

  /** What is in the cache is an answer sent earlier. */
  lemma {:induction false} CachedIsSent<T>(script: seq<Event<T>>, replies: seq<Reply<T>>, i: nat, key: Key<T>)
      returns (k: nat)
    requires key in CacheBefore(script, replies, i)
    ensures k < |replies| && replies[k].sent < i && Keeps(script, replies[k])
    ensures (replies[k].denomId, replies[k].commitment) == key
    ensures CacheBefore(script, replies, i)[key] == Kept(script, replies[k])
  {
    k := |replies| - 1;
    var r := replies[k];
    if !(r.sent < i && Keeps(script, r) && (r.denomId, r.commitment) == key) {
      k := CachedIsSent(script, replies[..k], i, key);
    }
  }

  /** Coherence of the cache: what it may serve is what a full rebuild on the current table would give. */
  lemma ServableIsRight<T>(hs: Hasher<T>, depth: nat, txs: seq<Tx<T>>, script: seq<Event<T>>, replies: seq<Reply<T>>,
                           a: nat)
    requires AllRight(hs, depth, txs, script, replies) && a < |script| && script[a].Arrive?
    requires Servable(txs, script, replies, a)
    ensures var d, c := script[a].denomId, script[a].commitment;
            Rebuilt(hs, depth, d, RowsBefore(txs, script, a, d), c, CacheBefore(script, replies, a)[(d, c)].body)
  {
    var key := (script[a].denomId, script[a].commitment);
    var k := CachedIsSent(script, replies, a, key);
    assert RightReply(hs, depth, txs, script, replies[k]);
    hide CacheBefore, RowsBefore, RootAgrees, Queries, IsProof;
    RowsBeforeGrow(txs, script, replies[k].shows, a, key.0);
    assert RowsBefore(txs, script, replies[k].shows, key.0) == RowsBefore(txs, script, a, key.0);
  }

  /** What the cache may serve was sent for the same key less than ten seconds before, over as many rows as now. */
  lemma ServableIsRecent<T>(txs: seq<Tx<T>>, script: seq<Event<T>>, replies: seq<Reply<T>>, a: nat) returns (k: nat)
    requires a < |script| && script[a].Arrive? && Servable(txs, script, replies, a)
    ensures k < |replies| && replies[k].response.Miss? && replies[k].sent < a && script[replies[k].sent].Answer?
    ensures replies[k].denomId == script[a].denomId && replies[k].commitment == script[a].commitment
    ensures script[a].now < script[replies[k].sent].later + 10_000
    ensures replies[k].response.body.leafCount == |RowsBefore(txs, script, a, script[a].denomId)|
  {
    k := CachedIsSent(script, replies, a, (script[a].denomId, script[a].commitment));
  }

  // ---------------------------------------------------------------------------
  // The database along the script
  // ---------------------------------------------------------------------------

  /** The database before event i. */
  ghost predicate DbOk<T>(txs: seq<Tx<T>>, script: seq<Event<T>>, i: nat, db: Db<T>)
    requires i <= |script|
    reads db
  {
    var s, v := StandingBefore(txs, script, i), ShownBefore(script, i);
    && v <= |txs| && Ingested(db, txs[..v], s.indexed) && Done(txs, db.lastSignature) == s.done
    && Holds(db.commitments, Events(txs)[..s.indexed])
    && db.roots == RootsBefore(script, i)
  }

  lemma StartsOk<T>(txs: seq<Tx<T>>, script: seq<Event<T>>, db: Db<T>)
    requires db.commitments == map[] && db.roots == map[] && db.lastSignature.None?
    ensures DbOk(txs, script, 0, db)
  {
    NothingIngested(db, txs[..0]);
  }

  lemma IngestedHolds<T>(txs: seq<Tx<T>>, v: nat, db: Db<T>, n: nat)
    requires v <= |txs| && Ingested(db, txs[..v], n)
    ensures n <= |Events(txs)| && Holds(db.commitments, Events(txs)[..n])
  {
    EventsPrefix(txs, v);
    assert Events(txs)[..n] == Events(txs[..v])[..n];
  }

  /** A life of the poller. */
  method LiveOn<T(==)>(db: Db<T>, txs: seq<Tx<T>>, script: seq<Event<T>>, i: nat)
    requires Distinct(Signatures(txs)) && ScriptOk(script, |txs|) && i < |script| && script[i].Live?
    requires DbOk(txs, script, i, db)
    modifies db
    ensures DbOk(txs, script, i + 1, db)
  {
    var a := script[i].attempt;
    ShownGrows(script, i, i, |txs|);
    assert AttemptOk(a, |txs|);
    ghost var s := StandingBefore(txs, script, i);
    hide Distinct, Signatures, Ingested, AfterLife, Upserted, Events, Done, Holds;
    ghost var n;
    var crashed;
    crashed, n := RunAttempt(db, txs, a, ShownBefore(script, i), s.indexed);
    IngestedHolds(txs, a.visible(0), db, n);
  }

  lemma DbWaits<T>(txs: seq<Tx<T>>, script: seq<Event<T>>, i: nat, db: Db<T>)
    requires i < |script| && !script[i].Live? && DbOk(txs, script, i, db)
    ensures DbOk(txs, script, i + 1, db)
  {
  }

  /** The ordered rows of a denomination are the specified ones, numbered from 0. */
  lemma TableRows<T>(txs: seq<Tx<T>>, script: seq<Event<T>>, i: nat, db: Db<T>, d: nat, rows: seq<Row<T>>)
    requires i <= |script| && DbOk(txs, script, i, db) && SelectsRows(db.commitments, d, rows)
    ensures Contiguous(rows) && Values(rows) == RowsBefore(txs, script, i, d)
  {
    SelectedRowsAreIndexed(db.commitments, Events(txs)[..StandingBefore(txs, script, i).indexed], d, rows);
  }

  // ---------------------------------------------------------------------------
  // The queries of a request
  // ---------------------------------------------------------------------------

  /** What a waiting request has been told is so. */
  ghost predicate Informed<T>(txs: seq<Tx<T>>, script: seq<Event<T>>, i: nat, request: nat, w: Waiting<T>)
    requires i <= |script|
  {
    && request < i && script[request].Arrive? && Stage(w) == Granted(script, request, i)
    && w.denomId == script[request].denomId && w.commitment == script[request].commitment
    && w.count == |RowsBefore(txs, script, request, w.denomId)|
    && (w.Located? ==> w.target < |RowsBefore(txs, script, i, w.denomId)|
                       && RowsBefore(txs, script, i, w.denomId)[w.target] == w.commitment)
    && (w.Collected? ==>
          && w.readAt < i && Queries(script, request, w.readAt, 1)
          && Contiguous(w.rows) && Values(w.rows) == RowsBefore(txs, script, w.readAt, w.denomId)
          && w.target < |w.rows| && w.rows[w.target].value == w.commitment)
  }

  /** It stays so while other things happen. */
  lemma StaysInformed<T>(txs: seq<Tx<T>>, script: seq<Event<T>>, i: nat, request: nat, w: Waiting<T>)
    requires i < |script| && Informed(txs, script, i, request, w) && !IsNext(script[i], request, Stage(w))
    ensures Informed(txs, script, i + 1, request, w)
  {
    hide RowsBefore, IsNext, Queries, Contiguous, Values;
    RowsBeforeGrow(txs, script, i, i + 1, w.denomId);
  }

  /** Counts the leaves and consults the cache: the request is answered from it or starts to wait. */
  method Begin<T(==)>(route: Route<T>, db: Db<T>, script: seq<Event<T>>, i: nat, ghost txs: seq<Tx<T>>,
                      ghost replies: seq<Reply<T>>)
    returns (reply: Option<Reply<T>>, w: Waiting<T>)
    requires i < |script| && script[i].Arrive? && DbOk(txs, script, i, db)
    requires AllRight(route.hs, route.depth, txs, script, replies)
    requires route.proofCache == CacheBefore(script, replies, i)
    ensures Informed(txs, script, i + 1, i, w)
    ensures reply.Some? <==> Servable(txs, script, replies, i)
    ensures reply.Some? ==>
              && reply.value.request == reply.value.sent == i && UsesCache(txs, script, replies, reply.value)
              && RightReply(route.hs, route.depth, txs, script, reply.value)
  {
    var d, commitment := script[i].denomId, script[i].commitment;
    var rows := SelectRows(db, d);
    var count := |rows|;
    TableRows(txs, script, i, db, d, rows);
    hide DbOk, RowsBefore, AllRight, CacheBefore;
    w := Counted(d, commitment, count);
    var hit := route.Lookup(d, commitment, count, script[i].now);
    if hit.Some? {
      ServableIsRight(route.hs, route.depth, txs, script, replies, i);
      return Some(Reply(i, d, commitment, count, i, i, Hit(hit.value))), w;
    }
    return None, w;
  }

  /** Looks the commitment up. */
  method Locate<T(==)>(db: Db<T>, script: seq<Event<T>>, i: nat, request: nat, w: Waiting<T>, ghost hs: Hasher<T>,
                       ghost depth: nat, ghost txs: seq<Tx<T>>)
    returns (reply: Option<Reply<T>>, w': Waiting<T>)
    requires i < |script| && script[i] == Find(request) && DbOk(txs, script, i, db)
    requires w.Counted? && Informed(txs, script, i, request, w)
    ensures reply.Some? ==>
              && reply.value.request == request && reply.value.sent == i && !reply.value.response.Hit?
              && !reply.value.response.Miss? && RightReply(hs, depth, txs, script, reply.value)
    ensures reply.None? ==> Informed(txs, script, i + 1, request, w')
  {
    var target := FindCommitment(db, w.denomId, w.commitment);
    FoundAmongRows(txs, script, i, db, w.denomId, w.commitment, target);
    RowsBeforeGrow(txs, script, i, i + 1, w.denomId);
    hide DbOk, RowsBefore;
    if target.None? {
      return Some(Reply(request, w.denomId, w.commitment, w.count, i, i, CommitmentNotFound)), w;
    }
    return None, Located(w.denomId, w.commitment, w.count, target.value);
  }

  lemma FoundAmongRows<T>(txs: seq<Tx<T>>, script: seq<Event<T>>, i: nat, db: Db<T>, d: nat, commitment: T,
                          target: Option<nat>)
    requires i <= |script| && DbOk(txs, script, i, db)
    requires target.Some? ==> (d, target.value) in db.commitments && db.commitments[(d, target.value)] == commitment
    requires target.None? ==> forall k: nat :: (d, k) in db.commitments ==> db.commitments[(d, k)] != commitment
    ensures target.Some? ==>
              && target.value < |RowsBefore(txs, script, i, d)|
              && RowsBefore(txs, script, i, d)[target.value] == commitment
    ensures target.None? ==> commitment !in RowsBefore(txs, script, i, d)
  {
    var rows := RowsBefore(txs, script, i, d);
    forall k | 0 <= k < |rows| ensures (d, k) in db.commitments && db.commitments[(d, k)] == rows[k] {
    }
  }

  /** Reads all leaves. */
  method Collect<T(==)>(db: Db<T>, script: seq<Event<T>>, i: nat, request: nat, w: Waiting<T>, ghost txs: seq<Tx<T>>)
    returns (w': Waiting<T>)
    requires i < |script| && script[i] == ReadRows(request) && DbOk(txs, script, i, db)
    requires w.Located? && Informed(txs, script, i, request, w)
    ensures Informed(txs, script, i + 1, request, w')
  {
    var rows := SelectRows(db, w.denomId);
    TableRows(txs, script, i, db, w.denomId, rows);
    hide DbOk, RowsBefore;
    w' := Collected(w.denomId, w.commitment, w.count, w.target, rows, i);
    assert Values(rows)[w.target] == rows[w.target].value;
  }

  lemma StoredRoots<T>(txs: seq<Tx<T>>, script: seq<Event<T>>, i: nat, db: Db<T>)
    requires i <= |script| && DbOk(txs, script, i, db)
    ensures db.roots == RootsBefore(script, i)
  {
  }

  /** What the route makes of the rows it was given is the right answer. */
  lemma RebuiltIsRight<T>(hs: Hasher<T>, depth: nat, txs: seq<Tx<T>>, script: seq<Event<T>>, request: nat,
                          w: Waiting<T>, root: Option<T>, reply: Reply<T>)
    requires reply.sent < |script| && script[reply.sent].Answer? && script[reply.sent].request == request
    requires w.Collected? && Informed(txs, script, reply.sent, request, w)
    requires reply == Reply(request, w.denomId, w.commitment, w.count, w.readAt, reply.sent, reply.response)
    requires var size, roots := (w.denomId, |w.rows|), RootsBefore(script, reply.sent);
             root == if size in roots then Some(roots[size]) else None
    requires var r, rows := reply.response, w.rows;
             && (r.IngestGap? <==> !Contiguous(rows)) && !r.Hit? && !r.CommitmentNotFound?
             && (r.Miss? ==> r.body.leafIndex == w.target < |rows|
                             && Rebuilt(hs, depth, w.denomId, Values(rows), rows[w.target].value, r.body))
             && (Contiguous(rows) && w.target < |rows| ==>
                   if root.None? || root.value == Root(hs, depth, Values(rows)) then r.Miss? else r == RootMismatch)
    ensures RightReply(hs, depth, txs, script, reply)
    ensures reply.response.Miss? ==> reply.response.body.leafCount == |w.rows|
  {
    hide RowsBefore, RootsBefore, IsProof, Contiguous, Root;
    if w.target < |w.rows| {
      assert Values(w.rows)[w.target] == w.commitment;
    }
  }

  /** Rebuilds, cross-checks the root stored for that size, caches and answers. */
  method Conclude<T(==)>(route: Route<T>, db: Db<T>, script: seq<Event<T>>, i: nat, request: nat, w: Waiting<T>,
                         ghost txs: seq<Tx<T>>, ghost replies: seq<Reply<T>>)
    returns (reply: Reply<T>)
    requires i < |script| && script[i].Answer? && script[i].request == request && DbOk(txs, script, i, db)
    requires w.Collected? && Informed(txs, script, i, request, w)
    requires route.proofCache == CacheBefore(script, replies, i) && SentBefore(replies, i)
    modifies route`proofCache
    ensures reply.request == request && reply.sent == i && !reply.response.Hit?
    ensures RightReply(route.hs, route.depth, txs, script, reply)
    ensures route.proofCache == CacheBefore(script, replies + [reply], i + 1)
  {
    hide DbOk, RowsBefore, RootsBefore, CacheBefore, Informed, RightReply, Rebuilt, Contiguous, Values, Root,
         SentBefore;
    StoredRoots(txs, script, i, db);
    var rows, size := w.rows, (w.denomId, |w.rows|);
    var root := if size in db.roots then Some(db.roots[size]) else None;
    var r := route.Finish(w.denomId, w.commitment, w.target, rows, root, script[i].later);
    reply := Reply(request, w.denomId, w.commitment, w.count, w.readAt, i, r);
    RebuiltIsRight(route.hs, route.depth, txs, script, request, w, root, reply);
    CacheIsCurrent(script, replies, i, i + 1);
    CacheAppend(script, replies, reply, i + 1);
  }

  // ---------------------------------------------------------------------------
  // Whole runs
  // ---------------------------------------------------------------------------

  ghost predicate QueueOk<T>(txs: seq<Tx<T>>, script: seq<Event<T>>, i: nat, queue: map<nat, Waiting<T>>)
    requires i <= |script|
  {
    forall id {:trigger queue[id]} {:trigger id in queue} :: id in queue ==> Informed(txs, script, i, id, queue[id])
  }

  lemma QueueWaits<T>(txs: seq<Tx<T>>, script: seq<Event<T>>, i: nat, queue: map<nat, Waiting<T>>,
                      rest: map<nat, Waiting<T>>)
    requires i < |script| && QueueOk(txs, script, i, queue)
    requires forall id {:trigger rest[id]} {:trigger id in rest} :: id in rest ==>
        id in queue && rest[id] == queue[id] && !IsNext(script[i], id, Stage(queue[id]))
    ensures QueueOk(txs, script, i + 1, rest)
  {
    hide Informed, IsNext;
    forall id | id in rest ensures Informed(txs, script, i + 1, id, rest[id]) {
      StaysInformed(txs, script, i, id, queue[id]);
    }
  }

  lemma QueueHas<T>(txs: seq<Tx<T>>, script: seq<Event<T>>, i: nat, queue: map<nat, Waiting<T>>, id: nat)
    requires i <= |script| && QueueOk(txs, script, i, queue)
    ensures id in queue ==> Informed(txs, script, i, id, queue[id]) && id < i
  {
  }

  lemma QueueAdds<T>(txs: seq<Tx<T>>, script: seq<Event<T>>, i: nat, rest: map<nat, Waiting<T>>, id: nat, w: Waiting<T>)
    requires i <= |script| && QueueOk(txs, script, i, rest) && Informed(txs, script, i, id, w)
    ensures QueueOk(txs, script, i, rest[id := w])
  {
  }

  /** None of the waiting requests could have been answered from the cache. */
  ghost predicate Unserved<T>(txs: seq<Tx<T>>, script: seq<Event<T>>, replies: seq<Reply<T>>, waiting: set<nat>) {
    forall id {:trigger id in waiting} :: id in waiting ==>
      id < |script| && script[id].Arrive? && !Servable(txs, script, replies, id)
  }

  /** Every request so far was answered, once, or waits. */
  ghost predicate Accounted<T>(script: seq<Event<T>>, i: nat, waiting: set<nat>, replies: seq<Reply<T>>)
    requires i <= |script|
  {
    && (forall a {:trigger script[a]} :: 0 <= a < i && script[a].Arrive? ==> a in waiting || Replied(replies, a))
    && (forall k {:trigger replies[k]} :: 0 <= k < |replies| ==>
          replies[k].sent < i && replies[k].request < i && replies[k].request !in waiting)
    && (forall k, l {:trigger replies[k], replies[l]} ::
          0 <= k < l < |replies| ==> replies[k].request != replies[l].request)
  }

  function Extended<T>(replies: seq<Reply<T>>, reply: Option<Reply<T>>): seq<Reply<T>> {
    if reply.Some? then replies + [reply.value] else replies
  }

  function Answered<T>(reply: Option<Reply<T>>): set<nat> {
    if reply.Some? then {reply.value.request} else {}
  }

  function Arrived<T>(e: Event<T>, i: nat): set<nat> {
    if e.Arrive? then {i} else {}
  }

  /** What event i does: whoever waited or arrives now waits or is answered, rightly. */
  ghost predicate Turn<T>(hs: Hasher<T>, depth: nat, txs: seq<Tx<T>>, script: seq<Event<T>>, i: nat,
                          replies: seq<Reply<T>>, waiting: set<nat>, waiting': set<nat>, reply: Option<Reply<T>>)
    requires i < |script|
  {
    && waiting + Arrived(script[i], i) == waiting' + Answered(reply) && Answered(reply) !! waiting'
    && (script[i].Arrive? && i in waiting' ==> !Servable(txs, script, replies, i))
    && (reply.Some? ==>
          && reply.value.sent == i && RightReply(hs, depth, txs, script, reply.value)
          && UsesCache(txs, script, replies, reply.value))
  }

  /** One event of a request: it may be answered, and otherwise waits with what it has been told. */
  method Serve<T(==)>(route: Route<T>, db: Db<T>, queue: map<nat, Waiting<T>>, script: seq<Event<T>>, i: nat,
                      ghost txs: seq<Tx<T>>, ghost replies: seq<Reply<T>>)
    returns (queue': map<nat, Waiting<T>>, reply: Option<Reply<T>>)
    requires i < |script| && !script[i].Live? && DbOk(txs, script, i, db) && QueueOk(txs, script, i, queue)
    requires AllRight(route.hs, route.depth, txs, script, replies) && SentBefore(replies, i)
    requires Unserved(txs, script, replies, queue.Keys) && route.proofCache == CacheBefore(script, replies, i)
    modifies route`proofCache
    ensures QueueOk(txs, script, i + 1, queue')
    ensures route.proofCache == CacheBefore(script, Extended(replies, reply), i + 1)
    ensures Turn(route.hs, route.depth, txs, script, i, replies, queue.Keys, queue'.Keys, reply)
  {
    hide DbOk, CacheBefore, QueueOk, Informed, RightReply, AllRight, SentBefore, Servable, StandingBefore, RowsBefore;
    reply, queue' := None, queue;
    var e := script[i];
    CacheIsCurrent(script, replies, i, i + 1);
    QueueHas(txs, script, i, queue, i);
    if e.Arrive? {
      var w;
      reply, w := Begin(route, db, script, i, txs, replies);
      QueueWaits(txs, script, i, queue, queue);
      if reply.None? {
        QueueAdds(txs, script, i + 1, queue, i, w);
        queue' := queue[i := w];
      } else {
        CacheAppend(script, replies, reply.value, i + 1);
      }
      return;
    }
    if e.request !in queue || !IsNext(e, e.request, Stage(queue[e.request])) {
      QueueWaits(txs, script, i, queue, queue);
      return;
    }
    var id, w := e.request, queue[e.request];
    QueueHas(txs, script, i, queue, id);
    QueueWaits(txs, script, i, queue, queue - {id});
    assert queue[id := w] == queue;
    queue' := queue - {id};
    if e.Find? {
      reply, w := Locate(db, script, i, id, w, route.hs, route.depth, txs);
    } else if e.ReadRows? {
      w := Collect(db, script, i, id, w, txs);
    } else {
      var answer := Conclude(route, db, script, i, id, w, txs, replies);
      reply := Some(answer);
    }
    if reply.None? {
      QueueAdds(txs, script, i + 1, queue', id, w);
      queue' := queue'[id := w];
    } else if e.Find? {
      CacheAppend(script, replies, reply.value, i + 1);
    }
  }

  /** An answer sent now does not change what the cache could serve before. */
  lemma CacheSettles<T>(txs: seq<Tx<T>>, script: seq<Event<T>>, replies: seq<Reply<T>>, reply: Option<Reply<T>>, a: nat)
    requires a < |script| && script[a].Arrive? && (reply.Some? ==> a <= reply.value.sent)
    ensures CacheBefore(script, Extended(replies, reply), a) == CacheBefore(script, replies, a)
    ensures Servable(txs, script, Extended(replies, reply), a) <==> Servable(txs, script, replies, a)
  {
    if reply.Some? {
      CacheAppend(script, replies, reply.value, a);
    }
  }

  lemma UnservedStill<T>(txs: seq<Tx<T>>, script: seq<Event<T>>, i: nat, replies: seq<Reply<T>>,
                         reply: Option<Reply<T>>, waiting: set<nat>, waiting': set<nat>)
    requires i < |script| && Unserved(txs, script, replies, waiting) && (reply.Some? ==> reply.value.sent == i)
    requires forall id {:trigger id in waiting} :: id in waiting ==> id < i
    requires waiting' <= waiting + Arrived(script[i], i)
    requires script[i].Arrive? && i in waiting' ==> !Servable(txs, script, replies, i)
    ensures Unserved(txs, script, Extended(replies, reply), waiting')
  {
    hide Servable, Extended;
    forall id | id in waiting'
      ensures id < |script| && script[id].Arrive? && !Servable(txs, script, Extended(replies, reply), id)
    {
      assert id in waiting + Arrived(script[i], i);
      assert id in waiting || (id == i && script[i].Arrive?);
      CacheSettles(txs, script, replies, reply, id);
    }
  }

  lemma CacheStillUsed<T>(txs: seq<Tx<T>>, script: seq<Event<T>>, i: nat, replies: seq<Reply<T>>,
                          reply: Option<Reply<T>>)
    requires i < |script| && CacheIsUsed(txs, script, replies) && (reply.Some? ==> reply.value.sent == i)
    requires forall k {:trigger replies[k]} :: 0 <= k < |replies| ==> replies[k].request < i
    requires reply.Some? ==> reply.value.request <= i && UsesCache(txs, script, replies, reply.value)
    ensures CacheIsUsed(txs, script, Extended(replies, reply))
  {
    var more := Extended(replies, reply);
    hide Servable, CacheBefore;
    forall k | 0 <= k < |more| ensures UsesCache(txs, script, more, more[k]) {
      assert k < |replies| ==> more[k] == replies[k] && UsesCache(txs, script, replies, replies[k]);
      CacheSettles(txs, script, replies, reply, more[k].request);
    }
  }

  lemma AddReply<T>(hs: Hasher<T>, depth: nat, txs: seq<Tx<T>>, script: seq<Event<T>>, replies: seq<Reply<T>>,
                    reply: Option<Reply<T>>)
    requires AllRight(hs, depth, txs, script, replies)
    requires reply.Some? ==> RightReply(hs, depth, txs, script, reply.value)
    ensures AllRight(hs, depth, txs, script, Extended(replies, reply))
  {
  }

  lemma RepliedStays<T>(replies: seq<Reply<T>>, reply: Option<Reply<T>>, request: nat)
    ensures Replied(replies, request) || request in Answered(reply) ==> Replied(Extended(replies, reply), request)
  {
    var more := Extended(replies, reply);
    if Replied(replies, request) {
      var k :| 0 <= k < |replies| && replies[k].request == request;
      assert more[k] == replies[k];
    } else if reply.Some? {
      assert more[|replies|] == reply.value;
    }
  }

  lemma AccountedOn<T>(script: seq<Event<T>>, i: nat, replies: seq<Reply<T>>, reply: Option<Reply<T>>,
                       waiting: set<nat>, waiting': set<nat>)
    requires i < |script| && Accounted(script, i, waiting, replies)
    requires forall id {:trigger id in waiting} :: id in waiting ==> id < i
    requires waiting + Arrived(script[i], i) == waiting' + Answered(reply) && Answered(reply) !! waiting'
    requires reply.Some? ==> reply.value.sent == i
    ensures Accounted(script, i + 1, waiting', Extended(replies, reply))
  {
    forall a {:trigger script[a]} | 0 <= a < i + 1 && script[a].Arrive?
      ensures a in waiting' || Replied(Extended(replies, reply), a)
    {
      RepliedStays(replies, reply, a);
      assert a == i ==> a in waiting + Arrived(script[i], i);
      assert a in waiting ==> a in waiting' + Answered(reply);
    }
    hide Replied;
    assert reply.Some? ==> reply.value.request in waiting + Arrived(script[i], i);
    forall id | id in waiting' ensures id in waiting || id == i {
      assert id in waiting + Arrived(script[i], i);
    }
  }

  /** The state of the service before event i of the script, and what it has answered. */
  ghost predicate ServiceOk<T>(txs: seq<Tx<T>>, script: seq<Event<T>>, i: nat, db: Db<T>, route: Route<T>,
                               queue: map<nat, Waiting<T>>, replies: seq<Reply<T>>)
    requires i <= |script|
    reads db, route
  {
    && DbOk(txs, script, i, db) && QueueOk(txs, script, i, queue)
    && route.proofCache == CacheBefore(script, replies, i)
    && Unserved(txs, script, replies, queue.Keys) && Accounted(script, i, queue.Keys, replies)
    && AllRight(route.hs, route.depth, txs, script, replies) && CacheIsUsed(txs, script, replies)
  }

  lemma TurnKeeps<T>(hs: Hasher<T>, depth: nat, txs: seq<Tx<T>>, script: seq<Event<T>>, i: nat,
                     replies: seq<Reply<T>>, waiting: set<nat>, waiting': set<nat>, reply: Option<Reply<T>>)
    requires i < |script| && Turn(hs, depth, txs, script, i, replies, waiting, waiting', reply)
    requires Unserved(txs, script, replies, waiting) && Accounted(script, i, waiting, replies)
    requires AllRight(hs, depth, txs, script, replies) && CacheIsUsed(txs, script, replies)
    requires forall id {:trigger id in waiting} :: id in waiting ==> id < i
    ensures var more := Extended(replies, reply);
            && Unserved(txs, script, more, waiting') && Accounted(script, i + 1, waiting', more)
            && AllRight(hs, depth, txs, script, more) && CacheIsUsed(txs, script, more)
  {
    forall id | id in waiting' ensures id in waiting + Arrived(script[i], i) {
      assert id in waiting' + Answered(reply);
    }
    assert forall k {:trigger replies[k]} :: 0 <= k < |replies| ==> replies[k].request < i;
    hide Unserved, Accounted, AllRight, CacheIsUsed, UsesCache, Servable, Extended;
    AddReply(hs, depth, txs, script, replies, reply);
    UnservedStill(txs, script, i, replies, reply, waiting, waiting');
    AccountedOn(script, i, replies, reply, waiting, waiting');
    hide RightReply;
    assert reply.Some? ==> reply.value.request in waiting + Arrived(script[i], i);
    CacheStillUsed(txs, script, i, replies, reply);
  }

  lemma IdleTurn<T>(hs: Hasher<T>, depth: nat, txs: seq<Tx<T>>, script: seq<Event<T>>, i: nat,
                    replies: seq<Reply<T>>, queue: map<nat, Waiting<T>>)
    requires i < |script| && script[i].Live? && QueueOk(txs, script, i, queue)
    ensures Turn(hs, depth, txs, script, i, replies, queue.Keys, queue.Keys, None)
    ensures Extended(replies, None) == replies && QueueOk(txs, script, i + 1, queue)
  {
    QueueWaits(txs, script, i, queue, queue);
  }

  lemma WaitingArrived<T>(txs: seq<Tx<T>>, script: seq<Event<T>>, i: nat, queue: map<nat, Waiting<T>>)
    requires i <= |script| && QueueOk(txs, script, i, queue)
    ensures forall id {:trigger id in queue.Keys} :: id in queue.Keys ==> id < i
  {
  }

  lemma AllSent<T>(script: seq<Event<T>>, i: nat, waiting: set<nat>, replies: seq<Reply<T>>)
    requires i <= |script| && Accounted(script, i, waiting, replies)
    ensures SentBefore(replies, i)
  {
  }

  method OneEvent<T(==)>(db: Db<T>, route: Route<T>, queue: map<nat, Waiting<T>>, txs: seq<Tx<T>>,
                         script: seq<Event<T>>, i: nat, ghost replies: seq<Reply<T>>)
    returns (queue': map<nat, Waiting<T>>, reply: Option<Reply<T>>)
    requires i < |script| && Distinct(Signatures(txs)) && ScriptOk(script, |txs|)
    requires ServiceOk(txs, script, i, db, route, queue, replies)
    modifies db, route`proofCache
    ensures ServiceOk(txs, script, i + 1, db, route, queue', Extended(replies, reply))
  {
    hide DbOk, CacheBefore, QueueOk, AllRight, Distinct, Signatures, ScriptOk, Accounted, Unserved, CacheIsUsed, Turn,
         SentBefore, IsNext, Extended;
    AllSent(script, i, queue.Keys, replies);
    WaitingArrived(txs, script, i, queue);
    if script[i].Live? {
      CacheIsCurrent(script, replies, i, i + 1);
      IdleTurn(route.hs, route.depth, txs, script, i, replies, queue);
      LiveOn(db, txs, script, i);
      queue', reply := queue, None;
    } else {
      DbWaits(txs, script, i, db);
      queue', reply := Serve(route, db, queue, script, i, txs, replies);
    }
    TurnKeeps(route.hs, route.depth, txs, script, i, replies, queue.Keys, queue'.Keys, reply);
  }

  lemma ServiceStarts<T>(txs: seq<Tx<T>>, script: seq<Event<T>>, db: Db<T>, route: Route<T>,
                         queue: map<nat, Waiting<T>>, replies: seq<Reply<T>>)
    requires db.commitments == map[] && db.roots == map[] && db.lastSignature.None?
    requires route.proofCache == map[] && queue == map[] && replies == []
    ensures ServiceOk(txs, script, 0, db, route, queue, replies)
  {
    StartsOk(txs, script, db);
    hide DbOk;
  }

  /**
   Any script of poller lives and requests, from an empty database and an empty cache: a request
   that is granted its three further queries is answered once, if not before, every answer is
   right about the table, and the cache answers whenever it may.
   */
  method RunService<T(==)>(hs: Hasher<T>, depth: nat, txs: seq<Tx<T>>, script: seq<Event<T>>)
      returns (replies: seq<Reply<T>>)
    requires Distinct(Signatures(txs)) && ScriptOk(script, |txs|)
    ensures AllRight(hs, depth, txs, script, replies)
    ensures CacheIsUsed(txs, script, replies)
    ensures AllAnswered(script, replies)
  {
    var db := new Db<T>();
    var route := new Route<T>(hs, depth);
    var queue: map<nat, Waiting<T>> := map[];
    replies := [];
    hide *;
    ServiceStarts(txs, script, db, route, queue, replies);
    for i := 0 to |script|
      invariant fresh(db) && fresh(route) && route.hs == hs && route.depth == depth
      invariant ServiceOk(txs, script, i, db, route, queue, replies)
    {
      var reply;
      queue, reply := OneEvent(db, route, queue, txs, script, i, replies);
      replies := Extended(replies, reply);
    }
    AtLast(txs, script, db, route, queue, replies);
  }

  lemma AtLast<T>(txs: seq<Tx<T>>, script: seq<Event<T>>, db: Db<T>, route: Route<T>, queue: map<nat, Waiting<T>>,
                  replies: seq<Reply<T>>)
    requires ServiceOk(txs, script, |script|, db, route, queue, replies)
    ensures AllRight(route.hs, route.depth, txs, script, replies)
    ensures CacheIsUsed(txs, script, replies) && AllAnswered(script, replies)
  {
    hide Replied, AllRight, CacheIsUsed, DbOk, Unserved;
    forall a | 0 <= a < |script| && script[a].Arrive? && Granted(script, a, |script|) == 3 ensures Replied(replies, a) {
      QueueHas(txs, script, |script|, queue, a);
    }
  }

  // ---------------------------------------------------------------------------
  // The answers and the chain
  // ---------------------------------------------------------------------------

  /** The row is the root the chain's tree had at that leaf count. */
  ghost predicate TrueRow<T>(hs: Hasher<T>, depth: nat, txs: seq<Tx<T>>, row: TreeRow<T>) {
    var leaves := ChainLeaves(txs, row.denomId);
    1 <= row.leafCount <= |leaves| ==> row.latestRoot == RootAt(hs, depth, leaves, row.leafCount)
  }

  /** The tree accounts the poller was shown held true roots. */
  ghost predicate ShownTrueRoots<T>(hs: Hasher<T>, depth: nat, txs: seq<Tx<T>>, script: seq<Event<T>>) {
    forall i, row :: 0 <= i < |script| && script[i].Live? && row in script[i].attempt.rows ==>
        TrueRow(hs, depth, txs, row)
  }

  lemma {:induction false} StoredRootsAreTrue<T>(hs: Hasher<T>, depth: nat, txs: seq<Tx<T>>, script: seq<Event<T>>,
                                                 i: nat, k: (nat, nat))
    requires i <= |script| && ShownTrueRoots(hs, depth, txs, script) && k in RootsBefore(script, i)
    ensures TrueRow(hs, depth, txs, TreeRow(k.0, k.1, RootsBefore(script, i)[k]))
  {
    hide TrueRow, Upserted;
    if script[i - 1].Live? {
      var a := script[i - 1].attempt;
      var rows := a.rows[..Min(|a.rows|, a.fuel)];
      assert forall row :: row in rows ==> row in a.rows;
      UpsertedFrom(RootsBefore(script, i - 1), rows, k);
    }
    if k in RootsBefore(script, i - 1) {
      StoredRootsAreTrue(hs, depth, txs, script, i - 1, k);
    }
  }

  function BodyOf<T>(r: Response<T>): Option<Body<T>> {
    match r
    case Hit(body) => Some(body)
    case Miss(body) => Some(body)
    case _ => None
  }

  /** The rows the answer shows are the chain's first leaves. */
  ghost predicate ShowsLeaves<T>(txs: seq<Tx<T>>, script: seq<Event<T>>, r: Reply<T>) {
    r.shows <= |script| && RowsBefore(txs, script, r.shows, r.denomId) <= ChainLeaves(txs, r.denomId)
  }

  /** The tree accounts that the life at event l got to store. */
  function StoredRows<T>(script: seq<Event<T>>, l: nat): seq<TreeRow<T>>
    requires l < |script|
  {
    if script[l].Live? then script[l].attempt.rows[..Min(|script[l].attempt.rows|, script[l].attempt.fuel)] else []
  }

  /** The last life before event i that stored a root for this leaf count is the one at event l. */
  ghost predicate LastStoredBy<T>(script: seq<Event<T>>, i: nat, k: (nat, nat), l: nat)
    requires i <= |script|
  {
    && l < i && Mentions(StoredRows(script, l), k)
    && forall m {:trigger StoredRows(script, m)} :: l < m < i ==> !Mentions(StoredRows(script, m), k)
  }

  lemma RootsStep<T>(script: seq<Event<T>>, i: nat)
    requires i < |script|
    ensures RootsStored(RootsBefore(script, i), RootsBefore(script, i + 1), StoredRows(script, i))
  {
    UpsertedStores(RootsBefore(script, i), StoredRows(script, i));
  }

  /** A root is stored for a leaf count exactly when some life was shown one and got to store it. */
  lemma {:induction false} RootIsStoredWhen<T>(script: seq<Event<T>>, i: nat, k: (nat, nat))
    requires i <= |script|
    ensures k in RootsBefore(script, i) <==>
              exists l {:trigger StoredRows(script, l)} :: 0 <= l < i && Mentions(StoredRows(script, l), k)
  {
    if i > 0 {
      RootIsStoredWhen(script, i - 1, k);
      RootsStep(script, i - 1);
      hide RootsBefore, StoredRows;
      if Mentions(StoredRows(script, i - 1), k) {
        LastRowExists(StoredRows(script, i - 1), k);
      }
    }
  }

  /** And it is the one that the last such life stored last. */
  lemma {:induction false} RootIsTheLastShown<T>(script: seq<Event<T>>, i: nat, l: nat, j: nat)
    requires l < i <= |script| && IsLastRow(StoredRows(script, l), j)
    requires LastStoredBy(script, i, RowKey(StoredRows(script, l)[j]), l)
    ensures var row := StoredRows(script, l)[j];
            RowKey(row) in RootsBefore(script, i) && RootsBefore(script, i)[RowKey(row)] == row.latestRoot
  {
    RootsStep(script, i - 1);
    hide RootsBefore, StoredRows;
    if l < i - 1 {
      RootIsTheLastShown(script, i - 1, l, j);
    }
  }

  lemma {:induction false} LastRowExists<T>(rows: seq<TreeRow<T>>, k: (nat, nat))
    requires Mentions(rows, k)
    ensures exists j: nat :: IsLastRow(rows, j) && RowKey(rows[j]) == k
  {
    var init := rows[..|rows| - 1];
    if RowKey(rows[|rows| - 1]) == k {
      assert IsLastRow(rows, |rows| - 1);
    } else {
      var i :| 0 <= i < |rows| && RowKey(rows[i]) == k;
      assert init[i] == rows[i];
      LastRowExists(init, k);
      var j: nat :| IsLastRow(init, j) && RowKey(init[j]) == k;
      assert forall m {:trigger rows[m]} :: j < m < |rows| - 1 ==> rows[m] == init[m];
      assert IsLastRow(rows, j);
    }
  }

  /** No false alarm: while the rows are the chain's leaves no root is found to differ. */
  lemma NoFalseAlarm<T>(hs: Hasher<T>, depth: nat, txs: seq<Tx<T>>, script: seq<Event<T>>, r: Reply<T>)
    requires RightReply(hs, depth, txs, script, r) && ShownTrueRoots(hs, depth, txs, script)
    requires ShowsLeaves(txs, script, r)
    ensures BodyOf(r.response).Some? || r.response.CommitmentNotFound?
  {
    hide RowsBefore, ChainLeaves, Rebuilt, RootsBefore, Queries;
    var rows := RowsBefore(txs, script, r.shows, r.denomId);
    assert ChainLeaves(txs, r.denomId)[..|rows|] == rows;
    if r.response.RootMismatch? {
      StoredRootsAreTrue(hs, depth, txs, script, r.sent, (r.denomId, |rows|));
    }
  }

  /** The part of the history the poller had been shown before event i is fully indexable. */
  ghost predicate ShownIndexable<T>(txs: seq<Tx<T>>, script: seq<Event<T>>, i: nat, d: nat) {
    i <= |script| && ShownBefore(script, i) <= |txs| && FullyIndexable(txs[..ShownBefore(script, i)], d)
  }

  lemma {:induction false} IndexedIsShown<T>(txs: seq<Tx<T>>, script: seq<Event<T>>, i: nat)
    requires i <= |script| && ScriptOk(script, |txs|)
    ensures ShownBefore(script, i) <= |txs|
    ensures StandingBefore(txs, script, i).indexed <= |Events(txs[..ShownBefore(script, i)])|
  {
    hide ScriptOk, AfterLife, Events;
    if i > 0 {
      IndexedIsShown(txs, script, i - 1);
      if script[i - 1].Live? {
        var a := script[i - 1].attempt;
        ShownGrows(script, i - 1, i - 1, |txs|);
        EventsGrow(txs, ShownBefore(script, i - 1), a.visible(0));
        LifeWithin(txs, a, StandingBefore(txs, script, i - 1));
      }
    }
  }

  lemma RowsAreLeaves<T>(txs: seq<Tx<T>>, script: seq<Event<T>>, i: nat, d: nat)
    requires ScriptOk(script, |txs|) && ShownIndexable(txs, script, i, d)
    ensures RowsBefore(txs, script, i, d) <= ChainLeaves(txs, d)
  {
    IndexedIsShown(txs, script, i);
    hide StandingBefore, ShownBefore, FullyIndexable, RowsAfter, ChainLeaves, ScriptOk;
    EventsPrefix(txs, ShownBefore(script, i));
    ShownRowsAreLeaves(txs, ShownBefore(script, i), d, StandingBefore(txs, script, i).indexed);
  }

  /** When the rows it shows are the chain's leaves, a body is a full rebuild on them. */
  lemma BodyIsTheChains<T>(hs: Hasher<T>, depth: nat, txs: seq<Tx<T>>, script: seq<Event<T>>, r: Reply<T>)
    requires RightReply(hs, depth, txs, script, r) && ShowsLeaves(txs, script, r) && BodyOf(r.response).Some?
    ensures var body, leaves := BodyOf(r.response).value, ChainLeaves(txs, r.denomId);
            && r.count <= body.leafCount <= |leaves|
            && Rebuilt(hs, depth, r.denomId, leaves[..body.leafCount], r.commitment, body)
  {
    RowsBeforeGrow(txs, script, r.request, r.shows, r.denomId);
    hide RowsBefore, ChainLeaves, IsProof, RootAgrees, Queries;
    var rows := RowsBefore(txs, script, r.shows, r.denomId);
    assert ChainLeaves(txs, r.denomId)[..|rows|] == rows;
  }

  /** What was shown being fully indexable, a request gets a body over the chain's leaves or "not found", no error. */
  lemma AnswersAreTheChains<T>(hs: Hasher<T>, depth: nat, txs: seq<Tx<T>>, script: seq<Event<T>>, r: Reply<T>)
    requires RightReply(hs, depth, txs, script, r) && ScriptOk(script, |txs|) && ShownTrueRoots(hs, depth, txs, script)
    requires ShownIndexable(txs, script, r.shows, r.denomId)
    ensures ShowsLeaves(txs, script, r) && (BodyOf(r.response).Some? || r.response.CommitmentNotFound?)
  {
    hide RowsBefore, ChainLeaves, ScriptOk, ShownTrueRoots, Rebuilt, RootAgrees, Queries;
    RowsAreLeaves(txs, script, r.shows, r.denomId);
    NoFalseAlarm(hs, depth, txs, script, r);
  }

  // ---------------------------------------------------------------------------
  // Freshness
  // ---------------------------------------------------------------------------

  /** The table holds everything the chain's transactions let the poller see. */
  predicate CaughtUp<T>(txs: seq<Tx<T>>, script: seq<Event<T>>, i: nat)
    requires i <= |script|
  {
    StandingBefore(txs, script, i).indexed == |Events(txs)|
  }

  lemma CaughtUpRows<T>(txs: seq<Tx<T>>, script: seq<Event<T>>, a: nat, i: nat, d: nat)
    requires a <= i <= |script| && CaughtUp(txs, script, a) && FullyIndexable(txs, d)
    ensures RowsBefore(txs, script, i, d) == ChainLeaves(txs, d)
  {
    hide StandingBefore, Events, Indexed, ChainAppends, OnChain, AllSeen, Observed, Distinct;
    StandingGrows(txs, script, a, i);
    assert Events(txs)[..|Events(txs)|] == Events(txs);
    EventsAreObserved(txs);
    IndexedIsChain(ChainAppends(txs), d);
  }

  /** Once the poller has caught up, whoever asks for a leaf of the chain gets a body over all of its leaves. */
  lemma CaughtUpIsServed<T>(hs: Hasher<T>, depth: nat, txs: seq<Tx<T>>, script: seq<Event<T>>, r: Reply<T>)
    requires RightReply(hs, depth, txs, script, r) && ShownTrueRoots(hs, depth, txs, script)
    requires CaughtUp(txs, script, r.request) && FullyIndexable(txs, r.denomId)
    requires r.commitment in ChainLeaves(txs, r.denomId)
    ensures BodyOf(r.response).Some? && BodyOf(r.response).value.leafCount == |ChainLeaves(txs, r.denomId)|
  {
    hide RowsBefore, ChainLeaves, FullyIndexable, CaughtUp, ShownTrueRoots, RootAgrees, Queries, IsProof;
    CaughtUpRows(txs, script, r.request, r.shows, r.denomId);
    NoFalseAlarm(hs, depth, txs, script, r);
  }

  /** How many lives before event i saw the whole chain and were long enough for any one of its transactions. */
  ghost function LongLivesBefore<T>(txs: seq<Tx<T>>, script: seq<Event<T>>, i: nat): nat
    requires i <= |script|
  {
    if i == 0 then 0
    else
      var before := LongLivesBefore(txs, script, i - 1);
      if script[i - 1].Live? && LongEnough(script[i - 1].attempt, txs) then before + 1 else before
  }

  /** A life that saw the whole chain and had steps enough for what was left of it. */
  ghost predicate RanToTheEnd<T>(txs: seq<Tx<T>>, script: seq<Event<T>>, l: nat)
    requires l < |script|
  {
    && script[l].Live? && script[l].attempt.visible(0) == |txs|
    && var a, done := script[l].attempt, StandingBefore(txs, script, l).done;
       done <= |txs| && |a.rows| + Steps(txs, done, |txs|) <= a.fuel
  }

  /** Everything the checkpoint covers is in the table. */
  lemma {:induction false} StandingCovers<T>(txs: seq<Tx<T>>, script: seq<Event<T>>, i: nat)
    requires i <= |script|
    ensures var s := StandingBefore(txs, script, i);
            s.done <= |txs| && |Events(txs[..s.done])| <= s.indexed
  {
    if i > 0 {
      StandingCovers(txs, script, i - 1);
      if script[i - 1].Live? {
        LifeCovers(txs, script[i - 1].attempt, StandingBefore(txs, script, i - 1));
      }
    }
  }

  lemma LifeCovers<T>(txs: seq<Tx<T>>, a: Attempt<T>, s: Standing)
    requires s.done <= |txs| && |Events(txs[..s.done])| <= s.indexed
    ensures var s' := AfterLife(txs, a, s);
            s'.done <= |txs| && |Events(txs[..s'.done])| <= s'.indexed
  {
    var v := Min(a.visible(0), |txs|);
    if a.fuel >= |a.rows| && s.done < v {
      hide Events;
      var s' := AfterBatch(txs[..v], s, a.fuel - |a.rows|);
      assert txs[..v][..s.done] == txs[..s.done];
      BatchStops(txs[..v], s, a.fuel - |a.rows|);
      assert txs[..v][..s'.done] == txs[..s'.done];
    }
  }

  lemma {:induction false} LongLivesAdvance<T>(txs: seq<Tx<T>>, script: seq<Event<T>>, i: nat)
    requires i <= |script|
    ensures StandingBefore(txs, script, i).done >= Min(|txs|, LongLivesBefore(txs, script, i))
  {
    if i > 0 {
      LongLivesAdvance(txs, script, i - 1);
      hide LongEnough, AfterLife;
      if script[i - 1].Live? && LongEnough(script[i - 1].attempt, txs) {
        LongLifeAdvances(txs, script[i - 1].attempt, StandingBefore(txs, script, i - 1));
      }
    }
  }

  lemma EndIsReached<T>(txs: seq<Tx<T>>, script: seq<Event<T>>, l: nat)
    requires l < |script| && RanToTheEnd(txs, script, l)
    ensures StandingBefore(txs, script, l + 1).done == |txs|
  {
    hide Events, AfterBatch;
    StandingCovers(txs, script, l);
    EventsGrow(txs, StandingBefore(txs, script, l).done, |txs|);
    assert txs[..|txs|] == txs;
    hide Steps;
    BatchEnds(txs, StandingBefore(txs, script, l), script[l].attempt.fuel - |script[l].attempt.rows|);
  }

  /**
   When the poller has caught up: after a life that saw the whole chain and was not cut short, and,
   if every life is cut short, after as many long enough ones as the chain has transactions.
   */
  lemma CaughtUpWhen<T>(txs: seq<Tx<T>>, script: seq<Event<T>>, i: nat)
    requires i <= |script|
    requires LongLivesBefore(txs, script, i) >= |txs| || exists l :: 0 <= l < i && RanToTheEnd(txs, script, l)
    ensures CaughtUp(txs, script, i)
  {
    hide RanToTheEnd, StandingBefore;
    LongLivesAdvance(txs, script, i);
    StandingCovers(txs, script, i);
    if l :| 0 <= l < i && RanToTheEnd(txs, script, l) {
      EndIsReached(txs, script, l);
      StandingGrows(txs, script, l + 1, i);
    }
    assert txs[..|txs|] == txs;
  }
}
