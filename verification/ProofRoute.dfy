/**
 The indexer API's merkle-proof route.  It counts the leaves and consults its cache, looks the
 commitment up, reads all leaves, rebuilds the path, and cross-checks the stored root.  Between
 these queries it waits: `Lookup` and `Finish` are the parts that touch the cache, and
 `ProofService` runs them for many requests at once.
 */
module ProofRoute {
  import opened Wrappers
  import opened MerkleSpec
  import opened Pagination
  import opened InclusionPath

  const PROOF_CACHE_TTL_MS: int := 10_000

  datatype Row<T> = Row(leafIndex: nat, value: T)

  datatype Body<T> = Body(denomId: nat, leafIndex: nat, leafCount: nat, proof: Proof<T>)

  datatype CachedProof<T> = CachedProof(leafCount: nat, expires: int, body: Body<T>)

  type Key<T> = (nat, T)

  datatype Response<T> =
    | Hit(body: Body<T>)
    | Miss(body: Body<T>)
    | CommitmentNotFound
    | IngestGap(at: nat)
    | RootMismatch
    | ServerError

  // ---------------------------------------------------------------------------
  // What is asked of the database and of the answer
  // ---------------------------------------------------------------------------

  function Values<T>(rows: seq<Row<T>>): seq<T> {
    seq(|rows|, i requires 0 <= i < |rows| => rows[i].value)
  }

  ghost predicate Contiguous<T>(rows: seq<Row<T>>) {
    forall i :: 0 <= i < |rows| ==> rows[i].leafIndex == i
  }

  /** What a full rebuild over `leaves` answers for a commitment: its position and its path. */
  ghost predicate Rebuilt<T>(hs: Hasher<T>, depth: nat, d: nat, leaves: seq<T>, commitment: T, body: Body<T>) {
    && body.denomId == d && body.leafCount == |leaves|
    && body.leafIndex < |leaves| && leaves[body.leafIndex] == commitment
    && IsProof(hs, depth, leaves, body.leafIndex, body.proof)
  }

  /** With distinct leaves there is one such answer. */
  lemma RebuiltIsUnique<T>(hs: Hasher<T>, depth: nat, d: nat, leaves: seq<T>, commitment: T, a: Body<T>, b: Body<T>)
    requires Distinct(leaves)
    requires Rebuilt(hs, depth, d, leaves, commitment, a) && Rebuilt(hs, depth, d, leaves, commitment, b)
    ensures a == b
  {
    assert a.leafIndex == b.leafIndex;
    ProofIsUnique(hs, depth, leaves, a.leafIndex, a.proof, b.proof);
  }

  // ---------------------------------------------------------------------------
  // The handler
  // ---------------------------------------------------------------------------

  class Route<T(==)> {
    const hs: Hasher<T>
    const depth: nat
    var proofCache: map<Key<T>, CachedProof<T>>

    constructor (hs: Hasher<T>, depth: nat)
      ensures this.hs == hs && this.depth == depth && proofCache == map[]
    {
      this.hs, this.depth, proofCache := hs, depth, map[];
    }

    /** The cached body, when it is tagged with the count just read and has not expired. */
    method Lookup(d: nat, commitment: T, count: nat, now: int) returns (hit: Option<Body<T>>)
      ensures var key := (d, commitment);
              hit == if key in proofCache && proofCache[key].leafCount == count && proofCache[key].expires > now
                     then Some(proofCache[key].body) else None
    {
      var key := (d, commitment);
      if key in proofCache {
        var cached := proofCache[key];
        if cached.leafCount == count && cached.expires > now {
          return Some(cached.body);
        }
      }
      return None;
    }

    /** Rebuilds the answer from the rows, refusing gaps and a root the chain does not confirm. */
    method Rebuild(d: nat, target: nat, rows: seq<Row<T>>, root: Option<T>) returns (r: Response<T>)
      ensures r.IngestGap? <==> !Contiguous(rows)
      ensures r.Miss? ==>
                && r.body.leafIndex == target < |rows|
                && Rebuilt(hs, depth, d, Values(rows), rows[target].value, r.body)
      ensures Contiguous(rows) && target < |rows| ==>
                if root.None? || root.value == Root(hs, depth, Values(rows)) then r.Miss? else r == RootMismatch
      ensures !r.Hit? && !r.CommitmentNotFound?
    {
      for i := 0 to |rows|
        invariant forall j :: 0 <= j < i ==> rows[j].leafIndex == j
      {
        if rows[i].leafIndex != i {
          return IngestGap(i);
        }
      }
      var leaves := Values(rows);
      var path := BuildInclusionPath(hs, depth, leaves, target);
      if path.Err? {
        return ServerError;
      }
      if root.Some? && root.value != path.value.root {
        return RootMismatch;
      }
      return Miss(Body(d, target, |leaves|, path.value));
    }

    /** Answers a request whose queries are done, and caches the body under the size it was built from. */
    method Finish(d: nat, commitment: T, target: nat, rows: seq<Row<T>>, root: Option<T>, later: int)
        returns (r: Response<T>)
      modifies this`proofCache
      ensures r.IngestGap? <==> !Contiguous(rows)
      ensures r.Miss? ==>
                && r.body.leafIndex == target < |rows|
                && Rebuilt(hs, depth, d, Values(rows), rows[target].value, r.body)
      ensures Contiguous(rows) && target < |rows| ==>
                if root.None? || root.value == Root(hs, depth, Values(rows)) then r.Miss? else r == RootMismatch
      ensures !r.Hit? && !r.CommitmentNotFound?
      ensures proofCache == if !r.Miss? then old(proofCache)
                            else
                              var entry := CachedProof(|rows|, later + PROOF_CACHE_TTL_MS, r.body);
                              old(proofCache)[(d, commitment) := entry]
    {
      r := Rebuild(d, target, rows, root);
      if r.Miss? {
        proofCache := proofCache[(d, commitment) := CachedProof(r.body.leafCount, later + PROOF_CACHE_TTL_MS, r.body)];
      }
    }
  }
}
