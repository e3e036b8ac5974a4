/**
 The bytes of the two instructions that append leaves: how the SDK writes them, how the
 program's entry point reads them, and which bytes the poller takes for the leaf.
 */
module IxCodec {
  import opened Wrappers

  const WORD: nat := 32
  const PROOF_BYTES: nat := 256
  const SIGNAL_COUNT: nat := 6
  const DEPOSIT_LENGTH: nat := 8 + 1 + 32
  const WITHDRAW_LENGTH: nat := 8 + 1 + 32 + 256 + 6 * 32
  const CHANGE_OFFSET: nat := 8 + 1 + 32 + 256 + 5 * 32

  type Bytes = seq<nat>

  /** The eight-byte method discriminators, as the hash of the method names gives them. */
  datatype Discs = Discs(deposit: Bytes, withdraw: Bytes)

  ghost predicate DiscsOk(discs: Discs) {
    |discs.deposit| == |discs.withdraw| == 8 && discs.deposit != discs.withdraw
  }

  datatype PoolIx =
    | DepositIx(denomId: nat, commitment: Bytes)
    | WithdrawIx(denomId: nat, nullifierHash: Bytes, proof: Bytes, signals: seq<Bytes>)

  // ---------------------------------------------------------------------------
  // The program's entry point
  // ---------------------------------------------------------------------------

  /** `count` consecutive 32-byte words. */
  function Words(data: Bytes, count: nat): (words: seq<Bytes>)
    requires |data| >= WORD * count
    ensures |words| == count
  {
    seq(count, i requires 0 <= i < count => data[WORD * i..WORD * i + WORD])
  }

  /** The arguments follow the discriminator without padding; bytes after them are ignored. */
  function Dispatch(discs: Discs, data: Bytes): Option<PoolIx> {
    if |data| < 8 then None
    else
      var args := data[8..];
      if data[..8] == discs.deposit then
        if |args| < 1 + WORD then None
        else Some(DepositIx(args[0], args[1..][..WORD]))
      else if data[..8] == discs.withdraw then
        if |args| < 1 + WORD + PROOF_BYTES + SIGNAL_COUNT * WORD then None
        else
          var rest := args[1..];
          var afterHash := rest[WORD..];
          Some(WithdrawIx(args[0], rest[..WORD], afterHash[..PROOF_BYTES],
                          Words(afterHash[PROOF_BYTES..], SIGNAL_COUNT)))
      else None
  }

  /** The leaf the program appends: a deposit's commitment, or a withdrawal's sixth public signal. */
  function LeafOf(ix: PoolIx): Option<(nat, Bytes)> {
    match ix
    case DepositIx(d, c) => Some((d, c))
    case WithdrawIx(d, _, _, signals) => if |signals| == SIGNAL_COUNT then Some((d, signals[5])) else None
  }

  // ---------------------------------------------------------------------------
  // The poller's parsers
  // ---------------------------------------------------------------------------

  function ParseDepositIx(discs: Discs, data: Bytes): Option<(nat, Bytes)> {
    if |data| < DEPOSIT_LENGTH then None
    else if data[..8] != discs.deposit then None
    else Some((data[8], data[9..9 + WORD]))
  }

  function ParseWithdrawIx(discs: Discs, data: Bytes): Option<(nat, Bytes)> {
    if |data| < WITHDRAW_LENGTH then None
    else if data[..8] != discs.withdraw then None
    else Some((data[8], data[CHANGE_OFFSET..CHANGE_OFFSET + WORD]))
  }

  /** The poller tries the deposit parser first. */
  function ParseLeaf(discs: Discs, data: Bytes): Option<(nat, Bytes)> {
    match ParseDepositIx(discs, data)
    case Some(leaf) => Some(leaf)
    case None => ParseWithdrawIx(discs, data)
  }

  /** On every byte string the poller reads the leaf the program would append, or none when it appends none. */
  lemma PollerReadsTheAppendedLeaf(discs: Discs, data: Bytes)
    requires DiscsOk(discs)
    ensures ParseLeaf(discs, data) == match Dispatch(discs, data) case None => None case Some(ix) => LeafOf(ix)
  {
    if |data| >= DEPOSIT_LENGTH && data[..8] == discs.deposit {
      assert data[8..][1..][..WORD] == data[9..9 + WORD];
    } else if |data| >= WITHDRAW_LENGTH && data[..8] == discs.withdraw {
      var signals := data[8..][1..][WORD..][PROOF_BYTES..];
      assert signals[WORD * 5..WORD * 5 + WORD] == data[CHANGE_OFFSET..CHANGE_OFFSET + WORD];
    }
  }

  // ---------------------------------------------------------------------------
  // The SDK's builders
  // ---------------------------------------------------------------------------

  function Join(words: seq<Bytes>): Bytes {
    if words == [] then [] else Join(words[..|words| - 1]) + words[|words| - 1]
  }

  ghost predicate AreWords(words: seq<Bytes>) {
    forall i :: 0 <= i < |words| ==> |words[i]| == WORD
  }

  lemma {:induction false} JoinWord(words: seq<Bytes>, i: nat)
    requires AreWords(words) && i < |words|
    ensures |Join(words)| == WORD * |words| && Join(words)[WORD * i..WORD * i + WORD] == words[i]
    decreases |words|
  {
    var init, last := words[..|words| - 1], words[|words| - 1];
    JoinLength(init);
    var joined := Join(init);
    assert Join(words) == joined + last && |joined| == WORD * |init|;
    if i < |init| {
      JoinWord(init, i);
    }
    hide Join;
    if i < |init| {
      assert WORD * i + WORD <= |joined|;
      assert (joined + last)[WORD * i..WORD * i + WORD] == joined[WORD * i..WORD * i + WORD];
    } else {
      assert (joined + last)[|joined|..|joined| + WORD] == last;
    }
  }

  lemma {:induction false} JoinLength(words: seq<Bytes>)
    requires AreWords(words)
    ensures |Join(words)| == WORD * |words|
  {
    if words != [] {
      JoinLength(words[..|words| - 1]);
    }
  }

  datatype BuildError = WrongLength

  method BuildDepositIx(discs: Discs, denomId: nat, commitment: Bytes) returns (r: Result<Bytes, BuildError>)
    requires DiscsOk(discs)
    ensures r.Ok? <==> |commitment| == WORD
    ensures r.Ok? ==> Dispatch(discs, r.value) == Some(DepositIx(denomId % 256, commitment))
  {
    if |commitment| != WORD { return Err(WrongLength); }
    var data := discs.deposit + [denomId % 256] + commitment;
    assert data[8..][1..][..WORD] == commitment;
    return Ok(data);
  }

  /** The layout the builder's offsets produce, read back by the entry point. */
  lemma WithdrawReadsBack(discs: Discs, denomId: nat, nullifierHash: Bytes, proof: Bytes, signals: seq<Bytes>,
                          data: Bytes)
    requires DiscsOk(discs) && |nullifierHash| == WORD && |proof| == PROOF_BYTES && |signals| == SIGNAL_COUNT
               && AreWords(signals)
    requires data == discs.withdraw + [denomId] + nullifierHash + proof + Join(signals)
    ensures Dispatch(discs, data) == Some(WithdrawIx(denomId, nullifierHash, proof, signals))
  {
    JoinLength(signals);
    assert data[..8] == discs.withdraw && data[8..][0] == denomId;
    var rest := data[8..][1..];
    assert rest == nullifierHash + proof + Join(signals);
    assert rest[..WORD] == nullifierHash;
    var afterHash := rest[WORD..];
    assert afterHash == proof + Join(signals);
    assert afterHash[..PROOF_BYTES] == proof;
    var tail := afterHash[PROOF_BYTES..];
    assert tail == Join(signals);
    forall i | 0 <= i < SIGNAL_COUNT ensures Words(tail, SIGNAL_COUNT)[i] == signals[i] {
      JoinWord(signals, i);
    }
    assert Words(tail, SIGNAL_COUNT) == signals;
  }

  method BuildWithdrawIx(discs: Discs, denomId: nat, nullifierHash: Bytes, proof: Bytes, signals: seq<Bytes>)
    returns (r: Result<Bytes, BuildError>)
    requires DiscsOk(discs)
    ensures r.Ok? <==>
              |nullifierHash| == WORD && |proof| == PROOF_BYTES && |signals| == SIGNAL_COUNT && AreWords(signals)
    ensures r.Ok? ==> Dispatch(discs, r.value) == Some(WithdrawIx(denomId % 256, nullifierHash, proof, signals))
  {
    if |nullifierHash| != WORD || |proof| != PROOF_BYTES || |signals| != SIGNAL_COUNT {
      return Err(WrongLength);
    }
    for i := 0 to |signals|
      invariant forall j :: 0 <= j < i ==> |signals[j]| == WORD
    {
      if |signals[i]| != WORD { return Err(WrongLength); }
    }
    var header := discs.withdraw + [denomId % 256] + nullifierHash + proof;
    var data := header;
    for i := 0 to |signals|
      invariant data == header + Join(signals[..i])
    {
      assert signals[..i + 1][..i] == signals[..i];
      data := data + signals[i];
    }
    assert signals[..|signals|] == signals;
    WithdrawReadsBack(discs, denomId % 256, nullifierHash, proof, signals, data);
    return Ok(data);
  }
}
