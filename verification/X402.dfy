/**
 The SDK's payment loop: when a server answers 402 (section 15.5.3 of RFC 9110), pick a
 requirement, check it against the caller's limits, pay it from the note and try again.
 The server is adversarial: it may answer anything, every time.
 */
module X402 {
  import opened Wrappers
  import opened NoteWallet

  const PAYMENT_REQUIRED: int := 402
  const SUPPORTED_SCHEMES: seq<string> := ["exact", "qietr-private"]

  /** One entry of `accepts`; a missing asset is the empty string. */
  datatype Requirement = Requirement(
    scheme: string,
    network: string,
    asset: string,
    payTo: string,
    maxAmountRequired: Option<string>,
    amount: Option<string>,
    resource: Option<string>
  )

  /** A fetch fails, or answers a status with the `accepts` array of its body, if it has one. */
  datatype Reply = FetchFailed | Response(status: int, accepts: Option<seq<Requirement>>)

  datatype X402Error =
    | NoSpendCeiling
    | FetchError
    | MalformedRequirements
    | NoMatchingRequirement
    | AssetMismatch
    | AmountExceeded
    | PayToNotAllowed
    | AlreadySettled
    | NoNoteLoaded
    | InvalidPublicKey
    | PaymentFailed
    | RetryFailedAfterPayment

  /** The caller's limits, and the parsing and printing the loop relies on. */
  datatype Options = Options(
    maxRetries: int,
    maxAmountMicro: int,
    payToAllowlist: Option<set<string>>,
    usdcMint: string,
    networkId: string,
    normalizeNetwork: string -> string,
    parseInteger: string -> Option<int>,
    printInteger: int -> string,
    isPublicKey: string -> bool
  )

  /** A payment sent, or tried, for a requirement. */
  datatype Payment = Payment(payTo: string, micro: int, resource: string)

  /** The requirement is one the loop can settle. */
  predicate Matches(opts: Options, r: Requirement) {
    r.scheme in SUPPORTED_SCHEMES && opts.normalizeNetwork(r.network) == opts.networkId
  }

  /** A scheme of the two supported ones, on the configured network. */
  lemma MatchesExactlyWhen(opts: Options, r: Requirement)
    ensures Matches(opts, r) <==>
              (r.scheme == "exact" || r.scheme == "qietr-private") && opts.normalizeNetwork(r.network) == opts.networkId
  {
  }

  function DedupeKey(opts: Options, p: Payment): string {
    p.payTo + ":" + opts.printInteger(p.micro) + ":" + p.resource
  }

  /** Inside the caller's limits. */
  ghost predicate WithinLimits(opts: Options, p: Payment) {
    && 0 < p.micro <= opts.maxAmountMicro
    && (opts.payToAllowlist.Some? ==> p.payTo in opts.payToAllowlist.value)
    && opts.isPublicKey(p.payTo)
  }

  function Spend(payments: seq<Payment>): int {
    if payments == [] then 0 else Spend(payments[..|payments| - 1]) + payments[|payments| - 1].micro
  }

  /** The randomness of the payments from the k-th on is not in the note and never repeats. */
  ghost predicate FreshDraws(note: Note, chain: nat -> PayEnv, k: nat) {
    && (forall i: nat :: i >= k ==> FreshPair(note, chain(i).newSecret, chain(i).newNullifier))
    && (forall i: nat, j: nat :: k <= i < j ==>
          !(chain(i).newSecret == chain(j).newSecret && chain(i).newNullifier == chain(j).newNullifier))
  }

  /** One payment keeps the pairs distinct and the later randomness fresh, and costs exactly its amount. */
  lemma PaymentStep(note: Note, spent: Coin, payment: nat, chain: nat -> PayEnv, k: nat)
    requires DistinctPairs(note) && FreshDraws(note, chain, k) && spent in note && payment <= spent.amount
    ensures var after := AfterPay(note, spent, payment, chain(k));
            DistinctPairs(after) && FreshDraws(after, chain, k + 1) && Total(after) + payment == Total(note)
  {
    var i :| 0 <= i < |note| && note[i] == spent;
    PayKeepsNote(note, i, payment, chain(k));
    var after := AfterPay(note, spent, payment, chain(k));
    forall j: nat | j >= k + 1 ensures FreshPair(after, chain(j).newSecret, chain(j).newNullifier) {
      PayKeepsFresh(note, spent, payment, chain(k), chain(j).newSecret, chain(j).newNullifier);
    }
  }

  ghost predicate NoRepeats(payments: seq<Payment>) {
    forall i, j :: 0 <= i < j < |payments| ==> payments[i] != payments[j]
  }

  lemma {:induction false} SpendBounded(payments: seq<Payment>, cap: int)
    requires forall i :: 0 <= i < |payments| ==> payments[i].micro <= cap
    ensures Spend(payments) <= |payments| * cap
  {
    if payments != [] {
      SpendBounded(payments[..|payments| - 1], cap);
      assert |payments| * cap == (|payments| - 1) * cap + cap;
    }
  }

  lemma SpendAppend(payments: seq<Payment>, p: Payment)
    ensures Spend(payments + [p]) == Spend(payments) + p.micro
  {
    assert (payments + [p])[..|payments|] == payments;
  }

  /** The first requirement that matches, or the reason there is none to pay. */
  method SelectRequirement(opts: Options, accepts: Option<seq<Requirement>>) returns (r: Result<Requirement, X402Error>)
    ensures r.Ok? ==> accepts.Some? && r.value in accepts.value && Matches(opts, r.value)
    ensures r.Ok? ==> exists i: nat :: FirstMatch(opts, accepts.value, i) && accepts.value[i] == r.value
    ensures r.Err? ==> r.error == if accepts.None?
              || accepts.value == [] then MalformedRequirements else NoMatchingRequirement
    ensures r.Err? && accepts.Some? ==> forall q :: q in accepts.value ==> !Matches(opts, q)
  {
    if accepts.None? || |accepts.value| == 0 {
      return Err(MalformedRequirements);
    }
    for i := 0 to |accepts.value|
      invariant forall j :: 0 <= j < i ==> !Matches(opts, accepts.value[j])
    {
      if Matches(opts, accepts.value[i]) {
        assert FirstMatch(opts, accepts.value, i);
        return Ok(accepts.value[i]);
      }
    }
    return Err(NoMatchingRequirement);
  }

  /** The spend guards, all before anything is paid. */
  function Guard(opts: Options, settled: set<string>, r: Requirement): Result<Payment, X402Error> {
    if r.asset != "" && r.asset != opts.usdcMint then Err(AssetMismatch)
    else
      var text := if r.maxAmountRequired.Some? then r.maxAmountRequired else r.amount;
      if text.None? then Err(MalformedRequirements)
      else
        match opts.parseInteger(text.value)
        case None => Err(MalformedRequirements)
        case Some(micro) =>
          var p := Payment(r.payTo, micro, if r.resource.Some? then r.resource.value else "");
          if micro <= 0 then Err(MalformedRequirements)
          else if micro > opts.maxAmountMicro then Err(AmountExceeded)
          else if opts.payToAllowlist.Some? && r.payTo !in opts.payToAllowlist.value then Err(PayToNotAllowed)
          else if DedupeKey(opts, p) in settled then Err(AlreadySettled)
          else Ok(p)
  }

  // ---------------------------------------------------------------------------
  // What is paid and what is refused
  // ---------------------------------------------------------------------------

  /** What a requirement asks for: `maxAmountRequired` when it has one, else `amount`, if that is an integer. */
  function Price(opts: Options, r: Requirement): Option<int> {
    match (r.maxAmountRequired, r.amount)
    case (Some(text), _) => opts.parseInteger(text)
    case (None, Some(text)) => opts.parseInteger(text)
    case (None, None) => None
  }

  /** The payment is for this requirement: its recipient, its price, its resource, in the configured asset. */
  ghost predicate PaysFor(opts: Options, r: Requirement, p: Payment) {
    && p.payTo == r.payTo && Price(opts, r) == Some(p.micro)
    && p.resource == (match r.resource case Some(resource) => resource case None => "")
    && (r.asset == "" || r.asset == opts.usdcMint)
  }

  /** The requirement names the configured asset, a positive price within the cap, and a recipient the caller allows. */
  predicate Acceptable(opts: Options, r: Requirement) {
    && (r.asset == "" || r.asset == opts.usdcMint)
    && Price(opts, r).Some? && 0 < Price(opts, r).value <= opts.maxAmountMicro
    && (opts.payToAllowlist.Some? ==> r.payTo in opts.payToAllowlist.value)
  }

  function PaymentFor(r: Requirement, micro: int): Payment {
    Payment(r.payTo, micro, if r.resource.Some? then r.resource.value else "")
  }

  /** Exactly when a requirement is refused before the note is looked at, and why. */
  ghost predicate GuardRefuses(opts: Options, settled: set<string>, r: Requirement, e: X402Error) {
    var price, assetOk := Price(opts, r), r.asset == "" || r.asset == opts.usdcMint;
    match e
    case AssetMismatch => !assetOk
    case MalformedRequirements => assetOk && (price.None? || price.value <= 0)
    case AmountExceeded => assetOk && price.Some? && 0 < price.value && opts.maxAmountMicro < price.value
    case PayToNotAllowed =>
      && assetOk && price.Some? && 0 < price.value <= opts.maxAmountMicro
      && opts.payToAllowlist.Some? && r.payTo !in opts.payToAllowlist.value
    case AlreadySettled => Acceptable(opts, r) && DedupeKey(opts, PaymentFor(r, price.value)) in settled
    case _ => false
  }

  /** The guards let exactly the acceptable requirements through that were not settled yet, for what they ask. */
  lemma GuardExactly(opts: Options, settled: set<string>, r: Requirement)
    ensures var g := Guard(opts, settled, r);
            && (g.Ok? <==> Acceptable(opts, r) && DedupeKey(opts, PaymentFor(r, Price(opts, r).value)) !in settled)
            && (g.Ok? ==> PaysFor(opts, r, g.value))
            && (forall e {:trigger GuardRefuses(opts, settled, r, e)} ::
                  g == Err(e) <==> GuardRefuses(opts, settled, r, e))
  {
  }

  /** The requirement at index i is the first that matches. */
  ghost predicate FirstMatch(opts: Options, accepts: seq<Requirement>, i: nat) {
    && i < |accepts| && Matches(opts, accepts[i])
    && forall j {:trigger accepts[j]} :: 0 <= j < i ==> !Matches(opts, accepts[j])
  }

  /** The payment is what the first matching requirement asks for, and it was not made before. */
  ghost predicate Demands(opts: Options, accepts: Option<seq<Requirement>>, settled: set<string>, p: Payment) {
    && accepts.Some? && DedupeKey(opts, p) !in settled
    && exists i: nat {:trigger FirstMatch(opts, accepts.value, i)} ::
         FirstMatch(opts, accepts.value, i) && PaysFor(opts, accepts.value[i], p)
  }

  /** Why nothing is paid for a 402 with these requirements, and from this note. */
  ghost predicate Refuses(opts: Options, accepts: Option<seq<Requirement>>, settled: set<string>, note: Option<Note>,
                          e: X402Error)
  {
    if accepts.None? || accepts.value == [] then e == MalformedRequirements
    else if forall q :: q in accepts.value ==> !Matches(opts, q) then e == NoMatchingRequirement
    else
      exists i: nat {:trigger FirstMatch(opts, accepts.value, i)} ::
        && FirstMatch(opts, accepts.value, i)
        && var r := accepts.value[i];
           || GuardRefuses(opts, settled, r, e)
           || (&& Acceptable(opts, r) && DedupeKey(opts, PaymentFor(r, Price(opts, r).value)) !in settled
               && if note.None? || note.value == [] then e == NoNoteLoaded
                  else !opts.isPublicKey(r.payTo) && e == InvalidPublicKey)
  }

  /** Everything the loop checks before it pays: the first matching requirement, the guards, the note, the address. */
  method Prepare(opts: Options, accepts: Option<seq<Requirement>>, settled: set<string>, note: Option<Note>)
    returns (r: Result<Payment, X402Error>)
    ensures r.Ok? ==> WithinLimits(opts, r.value) && Demands(opts, accepts, settled, r.value)
    ensures r.Ok? ==> note.Some? && note.value != []
    ensures r.Err? ==> Refuses(opts, accepts, settled, note, r.error)
  {
    var selected := SelectRequirement(opts, accepts);
    if selected.Err? { return Err(selected.error); }
    ghost var i: nat :| FirstMatch(opts, accepts.value, i) && accepts.value[i] == selected.value;
    GuardExactly(opts, settled, selected.value);
    var guarded := Guard(opts, settled, selected.value);
    if guarded.Err? {
      assert GuardRefuses(opts, settled, selected.value, guarded.error);
      return guarded;
    }
    if note.None? || |note.value| == 0 { return Err(NoNoteLoaded); }
    if !opts.isPublicKey(guarded.value.payTo) { return Err(InvalidPublicKey); }
    return guarded;
  }

  /** The payments so far are all within the limits, remembered as settled, and different. */
  ghost predicate SettledOk(opts: Options, sent: seq<Payment>, settled: set<string>) {
    && (forall i :: 0 <= i < |sent| ==> WithinLimits(opts, sent[i]) && DedupeKey(opts, sent[i]) in settled)
    && NoRepeats(sent)
  }

  lemma NewPaymentSettles(opts: Options, sent: seq<Payment>, settled: set<string>, p: Payment)
    requires SettledOk(opts, sent, settled) && WithinLimits(opts, p) && DedupeKey(opts, p) !in settled
    ensures SettledOk(opts, sent + [p], settled + {DedupeKey(opts, p)})
  {
  }

  /** The note has paid for exactly these payments, and has randomness left for the next ones. */
  ghost predicate Accounted(note: Note, start: nat, sent: seq<Payment>, chain: nat -> PayEnv) {
    DistinctPairs(note) && FreshDraws(note, chain, |sent|) && Total(note) + Spend(sent) == start
  }

  lemma NoColonBefore(a: string, b: string)
    requires ':' !in a
    ensures (a + ":" + b)[|a|] == ':' && forall i :: 0 <= i < |a| ==> (a + ":" + b)[i] != ':'
  {
    assert forall i :: 0 <= i < |a| ==> (a + ":" + b)[i] == a[i];
  }

  lemma FirstColon(a: string, b: string, c: string, e: string)
    requires ':' !in a && ':' !in c && a + ":" + b == c + ":" + e
    ensures a == c && b == e
  {
    var s, t := a + ":" + b, c + ":" + e;
    NoColonBefore(a, b);
    NoColonBefore(c, e);
    assert s == t && |a| == |c|;
    assert a == s[..|a|] && c == t[..|c|];
    assert b == s[|a| + 1..] && e == t[|c| + 1..];
  }

  /** Settled payments are told apart by recipient, amount and resource, as long as recipients have no colon. */
  lemma KeysTellApart(opts: Options, p: Payment, q: Payment)
    requires ':' !in p.payTo && ':' !in q.payTo
    requires forall m, n :: opts.printInteger(m) == opts.printInteger(n) ==> m == n
    requires forall m :: ':' !in opts.printInteger(m)
    ensures DedupeKey(opts, p) == DedupeKey(opts, q) <==> p == q
  {
    if DedupeKey(opts, p) == DedupeKey(opts, q) {
      var first, second := opts.printInteger(p.micro) + ":" + p.resource, opts.printInteger(q.micro) + ":" + q.resource;
      assert DedupeKey(opts, p) == p.payTo + ":" + first;
      assert DedupeKey(opts, q) == q.payTo + ":" + second;
      FirstColon(p.payTo, first, q.payTo, second);
      FirstColon(opts.printInteger(p.micro), p.resource, opts.printInteger(q.micro), q.resource);
    }
  }

  function KeysOf(opts: Options, payments: seq<Payment>): set<string> {
    set p | p in payments :: DedupeKey(opts, p)
  }

  /** Payment i answers the server's i-th answer, a 402 that demanded it when the earlier ones had been settled. */
  ghost predicate DemandedAt(opts: Options, server: nat -> Reply, payments: seq<Payment>, i: nat)
    requires i < |payments|
  {
    && server(i).Response? && server(i).status == PAYMENT_REQUIRED
    && Demands(opts, server(i).accepts, KeysOf(opts, payments[..i]), payments[i])
  }

  ghost predicate AllDemanded(opts: Options, server: nat -> Reply, payments: seq<Payment>) {
    forall i: nat {:trigger DemandedAt(opts, server, payments, i)} ::
      i < |payments| ==> DemandedAt(opts, server, payments, i)
  }

  lemma NewPaymentIsDemanded(opts: Options, server: nat -> Reply, sent: seq<Payment>, p: Payment)
    requires AllDemanded(opts, server, sent)
    requires server(|sent|).Response? && server(|sent|).status == PAYMENT_REQUIRED
    requires Demands(opts, server(|sent|).accepts, KeysOf(opts, sent), p)
    ensures AllDemanded(opts, server, sent + [p])
    ensures KeysOf(opts, sent + [p]) == KeysOf(opts, sent) + {DedupeKey(opts, p)}
  {
    hide Demands;
    var more := sent + [p];
    forall i: nat {:trigger DemandedAt(opts, server, more, i)} | i < |more| ensures DemandedAt(opts, server, more, i) {
      if i < |sent| {
        assert DemandedAt(opts, server, sent, i);
        assert more[..i] == sent[..i] && more[i] == sent[i];
      } else {
        assert more[..i] == sent;
      }
    }
    assert more[|sent|] == p && forall i :: 0 <= i < |sent| ==> more[i] == sent[i];
  }

  function Limit(x: int): nat {
    if x > 0 then x else 0
  }

  /** What these payments make of a note. */
  function NoteAfter(note: Note, sent: seq<Payment>, chain: nat -> PayEnv): Note {
    if sent == [] then note
    else
      var init := sent[..|sent| - 1];
      TryPay(NoteAfter(note, init, chain), sent[|init|].micro, chain(|init|))
  }

  /** Each of the payments went through when its turn came. */
  ghost predicate WentThrough(note: Note, sent: seq<Payment>, chain: nat -> PayEnv) {
    forall i: nat {:trigger sent[i]} ::
      i < |sent| ==> PaymentGoesThrough(NoteAfter(note, sent[..i], chain), sent[i].micro, chain(i))
  }

  lemma NextWentThrough(note: Note, sent: seq<Payment>, p: Payment, chain: nat -> PayEnv)
    requires WentThrough(note, sent, chain)
    requires PaymentGoesThrough(NoteAfter(note, sent, chain), p.micro, chain(|sent|))
    ensures WentThrough(note, sent + [p], chain)
    ensures NoteAfter(note, sent + [p], chain) == TryPay(NoteAfter(note, sent, chain), p.micro, chain(|sent|))
  {
    var more := sent + [p];
    assert more[..|sent|] == sent;
    hide PaymentGoesThrough, TryPay;
    forall i: nat | i < |more| ensures PaymentGoesThrough(NoteAfter(note, more[..i], chain), more[i].micro, chain(i)) {
      if i < |sent| {
        assert more[..i] == sent[..i] && more[i] == sent[i];
      }
    }
  }

  lemma AccountStep(before: Note, after: Note, p: Payment, start: nat, sent: seq<Payment>, chain: nat -> PayEnv)
    requires PaymentGoesThrough(before, p.micro, chain(|sent|)) && after == TryPay(before, p.micro, chain(|sent|))
    ensures Accounted(before, start, sent, chain) ==> Accounted(after, start, sent + [p], chain)
  {
    if Accounted(before, start, sent, chain) {
      PaymentStep(before, Pick(before, p.micro).value, p.micro, chain, |sent|);
      SpendAppend(sent, p);
    }
  }

  lemma NothingSettled(opts: Options, server: nat -> Reply, note: Note, chain: nat -> PayEnv)
    ensures SettledOk(opts, [], {}) && KeysOf(opts, []) == {} && AllDemanded(opts, server, [])
    ensures NoteAfter(note, [], chain) == note && WentThrough(note, [], chain)
  {
  }

  /**
   How a call ends after these payments: with the server's answer to the last of them, because it is
   no 402 or the attempts are used up; or because the payment tried next was refused by the chain, the
   server could not be reached, or the 402 it answered gives a reason not to pay.
   */
  ghost predicate Ended(opts: Options, server: nat -> Reply, chain: nat -> PayEnv, coins: Note, note: Option<Note>,
                        sent: seq<Payment>, tried: seq<Payment>, r: Result<Reply, X402Error>)
  {
    var last := server(|sent|);
    if tried != sent then
      && |tried| == |sent| + 1 && tried[..|sent|] == sent && r == Err(PaymentFailed)
      && !PaymentGoesThrough(coins, tried[|sent|].micro, chain(|sent|))
    else if last.FetchFailed? then sent != [] && r == Err(RetryFailedAfterPayment)
    else if last.status != PAYMENT_REQUIRED || |sent| >= opts.maxRetries then r == Ok(last)
    else r.Err? && Refuses(opts, last.accepts, KeysOf(opts, sent), note, r.error)
  }

  /** The retry loop, from the response of the first fetch. */
  method PayLoop(wallet: Wallet, opts: Options, first: Reply, server: nat -> Reply, chain: nat -> PayEnv,
                 ghost start: nat)
    returns (r: Result<Reply, X402Error>, sent: seq<Payment>, tried: seq<Payment>, ghost settled: set<string>)
    requires first.Response? && first == server(0)
    modifies wallet
    ensures Ended(opts, server, chain, wallet.Coins(), wallet.note, sent, tried, r)
    ensures |tried| <= Limit(opts.maxRetries) && SettledOk(opts, tried, settled) && AllDemanded(opts, server, tried)
    ensures sent == [] ==> wallet.note == old(wallet.note)
    ensures wallet.Coins() == NoteAfter(old(wallet.Coins()), sent, chain)
    ensures WentThrough(old(wallet.Coins()), sent, chain)
    ensures old(Accounted(wallet.Coins(), start, [], chain)) ==> Accounted(wallet.Coins(), start, sent, chain)
  {
    hide Guard, Matches, Demands, AllDemanded, KeysOf, SettledOk, Accounted, PaymentGoesThrough, TryPay, WithinLimits,
         Refuses, NoteAfter, WentThrough;
    sent, tried := [], [];
    NothingSettled(opts, server, wallet.Coins(), chain);
    var lastRes := first;
    var attempts := 0;
    var keys: set<string> := {};
    while lastRes.status == PAYMENT_REQUIRED && attempts < opts.maxRetries
      invariant lastRes.Response? && attempts == |sent| <= Limit(opts.maxRetries) && tried == sent
      invariant SettledOk(opts, sent, keys) && keys == KeysOf(opts, sent)
      invariant lastRes == server(|sent|) && AllDemanded(opts, server, sent)
      invariant sent == [] ==> wallet.note == old(wallet.note)
      invariant wallet.Coins() == NoteAfter(old(wallet.Coins()), sent, chain)
      invariant WentThrough(old(wallet.Coins()), sent, chain)
      invariant old(Accounted(wallet.Coins(), start, [], chain)) ==> Accounted(wallet.Coins(), start, sent, chain)
      decreases opts.maxRetries - attempts
    {
      attempts := attempts + 1;
      var prepared := Prepare(opts, lastRes.accepts, keys, wallet.note);
      if prepared.Err? { return Err(prepared.error), sent, tried, keys; }
      var payment := prepared.value;
      KeyIsNew(opts, lastRes.accepts, keys, payment);
      NewPaymentSettles(opts, sent, keys, payment);
      NewPaymentIsDemanded(opts, server, sent, payment);
      tried, keys := sent + [payment], keys + {DedupeKey(opts, payment)};
      ghost var before := wallet.Coins();
      var result := wallet.PayMicroExact(payment.micro, chain(|sent|));
      if result.Err? {
        assert wallet.Coins() == before;
        return Err(PaymentFailed), sent, tried, keys;
      }
      AccountStep(before, wallet.Coins(), payment, start, sent, chain);
      NextWentThrough(old(wallet.Coins()), sent, payment, chain);
      sent := tried;
      var next := server(attempts);
      if next.FetchFailed? { return Err(RetryFailedAfterPayment), sent, tried, keys; }
      lastRes := next;
    }
    return Ok(lastRes), sent, tried, keys;
  }

  lemma KeyIsNew(opts: Options, accepts: Option<seq<Requirement>>, settled: set<string>, p: Payment)
    requires Demands(opts, accepts, settled, p)
    ensures DedupeKey(opts, p) !in settled
  {
  }

  /**
   One wrapped call against a server whose i-th answer is `server(i)` and a chain that treats the
   i-th payment as `chain(i)`.  `sent` lists the payments the note paid for, `tried` one more if
   the last was refused; how the call ends is determined by them (`Ended`).  Whatever the server does,
   the call ends with at most maxRetries payments, each for what the 402 it answers asks, all within
   the limits and no two for the same recipient, amount and resource; with distinct note pairs the
   note has gone down by exactly what was sent; and an error raised before the first payment leaves
   it as it was.
   */
  method WrappedFetch(wallet: Wallet, opts: Options, server: nat -> Reply, chain: nat -> PayEnv)
    returns (r: Result<Reply, X402Error>, sent: seq<Payment>, tried: seq<Payment>)
    modifies wallet
    ensures r == Err(NoSpendCeiling) <==> opts.maxAmountMicro <= 0
    ensures opts.maxAmountMicro > 0 ==> (r == Err(FetchError) <==> server(0).FetchFailed?)
    ensures opts.maxAmountMicro > 0 && server(0).Response? ==>
              Ended(opts, server, chain, wallet.Coins(), wallet.note, sent, tried, r)
    ensures |tried| <= Limit(opts.maxRetries) && NoRepeats(tried)
    ensures forall i :: 0 <= i < |tried| ==> WithinLimits(opts, tried[i])
    ensures AllDemanded(opts, server, tried)
    ensures Spend(tried) <= Limit(opts.maxRetries) * Limit(opts.maxAmountMicro)
    ensures sent == [] ==> wallet.note == old(wallet.note)
    ensures WentThrough(old(wallet.Coins()), sent, chain)
    ensures wallet.Coins() == NoteAfter(old(wallet.Coins()), sent, chain)
    ensures old(DistinctPairs(wallet.Coins()) && FreshDraws(wallet.Coins(), chain, 0)) ==>
              Total(wallet.Coins()) + Spend(sent) == old(Total(wallet.Coins()))
  {
    sent, tried := [], [];
    if opts.maxAmountMicro <= 0 {
      return Err(NoSpendCeiling), sent, tried;
    }
    var first := server(0);
    if first.FetchFailed? {
      return Err(FetchError), sent, tried;
    }
    ghost var settled;
    r, sent, tried, settled := PayLoop(wallet, opts, first, server, chain, Total(wallet.Coins()));
    EndsOtherwise(opts, server, chain, wallet.Coins(), wallet.note, sent, tried, r);
    SpendLimit(opts, tried);
  }

  /** The two errors raised before the loop are raised nowhere else. */
  lemma EndsOtherwise(opts: Options, server: nat -> Reply, chain: nat -> PayEnv, coins: Note, note: Option<Note>,
                      sent: seq<Payment>, tried: seq<Payment>, r: Result<Reply, X402Error>)
    requires Ended(opts, server, chain, coins, note, sent, tried, r)
    ensures r != Err(NoSpendCeiling) && r != Err(FetchError)
  {
  }

  lemma SpendLimit(opts: Options, payments: seq<Payment>)
    requires forall i :: 0 <= i < |payments| ==> WithinLimits(opts, payments[i])
    requires |payments| <= Limit(opts.maxRetries)
    ensures Spend(payments) <= Limit(opts.maxRetries) * Limit(opts.maxAmountMicro)
  {
    var cap, retries := Limit(opts.maxAmountMicro), Limit(opts.maxRetries);
    forall i | 0 <= i < |payments| ensures payments[i].micro <= cap {
      assert WithinLimits(opts, payments[i]);
    }
    SpendBounded(payments, cap);
    MulMonotone(|payments|, retries, cap);
  }

  lemma {:induction false} MulMonotone(a: nat, b: nat, m: nat)
    requires a <= b
    ensures a * m <= b * m
  {
    if a < b {
      MulMonotone(a, b - 1, m);
      assert b * m == (b - 1) * m + m;
    }
  }
}
