/**
 The SDK's shielded note: a list of commitments.  A deposit adds one; a payment is made from the
 smallest that covers it and puts the change back as a fresh commitment, which the program then
 never accepts.  The runs follow that rule; `EndToEnd.ProgramFollowsRule` derives
 it from the program.
 */
module NoteWallet {
  import opened Wrappers

  datatype Coin = Coin(secret: nat, nullifier: nat, amount: nat, denomId: nat)

  type Note = seq<Coin>

  datatype PayError =
    | NoNote
    | NotPositive
    | NoCoveringCommitment
    | ChainRefused

  /** Whether indexer, prover and chain let a payment from a coin through, and the randomness for its change. */
  datatype PayEnv = PayEnv(goesThrough: Coin -> bool, newSecret: nat, newNullifier: nat)

  // ---------------------------------------------------------------------------
  // Notes
  // ---------------------------------------------------------------------------

  function Total(note: Note): nat {
    if note == [] then 0 else Total(note[..|note| - 1]) + note[|note| - 1].amount
  }

  predicate SamePair(a: Coin, b: Coin) {
    a.secret == b.secret && a.nullifier == b.nullifier
  }

  ghost predicate DistinctPairs(note: Note) {
    forall i, j :: 0 <= i < j < |note| ==> !SamePair(note[i], note[j])
  }

  /** No coin of the note has this secret and nullifier. */
  ghost predicate FreshPair(note: Note, secret: nat, nullifier: nat) {
    forall i :: 0 <= i < |note| ==> !(note[i].secret == secret && note[i].nullifier == nullifier)
  }

  // ---------------------------------------------------------------------------
  // Choosing the coin
  // ---------------------------------------------------------------------------

  /** Puts a coin after every coin of at most its amount. */
  function Insert(sorted: Note, c: Coin): Note {
    if sorted == [] || sorted[|sorted| - 1].amount <= c.amount then sorted + [c]
    else Insert(sorted[..|sorted| - 1], c) + [sorted[|sorted| - 1]]
  }

  /** The stable sort by amount. */
  function SortByAmount(note: Note): Note {
    if note == [] then [] else Insert(SortByAmount(note[..|note| - 1]), note[|note| - 1])
  }

  ghost predicate Ascending(note: Note) {
    forall i, j :: 0 <= i < j < |note| ==> note[i].amount <= note[j].amount
  }

  lemma {:induction false} InsertSorts(sorted: Note, c: Coin)
    requires Ascending(sorted)
    ensures Ascending(Insert(sorted, c)) && |Insert(sorted, c)| == |sorted| + 1
    ensures forall x :: x in Insert(sorted, c) ==>
              x.amount <= c.amount || (sorted != [] && x.amount <= sorted[|sorted| - 1].amount)
  {
    if sorted != [] && sorted[|sorted| - 1].amount > c.amount {
      InsertSorts(sorted[..|sorted| - 1], c);
    }
  }

  /** The first coin of a list that covers the payment. */
  function FirstCovering(coins: Note, payment: int): (r: Option<Coin>)
    ensures r.Some? ==> r.value in coins && r.value.amount >= payment
    ensures r.None? <==> forall x :: x in coins ==> x.amount < payment
  {
    if coins == [] then None
    else
      var last, before := coins[|coins| - 1], FirstCovering(coins[..|coins| - 1], payment);
      assert forall x :: x in coins <==> x in coins[..|coins| - 1] || x == last;
      if before.None? && last.amount >= payment then Some(last) else before
  }

  /** The coin paid from: of the coins that cover the payment, the first among the smallest. */
  function Pick(note: Note, payment: int): (r: Option<Coin>)
    ensures r.Some? ==> SmallestCovering(note, payment, r.value)
    ensures r.None? <==> forall x :: x in note ==> x.amount < payment
  {
    if note == [] then None
    else
      var last, before := note[|note| - 1], Pick(note[..|note| - 1], payment);
      assert forall x :: x in note <==> x in note[..|note| - 1] || x == last;
      Better(before, last, payment)
  }

  function Better(before: Option<Coin>, last: Coin, payment: int): Option<Coin> {
    if last.amount >= payment && (before.None? || last.amount < before.value.amount) then Some(last) else before
  }

  /** The coin covers the payment and no smaller coin of the note does. */
  ghost predicate SmallestCovering(note: Note, payment: int, c: Coin) {
    c in note && c.amount >= payment && forall x :: x in note && x.amount >= payment ==> c.amount <= x.amount
  }

  /** Coin k covers the payment, those before it that do are larger, and those after it no smaller. */
  ghost predicate FirstSmallest(note: Note, payment: int, k: nat) {
    && k < |note| && note[k].amount >= payment
    && (forall j {:trigger note[j]} :: 0 <= j < k && note[j].amount >= payment ==> note[j].amount > note[k].amount)
    && (forall j {:trigger note[j]} :: k < j < |note| && note[j].amount >= payment ==> note[j].amount >= note[k].amount)
  }

  /** The coin picked is the first in note order among the smallest that cover. */
  lemma {:induction false} PickIsFirst(note: Note, payment: int) returns (k: nat)
    requires Pick(note, payment).Some?
    ensures FirstSmallest(note, payment, k) && Pick(note, payment) == Some(note[k])
  {
    var init, last := note[..|note| - 1], note[|note| - 1];
    if Pick(init, payment) == Pick(note, payment) {
      k := PickIsFirst(init, payment);
      assert forall j {:trigger note[j]} :: 0 <= j < |init| ==> note[j] == init[j];
    } else {
      k := |init|;
      assert forall j {:trigger note[j]} :: 0 <= j < |init| ==> note[j] in init;
    }
  }

  lemma {:induction false} InsertPicks(sorted: Note, c: Coin, payment: int)
    requires Ascending(sorted)
    ensures FirstCovering(Insert(sorted, c), payment) == Better(FirstCovering(sorted, payment), c, payment)
  {
    if sorted != [] && sorted[|sorted| - 1].amount > c.amount {
      var init := sorted[..|sorted| - 1];
      InsertPicks(init, c, payment);
      assert Insert(sorted, c)[..|Insert(sorted, c)| - 1] == Insert(init, c);
    } else {
      assert (sorted + [c])[..|sorted|] == sorted;
    }
  }

  /** Sorting first and taking the first that covers finds the same coin, ties included: the sort is stable. */
  lemma {:induction false} SortPicks(note: Note, payment: int)
    ensures Ascending(SortByAmount(note))
    ensures FirstCovering(SortByAmount(note), payment) == Pick(note, payment)
  {
    if note != [] {
      var init := note[..|note| - 1];
      SortPicks(init, payment);
      InsertSorts(SortByAmount(init), note[|note| - 1]);
      InsertPicks(SortByAmount(init), note[|note| - 1], payment);
    }
  }

  method PickCoin(note: Note, payment: int) returns (r: Option<Coin>)
    ensures r == Pick(note, payment)
  {
    var sorted := SortByAmount(note);
    SortPicks(note, payment);
    hide *;
    for i := 0 to |sorted|
      invariant forall j :: 0 <= j < i ==> sorted[j].amount < payment
    {
      if sorted[i].amount >= payment {
        NoneCovers(sorted, payment, i);
        return Some(sorted[i]);
      }
    }
    NoneCovers(sorted, payment, |sorted|);
    return None;
  }

  /** With none of the first n covering, the next one is the first that covers if it does. */
  lemma NoneCovers(coins: Note, payment: int, n: nat)
    requires n <= |coins| && forall j :: 0 <= j < n ==> coins[j].amount < payment
    ensures FirstCovering(coins[..n], payment) == None
    ensures n < |coins| && coins[n].amount >= payment ==> FirstCovering(coins, payment) == Some(coins[n])
    ensures n == |coins| ==> FirstCovering(coins, payment) == None
  {
    if n < |coins| {
      assert coins[..n + 1][..n] == coins[..n];
      if coins[n].amount >= payment {
        FirstCoveringStays(coins, payment, n + 1);
      }
    }
  }

  lemma {:induction false} FirstCoveringStays(coins: Note, payment: int, n: nat)
    requires n <= |coins| && FirstCovering(coins[..n], payment).Some?
    ensures FirstCovering(coins, payment) == FirstCovering(coins[..n], payment)
    decreases |coins|
  {
    if n < |coins| {
      var init := coins[..|coins| - 1];
      assert init[..n] == coins[..n];
      FirstCoveringStays(init, payment, n);
    } else {
      assert coins[..n] == coins;
    }
  }

  // ---------------------------------------------------------------------------
  // Spending it
  // ---------------------------------------------------------------------------

  /** Drops every coin with the spent coin's secret and nullifier, keeping the others in order. */
  function Without(note: Note, spent: Coin): Note {
    if note == [] then []
    else
      var last := note[|note| - 1];
      Without(note[..|note| - 1], spent) + if SamePair(last, spent) then [] else [last]
  }

  function AfterPay(note: Note, spent: Coin, payment: nat, env: PayEnv): Note
    requires payment <= spent.amount
  {
    Without(note, spent) +
    if spent.amount > payment then [Coin(env.newSecret, env.newNullifier, spent.amount - payment, spent.denomId)]
        else []
  }

  lemma TotalAppend(note: Note, c: Coin)
    ensures Total(note + [c]) == Total(note) + c.amount
  {
    assert (note + [c])[..|note|] == note;
  }

  lemma {:induction false} WithoutSplitsTotal(note: Note, spent: Coin)
    ensures Total(Without(note, spent)) + Total(Matching(note, spent)) == Total(note)
  {
    if note != [] {
      var init, last := note[..|note| - 1], note[|note| - 1];
      WithoutSplitsTotal(init, spent);
      TotalAppend(Without(init, spent), last);
      TotalAppend(Matching(init, spent), last);
      assert Without(init, spent) + [] == Without(init, spent) && Matching(init, spent) + [] == Matching(init, spent);
    }
  }

  /** The coins a payment drops. */
  function Matching(note: Note, spent: Coin): Note {
    if note == [] then []
    else
      var last := note[|note| - 1];
      Matching(note[..|note| - 1], spent) + if SamePair(last, spent) then [last] else []
  }

  /** With distinct pairs a payment removes exactly the picked coin, wherever it stands. */
  lemma {:induction false} WithoutDistinct(note: Note, k: nat)
    requires DistinctPairs(note) && k < |note|
    ensures Without(note, note[k]) == note[..k] + note[k + 1..]
    ensures Matching(note, note[k]) == [note[k]]
  {
    var init, last := note[..|note| - 1], note[|note| - 1];
    if k == |init| {
      WithoutNothing(init, note[k]);
    } else {
      WithoutDistinct(init, k);
      assert init[k] == note[k] && !SamePair(last, note[k]);
      assert note[..k] + note[k + 1..] == (init[..k] + init[k + 1..]) + [last];
    }
  }

  lemma {:induction false} WithoutNothing(note: Note, spent: Coin)
    requires forall i :: 0 <= i < |note| ==> !SamePair(note[i], spent)
    ensures Without(note, spent) == note && Matching(note, spent) == []
  {
    if note != [] {
      WithoutNothing(note[..|note| - 1], spent);
    }
  }

  /**
   A payment lowers the note's total by exactly the payment precisely when the coins dropped
   besides the spent one are worthless; in particular whenever the pairs are distinct.
   */
  lemma PayLowersTotalExactlyWhen(note: Note, spent: Coin, payment: nat, env: PayEnv)
    requires payment <= spent.amount
    ensures Total(AfterPay(note, spent, payment, env)) + payment == Total(note) <==>
              Total(Matching(note, spent)) == spent.amount
  {
    WithoutSplitsTotal(note, spent);
    if spent.amount > payment {
      TotalAppend(Without(note, spent), Coin(env.newSecret, env.newNullifier, spent.amount - payment, spent.denomId));
    } else {
      assert AfterPay(note, spent, payment, env) == Without(note, spent);
    }
  }

  /** Two coins that share a pair: paying 5 from the first also drops the second, worth 7. */
  lemma SharedPairLosesValue(env: PayEnv)
    ensures var a, b := Coin(1, 1, 5, 0), Coin(1, 1, 7, 0);
            SmallestCovering([a, b], 5, a) && Total([a, b]) == 12 && Total(AfterPay([a, b], a, 5, env)) == 0
  {
    var a, b := Coin(1, 1, 5, 0), Coin(1, 1, 7, 0);
    assert [a, b][..1] == [a] && [a][..0] == [];
    assert Total([a]) == 5;
    assert Without([a], a) == [];
    assert Without([a, b], a) == [];
  }

  /** With distinct pairs: one coin replaced by its change, the others kept in order, pairs still distinct. */
  lemma PayKeepsNote(note: Note, k: nat, payment: nat, env: PayEnv)
    requires DistinctPairs(note) && k < |note| && payment <= note[k].amount
    requires FreshPair(note, env.newSecret, env.newNullifier)
    ensures var after := AfterPay(note, note[k], payment, env);
            && |after| >= |note| - 1 && after[..|note| - 1] == note[..k] + note[k + 1..]
            && after[|note| - 1..] ==
                 (if note[k].amount > payment
                  then [Coin(env.newSecret, env.newNullifier, note[k].amount - payment, note[k].denomId)] else [])
            && Total(after) + payment == Total(note)
            && DistinctPairs(after)
  {
    WithoutDistinct(note, k);
    PayLowersTotalExactlyWhen(note, note[k], payment, env);
    TotalAppend([], note[k]);
    assert [] + [note[k]] == [note[k]];
    hide Without, Matching, Total, DistinctPairs, FreshPair;
    OthersKeepPairs(note, k, env.newSecret, env.newNullifier);
    ChangeKeepsPairs(note[..k] + note[k + 1..], env, note[k].amount - payment, note[k].denomId);
    assert AfterPay(note, note[k], payment, env)[..|note| - 1] == note[..k] + note[k + 1..];
  }

  lemma ChangeKeepsPairs(others: Note, env: PayEnv, amount: nat, denomId: nat)
    requires DistinctPairs(others) && FreshPair(others, env.newSecret, env.newNullifier)
    ensures DistinctPairs(others + [Coin(env.newSecret, env.newNullifier, amount, denomId)])
    ensures DistinctPairs(others + [])
  {
    assert others + [] == others;
  }

  lemma OthersKeepPairs(note: Note, k: nat, secret: nat, nullifier: nat)
    requires DistinctPairs(note) && k < |note| && FreshPair(note, secret, nullifier)
    ensures DistinctPairs(note[..k] + note[k + 1..]) && FreshPair(note[..k] + note[k + 1..], secret, nullifier)
  {
    var others := note[..k] + note[k + 1..];
    forall i, j | 0 <= i < j < |others| ensures !SamePair(others[i], others[j]) {
      var a, b := if i < k then i else i + 1, if j < k then j else j + 1;
      assert others[i] == note[a] && others[j] == note[b];
    }
    forall i | 0 <= i < |others| ensures !(others[i].secret == secret && others[i].nullifier == nullifier) {
      assert others[i] == note[if i < k then i else i + 1];
    }
  }

  lemma {:induction false} WithoutSubset(note: Note, spent: Coin)
    ensures forall x :: x in Without(note, spent) ==> x in note
  {
    if note != [] {
      WithoutSubset(note[..|note| - 1], spent);
      assert forall x :: x in note[..|note| - 1] ==> x in note;
    }
  }

  /** A payment brings in no pair but that of its change. */
  lemma PayKeepsFresh(note: Note, spent: Coin, payment: nat, env: PayEnv, secret: nat, nullifier: nat)
    requires payment <= spent.amount && FreshPair(note, secret, nullifier)
    requires !(env.newSecret == secret && env.newNullifier == nullifier)
    ensures FreshPair(AfterPay(note, spent, payment, env), secret, nullifier)
  {
    WithoutSubset(note, spent);
    var kept := Without(note, spent);
    forall i | 0 <= i < |kept| ensures !(kept[i].secret == secret && kept[i].nullifier == nullifier) {
      assert kept[i] in note;
    }
  }

  // ---------------------------------------------------------------------------
  // Runs of deposits and payments under the program's rule
  // ---------------------------------------------------------------------------

  /** The amount of each denomination. */
  type Tiers = map<nat, nat>

  predicate FullTier(tiers: Tiers, c: Coin) {
    c.denomId in tiers && c.amount == tiers[c.denomId]
  }

  /** The program's rule: only a coin worth its full tier ever goes through. */
  ghost predicate ChainRule(tiers: Tiers, env: PayEnv) {
    forall c {:trigger env.goesThrough(c)} :: env.goesThrough(c) ==> FullTier(tiers, c)
  }

  datatype Op = Deposits(secret: nat, nullifier: nat, denomId: nat) | Pays(payment: nat, env: PayEnv)

  /** The note after a payment was tried: changed only if the picked coin went through. */
  function TryPay(note: Note, payment: int, env: PayEnv): Note {
    match Pick(note, payment)
    case None => note
    case Some(c) =>
      if 0 < payment && env.goesThrough(c) then
        assert payment <= c.amount;
        AfterPay(note, c, payment, env)
      else note
  }

  predicate PaymentGoesThrough(note: Note, payment: int, env: PayEnv) {
    0 < payment && Pick(note, payment).Some? && env.goesThrough(Pick(note, payment).value)
  }

  /** Randomness the note does not already hold; payments are judged by the program's rule. */
  ghost predicate OpOk(tiers: Tiers, note: Note, op: Op) {
    match op
    case Deposits(secret, nullifier, d) => d in tiers && FreshPair(note, secret, nullifier)
    case Pays(_, env) => ChainRule(tiers, env) && FreshPair(note, env.newSecret, env.newNullifier)
  }

  function ApplyOp(tiers: Tiers, note: Note, op: Op): Note {
    match op
    case Deposits(secret, nullifier, d) => if d in tiers then note + [Coin(secret, nullifier, tiers[d], d)] else note
    case Pays(payment, env) => TryPay(note, payment, env)
  }

  function RunOps(tiers: Tiers, note: Note, ops: seq<Op>): Note {
    if ops == [] then note else ApplyOp(tiers, RunOps(tiers, note, ops[..|ops| - 1]), ops[|ops| - 1])
  }

  ghost predicate RunOk(tiers: Tiers, note: Note, ops: seq<Op>) {
    forall i :: 0 <= i < |ops| ==> OpOk(tiers, RunOps(tiers, note, ops[..i]), ops[i])
  }

  /** What an operation on this note moves: a deposit its tier, a payment that goes through its amount. */
  function Change(tiers: Tiers, note: Note, op: Op): int {
    match op
    case Deposits(_, _, d) => if d in tiers then tiers[d] else 0
    case Pays(payment, env) => if PaymentGoesThrough(note, payment, env) then 0 - payment as int else 0
  }

  /** Deposits minus the payments that went through. */
  function Balance(tiers: Tiers, note: Note, ops: seq<Op>): int {
    if ops == [] then 0
    else
      var init := ops[..|ops| - 1];
      Balance(tiers, note, init) + Change(tiers, RunOps(tiers, note, init), ops[|ops| - 1])
  }

  lemma RunOkPrefix(tiers: Tiers, note: Note, ops: seq<Op>)
    requires ops != [] && RunOk(tiers, note, ops)
    ensures RunOk(tiers, note, ops[..|ops| - 1])
    ensures OpOk(tiers, RunOps(tiers, note, ops[..|ops| - 1]), ops[|ops| - 1])
  {
    var init := ops[..|ops| - 1];
    forall i | 0 <= i < |init| ensures OpOk(tiers, RunOps(tiers, note, init[..i]), init[i]) {
      assert init[..i] == ops[..i];
    }
  }

  lemma StepConservesTotal(tiers: Tiers, note: Note, op: Op)
    requires DistinctPairs(note) && OpOk(tiers, note, op)
    ensures DistinctPairs(ApplyOp(tiers, note, op))
    ensures Total(ApplyOp(tiers, note, op)) == Total(note) + Change(tiers, note, op)
  {
    match op {
      case Deposits(secret, nullifier, d) => TotalAppend(note, Coin(secret, nullifier, tiers[d], d));
      case Pays(payment, env) =>
        if PaymentGoesThrough(note, payment, env) {
          var c := Pick(note, payment).value;
          var k :| 0 <= k < |note| && note[k] == c;
          PayKeepsNote(note, k, payment, env);
        }
    }
  }

  /** Over any run the pairs stay distinct and the total is deposits minus the payments that went through. */
  lemma {:induction false} RunConservesTotal(tiers: Tiers, note: Note, ops: seq<Op>)
    requires DistinctPairs(note) && RunOk(tiers, note, ops)
    ensures DistinctPairs(RunOps(tiers, note, ops))
    ensures Total(RunOps(tiers, note, ops)) == Total(note) + Balance(tiers, note, ops)
  {
    if ops != [] {
      RunOkPrefix(tiers, note, ops);
      RunConservesTotal(tiers, note, ops[..|ops| - 1]);
      StepConservesTotal(tiers, RunOps(tiers, note, ops[..|ops| - 1]), ops[|ops| - 1]);
    }
  }

  // ---------------------------------------------------------------------------
  // What becomes of change
  // ---------------------------------------------------------------------------

  /** A coin of less than its tier survives every operation. */
  lemma StepKeepsChange(tiers: Tiers, note: Note, op: Op, c: Coin)
    requires DistinctPairs(note) && OpOk(tiers, note, op) && c in note && !FullTier(tiers, c)
    ensures c in ApplyOp(tiers, note, op)
  {
    if op.Pays? && PaymentGoesThrough(note, op.payment, op.env) {
      var spent := Pick(note, op.payment).value;
      var k :| 0 <= k < |note| && note[k] == spent;
      var i :| 0 <= i < |note| && note[i] == c;
      WithoutDistinct(note, k);
      var others := note[..k] + note[k + 1..];
      assert others[if i < k then i else i - 1] == c;
    }
  }

  /** So change is never spent: once in the note it stays, whatever is deposited and paid afterwards. */
  lemma {:induction false} ChangeIsNeverSpent(tiers: Tiers, note: Note, ops: seq<Op>, c: Coin)
    requires DistinctPairs(note) && RunOk(tiers, note, ops) && c in note && !FullTier(tiers, c)
    ensures DistinctPairs(RunOps(tiers, note, ops)) && c in RunOps(tiers, note, ops)
  {
    if ops != [] {
      RunOkPrefix(tiers, note, ops);
      ChangeIsNeverSpent(tiers, note, ops[..|ops| - 1], c);
      StepConservesTotal(tiers, RunOps(tiers, note, ops[..|ops| - 1]), ops[|ops| - 1]);
      StepKeepsChange(tiers, RunOps(tiers, note, ops[..|ops| - 1]), ops[|ops| - 1], c);
    }
  }

  /**
   And it stands in the way: while a change coin covers a payment and no tier amount lies between
   the payment and that coin, the payment is refused, now and after every further run, however
   many full-tier coins are deposited.
   */
  lemma ChangeBlocksPayments(tiers: Tiers, note: Note, ops: seq<Op>, c: Coin, payment: int, env: PayEnv)
    requires DistinctPairs(note) && RunOk(tiers, note, ops) && c in note && !FullTier(tiers, c)
    requires ChainRule(tiers, env) && payment <= c.amount
    requires forall d :: d in tiers ==> tiers[d] < payment || c.amount < tiers[d]
    ensures !PaymentGoesThrough(RunOps(tiers, note, ops), payment, env)
    ensures TryPay(RunOps(tiers, note, ops), payment, env) == RunOps(tiers, note, ops)
  {
    ChangeIsNeverSpent(tiers, note, ops, c);
    var picked := Pick(RunOps(tiers, note, ops), payment);
    assert picked.Some? ==> payment <= picked.value.amount <= c.amount;
  }

  /** With one tier of 10: paying 3 leaves 7, and from then on nothing up to 7 can be paid, for ever. */
  lemma PaidOnceBlocksTheRest(tiers: Tiers, note: Note, env: PayEnv, ops: seq<Op>, payment: int, later: PayEnv)
    requires tiers == map[0 := 10] && note == [Coin(1, 1, 10, 0)] && env.goesThrough(note[0])
    requires FreshPair(note, env.newSecret, env.newNullifier)
    requires RunOk(tiers, TryPay(note, 3, env), ops) && ChainRule(tiers, later) && payment <= 7
    ensures TryPay(note, 3, env) == [Coin(env.newSecret, env.newNullifier, 7, 0)]
    ensures !PaymentGoesThrough(RunOps(tiers, TryPay(note, 3, env), ops), payment, later)
  {
    assert note[..0] == [] && Pick(note, 3) == Some(note[0]);
    assert Without(note, note[0]) == [];
    var c := Coin(env.newSecret, env.newNullifier, 7, 0);
    assert TryPay(note, 3, env) == [c];
    if payment > 0 {
      ChangeBlocksPayments(tiers, [c], ops, c, payment, later);
    }
  }

  /**
   Of a 7 left over and a fresh 10, a payment of 5 is made from the 7 and refused, although the
   same payment would go through if the note held the 10 alone.
   */
  lemma SmallerChangeIsPicked(tiers: Tiers, change: Coin, whole: Coin, env: PayEnv)
    requires change.denomId == whole.denomId == 0 && tiers == map[0 := 10]
    requires change.amount == 7 && whole.amount == 10 && ChainRule(tiers, env) && env.goesThrough(whole)
    ensures Pick([change, whole], 5) == Some(change) && !PaymentGoesThrough([change, whole], 5, env)
    ensures PaymentGoesThrough([whole], 5, env)
  {
    assert [change, whole][..1] == [change] && [change][..0] == [] && [whole][..0] == [];
    assert Pick([change], 5) == Some(change);
    assert !FullTier(tiers, change);
  }

  // ---------------------------------------------------------------------------
  // The wallet
  // ---------------------------------------------------------------------------

  /** The part of the SDK object that a deposit or a payment changes. */
  class Wallet {
    var note: Option<Note>
    var lastUpdatedNote: Option<Note>

    constructor ()
      ensures note == None && lastUpdatedNote == None
    {
      note, lastUpdatedNote := None, None;
    }

    function Coins(): Note
      reads this
    {
      if note.Some? then note.value else []
    }

    /** Adds the deposited commitment once the deposit was sent; a failed send throws before this. */
    method Deposit(secret: nat, nullifier: nat, tierAmount: nat, denomId: nat, sent: bool) returns (ok: bool)
      modifies this
      ensures ok == sent
      ensures !sent ==> note == old(note) && lastUpdatedNote == old(lastUpdatedNote)
      ensures sent ==> note == lastUpdatedNote == Some(old(Coins()) + [Coin(secret, nullifier, tierAmount, denomId)])
    {
      if !sent { return false; }
      var current := if note.Some? then note.value else [];
      var next := current + [Coin(secret, nullifier, tierAmount, denomId)];
      note, lastUpdatedNote := Some(next), Some(next);
      return true;
    }

    /** Pays out of the smallest covering coin; anything that throws leaves the note as it was. */
    method PayMicroExact(payment: int, env: PayEnv) returns (r: Result<Note, PayError>)
      modifies this
      ensures r.Ok? <==> PaymentGoesThrough(old(Coins()), payment, env)
      ensures Coins() == TryPay(old(Coins()), payment, env)
      ensures r.Ok? ==> note == lastUpdatedNote == Some(r.value)
      ensures r.Err? ==> note == old(note) && lastUpdatedNote == old(lastUpdatedNote)
    {
      if note.None? || |note.value| == 0 {
        return Err(NoNote);
      }
      if payment <= 0 {
        return Err(NotPositive);
      }
      var picked := PickCoin(note.value, payment);
      if picked.None? {
        return Err(NoCoveringCommitment);
      }
      var commitment := picked.value;
      if !env.goesThrough(commitment) {
        return Err(ChainRefused);
      }
      var change := commitment.amount - payment;
      var updated := Without(note.value, commitment);
      if change > 0 {
        updated := updated + [Coin(env.newSecret, env.newNullifier, change, commitment.denomId)];
      }
      assert updated == AfterPay(note.value, commitment, payment, env);
      note, lastUpdatedNote := Some(updated), Some(updated);
      return Ok(updated);
    }
  }
}
