/**
 The poller's walk over the signature history.  The node answers newest first, one page at a
 time; new signatures may arrive between pages.
 */
module Pagination {
  import opened Wrappers

  const PAGE_LIMIT: nat := 1000

  ghost predicate Distinct<T>(s: seq<T>) {
    forall i, j :: 0 <= i < j < |s| ==> s[i] != s[j]
  }

  function IndexOf<T(==)>(s: seq<T>, x: T): (i: nat)
    ensures i <= |s|
    ensures i < |s| ==> s[i] == x
    ensures i == |s| ==> x !in s
  {
    if s == [] then 0
    else if s[|s| - 1] == x then |s| - 1
    else
      var i := IndexOf(s[..|s| - 1], x);
      if i == |s| - 1 then |s| else i
  }

  lemma DistinctIndex<T>(s: seq<T>, i: nat)
    requires Distinct(s) && i < |s|
    ensures IndexOf(s, s[i]) == i
  {
  }

  function Reverse<T>(s: seq<T>): (r: seq<T>)
    ensures |r| == |s|
    ensures forall i {:trigger r[i]} :: 0 <= i < |r| ==> r[i] == s[|s| - 1 - i]
  {
    if s == [] then [] else [s[|s| - 1]] + Reverse(s[..|s| - 1])
  }

  lemma ReverseTwice<T>(s: seq<T>)
    ensures Reverse(Reverse(s)) == s
  {
  }

  lemma ReverseConcat<T>(a: seq<T>, b: seq<T>)
    ensures Reverse(a + b) == Reverse(b) + Reverse(a)
  {
  }

  /** Where the answer starts: just after `until`, or at the beginning of history. */
  function Start<T(==)>(history: seq<T>, until: Option<T>): (lo: nat)
    ensures lo <= |history|
  {
    if until.Some? && until.value in history then IndexOf(history, until.value) + 1 else 0
  }

  /** Where the answer ends: just before `before`, or at the newest signature. */
  function End<T(==)>(history: seq<T>, before: Option<T>): (hi: nat)
    ensures hi <= |history|
  {
    if before.Some? then IndexOf(history, before.value) else |history|
  }

  /** The first position of the page that ends below hi. */
  function PageStart(lo: nat, hi: nat, limit: nat): (from: nat)
    requires lo < hi && limit > 0
    ensures lo <= from < hi && hi - from <= limit
    ensures hi - from < limit ==> from == lo
  {
    if hi - lo > limit then hi - limit else lo
  }

  /** The newest `limit` signatures of a range, newest first. */
  function Page<T>(history: seq<T>, lo: nat, hi: nat, limit: nat): seq<T>
    requires hi <= |history| && limit > 0
  {
    if hi <= lo then [] else Reverse(history[PageStart(lo, hi, limit)..hi])
  }

  /**
   The node's answer over the history it has now, oldest first: the signatures strictly between
   `until` and `before`, newest first, at most `limit` of them.
   */
  function SignaturesForAddress<T(==)>(history: seq<T>, before: Option<T>, until: Option<T>, limit: nat): seq<T>
    requires limit > 0
  {
    Page(history, Start(history, until), End(history, before), limit)
  }

  lemma PageOfPrefix<T>(s: seq<T>, lo: nat, hi: nat, limit: nat, n: nat)
    requires hi <= n <= |s| && limit > 0
    ensures Page(s[..n], lo, hi, limit) == Page(s, lo, hi, limit)
  {
    if lo < hi {
      var from := PageStart(lo, hi, limit);
      assert s[..n][from..hi] == s[from..hi];
    }
  }

  lemma IndexInPrefix<T>(s: seq<T>, x: T, first: nat, n: nat)
    requires Distinct(s) && first <= n <= |s| && x in s[..first]
    ensures IndexOf(s[..n], x) == IndexOf(s[..first], x) < first
  {
    var i := IndexOf(s[..first], x);
    assert s[..n][i] == x;
    DistinctIndex(s[..n], i);
  }

  /** New signatures at the head do not move the point where the walk stops. */
  lemma StartStable<T>(chain: seq<T>, first: nat, seen: nat, until: Option<T>)
    requires Distinct(chain) && first <= seen <= |chain|
    requires until.Some? ==> until.value in chain[..first]
    ensures Start(chain[..seen], until) == Start(chain[..first], until)
  {
    if until.Some? {
      IndexInPrefix(chain, until.value, first, seen);
      assert chain[..seen][IndexOf(chain[..first], until.value)] == until.value;
    }
  }

  /** What the node answers when the walk has come down to position hi. */
  lemma PageSlice<T>(chain: seq<T>, seen: nat, hi: nat, first: nat, before: Option<T>, until: Option<T>, limit: nat)
    requires Distinct(chain) && hi <= first <= seen <= |chain| && limit > 0
    requires until.Some? ==> until.value in chain[..first]
    requires if hi == first then before == None && seen == first else before == Some(chain[hi])
    ensures SignaturesForAddress(chain[..seen], before, until, limit) ==
              Page(chain, Start(chain[..first], until), hi, limit)
  {
    StartStable(chain, first, seen, until);
    if hi < first {
      assert chain[..seen][hi] == chain[hi];
      DistinctIndex(chain[..seen], hi);
    }
    PageOfPrefix(chain, Start(chain[..first], until), hi, limit, seen);
  }

  /** Appending a page to the newest-first collection extends it downwards. */
  lemma CollectPage<T>(chain: seq<T>, from: nat, hi: nat, first: nat)
    requires from < hi <= first <= |chain|
    ensures Reverse(chain[hi..first]) + Reverse(chain[from..hi]) == Reverse(chain[from..first])
    ensures Reverse(chain[from..hi])[hi - from - 1] == chain[from]
  {
    var page := chain[from..hi];
    assert Reverse(page)[|page| - 1] == page[0];
    hide Reverse;
    ReverseConcat(chain[from..hi], chain[hi..first]);
    assert chain[from..first] == chain[from..hi] + chain[hi..first];
  }

  /**
   The paging loop.  `chain` is the eventual history, oldest first, and `visible(i)` is how much
   of it the node has when the i-th page is requested.  Returns exactly the signatures newer than
   `until` that existed at the first page, oldest first, each once, whatever arrived meanwhile.
   */
  method GetNewSignatures<T(==)>(chain: seq<T>, visible: nat -> nat, until: Option<T>, limit: nat)
    returns (sigs: seq<T>)
    requires Distinct(chain) && limit > 0
    requires forall i: nat :: visible(0) <= visible(i) <= |chain|
    requires until.Some? ==> until.value in chain[..visible(0)]
    ensures sigs == chain[Start(chain[..visible(0)], until)..visible(0)]
  {
    hide Start, Reverse, Distinct, SignaturesForAddress;
    var collected: seq<T> := [];
    var before: Option<T> := None;
    var pageNo := 0;
    ghost var first := visible(0);
    ghost var lo := Start(chain[..first], until);
    ghost var hi := first;
    while true
      invariant lo <= hi <= first
      invariant hi == first <==> pageNo == 0
      invariant before == if hi == first then None else Some(chain[hi])
      invariant collected == Reverse(chain[hi..first])
      decreases hi
    {
      PageSlice(chain, visible(pageNo), hi, first, before, until, limit);
      var page := SignaturesForAddress(chain[..visible(pageNo)], before, until, limit);
      if |page| == 0 { break; }
      ghost var from := PageStart(lo, hi, limit);
      CollectPage(chain, from, hi, first);
      collected := collected + page;
      hi := from;
      if |page| < limit { break; }
      before := Some(page[|page| - 1]);
      pageNo := pageNo + 1;
    }
    assert hi == lo;
    ReverseTwice(chain[hi..first]);
    sigs := Reverse(collected);
  }
}
