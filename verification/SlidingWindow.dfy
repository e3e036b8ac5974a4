/** The list of recent times that the relayer's guards keep, oldest first. */
module SlidingWindow {

  ghost predicate Sorted(s: seq<int>) {
    forall i, j :: 0 <= i < j < |s| ==> s[i] <= s[j]
  }

  /** Drops the leading times that are at or before the cutoff. */
  function Trim(hits: seq<int>, cutoff: int): seq<int> {
    if hits != [] && hits[0] <= cutoff then Trim(hits[1..], cutoff) else hits
  }

  /** What is dropped is an expired prefix; what stays starts inside the window. */
  lemma {:induction false} TrimDropsExpired(hits: seq<int>, cutoff: int)
    ensures var live := Trim(hits, cutoff);
            && |live| <= |hits| && live == hits[|hits| - |live|..]
            && (live != [] ==> live[0] > cutoff)
            && forall i :: 0 <= i < |hits| - |live| ==> hits[i] <= cutoff
  {
    if hits != [] && hits[0] <= cutoff {
      TrimDropsExpired(hits[1..], cutoff);
      var live := Trim(hits[1..], cutoff);
      forall i | 0 <= i < |hits| - |live| ensures hits[i] <= cutoff {
        if i > 0 { assert hits[i] == hits[1..][i - 1]; }
      }
    }
  }

  /** The loop that shifts expired times off the front. */
  method DropExpired(hits: seq<int>, cutoff: int) returns (live: seq<int>)
    ensures live == Trim(hits, cutoff)
  {
    live := hits;
    while |live| > 0 && live[0] <= cutoff
      invariant Trim(live, cutoff) == Trim(hits, cutoff)
    {
      live := live[1..];
    }
  }

  /** How many of the times are after the cutoff. */
  function Within(times: seq<int>, cutoff: int): nat {
    if times == [] then 0
    else Within(times[..|times| - 1], cutoff) + if times[|times| - 1] > cutoff then 1 else 0
  }

  lemma {:induction false} WithinTail(times: seq<int>, n: nat, cutoff: int)
    requires n <= |times| && forall i :: 0 <= i < |times| ==> (times[i] > cutoff <==> i >= |times| - n)
    ensures Within(times, cutoff) == n
  {
    if times != [] {
      WithinTail(times[..|times| - 1], if n > 0 then n - 1 else 0, cutoff);
    }
  }

  /** The list keeps the latest of the times, in order, and only times up to the cutoff are missing. */
  ghost predicate KeepsLatest(hits: seq<int>, times: seq<int>, cutoff: int) {
    && Sorted(times) && |hits| <= |times| && hits == times[|times| - |hits|..]
    && forall i {:trigger times[i]} :: 0 <= i < |times| - |hits| ==> times[i] <= cutoff
  }

  lemma TrimKeepsLatest(hits: seq<int>, times: seq<int>, earlier: int, cutoff: int)
    requires KeepsLatest(hits, times, earlier) && earlier <= cutoff
    ensures KeepsLatest(Trim(hits, cutoff), times, cutoff)
  {
    TrimDropsExpired(hits, cutoff);
    var live, lost := Trim(hits, cutoff), |times| - |hits|;
    hide Trim, Sorted;
    forall i {:trigger times[i]} | 0 <= i < |times| - |live| ensures times[i] <= cutoff {
      if i >= lost {
        assert times[i] == hits[i - lost];
      }
    }
    assert live == times[|times| - |live|..];
  }

  lemma AppendKeepsLatest(hits: seq<int>, times: seq<int>, cutoff: int, now: int)
    requires KeepsLatest(hits, times, cutoff) && (times != [] ==> times[|times| - 1] <= now)
    ensures KeepsLatest(hits + [now], times + [now], cutoff)
  {
    assert (times + [now])[|times| - |hits|..] == hits + [now];
  }

  /** Trimming such a list leaves as many as there are times after the cutoff. */
  lemma TrimCounts(times: seq<int>, hits: seq<int>, earlier: int, cutoff: int)
    requires KeepsLatest(hits, times, earlier) && earlier <= cutoff
    ensures |Trim(hits, cutoff)| == Within(times, cutoff)
  {
    TrimDropsExpired(hits, cutoff);
    TrimKeepsLatest(hits, times, earlier, cutoff);
    var live := Trim(hits, cutoff);
    hide Trim;
    forall i | 0 <= i < |times| ensures times[i] > cutoff <==> i >= |times| - |live| {
      if i >= |times| - |live| {
        assert times[|times| - |live|] == live[0];
      }
    }
    WithinTail(times, |live|, cutoff);
  }
}
