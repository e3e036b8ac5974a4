/**
 The relayer's in-memory sliding-window limiter.  A bucket keeps the times of its recent
 admissions, oldest first; each check drops the expired ones and admits when there is room.
 */
module RateLimit {
  import opened Wrappers
  import opened SlidingWindow

  datatype Decision =
    | Admitted(remaining: int)
    | Limited(retryAfterSeconds: Option<int>)

  /** Milliseconds rounded up to whole seconds. */
  function CeilSeconds(ms: int): (s: int)
    ensures 1000 * (s - 1) < ms <= 1000 * s
  {
    (ms + 999) / 1000
  }

  // ---------------------------------------------------------------------------
  // One check
  // ---------------------------------------------------------------------------

  /** The bucket after a check and the decision; with no hit to wait for, the retry time is not a number. */
  function CheckBucket(hits: seq<int>, now: int, windowMs: int, limit: int): (seq<int>, Decision) {
    var live := Trim(hits, now - windowMs);
    if |live| >= limit then
      (live, Limited(if live == [] then None else Some(CeilSeconds(live[0] + windowMs - now))))
    else
      (live + [now], Admitted(limit - |live| - 1))
  }

  class RateLimiter {
    var buckets: map<string, seq<int>>

    constructor ()
      ensures buckets == map[]
    {
      buckets := map[];
    }

    method Check(key: string, windowSeconds: int, limit: int, now: int) returns (d: Decision)
      modifies this`buckets
      ensures var hits := if key in old(buckets) then old(buckets)[key] else [];
              var (after, decision) := CheckBucket(hits, now, windowSeconds * 1000, limit);
              buckets == old(buckets)[key := after] && d == decision
    {
      var windowMs := windowSeconds * 1000;
      var cutoff := now - windowMs;
      var hits := [];
      if key in buckets {
        hits := buckets[key];
      }
      hits := DropExpired(hits, cutoff);
      if |hits| >= limit {
        buckets := buckets[key := hits];
        if |hits| == 0 {
          return Limited(None);
        }
        var retryAfterMs := hits[0] + windowMs - now;
        return Limited(Some(CeilSeconds(retryAfterMs)));
      }
      hits := hits + [now];
      buckets := buckets[key := hits];
      return Admitted(limit - |hits|);
    }
  }

  // ---------------------------------------------------------------------------
  // Runs of checks on one key
  // ---------------------------------------------------------------------------

  /** The bucket and every admission so far. */
  datatype KeyRun = KeyRun(hits: seq<int>, admitted: seq<int>)

  function Step(r: KeyRun, now: int, windowMs: int, limit: int): KeyRun {
    var (hits, d) := CheckBucket(r.hits, now, windowMs, limit);
    KeyRun(hits, if d.Admitted? then r.admitted + [now] else r.admitted)
  }

  function Run(times: seq<int>, windowMs: int, limit: int): KeyRun {
    if times == [] then KeyRun([], [])
    else Step(Run(times[..|times| - 1], windowMs, limit), times[|times| - 1], windowMs, limit)
  }

  /** No limit + 1 admissions fall within less than a window. */
  ghost predicate Spaced(admitted: seq<int>, windowMs: int, limit: nat) {
    forall i, j :: 0 <= i && i + limit <= j < |admitted| ==> admitted[j] - admitted[i] >= windowMs
  }

  ghost predicate IsTail(hits: seq<int>, admitted: seq<int>) {
    && |hits| <= |admitted|
    && forall i :: |admitted| - |hits| <= i < |admitted| ==> hits[i - (|admitted| - |hits|)] == admitted[i]
  }

  /** The bucket is the tail of the admissions, and everything before it has expired. */
  ghost predicate RunOk(r: KeyRun, now: int, windowMs: int, limit: nat) {
    && IsTail(r.hits, r.admitted)
    && |r.hits| <= limit
    && Sorted(r.admitted) && Spaced(r.admitted, windowMs, limit)
    && (forall i :: 0 <= i < |r.admitted| ==> r.admitted[i] <= now)
    && (forall i :: 0 <= i < |r.admitted| - |r.hits| ==> r.admitted[i] <= now - windowMs)
  }

  /** After trimming, everything admitted before the remaining hits has expired. */
  lemma TrimmedTail(r: KeyRun, earlier: int, now: int, windowMs: int, limit: nat)
    requires RunOk(r, earlier, windowMs, limit) && earlier <= now
    ensures RunOk(r.(hits := Trim(r.hits, now - windowMs)), now, windowMs, limit)
  {
    TrimDropsExpired(r.hits, now - windowMs);
    var live, lost := Trim(r.hits, now - windowMs), |r.admitted| - |r.hits|;
    forall i | |r.admitted| - |live| <= i < |r.admitted| ensures live[i - (|r.admitted| - |live|)] == r.admitted[i] {
      assert live[i - (|r.admitted| - |live|)] == r.hits[i - lost];
    }
    forall i | 0 <= i < |r.admitted| - |live| ensures r.admitted[i] <= now - windowMs {
      if i >= lost {
        assert r.admitted[i] == r.hits[i - lost];
      }
    }
  }

  lemma AdmissionKeepsSpacing(r: KeyRun, now: int, windowMs: int, limit: nat)
    requires RunOk(r, now, windowMs, limit) && |r.hits| < limit
    ensures RunOk(KeyRun(r.hits + [now], r.admitted + [now]), now, windowMs, limit)
  {
    var admitted := r.admitted + [now];
    forall i, j | 0 <= i && i + limit <= j < |admitted| ensures admitted[j] - admitted[i] >= windowMs {
      if j == |r.admitted| {
        assert i < |r.admitted| - |r.hits|;
      }
    }
  }

  lemma StepKeepsRunOk(r: KeyRun, earlier: int, now: int, windowMs: int, limit: nat)
    requires RunOk(r, earlier, windowMs, limit) && earlier <= now && limit >= 1
    ensures RunOk(Step(r, now, windowMs, limit), now, windowMs, limit)
  {
    TrimmedTail(r, earlier, now, windowMs, limit);
    var trimmed := r.(hits := Trim(r.hits, now - windowMs));
    if |trimmed.hits| < limit {
      AdmissionKeepsSpacing(trimmed, now, windowMs, limit);
    }
  }

  lemma {:induction false} RunKeepsRunOk(times: seq<int>, windowMs: int, limit: nat)
    requires Sorted(times) && limit >= 1
    ensures times == [] ==> Run(times, windowMs, limit) == KeyRun([], [])
    ensures times != [] ==> RunOk(Run(times, windowMs, limit), times[|times| - 1], windowMs, limit)
  {
    if times != [] {
      var last := |times| - 1;
      RunKeepsRunOk(times[..last], windowMs, limit);
      var before := Run(times[..last], windowMs, limit);
      if last == 0 {
        assert RunOk(before, times[0], windowMs, limit);
        StepKeepsRunOk(before, times[0], times[0], windowMs, limit);
      } else {
        StepKeepsRunOk(before, times[last - 1], times[last], windowMs, limit);
      }
    }
  }

  /**
   Over every run with a monotone clock, admissions first..last that all fall within less than
   a window number at most `limit`, and a bucket never holds more than `limit` hits, sorted.
   */
  lemma WindowBound(times: seq<int>, windowMs: int, limit: nat, first: nat, last: nat)
    requires Sorted(times) && limit >= 1
    ensures var r := Run(times, windowMs, limit);
            && |r.hits| <= limit && IsTail(r.hits, r.admitted) && Sorted(r.hits)
            && (first <= last < |r.admitted| && r.admitted[last] - r.admitted[first] < windowMs ==>
                  last - first + 1 <= limit)
  {
    RunKeepsRunOk(times, windowMs, limit);
    var r := Run(times, windowMs, limit);
    var lost := |r.admitted| - |r.hits|;
    forall i, j | 0 <= i < j < |r.hits| ensures r.hits[i] <= r.hits[j] {
      assert r.hits[i] == r.admitted[i + lost] && r.hits[j] == r.admitted[j + lost];
    }
  }

  lemma {:induction false} NothingAdmitted(times: seq<int>, windowMs: int, limit: int)
    requires limit <= 0
    ensures Run(times, windowMs, limit) == KeyRun([], [])
  {
    if times != [] {
      NothingAdmitted(times[..|times| - 1], windowMs, limit);
    }
  }

  /**
   After every run with a monotone clock a check is admitted exactly when fewer than `limit`
   admissions are less than a window old, and it is told how many more there is room for.
   */
  lemma AdmitsExactlyWhen(times: seq<int>, now: int, windowMs: int, limit: int)
    requires Sorted(times) && (times != [] ==> times[|times| - 1] <= now)
    ensures var r := Run(times, windowMs, limit);
            var d, count := CheckBucket(r.hits, now, windowMs, limit).1, Within(r.admitted, now - windowMs);
            && (d.Admitted? <==> count < limit)
            && (d.Admitted? ==> d.remaining == limit - count - 1)
  {
    hide Trim, KeepsLatest, RunOk, Run, Within;
    var r := Run(times, windowMs, limit);
    if limit <= 0 {
      NothingAdmitted(times, windowMs, limit);
    } else {
      RunKeepsRunOk(times, windowMs, limit);
      var last := if times == [] then now else times[|times| - 1];
      TailIsLatest(r, last, windowMs, limit);
      TrimCounts(r.admitted, r.hits, last - windowMs, now - windowMs);
    }
  }

  lemma TailIsLatest(r: KeyRun, now: int, windowMs: int, limit: nat)
    requires r == KeyRun([], []) || RunOk(r, now, windowMs, limit)
    ensures KeepsLatest(r.hits, r.admitted, now - windowMs)
  {
    assert r.hits == r.admitted[|r.admitted| - |r.hits|..];
  }

  /**
   A rejected caller is told a positive wait; if nobody else uses the key, a check at any time
   after that wait is admitted.  The wait is tight: up to a second of rounding, a check before
   it is rejected again.
   */
  lemma RetryAfterIsHonoured(times: seq<int>, now: int, later: int, windowMs: int, limit: nat)
    requires Sorted(times + [now]) && limit >= 1 && now <= later
    requires CheckBucket(Run(times, windowMs, limit).hits, now, windowMs, limit).1.Limited?
    ensures CheckBucket(Run(times, windowMs, limit).hits, now, windowMs, limit).1.retryAfterSeconds.Some?
    ensures var wait := CheckBucket(Run(times, windowMs, limit).hits, now, windowMs, limit).1.retryAfterSeconds.value;
            var next := CheckBucket(Run(times + [now], windowMs, limit).hits, later, windowMs, limit).1;
            && wait >= 1
            && (later >= now + 1000 * wait ==> next.Admitted?)
            && (later <= now + 1000 * (wait - 1) ==> next.Limited?)
  {
    var all := times + [now];
    assert all[..|times|] == times;
    RunKeepsRunOk(all, windowMs, limit);
    var live := Run(all, windowMs, limit).hits;
    assert live == Trim(Run(times, windowMs, limit).hits, now - windowMs);
    TrimDropsExpired(Run(times, windowMs, limit).hits, now - windowMs);
    assert |live| == limit;
    TrimDropsExpired(live, later - windowMs);
  }

  // ---------------------------------------------------------------------------
  // Many keys
  // ---------------------------------------------------------------------------

  /** One call of the limiter: the window and the limit come with it. */
  datatype KeyedCheck = KeyedCheck(key: string, windowSeconds: int, limit: int, now: int)

  function Bucket(buckets: map<string, seq<int>>, key: string): seq<int> {
    if key in buckets then buckets[key] else []
  }

  /** What a check makes of the table. */
  function Checked(buckets: map<string, seq<int>>, c: KeyedCheck): (seq<int>, Decision) {
    CheckBucket(Bucket(buckets, c.key), c.now, c.windowSeconds * 1000, c.limit)
  }

  /** The limiter's table after a run of checks by many callers. */
  function Buckets(checks: seq<KeyedCheck>): map<string, seq<int>> {
    if checks == [] then map[]
    else
      var before, c := Buckets(checks[..|checks| - 1]), checks[|checks| - 1];
      before[c.key := Checked(before, c).0]
  }

  /** When checks on the key were admitted in the run of everybody's checks. */
  function Admissions(checks: seq<KeyedCheck>, key: string): seq<int> {
    if checks == [] then []
    else
      var init, c := checks[..|checks| - 1], checks[|checks| - 1];
      Admissions(init, key) + if c.key == key && Checked(Buckets(init), c).1.Admitted? then [c.now] else []
  }

  lemma NothingChecked(checks: seq<KeyedCheck>)
    ensures Buckets(checks[..0]) == map[]
  {
  }

  lemma BucketsStep(checks: seq<KeyedCheck>, i: nat)
    requires i < |checks|
    ensures Buckets(checks[..i + 1]) ==
              var before := Buckets(checks[..i]);
              before[checks[i].key := Checked(before, checks[i]).0]
  {
    assert checks[..i + 1][..i] == checks[..i];
  }

  /** The limiter, called by many callers. */
  method Serve(checks: seq<KeyedCheck>) returns (limiter: RateLimiter, decisions: seq<Decision>)
    ensures fresh(limiter) && limiter.buckets == Buckets(checks)
    ensures |decisions| == |checks|
    ensures forall i :: 0 <= i < |checks| ==> decisions[i] == Checked(Buckets(checks[..i]), checks[i]).1
  {
    limiter := new RateLimiter();
    decisions := [];
    NothingChecked(checks);
    hide CheckBucket, Buckets;
    for i := 0 to |checks|
      invariant fresh(limiter) && limiter.buckets == Buckets(checks[..i]) && |decisions| == i
      invariant forall j :: 0 <= j < i ==> decisions[j] == Checked(Buckets(checks[..j]), checks[j]).1
    {
      var c := checks[i];
      BucketsStep(checks, i);
      var d := limiter.Check(c.key, c.windowSeconds, c.limit, c.now);
      decisions := decisions + [d];
    }
    assert checks[..|checks|] == checks;
  }

  function ChecksOf(checks: seq<KeyedCheck>, key: string): seq<KeyedCheck> {
    if checks == [] then []
    else
      var c := checks[|checks| - 1];
      ChecksOf(checks[..|checks| - 1], key) + if c.key == key then [c] else []
  }

  function Times(checks: seq<KeyedCheck>): seq<int> {
    seq(|checks|, i requires 0 <= i < |checks| => checks[i].now)
  }

  ghost predicate SameTerms(checks: seq<KeyedCheck>, windowSeconds: int, limit: int) {
    forall c {:trigger c in checks} :: c in checks ==> c.windowSeconds == windowSeconds && c.limit == limit
  }

  lemma OwnChecksLast(checks: seq<KeyedCheck>, key: string)
    requires checks != []
    ensures var init, c := ChecksOf(checks[..|checks| - 1], key), checks[|checks| - 1];
            if c.key == key
            then
              var own := ChecksOf(checks, key);
              && own == init + [c] && own[..|own| - 1] == init && own[|own| - 1] == c && c in own
              && Times(own) == Times(init) + [c.now] && Times(own)[..|init|] == Times(init)
              && forall e :: e in init ==> e in own
            else ChecksOf(checks, key) == init
  {
  }

  /** Keys do not interfere: a bucket is what the key's own checks alone would leave, whatever terms the others use. */
  lemma {:induction false} KeysAreIndependent(checks: seq<KeyedCheck>, key: string)
    ensures Bucket(Buckets(checks), key) == Bucket(Buckets(ChecksOf(checks, key)), key)
    ensures Admissions(checks, key) == Admissions(ChecksOf(checks, key), key)
  {
    if checks != [] {
      KeysAreIndependent(checks[..|checks| - 1], key);
      OwnChecksLast(checks, key);
      hide CheckBucket;
    }
  }

  /** With fixed terms, the checks on one key are a run that the bounds above are about. */
  lemma {:induction false} OwnChecksRun(checks: seq<KeyedCheck>, key: string, windowSeconds: int, limit: int)
    requires SameTerms(ChecksOf(checks, key), windowSeconds, limit)
    ensures var r := Run(Times(ChecksOf(checks, key)), windowSeconds * 1000, limit);
            Bucket(Buckets(checks), key) == r.hits && Admissions(checks, key) == r.admitted
  {
    if checks != [] {
      OwnChecksLast(checks, key);
      OwnChecksRun(checks[..|checks| - 1], key, windowSeconds, limit);
      hide CheckBucket;
    }
  }

  lemma {:induction false} OwnTimesSorted(checks: seq<KeyedCheck>, key: string, now: int)
    requires Sorted(Times(checks)) && (checks != [] ==> checks[|checks| - 1].now <= now)
    ensures Sorted(Times(ChecksOf(checks, key)))
    ensures forall t :: t in Times(ChecksOf(checks, key)) ==> t <= now
  {
    if checks != [] {
      var last := |checks| - 1;
      assert forall i :: 0 <= i < |checks| ==> Times(checks)[i] == checks[i].now;
      assert Times(checks[..last]) == Times(checks)[..last];
      OwnTimesSorted(checks[..last], key, checks[last].now);
      OwnChecksLast(checks, key);
      var before := Times(ChecksOf(checks[..last], key));
      assert forall i :: 0 <= i < |before| ==> before[i] in before;
    }
  }

  /**
   Whatever else the limiter is asked, with a monotone clock and fixed terms for the key, admissions
   on it that all fall within less than a window number at most `limit`.
   */
  lemma KeyIsBounded(checks: seq<KeyedCheck>, key: string, windowSeconds: int, limit: nat, first: nat, last: nat)
    requires Sorted(Times(checks)) && limit >= 1 && SameTerms(ChecksOf(checks, key), windowSeconds, limit)
    ensures var admitted := Admissions(checks, key);
            first <= last < |admitted| && admitted[last] - admitted[first] < windowSeconds * 1000 ==>
              last - first + 1 <= limit
    ensures |Bucket(Buckets(checks), key)| <= limit
  {
    OwnTimesSorted(checks, key, if checks == [] then 0 else checks[|checks| - 1].now);
    OwnChecksRun(checks, key, windowSeconds, limit);
    WindowBound(Times(ChecksOf(checks, key)), windowSeconds * 1000, limit, first, last);
  }

  /** And a check on it is admitted exactly when fewer than `limit` of the key's own admissions are in its window. */
  lemma KeyAdmitsExactlyWhen(checks: seq<KeyedCheck>, c: KeyedCheck)
    requires Sorted(Times(checks)) && (checks != [] ==> checks[|checks| - 1].now <= c.now)
    requires SameTerms(ChecksOf(checks, c.key), c.windowSeconds, c.limit)
    ensures var d := Checked(Buckets(checks), c).1;
            var count := Within(Admissions(checks, c.key), c.now - c.windowSeconds * 1000);
            && (d.Admitted? <==> count < c.limit)
            && (d.Admitted? ==> d.remaining == c.limit - count - 1)
  {
    hide CheckBucket, Run, Within, Sorted, ChecksOf, SameTerms, Buckets, Admissions;
    var own := Times(ChecksOf(checks, c.key));
    OwnTimesSorted(checks, c.key, c.now);
    OwnChecksRun(checks, c.key, c.windowSeconds, c.limit);
    assert own != [] ==> own[|own| - 1] in own;
    AdmitsExactlyWhen(own, c.now, c.windowSeconds * 1000, c.limit);
  }

  /** Keys never age out: the table has every key ever checked, however long ago. */
  lemma {:induction false} KeysAreNeverDropped(checks: seq<KeyedCheck>)
    ensures Buckets(checks).Keys == set c | c in checks :: c.key
  {
    if checks != [] {
      var init, c := checks[..|checks| - 1], checks[|checks| - 1];
      KeysAreNeverDropped(init);
      assert checks == init + [c];
    }
  }

  /** Nor does what a bucket holds expire by itself: only a check on the key trims it. */
  lemma ExpiredHitStays(key: string, other: string, windowSeconds: int, limit: int, now: int, later: int)
    requires key != other && limit >= 1 && now + windowSeconds * 1000 <= later
    ensures var checks := [KeyedCheck(key, windowSeconds, limit, now), KeyedCheck(other, windowSeconds, limit, later)];
            key in Buckets(checks) && Buckets(checks)[key] == [now]
  {
    var c, e := KeyedCheck(key, windowSeconds, limit, now), KeyedCheck(other, windowSeconds, limit, later);
    assert [c, e][..1] == [c] && [c][..0] == [];
    assert Checked(map[], c).0 == [now];
    assert Buckets([c]) == map[key := [now]];
  }
}
