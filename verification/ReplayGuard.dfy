/**
 The relayer's replay guard: it remembers when it last admitted each transaction and refuses
 the same one again until the time to live has passed.  Expired entries are swept only now
 and then, when the table's size is a multiple of 64.
 */
module ReplayGuard {
  import opened SetFacts

  const SWEEP_EVERY: nat := 64

  /** What a full sweep leaves: the entries still alive. */
  function Sweep(seen: map<string, int>, ttlMs: int, now: int): map<string, int> {
    map k | k in seen && seen[k] + ttlMs > now :: seen[k]
  }

  predicate IsReplay(seen: map<string, int>, hash: string, ttlMs: int, now: int) {
    hash in seen && seen[hash] + ttlMs > now
  }

  predicate SweepDue(seen: map<string, int>) {
    |seen| > 0 && |seen| % SWEEP_EVERY == 0
  }

  /** One call; a guard with `sweeping` off never sweeps and serves as the reference. */
  function Admit(seen: map<string, int>, hash: string, ttlMs: int, now: int, sweeping: bool): (map<string, int>, bool) {
    var kept := if sweeping && SweepDue(seen) then Sweep(seen, ttlMs, now) else seen;
    if IsReplay(kept, hash, ttlMs, now) then (kept, false) else (kept[hash := now], true)
  }

  class Guard {
    const ttlMs: int
    var seen: map<string, int>

    constructor (ttlSeconds: int)
      ensures ttlMs == ttlSeconds * 1000 && seen == map[]
    {
      ttlMs := ttlSeconds * 1000;
      seen := map[];
    }

    /** Deletes expired entries one by one while iterating over the table. */
    method SweepExpired(now: int)
      modifies this`seen
      ensures seen == Sweep(old(seen), ttlMs, now)
      ensures forall k {:trigger k in seen} :: k in seen <==> k in old(seen) && old(seen)[k] + ttlMs > now
      ensures forall k {:trigger seen[k]} :: k in seen ==> seen[k] == old(seen)[k]
    {
      var keys := seen.Keys;
      while keys != {}
        invariant keys <= old(seen).Keys && keys <= seen.Keys
        invariant forall k :: k in seen <==> k in old(seen) && (k in keys || old(seen)[k] + ttlMs > now)
        invariant forall k :: k in seen ==> seen[k] == old(seen)[k]
        decreases |keys|
      {
        var k :| k in keys;
        if seen[k] + ttlMs <= now {
          seen := seen - {k};
        }
        keys := keys - {k};
      }
      assert seen == Sweep(old(seen), ttlMs, now);
    }

    method AdmitTransaction(hash: string, now: int) returns (admitted: bool)
      modifies this`seen
      ensures (seen, admitted) == Admit(old(seen), hash, ttlMs, now, true)
    {
      if |seen| > 0 && |seen| % SWEEP_EVERY == 0 {
        SweepExpired(now);
      }
      if hash in seen && seen[hash] + ttlMs > now {
        return false;
      }
      seen := seen[hash := now];
      return true;
    }
  }

  // ---------------------------------------------------------------------------
  // Runs
  // ---------------------------------------------------------------------------

  datatype Call = Call(hash: string, now: int)

  /** The table, every admitted call, when the last sweep was, and how many calls had been admitted by then. */
  datatype GuardRun = GuardRun(seen: map<string, int>, admitted: seq<Call>, sweptAt: int, sweptAfter: nat)

  function Step(r: GuardRun, c: Call, ttlMs: int, sweeping: bool): GuardRun {
    var (seen, ok) := Admit(r.seen, c.hash, ttlMs, c.now, sweeping);
    var swept := sweeping && SweepDue(r.seen);
    GuardRun(seen, if ok then r.admitted + [c] else r.admitted,
             if swept then c.now else r.sweptAt, if swept then |r.admitted| else r.sweptAfter)
  }

  function Run(calls: seq<Call>, ttlMs: int, sweeping: bool): GuardRun {
    if calls == [] then GuardRun(map[], [], 0, 0)
    else Step(Run(calls[..|calls| - 1], ttlMs, sweeping), calls[|calls| - 1], ttlMs, sweeping)
  }

  /** The guard's own method, called for every call of a run. */
  method Serve(ttlSeconds: int, calls: seq<Call>) returns (guard: Guard, admitted: seq<Call>)
    ensures fresh(guard) && guard.seen == Run(calls, ttlSeconds * 1000, true).seen
    ensures admitted == Run(calls, ttlSeconds * 1000, true).admitted
  {
    guard := new Guard(ttlSeconds);
    admitted := [];
    for i := 0 to |calls|
      invariant fresh(guard) && guard.ttlMs == ttlSeconds * 1000
      invariant guard.seen == Run(calls[..i], ttlSeconds * 1000, true).seen
      invariant admitted == Run(calls[..i], ttlSeconds * 1000, true).admitted
    {
      assert calls[..i + 1][..i] == calls[..i];
      var ok := guard.AdmitTransaction(calls[i].hash, calls[i].now);
      if ok {
        admitted := admitted + [calls[i]];
      }
    }
    assert calls[..|calls|] == calls;
  }

  /** The specification: an earlier admission of the same transaction is still within its time to live. */
  ghost predicate AdmittedRecently(admitted: seq<Call>, hash: string, ttlMs: int, now: int) {
    exists i :: 0 <= i < |admitted| && admitted[i].hash == hash && admitted[i].now + ttlMs > now
  }

  ghost predicate MonotoneClock(calls: seq<Call>) {
    forall i, j :: 0 <= i < j < |calls| ==> calls[i].now <= calls[j].now
  }

  /** No transaction is admitted twice within the time to live. */
  ghost predicate NoReplayWithin(admitted: seq<Call>, ttlMs: int) {
    forall i, j :: 0 <= i < j < |admitted| && admitted[i].hash == admitted[j].hash ==>
      admitted[j].now >= admitted[i].now + ttlMs
  }

  /** Every live admission is in the table. */
  ghost predicate RemembersLive(seen: map<string, int>, admitted: seq<Call>, ttlMs: int, now: int) {
    forall i {:trigger admitted[i]} :: 0 <= i < |admitted| && admitted[i].now + ttlMs > now ==>
      admitted[i].hash in seen && seen[admitted[i].hash] == admitted[i].now
  }

  /** Everything in the table was admitted at that time. */
  ghost predicate RemembersOnlyAdmitted(seen: map<string, int>, admitted: seq<Call>) {
    forall k {:trigger seen[k]} {:trigger k in seen} :: k in seen ==> Call(k, seen[k]) in admitted
  }

  ghost predicate Inv(r: GuardRun, ttlMs: int, now: int) {
    && (forall i {:trigger r.admitted[i]} :: 0 <= i < |r.admitted| ==> r.admitted[i].now <= now)
    && RemembersLive(r.seen, r.admitted, ttlMs, now) && RemembersOnlyAdmitted(r.seen, r.admitted)
    && NoReplayWithin(r.admitted, ttlMs)
  }

  /** How many of these admissions are within their time to live. */
  function Alive(admitted: seq<Call>, ttlMs: int, now: int): nat {
    if admitted == [] then 0
    else
      var before, last := Alive(admitted[..|admitted| - 1], ttlMs, now), admitted[|admitted| - 1];
      if last.now + ttlMs > now then before + 1 else before
  }

  ghost function AliveHashes(admitted: seq<Call>, ttlMs: int, now: int): set<string> {
    set c | c in admitted && c.now + ttlMs > now :: c.hash
  }

  lemma {:induction false} AliveHashesCount(admitted: seq<Call>, ttlMs: int, now: int)
    ensures |AliveHashes(admitted, ttlMs, now)| <= Alive(admitted, ttlMs, now)
  {
    if admitted != [] {
      var init, last := admitted[..|admitted| - 1], admitted[|admitted| - 1];
      AliveHashesCount(init, ttlMs, now);
      assert admitted == init + [last];
      if last.now + ttlMs > now {
        assert AliveHashes(admitted, ttlMs, now) == AliveHashes(init, ttlMs, now) + {last.hash};
      } else {
        assert AliveHashes(admitted, ttlMs, now) == AliveHashes(init, ttlMs, now);
      }
    }
  }

  /** What a sweep leaves is no more than the admissions still alive. */
  lemma SweepLeavesAlive(seen: map<string, int>, admitted: seq<Call>, ttlMs: int, now: int)
    requires RemembersOnlyAdmitted(seen, admitted)
    ensures |Sweep(seen, ttlMs, now)| <= Alive(admitted, ttlMs, now)
  {
    var kept := Sweep(seen, ttlMs, now);
    forall k | k in kept ensures k in AliveHashes(admitted, ttlMs, now) {
      assert Call(k, seen[k]) in admitted;
    }
    SubsetCard(kept.Keys, AliveHashes(admitted, ttlMs, now));
    AliveHashesCount(admitted, ttlMs, now);
    assert |kept| == |kept.Keys|;
  }

  /** The table grows no further than the next multiple of 64 after what was alive at the last sweep. */
  ghost predicate SizeOk(r: GuardRun, ttlMs: int) {
    && r.sweptAfter <= |r.admitted|
    && |r.seen| <= SWEEP_EVERY * (Alive(r.admitted[..r.sweptAfter], ttlMs, r.sweptAt) / SWEEP_EVERY + 1)
  }

  /** The table answers exactly as the full history of admissions would, swept or not. */
  lemma TableMatchesHistory(r: GuardRun, hash: string, ttlMs: int, now: int)
    requires Inv(r, ttlMs, now)
    ensures IsReplay(r.seen, hash, ttlMs, now) <==> AdmittedRecently(r.admitted, hash, ttlMs, now)
    ensures IsReplay(Sweep(r.seen, ttlMs, now), hash, ttlMs, now) <==> IsReplay(r.seen, hash, ttlMs, now)
  {
    if IsReplay(r.seen, hash, ttlMs, now) {
      var i :| 0 <= i < |r.admitted| && r.admitted[i] == Call(hash, r.seen[hash]);
      assert r.admitted[i].hash == hash;
    }
  }

  lemma SizeKept(r: GuardRun, c: Call, ttlMs: int)
    requires SizeOk(r, ttlMs) && RemembersOnlyAdmitted(r.seen, r.admitted)
    ensures SizeOk(Step(r, c, ttlMs, true), ttlMs)
  {
    hide Alive, Sweep, IsReplay, RemembersOnlyAdmitted;
    var r', swept := Step(r, c, ttlMs, true), SweepDue(r.seen);
    var kept := if swept then Sweep(r.seen, ttlMs, c.now) else r.seen;
    assert kept[c.hash := c.now].Keys == kept.Keys + {c.hash};
    assert |kept[c.hash := c.now]| <= |kept| + 1;
    if swept {
      SweepLeavesAlive(r.seen, r.admitted, ttlMs, c.now);
      assert r'.admitted[..|r.admitted|] == r.admitted;
    } else {
      assert r'.admitted[..r.sweptAfter] == r.admitted[..r.sweptAfter];
    }
  }

  lemma AdmissionKeepsSpacing(admitted: seq<Call>, c: Call, ttlMs: int)
    requires NoReplayWithin(admitted, ttlMs) && !AdmittedRecently(admitted, c.hash, ttlMs, c.now)
    ensures NoReplayWithin(admitted + [c], ttlMs)
  {
  }

  lemma AdmitsByHistory(r: GuardRun, c: Call, ttlMs: int, sweeping: bool)
    requires Inv(r, ttlMs, c.now)
    ensures Admit(r.seen, c.hash, ttlMs, c.now, sweeping).1 <==> !AdmittedRecently(r.admitted, c.hash, ttlMs, c.now)
  {
    TableMatchesHistory(r, c.hash, ttlMs, c.now);
    hide Inv, Sweep, AdmittedRecently, IsReplay, SweepDue;
  }

  lemma SweepRemembers(seen: map<string, int>, admitted: seq<Call>, ttlMs: int, now: int)
    requires RemembersLive(seen, admitted, ttlMs, now) && RemembersOnlyAdmitted(seen, admitted)
    ensures RemembersLive(Sweep(seen, ttlMs, now), admitted, ttlMs, now)
    ensures RemembersOnlyAdmitted(Sweep(seen, ttlMs, now), admitted)
  {
  }

  /** A call that is no replay is remembered. */
  lemma AdmissionRemembers(seen: map<string, int>, admitted: seq<Call>, c: Call, ttlMs: int)
    requires RemembersLive(seen, admitted, ttlMs, c.now) && RemembersOnlyAdmitted(seen, admitted)
    requires !IsReplay(seen, c.hash, ttlMs, c.now)
    ensures RemembersLive(seen[c.hash := c.now], admitted + [c], ttlMs, c.now)
    ensures RemembersOnlyAdmitted(seen[c.hash := c.now], admitted + [c])
  {
    var more := admitted + [c];
    assert more[|admitted|] == c;
    forall i {:trigger more[i]} | 0 <= i < |more| && more[i].now + ttlMs > c.now
      ensures more[i].hash in seen[c.hash := c.now] && seen[c.hash := c.now][more[i].hash] == more[i].now
    {
      assert i < |admitted| ==> more[i] == admitted[i];
    }
  }

  lemma StepKeepsInv(r: GuardRun, c: Call, ttlMs: int, sweeping: bool)
    requires Inv(r, ttlMs, c.now) && ttlMs >= 0
    ensures Inv(Step(r, c, ttlMs, sweeping), ttlMs, c.now)
    ensures Admit(r.seen, c.hash, ttlMs, c.now, sweeping).1 <==> !AdmittedRecently(r.admitted, c.hash, ttlMs, c.now)
  {
    AdmitsByHistory(r, c, ttlMs, sweeping);
    hide RemembersLive, RemembersOnlyAdmitted, AdmittedRecently, SweepDue, NoReplayWithin, Sweep, IsReplay;
    SweepRemembers(r.seen, r.admitted, ttlMs, c.now);
    var kept := if sweeping && SweepDue(r.seen) then Sweep(r.seen, ttlMs, c.now) else r.seen;
    if !IsReplay(kept, c.hash, ttlMs, c.now) {
      AdmissionRemembers(kept, r.admitted, c, ttlMs);
      AdmissionKeepsSpacing(r.admitted, c, ttlMs);
    }
  }

  lemma {:induction false} RunKeepsInv(calls: seq<Call>, ttlMs: int, sweeping: bool, now: int)
    requires MonotoneClock(calls) && ttlMs >= 0
    requires calls != [] ==> calls[|calls| - 1].now <= now
    ensures Inv(Run(calls, ttlMs, sweeping), ttlMs, now)
  {
    if calls != [] {
      var last := calls[|calls| - 1];
      RunKeepsInv(calls[..|calls| - 1], ttlMs, sweeping, last.now);
      StepKeepsInv(Run(calls[..|calls| - 1], ttlMs, sweeping), last, ttlMs, sweeping);
    }
  }

  lemma {:induction false} RunKeepsSize(calls: seq<Call>, ttlMs: int)
    requires MonotoneClock(calls) && ttlMs >= 0
    ensures SizeOk(Run(calls, ttlMs, true), ttlMs)
  {
    if calls != [] {
      var init, last := calls[..|calls| - 1], calls[|calls| - 1];
      RunKeepsSize(init, ttlMs);
      RunKeepsInv(init, ttlMs, true, last.now);
      SizeKept(Run(init, ttlMs, true), last, ttlMs);
    }
  }

  /** A guard that sweeps and one that never does admit the same calls. */
  lemma {:induction false} SameAdmissions(calls: seq<Call>, ttlMs: int)
    requires MonotoneClock(calls) && ttlMs >= 0
    ensures Run(calls, ttlMs, true).admitted == Run(calls, ttlMs, false).admitted
  {
    if calls != [] {
      var before, last := calls[..|calls| - 1], calls[|calls| - 1];
      SameAdmissions(before, ttlMs);
      RunKeepsInv(before, ttlMs, true, last.now);
      RunKeepsInv(before, ttlMs, false, last.now);
      StepKeepsInv(Run(before, ttlMs, true), last, ttlMs, true);
      StepKeepsInv(Run(before, ttlMs, false), last, ttlMs, false);
    }
  }

  /**
   Over every run with a monotone clock the sweep is invisible: a call is admitted exactly when
   the same transaction was not admitted less than a time to live ago, which is also what a guard
   that never sweeps decides; none is admitted twice within it; and the table never exceeds the
   number of admissions that were still alive at the last sweep by more than 64.
   */
  lemma SweepIsInvisible(calls: seq<Call>, c: Call, ttlMs: int)
    requires MonotoneClock(calls + [c]) && ttlMs >= 0
    ensures var r, reference := Run(calls, ttlMs, true), Run(calls, ttlMs, false);
            var admits := Admit(r.seen, c.hash, ttlMs, c.now, true).1;
            && (admits <==> !AdmittedRecently(r.admitted, c.hash, ttlMs, c.now))
            && admits == Admit(reference.seen, c.hash, ttlMs, c.now, false).1
            && r.admitted == reference.admitted
            && NoReplayWithin(r.admitted, ttlMs)
            && r.sweptAfter <= |r.admitted|
            && |r.seen| <= Alive(r.admitted[..r.sweptAfter], ttlMs, r.sweptAt) + 64
  {
    assert forall i :: 0 <= i < |calls| ==> (calls + [c])[i] == calls[i];
    if calls != [] {
      assert (calls + [c])[|calls| - 1].now <= (calls + [c])[|calls|].now;
    }
    SameAdmissions(calls, ttlMs);
    RunKeepsSize(calls, ttlMs);
    RunKeepsInv(calls, ttlMs, true, c.now);
    RunKeepsInv(calls, ttlMs, false, c.now);
    StepKeepsInv(Run(calls, ttlMs, true), c, ttlMs, true);
    StepKeepsInv(Run(calls, ttlMs, false), c, ttlMs, false);
  }
}
