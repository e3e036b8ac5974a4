/**
 The relayer's guard over its own balance: a cap on sends per window and a floor on the
 fee-payer's balance.  A request tests the window, may wait for the balance, sends, and only
 then commits its send; other requests run in between.
 */
module SpendGuard {
  import opened Wrappers
  import opened SlidingWindow
  import opened SetFacts

  datatype Decision =
    | Allowed
    | SpendCap
    | BalanceCheckFailed
    | BalanceLow

  /** Where a check stands after its first synchronous part. */
  datatype Progress = Decided(decision: Decision) | NeedsBalance

  /** The guard's closure state. */
  datatype GuardState = GuardState(hits: seq<int>, cachedBalance: int, cachedAt: int)

  datatype Config = Config(minBalanceLamports: int, maxPerWindow: int, windowMs: int, cacheMs: int)

  function JudgeBalance(cfg: Config, balance: int): Decision {
    if balance < cfg.minBalanceLamports then BalanceLow else Allowed
  }

  function BeginCheck(cfg: Config, g: GuardState, now: int): (GuardState, Progress) {
    var live := g.(hits := Trim(g.hits, now - cfg.windowMs));
    if |live.hits| >= cfg.maxPerWindow then (live, Decided(SpendCap))
    else if now - g.cachedAt < cfg.cacheMs then (live, Decided(JudgeBalance(cfg, g.cachedBalance)))
    else (live, NeedsBalance)
  }

  /** Resumes after the balance request; an unreachable node refuses the spend. */
  function FinishCheck(cfg: Config, g: GuardState, now: int, balance: Option<int>): (GuardState, Decision) {
    match balance
    case None => (g, BalanceCheckFailed)
    case Some(b) => (g.(cachedBalance := b, cachedAt := now), JudgeBalance(cfg, b))
  }

  function CommitSend(g: GuardState, now: int): GuardState {
    g.(hits := g.hits + [now])
  }

  class Guard {
    const cfg: Config
    var cachedBalance: int
    var cachedAt: int
    var hits: seq<int>

    function View(): GuardState
      reads this
    {
      GuardState(hits, cachedBalance, cachedAt)
    }

    constructor (cfg: Config)
      ensures this.cfg == cfg && View() == GuardState([], 0, 0)
    {
      this.cfg := cfg;
      cachedBalance, cachedAt, hits := 0, 0, [];
    }

    /** `check` up to the point where it may wait for the balance. */
    method CheckWindow(now: int) returns (p: Progress)
      modifies this`hits
      ensures (View(), p) == BeginCheck(cfg, old(View()), now)
    {
      var cutoff := now - cfg.windowMs;
      hits := DropExpired(hits, cutoff);
      if |hits| >= cfg.maxPerWindow {
        return Decided(SpendCap);
      }
      if now - cachedAt < cfg.cacheMs {
        return Decided(if cachedBalance < cfg.minBalanceLamports then BalanceLow else Allowed);
      }
      return NeedsBalance;
    }

    /** The rest of `check` once the balance request, made at `now`, has been answered. */
    method CheckBalance(now: int, balance: Option<int>) returns (d: Decision)
      modifies this`cachedBalance, this`cachedAt
      ensures (View(), d) == FinishCheck(cfg, old(View()), now, balance)
      ensures d == Allowed <==> balance.Some? && balance.value >= cfg.minBalanceLamports
      ensures balance.Some? ==> cachedBalance == balance.value && cachedAt == now
    {
      if balance.None? {
        return BalanceCheckFailed;
      }
      cachedBalance, cachedAt := balance.value, now;
      if cachedBalance < cfg.minBalanceLamports {
        return BalanceLow;
      }
      return Allowed;
    }

    method Commit(now: int)
      modifies this`hits
      ensures View() == CommitSend(old(View()), now)
    {
      hits := hits + [now];
    }
  }

  // ---------------------------------------------------------------------------
  // Concurrent requests
  // ---------------------------------------------------------------------------

  /** A balance the node answered, and when it was asked for. */
  datatype Read = Read(askedAt: int, balance: int)

  /**
   A request that passed its window test: when, how many sends had been committed by then, which
   other requests were still between their own test and commit, and, once its check is over, the
   balance it was judged by.
   */
  datatype Request = Request(ticket: nat, testedAt: int, seen: nat, others: set<nat>, judgedBy: Option<Read>)

  datatype Sent = Sent(request: Request, at: int)

  datatype GuardRun = GuardRun(guard: GuardState, log: seq<Sent>, pending: map<nat, Request>, nextTicket: nat,
                               answers: seq<Read>)

  /** A request begins its check, has its balance request answered, commits its send, or gives up. */
  datatype Event =
    | Test(now: int)
    | Answer(ticket: nat, balance: Option<int>, now: int)
    | Commit(ticket: nat, now: int)
    | Abandon(ticket: nat, now: int)

  const START: GuardRun := GuardRun(GuardState([], 0, 0), [], map[], 0, [])

  function Admit(r: GuardRun, g: GuardState, now: int, judgedBy: Option<Read>): GuardRun {
    var q := Request(r.nextTicket, now, |r.log|, r.pending.Keys, judgedBy);
    GuardRun(g, r.log, r.pending[r.nextTicket := q], r.nextTicket + 1, r.answers)
  }

  /** The node's answer reaches a waiting request, which resumes its check. */
  function Resume(cfg: Config, r: GuardRun, t: nat, balance: Option<int>): GuardRun
    requires t in r.pending
  {
    var q := r.pending[t];
    var (g, d) := FinishCheck(cfg, r.guard, q.testedAt, balance);
    if d == Allowed then
      var read := Read(q.testedAt, balance.value);
      GuardRun(g, r.log, r.pending[t := q.(judgedBy := Some(read))], r.nextTicket, r.answers + [read])
    else
      var answers := if balance.Some? then r.answers + [Read(q.testedAt, balance.value)] else r.answers;
      GuardRun(g, r.log, r.pending - {t}, r.nextTicket, answers)
  }

  /** Only a request whose check is over and allowed it may commit a send. */
  function Step(cfg: Config, r: GuardRun, e: Event): GuardRun {
    match e
    case Test(now) =>
      (match BeginCheck(cfg, r.guard, now)
       case (g, NeedsBalance) => Admit(r, g, now, None)
       case (g, Decided(d)) =>
         if d == Allowed then Admit(r, g, now, Some(Read(g.cachedAt, g.cachedBalance))) else r.(guard := g))
    case Answer(t, balance, _) =>
      if t in r.pending && r.pending[t].judgedBy.None? then Resume(cfg, r, t, balance) else r
    case Commit(t, now) =>
      if t in r.pending && r.pending[t].judgedBy.Some? then
        GuardRun(CommitSend(r.guard, now), r.log + [Sent(r.pending[t], now)], r.pending - {t}, r.nextTicket, r.answers)
      else r
    case Abandon(t, _) =>
      r.(pending := r.pending - {t})
  }

  function Run(cfg: Config, es: seq<Event>): GuardRun {
    if es == [] then START else Step(cfg, Run(cfg, es[..|es| - 1]), es[|es| - 1])
  }

  ghost predicate MonotoneClock(es: seq<Event>) {
    forall i, j :: 0 <= i < j < |es| ==> es[i].now <= es[j].now
  }

  /** At no point are more than c requests between their window test and their commit. */
  ghost predicate InFlightAtMost(cfg: Config, es: seq<Event>, c: nat) {
    forall k {:trigger es[..k]} :: 0 <= k <= |es| ==> |Run(cfg, es[..k]).pending| <= c
  }

  // ---------------------------------------------------------------------------
  // The guard itself, driven through a run
  // ---------------------------------------------------------------------------

  /** What the route remembers of a request in flight: when its check began, and whether it is over. */
  datatype Flight = Flight(testedAt: int, allowed: bool)

  ghost predicate Tracks(flying: map<nat, Flight>, pending: map<nat, Request>) {
    && flying.Keys == pending.Keys
    && forall t {:trigger flying[t]} :: t in flying ==>
         flying[t].testedAt == pending[t].testedAt && flying[t].allowed == pending[t].judgedBy.Some?
  }

  /** The guard's methods, called as the submit route calls them, leave the guard and the sends where the run says. */
  method Serve(cfg: Config, es: seq<Event>) returns (guard: Guard, sent: seq<int>)
    ensures fresh(guard) && guard.View() == Run(cfg, es).guard
    ensures |sent| == |Run(cfg, es).log| && forall i :: 0 <= i < |sent| ==> sent[i] == Run(cfg, es).log[i].at
  {
    guard := new Guard(cfg);
    sent := [];
    var flying: map<nat, Flight>, nextTicket: nat := map[], 0;
    for i := 0 to |es|
      invariant fresh(guard) && guard.cfg == cfg && guard.View() == Run(cfg, es[..i]).guard
      invariant nextTicket == Run(cfg, es[..i]).nextTicket && Tracks(flying, Run(cfg, es[..i]).pending)
      invariant |sent| == |Run(cfg, es[..i]).log|
      invariant forall k {:trigger sent[k]} :: 0 <= k < |sent| ==> sent[k] == Run(cfg, es[..i]).log[k].at
    {
      assert es[..i + 1][..i] == es[..i];
      match es[i] {
        case Test(now) =>
          var p := guard.CheckWindow(now);
          if p.NeedsBalance? || p.decision == Allowed {
            flying, nextTicket := flying[nextTicket := Flight(now, p.Decided?)], nextTicket + 1;
          }
        case Answer(t, balance, _) =>
          if t in flying && !flying[t].allowed {
            var d := guard.CheckBalance(flying[t].testedAt, balance);
            flying := if d == Allowed then flying[t := flying[t].(allowed := true)] else flying - {t};
          }
        case Commit(t, now) =>
          if t in flying && flying[t].allowed {
            guard.Commit(now);
            flying, sent := flying - {t}, sent + [now];
          }
        case Abandon(t, _) =>
          flying := flying - {t};
      }
    }
    assert es[..|es|] == es;
  }

  // ---------------------------------------------------------------------------
  // Invariant
  // ---------------------------------------------------------------------------

  /** Requests with a smaller ticket that commit after this one's test were in flight at its test. */
  ghost predicate Covered(log: seq<Sent>, pending: map<nat, Request>, q: Request) {
    && (forall j :: q.seen <= j < |log| && log[j].request.ticket < q.ticket ==> log[j].request.ticket in q.others)
    && (forall p :: p in pending && p < q.ticket ==> p in q.others)
  }

  /** When it passed its test, fewer than max of the sends committed so far were inside the window. */
  ghost predicate PassedTest(log: seq<Sent>, q: Request, windowMs: int, max: int) {
    max > 0 && q.seen <= |log| && (q.seen >= max ==> log[q.seen - max].at <= q.testedAt - windowMs)
  }

  ghost predicate RequestOk(r: GuardRun, q: Request, windowMs: int, max: int, c: nat) {
    && q.ticket < r.nextTicket && |q.others| < c
    && PassedTest(r.log, q, windowMs, max) && Covered(r.log, r.pending, q)
  }

  ghost predicate RequestsOk(r: GuardRun, windowMs: int, max: int, c: nat) {
    && (forall j :: 0 <= j < |r.log| ==> RequestOk(r, r.log[j].request, windowMs, max, c))
    && (forall t :: t in r.pending ==> RequestOk(r, r.pending[t], windowMs, max, c))
  }

  /** Sends are committed in order of time, each by its own request, after that request's test. */
  ghost predicate LogOk(r: GuardRun, now: int) {
    && (forall j :: 0 <= j < |r.log| ==> r.log[j].request.seen <= j && r.log[j].request.testedAt <= r.log[j].at <= now)
    && (forall i, j :: 0 <= i < j < |r.log| ==> r.log[i].at <= r.log[j].at)
    && (forall i, j :: 0 <= i < j < |r.log| ==> r.log[i].request.ticket != r.log[j].request.ticket)
    && (forall t :: t in r.pending ==> r.pending[t].ticket == t && r.pending[t].testedAt <= now)
    && (forall j :: 0 <= j < |r.log| ==> r.log[j].request.ticket !in r.pending)
  }

  /** The kept times are the latest sends, and every earlier send is outside the window. */
  ghost predicate HitsOk(hits: seq<int>, log: seq<Sent>, now: int, windowMs: int) {
    && |hits| <= |log|
    && (forall i :: |log| - |hits| <= i < |log| ==> hits[i - (|log| - |hits|)] == log[i].at)
    && (forall i :: 0 <= i < |log| - |hits| ==> log[i].at <= now - windowMs)
  }

  ghost predicate Inv(cfg: Config, r: GuardRun, now: int, c: nat) {
    && RequestsOk(r, cfg.windowMs, cfg.maxPerWindow, c) && LogOk(r, now)
    && HitsOk(r.guard.hits, r.log, now, cfg.windowMs)
  }

  /** After trimming, a window with room means the send max places back has expired. */
  lemma TrimKeepsHits(hits: seq<int>, log: seq<Sent>, earlier: int, now: int, windowMs: int, max: int)
    requires HitsOk(hits, log, earlier, windowMs) && earlier <= now && max > 0
    ensures HitsOk(Trim(hits, now - windowMs), log, now, windowMs)
    ensures |Trim(hits, now - windowMs)| < max <= |log| ==> log[|log| - max].at <= now - windowMs
  {
    TrimDropsExpired(hits, now - windowMs);
    var live, lost := Trim(hits, now - windowMs), |log| - |hits|;
    forall i | 0 <= i < |log| - |live| ensures log[i].at <= now - windowMs {
      if i >= lost {
        assert hits[i - lost] == log[i].at;
      }
    }
    forall i | |log| - |live| <= i < |log| ensures live[i - (|log| - |live|)] == log[i].at {
      assert live[i - (|log| - |live|)] == hits[i - lost];
    }
  }

  /** The balance a request was judged by is no part of its place in the queue. */
  predicate SameButJudged(a: Request, b: Request) {
    a.(judgedBy := None) == b.(judgedBy := None)
  }

  /** A later test, an answered balance or a request that gives up changes nothing for a request already admitted. */
  lemma RequestFrame(r: GuardRun, r': GuardRun, windowMs: int, max: int, c: nat, q: Request, q': Request)
    requires RequestOk(r, q, windowMs, max, c) && SameButJudged(q', q)
    requires r'.log == r.log && r'.nextTicket >= r.nextTicket
    requires forall p :: p in r'.pending ==> p in r.pending || p >= r.nextTicket
    ensures RequestOk(r', q', windowMs, max, c)
  {
  }

  /** Trimming the window keeps the invariant, and a window with room means the send max places back has expired. */
  lemma TrimKeepsInv(cfg: Config, r: GuardRun, g: GuardState, now: int, c: nat)
    requires Inv(cfg, r, now, c) && g.hits == Trim(r.guard.hits, now - cfg.windowMs)
    ensures Inv(cfg, r.(guard := g), now, c)
    ensures 0 < cfg.maxPerWindow <= |r.log| && |g.hits| < cfg.maxPerWindow ==>
              r.log[|r.log| - cfg.maxPerWindow].at <= now - cfg.windowMs
  {
    TrimKeepsHits(r.guard.hits, r.log, now, now, cfg.windowMs, if cfg.maxPerWindow > 0 then cfg.maxPerWindow else 1);
    QuietKeepsRequests(cfg, r, r.(guard := g), now, c);
  }

  /** What only answers, refuses or drops requests keeps every request's place. */
  lemma QuietKeepsRequests(cfg: Config, r: GuardRun, r': GuardRun, now: int, c: nat)
    requires RequestsOk(r, cfg.windowMs, cfg.maxPerWindow, c) && LogOk(r, now)
    requires r'.log == r.log && r'.nextTicket == r.nextTicket
    requires forall t {:trigger r'.pending[t]} {:trigger t in r'.pending} :: t in r'.pending ==>
               t in r.pending && SameButJudged(r'.pending[t], r.pending[t])
    ensures RequestsOk(r', cfg.windowMs, cfg.maxPerWindow, c) && LogOk(r', now)
  {
    forall j | 0 <= j < |r'.log| ensures RequestOk(r', r'.log[j].request, cfg.windowMs, cfg.maxPerWindow, c) {
      RequestFrame(r, r', cfg.windowMs, cfg.maxPerWindow, c, r.log[j].request, r'.log[j].request);
    }
    forall t | t in r'.pending ensures RequestOk(r', r'.pending[t], cfg.windowMs, cfg.maxPerWindow, c) {
      RequestFrame(r, r', cfg.windowMs, cfg.maxPerWindow, c, r.pending[t], r'.pending[t]);
    }
  }

  /** The request admitted by a test: everything uncommitted with a smaller ticket is in flight beside it. */
  lemma AdmittedRequestOk(cfg: Config, r: GuardRun, g: GuardState, now: int, judgedBy: Option<Read>, c: nat)
    requires LogOk(r, now) && cfg.maxPerWindow > 0
    requires |r.log| >= cfg.maxPerWindow ==> r.log[|r.log| - cfg.maxPerWindow].at <= now - cfg.windowMs
    requires r.nextTicket !in r.pending && |Admit(r, g, now, judgedBy).pending| <= c
    ensures var r' := Admit(r, g, now, judgedBy);
            RequestOk(r', r'.pending[r.nextTicket], cfg.windowMs, cfg.maxPerWindow, c)
  {
    var pending := Admit(r, g, now, judgedBy).pending;
    assert pending.Keys == r.pending.Keys + {r.nextTicket};
    assert |pending| == |pending.Keys|;
  }

  lemma AdmitKeepsLog(r: GuardRun, now: int, judgedBy: Option<Read>)
    requires LogOk(r, now)
    requires forall j :: 0 <= j < |r.log| ==> r.log[j].request.ticket < r.nextTicket
    ensures LogOk(Admit(r, r.guard, now, judgedBy), now)
  {
  }

  lemma AdmitKeepsInv(cfg: Config, r: GuardRun, now: int, judgedBy: Option<Read>, c: nat)
    requires Inv(cfg, r, now, c) && cfg.maxPerWindow > 0
    requires |r.log| >= cfg.maxPerWindow ==> r.log[|r.log| - cfg.maxPerWindow].at <= now - cfg.windowMs
    requires |Admit(r, r.guard, now, judgedBy).pending| <= c
    ensures Inv(cfg, Admit(r, r.guard, now, judgedBy), now, c)
  {
    var r' := Admit(r, r.guard, now, judgedBy);
    forall p | p in r.pending ensures p < r.nextTicket {
      assert RequestOk(r, r.pending[p], cfg.windowMs, cfg.maxPerWindow, c);
    }
    forall j {:trigger r.log[j]} | 0 <= j < |r.log| ensures r.log[j].request.ticket < r.nextTicket {
      assert RequestOk(r, r.log[j].request, cfg.windowMs, cfg.maxPerWindow, c);
    }
    AdmitKeepsLog(r, now, judgedBy);
    AdmittedRequestOk(cfg, r, r.guard, now, judgedBy, c);
    hide RequestOk, LogOk;
    forall j | 0 <= j < |r.log|
      ensures RequestOk(r', r.log[j].request, cfg.windowMs, cfg.maxPerWindow, c)
    {
      RequestFrame(r, r', cfg.windowMs, cfg.maxPerWindow, c, r.log[j].request, r.log[j].request);
    }
    forall p | p in r'.pending ensures RequestOk(r', r'.pending[p], cfg.windowMs, cfg.maxPerWindow, c) {
      if p in r.pending {
        RequestFrame(r, r', cfg.windowMs, cfg.maxPerWindow, c, r.pending[p], r.pending[p]);
      }
    }
  }

  lemma TestKeepsInv(cfg: Config, r: GuardRun, now: int, c: nat)
    requires Inv(cfg, r, now, c) && |Step(cfg, r, Test(now)).pending| <= c
    ensures Inv(cfg, Step(cfg, r, Test(now)), now, c)
  {
    hide RequestsOk, LogOk, HitsOk, Trim;
    var (g, p) := BeginCheck(cfg, r.guard, now);
    TrimKeepsInv(cfg, r, g, now, c);
    if p.NeedsBalance? {
      AdmitKeepsInv(cfg, r.(guard := g), now, None, c);
    } else if p.decision == Allowed {
      AdmitKeepsInv(cfg, r.(guard := g), now, Some(Read(g.cachedAt, g.cachedBalance)), c);
    }
  }

  /** The run after a request that may commit has committed its send. */
  function Sends(r: GuardRun, t: nat, now: int): GuardRun
    requires t in r.pending
  {
    GuardRun(CommitSend(r.guard, now), r.log + [Sent(r.pending[t], now)], r.pending - {t}, r.nextTicket, r.answers)
  }

  lemma CommitKeepsRequest(r: GuardRun, t: nat, now: int, windowMs: int, max: int, c: nat, q: Request)
    requires LogOk(r, now) && t in r.pending && RequestOk(r, q, windowMs, max, c)
    ensures RequestOk(Sends(r, t, now), q, windowMs, max, c)
  {
    var log' := r.log + [Sent(r.pending[t], now)];
    forall j | q.seen <= j < |log'| && log'[j].request.ticket < q.ticket ensures log'[j].request.ticket in q.others {
      if j < |r.log| {
        assert r.log[j] == log'[j];
      }
    }
  }

  lemma CommitKeepsRequests(r: GuardRun, t: nat, now: int, windowMs: int, max: int, c: nat)
    requires RequestsOk(r, windowMs, max, c) && LogOk(r, now) && t in r.pending
    ensures RequestsOk(Sends(r, t, now), windowMs, max, c)
  {
    var r' := Sends(r, t, now);
    forall j | 0 <= j < |r'.log| ensures RequestOk(r', r'.log[j].request, windowMs, max, c) {
      CommitKeepsRequest(r, t, now, windowMs, max, c, if j < |r.log| then r.log[j].request else r.pending[t]);
    }
    forall p | p in r'.pending ensures RequestOk(r', r'.pending[p], windowMs, max, c) {
      CommitKeepsRequest(r, t, now, windowMs, max, c, r.pending[p]);
    }
  }

  lemma CommitKeepsLog(r: GuardRun, t: nat, now: int)
    requires LogOk(r, now) && t in r.pending && r.pending[t].seen <= |r.log|
    ensures LogOk(Sends(r, t, now), now)
  {
    var r' := Sends(r, t, now);
    forall i, j | 0 <= i < j < |r'.log| ensures r'.log[i].request.ticket != r'.log[j].request.ticket {
      if j == |r.log| {
        assert r'.log[i] == r.log[i] && r'.log[j].request.ticket == t;
      }
    }
  }

  lemma CommitKeepsHits(hits: seq<int>, log: seq<Sent>, q: Request, now: int, windowMs: int)
    requires HitsOk(hits, log, now, windowMs)
    ensures HitsOk(hits + [now], log + [Sent(q, now)], now, windowMs)
  {
  }

  lemma CommitKeepsInv(cfg: Config, r: GuardRun, t: nat, now: int, c: nat)
    requires Inv(cfg, r, now, c) && t in r.pending
    ensures Inv(cfg, Sends(r, t, now), now, c)
  {
    CommitKeepsRequests(r, t, now, cfg.windowMs, cfg.maxPerWindow, c);
    assert RequestOk(r, r.pending[t], cfg.windowMs, cfg.maxPerWindow, c);
    CommitKeepsLog(r, t, now);
    CommitKeepsHits(r.guard.hits, r.log, r.pending[t], now, cfg.windowMs);
  }

  lemma StepKeepsInv(cfg: Config, r: GuardRun, e: Event, c: nat)
    requires Inv(cfg, r, e.now, c) && |Step(cfg, r, e).pending| <= c
    ensures Inv(cfg, Step(cfg, r, e), e.now, c)
  {
    hide Inv, LogOk, RequestsOk, HitsOk, BeginCheck;
    match e {
      case Test(now) => TestKeepsInv(cfg, r, now, c);
      case Commit(t, now) =>
        if t in r.pending && r.pending[t].judgedBy.Some? {
          CommitKeepsInv(cfg, r, t, now, c);
        }
      case Answer(_, _, _) => QuietKeepsInv(cfg, r, e, c);
      case Abandon(_, _) => QuietKeepsInv(cfg, r, e, c);
    }
  }

  lemma QuietKeepsInv(cfg: Config, r: GuardRun, e: Event, c: nat)
    requires Inv(cfg, r, e.now, c) && (e.Answer? || e.Abandon?)
    ensures Inv(cfg, Step(cfg, r, e), e.now, c)
  {
    hide RequestsOk, LogOk, HitsOk;
    QuietKeepsRequests(cfg, r, Step(cfg, r, e), e.now, c);
  }

  lemma {:induction false} RunKeepsInv(cfg: Config, es: seq<Event>, c: nat, now: int)
    requires MonotoneClock(es) && InFlightAtMost(cfg, es, c)
    requires es != [] ==> es[|es| - 1].now <= now
    ensures Inv(cfg, Run(cfg, es), now, c)
  {
    if es != [] {
      var before, e := es[..|es| - 1], es[|es| - 1];
      forall k | 0 <= k <= |before| ensures |Run(cfg, before[..k]).pending| <= c {
        assert before[..k] == es[..k];
      }
      RunKeepsInv(cfg, before, c, e.now);
      assert es[..|es|] == es;
      StepKeepsInv(cfg, Run(cfg, before), e, c);
      LaterKeepsInv(cfg, Run(cfg, es), e.now, now, c);
    }
  }

  lemma LaterKeepsInv(cfg: Config, r: GuardRun, earlier: int, now: int, c: nat)
    requires Inv(cfg, r, earlier, c) && earlier <= now
    ensures Inv(cfg, r, now, c)
  {
  }

  // ---------------------------------------------------------------------------
  // Main results
  // ---------------------------------------------------------------------------

  ghost function TicketsIn(log: seq<Sent>, lo: nat, hi: nat): set<nat>
    requires hi <= |log|
  {
    set j | lo <= j < hi :: log[j].request.ticket
  }

  lemma {:induction false} TicketsDistinct(log: seq<Sent>, lo: nat, hi: nat)
    requires lo <= hi <= |log|
    requires forall i, j :: 0 <= i < j < |log| ==> log[i].request.ticket != log[j].request.ticket
    ensures |TicketsIn(log, lo, hi)| == hi - lo
    decreases hi
  {
    if lo < hi {
      TicketsDistinct(log, lo, hi - 1);
      assert TicketsIn(log, lo, hi) == TicketsIn(log, lo, hi - 1) + {log[hi - 1].request.ticket};
    }
  }

  /** The send in a span whose request was tested last. */
  lemma {:induction false} LatestTest(log: seq<Sent>, first: nat, last: nat) returns (k: nat)
    requires first <= last < |log|
    ensures first <= k <= last
    ensures forall j :: first <= j <= last ==> log[j].request.ticket <= log[k].request.ticket
    decreases last
  {
    if first == last {
      k := last;
    } else {
      k := LatestTest(log, first, last - 1);
      if log[k].request.ticket < log[last].request.ticket {
        k := last;
      }
    }
  }

  /** Before the last test of a span, the test itself bounds the sends of the span. */
  lemma SeenBelowCap(r: GuardRun, now: int, windowMs: int, max: int, first: nat, k: nat, last: nat)
    requires LogOk(r, now) && first <= k <= last < |r.log| && r.log[last].at - r.log[first].at < windowMs
    requires PassedTest(r.log, r.log[k].request, windowMs, max)
    ensures r.log[k].request.seen < first + max
  {
  }

  /** After it, only requests that were in flight beside it. */
  lemma UnseenBelowFlight(r: GuardRun, now: int, lo: nat, k: nat, last: nat)
    requires LogOk(r, now) && lo <= k <= last < |r.log| && r.log[k].request.seen <= lo
    requires Covered(r.log, r.pending, r.log[k].request)
    requires forall j :: lo <= j <= last ==> r.log[j].request.ticket <= r.log[k].request.ticket
    ensures last - lo <= |r.log[k].request.others|
  {
    var q := r.log[k].request;
    var after := TicketsIn(r.log, lo, last + 1);
    TicketsDistinct(r.log, lo, last + 1);
    forall t | t in after - {q.ticket} ensures t in q.others {
      var j :| lo <= j < last + 1 && r.log[j].request.ticket == t;
    }
    assert |after - {q.ticket}| >= |after| - 1;
    SubsetCard(after - {q.ticket}, q.others);
  }

  lemma SpanBound(cfg: Config, r: GuardRun, now: int, c: nat, first: nat, last: nat)
    requires Inv(cfg, r, now, c)
    requires first <= last < |r.log| && r.log[last].at - r.log[first].at < cfg.windowMs
    ensures last - first + 1 <= cfg.maxPerWindow + c - 1
  {
    var k := LatestTest(r.log, first, last);
    var q := r.log[k].request;
    assert RequestOk(r, q, cfg.windowMs, cfg.maxPerWindow, c);
    SeenBelowCap(r, now, cfg.windowMs, cfg.maxPerWindow, first, k, last);
    UnseenBelowFlight(r, now, if q.seen > first then q.seen else first, k, last);
  }

  /**
   With a monotone clock and at most c requests ever between their window test and their commit,
   any sends that fall within less than a window number at most max + c - 1: the cap, plus what
   the separate commit lets through.  Serial requests (c = 1) keep exactly the cap.
   */
  lemma ConcurrentCap(cfg: Config, es: seq<Event>, c: nat, first: nat, last: nat)
    requires MonotoneClock(es) && InFlightAtMost(cfg, es, c)
    ensures var log := Run(cfg, es).log;
            first <= last < |log| && log[last].at - log[first].at < cfg.windowMs ==>
              last - first + 1 <= cfg.maxPerWindow + c - 1
  {
    var now := if es == [] then 0 else es[|es| - 1].now;
    RunKeepsInv(cfg, es, c, now);
    var r := Run(cfg, es);
    if first <= last < |r.log| && r.log[last].at - r.log[first].at < cfg.windowMs {
      SpanBound(cfg, r, now, c, first, last);
    }
  }

  // ---------------------------------------------------------------------------
  // The balance floor
  // ---------------------------------------------------------------------------

  /**
   The request was allowed by a balance at or above the floor, which the node reported for a
   question asked by the request itself or less than the cache time before it.  Only a guard whose
   clock has not yet passed the cache time may go by its initial zero, if the floor lets it.
   */
  ghost predicate JudgedAboveFloor(cfg: Config, answers: seq<Read>, q: Request) {
    && q.judgedBy.Some?
    && var read := q.judgedBy.value;
       && read.balance >= cfg.minBalanceLamports
       && (read.askedAt == q.testedAt || q.testedAt - read.askedAt < cfg.cacheMs)
       && (read in answers || (read == Read(0, 0) && q.testedAt < cfg.cacheMs))
  }

  /** The cache holds a reported balance or still the initial zero, and every allowed request was above the floor. */
  ghost predicate FloorOk(cfg: Config, r: GuardRun) {
    && (Read(r.guard.cachedAt, r.guard.cachedBalance) in r.answers
        || (r.guard.cachedAt == 0 && r.guard.cachedBalance == 0))
    && (forall t :: t in r.pending && r.pending[t].judgedBy.Some? ==> JudgedAboveFloor(cfg, r.answers, r.pending[t]))
    && (forall j :: 0 <= j < |r.log| ==> JudgedAboveFloor(cfg, r.answers, r.log[j].request))
  }

  lemma ResumeKeepsFloor(cfg: Config, r: GuardRun, t: nat, balance: Option<int>)
    requires FloorOk(cfg, r) && t in r.pending && r.pending[t].judgedBy.None?
    ensures FloorOk(cfg, Resume(cfg, r, t, balance))
  {
    var r' := Resume(cfg, r, t, balance);
    assert forall read :: read in r.answers ==> read in r'.answers;
    if balance.Some? {
      assert r'.answers[|r.answers|] == Read(r.pending[t].testedAt, balance.value);
    }
    forall j | 0 <= j < |r'.log| ensures JudgedAboveFloor(cfg, r'.answers, r'.log[j].request) {
      assert JudgedAboveFloor(cfg, r.answers, r.log[j].request);
    }
  }

  lemma StepKeepsFloor(cfg: Config, r: GuardRun, e: Event)
    requires FloorOk(cfg, r)
    ensures FloorOk(cfg, Step(cfg, r, e))
  {
    match e {
      case Answer(t, balance, _) =>
        if t in r.pending && r.pending[t].judgedBy.None? {
          ResumeKeepsFloor(cfg, r, t, balance);
        }
      case _ =>
    }
  }

  /** Every send ever committed passed a check against the floor, with a balance no staler than the cache allows. */
  lemma {:induction false} FloorIsHeld(cfg: Config, es: seq<Event>)
    ensures FloorOk(cfg, Run(cfg, es))
    ensures forall j {:trigger Run(cfg, es).log[j]} :: 0 <= j < |Run(cfg, es).log| ==>
              JudgedAboveFloor(cfg, Run(cfg, es).answers, Run(cfg, es).log[j].request)
  {
    if es != [] {
      FloorIsHeld(cfg, es[..|es| - 1]);
      StepKeepsFloor(cfg, Run(cfg, es[..|es| - 1]), es[|es| - 1]);
    }
  }

  // ---------------------------------------------------------------------------
  // When a check passes
  // ---------------------------------------------------------------------------

  function SentTimes(log: seq<Sent>): seq<int> {
    seq(|log|, i requires 0 <= i < |log| => log[i].at)
  }

  /** The window keeps the latest sends, and the sends are in order of time. */
  ghost predicate WindowOk(cfg: Config, r: GuardRun, now: int) {
    var times := SentTimes(r.log);
    KeepsLatest(r.guard.hits, times, now - cfg.windowMs) && (times != [] ==> times[|times| - 1] <= now)
  }

  lemma StepKeepsWindow(cfg: Config, r: GuardRun, e: Event)
    requires WindowOk(cfg, r, e.now)
    ensures WindowOk(cfg, Step(cfg, r, e), e.now)
  {
    hide KeepsLatest, Trim;
    if e.Test? {
      TrimKeepsLatest(r.guard.hits, SentTimes(r.log), e.now - cfg.windowMs, e.now - cfg.windowMs);
    } else if e.Commit? && e.ticket in r.pending && r.pending[e.ticket].judgedBy.Some? {
      AppendKeepsLatest(r.guard.hits, SentTimes(r.log), e.now - cfg.windowMs, e.now);
      assert SentTimes(r.log + [Sent(r.pending[e.ticket], e.now)]) == SentTimes(r.log) + [e.now];
    }
  }

  lemma LaterKeepsWindow(cfg: Config, r: GuardRun, earlier: int, now: int)
    requires WindowOk(cfg, r, earlier) && earlier <= now
    ensures WindowOk(cfg, r, now)
  {
  }

  lemma {:induction false} RunKeepsWindow(cfg: Config, es: seq<Event>, now: int)
    requires MonotoneClock(es) && (es != [] ==> es[|es| - 1].now <= now)
    ensures WindowOk(cfg, Run(cfg, es), now)
  {
    if es != [] {
      var init, e := es[..|es| - 1], es[|es| - 1];
      RunKeepsWindow(cfg, init, e.now);
      hide WindowOk, Step;
      StepKeepsWindow(cfg, Run(cfg, init), e);
      LaterKeepsWindow(cfg, Run(cfg, es), e.now, now);
    }
  }

  /** The balance in the cache: the last one the node answered. */
  function Latest(answers: seq<Read>): Read {
    if answers == [] then Read(0, 0) else answers[|answers| - 1]
  }

  lemma {:induction false} CacheIsLatest(cfg: Config, es: seq<Event>)
    ensures var r := Run(cfg, es);
            Read(r.guard.cachedAt, r.guard.cachedBalance) == Latest(r.answers)
  {
    if es != [] {
      CacheIsLatest(cfg, es[..|es| - 1]);
      hide Trim;
    }
  }

  /**
   After every run with a monotone clock a check is refused for the cap exactly when the cap's number
   of sends or more are less than a window old.  Otherwise it is decided at once, by the last
   balance the node answered, exactly when that was asked for less than the cache time ago, and
   allowed exactly when that balance is at the floor or above.
   */
  lemma ChecksExactlyWhen(cfg: Config, es: seq<Event>, now: int)
    requires MonotoneClock(es) && (es != [] ==> es[|es| - 1].now <= now)
    ensures var r := Run(cfg, es);
            var p, count, read := BeginCheck(cfg, r.guard, now).1,
                                  Within(SentTimes(r.log), now - cfg.windowMs), Latest(r.answers);
            && (p == Decided(SpendCap) <==> count >= cfg.maxPerWindow)
            && (count < cfg.maxPerWindow ==>
                  && (p == NeedsBalance <==> now - read.askedAt >= cfg.cacheMs)
                  && (now - read.askedAt < cfg.cacheMs ==>
                        p == Decided(if read.balance >= cfg.minBalanceLamports then Allowed else BalanceLow)))
  {
    hide Run, Trim, Within, Latest, KeepsLatest, MonotoneClock, SentTimes;
    var r := Run(cfg, es);
    RunKeepsWindow(cfg, es, now);
    CacheIsLatest(cfg, es);
    TrimCounts(SentTimes(r.log), r.guard.hits, now - cfg.windowMs, now - cfg.windowMs);
  }

  // ---------------------------------------------------------------------------
  // The bound is reached
  // ---------------------------------------------------------------------------

  /** A run in which everything happens at one time and no more than c requests are ever in flight. */
  ghost predicate Burst(cfg: Config, es: seq<Event>, at: int, c: nat) {
    && (forall i :: 0 <= i < |es| ==> es[i].now == at)
    && InFlightAtMost(cfg, es, c)
  }

  /** After it, `sent` sends are committed and the requests with the next `flying` tickets may commit. */
  ghost predicate BurstState(cfg: Config, r: GuardRun, at: int, sent: nat, flying: nat) {
    && |r.guard.hits| == |r.log| == sent && r.nextTicket == sent + flying
    && (forall i :: 0 <= i < sent ==> r.guard.hits[i] == at && r.log[i].at == at)
    && |r.pending| == flying
    && (forall t :: t in r.pending <==> sent <= t < sent + flying)
    && (forall t :: t in r.pending ==> r.pending[t].judgedBy.Some?)
    && (at - r.guard.cachedAt < cfg.cacheMs ==> r.guard.cachedBalance >= cfg.minBalanceLamports)
  }

  lemma BurstExtends(cfg: Config, es: seq<Event>, e: Event, at: int, c: nat)
    requires Burst(cfg, es, at, c) && e.now == at
    requires |Step(cfg, Run(cfg, es), e).pending| <= c
    ensures Burst(cfg, es + [e], at, c)
    ensures Run(cfg, es + [e]) == Step(cfg, Run(cfg, es), e)
  {
    var more := es + [e];
    assert more[..|es|] == es;
    forall k | 0 <= k <= |more| ensures |Run(cfg, more[..k]).pending| <= c {
      if k <= |es| {
        assert more[..k] == es[..k];
      } else {
        assert more[..k] == more;
      }
    }
  }

  /** A request that finds room and a balance at the floor. */
  lemma BurstAdmits(cfg: Config, r: GuardRun, at: int, sent: nat, flying: nat)
    requires cfg.windowMs > 0 && sent < cfg.maxPerWindow && BurstState(cfg, r, at, sent, flying)
    ensures var tested := Step(cfg, r, Test(at));
            && |tested.pending| == flying + 1
            && var asked := Step(cfg, tested, Answer(sent + flying, Some(cfg.minBalanceLamports), at));
               |asked.pending| == flying + 1 && BurstState(cfg, asked, at, sent, flying + 1)
  {
    assert Trim(r.guard.hits, at - cfg.windowMs) == r.guard.hits;
    assert r.nextTicket !in r.pending;
    var tested := Step(cfg, r, Test(at));
    assert tested.pending.Keys == r.pending.Keys + {r.nextTicket};
  }

  lemma BurstTest(cfg: Config, es: seq<Event>, at: int, c: nat, sent: nat, flying: nat) returns (more: seq<Event>)
    requires cfg.windowMs > 0 && sent < cfg.maxPerWindow && flying < c
    requires Burst(cfg, es, at, c) && BurstState(cfg, Run(cfg, es), at, sent, flying)
    ensures Burst(cfg, more, at, c) && BurstState(cfg, Run(cfg, more), at, sent, flying + 1)
  {
    var answer := Answer(sent + flying, Some(cfg.minBalanceLamports), at);
    BurstAdmits(cfg, Run(cfg, es), at, sent, flying);
    BurstExtends(cfg, es, Test(at), at, c);
    BurstExtends(cfg, es + [Test(at)], answer, at, c);
    more := es + [Test(at)] + [answer];
  }

  lemma BurstCommit(cfg: Config, es: seq<Event>, at: int, c: nat, sent: nat, flying: nat) returns (more: seq<Event>)
    requires flying > 0
    requires Burst(cfg, es, at, c) && BurstState(cfg, Run(cfg, es), at, sent, flying)
    ensures Burst(cfg, more, at, c) && BurstState(cfg, Run(cfg, more), at, sent + 1, flying - 1)
  {
    var r := Run(cfg, es);
    assert |r.pending - {sent}| == flying - 1;
    assert es[..|es|] == es;
    BurstExtends(cfg, es, Commit(sent, at), at, c);
    more := es + [Commit(sent, at)];
  }

  /** max - 1 requests one after the other, then c together: each of the c sees room for itself. */
  lemma {:induction false} SerialPhase(cfg: Config, n: nat, at: int, c: nat) returns (es: seq<Event>)
    requires cfg.windowMs > 0 && n < cfg.maxPerWindow && c >= 1 && at >= cfg.cacheMs
    ensures Burst(cfg, es, at, c) && BurstState(cfg, Run(cfg, es), at, n, 0)
  {
    if n == 0 {
      es := [];
    } else {
      es := SerialPhase(cfg, n - 1, at, c);
      es := BurstTest(cfg, es, at, c, n - 1, 0);
      es := BurstCommit(cfg, es, at, c, n - 1, 1);
    }
  }

  lemma {:induction false} TestPhase(cfg: Config, n: nat, at: int, c: nat) returns (es: seq<Event>)
    requires cfg.windowMs > 0 && cfg.maxPerWindow > 0 && n <= c && c >= 1 && at >= cfg.cacheMs
    ensures Burst(cfg, es, at, c) && BurstState(cfg, Run(cfg, es), at, cfg.maxPerWindow - 1, n)
  {
    if n == 0 {
      es := SerialPhase(cfg, cfg.maxPerWindow - 1, at, c);
    } else {
      es := TestPhase(cfg, n - 1, at, c);
      es := BurstTest(cfg, es, at, c, cfg.maxPerWindow - 1, n - 1);
    }
  }

  lemma {:induction false} CommitPhase(cfg: Config, n: nat, at: int, c: nat) returns (es: seq<Event>)
    requires cfg.windowMs > 0 && cfg.maxPerWindow > 0 && n <= c && c >= 1 && at >= cfg.cacheMs
    ensures Burst(cfg, es, at, c) && BurstState(cfg, Run(cfg, es), at, cfg.maxPerWindow - 1 + n, c - n)
  {
    if n == 0 {
      es := TestPhase(cfg, c, at, c);
    } else {
      es := CommitPhase(cfg, n - 1, at, c);
      es := BurstCommit(cfg, es, at, c, cfg.maxPerWindow + n - 2, c - n + 1);
    }
  }

  /** The bound is exact: with c requests in flight the cap is overshot by c - 1 in a single instant. */
  lemma ConcurrentCapIsReached(cfg: Config, at: int, c: nat)
    requires cfg.windowMs > 0 && cfg.maxPerWindow > 0 && c >= 1 && at >= cfg.cacheMs
    ensures exists es ::
      && MonotoneClock(es) && InFlightAtMost(cfg, es, c)
      && |Run(cfg, es).log| == cfg.maxPerWindow + c - 1
      && forall i :: 0 <= i < cfg.maxPerWindow + c - 1 ==> Run(cfg, es).log[i].at == at
  {
    var es := CommitPhase(cfg, c, at, c);
    assert MonotoneClock(es);
  }
}
