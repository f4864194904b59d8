// Whole-run guarantees of the risk gate.

module RiskLaws {
  import opened Types
  import opened Risk

  // ----------------------------------------------------------------- the rate limit

  // Approval times of a run, in order.
  function Approvals(r: RState, es: seq<REvent>): seq<nat> {
    if es == [] then []
    else
      var n := |es| - 1;
      Approvals(r, es[..n]) + Approval(Run(r, es[..n]), es[n])
  }

  function Approval(r: RState, e: REvent): seq<nat> {
    if Approves(r, e) then [e.now] else []
  }

  // How many times fall in [lo, hi).
  function Count(ts: seq<nat>, lo: int, hi: int): nat {
    if ts == [] then 0
    else Count(ts[..|ts| - 1], lo, hi) + (if lo <= ts[|ts| - 1] < hi then 1 else 0)
  }

  // How many fall in the second that starts at a.
  function InSecond(ts: seq<nat>, a: int): nat {
    Count(ts, a, a + SECOND)
  }

  // The latest evaluation time of a run, 0 before the first.
  function Clock(es: seq<REvent>): nat {
    if es == [] then 0 else if es[|es| - 1].EvalEv? then es[|es| - 1].now else Clock(es[..|es| - 1])
  }

  // Evaluation times are positive and never go back.
  ghost predicate Clocked(es: seq<REvent>) {
    es != [] ==>
      var n := |es| - 1;
      Clocked(es[..n]) && (es[n].EvalEv? ==> 0 < es[n].now && Clock(es[..n]) <= es[n].now)
  }

  lemma {:induction false} CountCovered(ts: seq<nat>, lo: int, hi: int, a: int, b: int, c: int)
    requires forall i :: 0 <= i < |ts| && lo <= ts[i] < hi ==> a <= ts[i] < c
    requires a <= b <= c
    ensures Count(ts, lo, hi) <= Count(ts, a, b) + Count(ts, b, c)
  {
    if ts != [] {
      CountCovered(ts[..|ts| - 1], lo, hi, a, b, c);
    }
  }

  lemma {:induction false} CountNothing(ts: seq<nat>, lo: int, hi: int)
    requires forall i :: 0 <= i < |ts| ==> !(lo <= ts[i] < hi)
    ensures Count(ts, lo, hi) == 0
  {
    if ts != [] { CountNothing(ts[..|ts| - 1], lo, hi); }
  }

  lemma CountNext(ts: seq<nat>, t: nat, lo: int, hi: int)
    ensures Count(ts + [t], lo, hi) == Count(ts, lo, hi) + if lo <= t < hi then 1 else 0
  {
    assert (ts + [t])[..|ts|] == ts;
  }

  // The log against a window that started at w (0: none yet) and holds n approvals.
  ghost predicate WindowInv(max: nat, w: nat, n: nat, log: seq<nat>, clock: nat) {
    && n <= max && w <= clock
    && (w == 0 ==> log == [] && n == 0)
    && (forall i :: 0 <= i < |log| ==> log[i] <= clock && log[i] < w + SECOND)
    && InSecond(log, w) == n
    && Count(log, w - SECOND + 1, w) <= max
    && (forall a: int :: InSecond(log, a) <= 2 * max)
  }

  ghost predicate RateInv(r: RState, log: seq<nat>, clock: nat) {
    WindowInv(r.cfg.maxOrdersPerSec, r.windowStart, r.ordersInWindow, log, clock)
  }

  lemma NewWindow(max: nat, w: nat, n: nat, log: seq<nat>, clock: nat, now: nat)
    requires WindowInv(max, w, n, log, clock) && clock <= now && 0 < now
    requires w == 0 || now >= w + SECOND
    ensures WindowInv(max, now, 0, log, now)
  {
    CountNothing(log, now, now + SECOND);
    CountCovered(log, now - SECOND + 1, now, w, w + SECOND, w + SECOND);
    CountNothing(log, w + SECOND, w + SECOND);
  }

  lemma OneMoreApproval(max: nat, w: nat, n: nat, log: seq<nat>, now: nat)
    requires WindowInv(max, w, n, log, now) && 0 < w && now < w + SECOND && n < max
    ensures WindowInv(max, w, n + 1, log + [now], now)
  {
    CountNext(log, now, w, w + SECOND);
    CountNext(log, now, w - SECOND + 1, w);
    forall a: int ensures InSecond(log + [now], a) <= 2 * max {
      CountNext(log, now, a, a + SECOND);
      assert InSecond(log, a) <= 2 * max;
      if a <= now < a + SECOND {
        CountCovered(log, a, a + SECOND, w - SECOND + 1, w, w + SECOND);
      }
    }
  }

  lemma EvaluationKeepsRate(r: RState, log: seq<nat>, clock: nat, e: REvent)
    requires RateInv(r, log, clock) && e.EvalEv? && clock <= e.now && 0 < e.now && 0 < r.cfg.maxOrdersPerSec
    ensures RateInv(Step(r, e), log + Approval(r, e), e.now)
  {
    assert log + [] == log;
    if !r.tripped {
      var max, w := r.cfg.maxOrdersPerSec, Windowed(r, e.now);
      if r.windowStart == 0 || e.now >= r.windowStart + SECOND {
        NewWindow(max, r.windowStart, r.ordersInWindow, log, clock, e.now);
      }
      EvaluationKeepsWindow(r, e);
      if Approves(r, e) {
        OneMoreApproval(max, w.windowStart, w.ordersInWindow, log, e.now);
      }
    }
  }

  // What an evaluation leaves of the window it opened or found.
  lemma EvaluationKeepsWindow(r: RState, e: REvent)
    requires e.EvalEv? && !r.tripped
    ensures var r', w := Step(r, e), Windowed(r, e.now);
      r'.cfg == r.cfg && r'.windowStart == w.windowStart
      && r'.ordersInWindow == w.ordersInWindow + |Approval(r, e)|
      && (Approves(r, e) ==> !RateExceeded(w))
  {
  }

  lemma StepKeepsRate(r: RState, log: seq<nat>, clock: nat, e: REvent)
    requires RateInv(r, log, clock) && 0 < r.cfg.maxOrdersPerSec
    requires e.EvalEv? ==> clock <= e.now && 0 < e.now
    ensures Step(r, e).cfg == r.cfg
    ensures RateInv(Step(r, e), log + Approval(r, e), if e.EvalEv? then e.now else clock)
  {
    if e.EvalEv? {
      EvaluationKeepsRate(r, log, clock, e);
    } else {
      assert log + Approval(r, e) == log;
    }
  }

  lemma {:induction false} RunKeepsRate(cfg: RiskCfg, es: seq<REvent>)
    requires Clocked(es)
    ensures Run(Init(cfg), es).cfg == Init(cfg).cfg
    ensures RateInv(Run(Init(cfg), es), Approvals(Init(cfg), es), Clock(es))
  {
    if es == [] {
      assert forall a: int :: InSecond([], a) == 0;
    } else {
      var n := |es| - 1;
      RunKeepsRate(cfg, es[..n]);
      StepKeepsRate(Run(Init(cfg), es[..n]), Approvals(Init(cfg), es[..n]), Clock(es[..n]), es[n]);
    }
  }

  // Any second of any run holds at most twice the limit.
  lemma RateIsLimited(cfg: RiskCfg, es: seq<REvent>, a: int)
    requires Clocked(es)
    ensures InSecond(Approvals(Init(cfg), es), a) <= 2 * Init(cfg).cfg.maxOrdersPerSec
  {
    RunKeepsRate(cfg, es);
  }

  // One step against a window that started at w: still that one, or one a second later.
  lemma WindowMoves(r: RState, log: seq<nat>, clock: nat, e: REvent, w: nat)
    requires RateInv(r, log, clock) && 0 < r.cfg.maxOrdersPerSec && 0 < w
    requires e.EvalEv? ==> clock <= e.now && 0 < e.now
    requires r.windowStart == w || w + SECOND <= r.windowStart
    requires InSecond(log, w) <= r.cfg.maxOrdersPerSec
    ensures Step(r, e).windowStart == w || w + SECOND <= Step(r, e).windowStart
    ensures InSecond(log + Approval(r, e), w) <= r.cfg.maxOrdersPerSec
  {
    StepKeepsRate(r, log, clock, e);
    if Approves(r, e) {
      EvaluationKeepsWindow(r, e);
      if Step(r, e).windowStart != w { CountNext(log, e.now, w, w + SECOND); }
    } else {
      assert log + Approval(r, e) == log;
    }
  }

  // After the run, the window that started at w holds no more than the limit, and the
  // current one is that or starts after it has ended.
  ghost predicate LimitedSince(cfg: RiskCfg, es: seq<REvent>, w: nat) {
    var r := Run(Init(cfg), es);
    && InSecond(Approvals(Init(cfg), es), w) <= Init(cfg).cfg.maxOrdersPerSec
    && (r.windowStart == w || w + SECOND <= r.windowStart)
  }

  lemma LimitedNext(cfg: RiskCfg, es: seq<REvent>, e: REvent, w: nat)
    requires Clocked(es) && LimitedSince(cfg, es, w) && 0 < w
    requires e.EvalEv? ==> Clock(es) <= e.now && 0 < e.now
    ensures LimitedSince(cfg, es + [e], w)
  {
    RunKeepsRate(cfg, es);
    OneMoreEvent(Init(cfg), es, e);
    WindowMoves(Run(Init(cfg), es), Approvals(Init(cfg), es), Clock(es), e, w);
  }

  // Every window the engine ever starts holds at most the limit, counted over the whole run.
  lemma {:induction false} WindowsAreLimited(cfg: RiskCfg, es: seq<REvent>, k: nat)
    requires Clocked(es) && k <= |es| && 0 < Run(Init(cfg), es[..k]).windowStart
    ensures LimitedSince(cfg, es, Run(Init(cfg), es[..k]).windowStart)
  {
    if k == |es| {
      assert es[..k] == es;
      RunKeepsRate(cfg, es);
    } else {
      var n := |es| - 1;
      assert es[..n][..k] == es[..k] && es == es[..n] + [es[n]];
      WindowsAreLimited(cfg, es[..n], k);
      LimitedNext(cfg, es[..n], es[n], Run(Init(cfg), es[..k]).windowStart);
    }
  }

  // ------------------------------------------------------------ the bound is attained

  // Any loss figure breaches, or any size is cut to nothing: no order ever passes.
  predicate Blocked(cfg: RiskCfg) {
    cfg.maxDrawdown == 0.0 || 0.0 < cfg.maxOrderSize < 1.0
  }

  // One share at 0.5, with a thousand dollars of room in its market, as wide and as
  // confident as the configuration takes it; and the same not confident enough.
  function GoodAt(cfg: RiskCfg, t: nat): REvent {
    EvalEv(Signal(500, 1, cfg.minConfidence, cfg.maxSpread), cfg.maxPositionPerMarket - 1000.0, t)
  }

  function PoorAt(cfg: RiskCfg, t: nat): REvent {
    EvalEv(Signal(500, 1, cfg.minConfidence - 1.0, cfg.maxSpread), cfg.maxPositionPerMarket - 1000.0, t)
  }

  // An engine that has won a dollar, has a thousand dollars of total room and has seen
  // no feed.
  ghost predicate Calm(r: RState, cfg: RiskCfg) {
    && r.cfg == Init(cfg).cfg && !r.tripped && r.dailyPnl == 1.0 == r.peakPnl && r.losses == 0
    && r.exposure == cfg.maxTotalExposure - 1000.0 && r.lastPoly == 0 == r.lastBinance
  }

  lemma CalmIsSafe(r: RState, cfg: RiskCfg)
    requires Calm(r, cfg) && cfg.maxDrawdown != 0.0
    ensures LossBreach(r) == None
  {
  }

  lemma CalmStays(r: RState, cfg: RiskCfg, e: REvent)
    requires Calm(r, cfg) && e.EvalEv? && cfg.maxDrawdown != 0.0
    ensures Calm(Step(r, e), cfg)
  {
    CalmIsSafe(Windowed(r.(evaluated := r.evaluated + 1), e.now), cfg);
  }

  lemma OneShareIsSized(r: RState, cfg: RiskCfg, t: nat)
    requires Calm(r, cfg) && !Blocked(cfg)
    ensures Sized(r, GoodAt(cfg, t).sig, GoodAt(cfg, t).marketExposure) == (Approved, 1)
  {
    assert 1000.0 / 0.5 == 2000.0;
    assert WholeShares(2000.0) == 2000;
  }

  // A good signal passes whenever the rate allows it.
  lemma CalmApproves(r: RState, cfg: RiskCfg, t: nat)
    requires Calm(r, cfg) && !Blocked(cfg) && !RateExceeded(Windowed(r, t))
    ensures Approves(r, GoodAt(cfg, t))
  {
    var w := Windowed(r.(evaluated := r.evaluated + 1), t);
    CalmIsSafe(w, cfg);
    OneShareIsSized(w, cfg, t);
  }

  // One more event at the end of a run.
  lemma OneMoreEvent(r: RState, es: seq<REvent>, e: REvent)
    ensures Run(r, es + [e]) == Step(Run(r, es), e)
    ensures Approvals(r, es + [e]) == Approvals(r, es) + Approval(Run(r, es), e)
    ensures Clock(es + [e]) == if e.EvalEv? then e.now else Clock(es)
    ensures Clocked(es) && (e.EvalEv? ==> 0 < e.now && Clock(es) <= e.now) ==> Clocked(es + [e])
  {
    assert (es + [e])[..|es|] == es;
  }

  // At time t a window that started at w is open and holds m.
  ghost predicate OpenAt(r: RState, cfg: RiskCfg, t: nat, w: nat, m: nat) {
    && Calm(r, cfg) && 0 < w <= t < w + SECOND
    && Windowed(r, t).windowStart == w && Windowed(r, t).ordersInWindow == m
  }

  function Limit(cfg: RiskCfg): nat {
    Init(cfg).cfg.maxOrdersPerSec
  }

  lemma GoodStep(r: RState, cfg: RiskCfg, t: nat, w: nat, m: nat)
    requires OpenAt(r, cfg, t, w, m) && m < Limit(cfg) && !Blocked(cfg)
    ensures var e := GoodAt(cfg, t); OpenAt(Step(r, e), cfg, t, w, m + 1) && Approval(r, e) == [t]
  {
    var e := GoodAt(cfg, t);
    CalmStays(r, cfg, e);
    CalmApproves(r, cfg, t);
    EvaluationKeepsWindow(r, e);
  }

  // A refusal opens the first window.
  lemma RefusalOpensWindow(r: RState, cfg: RiskCfg)
    requires Calm(r, cfg) && r.windowStart == 0 && !Blocked(cfg)
    ensures var e := PoorAt(cfg, 1); OpenAt(Step(r, e), cfg, SECOND, 1, 0) && Approval(r, e) == []
  {
    var e := PoorAt(cfg, 1);
    CalmStays(r, cfg, e);
    LowConfidenceFails(r, e);
    EvaluationKeepsWindow(r, e);
  }

  lemma NextWindowOpens(r: RState, cfg: RiskCfg)
    requires OpenAt(r, cfg, SECOND, 1, Limit(cfg))
    ensures OpenAt(r, cfg, SECOND + 1, SECOND + 1, 0)
  {
  }

  // A good signal at the last nanosecond of the first window for the limit's worth of
  // them, and then one nanosecond later.
  function Signalled(cfg: RiskCfg, j: nat): REvent {
    GoodAt(cfg, if j < Limit(cfg) then SECOND else SECOND + 1)
  }

  ghost predicate BurstState(r: RState, cfg: RiskCfg, j: nat) {
    var max := Limit(cfg);
    if j < max then OpenAt(r, cfg, SECOND, 1, j) else j <= 2 * max && OpenAt(r, cfg, SECOND + 1, SECOND + 1, j - max)
  }

  lemma SignalPasses(r: RState, cfg: RiskCfg, j: nat)
    requires BurstState(r, cfg, j) && j < 2 * Limit(cfg) && !Blocked(cfg)
    ensures var e := Signalled(cfg, j); BurstState(Step(r, e), cfg, j + 1) && Approval(r, e) == [e.now]
  {
    var max := Limit(cfg);
    if j < max {
      GoodStep(r, cfg, SECOND, 1, j);
      if j + 1 == max { NextWindowOpens(Step(r, Signalled(cfg, j)), cfg); }
    } else {
      GoodStep(r, cfg, SECOND + 1, SECOND + 1, j - max);
    }
  }

  // A run in the first two seconds that has had j approvals in the second at SECOND.
  ghost predicate BurstRun(cfg: RiskCfg, es: seq<REvent>, j: nat) {
    && BurstState(Run(Init(cfg), es), cfg, j) && Clocked(es)
    && Clock(es) <= (if j <= Limit(cfg) then SECOND else SECOND + 1)
    && InSecond(Approvals(Init(cfg), es), SECOND) == j
  }

  lemma BurstNext(cfg: RiskCfg, es: seq<REvent>, j: nat) returns (es': seq<REvent>)
    requires BurstRun(cfg, es, j) && j < 2 * Limit(cfg) && !Blocked(cfg)
    ensures es' == es + [Signalled(cfg, j)] && BurstRun(cfg, es', j + 1)
  {
    var r0, e := Init(cfg), Signalled(cfg, j);
    es' := es + [e];
    OneMoreEvent(r0, es, e);
    SignalPasses(Run(r0, es), cfg, j);
    CountNext(Approvals(r0, es), e.now, SECOND, SECOND + SECOND);
  }

  // A dollar won, and fills up to a thousand dollars below the cap.
  lemma CalmIsReached(cfg: RiskCfg) returns (es: seq<REvent>)
    ensures es == [PnlEv(1.0), FillEv(cfg.maxTotalExposure - 1000.0)]
    ensures Calm(Run(Init(cfg), es), cfg) && Run(Init(cfg), es).windowStart == 0
    ensures Clocked(es) && Clock(es) == 0 && Approvals(Init(cfg), es) == []
  {
    var e0, e1 := PnlEv(1.0), FillEv(cfg.maxTotalExposure - 1000.0);
    OneMoreEvent(Init(cfg), [], e0);
    OneMoreEvent(Init(cfg), [] + [e0], e1);
    es := [] + [e0] + [e1];
  }

  lemma BurstStarts(cfg: RiskCfg) returns (es: seq<REvent>)
    requires !Blocked(cfg)
    ensures BurstRun(cfg, es, 0)
  {
    var es0 := CalmIsReached(cfg);
    es := es0 + [PoorAt(cfg, 1)];
    OneMoreEvent(Init(cfg), es0, PoorAt(cfg, 1));
    RefusalOpensWindow(Run(Init(cfg), es0), cfg);
    CountNothing([], SECOND, SECOND + SECOND);
  }

  // After a refusal, j such signals.
  lemma {:induction false} Burst(cfg: RiskCfg, j: nat) returns (es: seq<REvent>)
    requires !Blocked(cfg) && j <= 2 * Limit(cfg)
    ensures BurstRun(cfg, es, j)
  {
    if j == 0 {
      es := BurstStarts(cfg);
    } else {
      var es0 := Burst(cfg, j - 1);
      es := BurstNext(cfg, es0, j - 1);
    }
  }

  // The window does not slide: whatever the configuration, if orders can pass at all, some
  // run has twice the limit of approvals within one second.
  lemma RateBoundIsTight(cfg: RiskCfg) returns (es: seq<REvent>)
    requires !Blocked(cfg)
    ensures Clocked(es) && InSecond(Approvals(Init(cfg), es), SECOND) == 2 * Limit(cfg)
  {
    es := Burst(cfg, 2 * Limit(cfg));
  }

  lemma LowConfidenceFails(r: RState, e: REvent)
    requires e.EvalEv? && e.sig.confidence < r.cfg.minConfidence
    ensures !Approves(r, e)
  {
  }

  // The peak is never below the present total, so that no drawdown allowed is always one
  // too many; and less than a share is cut to none.
  lemma NoOrderPasses(cfg: RiskCfg, es: seq<REvent>, e: REvent)
    requires Blocked(cfg)
    ensures !Approves(Run(Init(cfg), es), e)
  {
    RunKeepsHistory(cfg, es);
    var r := Run(Init(cfg), es);
    assert TotalAfter(Pnls(es), |Pnls(es)|) == Sum(Pnls(es)) by {
      assert Pnls(es)[..|Pnls(es)|] == Pnls(es);
    }
    if cfg.maxDrawdown != 0.0 && e.EvalEv? {
      NothingIsSized(Windowed(r.(evaluated := r.evaluated + 1), e.now), e.sig, e.marketExposure);
    }
  }

  lemma NothingIsSized(r: RState, sig: Signal, marketExposure: real)
    requires 0.0 < r.cfg.maxOrderSize < 1.0
    ensures Sized(r, sig, marketExposure).0 != Approved
  {
  }

  lemma {:induction false} NothingPasses(cfg: RiskCfg, es: seq<REvent>)
    requires Blocked(cfg)
    ensures Approvals(Init(cfg), es) == []
  {
    if es != [] {
      NothingPasses(cfg, es[..|es| - 1]);
      NoOrderPasses(cfg, es[..|es| - 1], es[|es| - 1]);
    }
  }

  // Every second of every run is held to the limit itself.
  ghost predicate LimitSlides(cfg: RiskCfg) {
    forall es: seq<REvent>, a: int :: Clocked(es) ==> InSecond(Approvals(Init(cfg), es), a) <= Limit(cfg)
  }

  // That is so exactly under the configurations that let no order pass.
  lemma SlidingExactness(cfg: RiskCfg)
    ensures LimitSlides(cfg) <==> Blocked(cfg)
  {
    if Blocked(cfg) {
      forall es: seq<REvent>, a: int | Clocked(es) ensures InSecond(Approvals(Init(cfg), es), a) <= Limit(cfg) {
        NothingPasses(cfg, es);
        CountNothing([], a, a + SECOND);
      }
    } else {
      var es := RateBoundIsTight(cfg);
      assert InSecond(Approvals(Init(cfg), es), SECOND) > Limit(cfg);
    }
  }

  // ------------------------------------------------------------- approvals and history

  function Pnls(es: seq<REvent>): seq<real> {
    if es == [] then []
    else Pnls(es[..|es| - 1]) + (if es[|es| - 1].PnlEv? then [es[|es| - 1].pnl] else [])
  }

  function FilledNotional(es: seq<REvent>): real {
    if es == [] then 0.0
    else FilledNotional(es[..|es| - 1]) + (if es[|es| - 1].FillEv? then es[|es| - 1].notional else 0.0)
  }

  function Sum(xs: seq<real>): real {
    if xs == [] then 0.0 else Sum(xs[..|xs| - 1]) + xs[|xs| - 1]
  }

  // Running total after the first k trades.
  function TotalAfter(xs: seq<real>, k: nat): real
    requires k <= |xs|
  {
    Sum(xs[..k])
  }

  ghost predicate Attained(xs: seq<real>, peak: real, k: nat) {
    k <= |xs| && TotalAfter(xs, k) == peak
  }

  // The high-water mark: the largest running total, the empty one included.
  ghost predicate IsPeak(xs: seq<real>, peak: real) {
    && (forall k :: 0 <= k <= |xs| ==> TotalAfter(xs, k) <= peak)
    && (exists k: nat :: Attained(xs, peak, k))
  }

  function LossCount(xs: seq<real>): nat {
    if xs == [] then 0 else LossCount(xs[..|xs| - 1]) + (if xs[|xs| - 1] < 0.0 then 1 else 0)
  }

  // Trade k - 1 won, none since did, and `losses` of those lost.
  ghost predicate StreakFrom(xs: seq<real>, losses: nat, k: nat) {
    && k <= |xs| && (k == 0 || xs[k - 1] > 0.0)
    && (forall i :: k <= i < |xs| ==> xs[i] <= 0.0)
    && losses == LossCount(xs[k..])
  }

  // Losses since the last winning trade; trades that break even do not count.
  ghost predicate IsStreak(xs: seq<real>, losses: nat) {
    exists k: nat :: StreakFrom(xs, losses, k)
  }

  lemma TotalsNext(xs: seq<real>, x: real)
    ensures forall k :: 0 <= k <= |xs| ==> TotalAfter(xs + [x], k) == TotalAfter(xs, k)
    ensures TotalAfter(xs + [x], |xs| + 1) == Sum(xs) + x
  {
    forall k | 0 <= k <= |xs| ensures TotalAfter(xs + [x], k) == TotalAfter(xs, k) {
      assert (xs + [x])[..k] == xs[..k];
    }
    assert (xs + [x])[..|xs| + 1] == xs + [x] && (xs + [x])[..|xs|] == xs;
  }

  function Max2(a: real, b: real): real {
    if b > a then b else a
  }

  lemma BoundNext(xs: seq<real>, x: real, bound: real)
    requires forall k :: 0 <= k <= |xs| ==> TotalAfter(xs, k) <= bound
    ensures forall k :: 0 <= k <= |xs| + 1 ==> TotalAfter(xs + [x], k) <= Max2(bound, Sum(xs) + x)
  {
    TotalsNext(xs, x);
  }

  lemma PeakNext(xs: seq<real>, x: real, peak: real)
    requires IsPeak(xs, peak)
    ensures IsPeak(xs + [x], Max2(peak, Sum(xs) + x))
  {
    BoundNext(xs, x, peak);
    TotalsNext(xs, x);
    var k: nat :| Attained(xs, peak, k);
    assert Attained(xs + [x], peak, k);
    assert Attained(xs + [x], Sum(xs) + x, |xs| + 1);
  }

  lemma StreakNext(xs: seq<real>, x: real, losses: nat)
    requires IsStreak(xs, losses)
    ensures IsStreak(xs + [x], if x < 0.0 then losses + 1 else if x > 0.0 then 0 else losses)
  {
    var ys := xs + [x];
    if x > 0.0 {
      assert ys[|ys|..] == [];
      assert StreakFrom(ys, 0, |ys|);
    } else {
      var k: nat :| StreakFrom(xs, losses, k);
      assert ys[k..] == xs[k..] + [x];
      assert (xs[k..] + [x])[..|xs[k..]|] == xs[k..];
      assert StreakFrom(ys, if x < 0.0 then losses + 1 else losses, k);
    }
  }

  // The engine's running figures are those of a PnL history and a total of fills.
  ghost predicate Figures(r: RState, pnls: seq<real>, filled: real) {
    && r.dailyPnl == Sum(pnls) && IsPeak(pnls, r.peakPnl) && IsStreak(pnls, r.losses)
    && r.exposure == filled
  }

  lemma EvaluationKeepsFigures(r: RState, sig: Signal, exposure: real, now: nat)
    ensures var r' := Evaluate(r, sig, exposure, now).0;
      r'.cfg == r.cfg && r'.dailyPnl == r.dailyPnl && r'.peakPnl == r.peakPnl
      && r'.losses == r.losses && r'.exposure == r.exposure
  {
  }

  lemma PnlKeepsFigures(r: RState, pnls: seq<real>, filled: real, pnl: real)
    requires Figures(r, pnls, filled)
    ensures Figures(OnPnl(r, pnl), pnls + [pnl], filled)
  {
    PeakNext(pnls, pnl, r.peakPnl);
    StreakNext(pnls, pnl, r.losses);
    assert (pnls + [pnl])[..|pnls|] == pnls;
  }

  lemma StepKeepsFigures(r: RState, e: REvent, pnls: seq<real>, filled: real)
    requires Figures(r, pnls, filled)
    ensures Step(r, e).cfg == r.cfg
    ensures Figures(Step(r, e), if e.PnlEv? then pnls + [e.pnl] else pnls,
                    if e.FillEv? then filled + e.notional else filled)
  {
    if e.EvalEv? {
      EvaluationKeepsFigures(r, e.sig, e.marketExposure, e.now);
    } else if e.PnlEv? {
      PnlKeepsFigures(r, pnls, filled, e.pnl);
    }
  }

  lemma {:induction false} RunKeepsHistory(cfg: RiskCfg, es: seq<REvent>)
    ensures Figures(Run(Init(cfg), es), Pnls(es), FilledNotional(es))
    ensures Run(Init(cfg), es).cfg == Init(cfg).cfg
  {
    if es == [] {
      assert Attained(Pnls(es), 0.0, 0);
      assert StreakFrom(Pnls(es), 0, 0);
    } else {
      var n := |es| - 1;
      RunKeepsHistory(cfg, es[..n]);
      StepKeepsFigures(Run(Init(cfg), es[..n]), es[n], Pnls(es[..n]), FilledNotional(es[..n]));
      assert Pnls(es[..n]) + [] == Pnls(es[..n]);
    }
  }

  // Dollars an order of this size commits.
  function Notional(size: nat, sig: Signal): real {
    size as real * Dollars(sig.targetPrice)
  }

  // What an approval certifies about the engine that gives it.
  lemma ApprovalMeans(r: RState, sig: Signal, marketExposure: real, now: nat)
    requires Evaluate(r, sig, marketExposure, now).1 == Approved
    ensures !r.tripped && -Abs(r.cfg.maxDailyLoss) < r.dailyPnl
    ensures r.peakPnl - r.dailyPnl < Abs(r.cfg.maxDrawdown)
    ensures r.cfg.maxConsecutiveLosses > 0 ==> r.losses < r.cfg.maxConsecutiveLosses
    ensures var size := Evaluate(r, sig, marketExposure, now).2;
      size <= sig.maxSize && 0.001 < Dollars(sig.targetPrice)
      && (r.cfg.maxOrderSize > 0.0 ==> size as real <= r.cfg.maxOrderSize)
      && Notional(size, sig)
           <= MinReal(r.cfg.maxPositionPerMarket - marketExposure, r.cfg.maxTotalExposure - r.exposure)
  {
    var w := Windowed(r.(evaluated := r.evaluated + 1), now);
    SizeFitsRoom(w, sig, marketExposure);
  }

  lemma SizeFitsRoom(r: RState, sig: Signal, marketExposure: real)
    requires Sized(r, sig, marketExposure).0 == Approved
    ensures var size := Sized(r, sig, marketExposure).1;
      size <= sig.maxSize && 0.001 < Dollars(sig.targetPrice)
      && (r.cfg.maxOrderSize > 0.0 ==> size as real <= r.cfg.maxOrderSize)
      && Notional(size, sig)
           <= MinReal(r.cfg.maxPositionPerMarket - marketExposure, r.cfg.maxTotalExposure - r.exposure)
  {
    var p, size := Dollars(sig.targetPrice), Sized(r, sig, marketExposure).1;
    var room := MinReal(r.cfg.maxPositionPerMarket - marketExposure, r.cfg.maxTotalExposure - r.exposure);
    var allowed := WholeShares(room / p);
    assert room / p >= 0.0 by { QuotientSign(room, p); }
    assert size <= allowed;
    WholeSharesFit(size, allowed, room, p);
  }

  lemma QuotientSign(x: real, y: real)
    requires 0.0 < x && 0.0 < y
    ensures 0.0 <= x / y && (x / y) * y == x
  {
  }

  lemma WholeSharesFit(size: nat, allowed: nat, room: real, p: real)
    requires 0.0 < p && 0.0 < room && size <= allowed && allowed as real <= room / p
    ensures size as real * p <= room
  {
    QuotientSign(room, p);
    ProductOrder(size as real, room / p, p);
  }

  lemma ProductOrder(x: real, y: real, k: real)
    requires x <= y && 0.0 < k
    ensures x * k <= y * k
  {
  }

  // An approval, in terms of everything that happened before it.
  lemma ApprovalIsSound(cfg: RiskCfg, es: seq<REvent>, sig: Signal, marketExposure: real, now: nat)
    returns (peak: real, losses: nat)
    requires Evaluate(Run(Init(cfg), es), sig, marketExposure, now).1 == Approved
    ensures IsPeak(Pnls(es), peak) && IsStreak(Pnls(es), losses)
    ensures var c, pnls := Init(cfg).cfg, Pnls(es);
      -Abs(c.maxDailyLoss) < Sum(pnls) && peak - Sum(pnls) < Abs(c.maxDrawdown)
      && (c.maxConsecutiveLosses > 0 ==> losses < c.maxConsecutiveLosses)
    ensures var c, size := Init(cfg).cfg, Evaluate(Run(Init(cfg), es), sig, marketExposure, now).2;
      Notional(size, sig)
        <= MinReal(c.maxPositionPerMarket - marketExposure, c.maxTotalExposure - FilledNotional(es))
  {
    RunKeepsHistory(cfg, es);
    var r := Run(Init(cfg), es);
    ApprovalMeans(r, sig, marketExposure, now);
    peak, losses := r.peakPnl, r.losses;
  }

  lemma VerdictIsCounted(r: RState, e: REvent)
    ensures var r' := Step(r, e); r'.evaluated - r'.rejected == r.evaluated - r.rejected + |Approval(r, e)|
  {
  }

  // Every evaluation of a run is either an approval or counted as rejected.
  lemma {:induction false} VerdictsAreCounted(cfg: RiskCfg, es: seq<REvent>)
    ensures Run(Init(cfg), es).evaluated - Run(Init(cfg), es).rejected == |Approvals(Init(cfg), es)|
  {
    if es != [] {
      VerdictsAreCounted(cfg, es[..|es| - 1]);
      VerdictIsCounted(Run(Init(cfg), es[..|es| - 1]), es[|es| - 1]);
    }
  }

  // ------------------------------------------------------------------ the kill switch

  // Once tripped, nothing is approved until the switch is reset by hand.
  lemma {:induction false} KillLatches(r: RState, es: seq<REvent>)
    requires r.tripped && forall i :: 0 <= i < |es| ==> !es[i].ResetEv?
    ensures Run(r, es).tripped && Approvals(r, es) == []
  {
    if es != [] {
      KillLatches(r, es[..|es| - 1]);
    }
  }

  // An evaluation that finds a loss limit breached trips the switch, unless the rate
  // limit turns it away first.
  lemma BreachTrips(r: RState, sig: Signal, marketExposure: real, now: nat)
    ensures Evaluate(r, sig, marketExposure, now).0.tripped
       <==> r.tripped || (!RateExceeded(Windowed(r, now)) && LossBreach(r).Some?)
  {
  }

  // ---------------------------------------------------------------- the exposure cap

  // Notional an event leaves approved: an evaluation sets it, fills use it up.
  function BudgetAfter(r: RState, budget: real, e: REvent): real {
    match e
    case EvalEv(sig, exposure, now) =>
      Notional(Evaluate(r, sig, exposure, now).2, sig)
    case FillEv(notional) => budget - notional
    case _ => budget
  }

  function Budget(r: RState, es: seq<REvent>): real {
    if es == [] then 0.0
    else BudgetAfter(Run(r, es[..|es| - 1]), Budget(r, es[..|es| - 1]), es[|es| - 1])
  }

  // Fills reported before the next evaluation stay within the notional approved.
  ghost predicate Disciplined(r: RState, es: seq<REvent>) {
    forall i :: 0 <= i < |es| && es[i].FillEv? ==> es[i].notional <= Budget(r, es[..i])
  }

  function Cap(cfg: RiskCfg): real {
    if cfg.maxTotalExposure > 0.0 then cfg.maxTotalExposure else 0.0
  }

  lemma EvaluationKeepsCap(r: RState, budget: real, sig: Signal, exposure: real, now: nat)
    requires 0.0 <= budget && r.exposure + budget <= Cap(r.cfg)
    ensures var (r', v, size) := Evaluate(r, sig, exposure, now);
      var b := Notional(size, sig);
      0.0 <= b && r'.exposure + b <= Cap(r.cfg)
  {
    EvaluationKeepsFigures(r, sig, exposure, now);
    var (r', v, size) := Evaluate(r, sig, exposure, now);
    if v == Approved {
      ApprovalMeans(r, sig, exposure, now);
      ProductSign(size as real, Dollars(sig.targetPrice));
    } else {
      assert size == 0;
    }
  }

  lemma ProductSign(x: real, y: real)
    requires 0.0 <= x && 0.0 <= y
    ensures 0.0 <= x * y
  {
  }

  lemma StepKeepsCap(r: RState, budget: real, e: REvent)
    requires 0.0 <= budget && r.exposure + budget <= Cap(r.cfg)
    requires e.FillEv? ==> e.notional <= budget
    ensures var budget' := BudgetAfter(r, budget, e);
      0.0 <= budget' && Step(r, e).exposure + budget' <= Cap(r.cfg)
  {
    if e.EvalEv? { EvaluationKeepsCap(r, budget, e.sig, e.marketExposure, e.now); }
  }

  // Total exposure never exceeds its cap when callers fill no more than was approved.
  lemma {:induction false} ExposureIsCapped(cfg: RiskCfg, es: seq<REvent>)
    requires Disciplined(Init(cfg), es)
    ensures var r, budget := Run(Init(cfg), es), Budget(Init(cfg), es);
      0.0 <= budget && r.exposure + budget <= Cap(cfg)
  {
    if es != [] {
      var n := |es| - 1;
      forall i | 0 <= i < n ensures es[..n][..i] == es[..i] && es[..n][i] == es[i] {
      }
      ExposureIsCapped(cfg, es[..n]);
      RunKeepsHistory(cfg, es[..n]);
      StepKeepsCap(Run(Init(cfg), es[..n]), Budget(Init(cfg), es[..n]), es[n]);
    }
  }
}
