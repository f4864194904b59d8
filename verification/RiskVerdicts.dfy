// The verdict of the risk gate on any signal, in terms of the figures it goes by: which
// reason it gives, when it approves, how much, and what an evaluation leaves behind.

module RiskVerdicts {
  import opened Types
  import opened Risk

  // n shares at the signal's price fit the room in their market, the room in total and
  // the order limit, when there is one.
  ghost predicate Fits(r: RState, sig: Signal, held: real, n: int) {
    var cost := n as real * (sig.targetPrice as real / 1000.0);
    && cost <= r.cfg.maxPositionPerMarket - held && cost <= r.cfg.maxTotalExposure - r.exposure
    && (0.0 < r.cfg.maxOrderSize ==> n as real <= r.cfg.maxOrderSize)
  }

  // The engine's current second goes on, and has had its approvals.
  predicate SecondIsFull(r: RState, now: nat) {
    && 0 < r.windowStart && now < r.windowStart + 1000000000
    && 0 < r.cfg.maxOrdersPerSec <= r.ordersInWindow
  }

  // A feed that was seen, is watched, and was last seen longer ago than it may be.
  predicate Stale(seen: nat, limit: nat, now: nat) {
    0 < seen && 0 < limit && limit < now - seen
  }

  // What speaks against a signal, each reason by itself. A limit on losses counts without
  // its sign.
  ghost predicate Forbids(r: RState, sig: Signal, held: real, now: nat, v: Verdict) {
    match v
    case Approved => false
    case KillSwitchActive => r.tripped
    case RateLimitExceeded => SecondIsFull(r, now)
    case DailyLossExceeded => r.dailyPnl <= r.cfg.maxDailyLoss && r.dailyPnl <= -r.cfg.maxDailyLoss
    case DrawdownExceeded =>
      r.cfg.maxDrawdown <= r.peakPnl - r.dailyPnl && -r.cfg.maxDrawdown <= r.peakPnl - r.dailyPnl
    case ConsecutiveLosses => 0 < r.cfg.maxConsecutiveLosses <= r.losses
    case PolyFeedStale => Stale(r.lastPoly, r.cfg.polyStaleNs, now)
    case BinanceFeedStale => Stale(r.lastBinance, r.cfg.binanceStaleNs, now)
    case SpreadTooWide => r.cfg.maxSpread < sig.spread
    case LowConfidence => sig.confidence < r.cfg.minConfidence
    case InvalidPrice => sig.targetPrice <= 1
    case PositionLimit => r.cfg.maxPositionPerMarket <= held
    case TotalExposureLimit => r.cfg.maxTotalExposure <= r.exposure || !Fits(r, sig, held, 1)
  }

  // In what order the reasons come.
  function Rank(v: Verdict): nat {
    match v
    case KillSwitchActive => 1
    case RateLimitExceeded => 2
    case DailyLossExceeded => 3
    case DrawdownExceeded => 4
    case ConsecutiveLosses => 5
    case PolyFeedStale => 6
    case BinanceFeedStale => 7
    case SpreadTooWide => 8
    case LowConfidence => 9
    case InvalidPrice => 10
    case PositionLimit => 11
    case TotalExposureLimit => 12
    case Approved => 13
  }

  // No reason that comes before this verdict speaks against the signal.
  ghost predicate NothingBefore(r: RState, sig: Signal, held: real, now: nat, v: Verdict) {
    forall u: Verdict :: Rank(u) < Rank(v) ==> !Forbids(r, sig, held, now, u)
  }

  lemma QuotientOf(x: real, y: real)
    requires 0.0 < y
    ensures (x / y) * y == x
  {
  }

  lemma FitsByQuotient(n: int, room: real, price: real)
    requires 0.0 < price
    ensures n as real <= room / price <==> n as real * price <= room
  {
    QuotientOf(room, price);
    var q, m := room / price, n as real;
    if m <= q { InOrder(m, q, price); } else { InStrictOrder(q, m, price); }
  }

  lemma InOrder(x: real, y: real, k: real)
    requires x <= y && 0.0 < k
    ensures x * k <= y * k
  {
  }

  lemma InStrictOrder(x: real, y: real, k: real)
    requires x < y && 0.0 < k
    ensures x * k < y * k
  {
  }

  // The whole shares of the room, up to the order limit, are the most that fit.
  lemma MostThatFit(r: RState, sig: Signal, held: real, n: int)
    requires 1 < sig.targetPrice
    requires held < r.cfg.maxPositionPerMarket && r.exposure < r.cfg.maxTotalExposure
    ensures var room := MinReal(r.cfg.maxPositionPerMarket - held, r.cfg.maxTotalExposure - r.exposure);
      Fits(r, sig, held, n) <==> n <= Capped(r.cfg, WholeShares(room / Dollars(sig.targetPrice)))
  {
    var price := Dollars(sig.targetPrice);
    var room := MinReal(r.cfg.maxPositionPerMarket - held, r.cfg.maxTotalExposure - r.exposure);
    FitsByQuotient(n, room, price);
    FitsByQuotient(0, room, price);
  }

  // The right answer: the first reason there is, or, when there is none, the most shares,
  // up to what is asked for, that fit.
  ghost predicate Right(r: RState, sig: Signal, held: real, now: nat, v: Verdict, n: nat) {
    && NothingBefore(r, sig, held, now, v)
    && (v != Approved ==> Forbids(r, sig, held, now, v) && n == 0)
    && (v == Approved ==>
          && n <= sig.maxSize && Fits(r, sig, held, n)
          && forall m: int :: m <= sig.maxSize && Fits(r, sig, held, m) ==> m <= n)
  }

  lemma SizedIsRight(r: RState, sig: Signal, held: real, now: nat)
    requires forall u: Verdict :: Rank(u) < 10 ==> !Forbids(r, sig, held, now, u)
    ensures Right(r, sig, held, now, Sized(r, sig, held).0, Sized(r, sig, held).1)
  {
    if 1 < sig.targetPrice && held < r.cfg.maxPositionPerMarket && r.exposure < r.cfg.maxTotalExposure {
      forall m: int
        ensures var room := MinReal(r.cfg.maxPositionPerMarket - held, r.cfg.maxTotalExposure - r.exposure);
          Fits(r, sig, held, m) <==> m <= Capped(r.cfg, WholeShares(room / Dollars(sig.targetPrice)))
      {
        MostThatFit(r, sig, held, m);
      }
    }
  }

  lemma LossesAreFirst(r: RState, sig: Signal, held: real, now: nat)
    requires !r.tripped && !SecondIsFull(r, now)
    ensures var b := LossBreach(r);
      if b.Some? then Right(r, sig, held, now, b.value.0, 0)
      else forall u: Verdict :: Rank(u) < 6 ==> !Forbids(r, sig, held, now, u)
  {
  }

  lemma MarketIsNext(r: RState, sig: Signal, held: real, now: nat)
    requires forall u: Verdict :: Rank(u) < 6 ==> !Forbids(r, sig, held, now, u)
    ensures var why := Unsuitable(r, sig, now);
      if why.Some? then Right(r, sig, held, now, why.value, 0)
      else forall u: Verdict :: Rank(u) < 10 ==> !Forbids(r, sig, held, now, u)
  {
  }

  lemma RestIsRight(r: RState, sig: Signal, held: real, now: nat)
    requires !r.tripped && !SecondIsFull(r, now)
    ensures var (_, v, n) := Rest(r, sig, held, now); Right(r, sig, held, now, v, n)
  {
    LossesAreFirst(r, sig, held, now);
    if LossBreach(r) == None {
      MarketIsNext(r, sig, held, now);
      if Unsuitable(r, sig, now) == None { SizedIsRight(r, sig, held, now); }
    }
  }

  // A second that has just been looked at is as full as it was.
  lemma LookedAt(r: RState, w: RState, sig: Signal, held: real, now: nat, v: Verdict, n: nat)
    requires !r.tripped && w == Windowed(r.(evaluated := r.evaluated + 1), now)
    ensures SecondIsFull(w, now) <==> SecondIsFull(r, now)
    ensures RateExceeded(w) <==> SecondIsFull(r, now)
    ensures Right(w, sig, held, now, v, n) ==> Right(r, sig, held, now, v, n)
  {
    assert SecondIsFull(w, now) <==> SecondIsFull(r, now);
    forall u: Verdict ensures Forbids(w, sig, held, now, u) <==> Forbids(r, sig, held, now, u) {
      if u == TotalExposureLimit { assert Fits(w, sig, held, 1) <==> Fits(r, sig, held, 1); }
    }
    assert forall m: int :: Fits(w, sig, held, m) <==> Fits(r, sig, held, m);
  }

  // Every evaluation gives it.
  lemma VerdictIsFirstReason(r: RState, sig: Signal, held: real, now: nat)
    ensures var (_, v, n) := Evaluate(r, sig, held, now); Right(r, sig, held, now, v, n)
  {
    if !r.tripped {
      var w := Windowed(r.(evaluated := r.evaluated + 1), now);
      var (_, v, n) := Rest(w, sig, held, now);
      LookedAt(r, w, sig, held, now, v, n);
      if !SecondIsFull(r, now) { RestIsRight(w, sig, held, now); }
    }
  }

  // So it approves exactly when nothing speaks against it.
  lemma ApprovesExactly(r: RState, sig: Signal, held: real, now: nat)
    ensures Evaluate(r, sig, held, now).1 == Approved <==> forall v: Verdict :: !Forbids(r, sig, held, now, v)
  {
    VerdictIsFirstReason(r, sig, held, now);
  }

  // What an evaluation changes: its counters, the second it falls in and, on a breached
  // loss limit, the switch.
  lemma EvaluationLeaves(r: RState, sig: Signal, held: real, now: nat)
    ensures var (r', v, n) := Evaluate(r, sig, held, now);
      var opens := !r.tripped && (r.windowStart == 0 || r.windowStart + 1000000000 <= now);
      r' == r.(evaluated := r.evaluated + 1, rejected := r.rejected + (if v == Approved then 0 else 1),
               windowStart := if opens then now else r.windowStart,
               ordersInWindow := (if opens then 0 else r.ordersInWindow) + (if v == Approved then 1 else 0),
               tripped := r.tripped || v == DailyLossExceeded || v == DrawdownExceeded || v == ConsecutiveLosses,
               reason := if v == DailyLossExceeded then DailyLoss else if v == DrawdownExceeded then Drawdown
                         else if v == ConsecutiveLosses then Losses else r.reason)
  {
  }

  // ------------------------------------------------------------------ what it goes by

  // When a feed was last seen in a run.
  function LastSeen(es: seq<REvent>, poly: bool): nat {
    if es == [] then 0
    else
      var e := es[|es| - 1];
      if poly && e.PolyEv? then e.now else if !poly && e.BinanceEv? then e.now else LastSeen(es[..|es| - 1], poly)
  }

  lemma {:induction false} FeedsAreSeen(cfg: RiskCfg, es: seq<REvent>)
    ensures Run(Init(cfg), es).lastPoly == LastSeen(es, true)
    ensures Run(Init(cfg), es).lastBinance == LastSeen(es, false)
  {
    if es != [] {
      FeedsAreSeen(cfg, es[..|es| - 1]);
      var r, e := Run(Init(cfg), es[..|es| - 1]), es[|es| - 1];
      if e.EvalEv? { EvaluationLeaves(r, e.sig, e.marketExposure, e.now); }
    }
  }

  // 50 orders a second and 1000 shares an order stand in for limits of zero, and nothing
  // has happened yet.
  lemma StartsWith(cfg: RiskCfg)
    ensures var r := Init(cfg);
      r.cfg == cfg.(maxOrdersPerSec := if cfg.maxOrdersPerSec == 0 then 50 else cfg.maxOrdersPerSec,
                    maxOrderSize := if cfg.maxOrderSize == 0.0 then 1000.0 else cfg.maxOrderSize)
      && !r.tripped && r.reason == NotKilled && r.exposure == 0.0 == r.dailyPnl && r.peakPnl == 0.0
      && r.losses == 0 == r.evaluated && r.rejected == 0 == r.windowStart && r.ordersInWindow == 0
      && r.lastPoly == 0 == r.lastBinance
  {
  }

  // A missing configuration limits everything to zero.
  lemma MissingLimits()
    ensures NO_LIMITS == RiskCfg(0.0, 0.0, 0.0, 0.0, 0.0, 0, 0, 0.0, 0, 0.0, 0)
  {
  }

  // A trip by hand refuses everything for that reason, and a reset takes it back whole.
  lemma TripAndReset(r: RState, sig: Signal, held: real, now: nat)
    ensures var t := Step(r, TripEv);
      t.reason == Manual && Evaluate(t, sig, held, now).1 == KillSwitchActive
      && (!r.tripped && r.reason == NotKilled ==> Step(t, ResetEv) == r)
  {
  }
}
