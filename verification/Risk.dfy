// pt_risk: the gate every signal passes before it becomes an order. Money is exact
// reals, clocks are nanoseconds.

module Risk {
  import opened Types

  const SECOND: nat := 1000000000

  datatype RiskCfg = RiskCfg(
    maxPositionPerMarket: real, maxTotalExposure: real, maxOrderSize: real,
    maxDailyLoss: real, maxDrawdown: real, polyStaleNs: nat, binanceStaleNs: nat,
    maxSpread: real, maxConsecutiveLosses: int, minConfidence: real, maxOrdersPerSec: nat)

  datatype Signal = Signal(targetPrice: int, maxSize: nat, confidence: real, spread: real)

  datatype Verdict =
    | Approved | KillSwitchActive | DailyLossExceeded | DrawdownExceeded | ConsecutiveLosses
    | PositionLimit | TotalExposureLimit | PolyFeedStale | BinanceFeedStale | SpreadTooWide
    | LowConfidence | RateLimitExceeded | InvalidPrice

  datatype KillReason = NotKilled | Manual | DailyLoss | Drawdown | Losses

  datatype RState = RState(
    cfg: RiskCfg, tripped: bool, reason: KillReason, exposure: real, dailyPnl: real, peakPnl: real,
    losses: nat, lastPoly: nat, lastBinance: nat, evaluated: nat, rejected: nat,
    windowStart: nat, ordersInWindow: nat)

  function Abs(x: real): real {
    if x < 0.0 then -x else x
  }

  function MinReal(x: real, y: real): real {
    if x < y then x else y
  }

  // Conversion of a non-negative quantity to a whole number of shares.
  function WholeShares(x: real): nat {
    if x < 0.0 then 0 else x.Floor
  }

  // What stands in for a missing configuration.
  const NO_LIMITS: RiskCfg := RiskCfg(0.0, 0.0, 0.0, 0.0, 0.0, 0, 0, 0.0, 0, 0.0, 0)

  // Zero means "use the default" for two of the limits.
  function Init(cfg: RiskCfg): RState {
    var c1 := if cfg.maxOrdersPerSec == 0 then cfg.(maxOrdersPerSec := 50) else cfg;
    var c2 := if c1.maxOrderSize == 0.0 then c1.(maxOrderSize := 1000.0) else c1;
    RState(c2, false, NotKilled, 0.0, 0.0, 0.0, 0, 0, 0, 0, 0, 0, 0)
  }

  // ------------------------------------------------------------------- evaluation

  function Killed(r: RState, reason: KillReason): RState {
    r.(tripped := true, reason := reason)
  }

  // Opens a new one-second window when the last one is over.
  function Windowed(r: RState, now: nat): RState {
    if r.windowStart == 0 || now >= r.windowStart + SECOND
    then r.(windowStart := now, ordersInWindow := 0) else r
  }

  predicate RateExceeded(r: RState) {
    r.cfg.maxOrdersPerSec > 0 && r.ordersInWindow >= r.cfg.maxOrdersPerSec
  }

  // The first breached loss limit, which also trips the kill switch.
  function LossBreach(r: RState): Option<(Verdict, KillReason)> {
    if r.dailyPnl <= -Abs(r.cfg.maxDailyLoss) then Some((DailyLossExceeded, DailyLoss))
    else if r.peakPnl - r.dailyPnl >= Abs(r.cfg.maxDrawdown) then Some((DrawdownExceeded, Drawdown))
    else if r.cfg.maxConsecutiveLosses > 0 && r.losses >= r.cfg.maxConsecutiveLosses
    then Some((ConsecutiveLosses, Losses))
    else None
  }

  // The first reason not to trade now that leaves the engine running.
  function Unsuitable(r: RState, sig: Signal, now: nat): Option<Verdict> {
    if r.cfg.polyStaleNs > 0 && r.lastPoly > 0 && now > r.lastPoly + r.cfg.polyStaleNs then Some(PolyFeedStale)
    else if r.cfg.binanceStaleNs > 0 && r.lastBinance > 0 && now > r.lastBinance + r.cfg.binanceStaleNs
    then Some(BinanceFeedStale)
    else if sig.spread > r.cfg.maxSpread then Some(SpreadTooWide)
    else if sig.confidence < r.cfg.minConfidence then Some(LowConfidence)
    else None
  }

  function Capped(cfg: RiskCfg, shares: nat): nat {
    if cfg.maxOrderSize > 0.0 && shares as real > cfg.maxOrderSize then WholeShares(cfg.maxOrderSize) else shares
  }

  // Sizing against the room left in the market and in total.
  function Sized(r: RState, sig: Signal, marketExposure: real): (Verdict, nat) {
    var notional := Dollars(sig.targetPrice);
    if notional <= 0.001 then (InvalidPrice, 0)
    else if r.cfg.maxPositionPerMarket - marketExposure <= 0.0 then (PositionLimit, 0)
    else if r.cfg.maxTotalExposure - r.exposure <= 0.0 then (TotalExposureLimit, 0)
    else
      var room := MinReal(r.cfg.maxPositionPerMarket - marketExposure, r.cfg.maxTotalExposure - r.exposure);
      var allowed := Capped(r.cfg, WholeShares(room / notional));
      if allowed == 0 then (TotalExposureLimit, 0)
      else (Approved, Capped(r.cfg, Min(sig.maxSize, allowed)))
  }

  function Refused(r: RState): RState {
    r.(rejected := r.rejected + 1)
  }

  // Losses, feeds and market, and size, of an evaluation that the rate limit lets through.
  function Rest(w: RState, sig: Signal, marketExposure: real, now: nat): (RState, Verdict, nat) {
    if LossBreach(w).Some? then (Refused(Killed(w, LossBreach(w).value.1)), LossBreach(w).value.0, 0)
    else if Unsuitable(w, sig, now).Some? then (Refused(w), Unsuitable(w, sig, now).value, 0)
    else
      var (v, size) := Sized(w, sig, marketExposure);
      if v != Approved then (Refused(w), v, 0)
      else (w.(ordersInWindow := w.ordersInWindow + 1), Approved, size)
  }

  function Evaluate(r0: RState, sig: Signal, marketExposure: real, now: nat): (RState, Verdict, nat) {
    var r := r0.(evaluated := r0.evaluated + 1);
    if r.tripped then (Refused(r), KillSwitchActive, 0)
    else
      var w := Windowed(r, now);
      if RateExceeded(w) then (Refused(w), RateLimitExceeded, 0) else Rest(w, sig, marketExposure, now)
  }

  function OnPnl(r: RState, pnl: real): RState {
    var daily := r.dailyPnl + pnl;
    r.(dailyPnl := daily, peakPnl := if daily > r.peakPnl then daily else r.peakPnl,
       losses := if pnl < 0.0 then r.losses + 1 else if pnl > 0.0 then 0 else r.losses)
  }

  // ------------------------------------------------------------------------- runs

  datatype REvent =
    | EvalEv(sig: Signal, marketExposure: real, now: nat)
    | FillEv(notional: real)
    | PnlEv(pnl: real)
    | TripEv
    | ResetEv
    | PolyEv(now: nat)
    | BinanceEv(now: nat)

  function Step(r: RState, e: REvent): RState {
    match e
    case EvalEv(sig, exposure, now) => Evaluate(r, sig, exposure, now).0
    case FillEv(notional) => r.(exposure := r.exposure + notional)
    case PnlEv(pnl) => OnPnl(r, pnl)
    case TripEv => Killed(r, Manual)
    case ResetEv => r.(tripped := false, reason := NotKilled)
    case PolyEv(now) => r.(lastPoly := now)
    case BinanceEv(now) => r.(lastBinance := now)
  }

  function Run(r: RState, es: seq<REvent>): RState {
    if es == [] then r else Step(Run(r, es[..|es| - 1]), es[|es| - 1])
  }

  predicate Approves(r: RState, e: REvent) {
    e.EvalEv? && Evaluate(r, e.sig, e.marketExposure, e.now).1 == Approved
  }

  // ------------------------------------------------------------------- the engine

  class RiskEngine {
    var cfg: RiskCfg
    var tripped: bool
    var reason: KillReason
    var totalExposure: real
    var dailyPnl: real
    var peakPnl: real
    var consecutiveLosses: nat
    var lastPolyUpdate: nat
    var lastBinanceUpdate: nat
    var totalEvaluated: nat
    var totalRejected: nat
    var rateWindowStart: nat
    var ordersInCurrentSec: nat

    ghost function State(): RState
      reads this
    {
      RState(cfg, tripped, reason, totalExposure, dailyPnl, peakPnl, consecutiveLosses, lastPolyUpdate,
             lastBinanceUpdate, totalEvaluated, totalRejected, rateWindowStart, ordersInCurrentSec)
    }

    constructor (given: Option<RiskCfg>)
      ensures State() == Init(if given.Some? then given.value else NO_LIMITS)
    {
      cfg := if given.Some? then given.value else NO_LIMITS;
      tripped, reason := false, NotKilled;
      totalExposure, dailyPnl, peakPnl := 0.0, 0.0, 0.0;
      consecutiveLosses, lastPolyUpdate, lastBinanceUpdate := 0, 0, 0;
      totalEvaluated, totalRejected, rateWindowStart, ordersInCurrentSec := 0, 0, 0, 0;
      new;
      if cfg.maxOrdersPerSec == 0 { cfg := cfg.(maxOrdersPerSec := 50); }
      if cfg.maxOrderSize == 0.0 { cfg := cfg.(maxOrderSize := 1000.0); }
    }

    method TripKill(why: KillReason)
      modifies this
      ensures State() == Killed(old(State()), why)
    {
      tripped, reason := true, why;
    }

    method RollWindow(now: nat)
      modifies this
      ensures State() == Windowed(old(State()), now)
    {
      if rateWindowStart == 0 || now >= rateWindowStart + SECOND {
        rateWindowStart, ordersInCurrentSec := now, 0;
      }
    }

    // Daily loss, drawdown and losing streak, in that order; a breach trips the switch.
    method CheckLosses() returns (breach: Option<Verdict>)
      modifies this
      ensures old(LossBreach(State())) == None ==> breach == None && State() == old(State())
      ensures old(LossBreach(State())).Some? ==>
        breach == Some(old(LossBreach(State())).value.0)
        && State() == Killed(old(State()), old(LossBreach(State())).value.1)
    {
      if dailyPnl <= -Abs(cfg.maxDailyLoss) {
        TripKill(DailyLoss);
        return Some(DailyLossExceeded);
      }
      var drawdown := peakPnl - dailyPnl;
      if drawdown >= Abs(cfg.maxDrawdown) {
        TripKill(Drawdown);
        return Some(DrawdownExceeded);
      }
      if cfg.maxConsecutiveLosses > 0 && consecutiveLosses >= cfg.maxConsecutiveLosses {
        TripKill(Losses);
        return Some(ConsecutiveLosses);
      }
      return None;
    }

    method CheckMarket(sig: Signal, now: nat) returns (why: Option<Verdict>)
      ensures why == Unsuitable(State(), sig, now)
    {
      if cfg.polyStaleNs > 0 && lastPolyUpdate > 0 {
        if now > lastPolyUpdate + cfg.polyStaleNs { return Some(PolyFeedStale); }
      }
      if cfg.binanceStaleNs > 0 && lastBinanceUpdate > 0 {
        if now > lastBinanceUpdate + cfg.binanceStaleNs { return Some(BinanceFeedStale); }
      }
      if sig.spread > cfg.maxSpread { return Some(SpreadTooWide); }
      if sig.confidence < cfg.minConfidence { return Some(LowConfidence); }
      return None;
    }

    method SizeOrder(sig: Signal, marketExposure: real) returns (verdict: Verdict, size: nat)
      ensures (verdict, size) == Sized(State(), sig, marketExposure)
    {
      var notional := Dollars(sig.targetPrice);
      if notional <= 0.001 { return InvalidPrice, 0; }
      var roomMarket := cfg.maxPositionPerMarket - marketExposure;
      if roomMarket <= 0.0 { return PositionLimit, 0; }
      var roomTotal := cfg.maxTotalExposure - totalExposure;
      if roomTotal <= 0.0 { return TotalExposureLimit, 0; }
      var minRoom := if roomMarket < roomTotal then roomMarket else roomTotal;
      var allowed := WholeShares(minRoom / notional);
      if cfg.maxOrderSize > 0.0 && allowed as real > cfg.maxOrderSize { allowed := WholeShares(cfg.maxOrderSize); }
      if allowed == 0 { return TotalExposureLimit, 0; }
      size := if sig.maxSize < allowed then sig.maxSize else allowed;
      if cfg.maxOrderSize > 0.0 && size as real > cfg.maxOrderSize { size := WholeShares(cfg.maxOrderSize); }
      verdict := Approved;
    }

    // The checks that leave the engine as it is.
    method Judge(sig: Signal, marketExposure: real, now: nat) returns (verdict: Verdict, size: nat)
      ensures (verdict, size) == if Unsuitable(State(), sig, now).Some? then (Unsuitable(State(), sig, now).value, 0)
                                 else Sized(State(), sig, marketExposure)
    {
      var why := CheckMarket(sig, now);
      if why.Some? { return why.value, 0; }
      verdict, size := SizeOrder(sig, marketExposure);
    }

    method EvaluateSignal(sig: Signal, marketExposure: real, now: nat) returns (verdict: Verdict, size: nat)
      modifies this
      ensures (State(), verdict, size) == Evaluate(old(State()), sig, marketExposure, now)
    {
      totalEvaluated := totalEvaluated + 1;
      if tripped {
        totalRejected := totalRejected + 1;
        return KillSwitchActive, 0;
      }
      RollWindow(now);
      if cfg.maxOrdersPerSec > 0 && ordersInCurrentSec >= cfg.maxOrdersPerSec {
        totalRejected := totalRejected + 1;
        return RateLimitExceeded, 0;
      }
      verdict, size := CheckRest(sig, marketExposure, now);
    }

    // What follows the rate limit.
    method CheckRest(sig: Signal, marketExposure: real, now: nat) returns (verdict: Verdict, size: nat)
      modifies this
      ensures (State(), verdict, size) == Rest(old(State()), sig, marketExposure, now)
    {
      var breach := CheckLosses();
      if breach.Some? {
        totalRejected := totalRejected + 1;
        return breach.value, 0;
      }
      verdict, size := Judge(sig, marketExposure, now);
      if verdict != Approved {
        totalRejected := totalRejected + 1;
        return verdict, 0;
      }
      ordersInCurrentSec := ordersInCurrentSec + 1;
    }

    method RecordFill(notional: real)
      modifies this
      ensures State() == Step(old(State()), FillEv(notional))
    {
      totalExposure := totalExposure + notional;
    }

    method RecordPnl(pnl: real)
      modifies this
      ensures State() == Step(old(State()), PnlEv(pnl))
    {
      dailyPnl := dailyPnl + pnl;
      if dailyPnl > peakPnl { peakPnl := dailyPnl; }
      if pnl < 0.0 {
        consecutiveLosses := consecutiveLosses + 1;
      } else if pnl > 0.0 {
        consecutiveLosses := 0;
      }
    }

    method TouchPoly(now: nat)
      modifies this
      ensures State() == Step(old(State()), PolyEv(now))
    {
      lastPolyUpdate := now;
    }

    method TouchBinance(now: nat)
      modifies this
      ensures State() == Step(old(State()), BinanceEv(now))
    {
      lastBinanceUpdate := now;
    }

    method ResetKill()
      modifies this
      ensures State() == Step(old(State()), ResetEv)
    {
      tripped, reason := false, NotKilled;
    }
  }
}
