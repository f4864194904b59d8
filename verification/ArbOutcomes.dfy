// What the sizer's figures come to in dollars: the net edge of a pair from the two depth
// walks, the report of an opportunity, and the breakdown it carries.

module ArbOutcomes {
  import opened Arith
  import opened Types
  import opened Walk
  import opened OrderBook
  import opened Economics
  import opened Arb

  // Thousandths a share that n shares cost on one side, the rest of the division dropped.
  ghost predicate AverageOf(a: int, ls: seq<Level>, n: nat) {
    a * n <= Cost(ls, n) < (a + 1) * n
  }

  lemma VwapIsAverage(ls: seq<Level>, n: nat)
    requires 0 < n <= Depth(ls)
    ensures AverageOf(Vwap(ls, n), ls, n)
  {
    VwapMeans(ls, n);
  }

  lemma AveragesAreUnique(a: int, b: int, ls: seq<Level>, n: nat)
    requires AverageOf(a, ls, n) && AverageOf(b, ls, n)
    ensures a == b
  {
    if a < b { ScaleUp(a + 1, b, n); }
    if b < a { ScaleUp(b + 1, a, n); }
  }

  // What fees and slippage are charged on: half the pair's price in whole thousandths, and
  // half a dollar when that is nothing.
  function MidPrice(pair: int): real {
    if pair / 2 <= 0 then 0.5 else (pair / 2) as real / 1000.0
  }

  // A dollar a pair, less its price, the taker's proportional fee, its share of the fixed
  // fee, slippage and the two buffers.
  function PairNet(cfg: ArbCfg, pair: int, n: nat): real
    requires 0 < n
  {
    1.0 - pair as real / 1000.0
    - MidPrice(pair) * cfg.fees.dynamicFeeScale * cfg.fees.takerFeeBps / 10000.0
    - (if 0.0 < cfg.fees.fixedOrderFeeUsd then cfg.fees.fixedOrderFeeUsd / n as real else 0.0)
    - MidPrice(pair) * cfg.slippageBps / 10000.0 - cfg.latencyBuffer - cfg.riskBuffer
  }

  lemma Reordered(p: real, bps: real, scale: real, slip: real)
    ensures p * (bps / 10000.0) * scale == p * scale * bps / 10000.0
    ensures p * (slip / 10000.0) == p * slip / 10000.0
  {
    assert p * bps * scale == p * scale * bps;
  }

  // The parts of a pair's breakdown, with nothing charged that a taker of both asks does not
  // pay.
  ghost predicate BreaksDown(cfg: ArbCfg, pair: int, n: nat, b: Breakdown)
    requires 0 < n
  {
    var mid := MidPrice(pair);
    && b.grossEdge == 1.0 - pair as real / 1000.0
    && b.fees == mid * cfg.fees.dynamicFeeScale * cfg.fees.takerFeeBps / 10000.0
                 + (if 0.0 < cfg.fees.fixedOrderFeeUsd then cfg.fees.fixedOrderFeeUsd / n as real else 0.0)
    && b.slippage == mid * cfg.slippageBps / 10000.0
    && b.latencyCost == cfg.latencyBuffer && b.hedgingCost == cfg.riskBuffer
    && b.rebates == 0.0 == b.spreadCost && b.adverseSelection == 0.0
    && b.netEdge == PairNet(cfg, pair, n)
    && b.netEdge == b.grossEdge - b.fees - b.slippage - b.latencyCost - b.hedgingCost
  }

  lemma PairBreaksDown(cfg: ArbCfg, ay: int, an: int, n: nat)
    requires 0 < n
    ensures BreaksDown(cfg, ay + an, n, PairBreakdown(cfg, ay, an, n))
  {
    Reordered(MidPrice(ay + an), cfg.fees.takerFeeBps, cfg.fees.dynamicFeeScale, cfg.slippageBps);
  }

  lemma QuoteAverages(yes: BookState, no: BookState, cfg: ArbCfg, n: nat)
    ensures var q := NetAt(yes, no, cfg, n);
      (q.Some? <==> 0 < n <= Depth(yes.asks) && n <= Depth(no.asks))
      && (q.Some? ==> AverageOf(q.value.avgYes, yes.asks, n) && AverageOf(q.value.avgNo, no.asks, n))
  {
    if 0 < n <= Depth(yes.asks) && n <= Depth(no.asks) {
      VwapIsAverage(yes.asks, n);
      VwapIsAverage(no.asks, n);
    }
  }

  lemma QuotedNet(yes: BookState, no: BookState, cfg: ArbCfg, n: nat, q: Quote)
    requires NetAt(yes, no, cfg, n) == Some(q)
    ensures 0 < n && q.net == PairNet(cfg, q.avgYes + q.avgNo, n)
  {
    QuoteIs(yes, no, cfg, n, q);
    PairBreaksDown(cfg, q.avgYes, q.avgNo, n);
  }

  // There is a quote exactly for the sizes that both ask sides fill, and it is the net edge
  // at their averages.
  lemma QuoteMeans(yes: BookState, no: BookState, cfg: ArbCfg, n: nat, q: Option<Quote>)
    requires q == NetAt(yes, no, cfg, n)
    ensures q.Some? <==> 0 < n <= Depth(yes.asks) && n <= Depth(no.asks)
    ensures q.Some? ==> AverageOf(q.value.avgYes, yes.asks, n) && AverageOf(q.value.avgNo, no.asks, n)
    ensures q.Some? ==> q.value.net == PairNet(cfg, q.value.avgYes + q.value.avgNo, n)
  {
    QuoteAverages(yes, no, cfg, n);
    if q.Some? { QuotedNet(yes, no, cfg, n, q.value); }
  }

  // The edges an opportunity reports at its averages, its profit, and the breakdown.
  ghost predicate ReportsEdges(cfg: ArbCfg, o: Opportunity) {
    && 0 < o.size && o.executableEdge == 1.0 - (o.avgYes + o.avgNo) as real / 1000.0
    && o.netEdge == PairNet(cfg, o.avgYes + o.avgNo, o.size) && o.expectedProfit == o.size as real * o.netEdge
    && o.breakdown.Some? && BreaksDown(cfg, o.avgYes + o.avgNo, o.size, o.breakdown.value)
  }

  lemma ReportIs(cfg: ArbCfg, raw: real, n: nat, ay: int, an: int)
    requires 0 < n
    ensures var o := Report(cfg, raw, n, ay, an);
      ReportsEdges(cfg, o) && o.size == n && o.avgYes == ay && o.avgNo == an
  {
    PairBreaksDown(cfg, ay, an, n);
  }

  // Result code and raw edge, and everything else zero without an opportunity.
  lemma CodesMean(yes: BookState, no: BookState, cfg: ArbCfg, maxWant: nat)
    ensures var (rc, o) := Evaluate(yes, no, cfg, maxWant);
      && (rc == -1 <==> maxWant == 0) && (rc == 1 <==> o.hasOpportunity) && (rc == -1 || rc == 0 || rc == 1)
      && o.rawEdge == (if maxWant != 0 && yes.asks != [] && no.asks != []
                       then 1.0 - (yes.asks[0].price + no.asks[0].price) as real / 1000.0 else 0.0)
      && (!o.hasOpportunity ==> o == Opportunity(false, o.rawEdge, 0.0, 0.0, 0, 0.0, 0, 0, None))
  {
  }

  lemma ReportedSize(yes: BookState, no: BookState, cfg: ArbCfg, maxWant: nat) returns (q: Quote)
    requires Evaluate(yes, no, cfg, maxWant).1.hasOpportunity
    ensures var o := Evaluate(yes, no, cfg, maxWant).1;
      NetAt(yes, no, cfg, o.size) == Some(q) && o == Report(cfg, o.rawEdge, o.size, q.avgYes, q.avgNo)
  {
    OpportunityIsSound(yes, no, cfg, maxWant);
    var o := Evaluate(yes, no, cfg, maxWant).1;
    q := NetAt(yes, no, cfg, o.size).value;
  }

  // A report gives the averages of the size found and the edges they leave, the profit of
  // that size, and the breakdown they add up to.
  lemma ReportMeans(yes: BookState, no: BookState, cfg: ArbCfg, maxWant: nat, o: Opportunity)
    requires o == Evaluate(yes, no, cfg, maxWant).1 && o.hasOpportunity
    ensures AverageOf(o.avgYes, yes.asks, o.size) && AverageOf(o.avgNo, no.asks, o.size) && ReportsEdges(cfg, o)
  {
    var q := ReportedSize(yes, no, cfg, maxWant);
    QuoteAverages(yes, no, cfg, o.size);
    ReportIs(cfg, o.rawEdge, o.size, q.avgYes, q.avgNo);
  }

  // ------------------------------------------------------------------ the breakdown

  // Whatever it is taken for, its parts add up to its net edge, and each is charged on the
  // same price: the fee once, half the spread to a taker, a rebate to a maker only.
  lemma PartsAddUp(schedule: Option<FeeSchedule>, isTaker: bool, edge: real, price: int, size: nat, spread: real,
                   slippageBps: real, latency: real, adverseBps: real, hedge: real)
    ensures var b := Calc(schedule, isTaker, edge, price, size, spread, slippageBps, latency, adverseBps, hedge);
      var p := if price <= 0 then 0.5 else price as real / 1000.0;
      && b.netEdge == b.grossEdge - b.fees + b.rebates - b.spreadCost - b.slippage - b.latencyCost
                      - b.adverseSelection - b.hedgingCost
      && b.grossEdge == edge && b.latencyCost == latency && b.hedgingCost == hedge
      && b.slippage * 10000.0 == p * slippageBps && b.adverseSelection * 10000.0 == p * adverseBps
      && b.spreadCost * 2.0 == (if isTaker && spread > 0.0 then spread else 0.0)
      && (isTaker ==> b.rebates == 0.0)
  {
  }

  // Without a schedule: 2 basis points from a taker, half of one to a maker, no fixed fee.
  lemma DefaultFees(isTaker: bool, price: int, size: nat)
    requires 0 < price
    ensures var b := Calc(None, isTaker, 0.0, price, size, 0.0, 0.0, 0.0, 0.0, 0.0);
      if isTaker then b.fees * 5000.0 == price as real / 1000.0
      else b.fees == 0.0 && b.rebates * 20000.0 == price as real / 1000.0
  {
  }

  // A maker's fee and rebate over a size are its dollar fee, but for the fixed fee that only
  // the breakdown charges.
  lemma MakerFeesAgree(fees: FeeSchedule, edge: real, price: int, size: nat)
    requires 0 < price && 0 < size && 0.0 <= fees.makerFeeBps
    ensures var b := Calc(Some(fees), false, edge, price, size, 0.0, 0.0, 0.0, 0.0, 0.0);
      (b.fees - b.rebates) * size as real
        == FeeUsd(Some(fees), false, price, size)
           + (if 0.0 < fees.fixedOrderFeeUsd then fees.fixedOrderFeeUsd else 0.0)
  {
    var n, p := size as real, price as real / 1000.0;
    var fixed := if 0.0 < fees.fixedOrderFeeUsd then fees.fixedOrderFeeUsd / n else 0.0;
    assert fixed * n == if 0.0 < fees.fixedOrderFeeUsd then fees.fixedOrderFeeUsd else 0.0;
    MakerTerms(p, fees.makerFeeBps / 10000.0, fees.makerRebateBps / 10000.0, n, fixed);
  }

  lemma MakerTerms(p: real, fee: real, rebate: real, n: real, fixed: real)
    ensures (p * fee + fixed - p * rebate) * n == p * n * fee - p * n * rebate + fixed * n
  {
    assert p * fee * n == p * n * fee && p * rebate * n == p * n * rebate;
  }

  // A taker's dollar fee is its rate on the notional and the fixed fee, whatever its sign.
  lemma TakerFeeMeans(fees: FeeSchedule, price: int, size: nat)
    ensures FeeUsd(Some(fees), true, price, size)
         == if size == 0 then 0.0
            else (size * price) as real * fees.takerFeeBps / 10000000.0 + fees.fixedOrderFeeUsd
  {
    NotionalTerms(price, size, fees.takerFeeBps);
  }

  lemma NotionalTerms(price: int, size: nat, bps: real)
    ensures Dollars(price) * size as real * (bps / 10000.0) == (size * price) as real * bps / 10000000.0
  {
    assert (size * price) as real == size as real * price as real;
    assert price as real / 1000.0 * size as real == (size as real * price as real) / 1000.0;
  }
}
