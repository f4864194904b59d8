// pt_economics: how fees, slippage and buffers eat a probability edge. Rates and
// dollars are exact reals.

module Economics {
  import opened Types

  datatype FeeSchedule = FeeSchedule(
    makerFeeBps: real, takerFeeBps: real, makerRebateBps: real,
    fixedOrderFeeUsd: real, dynamicFeeScale: real)

  datatype Breakdown = Breakdown(
    grossEdge: real, fees: real, rebates: real, spreadCost: real, slippage: real,
    latencyCost: real, adverseSelection: real, hedgingCost: real, netEdge: real)

  const DEFAULT_FEES: FeeSchedule := FeeSchedule(0.0, 2.0, 0.5, 0.0, 1.0)

  // A non-positive price is costed as if it were 0.5.
  function CostingPrice(price: int): real {
    if price <= 0 then 0.5 else Dollars(price)
  }

  function FixedPerShare(fees: FeeSchedule, size: nat): real {
    if fees.fixedOrderFeeUsd > 0.0 && size > 0 then fees.fixedOrderFeeUsd / size as real else 0.0
  }

  function Calc(schedule: Option<FeeSchedule>, isTaker: bool, rawEdge: real, price: int, size: nat,
                spreadProb: real, slippageBps: real, latencyBuffer: real, adverseBps: real,
                hedgeBuffer: real): Breakdown
  {
    var p := CostingPrice(price);
    var f := if schedule.Some? then schedule.value else DEFAULT_FEES;
    var proportional :=
      if isTaker then p * (f.takerFeeBps / 10000.0) * f.dynamicFeeScale
      else if f.makerFeeBps > 0.0 then p * (f.makerFeeBps / 10000.0) else 0.0;
    var fees := proportional + FixedPerShare(f, size);
    var rebates := if isTaker then 0.0 else p * (f.makerRebateBps / 10000.0);
    var spread := if isTaker && spreadProb > 0.0 then spreadProb / 2.0 else 0.0;
    var slippage := p * (slippageBps / 10000.0);
    var adverse := p * (adverseBps / 10000.0);
    Breakdown(rawEdge, fees, rebates, spread, slippage, latencyBuffer, adverse, hedgeBuffer,
              rawEdge - fees + rebates - spread - slippage - latencyBuffer - adverse - hedgeBuffer)
  }

  function FeeUsd(schedule: Option<FeeSchedule>, isTaker: bool, price: int, size: nat): real {
    if size == 0 then 0.0
    else
      var notional := Dollars(price) * size as real;
      var f := if schedule.Some? then schedule.value else DEFAULT_FEES;
      if isTaker then notional * (f.takerFeeBps / 10000.0) + f.fixedOrderFeeUsd
      else notional * (f.makerFeeBps / 10000.0) - notional * (f.makerRebateBps / 10000.0)
  }

  lemma ProductIsZero(x: real, y: real)
    requires x * y == 0.0
    ensures x == 0.0 || y == 0.0
  {
  }

  // What the breakdown's fee over a size and the dollar fee differ by, for all inputs: the
  // dynamic scale, the stand-in for a non-positive price, and a negative fixed fee.
  lemma FeeDifference(fees: FeeSchedule, edge: real, price: int, size: nat,
                      slippageBps: real, latency: real, hedge: real)
    ensures var perShare := Calc(Some(fees), true, edge, price, size, 0.0, slippageBps, latency, 0.0, hedge).fees;
      var n, rate, fixed := size as real, fees.takerFeeBps / 10000.0, fees.fixedOrderFeeUsd;
      perShare * n - FeeUsd(Some(fees), true, price, size)
        == (CostingPrice(price) * fees.dynamicFeeScale - Dollars(price)) * (n * rate)
           + (if fixed < 0.0 && size > 0 then -fixed else 0.0)
  {
    var n, rate, scale := size as real, fees.takerFeeBps / 10000.0, fees.dynamicFeeScale;
    var p, d := CostingPrice(price), Dollars(price);
    if size > 0 {
      assert FixedPerShare(fees, size) * n == if fees.fixedOrderFeeUsd > 0.0 then fees.fixedOrderFeeUsd else 0.0;
      FeeTerms(p, d, rate, scale, n, FixedPerShare(fees, size));
    }
  }

  lemma FeeTerms(p: real, d: real, rate: real, scale: real, n: real, f: real)
    ensures (p * rate * scale + f) * n == p * scale * (n * rate) + f * n
    ensures (p * scale - d) * (n * rate) == p * scale * (n * rate) - d * n * rate
  {
    assert p * rate * scale * n == p * scale * (n * rate);
    assert d * (n * rate) == d * n * rate;
  }

  // The edge breakdown scales taker fees by dynamicFeeScale and stands 0.5 in for a price
  // that is not positive; the dollar fee does neither, and takes a negative fixed fee that
  // the breakdown ignores. This is exactly when the two agree.
  predicate FeesMatch(fees: FeeSchedule, price: int, size: nat) {
    var gap := CostingPrice(price) * fees.dynamicFeeScale - Dollars(price);
    size == 0
    || (if fees.fixedOrderFeeUsd >= 0.0 then fees.takerFeeBps == 0.0 || gap == 0.0
        else gap * (size as real * (fees.takerFeeBps / 10000.0)) == fees.fixedOrderFeeUsd)
  }

  lemma TakerFeesAgree(fees: FeeSchedule, edge: real, price: int, size: nat,
                       slippageBps: real, latency: real, hedge: real)
    ensures var perShare := Calc(Some(fees), true, edge, price, size, 0.0, slippageBps, latency, 0.0, hedge).fees;
      perShare * size as real == FeeUsd(Some(fees), true, price, size) <==> FeesMatch(fees, price, size)
  {
    FeeDifference(fees, edge, price, size, slippageBps, latency, hedge);
    var gap := CostingPrice(price) * fees.dynamicFeeScale - Dollars(price);
    var n, rate := size as real, fees.takerFeeBps / 10000.0;
    if size > 0 && fees.fixedOrderFeeUsd >= 0.0 && gap * (n * rate) == 0.0 {
      ProductIsZero(gap, n * rate);
      if n * rate == 0.0 { ProductIsZero(n, rate); }
    }
  }

  // At a positive price the scale has to be one.
  lemma ScaleIsOne(fees: FeeSchedule, price: int)
    requires 0 < price
    ensures CostingPrice(price) * fees.dynamicFeeScale - Dollars(price) == 0.0 <==> fees.dynamicFeeScale == 1.0
  {
    var p, scale := Dollars(price), fees.dynamicFeeScale;
    assert p * (scale - 1.0) == p * scale - p;
    if p * scale - p == 0.0 { ProductIsZero(p, scale - 1.0); }
  }

  // Doubled by the scale: 10 shares at 0.5 cost a taker of 100 basis points 10 cents by the
  // breakdown and 5 by the dollar fee.
  lemma FeesCanDisagree()
    ensures var fees := FeeSchedule(0.0, 100.0, 0.0, 0.0, 2.0);
      Calc(Some(fees), true, 0.0, 500, 10, 0.0, 0.0, 0.0, 0.0, 0.0).fees * 10.0 == 0.1
      && FeeUsd(Some(fees), true, 500, 10) == 0.05
  {
  }
}
