// pt_arb: the largest size at which buying YES and NO together still clears the
// minimum net edge, found by binary search over a depth walk of both ask sides.

module Arb {
  import opened Arith
  import opened Types
  import opened Walk
  import opened OrderBook
  import opened Economics

  datatype ArbCfg = ArbCfg(
    fees: FeeSchedule, slippageBps: real, latencyBuffer: real, riskBuffer: real,
    minEdge: real, minLiquidity: nat)

  datatype Quote = Quote(net: real, avgYes: int, avgNo: int)

  datatype Opportunity = Opportunity(
    hasOpportunity: bool, rawEdge: real, executableEdge: real, netEdge: real, size: nat,
    expectedProfit: real, avgYes: int, avgNo: int, breakdown: Option<Breakdown>)

  const NO_OPPORTUNITY: Opportunity := Opportunity(false, 0.0, 0.0, 0.0, 0, 0.0, 0, 0, None)

  // Breakdown of buying `size` pairs at truncated averages ay and an.
  function PairBreakdown(cfg: ArbCfg, ay: int, an: int, size: nat): Breakdown {
    Calc(Some(cfg.fees), true, 1.0 - (Dollars(ay) + Dollars(an)), (ay + an) / 2, size,
         0.0, cfg.slippageBps, cfg.latencyBuffer, 0.0, cfg.riskBuffer)
  }

  function NetAt(yes: BookState, no: BookState, cfg: ArbCfg, size: nat): Option<Quote> {
    if size == 0 || Filled(yes.asks, size) < size || Filled(no.asks, size) < size then None
    else
      var ay, an := Vwap(yes.asks, size), Vwap(no.asks, size);
      Some(Quote(PairBreakdown(cfg, ay, an, size).netEdge, ay, an))
  }

  // Both legs can be filled at this size and the net edge clears the threshold.
  predicate Clears(yes: BookState, no: BookState, cfg: ArbCfg, size: nat) {
    var q := NetAt(yes, no, cfg, size);
    q.Some? && q.value.net >= cfg.minEdge
  }

  function ClearsAt(yes: BookState, no: BookState, cfg: ArbCfg): nat -> bool {
    (n: nat) => Clears(yes, no, cfg, n)
  }

  // ------------------------------------------------------------- the binary search

  // The loop of pt_arb_calc, over the sizes that `ok` accepts.
  function Search(ok: nat -> bool, lo: nat, hi: nat, best: nat): nat
    decreases hi + 1 - lo
  {
    if lo > hi then best
    else
      var mid := lo + (hi - lo) / 2;
      if ok(mid) then Search(ok, mid + 1, hi, mid)
      else if mid > 1 then Search(ok, lo, mid - 1, best)
      else best
  }

  // best is the largest accepted size in [1, maxWant]; 0 when there is none.
  ghost predicate IsLargest(ok: nat -> bool, maxWant: nat, best: nat) {
    && best <= maxWant
    && (best > 0 ==> ok(best))
    && forall n: nat :: best < n <= maxWant ==> !ok(n)
  }

  ghost predicate DownwardClosed(ok: nat -> bool, maxWant: nat) {
    forall a: nat, b: nat :: 0 < a < b <= maxWant && ok(b) ==> ok(a)
  }

  // Whatever is accepted, the size found is accepted and inside the bounds.
  lemma {:induction false} SearchIsSound(ok: nat -> bool, lo: nat, hi: nat, best: nat)
    requires 0 < lo && best < lo <= hi + 1
    requires best > 0 ==> ok(best)
    ensures var r := Search(ok, lo, hi, best);
      best <= r <= Max(best, hi) && (r > 0 ==> ok(r))
    decreases hi + 1 - lo
  {
    if lo <= hi {
      var mid := lo + (hi - lo) / 2;
      if ok(mid) {
        SearchIsSound(ok, mid + 1, hi, mid);
      } else if mid > 1 {
        SearchIsSound(ok, lo, mid - 1, best);
      }
    }
  }

  lemma {:induction false} SearchFindsLargest(ok: nat -> bool, lo: nat, hi: nat, best: nat, maxWant: nat)
    requires 0 < lo && lo == best + 1 <= hi + 1 <= maxWant + 1
    requires DownwardClosed(ok, maxWant)
    requires best > 0 ==> ok(best)
    requires forall n: nat :: hi < n <= maxWant ==> !ok(n)
    ensures IsLargest(ok, maxWant, Search(ok, lo, hi, best))
    decreases hi + 1 - lo
  {
    if lo <= hi {
      var mid := lo + (hi - lo) / 2;
      if ok(mid) {
        SearchFindsLargest(ok, mid + 1, hi, mid, maxWant);
      } else {
        assert forall n: nat :: mid <= n <= maxWant ==> !ok(n);
        if mid > 1 {
          SearchFindsLargest(ok, lo, mid - 1, best, maxWant);
        }
      }
    }
  }

  lemma {:induction false} SearchOfNothing(ok: nat -> bool, lo: nat, hi: nat, best: nat)
    requires 0 < lo
    requires forall n: nat :: lo <= n <= hi ==> !ok(n)
    ensures Search(ok, lo, hi, best) == best
    decreases hi + 1 - lo
  {
    if lo <= hi && lo + (hi - lo) / 2 > 1 {
      SearchOfNothing(ok, lo, lo + (hi - lo) / 2 - 1, best);
    }
  }

  function BestSize(yes: BookState, no: BookState, cfg: ArbCfg, maxWant: nat): nat {
    Search(ClearsAt(yes, no, cfg), 1, maxWant, 0)
  }

  // ------------------------------------------------------------ the edge by price

  // Taker fee and slippage, as a share of the costing price.
  function CostRate(cfg: ArbCfg): real {
    cfg.fees.takerFeeBps / 10000.0 * cfg.fees.dynamicFeeScale + cfg.slippageBps / 10000.0
  }

  // Net edge, before any fixed order fee, when the two averages add up to s.
  function EdgeOfSum(cfg: ArbCfg, s: int): real {
    1.0 - Dollars(s) - CostingPrice(s / 2) * CostRate(cfg) - cfg.latencyBuffer - cfg.riskBuffer
  }

  lemma EdgeOfPair(cfg: ArbCfg, ay: int, an: int, size: nat)
    ensures PairBreakdown(cfg, ay, an, size).netEdge
         == EdgeOfSum(cfg, ay + an) - FixedPerShare(cfg.fees, size)
  {
    SplitRate(CostingPrice((ay + an) / 2), cfg.fees.takerFeeBps / 10000.0, cfg.fees.dynamicFeeScale,
              cfg.slippageBps / 10000.0);
  }

  lemma SplitRate(p: real, t: real, scale: real, slip: real)
    ensures p * (t * scale + slip) == p * t * scale + p * slip
  {
  }

  // A dearer pair has less edge, unless only the cheaper one is costed at the stand-in
  // price.
  lemma EdgeFallsWithPrice(cfg: ArbCfg, s: int, s': int)
    requires 0 <= s <= s' && (s' <= 1 || 2 <= s) && CostRate(cfg) >= -1.0
    ensures EdgeOfSum(cfg, s') <= EdgeOfSum(cfg, s)
  {
    if 2 <= s {
      RateDrop(Dollars(s / 2), Dollars(s' / 2), CostRate(cfg));
      assert s' / 2 - s / 2 <= s' - s;
      assert Dollars(s' / 2) - Dollars(s / 2) <= Dollars(s') - Dollars(s);
    }
  }

  lemma RateDrop(p: real, p': real, rate: real)
    requires p <= p' && rate >= -1.0
    ensures p' * rate - p * rate >= p - p'
  {
    NonNegativeProduct(p' - p, rate + 1.0);
  }

  lemma NonNegativeProduct(x: real, y: real)
    requires 0.0 <= x && 0.0 <= y
    ensures 0.0 <= x * y
  {
  }

  // Books as updates and snapshots leave them, whose asks are at least some price: any
  // book at all when that is zero.
  ghost predicate AsksFrom(b: BookState, least: nat) {
    b.Inv() && PricesAtLeast(b.asks, least)
  }

  // What a clearing size comes down to.
  lemma ClearsBySum(yes: BookState, no: BookState, cfg: ArbCfg, size: nat)
    ensures Clears(yes, no, cfg, size) <==>
      0 < size <= Depth(yes.asks) && size <= Depth(no.asks)
      && EdgeOfSum(cfg, Vwap(yes.asks, size) + Vwap(no.asks, size)) - FixedPerShare(cfg.fees, size) >= cfg.minEdge
  {
    EdgeOfPair(cfg, Vwap(yes.asks, size), Vwap(no.asks, size), size);
  }

  lemma SumsInOrder(yes: BookState, no: BookState, least: nat, a: nat, b: nat)
    requires AsksFrom(yes, least) && AsksFrom(no, least) && 0 < a <= b
    requires 0 < Depth(yes.asks) && 0 < Depth(no.asks)
    ensures 2 * least <= Vwap(yes.asks, a) + Vwap(no.asks, a) <= Vwap(yes.asks, b) + Vwap(no.asks, b)
  {
    VwapAtLeast(yes.asks, least, a);
    VwapAtLeast(no.asks, least, a);
    AskVwapGrows(yes.asks, a, b);
    AskVwapGrows(no.asks, a, b);
  }

  lemma EdgeFallsWithSize(yes: BookState, no: BookState, cfg: ArbCfg, a: nat, b: nat)
    requires AsksFrom(yes, 1) && AsksFrom(no, 1) && CostRate(cfg) >= -1.0
    requires 0 < a <= b && yes.asks != [] && no.asks != []
    ensures EdgeOfSum(cfg, Vwap(yes.asks, b) + Vwap(no.asks, b))
         <= EdgeOfSum(cfg, Vwap(yes.asks, a) + Vwap(no.asks, a))
  {
    SumsInOrder(yes, no, 1, a, b);
    EdgeFallsWithPrice(cfg, Vwap(yes.asks, a) + Vwap(no.asks, a), Vwap(yes.asks, b) + Vwap(no.asks, b));
  }

  // ------------------------------------------------- when the search is exact

  // No price sum of such asks leaves an edge that a fixed order fee can only cover from
  // some size upwards.
  ghost predicate NoFeeGap(cfg: ArbCfg, least: nat) {
    forall s: int :: 2 * least <= s && cfg.minEdge < EdgeOfSum(cfg, s)
      ==> cfg.minEdge + cfg.fees.fixedOrderFeeUsd <= EdgeOfSum(cfg, s)
  }

  // A pair for two thousandths does not clear when a cheaper one, costed at the stand-in
  // price, fails to.
  ghost predicate NoStandInGap(cfg: ArbCfg) {
    var fixed := Max0(cfg.fees.fixedOrderFeeUsd);
    cfg.minEdge <= EdgeOfSum(cfg, 2) - fixed ==> cfg.minEdge <= EdgeOfSum(cfg, 1) - fixed
  }

  ghost predicate NoGap(cfg: ArbCfg, least: nat) {
    NoFeeGap(cfg, least) && (least == 0 ==> NoStandInGap(cfg))
  }

  ghost predicate SearchIsExact(cfg: ArbCfg, least: nat) {
    forall yes: BookState, no: BookState, maxWant: nat :: AsksFrom(yes, least) && AsksFrom(no, least)
      ==> IsLargest(ClearsAt(yes, no, cfg), maxWant, BestSize(yes, no, cfg, maxWant))
  }

  lemma FixedFeeShrinks(fees: FeeSchedule, a: nat, b: nat)
    requires 0 < a <= b
    ensures FixedPerShare(fees, b) <= FixedPerShare(fees, a) <= Max0(fees.fixedOrderFeeUsd)
  {
    if fees.fixedOrderFeeUsd > 0.0 {
      var f := fees.fixedOrderFeeUsd;
      SmallerShare(f, 1.0, a as real);
      SmallerShare(f, a as real, b as real);
    }
  }

  function Max0(x: real): real {
    if x > 0.0 then x else 0.0
  }

  lemma SmallerShare(f: real, a: real, b: real)
    requires 0.0 < f && 0.0 < a <= b
    ensures 0.0 < f / b <= f / a
  {
    var x := f / b;
    assert x * b == f;
    assert x > 0.0;
    assert x * a <= x * b;
  }

  lemma RoomForTheFee(cfg: ArbCfg, least: nat, s: int, n: nat)
    requires NoFeeGap(cfg, least) && 2 * least <= s && 0 < n
    requires cfg.minEdge <= EdgeOfSum(cfg, s) - FixedPerShare(cfg.fees, n)
    ensures cfg.minEdge + Max0(cfg.fees.fixedOrderFeeUsd) <= EdgeOfSum(cfg, s)
  {
    if cfg.fees.fixedOrderFeeUsd > 0.0 {
      SmallerShare(cfg.fees.fixedOrderFeeUsd, 1.0, n as real);
    }
  }

  // A cheaper pair clears at a smaller size.
  lemma CheaperClears(cfg: ArbCfg, least: nat, sa: int, sb: int, a: nat, b: nat)
    requires CostRate(cfg) >= -1.0 && NoGap(cfg, least) && 2 * least <= sa <= sb && 0 < a < b
    requires cfg.minEdge <= EdgeOfSum(cfg, sb) - FixedPerShare(cfg.fees, b)
    ensures cfg.minEdge <= EdgeOfSum(cfg, sa) - FixedPerShare(cfg.fees, a)
  {
    FixedFeeShrinks(cfg.fees, a, b);
    if sb <= 1 || 2 <= sa {
      EdgeFallsWithPrice(cfg, sa, sb);
      RoomForTheFee(cfg, least, sa, b);
    } else {
      EdgeFallsWithPrice(cfg, 2, sb);
      EdgeFallsWithPrice(cfg, sa, 1);
      RoomForTheFee(cfg, least, 2, b);
    }
  }

  // Clearing is inherited by every smaller size.
  lemma ClearingIsDownwardClosed(yes: BookState, no: BookState, least: nat, cfg: ArbCfg, maxWant: nat)
    requires AsksFrom(yes, least) && AsksFrom(no, least) && CostRate(cfg) >= -1.0 && NoGap(cfg, least)
    ensures DownwardClosed(ClearsAt(yes, no, cfg), maxWant)
  {
    forall a: nat, b: nat | 0 < a < b <= maxWant && Clears(yes, no, cfg, b) ensures Clears(yes, no, cfg, a) {
      ClearsBySum(yes, no, cfg, a);
      ClearsBySum(yes, no, cfg, b);
      SumsInOrder(yes, no, least, a, b);
      CheaperClears(cfg, least, Vwap(yes.asks, a) + Vwap(no.asks, a), Vwap(yes.asks, b) + Vwap(no.asks, b), a, b);
    }
  }

  lemma SearchIsLargest(yes: BookState, no: BookState, least: nat, cfg: ArbCfg, maxWant: nat)
    requires AsksFrom(yes, least) && AsksFrom(no, least) && CostRate(cfg) >= -1.0 && NoGap(cfg, least)
    ensures IsLargest(ClearsAt(yes, no, cfg), maxWant, BestSize(yes, no, cfg, maxWant))
  {
    ClearingIsDownwardClosed(yes, no, least, cfg, maxWant);
    SearchFindsLargest(ClearsAt(yes, no, cfg), 1, maxWant, 0, maxWant);
  }

  function Flat(price: int, size: nat): BookState {
    BookState([], [Level(price, size)], 0)
  }

  lemma FlatVwap(price: int, depth: nat, size: nat)
    requires 0 < size <= depth
    ensures Filled([Level(price, depth)], size) == size && Vwap([Level(price, depth)], size) == price
  {
    var ls := [Level(price, depth)];
    assert Depth(ls) == depth;
    CostUnfolds(ls, size);
    assert Cost(ls, size) == price * size;
    ExactQuotient(price, size);
  }

  lemma FlatPairClears(cfg: ArbCfg, least: nat, s: int, depth: nat, n: nat)
    requires 2 * least <= s && 0 < n <= depth
    ensures AsksFrom(Flat(least, depth), least) && AsksFrom(Flat(s - least, depth), least)
    ensures Clears(Flat(least, depth), Flat(s - least, depth), cfg, n)
       <==> EdgeOfSum(cfg, s) - FixedPerShare(cfg.fees, n) >= cfg.minEdge
  {
    FlatVwap(least, depth, n);
    FlatVwap(s - least, depth, n);
    ClearsBySum(Flat(least, depth), Flat(s - least, depth), cfg, n);
  }

  // The smallest whole number that is at least x.
  function Ceiling(x: real): (n: int)
    ensures (n - 1) as real < x <= n as real
  {
    -((-x).Floor)
  }

  // The first size at which a fee larger than the room is spread thin enough.
  lemma FirstCoveringSize(fees: FeeSchedule, room: real) returns (size: nat)
    requires 0.0 < room < fees.fixedOrderFeeUsd
    ensures 2 <= size
    ensures forall n: nat :: 0 < n <= size ==> (FixedPerShare(fees, n) <= room <==> n == size)
  {
    var f := fees.fixedOrderFeeUsd;
    var x := f / room;
    assert x * room == f;
    FeeCoveredFrom(f, room, x, 1.0);
    size := Ceiling(x);
    forall n: nat | 0 < n <= size ensures FixedPerShare(fees, n) <= room <==> n == size {
      FeeCoveredFrom(f, room, x, n as real);
    }
  }

  // In a gap the search over two flat books misses the only size that clears.
  lemma FeeGapDefeatsSearch(cfg: ArbCfg, least: nat, s: int) returns (yes: BookState, no: BookState, size: nat)
    requires 2 * least <= s && cfg.minEdge < EdgeOfSum(cfg, s) < cfg.minEdge + cfg.fees.fixedOrderFeeUsd
    ensures AsksFrom(yes, least) && AsksFrom(no, least)
    ensures Clears(yes, no, cfg, size) && BestSize(yes, no, cfg, size) == 0 < size
  {
    size := FirstCoveringSize(cfg.fees, EdgeOfSum(cfg, s) - cfg.minEdge);
    yes, no := Flat(least, size), Flat(s - least, size);
    forall n: nat | 0 < n <= size ensures Clears(yes, no, cfg, n) <==> n == size {
      FlatPairClears(cfg, least, s, size, n);
    }
    FlatPairClears(cfg, least, s, size, size);
    OnlyTopIsMissed(ClearsAt(yes, no, cfg), size);
  }

  // One share given away, the next for two thousandths.
  function Given(): BookState {
    BookState([], [Level(0, 1), Level(2, 1)], 0)
  }

  lemma GivenVwap()
    ensures AsksFrom(Given(), 0) && Depth(Given().asks) == 2
    ensures Vwap(Given().asks, 1) == 0 && Vwap(Given().asks, 2) == 1
  {
    var ls, rest := Given().asks, [Level(2, 1)];
    assert ls[1..] == rest && Depth(rest) == 1;
    CostUnfolds(ls, 1);
    CostUnfolds(ls, 2);
    CostUnfolds(rest, 0);
    CostUnfolds(rest, 1);
  }

  // A stand-in gap makes it miss two shares of which one costs nothing.
  lemma StandInDefeatsSearch(cfg: ArbCfg) returns (yes: BookState, no: BookState)
    requires !NoStandInGap(cfg)
    ensures AsksFrom(yes, 0) && AsksFrom(no, 0)
    ensures Clears(yes, no, cfg, 2) && BestSize(yes, no, cfg, 2) == 0
  {
    yes, no := Given(), Flat(1, 2);
    GivenVwap();
    FlatVwap(1, 2, 1);
    FlatVwap(1, 2, 2);
    FlatDepth(1, 2);
    FixedFeeShrinks(cfg.fees, 1, 2);
    ClearsBySum(yes, no, cfg, 1);
    ClearsBySum(yes, no, cfg, 2);
    OnlyTopIsMissed(ClearsAt(yes, no, cfg), 2);
  }

  lemma OnlyTopIsMissed(ok: nat -> bool, size: nat)
    requires 2 <= size && forall n: nat :: 0 < n < size ==> !ok(n)
    ensures Search(ok, 1, size, 0) == 0
  {
    var mid := 1 + (size - 1) / 2;
    assert mid < size;
    if mid > 1 {
      SearchOfNothing(ok, 1, mid - 1, 0);
    }
  }

  lemma FeeCoveredFrom(f: real, room: real, x: real, n: real)
    requires 0.0 < f && 0.0 < room && 0.0 < n && x * room == f
    ensures f / n <= room <==> x <= n
  {
    var q := f / n;
    assert q * n == f == x * room;
    OrderedFactors(q, n, room, x);
  }

  // Of two equal products, the one with the larger factor has the smaller other one.
  lemma OrderedFactors(q: real, n: real, room: real, x: real)
    requires 0.0 < n && 0.0 < room && q * n == x * room
    ensures q <= room <==> x <= n
  {
    if q <= room {
      ProductsInOrder(q, room, n);
    } else {
      ProductsInOrder(room, q, n);
    }
    ScaledReals(x, n, room);
    ScaledReals(q, room, n);
  }

  lemma ProductsInOrder(a: real, b: real, k: real)
    requires a <= b && 0.0 < k
    ensures a * k <= k * b && k * a <= b * k
  {
  }

  // For fees that do not pay the taker more than the price itself, the binary search
  // returns the true maximum on all books with asks from some price on exactly when no
  // fixed fee opens a gap there and, if asks may be zero, the stand-in price opens none.
  lemma SearchExactness(cfg: ArbCfg, least: nat)
    requires CostRate(cfg) >= -1.0
    ensures SearchIsExact(cfg, least) <==> NoGap(cfg, least)
  {
    if NoGap(cfg, least) {
      forall yes: BookState, no: BookState, maxWant: nat | AsksFrom(yes, least) && AsksFrom(no, least)
        ensures IsLargest(ClearsAt(yes, no, cfg), maxWant, BestSize(yes, no, cfg, maxWant))
      {
        SearchIsLargest(yes, no, least, cfg, maxWant);
      }
    } else if NoFeeGap(cfg, least) {
      var yes, no := StandInDefeatsSearch(cfg);
      MissedIsNotLargest(yes, no, cfg, 2);
    } else {
      var s: int :| 2 * least <= s && cfg.minEdge < EdgeOfSum(cfg, s)
        && EdgeOfSum(cfg, s) < cfg.minEdge + cfg.fees.fixedOrderFeeUsd;
      var yes, no, size := FeeGapDefeatsSearch(cfg, least, s);
      MissedIsNotLargest(yes, no, cfg, size);
    }
  }

  lemma MissedIsNotLargest(yes: BookState, no: BookState, cfg: ArbCfg, size: nat)
    requires Clears(yes, no, cfg, size) && BestSize(yes, no, cfg, size) == 0 < size
    ensures !IsLargest(ClearsAt(yes, no, cfg), size, BestSize(yes, no, cfg, size))
  {
    assert ClearsAt(yes, no, cfg)(size);
  }

  // Without a positive fixed fee there is no fee gap.
  lemma NoFixedFeeNoGap(cfg: ArbCfg, least: nat)
    requires cfg.fees.fixedOrderFeeUsd <= 0.0
    ensures NoFeeGap(cfg, least)
  {
  }

  // And while costs take at most a 499th of the price, no stand-in gap.
  lemma SmallRateNoGap(cfg: ArbCfg)
    requires -1.0 <= CostRate(cfg) <= 1.0 / 499.0
    ensures NoStandInGap(cfg)
  {
    var rate := CostRate(cfg);
    assert EdgeOfSum(cfg, 1) - EdgeOfSum(cfg, 2) == 0.001 - 0.499 * rate;
  }

  // ------------------------------------------------------------------ pt_arb_calc

  // The edge at the two best asks.
  function RawEdge(yes: BookState, no: BookState): real
    requires yes.asks != [] && no.asks != []
  {
    1.0 - (yes.asks[0].price as real + no.asks[0].price as real) / 1000.0
  }

  // What is reported for a size found, given its averages.
  function Report(cfg: ArbCfg, raw: real, best: nat, ay: int, an: int): Opportunity {
    var bd := PairBreakdown(cfg, ay, an, best);
    Opportunity(true, raw, 1.0 - (ay as real + an as real) / 1000.0, bd.netEdge, best,
                bd.netEdge * best as real, ay, an, Some(bd))
  }

  function Evaluate(yes: BookState, no: BookState, cfg: ArbCfg, maxWant: nat): (int, Opportunity) {
    if maxWant == 0 then (-1, NO_OPPORTUNITY)
    else if yes.asks == [] || no.asks == [] then (0, NO_OPPORTUNITY)
    else
      var raw := RawEdge(yes, no);
      var seen := NO_OPPORTUNITY.(rawEdge := raw);
      if raw <= cfg.minEdge then (0, seen)
      else
        var best := BestSize(yes, no, cfg, maxWant);
        if best == 0 || best < cfg.minLiquidity then (0, seen)
        else (1, Report(cfg, raw, best, Vwap(yes.asks, best), Vwap(no.asks, best)))
  }

  // An opportunity reported under any configuration is executable at its edge.
  lemma OpportunityIsSound(yes: BookState, no: BookState, cfg: ArbCfg, maxWant: nat)
    ensures var (rc, o) := Evaluate(yes, no, cfg, maxWant);
      (rc == 1 <==> o.hasOpportunity)
      && (o.hasOpportunity ==>
           0 < o.size <= maxWant && cfg.minLiquidity <= o.size
           && o.size <= Depth(yes.asks) && o.size <= Depth(no.asks)
           && NetAt(yes, no, cfg, o.size) == Some(Quote(o.netEdge, o.avgYes, o.avgNo))
           && o.netEdge >= cfg.minEdge)
  {
    SearchIsSound(ClearsAt(yes, no, cfg), 1, maxWant, 0);
    assert forall n: nat :: ClearsAt(yes, no, cfg)(n) == Clears(yes, no, cfg, n);
  }

  // Costs never add to the edge.
  ghost predicate CostsMoney(cfg: ArbCfg) {
    CostRate(cfg) >= 0.0 && cfg.latencyBuffer + cfg.riskBuffer >= 0.0
  }

  ghost predicate Costless(cfg: ArbCfg) {
    CostRate(cfg) == 0.0 && cfg.latencyBuffer + cfg.riskBuffer == 0.0 && cfg.fees.fixedOrderFeeUsd <= 0.0
  }

  lemma EdgeBelowRaw(cfg: ArbCfg, s: int)
    requires CostsMoney(cfg) && 0 <= s
    ensures EdgeOfSum(cfg, s) <= 1.0 - Dollars(s)
    ensures EdgeOfSum(cfg, s) == 1.0 - Dollars(s)
       <==> CostRate(cfg) == 0.0 && cfg.latencyBuffer + cfg.riskBuffer == 0.0
  {
    var p, rate := CostingPrice(s / 2), CostRate(cfg);
    assert p > 0.0;
    assert p * rate >= 0.0;
    if p * rate == 0.0 { ProductIsZero(p, rate); }
  }

  lemma FixedFeeSign(fees: FeeSchedule, n: nat)
    requires 0 < n
    ensures 0.0 <= FixedPerShare(fees, n)
    ensures FixedPerShare(fees, n) == 0.0 <==> fees.fixedOrderFeeUsd <= 0.0
  {
    if fees.fixedOrderFeeUsd > 0.0 { SmallerShare(fees.fixedOrderFeeUsd, n as real, n as real); }
  }

  lemma ClearingEdgeBelowRaw(cfg: ArbCfg, s: int, n: nat)
    requires CostsMoney(cfg) && 0 <= s && 0 < n
    requires EdgeOfSum(cfg, s) - FixedPerShare(cfg.fees, n) >= cfg.minEdge
    ensures cfg.minEdge <= 1.0 - Dollars(s)
    ensures cfg.minEdge == 1.0 - Dollars(s) ==> Costless(cfg)
  {
    EdgeBelowRaw(cfg, s);
    FixedFeeSign(cfg.fees, n);
  }

  lemma RawEdgeAboveAverage(yes: BookState, no: BookState, n: nat)
    requires yes.Inv() && no.Inv() && 0 < n <= Depth(yes.asks) && n <= Depth(no.asks)
    ensures yes.asks != [] && no.asks != []
    ensures 0 <= Vwap(yes.asks, n) + Vwap(no.asks, n)
    ensures 1.0 - Dollars(Vwap(yes.asks, n) + Vwap(no.asks, n)) <= RawEdge(yes, no)
  {
    VwapAtLeast(yes.asks, yes.asks[0].price, n);
    VwapAtLeast(no.asks, no.asks[0].price, n);
  }

  // A clearing size puts the raw edge at the threshold or above it; at it only when
  // nothing costs anything.
  lemma RawEdgeBounds(yes: BookState, no: BookState, cfg: ArbCfg, n: nat)
    requires yes.Inv() && no.Inv() && CostsMoney(cfg) && yes.asks != [] && no.asks != []
    requires Clears(yes, no, cfg, n)
    ensures cfg.minEdge <= RawEdge(yes, no)
    ensures cfg.minEdge == RawEdge(yes, no) ==> Costless(cfg)
  {
    ClearsBySum(yes, no, cfg, n);
    RawEdgeAboveAverage(yes, no, n);
    ClearingEdgeBelowRaw(cfg, Vwap(yes.asks, n) + Vwap(no.asks, n), n);
  }

  // The smallest size that could be reported.
  function LeastSize(cfg: ArbCfg): nat {
    if cfg.minLiquidity > 1 then cfg.minLiquidity else 1
  }

  // Nothing costs anything, the raw edge is the threshold itself, and the least size can
  // be had at the two best asks.
  ghost predicate Overlooked(yes: BookState, no: BookState, cfg: ArbCfg, maxWant: nat) {
    var n := LeastSize(cfg);
    && Costless(cfg) && n <= maxWant && n <= Depth(yes.asks) && n <= Depth(no.asks)
    && yes.asks != [] && no.asks != [] && RawEdge(yes, no) == cfg.minEdge
    && Vwap(yes.asks, n) == yes.asks[0].price && Vwap(no.asks, n) == no.asks[0].price
  }

  ghost predicate LiquidSizeClears(yes: BookState, no: BookState, cfg: ArbCfg, maxWant: nat) {
    exists n: nat :: 0 < n <= maxWant && cfg.minLiquidity <= n && Clears(yes, no, cfg, n)
  }

  lemma AveragesAtBest(yes: BookState, no: BookState, n: nat)
    requires yes.Inv() && no.Inv() && 0 < n <= Depth(yes.asks) && n <= Depth(no.asks)
    requires yes.asks != [] && no.asks != []
    requires RawEdge(yes, no) <= 1.0 - Dollars(Vwap(yes.asks, n) + Vwap(no.asks, n))
    ensures Vwap(yes.asks, n) == yes.asks[0].price && Vwap(no.asks, n) == no.asks[0].price
  {
    VwapAtLeast(yes.asks, yes.asks[0].price, n);
    VwapAtLeast(no.asks, no.asks[0].price, n);
  }

  // At the threshold only the least size at the best asks can clear.
  lemma ThresholdClears(yes: BookState, no: BookState, cfg: ArbCfg, n: nat)
    requires yes.Inv() && no.Inv() && Costless(cfg) && 0 < n
    requires yes.asks != [] && no.asks != [] && RawEdge(yes, no) == cfg.minEdge
    ensures Clears(yes, no, cfg, n) <==>
      n <= Depth(yes.asks) && n <= Depth(no.asks)
      && Vwap(yes.asks, n) == yes.asks[0].price && Vwap(no.asks, n) == no.asks[0].price
  {
    ClearsBySum(yes, no, cfg, n);
    if n <= Depth(yes.asks) && n <= Depth(no.asks) {
      RawEdgeAboveAverage(yes, no, n);
      EdgeBelowRaw(cfg, Vwap(yes.asks, n) + Vwap(no.asks, n));
      FixedFeeSign(cfg.fees, n);
      if Clears(yes, no, cfg, n) { AveragesAtBest(yes, no, n); }
    }
  }

  // The least size that could be reported clears, but the raw edge does not pass the
  // threshold.
  ghost predicate Refused(yes: BookState, no: BookState, cfg: ArbCfg, maxWant: nat) {
    && yes.asks != [] && no.asks != [] && RawEdge(yes, no) <= cfg.minEdge
    && LeastSize(cfg) <= maxWant && Clears(yes, no, cfg, LeastSize(cfg))
  }

  // With real costs those are the overlooked books.
  lemma RefusedIsOverlooked(yes: BookState, no: BookState, cfg: ArbCfg, maxWant: nat)
    requires yes.Inv() && no.Inv() && CostsMoney(cfg)
    ensures Refused(yes, no, cfg, maxWant) <==> Overlooked(yes, no, cfg, maxWant)
  {
    var n := LeastSize(cfg);
    if Refused(yes, no, cfg, maxWant) { RawEdgeBounds(yes, no, cfg, n); }
    if Refused(yes, no, cfg, maxWant) || Overlooked(yes, no, cfg, maxWant) { ThresholdClears(yes, no, cfg, n); }
  }

  lemma LeastSizeClears(yes: BookState, no: BookState, least: nat, cfg: ArbCfg, maxWant: nat, n: nat)
    requires AsksFrom(yes, least) && AsksFrom(no, least) && CostRate(cfg) >= -1.0 && NoGap(cfg, least)
    requires 0 < n <= maxWant && cfg.minLiquidity <= n && Clears(yes, no, cfg, n)
    ensures LeastSize(cfg) <= maxWant && Clears(yes, no, cfg, LeastSize(cfg))
  {
    ClearingIsDownwardClosed(yes, no, least, cfg, maxWant);
    if LeastSize(cfg) < n {
      assert ClearsAt(yes, no, cfg)(n);
      assert ClearsAt(yes, no, cfg)(LeastSize(cfg));
    }
  }

  // Otherwise the early exits lose nothing: what is reported is the largest clearing size,
  // and nothing only when no size clears and is liquid.
  lemma EvaluateIsBest(yes: BookState, no: BookState, least: nat, cfg: ArbCfg, maxWant: nat)
    requires AsksFrom(yes, least) && AsksFrom(no, least) && CostRate(cfg) >= -1.0 && NoGap(cfg, least)
    requires !Refused(yes, no, cfg, maxWant)
    ensures var o := Evaluate(yes, no, cfg, maxWant).1;
      (o.hasOpportunity ==> IsLargest(ClearsAt(yes, no, cfg), maxWant, o.size))
      && (!o.hasOpportunity ==>
           forall n: nat :: 0 < n <= maxWant && cfg.minLiquidity <= n ==> !Clears(yes, no, cfg, n))
  {
    SearchIsLargest(yes, no, least, cfg, maxWant);
    assert forall n: nat :: ClearsAt(yes, no, cfg)(n) == Clears(yes, no, cfg, n);
    if yes.asks == [] || no.asks == [] {
      forall n: nat ensures !Clears(yes, no, cfg, n) { ClearsBySum(yes, no, cfg, n); }
    } else if RawEdge(yes, no) <= cfg.minEdge {
      forall n: nat | 0 < n <= maxWant && cfg.minLiquidity <= n ensures !Clears(yes, no, cfg, n) {
        if Clears(yes, no, cfg, n) { LeastSizeClears(yes, no, least, cfg, maxWant, n); }
      }
    }
  }

  // On overlooked books the least size clears and is refused: a raw edge equal to the
  // threshold is turned away before the search, although a net edge equal to it is accepted.
  lemma ThresholdEdgeIsMissed(yes: BookState, no: BookState, cfg: ArbCfg, maxWant: nat)
    requires yes.Inv() && no.Inv() && Overlooked(yes, no, cfg, maxWant)
    ensures Clears(yes, no, cfg, LeastSize(cfg)) && !Evaluate(yes, no, cfg, maxWant).1.hasOpportunity
  {
    ThresholdClears(yes, no, cfg, LeastSize(cfg));
  }

  // There are such books under every costless configuration whose threshold is what two
  // asks leave of a dollar.
  lemma SomeAreOverlooked(cfg: ArbCfg, y: nat, n: nat, depth: nat, maxWant: nat)
    requires Costless(cfg) && cfg.minEdge == 1.0 - (y as real + n as real) / 1000.0
    requires LeastSize(cfg) <= depth && LeastSize(cfg) <= maxWant
    ensures AsksFrom(Flat(y, depth), y) && AsksFrom(Flat(n, depth), n)
    ensures Overlooked(Flat(y, depth), Flat(n, depth), cfg, maxWant)
  {
    FlatDepth(y, depth);
    FlatDepth(n, depth);
    FlatVwap(y, depth, LeastSize(cfg));
    FlatVwap(n, depth, LeastSize(cfg));
  }

  lemma FlatDepth(price: int, depth: nat)
    ensures Depth(Flat(price, depth).asks) == depth
  {
  }

  // Without a gap, whatever the costs: an opportunity is reported if and only if a liquid
  // size clears, exactly on the books that are not refused.
  lemma EvaluateExactness(yes: BookState, no: BookState, least: nat, cfg: ArbCfg, maxWant: nat)
    requires AsksFrom(yes, least) && AsksFrom(no, least) && CostRate(cfg) >= -1.0 && NoGap(cfg, least)
    ensures (Evaluate(yes, no, cfg, maxWant).1.hasOpportunity <==> LiquidSizeClears(yes, no, cfg, maxWant))
       <==> !Refused(yes, no, cfg, maxWant)
  {
    if !Refused(yes, no, cfg, maxWant) {
      EvaluateIsBest(yes, no, least, cfg, maxWant);
      OpportunityIsSound(yes, no, cfg, maxWant);
    }
  }

  // ------------------------------------------------------------------ the methods

  method ComputeNetAt(yes: Book, no: Book, cfg: ArbCfg, size: nat) returns (q: Option<Quote>)
    requires yes.Valid() && no.Valid()
    ensures q == NetAt(yes.State(), no.State(), cfg, size)
  {
    if size == 0 { return None; }
    var fy, ay, _ := yes.Walk(ASK, size);
    var fn, an, _ := no.Walk(ASK, size);
    if fy < size || fn < size { return None; }
    var gross := 1.0 - (Dollars(ay) + Dollars(an));
    var bd := Calc(Some(cfg.fees), true, gross, (ay + an) / 2, size,
                   0.0, cfg.slippageBps, cfg.latencyBuffer, 0.0, cfg.riskBuffer);
    q := Some(Quote(bd.netEdge, ay, an));
  }

  // The quote of a size, if it clears.
  method Probe(yes: Book, no: Book, cfg: ArbCfg, size: nat) returns (q: Option<Quote>)
    requires yes.Valid() && no.Valid()
    ensures q.Some? <==> ClearsAt(yes.State(), no.State(), cfg)(size)
    ensures q.Some? ==> NetAt(yes.State(), no.State(), cfg, size) == q
  {
    q := ComputeNetAt(yes, no, cfg, size);
    if q.Some? && q.value.net < cfg.minEdge { q := None; }
  }

  // The search loop, remembering the quote of the best size so far.
  method FindBest(yes: Book, no: Book, cfg: ArbCfg, maxWant: nat) returns (best: nat, quote: Quote)
    requires yes.Valid() && no.Valid()
    ensures best == BestSize(yes.State(), no.State(), cfg, maxWant)
    ensures best > 0 ==> NetAt(yes.State(), no.State(), cfg, best) == Some(quote)
  {
    ghost var ok := ClearsAt(yes.State(), no.State(), cfg);
    var lo: nat, hi: nat := 1, maxWant;
    best, quote := 0, Quote(0.0, 0, 0);
    while lo <= hi
      invariant 0 < lo && Search(ok, 1, maxWant, 0) == Search(ok, lo, hi, best)
      invariant best > 0 ==> NetAt(yes.State(), no.State(), cfg, best) == Some(quote)
      decreases hi + 1 - lo
    {
      var mid := lo + (hi - lo) / 2;
      var q := Probe(yes, no, cfg, mid);
      if q.Some? {
        best, quote := mid, q.value;
        lo := mid + 1;
      } else {
        hi := if mid > 1 then mid - 1 else 0;
      }
    }
  }

  method FillReport(cfg: ArbCfg, raw: real, best: nat, quote: Quote) returns (out: Opportunity)
    requires quote.net == PairBreakdown(cfg, quote.avgYes, quote.avgNo, best).netEdge
    ensures out == Report(cfg, raw, best, quote.avgYes, quote.avgNo)
  {
    var ay, an := quote.avgYes, quote.avgNo;
    var executable := 1.0 - (ay as real + an as real) / 1000.0;
    var bd := Calc(Some(cfg.fees), true, executable, (ay + an) / 2, best,
                   0.0, cfg.slippageBps, cfg.latencyBuffer, 0.0, cfg.riskBuffer);
    assert executable == 1.0 - (Dollars(ay) + Dollars(an));
    out := Opportunity(true, raw, executable, quote.net, best, quote.net * best as real, ay, an, Some(bd));
  }

  lemma QuoteIs(yes: BookState, no: BookState, cfg: ArbCfg, size: nat, quote: Quote)
    requires NetAt(yes, no, cfg, size) == Some(quote)
    ensures quote.avgYes == Vwap(yes.asks, size) && quote.avgNo == Vwap(no.asks, size)
    ensures quote.net == PairBreakdown(cfg, quote.avgYes, quote.avgNo, size).netEdge
  {
  }

  method Compute(yes: Book, no: Book, cfg: ArbCfg, maxWant: nat) returns (rc: int, out: Opportunity)
    requires yes.Valid() && no.Valid()
    ensures (rc, out) == Evaluate(yes.State(), no.State(), cfg, maxWant)
  {
    out := NO_OPPORTUNITY;
    if maxWant == 0 { return -1, out; }
    var ya := yes.BestAsk();
    var na := no.BestAsk();
    if ya == None || na == None { return 0, out; }
    var raw := 1.0 - (ya.value.price as real + na.value.price as real) / 1000.0;
    out := out.(rawEdge := raw);
    if raw <= cfg.minEdge { return 0, out; }
    var best, quote := FindBest(yes, no, cfg, maxWant);
    if best == 0 || best < cfg.minLiquidity { return 0, out; }
    QuoteIs(yes.State(), no.State(), cfg, best, quote);
    out := FillReport(cfg, raw, best, quote);
    rc := 1;
  }
}
