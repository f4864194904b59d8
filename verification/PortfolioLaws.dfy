// What every run of fills, marks and settlements conserves.

module PortfolioLaws {
  import opened Arith
  import opened Types
  import opened Portfolio

  function SumCost(ps: seq<Position>): int {
    if ps == [] then 0 else SumCost(ps[..|ps| - 1]) + ps[|ps| - 1].cost
  }

  // Cash and open cost, less what was earned and what was paid in.
  function Drift(st: PState): real {
    st.cash + Dollars(SumCost(st.positions)) - st.realized - st.initialCash
  }

  // Open cost that total_exposure does not account for.
  function Gap(st: PState): real {
    Dollars(SumCost(st.positions)) - st.exposure
  }

  ghost predicate PositionInv(p: Position) {
    (p.shares == 0 ==> p.cost == 0) && (p.settled ==> p.shares == 0)
  }

  ghost predicate Inv(st: PState) {
    |st.positions| <= MAX_POSITIONS && forall i :: 0 <= i < |st.positions| ==> PositionInv(st.positions[i])
  }

  ghost predicate CostsNonNegative(st: PState) {
    0.0 <= st.exposure && forall i :: 0 <= i < |st.positions| ==> 0 <= st.positions[i].cost
  }

  // ------------------------------------------------------------------ the ledger

  function Held(st: PState, f: Fill): nat {
    var i := FirstMatch(st.positions, f);
    if i < |st.positions| then st.positions[i].shares else 0
  }

  predicate IsSale(st: PState, f: Fill) {
    f.side != BID && f.shares > 0 && !Drops(st, f)
  }

  // Dollars credited for shares that were not held.
  function OversoldBy(st: PState, e: Event): real {
    if e.FillEvent? && IsSale(st, e.fill)
    then Dollars((e.fill.shares - Min(e.fill.shares, Held(st, e.fill))) * e.fill.price) else 0.0
  }

  // A sale of some but not all of a position.
  predicate IsPartialSale(st: PState, e: Event) {
    e.FillEvent? && IsSale(st, e.fill) && e.fill.shares < Held(st, e.fill)
  }

  function Oversold(st: PState, es: seq<Event>): real {
    if es == [] then 0.0
    else Oversold(st, es[..|es| - 1]) + OversoldBy(Run(st, es[..|es| - 1]), es[|es| - 1])
  }

  function PartialSales(st: PState, es: seq<Event>): nat {
    if es == [] then 0
    else PartialSales(st, es[..|es| - 1]) + (if IsPartialSale(Run(st, es[..|es| - 1]), es[|es| - 1]) then 1 else 0)
  }

  ghost predicate PricesNonNegative(es: seq<Event>) {
    forall i :: 0 <= i < |es| && es[i].FillEvent? ==> 0 <= es[i].fill.price
  }

  // ------------------------------------------------------------------ sums of cost

  lemma {:induction false} SumCostUpdated(ps: seq<Position>, i: nat, p: Position)
    requires i < |ps|
    ensures SumCost(ps[i := p]) == SumCost(ps) - ps[i].cost + p.cost
  {
    var n := |ps| - 1;
    if i < n {
      SumCostUpdated(ps[..n], i, p);
      assert ps[i := p][..n] == ps[..n][i := p];
    } else {
      assert ps[i := p][..n] == ps[..n];
    }
  }

  lemma SumCostOpened(ps: seq<Position>, f: Fill)
    ensures SumCost(WithPosition(ps, f)) == SumCost(ps)
  {
    assert (ps + [Opened(f)])[..|ps|] == ps;
  }

  lemma {:induction false} SumCostMarked(ps: seq<Position>, marketId: nat, isYes: bool, bid: int)
    ensures SumCost(MarkedAll(ps, marketId, isYes, bid)) == SumCost(ps)
  {
    if ps != [] {
      var n := |ps| - 1;
      SumCostMarked(ps[..n], marketId, isYes, bid);
      assert MarkedAll(ps, marketId, isYes, bid)[..n] == MarkedAll(ps[..n], marketId, isYes, bid);
    }
  }

  lemma {:induction false} SumCostNonNegative(ps: seq<Position>)
    requires forall i :: 0 <= i < |ps| ==> 0 <= ps[i].cost
    ensures 0 <= SumCost(ps)
  {
    if ps != [] { SumCostNonNegative(ps[..|ps| - 1]); }
  }

  // ------------------------------------------------------------ rounding of a sale

  lemma TruncatedBounds(x: int, y: nat)
    requires 0 < y
    ensures -1.0 < x as real / y as real - Truncated(x, y) as real < 1.0
    ensures 0 <= x ==> 0.0 <= x as real / y as real - Truncated(x, y) as real
  {
    if x >= 0 {
      FlooredQuotient(x, y);
    } else {
      FlooredQuotient(-x, y);
      NegatedRatio(x, y);
    }
  }

  lemma NegatedRatio(x: int, y: nat)
    requires 0 < y
    ensures (-x) as real / y as real == -(x as real / y as real)
  {
  }

  lemma FlooredQuotient(a: nat, y: nat)
    requires 0 < y
    ensures 0.0 <= a as real / y as real - (a / y) as real < 1.0
  {
    QuotientAsReal(a, a / y, a % y, y);
  }

  lemma QuotientAsReal(a: nat, q: nat, r: nat, y: nat)
    requires 0 < y && a == q * y + r && r < y
    ensures 0.0 <= a as real / y as real - q as real < 1.0
  {
    assert (q * y) as real == q as real * y as real;
    RatioBounds(a as real, q as real, r as real, y as real);
  }

  lemma RatioBounds(a: real, q: real, r: real, y: real)
    requires 0.0 <= r < y && a == q * y + r
    ensures 0.0 <= a / y - q < 1.0
  {
    var z := a / y;
    assert z * y == a;
    BetweenMultiples(z, q, r, y);
  }

  lemma BetweenMultiples(z: real, q: real, r: real, y: real)
    requires 0.0 <= r < y && z * y == q * y + r
    ensures q <= z < q + 1.0
  {
    NextMultiple(q, y);
    ScaledReals(q, z, y);
    ScaledReals(q + 1.0, z, y);
  }

  lemma NextMultiple(q: real, y: real)
    ensures (q + 1.0) * y == q * y + y
  {
  }

  // A sale takes out less than a thousandth more exposure than cost basis, and the
  // whole of both when it closes the position.
  lemma SaleRounding(p: Position, closed: nat)
    requires 0 < closed <= p.shares
    ensures -0.001 < ExposureRemoved(p, closed) - Dollars(CostRemoved(p, closed)) < 0.001
    ensures 0 <= p.cost ==> Dollars(CostRemoved(p, closed)) <= ExposureRemoved(p, closed)
    ensures 0 <= p.cost ==> 0 <= CostRemoved(p, closed) <= p.cost
    ensures closed == p.shares ==>
      CostRemoved(p, closed) == p.cost && ExposureRemoved(p, closed) == Dollars(p.cost)
  {
    var c, k, s := p.cost, closed, p.shares;
    TruncatedBounds(c * k, s);
    ExposureQuotient(p, closed);
    if 0 <= c {
      ScaleUp(k, s, c);
      assert 0 <= c * k <= c * s;
      FlooredWhole(c * k, c, s);
    }
    if k == s { TruncatedMultiple(c, s); }
  }

  lemma ExposureQuotient(p: Position, closed: nat)
    requires 0 < p.shares
    ensures ExposureRemoved(p, closed) == (p.cost * closed) as real / p.shares as real / 1000.0
  {
    var c, k, s := p.cost as real, closed as real, p.shares as real;
    assert (p.cost * closed) as real == c * k;
    assert c / s * k == c * k / s;
  }

  lemma FlooredWhole(x: int, c: int, s: nat)
    requires 0 < s && 0 <= x <= c * s
    ensures 0 <= x / s <= c
  {
    var q := x / s;
    assert q * s <= x;
    CancelFactor(q, c, s);
  }

  lemma TruncatedMultiple(c: int, s: nat)
    requires 0 < s
    ensures Truncated(c * s, s) == c && (c * s) as real / s as real == c as real
  {
    if c >= 0 {
      ScaleUp(0, c, s);
      ExactQuotient(c, s);
    } else {
      ScaleUp(c, -1, s);
      assert -(c * s) == -c * s;
      ExactQuotient(-c, s);
    }
    RealMultiple(c, s);
  }

  lemma RealMultiple(c: int, s: nat)
    requires 0 < s
    ensures (c * s) as real / s as real == c as real
  {
    assert (c * s) as real == c as real * s as real;
  }

  // ----------------------------------------------------------------------- one fill

  lemma FillUsdIs(f: Fill)
    ensures FillUsd(f) == Dollars(f.shares * f.price)
  {
    assert (f.shares * f.price) as real == f.shares as real * f.price as real;
  }

  // The fields a purchase changes.
  lemma BuyFields(st: PState, i: nat, f: Fill)
    requires i < |st.positions| && f.side == BID
    ensures var st', p := FillAt(st, i, f), st.positions[i];
      st'.cash == st.cash - FillUsd(f) && st'.exposure == st.exposure + FillUsd(f)
      && st'.realized == st.realized && st'.initialCash == st.initialCash
      && |st'.positions| == |st.positions| && st'.positions == st.positions[i := st'.positions[i]]
      && st'.positions[i].cost == p.cost + f.shares * f.price
      && st'.positions[i].shares == p.shares + f.shares
      && st'.positions[i].settled == p.settled && st'.positions[i].marketId == p.marketId
      && st'.positions[i].isYes == p.isYes
      && (Matches(p, f) ==> Matches(st'.positions[i], f))
  {
  }

  lemma BuyStep(st: PState, i: nat, f: Fill)
    requires Inv(st) && i < |st.positions| && f.side == BID && f.shares > 0 && !st.positions[i].settled
    ensures var st' := FillAt(st, i, f);
      Inv(st') && Drift(st') == Drift(st) && Gap(st') == Gap(st)
      && (CostsNonNegative(st) && 0 <= f.price ==> CostsNonNegative(st'))
  {
    BuyFields(st, i, f);
    FillUsdIs(f);
    SumCostUpdated(st.positions, i, FillAt(st, i, f).positions[i]);
    if 0 <= f.price { ScaleUp(0, f.price, f.shares); }
  }

  lemma SellFromEmpty(st: PState, i: nat, f: Fill)
    requires Inv(st) && i < |st.positions| && f.side != BID && st.positions[i].shares == 0
    ensures var st' := FillAt(st, i, f);
      Inv(st') && Drift(st') == Drift(st) + Dollars(f.shares * f.price) && Gap(st') == Gap(st)
      && (CostsNonNegative(st) ==> CostsNonNegative(st'))
  {
    SumCostUpdated(st.positions, i, Attributed(st.positions[i], f));
    FillUsdIs(f);
  }

  // The fields a sale of held shares changes.
  lemma SellFields(st: PState, i: nat, f: Fill)
    requires i < |st.positions| && f.side != BID && st.positions[i].shares > 0
    ensures var st', p := FillAt(st, i, f), st.positions[i];
      var closed := Min(f.shares, p.shares);
      st'.cash == st.cash + FillUsd(f) && st'.realized == st.realized + SalePnl(p, f.price, closed)
      && st'.initialCash == st.initialCash && |st'.positions| == |st.positions|
      && st'.positions == st.positions[i := st'.positions[i]]
      && st'.positions[i].cost == p.cost - CostRemoved(p, closed)
      && st'.positions[i].shares == p.shares - closed && st'.positions[i].settled == p.settled
      && (st'.exposure == st.exposure - ExposureRemoved(p, closed) >= 0.0
          || (st'.exposure == 0.0 && st.exposure - ExposureRemoved(p, closed) < 0.0))
  {
  }

  lemma SellStep(st: PState, i: nat, f: Fill)
    requires Inv(st) && i < |st.positions| && f.side != BID && f.shares > 0 && st.positions[i].shares > 0
    ensures var st', p := FillAt(st, i, f), st.positions[i];
      var closed := Min(f.shares, p.shares);
      var rounding := ExposureRemoved(p, closed) - Dollars(CostRemoved(p, closed));
      Inv(st') && Drift(st') == Drift(st) + Dollars((f.shares - closed) * f.price) + rounding
      && SumCost(st'.positions) == SumCost(st.positions) - CostRemoved(p, closed)
      && (CostsNonNegative(st) ==> CostsNonNegative(st'))
  {
    var p, st' := st.positions[i], FillAt(st, i, f);
    var closed := Min(f.shares, p.shares);
    SellFields(st, i, f);
    SaleRounding(p, closed);
    SumCostUpdated(st.positions, i, st'.positions[i]);
    SaleSplits(p, f, closed);
  }

  lemma SaleSplits(p: Position, f: Fill, closed: nat)
    requires closed <= f.shares && 0 < p.shares
    ensures FillUsd(f) - SalePnl(p, f.price, closed)
         == Dollars((f.shares - closed) * f.price) + ExposureRemoved(p, closed)
  {
    var n, k, x, avg := f.shares as real, closed as real, f.price as real, AvgCost(p);
    assert ((f.shares - closed) * f.price) as real == (n - k) * x;
    assert (x / 1000.0 - avg) * k == x / 1000.0 * k - avg * k;
    assert (n - k) * x / 1000.0 == n * x / 1000.0 - x / 1000.0 * k;
  }

  // The exposure's clamp at zero never opens the gap beyond the rounding.
  lemma SellGap(st: PState, i: nat, f: Fill)
    requires Inv(st) && i < |st.positions| && f.side != BID && f.shares > 0 && st.positions[i].shares > 0
    requires CostsNonNegative(st) && 0.0 <= Gap(st)
    ensures 0.0 <= Gap(FillAt(st, i, f)) <= Gap(st) + if f.shares < st.positions[i].shares then 0.001 else 0.0
  {
    var p := st.positions[i];
    SaleRounding(p, Min(f.shares, p.shares));
    SellFields(st, i, f);
    SellStep(st, i, f);
    SumCostNonNegative(FillAt(st, i, f).positions);
  }

  // ---------------------------------------------------------------------- one event

  // What one event may do to the drift and to the gap.
  ghost predicate Conserves(st: PState, e: Event, st': PState) {
    var r := Drift(st') - Drift(st) - OversoldBy(st, e);
    var slack := if IsPartialSale(st, e) then 0.001 else 0.0;
    && Inv(st')
    && -slack <= r <= slack
    && (CostsNonNegative(st) && (e.FillEvent? ==> 0 <= e.fill.price) ==>
          CostsNonNegative(st') && 0.0 <= r && (0.0 <= Gap(st) ==> 0.0 <= Gap(st') <= Gap(st) + slack))
  }

  lemma WithPositionKeeps(st: PState, f: Fill)
    requires Inv(st) && !Drops(st, f)
    ensures var st1 := st.(positions := WithPosition(st.positions, f));
      Inv(st1) && Drift(st1) == Drift(st) && Gap(st1) == Gap(st)
      && (CostsNonNegative(st) ==> CostsNonNegative(st1))
      && st1.positions[FirstMatch(st.positions, f)].shares == Held(st, f)
      && !st1.positions[FirstMatch(st.positions, f)].settled
  {
    SumCostOpened(st.positions, f);
  }

  lemma FillConserves(st: PState, f: Fill)
    requires Inv(st)
    ensures Conserves(st, FillEvent(f), OnFill(st, f))
  {
    if f.shares > 0 && !Drops(st, f) {
      WithPositionKeeps(st, f);
      var st1, i := st.(positions := WithPosition(st.positions, f)), FirstMatch(st.positions, f);
      if f.side == BID {
        BuyStep(st1, i, f);
      } else if Held(st, f) == 0 {
        SellFromEmpty(st1, i, f);
      } else {
        SaleRounding(st1.positions[i], Min(f.shares, Held(st, f)));
        SellStep(st1, i, f);
        if CostsNonNegative(st1) && 0.0 <= Gap(st1) { SellGap(st1, i, f); }
      }
    }
  }

  lemma SettledAtConserves(st: PState, i: nat, marketId: nat, winnerIsYes: bool)
    requires Inv(st) && i < |st.positions|
    ensures var st' := SettledAt(st, i, marketId, winnerIsYes);
      Inv(st') && Drift(st') == Drift(st)
      && (CostsNonNegative(st) ==>
            CostsNonNegative(st') && (0.0 <= Gap(st) ==> 0.0 <= Gap(st') <= Gap(st)))
  {
    var st' := SettledAt(st, i, marketId, winnerIsYes);
    if Settles(st.positions[i], marketId) {
      SumCostUpdated(st.positions, i, st'.positions[i]);
      if CostsNonNegative(st) { SumCostNonNegative(st'.positions); }
    }
  }

  lemma {:induction false} SettleConserves(st: PState, i: nat, marketId: nat, winnerIsYes: bool)
    requires Inv(st) && i <= |st.positions|
    ensures var st' := SettleFrom(st, i, marketId, winnerIsYes);
      Inv(st') && Drift(st') == Drift(st)
      && (CostsNonNegative(st) ==>
            CostsNonNegative(st') && (0.0 <= Gap(st) ==> 0.0 <= Gap(st') <= Gap(st)))
    decreases |st.positions| - i
  {
    if i < |st.positions| {
      SettledAtConserves(st, i, marketId, winnerIsYes);
      SettleConserves(SettledAt(st, i, marketId, winnerIsYes), i + 1, marketId, winnerIsYes);
    }
  }

  lemma StepConserves(st: PState, e: Event)
    requires Inv(st)
    ensures Conserves(st, e, Step(st, e))
  {
    match e
    case FillEvent(f) => FillConserves(st, f);
    case MarkEvent(m, isYes, bid) => SumCostMarked(st.positions, m, isYes, bid);
    case SettleEvent(m, winnerIsYes) => SettleConserves(st, 0, m, winnerIsYes);
  }

  // ----------------------------------------------------------------------- whole runs

  // The money a run creates: what was credited for shares not held, plus a rounding of
  // at most a thousandth per partial sale, which at non-negative prices is a surplus.
  lemma {:induction false} RunConserves(st: PState, es: seq<Event>)
    requires Inv(st)
    ensures var st' := Run(st, es);
      var r := Drift(st') - Drift(st) - Oversold(st, es);
      var slack := Dollars(PartialSales(st, es));
      Inv(st') && -slack <= r <= slack
      && (CostsNonNegative(st) && PricesNonNegative(es) ==>
            CostsNonNegative(st') && 0.0 <= r && (0.0 <= Gap(st) ==> 0.0 <= Gap(st') <= Gap(st) + slack))
  {
    if es != [] {
      var n := |es| - 1;
      RunConserves(st, es[..n]);
      StepConserves(Run(st, es[..n]), es[n]);
      assert PricesNonNegative(es) ==> PricesNonNegative(es[..n]);
    }
  }

  // From an empty portfolio: cash + open cost - realized PnL = initial cash + oversold + r.
  lemma ConservationFromStart(initial: real, es: seq<Event>)
    ensures var st := Run(Init(initial), es);
      var r := st.cash + Dollars(SumCost(st.positions)) - st.realized - initial - Oversold(Init(initial), es);
      var slack := Dollars(PartialSales(Init(initial), es));
      -slack <= r <= slack && (PricesNonNegative(es) ==> 0.0 <= r)
  {
    RunConserves(Init(initial), es);
    RunKeepsInitialCash(Init(initial), es);
  }

  lemma {:induction false} SettleKeepsInitialCash(st: PState, i: nat, marketId: nat, winnerIsYes: bool)
    requires i <= |st.positions|
    ensures SettleFrom(st, i, marketId, winnerIsYes).initialCash == st.initialCash
    decreases |st.positions| - i
  {
    if i < |st.positions| {
      SettleKeepsInitialCash(SettledAt(st, i, marketId, winnerIsYes), i + 1, marketId, winnerIsYes);
    }
  }

  lemma {:induction false} RunKeepsInitialCash(st: PState, es: seq<Event>)
    ensures Run(st, es).initialCash == st.initialCash
  {
    if es != [] {
      RunKeepsInitialCash(st, es[..|es| - 1]);
      var e := es[|es| - 1];
      if e.SettleEvent? {
        SettleKeepsInitialCash(Run(st, es[..|es| - 1]), 0, e.marketId, e.winnerIsYes);
      }
    }
  }

  // ------------------------------------------------------- realized PnL and its tally

  function SumRealized(ps: seq<Position>): real {
    if ps == [] then 0.0 else SumRealized(ps[..|ps| - 1]) + ps[|ps| - 1].realized
  }

  lemma {:induction false} SumRealizedUpdated(ps: seq<Position>, i: nat, p: Position)
    requires i < |ps|
    ensures SumRealized(ps[i := p]) == SumRealized(ps) - ps[i].realized + p.realized
  {
    var n := |ps| - 1;
    if i < n {
      SumRealizedUpdated(ps[..n], i, p);
      assert ps[i := p][..n] == ps[..n][i := p];
    } else {
      assert ps[i := p][..n] == ps[..n];
    }
  }

  lemma {:induction false} SumRealizedMarked(ps: seq<Position>, marketId: nat, isYes: bool, bid: int)
    ensures SumRealized(MarkedAll(ps, marketId, isYes, bid)) == SumRealized(ps)
  {
    if ps != [] {
      var n := |ps| - 1;
      SumRealizedMarked(ps[..n], marketId, isYes, bid);
      assert MarkedAll(ps, marketId, isYes, bid)[..n] == MarkedAll(ps[..n], marketId, isYes, bid);
    }
  }

  // The portfolio's realized PnL is that of its positions, and no trade is both won and lost.
  ghost predicate Tallied(st: PState) {
    st.realized == SumRealized(st.positions) && st.wins + st.losses <= st.trades
  }

  // What a sale of held shares does to the tally, by the sign of its profit.
  lemma SellTally(st: PState, i: nat, f: Fill)
    requires i < |st.positions| && f.side != BID && st.positions[i].shares > 0
    ensures var st', p := FillAt(st, i, f), st.positions[i];
      var pnl := SalePnl(p, f.price, Min(f.shares, p.shares));
      st'.realized == st.realized + pnl && st'.trades == st.trades + 1
      && st'.wins == st.wins + (if pnl > 0.0 then 1 else 0) && st'.losses == st.losses + (if pnl < 0.0 then 1 else 0)
      && |st'.positions| == |st.positions| && st'.positions == st.positions[i := st'.positions[i]]
      && st'.positions[i].realized == p.realized + pnl
  {
  }

  lemma NoSaleTally(st: PState, i: nat, f: Fill)
    requires i < |st.positions| && (f.side == BID || st.positions[i].shares == 0)
    ensures var st', p := FillAt(st, i, f), st.positions[i];
      st'.realized == st.realized && st'.trades == st.trades && st'.wins == st.wins && st'.losses == st.losses
      && |st'.positions| == |st.positions| && st'.positions == st.positions[i := st'.positions[i]]
      && st'.positions[i].realized == p.realized
  {
  }

  lemma FillAtIsTallied(st: PState, i: nat, f: Fill)
    requires Tallied(st) && i < |st.positions|
    ensures var st', sells := FillAt(st, i, f), f.side != BID && st.positions[i].shares > 0;
      Tallied(st') && st'.trades == st.trades + (if sells then 1 else 0)
      && st'.wins == st.wins + (if st'.realized > st.realized then 1 else 0)
      && st'.losses == st.losses + (if st'.realized < st.realized then 1 else 0)
  {
    if f.side != BID && st.positions[i].shares > 0 { SellTally(st, i, f); } else { NoSaleTally(st, i, f); }
    SumRealizedUpdated(st.positions, i, FillAt(st, i, f).positions[i]);
  }

  lemma SumRealizedOpened(ps: seq<Position>, f: Fill)
    ensures SumRealized(WithPosition(ps, f)) == SumRealized(ps)
  {
    assert (ps + [Opened(f)])[..|ps|] == ps;
  }

  lemma FoundIsTallied(st: PState, st1: PState, f: Fill)
    requires Tallied(st1) && st1 == st.(positions := WithPosition(st.positions, f)) && 0 < f.shares && !Drops(st, f)
    ensures var st' := FillAt(st1, FirstMatch(st.positions, f), f);
      Tallied(st') && st'.trades == st.trades + (if IsSale(st, f) && Held(st, f) > 0 then 1 else 0)
      && st'.wins == st.wins + (if st'.realized > st.realized then 1 else 0)
      && st'.losses == st.losses + (if st'.realized < st.realized then 1 else 0)
  {
    FillAtIsTallied(st1, FirstMatch(st.positions, f), f);
  }

  // A fill counts as a trade exactly when it sells held shares: won if it realizes a
  // profit, lost if it realizes a loss, neither if it breaks even.
  lemma FillIsTallied(st: PState, f: Fill)
    requires Tallied(st)
    ensures var st' := OnFill(st, f);
      Tallied(st') && st'.trades == st.trades + (if IsSale(st, f) && Held(st, f) > 0 then 1 else 0)
      && st'.wins == st.wins + (if st'.realized > st.realized then 1 else 0)
      && st'.losses == st.losses + (if st'.realized < st.realized then 1 else 0)
  {
    if f.shares > 0 && !Drops(st, f) {
      SumRealizedOpened(st.positions, f);
      FoundIsTallied(st, st.(positions := WithPosition(st.positions, f)), f);
    }
  }

  // A settled position counts as one trade, won if it pays at least its cost.
  lemma SettledAtIsTallied(st: PState, i: nat, m: nat, winnerIsYes: bool)
    requires Tallied(st) && i < |st.positions|
    ensures var st' := SettledAt(st, i, m, winnerIsYes);
      Tallied(st') && |st'.positions| == |st.positions|
      && (Settles(st.positions[i], m) ==>
            st'.trades == st.trades + 1
            && st'.wins == st.wins + (if st'.realized >= st.realized then 1 else 0)
            && st'.wins + st'.losses == st.wins + st.losses + 1)
  {
    SumRealizedUpdated(st.positions, i, SettledAt(st, i, m, winnerIsYes).positions[i]);
  }

  lemma {:induction false} SettleIsTallied(st: PState, i: nat, m: nat, winnerIsYes: bool)
    requires Tallied(st) && i <= |st.positions|
    ensures Tallied(SettleFrom(st, i, m, winnerIsYes))
    decreases |st.positions| - i
  {
    if i < |st.positions| {
      SettledAtIsTallied(st, i, m, winnerIsYes);
      SettleIsTallied(SettledAt(st, i, m, winnerIsYes), i + 1, m, winnerIsYes);
    }
  }

  lemma {:induction false} RunIsTallied(initial: real, es: seq<Event>)
    ensures Tallied(Run(Init(initial), es))
  {
    if es != [] {
      var st := Run(Init(initial), es[..|es| - 1]);
      RunIsTallied(initial, es[..|es| - 1]);
      match es[|es| - 1]
      case FillEvent(f) => FillIsTallied(st, f);
      case MarkEvent(m, isYes, bid) => SumRealizedMarked(st.positions, m, isYes, bid);
      case SettleEvent(m, winnerIsYes) => SettleIsTallied(st, 0, m, winnerIsYes);
    }
  }

  // ------------------------------------------------------------------ equity at a mark

  function MarketValue(ps: seq<Position>): int {
    if ps == [] then 0 else MarketValue(ps[..|ps| - 1]) + ps[|ps| - 1].bid * ps[|ps| - 1].shares
  }

  lemma UnrealizedIs(p: Position)
    requires PositionInv(p)
    ensures UnrealizedOf(p) == Dollars(p.bid * p.shares) - Dollars(p.cost)
  {
    if p.shares > 0 {
      var s, c, b := p.shares as real, p.cost as real, p.bid as real;
      assert (p.bid * p.shares) as real == b * s;
      assert c / s * s == c;
      assert (b / 1000.0 - c / s / 1000.0) * s == b * s / 1000.0 - c / s * s / 1000.0;
    }
  }

  lemma {:induction false} SumUnrealizedIs(ps: seq<Position>)
    requires forall i :: 0 <= i < |ps| ==> PositionInv(ps[i]) && ps[i].unrealized == UnrealizedOf(ps[i])
    ensures SumUnrealized(ps) == Dollars(MarketValue(ps)) - Dollars(SumCost(ps))
  {
    if ps != [] {
      SumUnrealizedIs(ps[..|ps| - 1]);
      UnrealizedIs(ps[|ps| - 1]);
    }
  }

  lemma MarkedIs(p: Position, marketId: nat, isYes: bool, bid: int)
    requires PositionInv(p)
    ensures var q := Marked(p, marketId, isYes, bid); PositionInv(q) && q.unrealized == UnrealizedOf(q)
  {
  }

  lemma MarkedAre(ps: seq<Position>, marketId: nat, isYes: bool, bid: int)
    requires forall i :: 0 <= i < |ps| ==> PositionInv(ps[i])
    ensures var ms := MarkedAll(ps, marketId, isYes, bid);
      forall i :: 0 <= i < |ms| ==> PositionInv(ms[i]) && ms[i].unrealized == UnrealizedOf(ms[i])
  {
    forall i | 0 <= i < |ps|
      ensures var q := MarkedAll(ps, marketId, isYes, bid)[i]; PositionInv(q) && q.unrealized == UnrealizedOf(q)
    {
      MarkedIs(ps[i], marketId, isYes, bid);
    }
  }

  // Right after a mark, reported equity is the cash plus the value at the bids, less
  // the gap.
  lemma EquityAtMark(st: PState, marketId: nat, isYes: bool, bid: int)
    requires Inv(st)
    ensures var m := Mark(st, marketId, isYes, bid);
      Equity(m) == m.cash + Dollars(MarketValue(m.positions)) - Gap(st)
  {
    MarkedAre(st.positions, marketId, isYes, bid);
    SumUnrealizedIs(MarkedAll(st.positions, marketId, isYes, bid));
    SumCostMarked(st.positions, marketId, isYes, bid);
  }

  // In every reachable state it never overstates the recomputed equity and falls short
  // of it by at most a thousandth per partial sale.
  lemma EquityAgreesWithRecomputation(initial: real, es: seq<Event>, marketId: nat, isYes: bool, bid: int)
    requires PricesNonNegative(es)
    ensures var m := Mark(Run(Init(initial), es), marketId, isYes, bid);
      var recomputed := m.cash + Dollars(MarketValue(m.positions));
      recomputed - Dollars(PartialSales(Init(initial), es)) <= Equity(m) <= recomputed
  {
    RunConserves(Init(initial), es);
    EquityAtMark(Run(Init(initial), es), marketId, isYes, bid);
  }

  // ------------------------------------------------------------- settlement by shares

  function OpenShares(ps: seq<Position>, marketId: nat, isYes: bool): nat {
    if ps == [] then 0
    else
      var p := ps[|ps| - 1];
      OpenShares(ps[..|ps| - 1], marketId, isYes)
      + Counted(p, marketId, isYes)
  }

  function Counted(p: Position, marketId: nat, isYes: bool): nat {
    if p.marketId == marketId && p.isYes == isYes && !p.settled then p.shares else 0
  }

  lemma {:induction false} OpenSharesUpdated(ps: seq<Position>, i: nat, p: Position, m: nat, isYes: bool)
    requires i < |ps|
    ensures OpenShares(ps[i := p], m, isYes)
         == OpenShares(ps, m, isYes) - Counted(ps[i], m, isYes) + Counted(p, m, isYes)
  {
    var n := |ps| - 1;
    if i < n {
      OpenSharesUpdated(ps[..n], i, p, m, isYes);
      assert ps[i := p][..n] == ps[..n][i := p];
    } else {
      assert ps[i := p][..n] == ps[..n];
    }
  }

  // Settling a market pays one dollar per open share of the winning side, keeps the
  // positions' number, and leaves no open share of either side behind.
  lemma SettlementPays(st: PState, m: nat, winnerIsYes: bool)
    requires Inv(st)
    ensures var st' := Settle(st, m, winnerIsYes);
      st'.cash == st.cash + OpenShares(st.positions, m, winnerIsYes) as real
      && |st'.positions| == |st.positions|
      && OpenShares(st'.positions, m, true) == 0 == OpenShares(st'.positions, m, false)
  {
    SettleFromPays(st, 0, m, winnerIsYes);
  }

  lemma {:induction false} NothingOpen(ps: seq<Position>, m: nat, isYes: bool)
    requires forall j :: 0 <= j < |ps| ==> !Settles(ps[j], m)
    ensures OpenShares(ps, m, isYes) == 0
  {
    if ps != [] { NothingOpen(ps[..|ps| - 1], m, isYes); }
  }

  lemma {:induction false} SettleFromPays(st: PState, i: nat, m: nat, winnerIsYes: bool)
    requires Inv(st) && i <= |st.positions|
    requires forall j :: 0 <= j < i ==> !Settles(st.positions[j], m)
    ensures var st' := SettleFrom(st, i, m, winnerIsYes);
      st'.cash == st.cash + OpenShares(st.positions, m, winnerIsYes) as real
      && |st'.positions| == |st.positions|
      && OpenShares(st'.positions, m, true) == 0 == OpenShares(st'.positions, m, false)
    decreases |st.positions| - i
  {
    if i == |st.positions| {
      NothingOpen(st.positions, m, true);
      NothingOpen(st.positions, m, false);
    } else {
      var st1 := SettledAt(st, i, m, winnerIsYes);
      if Settles(st.positions[i], m) {
        OpenSharesUpdated(st.positions, i, st1.positions[i], m, winnerIsYes);
      }
      SettledAtConserves(st, i, m, winnerIsYes);
      SettleFromPays(st1, i + 1, m, winnerIsYes);
    }
  }

  ghost predicate NoneSettles(ps: seq<Position>, n: nat, m: nat)
    requires n <= |ps|
  {
    forall j :: 0 <= j < n ==> !Settles(ps[j], m)
  }

  // Settling a market again changes nothing.
  lemma SettlingTwice(st: PState, m: nat, first: bool, second: bool)
    ensures Settle(Settle(st, m, first), m, second) == Settle(st, m, first)
  {
    SettleFromClears(st, 0, m, first);
    NothingToSettle(Settle(st, m, first), 0, m, second);
  }

  lemma {:induction false} SettleFromClears(st: PState, i: nat, m: nat, winnerIsYes: bool)
    requires i <= |st.positions| && NoneSettles(st.positions, i, m)
    ensures var ps := SettleFrom(st, i, m, winnerIsYes).positions;
      NoneSettles(ps, |ps|, m)
    decreases |st.positions| - i
  {
    if i < |st.positions| {
      var st1 := SettledAt(st, i, m, winnerIsYes);
      assert NoneSettles(st1.positions, i + 1, m);
      SettleFromClears(st1, i + 1, m, winnerIsYes);
    }
  }

  lemma {:induction false} NothingToSettle(st: PState, i: nat, m: nat, winnerIsYes: bool)
    requires i <= |st.positions| && NoneSettles(st.positions, |st.positions|, m)
    ensures SettleFrom(st, i, m, winnerIsYes) == st
    decreases |st.positions| - i
  {
    if i < |st.positions| { NothingToSettle(st, i + 1, m, winnerIsYes); }
  }
}
