// What a fill, a mark and a settlement enter in the portfolio: which position they go to,
// and what becomes of it, of cash, exposure and the counters.

module LedgerEntries {
  import opened Arith
  import opened Types
  import opened Portfolio

  // A position takes a fill of its market, outcome and strategy while it is not settled,
  // unless both name a signal and not the same.
  predicate Takes(p: Position, f: Fill) {
    && p.marketId == f.marketId && p.isYes == f.isYes && p.strategy == f.strategy && !p.settled
    && !(p.signalId != 0 && f.signalId != 0 && p.signalId != f.signalId)
  }

  // What a fill does not change.
  ghost predicate Same(st: PState, st': PState, p: Position, p': Position) {
    && st'.initialCash == st.initialCash && st'.unrealized == st.unrealized
    && p'.marketId == p.marketId && p'.isYes == p.isYes && p'.strategy == p.strategy
    && p'.bid == p.bid && p'.unrealized == p.unrealized && p'.settled == p.settled
  }

  // A purchase costs its notional, in cash and in basis.
  ghost predicate Buys(st: PState, st': PState, p: Position, p': Position, f: Fill) {
    var paid := (f.shares * f.price) as real / 1000.0;
    && st'.cash == st.cash - paid && st'.exposure == st.exposure + paid
    && st'.realized == st.realized && st'.trades == st.trades && st'.wins == st.wins && st'.losses == st.losses
    && p'.shares == p.shares + f.shares && p'.cost == p.cost + f.shares * f.price && p'.realized == p.realized
  }

  // A sale from a position that holds nothing brings in its notional all the same.
  ghost predicate SellsNothing(st: PState, st': PState, p: Position, p': Position, f: Fill) {
    && st'.cash == st.cash + (f.shares * f.price) as real / 1000.0 && st'.exposure == st.exposure
    && st'.realized == st.realized && st'.trades == st.trades && st'.wins == st.wins && st'.losses == st.losses
    && p'.shares == p.shares && p'.cost == p.cost && p'.realized == p.realized
  }

  // A sale closes what is held of it, at the average cost: its share of the basis, in whole
  // thousandths, and of the exposure, and the difference to the price as a gain or a loss.
  ghost predicate Sells(st: PState, st': PState, p: Position, p': Position, f: Fill)
    requires 0 < p.shares
  {
    var closed := Min(f.shares, p.shares);
    var gain := st'.realized - st.realized;
    var left := st.exposure - (p.cost * closed) as real / (1000 * p.shares) as real;
    && st'.cash == st.cash + (f.shares * f.price) as real / 1000.0
    && st'.exposure == (if left < 0.0 then 0.0 else left)
    && gain == ((f.price * p.shares - p.cost) * closed) as real / (1000 * p.shares) as real
    && st'.trades == st.trades + 1 && st'.wins == st.wins + (if 0.0 < gain then 1 else 0)
    && st'.losses == st.losses + (if gain < 0.0 then 1 else 0)
    && p'.shares == p.shares - closed && p'.realized == p.realized + gain
    && TowardZero(p.cost - p'.cost, p.cost * closed, p.shares)
  }

  // A fill as it enters a position.
  ghost predicate Entered(st: PState, st': PState, p: Position, p': Position, f: Fill) {
    && Same(st, st', p, p') && p'.signalId == (if p.signalId == 0 then f.signalId else p.signalId)
    && if f.side == BID then Buys(st, st', p, p', f)
       else if p.shares == 0 then SellsNothing(st, st', p, p', f) else Sells(st, st', p, p', f)
  }

  lemma NotionalIs(f: Fill)
    ensures FillUsd(f) == (f.shares * f.price) as real / 1000.0
  {
    assert (f.shares * f.price) as real == f.shares as real * f.price as real;
  }

  lemma ShareOfCost(cost: real, shares: real, closed: real, price: real)
    requires 0.0 < shares
    ensures cost / shares / 1000.0 * closed == cost * closed / (1000.0 * shares)
    ensures (price / 1000.0 - cost / shares / 1000.0) * closed == (price * shares - cost) * closed / (1000.0 * shares)
  {
    var a := cost / shares;
    assert cost == a * shares;
    OneQuotient(a * closed, shares);
    OneQuotient((price - a) * closed, shares);
    assert cost * closed == a * closed * shares;
    assert (price * shares - cost) * closed == (price - a) * closed * shares;
  }

  lemma OneQuotient(x: real, shares: real)
    requires 0.0 < shares
    ensures x * shares / (1000.0 * shares) == x / 1000.0
  {
    var q := x * shares / (1000.0 * shares);
    assert q * (1000.0 * shares) == x * shares;
    assert (q * 1000.0) * shares == x * shares;
  }

  lemma SaleFigures(p: Position, price: int, closed: nat)
    requires 0 < p.shares
    ensures ExposureRemoved(p, closed) == (p.cost * closed) as real / (1000 * p.shares) as real
    ensures SalePnl(p, price, closed) == ((price * p.shares - p.cost) * closed) as real / (1000 * p.shares) as real
    ensures TowardZero(CostRemoved(p, closed), p.cost * closed, p.shares)
  {
    ShareOfCost(p.cost as real, p.shares as real, closed as real, price as real);
    assert (p.cost * closed) as real == p.cost as real * closed as real;
    assert ((price * p.shares - p.cost) * closed) as real == (price * p.shares - p.cost) as real * closed as real;
    assert (price * p.shares) as real == price as real * p.shares as real;
    TruncatedIsTowardZero(p.cost * closed, p.shares);
  }

  lemma SoldIs(st: PState, p: Position, f: Fill)
    requires 0 < p.shares && f.side != BID
    ensures var (st', p') := Sold(st, p, f); Sells(st, st', p, p', f)
  {
    NotionalIs(f);
    SaleFigures(p, f.price, Min(f.shares, p.shares));
  }

  lemma EntersAt(st: PState, i: nat, f: Fill)
    requires i < |st.positions| && st.positions[i].strategy == f.strategy
    ensures var st' := FillAt(st, i, f);
      |st'.positions| == |st.positions| && Entered(st, st', st.positions[i], st'.positions[i], f)
      && forall j :: 0 <= j < |st.positions| && j != i ==> st'.positions[j] == st.positions[j]
  {
    var p := Attributed(st.positions[i], f);
    NotionalIs(f);
    if f.side != BID && 0 < p.shares {
      SoldIs(st, p, f);
      var (st1, p1) := Sold(st, p, f);
      SellsAttributed(st, st1, st.positions[i], p, p1, f);
    }
  }

  lemma SellsAttributed(st: PState, st': PState, p0: Position, p: Position, p': Position, f: Fill)
    requires 0 < p.shares && Sells(st, st', p, p', f) && p == Attributed(p0, f)
    ensures 0 < p0.shares && Sells(st, st', p0, p', f)
  {
  }

  // A new position, with nothing in it.
  function Blank(f: Fill): Position {
    Position(f.marketId, f.isYes, f.strategy, f.signalId, 0, 0, 0, 0.0, 0.0, false)
  }

  // A fill of some shares enters the first position that takes it, or a new one while there
  // are fewer than 128; otherwise it is lost, and nothing else ever changes.
  lemma FillLands(st: PState, f: Fill) returns (i: nat)
    ensures i <= |st.positions| && forall j :: 0 <= j < i ==> !Takes(st.positions[j], f)
    ensures i < |st.positions| ==> Takes(st.positions[i], f)
    ensures var st' := OnFill(st, f);
      if f.shares == 0 || (i == |st.positions| && 128 <= i) then st' == st
      else
        && |st'.positions| == Max(|st.positions|, i + 1)
        && Entered(st, st', if i < |st.positions| then st.positions[i] else Blank(f), st'.positions[i], f)
        && forall j :: 0 <= j < |st.positions| && j != i ==> st'.positions[j] == st.positions[j]
  {
    i := FirstMatch(st.positions, f);
    if f.shares != 0 && !(i == |st.positions| && 128 <= i) {
      var st1 := st.(positions := WithPosition(st.positions, f));
      EntersAt(st1, i, f);
      EnteredFrom(st, st1, OnFill(st, f), st1.positions[i], OnFill(st, f).positions[i], f);
    }
  }

  lemma EnteredFrom(st: PState, st1: PState, st': PState, p: Position, p': Position, f: Fill)
    requires Entered(st1, st', p, p', f) && st1 == st.(positions := st1.positions)
    ensures Entered(st, st', p, p', f)
  {
  }

  // A portfolio starts with its cash as all it is worth, and nothing counted.
  lemma StartsWithCash(cash: real)
    ensures var st := Init(cash);
      st.initialCash == cash == st.cash && Equity(st) == cash && st.positions == []
      && st.realized == 0.0 == st.unrealized && st.exposure == 0.0
      && st.trades == 0 == st.wins && st.losses == 0
  {
  }

  // --------------------------------------------------------------------------- marks

  // At a new bid if it is of the outcome marked, and at what its shares would bring at its
  // bid over what they cost.
  ghost predicate MarkedTo(p: Position, p': Position, m: nat, isYes: bool, bid: int) {
    p' == p.(bid := if p.marketId == m && p.isYes == isYes then bid else p.bid,
             unrealized := if p.shares == 0 then 0.0 else (p'.bid * p.shares - p.cost) as real / 1000.0)
  }

  // A mark does that to every position, and its total is theirs.
  lemma MarkEnters(st: PState, m: nat, isYes: bool, bid: int)
    ensures var st' := Mark(st, m, isYes, bid);
      |st'.positions| == |st.positions|
      && st' == st.(positions := st'.positions, unrealized := SumUnrealized(st'.positions))
      && forall i :: 0 <= i < |st.positions| ==>
           MarkedTo(st.positions[i], st'.positions[i], m, isYes, bid)
  {
    forall i | 0 <= i < |st.positions|
      ensures MarkedTo(st.positions[i], Marked(st.positions[i], m, isYes, bid), m, isYes, bid)
    {
      OneMarked(st.positions[i], m, isYes, bid);
    }
  }

  lemma OneMarked(p: Position, m: nat, isYes: bool, bid: int)
    ensures MarkedTo(p, Marked(p, m, isYes, bid), m, isYes, bid)
  {
    if 0 < p.shares { WorthAtBid(Marked(p, m, isYes, bid).bid, p.shares, p.cost); }
  }

  lemma WorthAtBid(bid: int, shares: nat, cost: int)
    requires 0 < shares
    ensures (bid as real / 1000.0 - cost as real / shares as real / 1000.0) * shares as real
         == (bid * shares - cost) as real / 1000.0
  {
    var a := cost as real / shares as real;
    assert a * shares as real == cost as real;
    assert (bid * shares) as real == bid as real * shares as real;
  }

  // --------------------------------------------------------------------- settlements

  // A position the settlement of a market pays or clears.
  predicate Due(p: Position, m: nat) {
    p.marketId == m && 0 < p.shares && !p.settled
  }

  // Dollars it earns over its cost.
  function Earned(p: Position, winnerIsYes: bool): real {
    (if p.isYes == winnerIsYes then p.shares as real else 0.0) - p.cost as real / 1000.0
  }

  // Closed for good, or as it was.
  ghost predicate Closes(p: Position, p': Position, m: nat, winnerIsYes: bool) {
    p' == if Due(p, m) then p.(shares := 0, cost := 0, unrealized := 0.0, settled := true,
                               realized := p.realized + Earned(p, winnerIsYes))
          else p
  }

  // Positions due that pay at least, and less than, what they cost.
  function WonIn(ps: seq<Position>, m: nat, winnerIsYes: bool): nat {
    if ps == [] then 0
    else (if Due(ps[0], m) && 0.0 <= Earned(ps[0], winnerIsYes) then 1 else 0) + WonIn(ps[1..], m, winnerIsYes)
  }

  function LostIn(ps: seq<Position>, m: nat, winnerIsYes: bool): nat {
    if ps == [] then 0
    else (if Due(ps[0], m) && Earned(ps[0], winnerIsYes) < 0.0 then 1 else 0) + LostIn(ps[1..], m, winnerIsYes)
  }

  function EarnedIn(ps: seq<Position>, m: nat, winnerIsYes: bool): real {
    if ps == [] then 0.0
    else (if Due(ps[0], m) then Earned(ps[0], winnerIsYes) else 0.0) + EarnedIn(ps[1..], m, winnerIsYes)
  }

  // Exposure after the cost of each position due is taken out in turn, never below zero.
  function ExposedAfter(exposure: real, ps: seq<Position>, m: nat): real
    decreases |ps|
  {
    if ps == [] then exposure
    else
      var left := if Due(ps[0], m) then exposure - ps[0].cost as real / 1000.0 else exposure;
      ExposedAfter(if Due(ps[0], m) && left < 0.0 then 0.0 else left, ps[1..], m)
  }

  // The totals after the settlement of these positions.
  ghost predicate SettlesTotals(st: PState, st': PState, ps: seq<Position>, m: nat, winnerIsYes: bool) {
    && st'.realized == st.realized + EarnedIn(ps, m, winnerIsYes)
    && st'.wins == st.wins + WonIn(ps, m, winnerIsYes) && st'.losses == st.losses + LostIn(ps, m, winnerIsYes)
    && st'.trades == st.trades + WonIn(ps, m, winnerIsYes) + LostIn(ps, m, winnerIsYes)
    && st'.exposure == ExposedAfter(st.exposure, ps, m)
    && st'.initialCash == st.initialCash && st'.unrealized == st.unrealized
  }

  lemma OneSettles(st: PState, i: nat, m: nat, winnerIsYes: bool)
    requires i < |st.positions|
    ensures var st1 := SettledAt(st, i, m, winnerIsYes);
      |st1.positions| == |st.positions| && Closes(st.positions[i], st1.positions[i], m, winnerIsYes)
      && (forall j :: 0 <= j < |st.positions| && j != i ==> st1.positions[j] == st.positions[j])
      && SettlesTotals(st, st1, [st.positions[i]], m, winnerIsYes)
  {
    TotalsOfOne(st, st.positions[i], m, winnerIsYes);
  }

  lemma {:induction false} SettlementFrom(st: PState, i: nat, m: nat, winnerIsYes: bool)
    requires i <= |st.positions|
    ensures var st' := SettleFrom(st, i, m, winnerIsYes);
      |st'.positions| == |st.positions|
      && (forall j :: 0 <= j < i ==> st'.positions[j] == st.positions[j])
      && (forall j :: i <= j < |st.positions| ==> Closes(st.positions[j], st'.positions[j], m, winnerIsYes))
      && SettlesTotals(st, st', st.positions[i..], m, winnerIsYes)
    decreases |st.positions| - i
  {
    if i < |st.positions| {
      var st1 := SettledAt(st, i, m, winnerIsYes);
      OneSettles(st, i, m, winnerIsYes);
      SettlementFrom(st1, i + 1, m, winnerIsYes);
      assert st1.positions[i + 1..] == st.positions[i + 1..];
      TotalsInTwo(st, st1, SettleFrom(st1, i + 1, m, winnerIsYes), st.positions[i..], m, winnerIsYes);
    }
  }

  lemma TotalsOfOne(st: PState, p: Position, m: nat, winnerIsYes: bool)
    ensures EarnedIn([p], m, winnerIsYes) == if Due(p, m) then Earned(p, winnerIsYes) else 0.0
    ensures WonIn([p], m, winnerIsYes) == if Due(p, m) && 0.0 <= Earned(p, winnerIsYes) then 1 else 0
    ensures LostIn([p], m, winnerIsYes) == if Due(p, m) && Earned(p, winnerIsYes) < 0.0 then 1 else 0
    ensures var left := st.exposure - p.cost as real / 1000.0;
      ExposedAfter(st.exposure, [p], m)
        == if !Due(p, m) then st.exposure else if left < 0.0 then 0.0 else left
  {
    assert [p][1..] == [];
  }

  lemma TotalsInTwo(st: PState, st1: PState, st': PState, ps: seq<Position>, m: nat, winnerIsYes: bool)
    requires ps != [] && SettlesTotals(st, st1, [ps[0]], m, winnerIsYes)
    requires SettlesTotals(st1, st', ps[1..], m, winnerIsYes)
    ensures SettlesTotals(st, st', ps, m, winnerIsYes)
  {
    TotalsOfOne(st, ps[0], m, winnerIsYes);
  }

  // A settlement closes every position of its market that is open and not settled, each a
  // trade won when it pays at least its cost.
  lemma SettlementEnters(st: PState, m: nat, winnerIsYes: bool)
    ensures var st' := Settle(st, m, winnerIsYes);
      |st'.positions| == |st.positions|
      && (forall i :: 0 <= i < |st.positions| ==> Closes(st.positions[i], st'.positions[i], m, winnerIsYes))
      && SettlesTotals(st, st', st.positions, m, winnerIsYes)
  {
    SettlementFrom(st, 0, m, winnerIsYes);
    assert st.positions[0..] == st.positions;
  }
}
