// From an arbitrage estimate to its settlement: the books that are walked, the fills
// that are recorded, the manager's completion and the portfolio's cash agree.

module EndToEnd {
  import opened Arith
  import opened Types
  import opened Walk
  import opened OrderBook
  import opened Arb
  import P = Portfolio
  import opened PortfolioLaws
  import ArbMgr
  import ArbMgrLaws

  // One fill of one leg of a pair.
  datatype LegFill = LegFill(isYes: bool, qty: nat, price: int)

  // The positions a pair's fills are attributed to.
  datatype Account = Account(marketId: nat, strategy: int, signalId: nat) {
    function Buy(f: LegFill): P.Fill {
      P.Fill(marketId, f.isYes, BID, f.qty, f.price, strategy, signalId)
    }
  }

  function Recorded(p: P.PState, a: Account, fs: seq<LegFill>): P.PState {
    if fs == [] then p else P.OnFill(Recorded(p, a, fs[..|fs| - 1]), a.Buy(fs[|fs| - 1]))
  }

  function LegQty(fs: seq<LegFill>, isYes: bool): nat {
    if fs == [] then 0
    else LegQty(fs[..|fs| - 1], isYes) + (if fs[|fs| - 1].isYes == isYes then fs[|fs| - 1].qty else 0)
  }

  function LegNotional(fs: seq<LegFill>, isYes: bool): int {
    if fs == [] then 0
    else
      var f := fs[|fs| - 1];
      LegNotional(fs[..|fs| - 1], isYes) + (if f.isYes == isYes then f.qty * f.price else 0)
  }

  function Paid(fs: seq<LegFill>): int {
    LegNotional(fs, true) + LegNotional(fs, false)
  }

  ghost predicate RealFills(fs: seq<LegFill>) {
    forall i :: 0 <= i < |fs| ==> 0 < fs[i].qty
  }

  // ------------------------------------------------------------- room for both legs

  ghost predicate HasMatch(ps: seq<P.Position>, f: P.Fill) {
    exists i :: 0 <= i < |ps| && P.Matches(ps[i], f)
  }

  function Slot(a: Account, isYes: bool): P.Fill {
    a.Buy(LegFill(isYes, 0, 0))
  }

  // The position table can still open whichever of the two positions it lacks.
  ghost predicate Room(ps: seq<P.Position>, a: Account) {
    |ps| + (if HasMatch(ps, Slot(a, true)) then 0 else 1) + (if HasMatch(ps, Slot(a, false)) then 0 else 1)
      <= P.MAX_POSITIONS
  }

  lemma MatchIsByAccount(p: P.Position, a: Account, f: LegFill)
    ensures P.Matches(p, a.Buy(f)) <==> P.Matches(p, Slot(a, f.isYes))
  {
  }

  lemma FirstMatchFinds(ps: seq<P.Position>, a: Account, f: LegFill)
    ensures P.FirstMatch(ps, a.Buy(f)) < |ps| <==> HasMatch(ps, Slot(a, f.isYes))
  {
    var i := P.FirstMatch(ps, a.Buy(f));
    if i < |ps| {
      MatchIsByAccount(ps[i], a, f);
    } else {
      forall j | 0 <= j < |ps| ensures !P.Matches(ps[j], Slot(a, f.isYes)) {
        MatchIsByAccount(ps[j], a, f);
      }
    }
  }

  // A position bought into stays the account's; the other side's are untouched.
  lemma BoughtKeepsMatches(ps: seq<P.Position>, i: nat, q: P.Position, a: Account, f: LegFill)
    requires i < |ps| && P.Matches(ps[i], a.Buy(f)) && P.Matches(q, a.Buy(f))
    ensures HasMatch(ps[i := q], Slot(a, f.isYes))
    ensures HasMatch(ps[i := q], Slot(a, !f.isYes)) <==> HasMatch(ps, Slot(a, !f.isYes))
  {
    var g := Slot(a, !f.isYes);
    MatchIsByAccount(q, a, f);
    assert P.Matches(ps[i := q][i], Slot(a, f.isYes));
    if HasMatch(ps, g) {
      var j :| 0 <= j < |ps| && P.Matches(ps[j], g);
      assert P.Matches(ps[i := q][j], g);
    }
    if HasMatch(ps[i := q], g) {
      var j :| 0 <= j < |ps| && P.Matches(ps[i := q][j], g);
      assert P.Matches(ps[j], g);
    }
  }

  lemma OpenedKeepsMatches(ps: seq<P.Position>, a: Account, f: LegFill)
    ensures var ps' := ps + [P.Opened(a.Buy(f))];
      HasMatch(ps', Slot(a, f.isYes))
      && (HasMatch(ps', Slot(a, !f.isYes)) <==> HasMatch(ps, Slot(a, !f.isYes)))
  {
    var ps', g := ps + [P.Opened(a.Buy(f))], Slot(a, !f.isYes);
    assert P.Matches(ps'[|ps|], Slot(a, f.isYes));
    if HasMatch(ps, g) {
      var j :| 0 <= j < |ps| && P.Matches(ps[j], g);
      assert P.Matches(ps'[j], g);
    }
    if HasMatch(ps', g) {
      var j :| 0 <= j < |ps'| && P.Matches(ps'[j], g);
      assert P.Matches(ps[j], g);
    }
  }

  lemma OpenSharesOpened(ps: seq<P.Position>, f: P.Fill, m: nat, isYes: bool)
    ensures OpenShares(ps + [P.Opened(f)], m, isYes) == OpenShares(ps, m, isYes)
  {
    assert (ps + [P.Opened(f)])[..|ps|] == ps;
  }

  // --------------------------------------------------------------- what a buy records

  lemma BuyAtRecords(p: P.PState, i: nat, a: Account, f: LegFill)
    requires Inv(p) && i < |p.positions| && P.Matches(p.positions[i], a.Buy(f)) && 0 < f.qty
    ensures var p' := P.FillAt(p, i, a.Buy(f));
      Inv(p') && p'.cash == p.cash - Dollars(f.qty * f.price) && |p'.positions| == |p.positions|
      && OpenShares(p'.positions, a.marketId, f.isYes) == OpenShares(p.positions, a.marketId, f.isYes) + f.qty
      && OpenShares(p'.positions, a.marketId, !f.isYes) == OpenShares(p.positions, a.marketId, !f.isYes)
      && (Room(p.positions, a) ==> Room(p'.positions, a))
  {
    var q := P.FillAt(p, i, a.Buy(f)).positions[i];
    BuyFields(p, i, a.Buy(f));
    FillUsdIs(a.Buy(f));
    BuyStep(p, i, a.Buy(f));
    OpenSharesUpdated(p.positions, i, q, a.marketId, f.isYes);
    OpenSharesUpdated(p.positions, i, q, a.marketId, !f.isYes);
    BoughtKeepsMatches(p.positions, i, q, a, f);
    MatchIsByAccount(p.positions[i], a, f);
    assert HasMatch(p.positions, Slot(a, f.isYes));
  }

  // With room, a leg's fill is never dropped: it costs its notional and adds its shares.
  lemma BuyRecords(p: P.PState, a: Account, f: LegFill)
    requires Inv(p) && Room(p.positions, a) && 0 < f.qty
    ensures var p' := P.OnFill(p, a.Buy(f));
      Inv(p') && Room(p'.positions, a) && p'.cash == p.cash - Dollars(f.qty * f.price)
      && OpenShares(p'.positions, a.marketId, f.isYes) == OpenShares(p.positions, a.marketId, f.isYes) + f.qty
      && OpenShares(p'.positions, a.marketId, !f.isYes) == OpenShares(p.positions, a.marketId, !f.isYes)
  {
    var buy := a.Buy(f);
    FirstMatchFinds(p.positions, a, f);
    var i := P.FirstMatch(p.positions, buy);
    if i == |p.positions| {
      var p1 := p.(positions := p.positions + [P.Opened(buy)]);
      OpenedKeepsMatches(p.positions, a, f);
      OpenSharesOpened(p.positions, buy, a.marketId, f.isYes);
      OpenSharesOpened(p.positions, buy, a.marketId, !f.isYes);
      BuyAtRecords(p1, i, a, f);
    } else {
      BuyAtRecords(p, i, a, f);
    }
  }

  lemma {:induction false} BuysRecord(p: P.PState, a: Account, fs: seq<LegFill>)
    requires Inv(p) && Room(p.positions, a) && RealFills(fs)
    ensures var p' := Recorded(p, a, fs);
      Inv(p') && Room(p'.positions, a) && p'.cash == p.cash - Dollars(Paid(fs))
      && OpenShares(p'.positions, a.marketId, true) == OpenShares(p.positions, a.marketId, true) + LegQty(fs, true)
      && OpenShares(p'.positions, a.marketId, false) == OpenShares(p.positions, a.marketId, false) + LegQty(fs, false)
  {
    if fs != [] {
      var n := |fs| - 1;
      BuysRecord(p, a, fs[..n]);
      BuyRecords(Recorded(p, a, fs[..n]), a, fs[n]);
    }
  }

  // Cash the pair's fills earn by settlement, over what else the market held.
  function PairPnl(p: P.PState, a: Account, fs: seq<LegFill>, winnerIsYes: bool): real {
    P.Settle(Recorded(p, a, fs), a.marketId, winnerIsYes).cash
    - p.cash - OpenShares(p.positions, a.marketId, winnerIsYes) as real
  }

  // A dollar for every share of the winner, less all that was paid.
  lemma WinnersArePaid(p: P.PState, a: Account, fs: seq<LegFill>, winnerIsYes: bool)
    requires Inv(p) && Room(p.positions, a) && RealFills(fs)
    ensures PairPnl(p, a, fs, winnerIsYes) == LegQty(fs, winnerIsYes) as real - Dollars(Paid(fs))
  {
    BuysRecord(p, a, fs);
    SettlementPays(Recorded(p, a, fs), a.marketId, winnerIsYes);
  }

  // As many shares of both outcomes are worth a dollar a pair, whichever side wins.
  lemma PairsPayTheSame(p: P.PState, a: Account, fs: seq<LegFill>, size: nat, winnerIsYes: bool)
    requires Inv(p) && Room(p.positions, a) && RealFills(fs)
    requires LegQty(fs, true) == size == LegQty(fs, false)
    ensures PairPnl(p, a, fs, winnerIsYes) == size as real - Dollars(Paid(fs))
  {
    WinnersArePaid(p, a, fs, winnerIsYes);
  }

  // ---------------------------------------------------- an estimate and its settlement

  // The fills of a leg that takes what the walk takes, level by level.
  function WalkFills(ls: seq<Level>, want: nat, isYes: bool): seq<LegFill> {
    if ls == [] || want == 0 then []
    else
      var take := Min(ls[0].size, want);
      Ahead(LegFill(isYes, take, ls[0].price), WalkFills(ls[1..], want - take, isYes))
  }

  // A fill, if it is of anything, before others.
  function Ahead(f: LegFill, rest: seq<LegFill>): seq<LegFill> {
    if f.qty > 0 then [f] + rest else rest
  }

  lemma AheadAdds(f: LegFill, rest: seq<LegFill>, side: bool)
    ensures LegQty(Ahead(f, rest), side) == LegQty(rest, side) + (if side == f.isYes then f.qty else 0)
    ensures LegNotional(Ahead(f, rest), side)
         == LegNotional(rest, side) + (if side == f.isYes then f.qty * f.price else 0)
  {
    if f.qty > 0 {
      OneLegFill(f, side);
      LegsConcat([f], rest, side);
    }
  }

  lemma {:induction false} LegsConcat(a: seq<LegFill>, b: seq<LegFill>, isYes: bool)
    ensures LegQty(a + b, isYes) == LegQty(a, isYes) + LegQty(b, isYes)
    ensures LegNotional(a + b, isYes) == LegNotional(a, isYes) + LegNotional(b, isYes)
  {
    if b == [] {
      assert a + b == a;
    } else {
      var n := |b| - 1;
      assert (a + b)[..|a| + n] == a + b[..n];
      LegsConcat(a, b[..n], isYes);
    }
  }

  lemma OneLegFill(f: LegFill, side: bool)
    ensures LegQty([f], side) == if f.isYes == side then f.qty else 0
    ensures LegNotional([f], side) == if f.isYes == side then f.qty * f.price else 0
  {
    assert [f][..0] == [];
  }

  lemma {:induction false} WalkFillsAreReal(ls: seq<Level>, want: nat, isYes: bool)
    ensures RealFills(WalkFills(ls, want, isYes))
  {
    if ls != [] && want > 0 { WalkFillsAreReal(ls[1..], want - Min(ls[0].size, want), isYes); }
  }

  // The first level's fill and the rest.
  lemma WalkFillsUnfold(ls: seq<Level>, want: nat, isYes: bool, side: bool)
    requires ls != [] && want > 0
    ensures var take := Min(ls[0].size, want);
      var rest := WalkFills(ls[1..], want - take, isYes);
      LegQty(WalkFills(ls, want, isYes), side) == LegQty(rest, side) + (if side == isYes then take else 0)
      && LegNotional(WalkFills(ls, want, isYes), side)
           == LegNotional(rest, side) + (if side == isYes then ls[0].price * take else 0)
  {
    var take := Min(ls[0].size, want);
    AheadAdds(LegFill(isYes, take, ls[0].price), WalkFills(ls[1..], want - take, isYes), side);
    Commutes(take, ls[0].price);
  }

  lemma {:induction false} WalkFillsQty(ls: seq<Level>, want: nat, isYes: bool, side: bool)
    ensures LegQty(WalkFills(ls, want, isYes), side) == if side == isYes then Filled(ls, want) else 0
  {
    if ls != [] && want > 0 {
      WalkFillsUnfold(ls, want, isYes, side);
      WalkFillsQty(ls[1..], want - Min(ls[0].size, want), isYes, side);
    }
  }

  lemma {:induction false} WalkFillsNotional(ls: seq<Level>, want: nat, isYes: bool, side: bool)
    ensures LegNotional(WalkFills(ls, want, isYes), side) == if side == isYes then Cost(ls, want) else 0
  {
    if ls != [] && want > 0 {
      WalkFillsUnfold(ls, want, isYes, side);
      WalkFillsNotional(ls[1..], want - Min(ls[0].size, want), isYes, side);
      CostUnfolds(ls, want);
    }
  }

  // Truncating an average loses less than a thousandth a share.
  lemma VwapLoses(ls: seq<Level>, size: nat)
    requires 0 < size <= Depth(ls)
    ensures 0 <= Cost(ls, size) - size * Vwap(ls, size) < size
  {
    FloorRemainder(Cost(ls, size), size);
  }

  function PairFills(yes: BookState, no: BookState, size: nat): seq<LegFill> {
    WalkFills(yes.asks, size, true) + WalkFills(no.asks, size, false)
  }

  // Dollars an edge a pair is worth over a size.
  function EdgeUsd(size: nat, edge: real): real {
    size as real * edge
  }

  // A walked pair of this size, settled, against the executable edge of its averages.
  lemma PairAgainstEdge(yes: BookState, no: BookState, size: nat, edge: real)
    requires 0 < size <= Depth(yes.asks) && size <= Depth(no.asks)
    requires edge == 1.0 - (Vwap(yes.asks, size) as real + Vwap(no.asks, size) as real) / 1000.0
    ensures var pnl := size as real - Dollars(Cost(yes.asks, size) + Cost(no.asks, size));
      EdgeUsd(size, edge) - Dollars(2 * size) < pnl <= EdgeUsd(size, edge)
  {
    VwapLoses(yes.asks, size);
    VwapLoses(no.asks, size);
    EdgeInDollars(size, Vwap(yes.asks, size), Vwap(no.asks, size), edge);
    Estimated(size, size * Vwap(yes.asks, size), size * Vwap(no.asks, size),
              Cost(yes.asks, size), Cost(no.asks, size), EdgeUsd(size, edge));
  }

  lemma Estimated(size: nat, gy: int, gn: int, cy: int, cn: int, e: real)
    requires e == size as real - Dollars(gy + gn) && 0 <= cy - gy < size && 0 <= cn - gn < size
    ensures e - Dollars(2 * size) < size as real - Dollars(cy + cn) <= e
  {
  }

  lemma PairSettles(p: P.PState, a: Account, yes: BookState, no: BookState, size: nat, edge: real,
                    winnerIsYes: bool)
    requires Inv(p) && Room(p.positions, a)
    requires 0 < size <= Depth(yes.asks) && size <= Depth(no.asks)
    requires edge == 1.0 - (Vwap(yes.asks, size) as real + Vwap(no.asks, size) as real) / 1000.0
    ensures var pnl := PairPnl(p, a, PairFills(yes, no, size), winnerIsYes);
      pnl == size as real - Dollars(Cost(yes.asks, size) + Cost(no.asks, size))
      && EdgeUsd(size, edge) - Dollars(2 * size) < pnl <= EdgeUsd(size, edge)
  {
    PairFillsAre(yes, no, size);
    PairsPayTheSame(p, a, PairFills(yes, no, size), size, winnerIsYes);
    PairAgainstEdge(yes, no, size, edge);
  }

  // Buying a reported opportunity's size of both legs through the books and settling
  // earns the same whichever side wins: the executable edge a pair, short of it by less
  // than a thousandth a share and leg.
  lemma OpportunitySettles(p: P.PState, a: Account, yes: BookState, no: BookState, cfg: ArbCfg, maxWant: nat,
                           winnerIsYes: bool)
    requires Inv(p) && Room(p.positions, a)
    requires Evaluate(yes, no, cfg, maxWant).1.hasOpportunity
    ensures var o := Evaluate(yes, no, cfg, maxWant).1;
      var pnl := PairPnl(p, a, PairFills(yes, no, o.size), winnerIsYes);
      pnl == o.size as real - Dollars(Cost(yes.asks, o.size) + Cost(no.asks, o.size))
      && EdgeUsd(o.size, o.executableEdge) - Dollars(2 * o.size) < pnl <= EdgeUsd(o.size, o.executableEdge)
  {
    var o := Evaluate(yes, no, cfg, maxWant).1;
    OpportunityFits(yes, no, cfg, maxWant);
    PairSettles(p, a, yes, no, o.size, o.executableEdge, winnerIsYes);
  }

  lemma OpportunityFits(yes: BookState, no: BookState, cfg: ArbCfg, maxWant: nat)
    requires Evaluate(yes, no, cfg, maxWant).1.hasOpportunity
    ensures var o := Evaluate(yes, no, cfg, maxWant).1;
      0 < o.size <= Depth(yes.asks) && o.size <= Depth(no.asks)
      && o.executableEdge == 1.0 - (Vwap(yes.asks, o.size) as real + Vwap(no.asks, o.size) as real) / 1000.0
  {
    OpportunityIsSound(yes, no, cfg, maxWant);
  }

  lemma PairFillsAre(yes: BookState, no: BookState, size: nat)
    requires size <= Depth(yes.asks) && size <= Depth(no.asks)
    ensures var fs := PairFills(yes, no, size);
      RealFills(fs) && LegQty(fs, true) == size == LegQty(fs, false)
      && Paid(fs) == Cost(yes.asks, size) + Cost(no.asks, size)
  {
    forall side: bool
      ensures LegQty(PairFills(yes, no, size), side) == size
      ensures LegNotional(PairFills(yes, no, size), side)
           == if side then Cost(yes.asks, size) else Cost(no.asks, size)
    {
      WalkFillsQty(yes.asks, size, true, side);
      WalkFillsQty(no.asks, size, false, side);
      WalkFillsNotional(yes.asks, size, true, side);
      WalkFillsNotional(no.asks, size, false, side);
      LegsConcat(WalkFills(yes.asks, size, true), WalkFills(no.asks, size, false), side);
    }
    WalkFillsAreReal(yes.asks, size, true);
    WalkFillsAreReal(no.asks, size, false);
  }

  lemma EdgeInDollars(size: nat, ay: int, an: int, edge: real)
    requires edge == 1.0 - (ay as real + an as real) / 1000.0
    ensures EdgeUsd(size, edge) == size as real - Dollars(size * ay + size * an)
  {
    var n, y, m := size as real, ay as real, an as real;
    assert (size * ay) as real == n * y && (size * an) as real == n * m;
    assert n * (1.0 - (y + m) / 1000.0) == n - (n * y + n * m) / 1000.0;
  }

  // ------------------------------------------------- the manager's completion and cash

  // A fill as the manager hears of it: with the books and the clock of the moment.
  datatype LegReport = LegReport(fill: LegFill, books: ArbMgr.Books, now: nat)

  function Legs(rs: seq<LegReport>): (fs: seq<LegFill>)
    ensures |fs| == |rs| && forall j :: 0 <= j < |rs| ==> fs[j] == rs[j].fill
  {
    seq(|rs|, j requires 0 <= j < |rs| => rs[j].fill)
  }

  // An operation and the manager's last answer after these reports.
  function Managed(cfg: ArbMgr.MgrCfg, arb: ArbCfg, op: ArbMgr.Op, i: int, rs: seq<LegReport>)
    : (r: (ArbMgr.Op, ArbMgr.Action))
    requires op.arbId != 0 && op.target > 0
    ensures r.0.arbId == op.arbId && r.0.target == op.target
  {
    if rs == [] then (op, ArbMgr.CLEARED)
    else
      var n := |rs| - 1;
      Reported(cfg, arb, Managed(cfg, arb, op, i, rs[..n]).0, i, rs[n])
  }

  function Reported(cfg: ArbMgr.MgrCfg, arb: ArbCfg, op: ArbMgr.Op, i: int, r: LegReport)
    : (o: (ArbMgr.Op, ArbMgr.Action))
    requires op.arbId != 0 && op.target > 0
    ensures o.0.arbId == op.arbId && o.0.target == op.target
  {
    ArbMgr.OnFill(cfg, arb, op, i, r.books, r.fill.isYes, r.fill.qty, r.fill.price, r.now)
  }

  lemma ReportBooked(cfg: ArbMgr.MgrCfg, arb: ArbCfg, op: ArbMgr.Op, i: int, r: LegReport)
    requires op.arbId != 0 && op.target > 0
    ensures var b := Reported(cfg, arb, op, i, r).0;
      b.yesFilled == op.yesFilled + (if r.fill.isYes then r.fill.qty else 0)
      && b.noFilled == op.noFilled + (if r.fill.isYes then 0 else r.fill.qty)
      && b.yesNotional == op.yesNotional + (if r.fill.isYes then r.fill.qty * r.fill.price else 0)
      && b.noNotional == op.noNotional + (if r.fill.isYes then 0 else r.fill.qty * r.fill.price)
  {
  }

  lemma LegsNext(fs: seq<LegFill>, before: seq<LegFill>, f: LegFill)
    requires fs == before + [f]
    ensures forall side: bool :: LegQty(fs, side) == LegQty(before, side) + (if f.isYes == side then f.qty else 0)
    ensures forall side: bool ::
      LegNotional(fs, side) == LegNotional(before, side) + (if f.isYes == side then f.qty * f.price else 0)
  {
    assert fs[..|before|] == before;
  }

  // Whatever the manager decides in between, its books hold every reported fill.
  lemma {:induction false} ManagedBooks(cfg: ArbMgr.MgrCfg, arb: ArbCfg, op: ArbMgr.Op, i: int, rs: seq<LegReport>)
    requires op.arbId != 0 && op.target > 0
    ensures var b, fs := Managed(cfg, arb, op, i, rs).0, Legs(rs);
      b.yesFilled == op.yesFilled + LegQty(fs, true) && b.noFilled == op.noFilled + LegQty(fs, false)
      && b.yesNotional == op.yesNotional + LegNotional(fs, true)
      && b.noNotional == op.noNotional + LegNotional(fs, false)
  {
    if rs != [] {
      var n := |rs| - 1;
      ManagedBooks(cfg, arb, op, i, rs[..n]);
      ReportBooked(cfg, arb, Managed(cfg, arb, op, i, rs[..n]).0, i, rs[n]);
      LegsNext(Legs(rs), Legs(rs[..n]), rs[n].fill);
    }
  }

  // When the reports of a new operation's fills add up to its target on both legs or pass
  // it, the manager's last answer is that it is complete; and the cash the portfolio earns
  // from the same fills at settlement is the realized PnL it reports, the fees it charged
  // added back, and a dollar for every share of the winner past the target.
  lemma CompletionSettles(cfg: ArbMgr.MgrCfg, arb: ArbCfg, o: Opportunity, id: nat, oid: nat, since: nat, i: int,
                          rs: seq<LegReport>, p: P.PState, a: Account, winnerIsYes: bool)
    requires 0 < id && 0 < o.size && RealFills(Legs(rs))
    requires o.size <= LegQty(Legs(rs), true) && o.size <= LegQty(Legs(rs), false)
    requires Inv(p) && Room(p.positions, a)
    ensures var (op, act) := Managed(cfg, arb, ArbMgr.Opened(o, id, oid, since), i, rs);
      op.target == o.size && op.state == ArbMgr.BothFilled && act.kind == ArbMgr.Complete
      && PairPnl(p, a, Legs(rs), winnerIsYes)
           == act.realizedPnl + ArbMgr.CompletionFees(arb, op) + (LegQty(Legs(rs), winnerIsYes) - o.size) as real
  {
    var n, start := |rs| - 1, ArbMgr.Opened(o, id, oid, since);
    var r := rs[n];
    ManagedBooks(cfg, arb, start, i, rs);
    ArbMgrLaws.CompletionIsSettlement(cfg, arb, Managed(cfg, arb, start, i, rs[..n]).0, i, r.books,
                                      r.fill.isYes, r.fill.qty, r.fill.price, r.now);
    WinnersArePaid(p, a, Legs(rs), winnerIsYes);
  }

  // So a leg filled past the target earns more than was reported, if it wins: here YES.
  lemma OverfillIsLeftOut(cfg: ArbMgr.MgrCfg, arb: ArbCfg, o: Opportunity, id: nat, oid: nat, since: nat, i: int,
                          rs: seq<LegReport>, extra: nat, p: P.PState, a: Account)
    requires 0 < id && 0 < o.size && 0 < extra && |rs| == 2
    requires rs[0].fill.isYes && !rs[1].fill.isYes && rs[0].fill.qty == o.size + extra && rs[1].fill.qty == o.size
    requires Inv(p) && Room(p.positions, a)
    ensures var (op, act) := Managed(cfg, arb, ArbMgr.Opened(o, id, oid, since), i, rs);
      act.kind == ArbMgr.Complete && ArbMgrLaws.Finished(op) && ArbMgrLaws.Legs(op) == extra
      && PairPnl(p, a, Legs(rs), true) == act.realizedPnl + ArbMgr.CompletionFees(arb, op) + extra as real
      && PairPnl(p, a, Legs(rs), false) == act.realizedPnl + ArbMgr.CompletionFees(arb, op)
  {
    var y, n := rs[0].fill, rs[1].fill;
    assert Legs(rs) == [y] + [n];
    forall side: bool ensures LegQty(Legs(rs), side) == if side then o.size + extra else o.size {
      LegsConcat([y], [n], side);
      OneLegFill(y, side);
      OneLegFill(n, side);
    }
    ManagedBooks(cfg, arb, ArbMgr.Opened(o, id, oid, since), i, rs);
    CompletionSettles(cfg, arb, o, id, oid, since, i, rs, p, a, true);
    CompletionSettles(cfg, arb, o, id, oid, since, i, rs, p, a, false);
  }
}
