// An opportunity traded through the desk: two taker orders, their arrival, the tick that
// fills them, the portfolio and the settlement, after anything the desk did before.

module DeskTrade {
  import opened Types
  import opened Walk
  import opened OrderBook
  import opened SimQueue
  import opened OrderRuns
  import A = Arb
  import B = Broker
  import E = EndToEnd
  import P = Portfolio
  import L = PortfolioLaws

  predicate Taker(t: OrderType) {
    t == Market || t == Ioc
  }

  // A buy of one leg on the account's behalf.
  function LegOrder(a: E.Account, isYes: bool, t: OrderType, price: int, size: nat): Submission {
    Submission(a.marketId, isYes, BID, t, price, size, a.strategy, a.signalId)
  }

  // Such an order, at the matching engine and not looked at yet.
  ghost predicate Due(o: Order, a: E.Account, isYes: bool, size: nat, now: nat) {
    && o.marketId == a.marketId && o.isYes == isYes && o.side == BID
    && o.strategy == a.strategy && o.signalId == a.signalId
    && Taker(o.otype) && o.state == PendingSubmit && o.arrivalT <= now
    && o.remaining == size && o.filled == 0 && o.cumCost == 0
  }

  // What the leg's one callback says.
  function LegOf(book: BookState, isYes: bool, size: nat): E.LegFill {
    E.LegFill(isYes, size, Vwap(book.asks, size))
  }

  lemma LegFillsAtOnce(o: Order, a: E.Account, isYes: bool, size: nat, yes: BookState, no: BookState, now: nat)
    requires Due(o, a, isYes, size, now)
    requires 0 < size <= Depth((if isYes then yes else no).asks)
    ensures var (o', fills) := TickStep(o, a.marketId, Some(yes), Some(no), now);
      o'.state == FullyFilled && |fills| == 1
      && B.Recorded(a.marketId, fills[0]) == a.Buy(LegOf(if isYes then yes else no, isYes, size))
  {
    var book := if isYes then yes else no;
    assert book.WalkOrder(Opposite(BID)) == book.asks;
  }

  lemma TwoCallbacks(p: P.PState, a: E.Account, fills: seq<FillRec>, legs: seq<E.LegFill>)
    requires |fills| == 2 == |legs|
    requires forall i :: 0 <= i < 2 ==> B.Recorded(a.marketId, fills[i]) == a.Buy(legs[i])
    ensures B.RecordAll(p, a.marketId, fills) == E.Recorded(p, a, legs)
  {
    assert fills[..1][..0] == [] && legs[..1][..0] == [];
    assert B.RecordAll(p, a.marketId, fills[..1]) == E.Recorded(p, a, legs[..1]);
  }

  function PairOf(yes: BookState, no: BookState, size: nat): seq<E.LegFill> {
    [LegOf(yes, true, size), LegOf(no, false, size)]
  }

  // The simulator charges truncated averages, so a simulated pair earns its executable
  // edge to the thousandth.
  lemma PairEarnsEdge(p: P.PState, a: E.Account, yes: BookState, no: BookState, size: nat, edge: real,
                      winnerIsYes: bool)
    requires L.Inv(p) && E.Room(p.positions, a) && 0 < size
    requires edge == 1.0 - (Vwap(yes.asks, size) as real + Vwap(no.asks, size) as real) / 1000.0
    ensures E.PairPnl(p, a, PairOf(yes, no, size), winnerIsYes) == E.EdgeUsd(size, edge)
  {
    var y, n := LegOf(yes, true, size), LegOf(no, false, size);
    assert [y, n] == [y] + [n];
    forall side: bool
      ensures E.LegQty([y, n], side) == size
      ensures E.LegNotional([y, n], side) == if side then size * y.price else size * n.price
    {
      E.LegsConcat([y], [n], side);
      E.OneLegFill(y, side);
      E.OneLegFill(n, side);
    }
    E.PairsPayTheSame(p, a, [y, n], size, winnerIsYes);
    E.EdgeInDollars(size, y.price, n.price, edge);
  }

  // ------------------------------------------------------------------ the order table

  // A slot with no open order of a market.
  ghost predicate Idle(o: Order, m: nat) {
    o.marketId == m ==> o.Reusable()
  }

  ghost predicate IdleFrom(os: seq<Order>, m: nat, lo: nat, hi: nat)
    requires hi <= |os|
  {
    forall k :: lo <= k < hi ==> Idle(os[k], m)
  }

  // Of a market no order is open, but perhaps those in two slots.
  ghost predicate QuietBut(os: seq<Order>, m: nat, i: nat, j: nat) {
    forall k :: 0 <= k < |os| && k != i && k != j ==> Idle(os[k], m)
  }

  // Slots from lo up to hi call nothing back.
  ghost predicate Quiet(model: QueueModel, os: seq<Order>, e: MarketEvent, lo: nat, hi: nat)
    requires lo <= hi <= |os|
  {
    AllFills(model, os[..hi], e) == AllFills(model, os[..lo], e)
  }

  lemma IdleAddsNothing(model: QueueModel, os: seq<Order>, e: MarketEvent, lo: nat, n: nat)
    requires e.TickEv? && lo <= n < |os| && Idle(os[n], e.marketId) && Quiet(model, os, e, lo, n)
    ensures Quiet(model, os, e, lo, n + 1)
  {
    AllFillsNext(model, os, n, e);
    assert OrderStep(model, os[n], e).1 == [];
  }

  lemma {:induction false} IdleSlots(model: QueueModel, os: seq<Order>, e: MarketEvent, lo: nat, hi: nat)
    requires e.TickEv? && lo <= hi <= |os| && IdleFrom(os, e.marketId, lo, hi)
    ensures Quiet(model, os, e, lo, hi)
  {
    if lo < hi {
      IdleSlots(model, os, e, lo, hi - 1);
      IdleAddsNothing(model, os, e, lo, hi - 1);
    }
  }

  // The one callback of a leg's slot, and what the tick does to it.
  lemma LegAdds(model: QueueModel, os: seq<Order>, e: MarketEvent, i: nat, a: E.Account, isYes: bool, size: nat)
    returns (f: FillRec)
    requires e.TickEv? && e.yes.Some? && e.no.Some? && e.marketId == a.marketId
    requires i < |os| && Due(os[i], a, isYes, size, e.now)
    requires 0 < size <= Depth((if isYes then e.yes else e.no).value.asks)
    ensures AllFills(model, os[..i + 1], e) == AllFills(model, os[..i], e) + [f]
    ensures B.Recorded(a.marketId, f) == a.Buy(LegOf((if isYes then e.yes else e.no).value, isYes, size))
  {
    AllFillsNext(model, os, i, e);
    LegFillsAtOnce(os[i], a, isYes, size, e.yes.value, e.no.value, e.now);
    f := OrderStep(model, os[i], e).1[0];
    assert OrderStep(model, os[i], e).1 == [f];
  }

  // The leg's slot after idle ones.
  lemma LegAfterIdle(model: QueueModel, os: seq<Order>, e: MarketEvent, lo: nat, i: nat, a: E.Account, isYes: bool,
                     size: nat)
    returns (f: FillRec)
    requires e.TickEv? && e.yes.Some? && e.no.Some? && e.marketId == a.marketId
    requires lo <= i < |os| && IdleFrom(os, a.marketId, lo, i) && Due(os[i], a, isYes, size, e.now)
    requires 0 < size <= Depth((if isYes then e.yes else e.no).value.asks)
    ensures AllFills(model, os[..i + 1], e) == AllFills(model, os[..lo], e) + [f]
    ensures B.Recorded(a.marketId, f) == a.Buy(LegOf((if isYes then e.yes else e.no).value, isYes, size))
  {
    IdleSlots(model, os, e, lo, i);
    f := LegAdds(model, os, e, i, a, isYes, size);
  }

  lemma IdleToTheEnd(model: QueueModel, os: seq<Order>, e: MarketEvent, j: nat)
    requires e.TickEv? && j < |os| && IdleFrom(os, e.marketId, j + 1, |os|)
    ensures AllFills(model, os, e) == AllFills(model, os[..j + 1], e)
  {
    IdleSlots(model, os, e, j + 1, |os|);
    assert os[..|os|] == os;
  }

  // A tick's callbacks are those of the two slots.
  lemma PairAdds(model: QueueModel, os: seq<Order>, e: MarketEvent, i: nat, j: nat, a: E.Account, size: nat)
    returns (f: FillRec, g: FillRec)
    requires e.TickEv? && e.yes.Some? && e.no.Some? && e.marketId == a.marketId
    requires i < j < |os| && QuietBut(os, a.marketId, i, j)
    requires Due(os[i], a, true, size, e.now) && Due(os[j], a, false, size, e.now)
    requires 0 < size <= Depth(e.yes.value.asks) && size <= Depth(e.no.value.asks)
    ensures AllFills(model, os, e) == [f] + [g]
    ensures B.Recorded(a.marketId, f) == a.Buy(LegOf(e.yes.value, true, size))
    ensures B.Recorded(a.marketId, g) == a.Buy(LegOf(e.no.value, false, size))
  {
    f := LegAfterIdle(model, os, e, 0, i, a, true, size);
    g := LegAfterIdle(model, os, e, i + 1, j, a, false, size);
    IdleToTheEnd(model, os, e, j);
    assert os[..0] == [];
  }

  // What a submit that finds a slot does to the table.
  lemma SubmitTakes(cfg: QueueCfg, q: QState, s: Submission, book: Option<BookState>, now: nat, free: nat)
    returns (i: nat)
    requires 0 < s.size && 0 < s.price && free < |q.orders| && q.orders[free].Reusable()
    ensures i <= free && q.orders[i].Reusable()
    ensures Submit(cfg, q, s, book, now).0.orders
         == q.orders[i := NewOrder(cfg, s, q.nextOid, QueueAtSubmit(s, book), now)]
    ensures forall k :: 0 <= k < i ==> !q.orders[k].Reusable()
  {
    i := FirstReusable(q.orders);
  }

  // Two submissions of an account's legs.
  function Submitted(cfg: QueueCfg, q: QState, ty: OrderType, tn: OrderType, a: E.Account, size: nat,
                     py: int, pn: int, yes: Option<BookState>, no: Option<BookState>, ts: nat): QState
  {
    var q1 := Submit(cfg, q, LegOrder(a, true, ty, py, size), yes, ts).0;
    Submit(cfg, q1, LegOrder(a, false, tn, pn, size), no, ts).0
  }

  // With two reusable slots both are taken, and no other slot is touched.
  lemma BothSubmitted(cfg: QueueCfg, q: QState, ty: OrderType, tn: OrderType, a: E.Account, size: nat,
                      py: int, pn: int, yes: Option<BookState>, no: Option<BookState>, ts: nat, now: nat,
                      free0: nat, free1: nat)
    returns (i: nat, j: nat)
    requires Taker(ty) && Taker(tn) && 0 < size && 0 < py && 0 < pn && ts + cfg.netNs + cfg.procNs <= now
    requires free0 < free1 < |q.orders| && q.orders[free0].Reusable() && q.orders[free1].Reusable()
    ensures var os := Submitted(cfg, q, ty, tn, a, size, py, pn, yes, no, ts).orders;
      |os| == |q.orders| && i < j < |os| && Due(os[i], a, true, size, now) && Due(os[j], a, false, size, now)
      && forall k :: 0 <= k < |os| && k != i && k != j ==> os[k] == q.orders[k]
  {
    var q1 := Submit(cfg, q, LegOrder(a, true, ty, py, size), yes, ts).0;
    i := SubmitTakes(cfg, q, LegOrder(a, true, ty, py, size), yes, ts, free0);
    j := SubmitTakes(cfg, q1, LegOrder(a, false, tn, pn, size), no, ts, free1);
  }

  lemma StaysQuiet(os: seq<Order>, os': seq<Order>, m: nat, i: nat, j: nat)
    requires |os'| == |os| && IdleFrom(os, m, 0, |os|)
    requires forall k :: 0 <= k < |os| && k != i && k != j ==> os'[k] == os[k]
    ensures QuietBut(os', m, i, j)
  {
  }

  // The whole trade: an opportunity submitted as two taker buys, filled by the first tick
  // after their arrival on the books it was found in, and settled.
  function Trade(a: E.Account, ty: OrderType, tn: OrderType, size: nat, py: int, pn: int, yes: BookState,
                 no: BookState, ts: nat, now: nat, winnerIsYes: bool): seq<B.BEvent>
  {
    [B.QueueOp(SubmitEv(LegOrder(a, true, ty, py, size), Some(yes), ts)),
     B.QueueOp(SubmitEv(LegOrder(a, false, tn, pn, size), Some(no), ts)),
     B.QueueOp(MarketEv(TickEv(a.marketId, Some(yes), Some(no), now))),
     B.SettleOp(a.marketId, winnerIsYes)]
  }

  lemma OneMoreOp(cfg: QueueCfg, cash: real, es: seq<B.BEvent>, e: B.BEvent) returns (b: B.BState)
    ensures b == B.BRun(cfg, cash, es + [e]) == B.BStep(cfg, B.BRun(cfg, cash, es), e)
  {
    assert (es + [e])[..|es|] == es;
    b := B.BStep(cfg, B.BRun(cfg, cash, es), e);
  }

  // What the desk holds after a trade.
  lemma TradeRuns(cfg: QueueCfg, cash: real, es: seq<B.BEvent>, trade: seq<B.BEvent>, m: nat, winnerIsYes: bool,
                  s1: QEvent, s2: QEvent, tick: QEvent)
    requires trade == [B.QueueOp(s1), B.QueueOp(s2), B.QueueOp(tick), B.SettleOp(m, winnerIsYes)]
    requires s1.SubmitEv? && s2.SubmitEv? && tick.MarketEv? && tick.e.marketId == m
    ensures var b := B.BRun(cfg, cash, es);
      var q2 := QStep(cfg, QStep(cfg, b.q, s1).0, s2).0;
      B.BRun(cfg, cash, es + trade).p == P.Settle(B.RecordAll(b.p, m, QStep(cfg, q2, tick).1), m, winnerIsYes)
  {
    var e1, e2, e3 := es + [trade[0]], es + [trade[0]] + [trade[1]], es + [trade[0]] + [trade[1]] + [trade[2]];
    var b1 := OneMoreOp(cfg, cash, es, trade[0]);
    var b2 := OneMoreOp(cfg, cash, e1, trade[1]);
    var b3 := OneMoreOp(cfg, cash, e2, trade[2]);
    var b4 := OneMoreOp(cfg, cash, e3, trade[3]);
    assert e3 + [trade[3]] == es + trade;
  }

  // The tick's callbacks, and the portfolio that records them.
  lemma PairTicked(cfg: QueueCfg, q: QState, p: P.PState, a: E.Account, yes: BookState, no: BookState, size: nat,
                   now: nat, i: nat, j: nat)
    returns (fills: seq<FillRec>)
    requires i < j < |q.orders| && QuietBut(q.orders, a.marketId, i, j)
    requires Due(q.orders[i], a, true, size, now) && Due(q.orders[j], a, false, size, now)
    requires 0 < size <= Depth(yes.asks) && size <= Depth(no.asks)
    ensures fills == QStep(cfg, q, MarketEv(TickEv(a.marketId, Some(yes), Some(no), now))).1
    ensures B.RecordAll(p, a.marketId, fills) == E.Recorded(p, a, PairOf(yes, no, size))
  {
    var f, g := PairAdds(cfg.model, q.orders, TickEv(a.marketId, Some(yes), Some(no), now), i, j, a, size);
    fills := [f] + [g];
    TwoCallbacks(p, a, fills, PairOf(yes, no, size));
  }

  // The two submissions and the tick.
  lemma PairIsRecorded(cfg: QueueCfg, q: QState, p: P.PState, a: E.Account, yes: BookState, no: BookState,
                       ty: OrderType, tn: OrderType, size: nat, py: int, pn: int, ts: nat, now: nat,
                       free0: nat, free1: nat)
    returns (fills: seq<FillRec>)
    requires 0 < size <= Depth(yes.asks) && size <= Depth(no.asks)
    requires Taker(ty) && Taker(tn) && 0 < py && 0 < pn && ts + cfg.netNs + cfg.procNs <= now
    requires free0 < free1 < |q.orders| && q.orders[free0].Reusable() && q.orders[free1].Reusable()
    requires IdleFrom(q.orders, a.marketId, 0, |q.orders|)
    ensures fills == QStep(cfg, Submitted(cfg, q, ty, tn, a, size, py, pn, Some(yes), Some(no), ts),
                           MarketEv(TickEv(a.marketId, Some(yes), Some(no), now))).1
    ensures B.RecordAll(p, a.marketId, fills) == E.Recorded(p, a, PairOf(yes, no, size))
  {
    var q' := Submitted(cfg, q, ty, tn, a, size, py, pn, Some(yes), Some(no), ts);
    var i, j := BothSubmitted(cfg, q, ty, tn, a, size, py, pn, Some(yes), Some(no), ts, now, free0, free1);
    StaysQuiet(q.orders, q'.orders, a.marketId, i, j);
    fills := PairTicked(cfg, q', p, a, yes, no, size, now, i, j);
  }

  // From any state of simulator and portfolio with room for both.
  lemma TradeEarnsEdge(cfg: QueueCfg, arb: A.ArbCfg, yes: BookState, no: BookState, maxWant: nat, q: QState,
                       p: P.PState, a: E.Account, ty: OrderType, tn: OrderType, py: int, pn: int, ts: nat,
                       now: nat, winnerIsYes: bool, free0: nat, free1: nat)
    returns (fills: seq<FillRec>)
    requires A.Evaluate(yes, no, arb, maxWant).1.hasOpportunity
    requires Taker(ty) && Taker(tn) && 0 < py && 0 < pn && ts + cfg.netNs + cfg.procNs <= now
    requires L.Inv(p) && E.Room(p.positions, a)
    requires free0 < free1 < |q.orders| && q.orders[free0].Reusable() && q.orders[free1].Reusable()
    requires IdleFrom(q.orders, a.marketId, 0, |q.orders|)
    ensures var size := A.Evaluate(yes, no, arb, maxWant).1.size;
      fills == QStep(cfg, Submitted(cfg, q, ty, tn, a, size, py, pn, Some(yes), Some(no), ts),
                     MarketEv(TickEv(a.marketId, Some(yes), Some(no), now))).1
    ensures var o := A.Evaluate(yes, no, arb, maxWant).1;
      P.Settle(B.RecordAll(p, a.marketId, fills), a.marketId, winnerIsYes).cash
        == p.cash + L.OpenShares(p.positions, a.marketId, winnerIsYes) as real + E.EdgeUsd(o.size, o.executableEdge)
  {
    var o := A.Evaluate(yes, no, arb, maxWant).1;
    E.OpportunityFits(yes, no, arb, maxWant);
    fills := PairIsRecorded(cfg, q, p, a, yes, no, ty, tn, o.size, py, pn, ts, now, free0, free1);
    PairEarnsEdge(p, a, yes, no, o.size, o.executableEdge, winnerIsYes);
  }

  // After any run of the desk, with two reusable slots, room for the account's positions
  // and no other open order of the market, and whatever the latencies: an opportunity
  // found in two books and traded on them ends with its executable edge on every pair in
  // cash, whoever wins, over what the market's earlier positions pay.
  lemma DeskEarnsEdge(cfg: QueueCfg, arb: A.ArbCfg, yes: BookState, no: BookState, maxWant: nat, cash: real,
                      es: seq<B.BEvent>, a: E.Account, ty: OrderType, tn: OrderType, py: int, pn: int,
                      ts: nat, now: nat, winnerIsYes: bool, free0: nat, free1: nat)
    requires A.Evaluate(yes, no, arb, maxWant).1.hasOpportunity
    requires Taker(ty) && Taker(tn) && 0 < py && 0 < pn && ts + cfg.netNs + cfg.procNs <= now
    requires var b := B.BRun(cfg, cash, es);
      free0 < free1 < |b.q.orders| && b.q.orders[free0].Reusable() && b.q.orders[free1].Reusable()
      && IdleFrom(b.q.orders, a.marketId, 0, |b.q.orders|) && E.Room(b.p.positions, a)
    ensures var o, b := A.Evaluate(yes, no, arb, maxWant).1, B.BRun(cfg, cash, es);
      B.BRun(cfg, cash, es + Trade(a, ty, tn, o.size, py, pn, yes, no, ts, now, winnerIsYes)).p.cash
        == b.p.cash + L.OpenShares(b.p.positions, a.marketId, winnerIsYes) as real
           + E.EdgeUsd(o.size, o.executableEdge)
  {
    var size := A.Evaluate(yes, no, arb, maxWant).1.size;
    B.DeskConserves(cfg, cash, es);
    var b := B.BRun(cfg, cash, es);
    var fills := TradeEarnsEdge(cfg, arb, yes, no, maxWant, b.q, b.p, a, ty, tn, py, pn, ts, now, winnerIsYes,
                                free0, free1);
    TradeRuns(cfg, cash, es, Trade(a, ty, tn, size, py, pn, yes, no, ts, now, winnerIsYes), a.marketId, winnerIsYes,
              SubmitEv(LegOrder(a, true, ty, py, size), Some(yes), ts),
              SubmitEv(LegOrder(a, false, tn, pn, size), Some(no), ts),
              MarketEv(TickEv(a.marketId, Some(yes), Some(no), now)));
  }

  // A fresh desk is such a desk.
  lemma FreshDeskEarnsEdge(cfg: QueueCfg, arb: A.ArbCfg, yes: BookState, no: BookState, maxWant: nat, cash: real,
                           a: E.Account, ty: OrderType, tn: OrderType, py: int, pn: int, ts: nat, now: nat,
                           winnerIsYes: bool)
    requires A.Evaluate(yes, no, arb, maxWant).1.hasOpportunity
    requires Taker(ty) && Taker(tn) && 0 < py && 0 < pn && ts + cfg.netNs + cfg.procNs <= now
    ensures var o := A.Evaluate(yes, no, arb, maxWant).1;
      var b := B.BRun(cfg, cash, Trade(a, ty, tn, o.size, py, pn, yes, no, ts, now, winnerIsYes));
      b.p.cash == cash + E.EdgeUsd(o.size, o.executableEdge)
  {
    var o := A.Evaluate(yes, no, arb, maxWant).1;
    var trade := Trade(a, ty, tn, o.size, py, pn, yes, no, ts, now, winnerIsYes);
    DeskEarnsEdge(cfg, arb, yes, no, maxWant, cash, [], a, ty, tn, py, pn, ts, now, winnerIsYes, 0, 1);
    assert [] + trade == trade;
  }
}
