// pt_broker: forwards orders and market data to the simulator and records every fill
// callback in the portfolio. Joins the simulator's log to the portfolio's cash.

module Broker {
  import opened Types
  import opened Walk
  import opened OrderBook
  import opened SimQueue
  import opened OrderRuns
  import Portfolio
  import PortfolioLaws

  // on_sim_fill_: what a callback records, under the market of the call.
  function Recorded(marketId: nat, f: FillRec): Portfolio.Fill {
    Portfolio.Fill(marketId, f.order.isYes, f.order.side, f.qty, f.price, f.order.strategy, f.order.signalId)
  }

  function RecordAll(p: Portfolio.PState, marketId: nat, fills: seq<FillRec>): Portfolio.PState {
    if fills == [] then p
    else Portfolio.OnFill(RecordAll(p, marketId, fills[..|fills| - 1]), Recorded(marketId, fills[|fills| - 1]))
  }

  datatype BrokerCfg = BrokerCfg(submitAckMs: real, ackFillMs: real, cancelMs: real, model: int)

  // The simulator's share of the desk's configuration, and what stands in for a missing one.
  function SimCfgOf(given: Option<BrokerCfg>): SimCfg {
    match given
    case None => SimCfg(1.5, 1.0, 1.5, 2)
    case Some(g) => SimCfg(g.submitAckMs, g.ackFillMs, g.cancelMs, if g.model != 0 then g.model else 2)
  }

  // What the desk's simulator runs on: its latencies in nanoseconds and its model, by
  // default one and a half, one, and one and a half milliseconds and the realistic one.
  lemma DeskRunsOn(given: Option<BrokerCfg>)
    ensures given == None ==> Resolved(Some(SimCfgOf(given))) == QueueCfg(1500000, 1000000, 1500000, Realistic)
    ensures given.Some? ==>
      var g, c := given.value, Resolved(Some(SimCfgOf(given)));
      (0.0 <= g.submitAckMs ==> c.netNs as real <= g.submitAckMs * 1000000.0 < c.netNs as real + 1.0)
      && (0.0 <= g.ackFillMs ==> c.procNs as real <= g.ackFillMs * 1000000.0 < c.procNs as real + 1.0)
      && (0.0 <= g.cancelMs ==> c.cancelNs as real <= g.cancelMs * 1000000.0 < c.cancelNs as real + 1.0)
      && (c.model == Conservative <==> g.model == 1) && (c.model == Aggressive <==> g.model == 3)
  {
  }

  class BrokerDesk {
    const sim: Simulator
    const portfolio: Portfolio.PortfolioBook?

    ghost predicate Valid()
      reads this, sim, if portfolio == null then {} else {portfolio}
    {
      sim.Valid() && (portfolio != null ==> portfolio.Valid())
    }

    ghost function Account(): Option<Portfolio.PState>
      requires Valid()
      reads this, sim, if portfolio == null then {} else {portfolio, portfolio.positions}
    {
      if portfolio == null then None else Some(portfolio.State())
    }

    constructor (given: Option<BrokerCfg>, portfolio: Portfolio.PortfolioBook?)
      requires portfolio != null ==> portfolio.Valid()
      ensures Valid() && sim.State() == QInit() && this.portfolio == portfolio
      ensures sim.cfg == Resolved(Some(SimCfgOf(given)))
      ensures Account() == if portfolio == null then None else Some(portfolio.State())
      ensures fresh(sim) && fresh(sim.orders)
    {
      sim := new Simulator(Some(SimCfgOf(given)));
      this.portfolio := portfolio;
    }

    method SubmitLimit(marketId: nat, isYes: bool, side: int, price: int, size: nat, book: Book?,
                       strategy: int, now: nat) returns (oid: nat)
      requires Valid() && (book != null ==> book.Valid())
      modifies sim, sim.orders
      ensures Valid()
      ensures (sim.State(), oid) == Submit(sim.cfg, old(sim.State()),
        Submission(marketId, isYes, side, Limit, price, size, strategy, 0), old(View(book)), now)
    {
      oid := SubmitTyped(Submission(marketId, isYes, side, Limit, price, size, strategy, 0), book, now);
    }

    method SubmitTyped(s: Submission, book: Book?, now: nat) returns (oid: nat)
      requires Valid() && (book != null ==> book.Valid())
      modifies sim, sim.orders
      ensures Valid() && (sim.State(), oid) == Submit(sim.cfg, old(sim.State()), s, old(View(book)), now)
    {
      oid := sim.SubmitOrder(s, book, now);
    }

    method CancelOrder(oid: nat, now: nat) returns (rc: int)
      requires Valid()
      modifies sim, sim.orders
      ensures Valid() && (sim.State(), rc) == Cancel(sim.cfg, old(sim.State()), oid, now)
    {
      rc := sim.CancelOrder(oid, now);
    }

    method OnLevelChange(marketId: nat, isYes: bool, side: int, price: int, oldSize: int, newSize: int, now: nat)
      requires Valid()
      modifies sim, sim.orders
      ensures Valid()
      ensures sim.State() == QStep(sim.cfg, old(sim.State()),
        MarketEv(LevelEv(marketId, isYes, side, price, oldSize, newSize, now))).0
    {
      sim.OnLevelChange(marketId, isYes, side, price, oldSize, newSize, now);
    }

    method OnTrade(marketId: nat, isYes: bool, price: int, size: nat, side: int, now: nat)
      returns (fills: seq<FillRec>)
      requires Valid()
      modifies sim, sim.orders
      modifies if portfolio == null then {} else {portfolio, portfolio.positions}
      ensures Valid()
      ensures (sim.State(), fills) == QStep(sim.cfg, old(sim.State()),
        MarketEv(TradeEv(marketId, isYes, price, size, side, now)))
      ensures Account() == old(RecordedIn(Account(), marketId, fills))
    {
      fills := sim.OnTrade(marketId, isYes, price, size, side, now);
      Record(marketId, fills);
    }

    method Tick(marketId: nat, yes: Book?, no: Book?, now: nat) returns (fills: seq<FillRec>)
      requires Valid() && (yes != null ==> yes.Valid()) && (no != null ==> no.Valid())
      modifies sim, sim.orders
      modifies if portfolio == null then {} else {portfolio, portfolio.positions}
      ensures Valid()
      ensures (sim.State(), fills) == QStep(sim.cfg, old(sim.State()),
        MarketEv(TickEv(marketId, old(View(yes)), old(View(no)), now)))
      ensures Account() == old(RecordedIn(Account(), marketId, fills))
    {
      fills := sim.Tick(marketId, yes, no, now);
      Record(marketId, fills);
    }

    static function RecordedIn(account: Option<Portfolio.PState>, marketId: nat, fills: seq<FillRec>)
      : Option<Portfolio.PState>
    {
      if account == None then None else Some(RecordAll(account.value, marketId, fills))
    }

    // The callbacks of one call, in order.
    method Record(marketId: nat, fills: seq<FillRec>)
      requires Valid()
      modifies if portfolio == null then {} else {portfolio, portfolio.positions}
      ensures Valid() && Account() == old(RecordedIn(Account(), marketId, fills))
    {
      if portfolio == null { return; }
      ghost var was := portfolio.State();
      for i := 0 to |fills|
        invariant portfolio.Valid()
        invariant portfolio.State() == RecordAll(was, marketId, fills[..i])
      {
        assert fills[..i + 1][..i] == fills[..i];
        portfolio.RecordFill(Recorded(marketId, fills[i]));
      }
      assert fills[..|fills|] == fills;
    }
  }

  // ------------------------------------------------------------------ desk-level runs

  // Operations of the desk, with marks and settlements of the shared portfolio.
  datatype BEvent =
    | QueueOp(e: QEvent)
    | MarkOp(marketId: nat, isYes: bool, bid: int)
    | SettleOp(marketId: nat, winnerIsYes: bool)

  datatype BState = BState(q: QState, p: Portfolio.PState, log: seq<FillRec>, payoffs: real)

  function EventMarket(e: QEvent): nat {
    if e.MarketEv? then e.e.marketId else 0
  }

  function BStep(cfg: QueueCfg, b: BState, e: BEvent): BState {
    match e
    case QueueOp(op) =>
      var (q, fills) := QStep(cfg, b.q, op);
      BState(q, RecordAll(b.p, EventMarket(op), fills), b.log + fills, b.payoffs)
    case MarkOp(m, isYes, bid) => b.(p := Portfolio.Mark(b.p, m, isYes, bid))
    case SettleOp(m, winner) =>
      b.(p := Portfolio.Settle(b.p, m, winner),
         payoffs := b.payoffs + PortfolioLaws.OpenShares(b.p.positions, m, winner) as real)
  }

  function BRun(cfg: QueueCfg, cash: real, es: seq<BEvent>): BState {
    if es == [] then BState(QInit(), Portfolio.Init(cash), [], 0.0)
    else BStep(cfg, BRun(cfg, cash, es[..|es| - 1]), es[|es| - 1])
  }

  // Dollars the log's sales bring in less what its purchases cost.
  function NetSales(log: seq<FillRec>): real {
    if log == [] then 0.0
    else
      var f := log[|log| - 1];
      NetSales(log[..|log| - 1]) + (if f.order.side == BID then -Dollars(f.qty * f.price) else Dollars(f.qty * f.price))
  }

  lemma {:induction false} NetSalesConcat(a: seq<FillRec>, b: seq<FillRec>)
    ensures NetSales(a + b) == NetSales(a) + NetSales(b)
  {
    if b == [] {
      assert a + b == a;
    } else {
      var n := |b| - 1;
      assert (a + b)[..|a| + n] == a + b[..n];
      NetSalesConcat(a, b[..n]);
    }
  }

  // A fill is dropped only by a full table; otherwise it moves its notional.
  lemma FillMovesCash(p: Portfolio.PState, f: Portfolio.Fill)
    requires 0 < f.shares
    ensures var p' := Portfolio.OnFill(p, f);
      |p.positions| <= |p'.positions|
      && (|p'.positions| < Portfolio.MAX_POSITIONS ==>
            p'.cash == p.cash + if f.side == BID then -Dollars(f.shares * f.price) else Dollars(f.shares * f.price))
  {
    PortfolioLaws.FillUsdIs(f);
  }

  lemma {:induction false} RecordingMovesCash(p: Portfolio.PState, m: nat, fills: seq<FillRec>)
    requires forall i :: 0 <= i < |fills| ==> GoodFill(fills[i])
    ensures var p' := RecordAll(p, m, fills);
      |p.positions| <= |p'.positions|
      && (|p'.positions| < Portfolio.MAX_POSITIONS ==> p'.cash == p.cash + NetSales(fills))
  {
    if fills != [] {
      var n := |fills| - 1;
      RecordingMovesCash(p, m, fills[..n]);
      FillMovesCash(RecordAll(p, m, fills[..n]), Recorded(m, fills[n]));
    }
  }

  function QueueOps(es: seq<BEvent>): seq<QEvent> {
    if es == [] then []
    else QueueOps(es[..|es| - 1]) + (if es[|es| - 1].QueueOp? then [es[|es| - 1].e] else [])
  }

  // The desk's simulator runs exactly the queue operations among its events.
  lemma {:induction false} DeskRunsQueue(cfg: QueueCfg, cash: real, es: seq<BEvent>)
    ensures var b := BRun(cfg, cash, es); (b.q, b.log) == QRun(cfg, QueueOps(es))
  {
    if es != [] {
      var n := |es| - 1;
      DeskRunsQueue(cfg, cash, es[..n]);
      if es[n].QueueOp? {
        var ops := QueueOps(es[..n]);
        assert (ops + [es[n].e])[..|ops|] == ops;
      } else {
        assert QueueOps(es) == QueueOps(es[..n]);
      }
    }
  }

  // Callbacks agree with orders, and cash with the log, until the table fills up.
  ghost predicate DeskInv(b: BState, cash: real) {
    && SlotsInv(b.q) && LogInv(b.q, b.log) && PortfolioLaws.Inv(b.p)
    && (|b.p.positions| < Portfolio.MAX_POSITIONS ==> b.p.cash == cash + NetSales(b.log) + b.payoffs)
  }

  lemma QueueOpKeepsDesk(cfg: QueueCfg, b: BState, cash: real, op: QEvent)
    requires DeskInv(b, cash)
    requires var (q, fills) := QStep(cfg, b.q, op); SlotsInv(q) && LogInv(q, b.log + fills)
    ensures DeskInv(BStep(cfg, b, QueueOp(op)), cash)
  {
    FillsKeepCash(b, cash, EventMarket(op), QStep(cfg, b.q, op).1, QStep(cfg, b.q, op).0);
  }

  // Logging and recording the same callbacks keeps cash and log in step.
  lemma FillsKeepCash(b: BState, cash: real, m: nat, fills: seq<FillRec>, q: QState)
    requires DeskInv(b, cash) && LogInv(q, b.log + fills)
    ensures var p := RecordAll(b.p, m, fills);
      PortfolioLaws.Inv(p)
      && (|p.positions| < Portfolio.MAX_POSITIONS ==> p.cash == cash + NetSales(b.log + fills) + b.payoffs)
  {
    GoodTail(b.log, fills, q);
    RecordingMovesCash(b.p, m, fills);
    RecordingKeepsInv(b.p, m, fills);
    NetSalesConcat(b.log, fills);
  }

  lemma GoodTail(log: seq<FillRec>, fills: seq<FillRec>, q: QState)
    requires LogInv(q, log + fills)
    ensures forall i :: 0 <= i < |fills| ==> GoodFill(fills[i])
  {
    forall i | 0 <= i < |fills| ensures GoodFill(fills[i]) {
      assert (log + fills)[|log| + i] == fills[i];
    }
  }

  lemma SettleOpKeepsDesk(cfg: QueueCfg, b: BState, cash: real, m: nat, winner: bool)
    requires DeskInv(b, cash)
    ensures DeskInv(BStep(cfg, b, SettleOp(m, winner)), cash)
  {
    PortfolioLaws.StepConserves(b.p, Portfolio.SettleEvent(m, winner));
    PortfolioLaws.SettlementPays(b.p, m, winner);
  }

  // Over any run of the desk: every order's callbacks add up to its filled size and its
  // cumulative cost; and while the position table has not filled up, cash is what it was
  // plus the notional of the log's sales, less that of its purchases, plus settlements.
  lemma {:induction false} DeskConserves(cfg: QueueCfg, cash: real, es: seq<BEvent>)
    ensures DeskInv(BRun(cfg, cash, es), cash)
  {
    DeskRunsQueue(cfg, cash, es);
    RunKeeps(cfg, QueueOps(es));
    if es != [] {
      var n := |es| - 1;
      DeskConserves(cfg, cash, es[..n]);
      var b := BRun(cfg, cash, es[..n]);
      match es[n]
      case QueueOp(op) => QueueOpKeepsDesk(cfg, b, cash, op);
      case MarkOp(m, isYes, bid) => PortfolioLaws.StepConserves(b.p, Portfolio.MarkEvent(m, isYes, bid));
      case SettleOp(m, winner) => SettleOpKeepsDesk(cfg, b, cash, m, winner);
    }
  }

  lemma {:induction false} RecordingKeepsInv(p: Portfolio.PState, m: nat, fills: seq<FillRec>)
    requires PortfolioLaws.Inv(p)
    ensures PortfolioLaws.Inv(RecordAll(p, m, fills))
  {
    if fills != [] {
      RecordingKeepsInv(p, m, fills[..|fills| - 1]);
      PortfolioLaws.FillConserves(RecordAll(p, m, fills[..|fills| - 1]), Recorded(m, fills[|fills| - 1]));
    }
  }
}
