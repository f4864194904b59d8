// What every run of submits, cancels, trades, level changes and ticks keeps: the
// order state machine, the identities of orders, and the log of fill callbacks.

module OrderRuns {
  import opened Types
  import opened OrderBook
  import opened SimQueue

  predicate Terminal(o: Order) {
    o.state == FullyFilled || o.state == Cancelled
  }

  // The state machine's invariant for one slot.
  ghost predicate OrderInv(o: Order) {
    || o == BLANK
    || (&& FIRST_OID <= o.id && 0 < o.original && 0 < o.price && o.submitT <= o.arrivalT
        && o.filled + o.remaining == o.original
        && (o.Working() || o.state == PendingSubmit || Terminal(o))
        && (o.state == FullyFilled <==> o.remaining == 0)
        && (o.state == Partial ==> 0 < o.filled < o.original)
        && (o.state == Live || o.state == PendingSubmit ==> o.filled == 0)
        && o.initialQueue == o.queueAhead + o.consumed + o.cancelled
        && o.queueAfterUpdates == o.queueAhead
        && o.avgFillPrice == if o.filled > 0 then o.cumCost / o.filled else 0)
  }

  // What an order keeps from submission to slot reuse.
  ghost predicate SameIdentity(o: Order, o': Order) {
    && o'.id == o.id && o'.signalId == o.signalId && o'.marketId == o.marketId && o'.isYes == o.isYes
    && o'.side == o.side && o'.otype == o.otype && o'.price == o.price && o'.original == o.original
    && o'.strategy == o.strategy && o'.initialQueue == o.initialQueue
    && o'.submitT == o.submitT && o'.arrivalT == o.arrivalT
  }

  function QtyOf(fills: seq<FillRec>, id: nat): nat {
    if fills == [] then 0
    else
      var f := fills[|fills| - 1];
      QtyOf(fills[..|fills| - 1], id) + (if f.order.id == id then f.qty else 0)
  }

  // Scaled notional of an order's callbacks.
  function NotionalOf(fills: seq<FillRec>, id: nat): int {
    if fills == [] then 0
    else
      var f := fills[|fills| - 1];
      NotionalOf(fills[..|fills| - 1], id) + (if f.order.id == id then f.qty * f.price else 0)
  }

  // A callback reports a real fill of an order already at the matching engine.
  ghost predicate GoodFill(f: FillRec) {
    0 < f.qty && f.order.arrivalT <= f.now
  }

  // ---------------------------------------------------------------- one order, one event

  // An order after an event, together with its callbacks for that event.
  ghost predicate GoodStep(o: Order, o': Order, fills: seq<FillRec>) {
    && OrderInv(o') && SameIdentity(o, o')
    && (Terminal(o) || o == BLANK ==> o' == o && fills == [])
    && (fills == [] ==> o'.filled == o.filled && o'.cumCost == o.cumCost)
    && (fills != [] ==>
          (&& |fills| == 1 && GoodFill(fills[0]) && SameIdentity(o, fills[0].order)
           && o'.filled == o.filled + fills[0].qty
           && o'.cumCost == o.cumCost + fills[0].qty * fills[0].price))
  }

  lemma FillGood(o: Order, qty: nat, price: int, now: nat)
    requires OrderInv(o) && o.Working() && 0 < qty <= o.remaining && o.arrivalT <= now
    ensures var o' := Rested(Taken(o, qty, price, now)); GoodStep(o, o', [FillRec(o', qty, price, now)])
  {
  }

  lemma HitByGood(o: Order, size: nat, now: nat)
    requires OrderInv(o) && o.Working() && o.arrivalT <= now
    ensures var (o', fills) := HitBy(o, size, now); GoodStep(o, o', fills)
  {
    if o.queueAhead < size {
      var o1 := o.(queueAhead := 0, consumed := o.consumed + o.queueAhead, queueAfterUpdates := 0);
      var qty := Min(size - o.queueAhead, o.remaining);
      FillGood(o1, qty, o.price, now);
    }
  }

  lemma TradeStepGood(o: Order, m: nat, y: bool, price: int, size: nat, side: int, now: nat)
    requires OrderInv(o)
    ensures var (o', fills) := TradeStep(o, m, y, price, size, side, now); GoodStep(o, o', fills)
  {
    var o1 := o.Arrived(now);
    if o1.Working() && o1.arrivalT <= now {
      HitByGood(o1, size, now);
    }
  }

  lemma LevelStepGood(model: QueueModel, o: Order, m: nat, y: bool, side: int, price: int,
                      oldSize: int, newSize: int, now: nat)
    requires OrderInv(o)
    ensures GoodStep(o, LevelStep(model, o, m, y, side, price, oldSize, newSize, now), [])
  {
  }

  lemma MarketFillGood(o: Order, book: BookState, now: nat)
    requires OrderInv(o) && o.Working() && o.arrivalT <= now
    ensures var (o', fills) := MarketFill(o, book, now); GoodStep(o, o', fills)
  {
  }

  lemma SweepFillGood(o: Order, book: BookState, now: nat)
    requires OrderInv(o) && o.Working() && o.arrivalT <= now && Swept(o, book)
    ensures var (o', fills) := SweepFill(o, book, now); GoodStep(o, o', fills)
  {
    var qty := SweepQty(o, book);
    if qty > 0 { FillGood(o, qty, SweepPrice(o, book), now); }
  }

  lemma BookStepGood(o: Order, book: BookState, now: nat)
    requires OrderInv(o) && o.Working() && o.arrivalT <= now
    ensures var (o', fills) := BookStep(o, book, now); GoodStep(o, o', fills)
  {
    if o.otype == Market || o.otype == Ioc {
      MarketFillGood(o, book, now);
    } else if Swept(o, book) {
      SweepFillGood(o, book, now);
    }
  }

  // A tick makes a submitted order live on its arrival.
  function LiveNow(o: Order, now: nat): Order {
    if o.state == PendingSubmit && now >= o.arrivalT then o.(state := Live, lastUpdateT := now) else o
  }

  lemma ArrivalGood(o: Order, now: nat)
    requires OrderInv(o)
    ensures GoodStep(o, LiveNow(o, now), []) && OrderInv(LiveNow(o, now))
  {
  }

  // What a step does to an order that was made live is a step of the order.
  lemma GoodAfterArrival(o: Order, now: nat, o': Order, fills: seq<FillRec>)
    requires OrderInv(o) && GoodStep(LiveNow(o, now), o', fills)
    ensures GoodStep(o, o', fills)
  {
  }

  lemma AckGood(o: Order, now: nat)
    requires OrderInv(o) && o.state == PendingCancel
    ensures GoodStep(o, o.(state := Cancelled, lastUpdateT := now), [])
  {
  }

  lemma LiveStepGood(o: Order, book: BookState, now: nat)
    requires OrderInv(o) && LiveNow(o, now).Working() && o.arrivalT <= now
    ensures var (o', fills) := BookStep(LiveNow(o, now), book, now); GoodStep(o, o', fills)
  {
    ArrivalGood(o, now);
    BookStepGood(LiveNow(o, now), book, now);
    var (o', fills) := BookStep(LiveNow(o, now), book, now);
    GoodAfterArrival(o, now, o', fills);
  }

  lemma TickStepGood(o: Order, m: nat, yes: Option<BookState>, no: Option<BookState>, now: nat)
    requires OrderInv(o)
    ensures var (o', fills) := TickStep(o, m, yes, no, now); GoodStep(o, o', fills)
  {
    var book := if o.isYes then yes else no;
    if o.state == PendingCancel { AckGood(o, now); }
    ArrivalGood(o, now);
    if LiveNow(o, now).Working() && now >= o.arrivalT && book.Some? {
      LiveStepGood(o, book.value, now);
    }
  }

  lemma OrderStepGood(model: QueueModel, o: Order, e: MarketEvent)
    requires OrderInv(o)
    ensures var (o', fills) := OrderStep(model, o, e); GoodStep(o, o', fills)
  {
    match e
    case TradeEv(m, y, price, size, side, now) => TradeStepGood(o, m, y, price, size, side, now);
    case LevelEv(m, y, side, price, a, b, now) => LevelStepGood(model, o, m, y, side, price, a, b, now);
    case TickEv(m, yes, no, now) => TickStepGood(o, m, yes, no, now);
  }

  // ------------------------------------------------------------------ whole simulator

  ghost predicate DistinctIds(os: seq<Order>) {
    forall i, j :: 0 <= i < j < |os| && os[i].id != 0 ==> os[i].id != os[j].id
  }

  ghost predicate SlotsInv(q: QState) {
    && |q.orders| == MAX_ORDERS && FIRST_OID <= q.nextOid
    && (forall i :: 0 <= i < |q.orders| ==> OrderInv(q.orders[i]) && q.orders[i].id < q.nextOid)
    && DistinctIds(q.orders)
  }

  // The callbacks logged for each order add up to what the order says it filled.
  ghost predicate LogInv(q: QState, log: seq<FillRec>) {
    && (forall i :: 0 <= i < |log| ==> GoodFill(log[i]))
    && (forall i :: 0 <= i < |q.orders| && q.orders[i].id != 0 ==>
          QtyOf(log, q.orders[i].id) == q.orders[i].filled
          && NotionalOf(log, q.orders[i].id) == q.orders[i].cumCost)
    && (forall id: nat :: q.nextOid <= id ==> QtyOf(log, id) == 0 && NotionalOf(log, id) == 0)
  }

  lemma {:induction false} QtyOfConcat(a: seq<FillRec>, b: seq<FillRec>, id: nat)
    ensures QtyOf(a + b, id) == QtyOf(a, id) + QtyOf(b, id)
    ensures NotionalOf(a + b, id) == NotionalOf(a, id) + NotionalOf(b, id)
  {
    if b == [] {
      assert a + b == a;
    } else {
      var n := |b| - 1;
      assert (a + b)[..|a| + n] == a + b[..n];
      QtyOfConcat(a, b[..n], id);
    }
  }

  lemma {:induction false} CallbacksAreGood(model: QueueModel, os: seq<Order>, e: MarketEvent)
    requires forall i :: 0 <= i < |os| ==> OrderInv(os[i])
    ensures forall k :: 0 <= k < |AllFills(model, os, e)| ==> GoodFill(AllFills(model, os, e)[k])
  {
    if os != [] {
      CallbacksAreGood(model, os[..|os| - 1], e);
      OrderStepGood(model, os[|os| - 1], e);
    }
  }

  // What slot n's callbacks of one event add for an id.
  lemma SlotAdds(model: QueueModel, os: seq<Order>, e: MarketEvent, id: nat)
    requires os != [] && OrderInv(os[|os| - 1])
    ensures var n := |os| - 1;
      var o, o', mine := os[n], OrderStep(model, os[n], e).0, os[n].id == id;
      QtyOf(AllFills(model, os, e), id)
        == QtyOf(AllFills(model, os[..n], e), id) + (if mine then o'.filled - o.filled else 0)
      && NotionalOf(AllFills(model, os, e), id)
        == NotionalOf(AllFills(model, os[..n], e), id) + (if mine then o'.cumCost - o.cumCost else 0)
  {
    var n := |os| - 1;
    OrderStepGood(model, os[n], e);
    var fills := OrderStep(model, os[n], e).1;
    QtyOfConcat(AllFills(model, os[..n], e), fills, id);
    OneOrNone(fills, id);
  }

  lemma {:induction false} FillsOfAbsent(model: QueueModel, os: seq<Order>, e: MarketEvent, id: nat)
    requires forall i :: 0 <= i < |os| ==> OrderInv(os[i]) && os[i].id != id
    ensures QtyOf(AllFills(model, os, e), id) == 0 && NotionalOf(AllFills(model, os, e), id) == 0
  {
    if os != [] {
      FillsOfAbsent(model, os[..|os| - 1], e, id);
      SlotAdds(model, os, e, id);
    }
  }

  // The last slot's own id gets nothing from the others.
  lemma FillsOfLast(model: QueueModel, os: seq<Order>, e: MarketEvent)
    requires forall j :: 0 <= j < |os| ==> OrderInv(os[j])
    requires DistinctIds(os) && os != [] && os[|os| - 1].id != 0
    ensures var n := |os| - 1;
      QtyOf(AllFills(model, os[..n], e), os[n].id) == 0 && NotionalOf(AllFills(model, os[..n], e), os[n].id) == 0
  {
    var n := |os| - 1;
    forall i | 0 <= i < n ensures os[..n][i].id != os[n].id {
      if os[i].id != 0 { assert os[i].id != os[n].id; }
    }
    FillsOfAbsent(model, os[..n], e, os[n].id);
  }

  // The callbacks of one event for one id are those of the slot that holds the id.
  lemma {:induction false} FillsOfPresent(model: QueueModel, os: seq<Order>, e: MarketEvent, i: nat)
    requires forall j :: 0 <= j < |os| ==> OrderInv(os[j])
    requires DistinctIds(os) && i < |os| && os[i].id != 0
    ensures var o' := OrderStep(model, os[i], e).0;
      QtyOf(AllFills(model, os, e), os[i].id) == o'.filled - os[i].filled
      && NotionalOf(AllFills(model, os, e), os[i].id) == o'.cumCost - os[i].cumCost
  {
    var n := |os| - 1;
    SlotAdds(model, os, e, os[i].id);
    if i == n {
      FillsOfLast(model, os, e);
    } else {
      assert os[..n][i] == os[i] && os[n].id != os[i].id;
      FillsOfPresent(model, os[..n], e, i);
    }
  }

  lemma OneOrNone(fills: seq<FillRec>, id: nat)
    requires |fills| <= 1
    ensures QtyOf(fills, id) == if fills != [] && fills[0].order.id == id then fills[0].qty else 0
    ensures NotionalOf(fills, id) == if fills != [] && fills[0].order.id == id then fills[0].qty * fills[0].price else 0
  {
    if fills != [] { assert fills[..0] == []; }
  }

  lemma MarketEventKeepsSlots(cfg: QueueCfg, q: QState, e: MarketEvent)
    requires SlotsInv(q)
    ensures SlotsInv(QStep(cfg, q, MarketEv(e)).0)
  {
    var q' := QStep(cfg, q, MarketEv(e)).0;
    forall i | 0 <= i < |q.orders| ensures OrderInv(q'.orders[i]) && q'.orders[i].id == q.orders[i].id {
      OrderStepGood(cfg.model, q.orders[i], e);
    }
  }

  lemma EventLogsSlot(cfg: QueueCfg, q: QState, log: seq<FillRec>, e: MarketEvent, i: nat)
    requires SlotsInv(q) && LogInv(q, log) && i < |q.orders| && q.orders[i].id != 0
    ensures var (q', fills) := QStep(cfg, q, MarketEv(e));
      q'.orders[i].id == q.orders[i].id
      && QtyOf(log + fills, q.orders[i].id) == q'.orders[i].filled
      && NotionalOf(log + fills, q.orders[i].id) == q'.orders[i].cumCost
  {
    OrderStepGood(cfg.model, q.orders[i], e);
    FillsOfPresent(cfg.model, q.orders, e, i);
    QtyOfConcat(log, AllFills(cfg.model, q.orders, e), q.orders[i].id);
  }

  lemma EventLogsNoOther(cfg: QueueCfg, q: QState, log: seq<FillRec>, e: MarketEvent, id: nat)
    requires SlotsInv(q) && LogInv(q, log) && q.nextOid <= id
    ensures var fills := QStep(cfg, q, MarketEv(e)).1;
      QtyOf(log + fills, id) == 0 && NotionalOf(log + fills, id) == 0
  {
    FillsOfAbsent(cfg.model, q.orders, e, id);
    QtyOfConcat(log, AllFills(cfg.model, q.orders, e), id);
  }

  lemma EventKeepsIds(cfg: QueueCfg, q: QState, e: MarketEvent)
    requires SlotsInv(q)
    ensures forall i :: 0 <= i < |q.orders| ==> QStep(cfg, q, MarketEv(e)).0.orders[i].id == q.orders[i].id
  {
    forall i | 0 <= i < |q.orders| ensures OrderStep(cfg.model, q.orders[i], e).0.id == q.orders[i].id {
      OrderStepGood(cfg.model, q.orders[i], e);
    }
  }

  lemma MarketEventKeeps(cfg: QueueCfg, q: QState, log: seq<FillRec>, e: MarketEvent)
    requires SlotsInv(q) && LogInv(q, log)
    ensures var (q', fills) := QStep(cfg, q, MarketEv(e)); SlotsInv(q') && LogInv(q', log + fills)
  {
    var (q', fills) := QStep(cfg, q, MarketEv(e));
    MarketEventKeepsSlots(cfg, q, e);
    EventKeepsIds(cfg, q, e);
    CallbacksAreGood(cfg.model, q.orders, e);
    forall i | 0 <= i < |q.orders| && q.orders[i].id != 0
      ensures QtyOf(log + fills, q.orders[i].id) == q'.orders[i].filled
      ensures NotionalOf(log + fills, q.orders[i].id) == q'.orders[i].cumCost
    {
      EventLogsSlot(cfg, q, log, e, i);
    }
    forall id: nat | q'.nextOid <= id ensures QtyOf(log + fills, id) == 0 && NotionalOf(log + fills, id) == 0 {
      EventLogsNoOther(cfg, q, log, e, id);
    }
  }

  lemma SubmitKeeps(cfg: QueueCfg, q: QState, log: seq<FillRec>, s: Submission, book: Option<BookState>, now: nat)
    requires SlotsInv(q) && LogInv(q, log)
    ensures var q' := Submit(cfg, q, s, book, now).0; SlotsInv(q') && LogInv(q', log)
  {
  }

  lemma CancelKeeps(cfg: QueueCfg, q: QState, log: seq<FillRec>, oid: nat, now: nat)
    requires SlotsInv(q) && LogInv(q, log)
    ensures var q' := Cancel(cfg, q, oid, now).0; SlotsInv(q') && LogInv(q', log)
  {
  }

  // After any run of operations every slot is in a legal state, ids are distinct and
  // below the next one, no callback came before its order's arrival, and each order's
  // callbacks add up to its filled size and its cumulative cost.
  lemma {:induction false} RunKeeps(cfg: QueueCfg, es: seq<QEvent>)
    ensures var (q, log) := QRun(cfg, es); SlotsInv(q) && LogInv(q, log)
  {
    if es != [] {
      RunKeeps(cfg, es[..|es| - 1]);
      var (q, log) := QRun(cfg, es[..|es| - 1]);
      match es[|es| - 1]
      case SubmitEv(s, book, now) =>
        SubmitKeeps(cfg, q, log, s, book, now);
        assert log + [] == log;
      case CancelEv(oid, now) =>
        CancelKeeps(cfg, q, log, oid, now);
        assert log + [] == log;
      case MarketEv(e) => MarketEventKeeps(cfg, q, log, e);
    }
  }

  // What one operation may do to a slot.
  ghost predicate SlotRests(q: QState, q': QState, i: nat, submitted: bool)
    requires i < |q.orders| == |q'.orders|
  {
    var o, o' := q.orders[i], q'.orders[i];
    && (Terminal(o) ==> o' == o || (submitted && o'.id == q.nextOid))
    && (o'.id != o.id ==> Terminal(o) || o == BLANK)
  }

  // A filled or cancelled order stays as it is until a new order takes its slot, and a
  // submit never takes the slot of any other.
  lemma TerminalOrdersRest(cfg: QueueCfg, q: QState, e: QEvent, i: nat)
    requires SlotsInv(q) && i < MAX_ORDERS
    ensures var q' := QStep(cfg, q, e).0;
      |q'.orders| == MAX_ORDERS && SlotRests(q, q', i, e.SubmitEv?)
  {
    match e
    case SubmitEv(s, book, now) => SubmitRests(cfg, q, s, book, now, i);
    case CancelEv(oid, now) => CancelRests(cfg, q, oid, now, i);
    case MarketEv(m) => OrderStepGood(cfg.model, q.orders[i], m);
  }

  lemma SubmitRests(cfg: QueueCfg, q: QState, s: Submission, book: Option<BookState>, now: nat, i: nat)
    requires SlotsInv(q) && i < MAX_ORDERS
    ensures var q' := Submit(cfg, q, s, book, now).0;
      |q'.orders| == MAX_ORDERS && SlotRests(q, q', i, true)
  {
  }

  lemma CancelRests(cfg: QueueCfg, q: QState, oid: nat, now: nat, i: nat)
    requires SlotsInv(q) && i < MAX_ORDERS
    ensures var q' := Cancel(cfg, q, oid, now).0;
      |q'.orders| == MAX_ORDERS && SlotRests(q, q', i, false)
  {
  }
}
