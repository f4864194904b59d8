// pt_sim_queue: orders resting in a simulated matching engine, updated slot by slot
// by trades, level changes and clock ticks. Fill callbacks are returned as records,
// in the order in which they are made.

module SimQueue {
  import opened Types
  import opened Walk
  import opened OrderBook

  const MAX_ORDERS: nat := 256
  const FIRST_OID: nat := 100000

  // A configuration as it is handed in; the model travels as an integer.
  datatype SimCfg = SimCfg(netMs: real, processMs: real, cancelMs: real, model: int)

  const DEFAULT_SIM: SimCfg := SimCfg(2.0, 1.0, 2.0, 2)

  // Any model but the conservative and the aggressive one is the realistic one.
  function ModelOf(code: int): QueueModel {
    if code == 1 then Conservative else if code == 3 then Aggressive else Realistic
  }

  // What the simulator runs on: the defaults when there is no configuration.
  function Resolved(given: Option<SimCfg>): QueueCfg {
    var g := if given.Some? then given.value else DEFAULT_SIM;
    QueueCfg(WholeNs(g.netMs), WholeNs(g.processMs), WholeNs(g.cancelMs), ModelOf(g.model))
  }

  datatype OrderState =
    | Created | PendingSubmit | Live | Partial | FullyFilled | PendingCancel
    | Cancelled | StalePendingCancel | Rejected | Expired | Unknown

  datatype OrderType = Limit | Market | Ioc | Fok

  datatype QueueModel = Conservative | Realistic | Aggressive

  // Latencies in nanoseconds.
  datatype QueueCfg = QueueCfg(netNs: nat, procNs: nat, cancelNs: nat, model: QueueModel)

  datatype Order = Order(
    id: nat, signalId: nat, marketId: nat, isYes: bool, side: int, otype: OrderType, price: int,
    original: nat, remaining: nat, filled: nat, cumCost: int, avgFillPrice: int,
    state: OrderState, strategy: int,
    queueAhead: nat, initialQueue: nat, queueAfterUpdates: nat, consumed: nat, cancelled: nat,
    submitT: nat, arrivalT: nat, ackT: nat, cancelReqT: nat, cancelAckT: nat, lastUpdateT: nat)
  {
    predicate Working() {
      state == Live || state == Partial || state == PendingCancel
    }

    predicate Reusable() {
      state == Created || state == FullyFilled || state == Cancelled || state == Rejected || state == Expired
    }

    predicate Cancellable() {
      state == PendingSubmit || state == Live || state == Partial
    }

    // Becomes live once the clock reaches the matching engine's entry time.
    function Arrived(now: nat): Order {
      if state == PendingSubmit && now >= arrivalT then this.(state := Live) else this
    }
  }

  const BLANK: Order := Order(0, 0, 0, false, 0, Limit, 0, 0, 0, 0, 0, 0, Created, 0,
                              0, 0, 0, 0, 0, 0, 0, 0, 0, 0, 0)

  // One fill callback: the order after the fill, the quantity and the price.
  datatype FillRec = FillRec(order: Order, qty: nat, price: int, now: nat)

  datatype MarketEvent =
    | TradeEv(marketId: nat, isYes: bool, price: int, size: nat, side: int, now: nat)
    | LevelEv(marketId: nat, isYes: bool, side: int, price: int, oldSize: int, newSize: int, now: nat)
    | TickEv(marketId: nat, yes: Option<BookState>, no: Option<BookState>, now: nat)

  // -------------------------------------------------------------------- one fill

  function Taken(o: Order, qty: nat, price: int, now: nat): Order
    requires 0 < qty <= o.remaining
  {
    var filled, cum := o.filled + qty, o.cumCost + qty * price;
    o.(filled := filled, remaining := o.remaining - qty, cumCost := cum,
       avgFillPrice := cum / filled, lastUpdateT := now)
  }

  function Rested(o: Order): Order {
    o.(state := if o.remaining == 0 then FullyFilled else Partial)
  }

  // ------------------------------------------------------------------- one trade

  predicate Interacts(o: Order, tradePrice: int, tradeSide: int) {
    if o.side == BID then tradeSide != BID && tradePrice <= o.price
    else tradeSide != ASK && tradePrice >= o.price
  }

  // A trade eats the queue ahead first; what is left of it fills the order.
  function HitBy(o: Order, size: nat, now: nat): (Order, seq<FillRec>) {
    if o.queueAhead >= size then
      var q := o.queueAhead - size;
      (o.(queueAhead := q, consumed := o.consumed + size, queueAfterUpdates := q), [])
    else
      var o1 := o.(queueAhead := 0, consumed := o.consumed + o.queueAhead);
      var qty := Min(size - o.queueAhead, o.remaining);
      if qty > 0 then
        var o2 := Rested(Taken(o1, qty, o.price, now));
        (o2.(queueAfterUpdates := 0), [FillRec(o2, qty, o.price, now)])
      else (o1.(queueAfterUpdates := 0), [])
  }

  function TradeStep(o: Order, marketId: nat, isYes: bool, price: int, size: nat, side: int, now: nat)
    : (Order, seq<FillRec>)
  {
    if size == 0 || o.marketId != marketId || o.isYes != isYes then (o, [])
    else
      var o1 := o.Arrived(now);
      if !o1.Working() || now < o1.arrivalT || !Interacts(o1, price, side) then (o1, [])
      else HitBy(o1, size, now)
  }

  // ------------------------------------------------------------ one level change

  // Rounded share of a reduction that falls ahead of the order.
  function Proportional(queue: nat, reduction: nat, oldSize: int): nat
    requires 0 < oldSize
  {
    (2 * reduction * queue + oldSize) / (2 * oldSize)
  }

  // How much of a level's reduction each model takes off the queue ahead.
  function QueueCut(model: QueueModel, queue: nat, reduction: nat, oldSize: int): (cut: nat)
    ensures cut <= queue
  {
    match model
    case Conservative => 0
    case Aggressive => Min(reduction, queue)
    case Realistic =>
      if oldSize > 0 && queue > 0 then Min(Proportional(queue, reduction, oldSize), queue) else 0
  }

  function LevelStep(model: QueueModel, o: Order, marketId: nat, isYes: bool, side: int, price: int,
                     oldSize: int, newSize: int, now: nat): Order
  {
    if oldSize <= newSize || o.marketId != marketId || o.isYes != isYes || o.side != side || o.price != price
    then o
    else
      var o1 := o.Arrived(now);
      if !o1.Working() || now < o1.arrivalT || model == Conservative then o1
      else
        var cut := QueueCut(model, o1.queueAhead, oldSize - newSize, oldSize);
        var q := o1.queueAhead - cut;
        o1.(queueAhead := q, cancelled := o1.cancelled + cut, queueAfterUpdates := q)
  }

  // ---------------------------------------------------------------------- a tick

  function Opposite(side: int): int {
    if side == BID then ASK else BID
  }

  // A market or IOC order takes what the opposite side shows and is done.
  function MarketFill(o: Order, book: BookState, now: nat): (Order, seq<FillRec>) {
    var ls := book.WalkOrder(Opposite(o.side));
    var qty, price := Filled(ls, o.remaining), Vwap(ls, o.remaining);
    var o1 := if qty > 0 then Taken(o, qty, price, now) else o;
    var fills := if qty > 0 then [FillRec(o1, qty, price, now)] else [];
    (o1.(state := if o1.remaining == 0 then FullyFilled else Cancelled), fills)
  }

  function OppositeBest(o: Order, book: BookState): Option<Level> {
    if o.side == BID then book.BestAsk() else book.BestBid()
  }

  // The opposite side has moved through the limit.
  predicate Swept(o: Order, book: BookState) {
    var best := OppositeBest(o, book);
    best.Some? && (if o.side == BID then best.value.price < o.price else best.value.price > o.price)
  }

  // Quantity of a sweep, with the code's fallback for a walk that finds nothing.
  function SweepQty(o: Order, book: BookState): (qty: nat)
    requires Swept(o, book)
    ensures qty <= o.remaining
  {
    var canFill := Filled(book.WalkOrder(Opposite(o.side)), o.remaining);
    if canFill > 0 then canFill
    else if o.queueAhead == 0 then Min(OppositeBest(o, book).value.size, o.remaining) else 0
  }

  function SweepPrice(o: Order, book: BookState): int {
    var avg := Vwap(book.WalkOrder(Opposite(o.side)), o.remaining);
    if avg > 0 then avg else o.price
  }

  function SweepFill(o: Order, book: BookState, now: nat): (Order, seq<FillRec>)
    requires Swept(o, book)
  {
    var qty, price := SweepQty(o, book), SweepPrice(o, book);
    if qty == 0 then (o, [])
    else
      var o1 := Rested(Taken(o, qty, price, now));
      (o1, [FillRec(o1, qty, price, now)])
  }

  // A working order against the book of its outcome.
  function BookStep(o: Order, book: BookState, now: nat): (Order, seq<FillRec>) {
    if o.otype == Market || o.otype == Ioc then MarketFill(o, book, now)
    else if Swept(o, book) then SweepFill(o, book, now)
    else (o, [])
  }

  function TickStep(o: Order, marketId: nat, yes: Option<BookState>, no: Option<BookState>, now: nat)
    : (Order, seq<FillRec>)
  {
    if o.marketId != marketId then (o, [])
    else
      var o1 := if o.state == PendingSubmit && now >= o.arrivalT
                then o.(state := Live, lastUpdateT := now) else o;
      if o1.state == PendingCancel && now >= o1.cancelAckT
      then (o1.(state := Cancelled, lastUpdateT := now), [])
      else
        var book := if o1.isYes then yes else no;
        if !o1.Working() || now < o1.arrivalT || book == None then (o1, [])
        else BookStep(o1, book.value, now)
  }

  // ------------------------------------------------------- one event, every order

  function OrderStep(model: QueueModel, o: Order, e: MarketEvent): (Order, seq<FillRec>) {
    match e
    case TradeEv(m, y, price, size, side, now) => TradeStep(o, m, y, price, size, side, now)
    case LevelEv(m, y, side, price, oldSize, newSize, now) =>
      (LevelStep(model, o, m, y, side, price, oldSize, newSize, now), [])
    case TickEv(m, yes, no, now) => TickStep(o, m, yes, no, now)
  }

  function AllOrders(model: QueueModel, os: seq<Order>, e: MarketEvent): (os': seq<Order>)
    ensures |os'| == |os|
    ensures forall i :: 0 <= i < |os| ==> os'[i] == OrderStep(model, os[i], e).0
  {
    seq(|os|, i requires 0 <= i < |os| => OrderStep(model, os[i], e).0)
  }

  // Every order sees the whole event; the callbacks come in slot order.
  function AllFills(model: QueueModel, os: seq<Order>, e: MarketEvent): seq<FillRec> {
    if os == [] then []
    else AllFills(model, os[..|os| - 1], e) + OrderStep(model, os[|os| - 1], e).1
  }

  lemma AllFillsNext(model: QueueModel, os: seq<Order>, i: nat, e: MarketEvent)
    requires i < |os|
    ensures AllFills(model, os[..i + 1], e) == AllFills(model, os[..i], e) + OrderStep(model, os[i], e).1
  {
    assert os[..i + 1][..i] == os[..i];
  }

  // Every slot's step and every slot's callbacks are the whole event.
  lemma EventDone(cfg: QueueCfg, q: QState, e: MarketEvent, os: seq<Order>, fills: seq<FillRec>)
    requires |os| == |q.orders| && forall i :: 0 <= i < |os| ==> os[i] == OrderStep(cfg.model, q.orders[i], e).0
    requires fills == AllFills(cfg.model, q.orders[..|os|], e)
    ensures (q.(orders := os), fills) == QStep(cfg, q, MarketEv(e))
  {
    assert q.orders[..|os|] == q.orders;
    AllOrdersIs(cfg.model, q.orders, e, os);
  }

  lemma AllOrdersIs(model: QueueModel, os: seq<Order>, e: MarketEvent, os': seq<Order>)
    requires |os'| == |os| && forall i :: 0 <= i < |os| ==> os'[i] == OrderStep(model, os[i], e).0
    ensures os' == AllOrders(model, os, e)
  {
  }

  // ------------------------------------------------------------ submit and cancel

  datatype Submission = Submission(
    marketId: nat, isYes: bool, side: int, otype: OrderType, price: int, size: nat,
    strategy: int, signalId: nat)

  datatype QState = QState(orders: seq<Order>, nextOid: nat)

  function FirstReusable(os: seq<Order>): (i: nat)
    ensures i <= |os|
    ensures forall j :: 0 <= j < i ==> !os[j].Reusable()
    ensures i < |os| ==> os[i].Reusable()
  {
    if os == [] || os[0].Reusable() then 0 else 1 + FirstReusable(os[1..])
  }

  // Size of the first level at a price.
  function SizeAt(ls: seq<Level>, price: int): nat {
    if ls == [] then 0 else if ls[0].price == price then ls[0].size else SizeAt(ls[1..], price)
  }

  function NewOrder(cfg: QueueCfg, s: Submission, id: nat, queue: nat, now: nat): Order {
    var arrival := now + cfg.netNs + cfg.procNs;
    Order(id, s.signalId, s.marketId, s.isYes, s.side, s.otype, s.price,
          s.size, s.size, 0, 0, 0, PendingSubmit, s.strategy,
          queue, queue, queue, 0, 0,
          now, arrival, arrival + cfg.netNs, 0, 0, now)
  }

  function QueueAtSubmit(s: Submission, book: Option<BookState>): nat {
    if book == None then 0 else SizeAt(book.value.Side(s.side), s.price)
  }

  // The new state and the order id, 0 on error.
  function Submit(cfg: QueueCfg, q: QState, s: Submission, book: Option<BookState>, now: nat): (QState, nat) {
    var slot := FirstReusable(q.orders);
    if s.size == 0 || s.price <= 0 || slot == |q.orders| then (q, 0)
    else
      var o := NewOrder(cfg, s, q.nextOid, QueueAtSubmit(s, book), now);
      (QState(q.orders[slot := o], q.nextOid + 1), q.nextOid)
  }

  function FirstCancellable(os: seq<Order>, oid: nat): (i: nat)
    ensures i <= |os|
    ensures forall j :: 0 <= j < i ==> !(os[j].id == oid && os[j].Cancellable())
    ensures i < |os| ==> os[i].id == oid && os[i].Cancellable()
  {
    if os == [] || (os[0].id == oid && os[0].Cancellable()) then 0 else 1 + FirstCancellable(os[1..], oid)
  }

  function CancelRequested(cfg: QueueCfg, o: Order, now: nat): Order {
    o.(cancelReqT := now, cancelAckT := now + cfg.cancelNs + cfg.netNs, state := PendingCancel, lastUpdateT := now)
  }

  function Cancel(cfg: QueueCfg, q: QState, oid: nat, now: nat): (QState, int) {
    var i := FirstCancellable(q.orders, oid);
    if i == |q.orders| then (q, -1)
    else (q.(orders := q.orders[i := CancelRequested(cfg, q.orders[i], now)]), 0)
  }

  // ------------------------------------------------------------------------ runs

  datatype QEvent =
    | SubmitEv(s: Submission, book: Option<BookState>, now: nat)
    | CancelEv(oid: nat, now: nat)
    | MarketEv(e: MarketEvent)

  function QStep(cfg: QueueCfg, q: QState, e: QEvent): (QState, seq<FillRec>) {
    match e
    case SubmitEv(s, book, now) => (Submit(cfg, q, s, book, now).0, [])
    case CancelEv(oid, now) => (Cancel(cfg, q, oid, now).0, [])
    case MarketEv(m) => (q.(orders := AllOrders(cfg.model, q.orders, m)), AllFills(cfg.model, q.orders, m))
  }

  function QInit(): QState {
    QState(seq(MAX_ORDERS, _ => BLANK), FIRST_OID)
  }

  // State and callback log after a run of operations.
  function QRun(cfg: QueueCfg, es: seq<QEvent>): (QState, seq<FillRec>) {
    if es == [] then (QInit(), [])
    else
      var (q, log) := QRun(cfg, es[..|es| - 1]);
      var (q', fills) := QStep(cfg, q, es[|es| - 1]);
      (q', log + fills)
  }

  // ------------------------------------------------------------------- the class

  class Simulator {
    const orders: array<Order>
    const cfg: QueueCfg
    var nextOid: nat

    ghost predicate Valid()
      reads this
    {
      orders.Length == MAX_ORDERS
    }

    ghost function State(): QState
      reads this, orders
    {
      QState(orders[..], nextOid)
    }

    constructor (given: Option<SimCfg>)
      ensures Valid() && State() == QInit() && cfg == Resolved(given) && fresh(orders)
    {
      var g := if given.Some? then given.value else DEFAULT_SIM;
      cfg := QueueCfg(WholeNs(g.netMs), WholeNs(g.processMs), WholeNs(g.cancelMs), ModelOf(g.model));
      orders := new Order[MAX_ORDERS](_ => BLANK);
      nextOid := FIRST_OID;
    }

    method SubmitOrder(s: Submission, book: Book?, now: nat) returns (oid: nat)
      requires Valid() && (book != null ==> book.Valid())
      modifies this, orders
      ensures Valid()
      ensures (State(), oid) == Submit(cfg, old(State()), s, old(View(book)), now)
    {
      if s.size == 0 || s.price <= 0 { return 0; }
      var slot := 0;
      while slot < orders.Length && !orders[slot].Reusable()
        invariant slot <= orders.Length
        invariant forall j :: 0 <= j < slot ==> !orders[j].Reusable()
      {
        slot := slot + 1;
      }
      FirstReusableIs(orders[..], slot);
      if slot == orders.Length { return 0; }
      var queue := 0;
      if book != null {
        queue := FindSize(if s.side == BID then book.bids else book.asks, s.price);
      }
      oid := nextOid;
      orders[slot] := NewOrder(cfg, s, oid, queue, now);
      nextOid := nextOid + 1;
    }

    // Linear search of a side for the size at a price.
    static method FindSize(side: SideBook, price: int) returns (size: nat)
      requires side.Valid()
      ensures size == SizeAt(side.Contents(), price)
    {
      var i := 0;
      assert side.Contents()[0..] == side.Contents();
      while i < side.count
        invariant i <= side.count
        invariant SizeAt(side.Contents(), price) == SizeAt(side.Contents()[i..], price)
      {
        assert side.Contents()[i..][1..] == side.Contents()[i + 1..];
        if side.levels[i].price == price { return side.levels[i].size; }
        i := i + 1;
      }
      return 0;
    }

    method CancelOrder(oid: nat, now: nat) returns (rc: int)
      requires Valid()
      modifies this, orders
      ensures Valid() && (State(), rc) == Cancel(cfg, old(State()), oid, now)
    {
      var i := 0;
      while i < orders.Length
        invariant i <= orders.Length && orders[..] == old(orders[..])
        invariant forall j :: 0 <= j < i ==> !(orders[j].id == oid && orders[j].Cancellable())
      {
        if orders[i].id == oid && orders[i].Cancellable() {
          FirstCancellableIs(orders[..], oid, i);
          orders[i] := CancelRequested(cfg, orders[i], now);
          return 0;
        }
        i := i + 1;
      }
      FirstCancellableIs(orders[..], oid, i);
      return -1;
    }

    method OnTrade(marketId: nat, isYes: bool, price: int, size: nat, side: int, now: nat)
      returns (fills: seq<FillRec>)
      requires Valid()
      modifies this, orders
      ensures Valid()
      ensures (State(), fills) == QStep(cfg, old(State()), MarketEv(TradeEv(marketId, isYes, price, size, side, now)))
    {
      fills := [];
      ghost var e := TradeEv(marketId, isYes, price, size, side, now);
      ghost var was := orders[..];
      for i := 0 to orders.Length
        invariant forall j :: 0 <= j < i ==> orders[j] == OrderStep(cfg.model, was[j], e).0
        invariant forall j :: i <= j < |was| ==> orders[j] == was[j]
        invariant fills == AllFills(cfg.model, was[..i], e)
        modifies orders
      {
        AllFillsNext(cfg.model, was, i, e);
        var made := TradeSlot(i, marketId, isYes, price, size, side, now);
        fills := fills + made;
      }
      EventDone(cfg, QState(was, nextOid), e, orders[..], fills);
    }

    method TradeSlot(i: nat, marketId: nat, isYes: bool, price: int, size: nat, side: int, now: nat)
      returns (made: seq<FillRec>)
      requires i < orders.Length
      modifies orders
      ensures (orders[i], made)
           == old(OrderStep(cfg.model, orders[i], TradeEv(marketId, isYes, price, size, side, now)))
      ensures forall j :: 0 <= j < orders.Length && j != i ==> orders[j] == old(orders[j])
    {
      var (o, fills) := TradeStep(orders[i], marketId, isYes, price, size, side, now);
      orders[i] := o;
      made := fills;
    }

    method OnLevelChange(marketId: nat, isYes: bool, side: int, price: int, oldSize: int, newSize: int, now: nat)
      requires Valid()
      modifies this, orders
      ensures Valid()
      ensures State() == QStep(cfg, old(State()),
        MarketEv(LevelEv(marketId, isYes, side, price, oldSize, newSize, now))).0
    {
      ghost var e := LevelEv(marketId, isYes, side, price, oldSize, newSize, now);
      ghost var was := orders[..];
      for i := 0 to orders.Length
        invariant forall j :: 0 <= j < i ==> orders[j] == OrderStep(cfg.model, was[j], e).0
        invariant forall j :: i <= j < |was| ==> orders[j] == was[j]
        modifies orders
      {
        orders[i] := LevelStep(cfg.model, orders[i], marketId, isYes, side, price, oldSize, newSize, now);
      }
      AllOrdersIs(cfg.model, was, e, orders[..]);
    }

    // One order's share of a tick, walking the book it trades against.
    static method TickOrder(order: Order, marketId: nat, yes: Book?, no: Book?, now: nat)
      returns (o: Order, made: seq<FillRec>)
      requires (yes != null ==> yes.Valid()) && (no != null ==> no.Valid())
      ensures (o, made) == TickStep(order, marketId, View(yes), View(no), now)
    {
      o, made := order, [];
      if o.marketId != marketId { return; }
      if o.state == PendingSubmit && now >= o.arrivalT {
        o := o.(state := Live, lastUpdateT := now);
      }
      if o.state == PendingCancel && now >= o.cancelAckT {
        o := o.(state := Cancelled, lastUpdateT := now);
        return;
      }
      if !o.Working() || now < o.arrivalT { return; }
      var book := if o.isYes then yes else no;
      if book == null { return; }
      o, made := TickAgainst(o, book, now);
    }

    static method TickAgainst(order: Order, book: Book, now: nat) returns (o: Order, made: seq<FillRec>)
      requires book.Valid()
      ensures (o, made) == BookStep(order, book.State(), now)
    {
      o, made := order, [];
      if o.otype == Market || o.otype == Ioc {
        o, made := FillAtMarket(o, book, now);
        return;
      }
      var best;
      if o.side == BID { best := book.BestAsk(); } else { best := book.BestBid(); }
      if best.Some? && (if o.side == BID then best.value.price < o.price else best.value.price > o.price) {
        o, made := FillSwept(o, book, best.value.size, now);
      }
    }

    static method FillAtMarket(order: Order, book: Book, now: nat) returns (o: Order, made: seq<FillRec>)
      requires book.Valid()
      ensures (o, made) == MarketFill(order, book.State(), now)
    {
      o, made := order, [];
      var canFill, avg, _ := book.Walk(Opposite(o.side), o.remaining);
      if canFill > 0 {
        o := Taken(o, canFill, avg, now);
        made := [FillRec(o, canFill, avg, now)];
      }
      o := o.(state := if o.remaining == 0 then FullyFilled else Cancelled);
    }

    static method FillSwept(order: Order, book: Book, bestSize: nat, now: nat)
      returns (o: Order, made: seq<FillRec>)
      requires book.Valid() && Swept(order, book.State())
      requires bestSize == OppositeBest(order, book.State()).value.size
      ensures (o, made) == SweepFill(order, book.State(), now)
    {
      o, made := order, [];
      var canFill, avg, _ := book.Walk(Opposite(o.side), o.remaining);
      var qty := if canFill > 0 then canFill
                 else if o.queueAhead == 0 then (if bestSize < o.remaining then bestSize else o.remaining) else 0;
      if qty > 0 {
        var price := if avg > 0 then avg else o.price;
        o := Rested(Taken(o, qty, price, now));
        made := [FillRec(o, qty, price, now)];
      }
    }

    method Tick(marketId: nat, yes: Book?, no: Book?, now: nat) returns (fills: seq<FillRec>)
      requires Valid() && (yes != null ==> yes.Valid()) && (no != null ==> no.Valid())
      modifies this, orders
      ensures Valid()
      ensures (State(), fills) == QStep(cfg, old(State()),
        MarketEv(TickEv(marketId, old(View(yes)), old(View(no)), now)))
    {
      fills := TickSlots(marketId, yes, no, now, TickEv(marketId, View(yes), View(no), now));
    }

    method TickSlots(marketId: nat, yes: Book?, no: Book?, now: nat, ghost e: MarketEvent)
      returns (fills: seq<FillRec>)
      requires Valid() && (yes != null ==> yes.Valid()) && (no != null ==> no.Valid())
      requires e == TickEv(marketId, View(yes), View(no), now)
      modifies orders
      ensures (State(), fills) == QStep(cfg, old(State()), MarketEv(e))
    {
      fills := [];
      ghost var was := orders[..];
      for i := 0 to orders.Length
        invariant (yes != null ==> yes.Valid()) && (no != null ==> no.Valid())
        invariant e == TickEv(marketId, View(yes), View(no), now)
        invariant forall j :: 0 <= j < i ==> orders[j] == OrderStep(cfg.model, was[j], e).0
        invariant forall j :: i <= j < |was| ==> orders[j] == was[j]
        invariant fills == AllFills(cfg.model, was[..i], e)
      {
        AllFillsNext(cfg.model, was, i, e);
        var made := TickSlot(i, marketId, yes, no, now, e);
        fills := fills + made;
      }
      EventDone(cfg, QState(was, nextOid), e, orders[..], fills);
    }

    method TickSlot(i: nat, marketId: nat, yes: Book?, no: Book?, now: nat, ghost e: MarketEvent)
      returns (made: seq<FillRec>)
      requires i < orders.Length
      requires (yes != null ==> yes.Valid()) && (no != null ==> no.Valid())
      requires e == TickEv(marketId, View(yes), View(no), now)
      modifies orders
      ensures (orders[i], made) == old(OrderStep(cfg.model, orders[i], e))
      ensures forall j :: 0 <= j < orders.Length && j != i ==> orders[j] == old(orders[j])
    {
      var o, fills := TickOrder(orders[i], marketId, yes, no, now);
      orders[i] := o;
      made := fills;
    }
  }

  lemma FirstReusableIs(os: seq<Order>, i: nat)
    requires i <= |os|
    requires forall j :: 0 <= j < i ==> !os[j].Reusable()
    requires i < |os| ==> os[i].Reusable()
    ensures i == FirstReusable(os)
  {
  }

  lemma FirstCancellableIs(os: seq<Order>, oid: nat, i: nat)
    requires i <= |os|
    requires forall j :: 0 <= j < i ==> !(os[j].id == oid && os[j].Cancellable())
    requires i < |os| ==> os[i].id == oid && os[i].Cancellable()
    ensures i == FirstCancellable(os, oid)
  {
  }
}
