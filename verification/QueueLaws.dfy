// Laws of one resting order over whole streams of trades and level changes: where it
// stands in the queue, how the three cancellation models compare, when a cancel takes
// effect, and at what price it fills.

module QueueLaws {
  import opened Arith
  import opened Types
  import opened Walk
  import opened OrderBook
  import opened SimQueue
  import opened OrderRuns

  function Steps(model: QueueModel, o: Order, es: seq<MarketEvent>): Order {
    if es == [] then o else OrderStep(model, Steps(model, o, es[..|es| - 1]), es[|es| - 1]).0
  }

  ghost predicate NoTicks(es: seq<MarketEvent>) {
    forall i :: 0 <= i < |es| ==> !es[i].TickEv?
  }

  // An order as a stream of trades and level changes finds it: at any stage short of
  // cancelled, and behind an empty queue once it has filled anything.
  ghost predicate Resting(o: Order) {
    && OrderInv(o) && o != BLANK && o.state != Cancelled
    && (o.filled > 0 ==> o.queueAhead == 0)
  }

  // ----------------------------------------------------------- what one event does

  // Volume of a trade that reaches the order; a matter of price, side and clock only.
  function Reaching(o: Order, e: MarketEvent): nat {
    if e.TradeEv? && e.marketId == o.marketId && e.isYes == o.isYes && o.arrivalT <= e.now
       && Interacts(o, e.price, e.side)
    then e.size else 0
  }

  predicate Touches(o: Order, e: MarketEvent) {
    e.LevelEv? && e.marketId == o.marketId && e.isYes == o.isYes && e.side == o.side
    && e.price == o.price && o.arrivalT <= e.now && e.newSize < e.oldSize
  }

  // Volume a model takes off the queue ahead at one event.
  function Cut(model: QueueModel, o: Order, e: MarketEvent): nat {
    if Touches(o, e) then QueueCut(model, o.queueAhead, e.oldSize - e.newSize, e.oldSize) else 0
  }

  lemma ReachingIsStatic(o: Order, o': Order, e: MarketEvent)
    requires SameIdentity(o, o')
    ensures Reaching(o', e) == Reaching(o, e) && Touches(o', e) == Touches(o, e)
  {
  }

  lemma TradeEffect(model: QueueModel, o: Order, e: MarketEvent)
    requires Resting(o) && e.TradeEv?
    ensures var o', v := OrderStep(model, o, e).0, Reaching(o, e);
      Resting(o') && SameIdentity(o, o') && o'.cancelled == o.cancelled
      && o'.queueAhead == Max(0, o.queueAhead - v)
      && o'.filled == Min(o.original, o.filled + Max(0, v - o.queueAhead))
      && (o'.state == PendingCancel <==> o.state == PendingCancel && o'.filled == o.filled)
  {
    OrderStepGood(model, o, e);
  }

  lemma LevelEffect(model: QueueModel, o: Order, e: MarketEvent)
    requires Resting(o) && e.LevelEv?
    ensures var o' := OrderStep(model, o, e).0;
      Resting(o') && SameIdentity(o, o') && o'.consumed == o.consumed
      && o'.queueAhead == o.queueAhead - Cut(model, o, e) && o'.filled == o.filled
      && (o'.state == PendingCancel <==> o.state == PendingCancel)
  {
    OrderStepGood(model, o, e);
  }

  lemma {:induction false} StepsRest(model: QueueModel, o: Order, es: seq<MarketEvent>)
    requires Resting(o) && NoTicks(es)
    ensures Resting(Steps(model, o, es)) && SameIdentity(o, Steps(model, o, es))
  {
    if es != [] {
      StepsRest(model, o, es[..|es| - 1]);
      var e, o1 := es[|es| - 1], Steps(model, o, es[..|es| - 1]);
      if e.TradeEv? { TradeEffect(model, o1, e); } else { LevelEffect(model, o1, e); }
    }
  }

  // ------------------------------------------------------------ joining the queue

  lemma {:induction false} SizeAtFinds(ls: seq<Level>, price: int)
    requires DistinctPrices(ls)
    ensures SizeAt(ls, price) == if price in MapOf(ls) then MapOf(ls)[price] else 0
  {
    if ls != [] {
      SizeAtFinds(ls[1..], price);
      assert ls == [ls[0]] + ls[1..];
      if ls[0].price == price {
        assert ls[0] in ls;
      } else {
        assert price in MapOf(ls) <==> price in MapOf(ls[1..]);
      }
    }
  }

  // A submitted order rests untouched behind exactly what its side displays at its price.
  lemma SubmitJoinsDisplayedQueue(cfg: QueueCfg, q: QState, s: Submission, book: BookState, now: nat)
    returns (slot: nat)
    requires SlotsInv(q) && book.Strict() && Submit(cfg, q, s, Some(book), now).1 != 0
    ensures var (q', id) := Submit(cfg, q, s, Some(book), now);
      slot < |q'.orders| && q'.orders[slot].id == id && Untouched(q'.orders[slot])
      && q'.orders[slot].arrivalT == now + cfg.netNs + cfg.procNs
    ensures var m := MapOf(book.Side(s.side));
      Submit(cfg, q, s, Some(book), now).0.orders[slot].queueAhead == if s.price in m then m[s.price] else 0
  {
    SizeAtFinds(book.Side(s.side), s.price);
    slot := FirstReusable(q.orders);
    assert Submit(cfg, q, s, Some(book), now).0.orders[slot]
        == NewOrder(cfg, s, q.nextOid, QueueAtSubmit(s, Some(book)), now);
  }

  // --------------------------------------------------------------- queue accounting

  // Total volume of the stream's trades that reach the order.
  function Volume(o: Order, es: seq<MarketEvent>): nat {
    if es == [] then 0 else Volume(o, es[..|es| - 1]) + Reaching(o, es[|es| - 1])
  }

  // A newly submitted order, or one that has only been cancelled since.
  ghost predicate Untouched(o: Order) {
    Resting(o) && o.filled == 0 && o.consumed == 0 && o.cancelled == 0
  }

  // While it is not full, every share that reached the order either moved the queue or
  // filled it; and the queue it joined is what is left, was traded or was cancelled.
  lemma {:induction false} VolumeIsAccounted(model: QueueModel, o: Order, es: seq<MarketEvent>)
    requires Untouched(o) && NoTicks(es)
    ensures var o' := Steps(model, o, es);
      o'.initialQueue == o.initialQueue == o'.queueAhead + o'.consumed + o'.cancelled
      && (o'.remaining > 0 ==> Volume(o, es) == o'.consumed + o'.filled)
  {
    StepsRest(model, o, es);
    if es != [] {
      var n := |es| - 1;
      VolumeIsAccounted(model, o, es[..n]);
      StepsRest(model, o, es[..n]);
      var e, o1 := es[n], Steps(model, o, es[..n]);
      ReachingIsStatic(o, o1, e);
      if e.TradeEv? { TradeEffect(model, o1, e); } else { LevelEffect(model, o1, e); }
    }
  }

  // The order after volume v has reached it, by volume alone.
  ghost predicate ServedBy(o: Order, o1: Order, v: nat) {
    && o1.filled == Min(o.original, Max(0, v - o.initialQueue))
    && o1.queueAhead == Max(0, o.initialQueue - v)
  }

  lemma ServedOnce(model: QueueModel, o: Order, o1: Order, v: nat, e: MarketEvent)
    requires Resting(o1) && SameIdentity(o, o1) && ServedBy(o, o1, v)
    requires e.TradeEv? || (e.LevelEv? && model == Conservative)
    ensures ServedBy(o, OrderStep(model, o1, e).0, v + Reaching(o, e))
  {
    ReachingIsStatic(o, o1, e);
    if e.TradeEv? {
      TwoVolumes(o.original, o.initialQueue, v, Reaching(o, e));
      TradeEffect(model, o1, e);
    } else {
      LevelEffect(model, o1, e);
    }
  }

  // First come, first served: without cancellations ahead (trades only, or the model
  // that credits none) the fill is a function of the total volume alone.
  lemma {:induction false} FirstComeFirstServed(model: QueueModel, o: Order, es: seq<MarketEvent>)
    requires Untouched(o) && NoTicks(es)
    requires model == Conservative || forall i :: 0 <= i < |es| ==> es[i].TradeEv?
    ensures ServedBy(o, Steps(model, o, es), Volume(o, es))
  {
    if es != [] {
      var n := |es| - 1;
      FirstComeFirstServed(model, o, es[..n]);
      StepsRest(model, o, es[..n]);
      ServedOnce(model, o, Steps(model, o, es[..n]), Volume(o, es[..n]), es[n]);
    }
  }

  // Two volumes in turn act as their sum.
  lemma TwoVolumes(original: nat, queue: nat, v: nat, w: nat)
    ensures Max(0, Max(0, queue - v) - w) == Max(0, queue - (v + w))
    ensures Min(original, Min(original, Max(0, v - queue)) + Max(0, w - Max(0, queue - v)))
         == Min(original, Max(0, v + w - queue))
  {
  }

  // -------------------------------------------------------- dominance of the models

  // The proportional cut does not exceed the reduction itself.
  predicate InProportion(queue: nat, reduction: nat, oldSize: int) {
    queue <= oldSize || 2 * reduction * (queue - oldSize) < oldSize
  }

  lemma ProportionalAtMostReduction(queue: nat, reduction: nat, oldSize: int)
    requires 0 < oldSize && 0 < reduction
    ensures Proportional(queue, reduction, oldSize) <= reduction <==> InProportion(queue, reduction, oldSize)
  {
    var d, k := reduction, 2 * oldSize;
    var x := 2 * d * queue + oldSize;
    assert 2 * d * (queue - oldSize) == 2 * d * queue - d * k;
    if queue <= oldSize {
      ScaleUp(queue, oldSize, 2 * d);
      assert oldSize * (2 * d) == d * k && queue * (2 * d) == 2 * d * queue;
    }
    assert x < (d + 1) * k <==> InProportion(queue, reduction, oldSize) by {
      Distribute(k, d, 1);
    }
    QuotientBelow(x, d, k);
  }

  lemma QuotientBelow(x: int, d: int, k: nat)
    requires 0 < k
    ensures x / k <= d <==> x < (d + 1) * k
  {
    var q := x / k;
    Distribute(k, d, 1);
    Distribute(k, q, 1);
    if q <= d { ScaleUp(q + 1, d + 1, k); } else { ScaleUp(d + 1, q, k); }
  }

  // One reduction seen from equal queues: the aggressive model stays in front of the
  // realistic one exactly when the reduction is in proportion or takes the whole queue.
  lemma ModelsCompareAtOneLevel(queue: nat, reduction: nat, oldSize: int)
    requires 0 < reduction
    ensures QueueCut(Realistic, queue, reduction, oldSize) <= QueueCut(Aggressive, queue, reduction, oldSize)
       <==> oldSize <= 0 || queue <= reduction || InProportion(queue, reduction, oldSize)
  {
    if 0 < oldSize && reduction < queue {
      ProportionalAtMostReduction(queue, reduction, oldSize);
    }
  }

  // At every level change the order sees, the reduction is in proportion to the
  // realistic queue: for instance, the level was at least as large as that queue.
  ghost predicate Proportionate(o: Order, es: seq<MarketEvent>) {
    es != [] ==>
      var n := |es| - 1;
      Proportionate(o, es[..n])
      && (Touches(o, es[n]) && 0 < es[n].oldSize ==>
            InProportion(Steps(Realistic, o, es[..n]).queueAhead, es[n].oldSize - es[n].newSize, es[n].oldSize))
  }

  ghost predicate Ordered(a: Order, r: Order, c: Order) {
    a.queueAhead <= r.queueAhead <= c.queueAhead && c.filled <= r.filled <= a.filled
  }

  lemma LevelKeepsOrder(o: Order, a: Order, r: Order, c: Order, e: MarketEvent)
    requires Resting(a) && Resting(r) && Resting(c) && Ordered(a, r, c) && e.LevelEv?
    requires SameIdentity(o, a) && SameIdentity(o, r) && SameIdentity(o, c)
    requires Touches(o, e) && 0 < e.oldSize ==> InProportion(r.queueAhead, e.oldSize - e.newSize, e.oldSize)
    ensures Ordered(OrderStep(Aggressive, a, e).0, OrderStep(Realistic, r, e).0, OrderStep(Conservative, c, e).0)
  {
    LevelEffect(Aggressive, a, e);
    LevelEffect(Realistic, r, e);
    LevelEffect(Conservative, c, e);
    if Touches(o, e) && 0 < e.oldSize {
      ProportionalAtMostReduction(r.queueAhead, e.oldSize - e.newSize, e.oldSize);
    }
  }

  lemma TradeKeepsOrder(o: Order, a: Order, r: Order, c: Order, e: MarketEvent)
    requires Resting(a) && Resting(r) && Resting(c) && Ordered(a, r, c) && e.TradeEv?
    requires SameIdentity(o, a) && SameIdentity(o, r) && SameIdentity(o, c)
    ensures Ordered(OrderStep(Aggressive, a, e).0, OrderStep(Realistic, r, e).0, OrderStep(Conservative, c, e).0)
  {
    TradeEffect(Aggressive, a, e);
    TradeEffect(Realistic, r, e);
    TradeEffect(Conservative, c, e);
  }

  lemma EventKeepsOrder(o: Order, a: Order, r: Order, c: Order, e: MarketEvent)
    requires Resting(a) && Resting(r) && Resting(c) && Ordered(a, r, c) && !e.TickEv?
    requires SameIdentity(o, a) && SameIdentity(o, r) && SameIdentity(o, c)
    requires Touches(o, e) && 0 < e.oldSize ==> InProportion(r.queueAhead, e.oldSize - e.newSize, e.oldSize)
    ensures Ordered(OrderStep(Aggressive, a, e).0, OrderStep(Realistic, r, e).0, OrderStep(Conservative, c, e).0)
  {
    if e.TradeEv? { TradeKeepsOrder(o, a, r, c, e); } else { LevelKeepsOrder(o, a, r, c, e); }
  }

  lemma NextKeepsOrder(o: Order, es: seq<MarketEvent>, e: MarketEvent)
    requires Resting(o) && NoTicks(es) && !e.TickEv?
    requires Ordered(Steps(Aggressive, o, es), Steps(Realistic, o, es), Steps(Conservative, o, es))
    requires Touches(o, e) && 0 < e.oldSize ==>
      InProportion(Steps(Realistic, o, es).queueAhead, e.oldSize - e.newSize, e.oldSize)
    ensures Ordered(OrderStep(Aggressive, Steps(Aggressive, o, es), e).0,
                    OrderStep(Realistic, Steps(Realistic, o, es), e).0,
                    OrderStep(Conservative, Steps(Conservative, o, es), e).0)
  {
    StepsRest(Aggressive, o, es);
    StepsRest(Realistic, o, es);
    StepsRest(Conservative, o, es);
    EventKeepsOrder(o, Steps(Aggressive, o, es), Steps(Realistic, o, es), Steps(Conservative, o, es), e);
  }

  // Over any common stream, the more credit a model gives to cancellations the shorter
  // the queue it sees and the more it fills, at every point.
  lemma {:induction false} ModelsDominate(o: Order, es: seq<MarketEvent>)
    requires Resting(o) && NoTicks(es) && Proportionate(o, es)
    ensures Ordered(Steps(Aggressive, o, es), Steps(Realistic, o, es), Steps(Conservative, o, es))
  {
    if es != [] {
      var n := |es| - 1;
      ModelsDominate(o, es[..n]);
      NextKeepsOrder(o, es[..n], es[n]);
    }
  }

  // ------------------------------------------------- a stream that reports one level

  predicate ReportsLevel(o: Order, e: MarketEvent) {
    e.LevelEv? && e.marketId == o.marketId && e.isYes == o.isYes && e.side == o.side && e.price == o.price
  }

  // Size displayed at the order's level after the stream.
  function Displayed(o: Order, level: int, es: seq<MarketEvent>): int {
    if es == [] then level
    else if ReportsLevel(o, es[|es| - 1]) then es[|es| - 1].newSize
    else Displayed(o, level, es[..|es| - 1])
  }

  // Every report of the level starts from the size last displayed, and none is negative.
  ghost predicate Joined(o: Order, level: int, es: seq<MarketEvent>) {
    es != [] ==>
      var n := |es| - 1;
      Joined(o, level, es[..n])
      && (ReportsLevel(o, es[n]) ==> es[n].oldSize == Displayed(o, level, es[..n]) && 0 <= es[n].newSize)
  }

  // The size displayed when reports start to reach the order holds the queue it joined:
  // those before its arrival pass it by.
  ghost predicate HoldsQueue(o: Order, level: int, es: seq<MarketEvent>) {
    if es == [] then o.queueAhead <= level
    else
      var e := es[|es| - 1];
      if ReportsLevel(o, e) && e.now < o.arrivalT then o.queueAhead <= e.newSize
      else HoldsQueue(o, level, es[..|es| - 1])
  }

  ghost predicate Chained(o: Order, level: int, es: seq<MarketEvent>) {
    es != [] ==>
      var n := |es| - 1;
      Chained(o, level, es[..n])
      && (ReportsLevel(o, es[n]) ==>
            && es[n].oldSize == Displayed(o, level, es[..n]) && 0 <= es[n].newSize
            && (o.arrivalT <= es[n].now ==> HoldsQueue(o, level, es[..n])))
  }

  lemma ShareBound(queue: int, m: int, w: nat)
    requires queue <= m && 0 <= m
    ensures (queue - w) * (2 * m) <= 2 * (m - w) * queue + m
  {
    ScaleUp(queue, m, w);
    TwoProducts(queue, m, w);
  }

  lemma TwoProducts(q: int, m: int, w: int)
    ensures (q - w) * (2 * m) == 2 * (q * m) - 2 * (m * w)
    ensures 2 * (m - w) * q == 2 * (q * m) - 2 * (q * w)
  {
  }

  lemma ProportionalKeepsShare(queue: nat, oldSize: int, newSize: nat)
    requires queue <= oldSize && newSize < oldSize && 0 < queue
    ensures queue - Min(Proportional(queue, oldSize - newSize, oldSize), queue) <= newSize
  {
    ShareBound(queue, oldSize, newSize);
    QuotientIsLargest(queue - newSize, 2 * (oldSize - newSize) * queue + oldSize, 2 * oldSize);
  }

  // Then the realistic queue never exceeds the displayed level, so the side condition
  // of dominance maintains itself.
  lemma {:induction false} QueueWithinLevel(o: Order, level: int, es: seq<MarketEvent>)
    requires Resting(o) && NoTicks(es) && Chained(o, level, es)
    ensures Steps(Realistic, o, es).queueAhead <= o.queueAhead
    ensures HoldsQueue(o, level, es) ==> Steps(Realistic, o, es).queueAhead <= Displayed(o, level, es)
  {
    if es != [] {
      var n := |es| - 1;
      QueueWithinLevel(o, level, es[..n]);
      StepsRest(Realistic, o, es[..n]);
      QueueShrinks(Steps(Realistic, o, es[..n]), es[n]);
      if HoldsQueue(o, level, es[..n]) {
        StaysWithin(o, Steps(Realistic, o, es[..n]), es[n], Displayed(o, level, es[..n]));
      }
    }
  }

  lemma QueueShrinks(r: Order, e: MarketEvent)
    requires Resting(r) && !e.TickEv?
    ensures OrderStep(Realistic, r, e).0.queueAhead <= r.queueAhead
  {
    if e.TradeEv? { TradeEffect(Realistic, r, e); } else { LevelEffect(Realistic, r, e); }
  }

  // One event: what was within the size shown stays within the size shown next, if the
  // report reaches the order.
  lemma StaysWithin(o: Order, r: Order, e: MarketEvent, shown: int)
    requires Resting(r) && SameIdentity(o, r) && !e.TickEv? && r.queueAhead <= shown
    requires ReportsLevel(o, e) ==> e.oldSize == shown && 0 <= e.newSize
    ensures (ReportsLevel(o, e) && e.now < o.arrivalT)
         || OrderStep(Realistic, r, e).0.queueAhead <= if ReportsLevel(o, e) then e.newSize else shown
  {
    if e.TradeEv? {
      TradeEffect(Realistic, r, e);
    } else {
      LevelEffect(Realistic, r, e);
      if ReportsLevel(o, e) && e.newSize < e.oldSize && 0 < r.queueAhead {
        ProportionalKeepsShare(r.queueAhead, e.oldSize, e.newSize);
      }
    }
  }

  lemma {:induction false} FeedIsProportionate(o: Order, level: int, es: seq<MarketEvent>)
    requires Resting(o) && NoTicks(es) && Chained(o, level, es)
    ensures Proportionate(o, es)
  {
    if es != [] {
      FeedIsProportionate(o, level, es[..|es| - 1]);
      QueueWithinLevel(o, level, es[..|es| - 1]);
    }
  }

  lemma ModelsDominateOnFeed(o: Order, level: int, es: seq<MarketEvent>)
    requires Resting(o) && NoTicks(es) && Chained(o, level, es)
    ensures Ordered(Steps(Aggressive, o, es), Steps(Realistic, o, es), Steps(Conservative, o, es))
  {
    FeedIsProportionate(o, level, es);
    ModelsDominate(o, es);
  }

  // ---------------------------------------------------------- inside the simulator

  // The simulator's table after a stream of market events.
  function MarketRun(cfg: QueueCfg, q: QState, es: seq<MarketEvent>): QState {
    if es == [] then q else QStep(cfg, MarketRun(cfg, q, es[..|es| - 1]), MarketEv(es[|es| - 1])).0
  }

  // Each slot of the table goes through the steps of its own order, whatever the others do.
  lemma {:induction false} SlotFollowsItsOrder(cfg: QueueCfg, q: QState, es: seq<MarketEvent>, i: nat)
    requires i < |q.orders|
    ensures var q' := MarketRun(cfg, q, es);
      |q'.orders| == |q.orders| && q'.orders[i] == Steps(cfg.model, q.orders[i], es)
  {
    if es != [] { SlotFollowsItsOrder(cfg, q, es[..|es| - 1], i); }
  }

  // Three simulators that differ in their model only, fed the same reports of an order's
  // level and any trades: they agree on who fills more, for every such order.
  lemma SimulatorsDominate(a: QueueCfg, r: QueueCfg, c: QueueCfg, q: QState, es: seq<MarketEvent>,
                           i: nat, level: int)
    requires a.model == Aggressive && r.model == Realistic && c.model == Conservative
    requires i < |q.orders| && Resting(q.orders[i])
    requires NoTicks(es) && Chained(q.orders[i], level, es)
    ensures |MarketRun(a, q, es).orders| == |MarketRun(r, q, es).orders| == |MarketRun(c, q, es).orders| == |q.orders|
    ensures Ordered(MarketRun(a, q, es).orders[i], MarketRun(r, q, es).orders[i], MarketRun(c, q, es).orders[i])
    ensures HoldsQueue(q.orders[i], level, es) ==>
      MarketRun(r, q, es).orders[i].queueAhead <= Displayed(q.orders[i], level, es)
  {
    SlotFollowsItsOrder(a, q, es, i);
    SlotFollowsItsOrder(r, q, es, i);
    SlotFollowsItsOrder(c, q, es, i);
    ModelsDominateOnFeed(q.orders[i], level, es);
    QueueWithinLevel(q.orders[i], level, es);
  }

  // ------------------------------------------------------------- a feed out of step

  // A report of 10 shares going to 5, for a level that showed 100, and a trade of 60.
  function Misreported(t: nat): seq<MarketEvent> {
    [LevelEv(1, true, BID, 500, 10, 5, t), TradeEv(1, true, 500, 60, ASK, t)]
  }

  lemma {:induction false} StepsInTwo(model: QueueModel, o: Order, a: seq<MarketEvent>, b: seq<MarketEvent>)
    ensures Steps(model, o, a + b) == Steps(model, Steps(model, o, a), b)
  {
    if b == [] {
      assert a + b == a;
    } else {
      var n := |b| - 1;
      assert (a + b)[..|a| + n] == a + b[..n];
      StepsInTwo(model, o, a, b[..n]);
    }
  }

  lemma OneMoreStep(model: QueueModel, o: Order, e: MarketEvent)
    ensures Steps(model, o, [e]) == OrderStep(model, o, e).0
  {
    assert [e][..0] == [];
  }

  lemma TwoSteps(model: QueueModel, o: Order, es: seq<MarketEvent>)
    requires |es| == 2
    ensures Steps(model, o, es) == OrderStep(model, OrderStep(model, o, es[0]).0, es[1]).0
  {
    assert es[..1][..0] == [] && es[..1][0] == es[0];
    assert Steps(model, o, es[..1]) == OrderStep(model, Steps(model, o, []), es[0]).0;
  }

  lemma OutOfStepFills(o: Order, t: nat)
    requires o.state == PendingSubmit && o.arrivalT <= t && o.marketId == 1
    requires o.isYes && o.side == BID && o.price == 500
    requires o.queueAhead == 100 == o.remaining && o.filled == 0
    ensures Steps(Realistic, o, Misreported(t)).filled == 10 && Steps(Aggressive, o, Misreported(t)).filled == 0
  {
    assert Proportional(100, 5, 10) == 50;
    MisreportFills(Realistic, o, t, 50);
    MisreportFills(Aggressive, o, t, 5);
  }

  lemma MisreportFills(model: QueueModel, o: Order, t: nat, cut: nat)
    requires o.state == PendingSubmit && o.arrivalT <= t && o.marketId == 1
    requires o.isYes && o.side == BID && o.price == 500
    requires o.queueAhead == 100 == o.remaining && o.filled == 0
    requires model != Conservative && cut == QueueCut(model, 100, 5, 10)
    ensures Steps(model, o, Misreported(t)).filled == Max(0, 60 - (100 - cut))
  {
    TwoSteps(model, o, Misreported(t));
  }

  // A buy of 100 at 500 behind as many.
  ghost predicate Behind100(s: Submission, book: BookState) {
    && s.marketId == 1 && s.isYes && s.side == BID && s.otype == Limit && s.price == 500 && s.size == 100
    && book.bids == [Level(500, 100)] && book.asks == []
  }

  lemma Joins100(cfg: QueueCfg, s: Submission, book: BookState) returns (o: Order)
    requires Behind100(s, book)
    ensures book.Inv() && o == Submit(cfg, QInit(), s, Some(book), 0).0.orders[0] && OrderInv(o)
    ensures o.state == PendingSubmit && o.arrivalT == cfg.netNs + cfg.procNs && o.marketId == 1
    ensures o.isYes && o.side == BID && o.price == 500
    ensures o.queueAhead == 100 == o.remaining && o.filled == 0
  {
    FirstSubmission(cfg, s, Some(book), 0);
    o := NewOrder(cfg, s, FIRST_OID, QueueAtSubmit(s, Some(book)), 0);
  }

  // Then the models can cross: behind 100 shares, a buy of 100 fills 10 under the realistic
  // model and nothing under the aggressive one.
  lemma ModelsCanCross(cfg: QueueCfg, s: Submission, book: BookState, t: nat) returns (o: Order)
    requires Behind100(s, book) && cfg.netNs + cfg.procNs <= t
    ensures book.Inv() && o == Submit(cfg, QInit(), s, Some(book), 0).0.orders[0] && OrderInv(o)
    ensures Steps(Aggressive, o, Misreported(t)).filled == 0 < Steps(Realistic, o, Misreported(t)).filled == 10
  {
    o := Joins100(cfg, s, book);
    OutOfStepFills(o, t);
  }

  // The same on a feed without a break: most of the level is withdrawn while the order is
  // on its way.
  function Withdrawn(t: nat): seq<MarketEvent>
    requires 0 < t
  {
    [LevelEv(1, true, BID, 500, 100, 10, t - 1)] + Misreported(t)
  }

  lemma JoinedNext(o: Order, level: int, es: seq<MarketEvent>, e: MarketEvent, shown: int, all: seq<MarketEvent>)
    requires all == es + [e] && Joined(o, level, es) && Displayed(o, level, es) == shown
    requires ReportsLevel(o, e) ==> e.oldSize == shown && 0 <= e.newSize
    ensures Joined(o, level, all)
    ensures Displayed(o, level, all) == if ReportsLevel(o, e) then e.newSize else shown
  {
    assert all[..|es|] == es;
  }

  lemma WithdrawnIsJoined(o: Order, t: nat)
    requires 0 < t && o.marketId == 1 && o.isYes && o.side == BID && o.price == 500
    ensures Joined(o, 100, Withdrawn(t))
  {
    var es := Withdrawn(t);
    JoinedNext(o, 100, [], es[0], 100, [es[0]]);
    JoinedNext(o, 100, [es[0]], es[1], 10, [es[0], es[1]]);
    JoinedNext(o, 100, [es[0], es[1]], es[2], 5, es);
  }

  lemma ModelsCanCrossOnFeed(cfg: QueueCfg, s: Submission, book: BookState) returns (o: Order)
    requires Behind100(s, book) && 0 < cfg.netNs + cfg.procNs
    ensures o == Submit(cfg, QInit(), s, Some(book), 0).0.orders[0] && OrderInv(o) && 0 < o.arrivalT
    ensures var es := Withdrawn(o.arrivalT);
      Joined(o, 100, es) && Steps(Aggressive, o, es).filled == 0 < Steps(Realistic, o, es).filled == 10
  {
    o := Joins100(cfg, s, book);
    var t := o.arrivalT;
    var early := LevelEv(1, true, BID, 500, 100, 10, t - 1);
    WithdrawnIsJoined(o, t);
    OutOfStepFills(o, t);
    forall model: QueueModel ensures Steps(model, o, Withdrawn(t)) == Steps(model, o, Misreported(t)) {
      OneMoreStep(model, o, early);
      StepsInTwo(model, o, [early], Misreported(t));
    }
  }

  // ------------------------------------------------------------------ lost cancels

  // No tick of the stream is late enough to acknowledge the cancel.
  ghost predicate BeforeAck(o: Order, es: seq<MarketEvent>) {
    forall i :: 0 <= i < |es| && es[i].TickEv? ==> es[i].now < o.cancelAckT
  }

  // An order whose cancel was requested: still so while nothing filled, withdrawn since.
  ghost predicate CancelInFlight(o: Order, o1: Order) {
    && OrderInv(o1) && SameIdentity(o, o1) && o1.cancelAckT == o.cancelAckT && o.filled <= o1.filled
    && (if o1.filled == o.filled then o1.state == PendingCancel else o1.state == Partial || o1.state == FullyFilled)
  }

  // A fill in flight, from a trade or a sweep, silently withdraws the cancel: the tick
  // that should acknowledge it cancels the order exactly when nothing filled meanwhile.
  lemma CancelTakesEffect(model: QueueModel, o: Order, es: seq<MarketEvent>,
                          yes: Option<BookState>, no: Option<BookState>, now: nat)
    requires OrderInv(o) && o.state == PendingCancel && BeforeAck(o, es)
    requires o.otype == Limit || o.otype == Fok
    requires o.cancelAckT <= now
    ensures var o1 := Steps(model, o, es);
      var o2 := TickStep(o1, o.marketId, yes, no, now).0;
      o2.state == Cancelled <==> o1.filled == o.filled
  {
    InFlight(model, o, es);
  }

  lemma {:induction false} InFlight(model: QueueModel, o: Order, es: seq<MarketEvent>)
    requires OrderInv(o) && o.state == PendingCancel && BeforeAck(o, es)
    requires o.otype == Limit || o.otype == Fok
    ensures CancelInFlight(o, Steps(model, o, es))
  {
    if es != [] {
      var n := |es| - 1;
      InFlight(model, o, es[..n]);
      InFlightNext(model, o, Steps(model, o, es[..n]), es[n]);
    }
  }

  lemma InFlightNext(model: QueueModel, o: Order, o1: Order, e: MarketEvent)
    requires CancelInFlight(o, o1) && (o.otype == Limit || o.otype == Fok)
    requires e.TickEv? ==> e.now < o.cancelAckT
    ensures CancelInFlight(o, OrderStep(model, o1, e).0)
  {
    OrderStepGood(model, o1, e);
  }

  // No cancellations ahead are credited: trades only, or the model that credits none.
  ghost predicate NoCredit(model: QueueModel, es: seq<MarketEvent>) {
    NoTicks(es) && (model == Conservative || forall i :: 0 <= i < |es| ==> es[i].TradeEv?)
  }

  // The order after volume v has reached it, in terms of what it was.
  ghost predicate Outrun(o: Order, o1: Order, v: nat) {
    && Resting(o1) && SameIdentity(o, o1) && o.filled <= o1.filled
    && (o1.filled == o.filled <==> v <= o.queueAhead) && o1.queueAhead == Max(0, o.queueAhead - v)
  }

  lemma OutrunNext(model: QueueModel, o: Order, o1: Order, v: nat, e: MarketEvent)
    requires Resting(o) && o.remaining > 0 && Outrun(o, o1, v)
    requires e.TradeEv? || (e.LevelEv? && model == Conservative)
    ensures Outrun(o, OrderStep(model, o1, e).0, v + Reaching(o, e))
  {
    ReachingIsStatic(o, o1, e);
    if e.TradeEv? { TradeEffect(model, o1, e); } else { LevelEffect(model, o1, e); }
  }

  // Whether anything fills is then a matter of volume against the queue.
  lemma {:induction false} FillsByVolume(model: QueueModel, o: Order, es: seq<MarketEvent>)
    requires Resting(o) && o.remaining > 0 && NoCredit(model, es)
    ensures Outrun(o, Steps(model, o, es), Volume(o, es))
  {
    if es != [] {
      var n := |es| - 1;
      FillsByVolume(model, o, es[..n]);
      OutrunNext(model, o, Steps(model, o, es[..n]), Volume(o, es[..n]), es[n]);
    }
  }

  // So a cancel takes effect exactly when the volume that reaches the order before the
  // acknowledgement does not exceed the queue ahead of it.
  lemma CancelByVolume(model: QueueModel, o: Order, es: seq<MarketEvent>,
                       yes: Option<BookState>, no: Option<BookState>, now: nat)
    requires Resting(o) && o.state == PendingCancel && NoCredit(model, es)
    requires o.otype == Limit || o.otype == Fok
    requires o.cancelAckT <= now
    ensures TickStep(Steps(model, o, es), o.marketId, yes, no, now).0.state == Cancelled
       <==> Volume(o, es) <= o.queueAhead
  {
    CancelTakesEffect(model, o, es, yes, no, now);
    FillsByVolume(model, o, es);
  }

  // Where a requested cancel of any order can lead.
  ghost predicate AfterRequest(o: Order, o1: Order) {
    && OrderInv(o1) && SameIdentity(o, o1) && o1.cancelAckT == o.cancelAckT
    && (o1.state == PendingCancel || o1.state == Partial || Terminal(o1))
  }

  lemma {:induction false} RequestRuns(model: QueueModel, o: Order, es: seq<MarketEvent>)
    requires OrderInv(o) && o.state == PendingCancel
    ensures AfterRequest(o, Steps(model, o, es))
  {
    if es != [] {
      RequestRuns(model, o, es[..|es| - 1]);
      RequestNext(model, o, Steps(model, o, es[..|es| - 1]), es[|es| - 1]);
    }
  }

  lemma RequestNext(model: QueueModel, o: Order, o1: Order, e: MarketEvent)
    requires AfterRequest(o, o1)
    ensures AfterRequest(o, OrderStep(model, o1, e).0)
  {
    OrderStepGood(model, o1, e);
  }

  // A market or IOC order cannot lose its cancel: the first tick after acknowledgement and
  // arrival that has its book ends it, cancelled exactly when it is not filled in full.
  lemma TakerIsDone(model: QueueModel, o: Order, es: seq<MarketEvent>,
                    yes: Option<BookState>, no: Option<BookState>, now: nat)
    requires OrderInv(o) && o.state == PendingCancel && (o.otype == Market || o.otype == Ioc)
    requires o.cancelAckT <= now && o.arrivalT <= now && (if o.isYes then yes else no).Some?
    ensures var o2 := TickStep(Steps(model, o, es), o.marketId, yes, no, now).0;
      Terminal(o2) && (o2.state == Cancelled <==> o2.filled < o2.original)
  {
    RequestRuns(model, o, es);
    TickStepGood(Steps(model, o, es), o.marketId, yes, no, now);
  }

  // A lost cancel: 40 of 100 trade after the request, and the acknowledging tick leaves the
  // other 60 resting.
  lemma CancelCanBeLost(cfg: QueueCfg, s: Submission) returns (o: Order)
    requires cfg.netNs == 0 == cfg.procNs && cfg.cancelNs == 5
    requires s.marketId == 1 && s.isYes && s.side == BID && s.otype == Limit && s.price == 500 && s.size == 100
    ensures Cancel(cfg, Submit(cfg, QInit(), s, None, 0).0, FIRST_OID, 0).1 == 0
    ensures o == Cancel(cfg, Submit(cfg, QInit(), s, None, 0).0, FIRST_OID, 0).0.orders[0]
    ensures o.state == PendingCancel && o.cancelAckT == 5
    ensures var o2 := TickStep(TradeStep(o, 1, true, 500, 40, ASK, 1).0, 1, None, None, 5).0;
      o2.state == Partial && o2.filled == 40 && o2.remaining == 60
  {
    FirstSubmission(cfg, s, None, 0);
    var q := Submit(cfg, QInit(), s, None, 0).0;
    FirstCancellableIs(q.orders, FIRST_OID, 0);
    o := CancelRequested(cfg, q.orders[0], 0);
    LostAfter(o);
  }

  lemma LostAfter(o: Order)
    requires o.state == PendingCancel && o.marketId == 1 && o.isYes && o.side == BID && o.otype == Limit
    requires o.price == 500 && o.remaining == 100 && o.filled == 0 && o.queueAhead == 0 && o.arrivalT == 0
    ensures var o1 := TradeStep(o, 1, true, 500, 40, ASK, 1).0;
      var o2 := TickStep(o1, 1, None, None, 5).0;
      o2.state == Partial && o2.filled == 40 && o2.remaining == 60
  {
  }

  // ------------------------------------------------------------------- fill prices

  // A trade fills a resting order exactly at its limit.
  lemma TradeFillsAtLimit(o: Order, m: nat, y: bool, price: int, size: nat, side: int, now: nat)
    ensures forall f :: f in TradeStep(o, m, y, price, size, side, now).1 ==> f.price == o.price
  {
  }

  // With a sorted, positive book a sweep always finds something to walk: the code's
  // fallback quantity is never used.
  lemma SweepAlwaysWalks(o: Order, book: BookState)
    requires book.Inv() && Swept(o, book) && 0 < o.remaining
    ensures SweepQty(o, book) == Filled(book.WalkOrder(Opposite(o.side)), o.remaining) > 0
  {
    WalkOrderIs(book);
  }

  // Shares shown on the opposite side at prices inside the limit.
  function DepthInside(o: Order, book: BookState): nat {
    if o.side == BID then DepthUpTo(book.asks, o.price)
    else DepthUpTo(Negated(Reversed(book.bids)), -o.price)
  }

  lemma {:induction false} NegatedUsed(ls: seq<Level>, want: nat)
    ensures Used(Negated(ls), want) == Used(ls, want)
  {
    if ls != [] && want > 0 {
      assert Negated(ls)[1..] == Negated(ls[1..]);
      NegatedUsed(ls[1..], want - Min(ls[0].size, want));
    }
  }

  // A price the order accepts.
  predicate Acceptable(o: Order, price: int) {
    if o.side == BID then price <= o.price else price >= o.price
  }

  // The levels a sweep uses are all inside the limit.
  ghost predicate SweptInside(o: Order, ls: seq<Level>) {
    Used(ls, o.remaining) <= |ls| && forall i :: 0 <= i < Used(ls, o.remaining) ==> Acceptable(o, ls[i].price)
  }

  lemma BuyStaysInside(o: Order, ls: seq<Level>)
    requires o.side == BID && Ascending(ls) && PositiveSizes(ls)
    ensures SweptInside(o, ls) <==> Filled(ls, o.remaining) <= DepthUpTo(ls, o.price)
  {
    WalkWithinLimit(ls, o.remaining, o.price);
  }

  lemma SellStaysInside(o: Order, ls: seq<Level>)
    requires o.side != BID && Descending(ls) && PositiveSizes(ls)
    ensures SweptInside(o, ls) <==> Filled(ls, o.remaining) <= DepthUpTo(Negated(ls), -o.price)
  {
    BidsWithinLimit(ls, o.remaining, o.price);
  }

  // What a sweep walks and takes, by side.
  lemma BuySweepWalks(o: Order, book: BookState)
    requires book.Inv() && Swept(o, book) && 0 < o.remaining && o.side == BID
    ensures var ls := book.asks;
      book.WalkOrder(Opposite(o.side)) == ls && SweepQty(o, book) == Filled(ls, o.remaining)
      && DepthInside(o, book) == DepthUpTo(ls, o.price) && PositiveSizes(ls) && Ascending(ls)
  {
    SweepAlwaysWalks(o, book);
  }

  lemma SellSweepWalks(o: Order, book: BookState)
    requires book.Inv() && Swept(o, book) && 0 < o.remaining && o.side != BID
    ensures var ls := Reversed(book.bids);
      book.WalkOrder(Opposite(o.side)) == ls && SweepQty(o, book) == Filled(ls, o.remaining)
      && DepthInside(o, book) == DepthUpTo(Negated(ls), -o.price) && PositiveSizes(ls) && Descending(ls)
  {
    SweepAlwaysWalks(o, book);
    WalkOrderIs(book);
  }

  // A sweep trades only at prices inside the limit exactly when the depth inside the
  // limit covers what it takes.
  lemma SweepStaysInside(o: Order, book: BookState)
    requires book.Inv() && Swept(o, book) && 0 < o.remaining
    ensures SweptInside(o, book.WalkOrder(Opposite(o.side))) <==> SweepQty(o, book) <= DepthInside(o, book)
  {
    if o.side == BID {
      BuySweepWalks(o, book);
      BuyStaysInside(o, book.WalkOrder(Opposite(o.side)));
    } else {
      SellSweepWalks(o, book);
      SellStaysInside(o, book.WalkOrder(Opposite(o.side)));
    }
  }

  // The walk of a bid side stays at or above a limit when the depth there covers it.
  lemma BidsWithinLimit(ls: seq<Level>, want: nat, limit: int)
    requires Descending(ls) && PositiveSizes(ls)
    ensures Used(ls, want) <= |ls|
    ensures (forall i :: 0 <= i < Used(ls, want) ==> ls[i].price >= limit)
       <==> Filled(ls, want) <= DepthUpTo(Negated(ls), -limit)
  {
    var ns := Negated(ls);
    NegatedUsed(ls, want);
    NegatedWalk(ls, want);
    WalkWithinLimit(ns, want, -limit);
    if forall i :: 0 <= i < Used(ls, want) ==> ls[i].price >= limit {
      assert forall i :: 0 <= i < Used(ns, want) ==> ns[i].price <= -limit;
    }
    if forall i :: 0 <= i < Used(ns, want) ==> ns[i].price <= -limit {
      forall i | 0 <= i < Used(ls, want) ensures ls[i].price >= limit {
        assert ns[i].price <= -limit;
      }
    }
  }

  lemma BuySweepRespectsLimit(o: Order, book: BookState)
    requires book.Inv() && o.side == BID && 0 < Filled(book.asks, o.remaining) <= DepthUpTo(book.asks, o.price)
    ensures SweepPrice(o, book) <= o.price
  {
    LimitedVwap(book.asks, o.remaining, o.price);
  }

  lemma SellSweepRespectsLimit(o: Order, book: BookState)
    requires book.Inv() && o.side != BID
    requires 0 < Filled(Reversed(book.bids), o.remaining) <= DepthUpTo(Negated(Reversed(book.bids)), -o.price)
    ensures o.price <= SweepPrice(o, book)
  {
    WalkOrderIs(book);
    LimitedBidVwap(Reversed(book.bids), o.remaining, o.price);
  }

  // When the depth inside the limit covers what a sweep takes, it fills at a price no
  // worse than the limit.
  lemma SweepRespectsLimit(o: Order, book: BookState)
    requires book.Inv() && Swept(o, book) && 0 < o.remaining
    requires SweepQty(o, book) <= DepthInside(o, book)
    ensures Acceptable(o, SweepPrice(o, book))
  {
    SweepAlwaysWalks(o, book);
    if o.side == BID {
      BuySweepRespectsLimit(o, book);
    } else {
      SellSweepRespectsLimit(o, book);
    }
  }

  // What a buy may pay beyond its limit, set against what it saves below it and what the
  // truncated average drops; what a sell may lose, against what it gains. An average that
  // truncates to nothing is charged at the limit.
  ghost predicate PaysForItself(o: Order, ls: seq<Level>) {
    var qty := Filled(ls, o.remaining);
    var beyond, below := Beyond(ls, o.remaining, o.price), Below(ls, o.remaining, o.price);
    if o.side == BID then beyond < below + qty else below <= beyond || Cost(ls, o.remaining) < qty
  }

  lemma BuyPaysForItself(o: Order, book: BookState)
    requires book.Inv() && o.side == BID && Swept(o, book) && 0 < o.remaining
    ensures SweepPrice(o, book) <= o.price <==> PaysForItself(o, book.asks)
  {
    BuySweepWalks(o, book);
    SweepAlwaysWalks(o, book);
    VwapAgainstLimit(book.asks, o.remaining, o.price);
  }

  lemma SellPaysForItself(o: Order, book: BookState)
    requires book.Inv() && o.side != BID && Swept(o, book) && 0 < o.remaining
    ensures o.price <= SweepPrice(o, book) <==> PaysForItself(o, Reversed(book.bids))
  {
    var ls := Reversed(book.bids);
    SellSweepWalks(o, book);
    SweepAlwaysWalks(o, book);
    VwapAgainstLimit(ls, o.remaining, o.price);
    VwapAgainstLimit(ls, o.remaining, 0);
    CostAgainstLimit(ls, o.remaining, 0);
  }

  // The price of a sweep is acceptable exactly then.
  lemma SweepPriceExactness(o: Order, book: BookState)
    requires book.Inv() && Swept(o, book) && 0 < o.remaining
    ensures Acceptable(o, SweepPrice(o, book)) <==> PaysForItself(o, book.WalkOrder(Opposite(o.side)))
  {
    if o.side == BID {
      BuySweepWalks(o, book);
      BuyPaysForItself(o, book);
    } else {
      SellSweepWalks(o, book);
      SellPaysForItself(o, book);
    }
  }

  lemma LimitedBidVwap(ls: seq<Level>, want: nat, limit: int)
    requires Descending(ls) && PositiveSizes(ls) && 0 < Filled(ls, want) <= DepthUpTo(Negated(ls), -limit)
    ensures limit <= Vwap(ls, want)
  {
    NegatedWalk(ls, want);
    LimitedCost(Negated(ls), want, -limit);
    CostAtLeast(limit, Cost(ls, want), Filled(ls, want));
  }

  lemma CostAtLeast(limit: int, cost: int, filled: nat)
    requires 0 < filled && -cost <= -limit * filled
    ensures limit <= cost / filled
  {
    assert -limit * filled == -(limit * filled);
    QuotientIsLargest(limit, cost, filled);
  }

  lemma LimitedCost(ls: seq<Level>, want: nat, limit: int)
    requires Ascending(ls) && PositiveSizes(ls) && Filled(ls, want) <= DepthUpTo(ls, limit)
    ensures Cost(ls, want) <= limit * Filled(ls, want)
  {
    WalkWithinLimit(ls, want, limit);
    UsedLevelsBoundCost(ls, want, limit);
  }

  lemma LimitedVwap(ls: seq<Level>, want: nat, limit: int)
    requires Ascending(ls) && PositiveSizes(ls) && 0 < Filled(ls, want) <= DepthUpTo(ls, limit)
    ensures Vwap(ls, want) <= limit
  {
    LimitedCost(ls, want, limit);
    FlooredRatios(Cost(ls, want), Filled(ls, want), limit, 1);
  }

  const TWO_ASKS: seq<Level> := [Level(400, 10), Level(900, 90)]

  lemma TwoAsksWalk()
    ensures Filled(TWO_ASKS, 100) == 100 && Vwap(TWO_ASKS, 100) == 850
  {
    var ls := TWO_ASKS;
    assert ls[1..] == [Level(900, 90)] && ls[1..][1..] == [];
    CostUnfolds(ls, 100);
    CostUnfolds(ls[1..], 90);
    assert Depth(ls) == 100 && Cost(ls, 100) == 85000;
  }

  // The first order of a fresh simulator.
  lemma FirstSubmission(cfg: QueueCfg, s: Submission, book: Option<BookState>, now: nat)
    requires 0 < s.size && 0 < s.price
    ensures var (q, id) := Submit(cfg, QInit(), s, book, now);
      id == FIRST_OID && q.orders == QInit().orders[0 := NewOrder(cfg, s, FIRST_OID, QueueAtSubmit(s, book), now)]
  {
    FirstReusableIs(QInit().orders, 0);
  }

  lemma SweepOfWhole(o: Order, book: BookState)
    requires o.state == PendingSubmit && o.arrivalT == 0 && o.marketId == 1 && o.isYes && o.side == BID
    requires o.otype == Limit && o.price == 500 && o.remaining == 100 && book.asks == TWO_ASKS
    ensures var (o', fills) := TickStep(o, 1, Some(book), None, 0);
      o'.state == FullyFilled && |fills| == 1 && fills[0].qty == 100 && fills[0].price == 850
  {
    TwoAsksWalk();
    assert book.WalkOrder(Opposite(o.side)) == TWO_ASKS;
  }

  // Without that cover it can pass the limit: submitted with no latency and ticked on the
  // same book, a buy of 100 at 500 takes 10 shares at 400 and 90 at 900 and pays 850.
  lemma SweepCanPassLimit(cfg: QueueCfg, s: Submission, book: BookState) returns (o: Order)
    requires cfg.netNs == 0 == cfg.procNs
    requires s.marketId == 1 && s.isYes && s.side == BID && s.otype == Limit && s.price == 500 && s.size == 100
    requires book.bids == [] && book.asks == TWO_ASKS
    ensures book.Inv() && o == Submit(cfg, QInit(), s, Some(book), 0).0.orders[0]
    ensures OrderInv(o) && o.price == 500
    ensures var (o', fills) := TickStep(o, 1, Some(book), None, 0);
      o'.state == FullyFilled && |fills| == 1 && fills[0].qty == 100 && fills[0].price == 850
  {
    o := NewOrder(cfg, s, FIRST_OID, QueueAtSubmit(s, Some(book)), 0);
    FirstSubmission(cfg, s, Some(book), 0);
    SweepOfWhole(o, book);
  }
}
