// What each operation of the simulator comes to for one order, read off prices, sides,
// sizes and clocks: which trades fill it and by how much, what a shrinking level takes off
// its queue, when a tick arrives, acknowledges, takes or sweeps, and at what price.

module QueueOutcomes {
  import opened Arith
  import opened Types
  import opened Walk
  import opened OrderBook
  import opened SimQueue
  import opened OrderRuns

  // At the matching engine by this time and not finished, its arrival noticed or not.
  predicate AtEngine(o: Order, now: nat) {
    && o.arrivalT <= now
    && (o.state == PendingSubmit || o.state == Live || o.state == Partial || o.state == PendingCancel)
  }

  predicate OfOutcome(o: Order, marketId: nat, isYes: bool) {
    o.marketId == marketId && o.isYes == isYes
  }

  // The state of an order that was found at the matching engine and did not fill.
  function Noticed(o: Order): OrderState {
    if o.state == PendingSubmit then Live else o.state
  }

  // An order with qty more shares at a price.
  ghost predicate Grown(o: Order, o': Order, qty: nat, price: int) {
    && qty <= o.remaining && o'.remaining == o.remaining - qty && o'.filled == o.filled + qty
    && o'.cumCost == o.cumCost + qty * price && o'.original == o.original
    && o'.avgFillPrice == if o'.filled > 0 then o'.cumCost / o'.filled else 0
  }

  // Of its queue and its volumes nothing but these.
  ghost predicate Queued(o: Order, o': Order, ahead: int, consumed: int, cancelled: int) {
    && o'.queueAhead == ahead == o'.queueAfterUpdates && o'.initialQueue == o.initialQueue
    && o'.consumed == consumed && o'.cancelled == cancelled
  }

  // Nothing but those figures, the state and the time of the last update.
  ghost predicate Kept(o: Order, o': Order) {
    && SameIdentity(o, o') && o'.ackT == o.ackT
    && o'.cancelReqT == o.cancelReqT && o'.cancelAckT == o.cancelAckT
  }

  // ------------------------------------------------------------------------- trades

  // A trade gets to an order of its outcome at the matching engine when its aggressor is
  // not on the order's own side and its price is the limit or better for the aggressor's
  // opposite: at or below a buy's limit, at or above a sell's.
  predicate Reaches(o: Order, marketId: nat, isYes: bool, price: int, size: nat, side: int, now: nat) {
    && 0 < size && OfOutcome(o, marketId, isYes) && AtEngine(o, now)
    && (o.side == BID ==> side != BID && price <= o.price)
    && (o.side != BID ==> side != ASK && o.price <= price)
  }

  // An order after a size that came to it: the queue goes first, the rest fills at the
  // order's limit.
  ghost predicate Served(o: Order, o': Order, fills: seq<FillRec>, size: nat, now: nat) {
    var qty := Min(o.remaining, Max(0, size - o.queueAhead));
    && Kept(o, o') && Grown(o, o', qty, o.price)
    && Queued(o, o', Max(0, o.queueAhead - size), o.consumed + Min(o.queueAhead, size), o.cancelled)
    && o'.state == (if qty == 0 then Noticed(o) else if qty == o.remaining then FullyFilled else Partial)
    && o'.lastUpdateT == (if qty == 0 then o.lastUpdateT else now)
    && fills == if qty == 0 then [] else [FillRec(o'.(queueAfterUpdates := o.queueAhead), qty, o.price, now)]
  }

  lemma HitServes(o: Order, size: nat, now: nat)
    requires OrderInv(o) && 0 < o.remaining && o.state != PendingSubmit
    ensures Served(o, HitBy(o, size, now).0, HitBy(o, size, now).1, size, now)
  {
  }

  // Noticing the arrival first makes no difference.
  lemma ServedFromArrival(o: Order, o': Order, fills: seq<FillRec>, size: nat, now: nat)
    requires Served(o.(state := Noticed(o)), o', fills, size, now)
    ensures Served(o, o', fills, size, now)
  {
  }

  lemma ReachingTradeHits(model: QueueModel, o: Order, marketId: nat, isYes: bool, price: int,
                          size: nat, side: int, now: nat)
    requires OrderInv(o) && Reaches(o, marketId, isYes, price, size, side, now)
    ensures var o1 := o.(state := Noticed(o));
      OrderInv(o1) && 0 < o1.remaining
      && OrderStep(model, o, TradeEv(marketId, isYes, price, size, side, now)) == HitBy(o1, size, now)
  {
  }

  lemma TradeReaches(model: QueueModel, o: Order, marketId: nat, isYes: bool, price: int,
                     size: nat, side: int, now: nat)
    requires OrderInv(o) && Reaches(o, marketId, isYes, price, size, side, now)
    ensures var (o', fills) := OrderStep(model, o, TradeEv(marketId, isYes, price, size, side, now));
      Served(o, o', fills, size, now)
  {
    ReachingTradeHits(model, o, marketId, isYes, price, size, side, now);
    var o1 := o.(state := Noticed(o));
    HitServes(o1, size, now);
    ServedFromArrival(o, HitBy(o1, size, now).0, HitBy(o1, size, now).1, size, now);
  }

  // Any other trade only lets an order of its outcome notice its arrival.
  lemma TradePassesBy(model: QueueModel, o: Order, marketId: nat, isYes: bool, price: int,
                      size: nat, side: int, now: nat)
    requires OrderInv(o) && !Reaches(o, marketId, isYes, price, size, side, now)
    ensures var (o', fills) := OrderStep(model, o, TradeEv(marketId, isYes, price, size, side, now));
      fills == []
      && o' == if 0 < size && OfOutcome(o, marketId, isYes) && AtEngine(o, now) then o.(state := Noticed(o)) else o
  {
  }

  // So there is a callback exactly when the trade reaches the order with more than the
  // queue ahead of it.
  lemma TradeFillsWhen(model: QueueModel, o: Order, marketId: nat, isYes: bool, price: int,
                       size: nat, side: int, now: nat)
    requires OrderInv(o)
    ensures OrderStep(model, o, TradeEv(marketId, isYes, price, size, side, now)).1 != []
       <==> Reaches(o, marketId, isYes, price, size, side, now) && o.queueAhead < size
  {
    if Reaches(o, marketId, isYes, price, size, side, now) {
      TradeReaches(model, o, marketId, isYes, price, size, side, now);
    } else {
      TradePassesBy(model, o, marketId, isYes, price, size, side, now);
    }
  }

  // ------------------------------------------------------------------ level changes

  // The level an order rests at has shrunk, and the order is there to see it.
  predicate Shrinks(o: Order, marketId: nat, isYes: bool, side: int, price: int, oldSize: int, newSize: int, now: nat) {
    OfOutcome(o, marketId, isYes) && o.side == side && o.price == price && newSize < oldSize && AtEngine(o, now)
  }

  // c is the whole number nearest to d * q / n, the larger of two.
  ghost predicate NearestShare(c: int, d: int, q: int, n: int) {
    2 * d * q - n < 2 * n * c <= 2 * d * q + n
  }

  // What a reduction d of a level of n takes off a queue q: nothing, all it can, or the
  // queue's share of it, as far as the queue goes.
  ghost predicate TakenOff(model: QueueModel, c: nat, q: nat, d: nat, n: int) {
    match model
    case Conservative => c == 0
    case Aggressive => c == Min(q, d)
    case Realistic =>
      if n <= 0 then c == 0
      else NearestShare(c, d, q, n) || (c == q && 2 * n * c <= 2 * d * q - n)
  }

  lemma ShareIsNearest(queue: nat, reduction: nat, oldSize: int)
    requires 0 < oldSize
    ensures NearestShare(Proportional(queue, reduction, oldSize), reduction, queue, oldSize)
  {
    var x, k := 2 * reduction * queue + oldSize, 2 * oldSize;
    assert x == k * (x / k) + x % k;
  }

  lemma SmallerSharePast(c: nat, share: nat, d: nat, q: nat, n: int)
    requires 0 < n && NearestShare(share, d, q, n) && c < share
    ensures 2 * n * c <= 2 * d * q - n
  {
    ScaleUp(c + 1, share, 2 * n);
    Distribute(2 * n, c, 1);
    Commutes(c + 1, 2 * n);
    Commutes(share, 2 * n);
  }

  lemma CutIsTakenOff(model: QueueModel, queue: nat, reduction: nat, oldSize: int)
    ensures TakenOff(model, QueueCut(model, queue, reduction, oldSize), queue, reduction, oldSize)
  {
    if model == Realistic && 0 < oldSize {
      var share := Proportional(queue, reduction, oldSize);
      ShareIsNearest(queue, reduction, oldSize);
      if queue < share { SmallerSharePast(queue, share, reduction, queue, oldSize); }
    }
  }

  // A level within the order's sight that shrinks moves its queue, and only that.
  lemma LevelShrinks(model: QueueModel, o: Order, marketId: nat, isYes: bool, side: int, price: int,
                     oldSize: int, newSize: int, now: nat)
    requires OrderInv(o) && Shrinks(o, marketId, isYes, side, price, oldSize, newSize, now)
    ensures var (o', fills) := OrderStep(model, o, LevelEv(marketId, isYes, side, price, oldSize, newSize, now));
      var c := o.queueAhead - o'.queueAhead;
      && fills == [] && Kept(o, o') && Grown(o, o', 0, 0)
      && 0 <= c && TakenOff(model, c, o.queueAhead, oldSize - newSize, oldSize)
      && Queued(o, o', o.queueAhead - c, o.consumed, o.cancelled + c)
      && o'.state == Noticed(o) && o'.lastUpdateT == o.lastUpdateT
  {
    CutIsTakenOff(model, o.queueAhead, oldSize - newSize, oldSize);
  }

  lemma LevelPassesBy(model: QueueModel, o: Order, marketId: nat, isYes: bool, side: int, price: int,
                      oldSize: int, newSize: int, now: nat)
    requires OrderInv(o) && !Shrinks(o, marketId, isYes, side, price, oldSize, newSize, now)
    ensures OrderStep(model, o, LevelEv(marketId, isYes, side, price, oldSize, newSize, now)) == (o, [])
  {
  }

  // Under the realistic model a level with a size left gives the queue just its share, a
  // tie going to the order.
  lemma RealisticShare(o: Order, oldSize: int, newSize: int, now: nat)
    requires OrderInv(o) && AtEngine(o, now) && 0 <= newSize < oldSize
    ensures var e := LevelEv(o.marketId, o.isYes, o.side, o.price, oldSize, newSize, now);
      NearestShare(o.queueAhead - OrderStep(Realistic, o, e).0.queueAhead, oldSize - newSize, o.queueAhead, oldSize)
  {
    var e := LevelEv(o.marketId, o.isYes, o.side, o.price, oldSize, newSize, now);
    LevelShrinks(Realistic, o, o.marketId, o.isYes, o.side, o.price, oldSize, newSize, now);
    ShareFits(o.queueAhead - OrderStep(Realistic, o, e).0.queueAhead, o.queueAhead, oldSize - newSize, oldSize);
  }

  lemma ShareFits(c: nat, q: nat, d: nat, n: int)
    requires 0 < n && d <= n && TakenOff(Realistic, c, q, d, n)
    ensures NearestShare(c, d, q, n)
  {
    ScaleUp(d, n, 2 * q);
    assert d * (2 * q) == 2 * d * q && n * (2 * q) == 2 * n * q;
  }

  // -------------------------------------------------------------------------- ticks

  // The levels an order trades against, best first.
  function Against(o: Order, book: BookState): (ls: seq<Level>)
    ensures o.side == BID ==> ls == book.asks
    ensures o.side != BID ==>
      |ls| == |book.bids| && forall i :: 0 <= i < |ls| ==> ls[i] == book.bids[|book.bids| - 1 - i]
  {
    if o.side == BID then book.asks else Reversed(book.bids)
  }

  // Some of them are strictly through its limit.
  predicate Crossed(o: Order, book: BookState) {
    if o.side == BID then book.asks != [] && book.asks[0].price < o.price
    else book.bids != [] && o.price < book.bids[|book.bids| - 1].price
  }

  // p is the average of n shares that cost this much, less what truncation drops.
  ghost predicate Averages(p: int, n: nat, cost: int) {
    p * n <= cost < (p + 1) * n
  }

  lemma VwapAverages(ls: seq<Level>, want: nat)
    requires 0 < Filled(ls, want)
    ensures Averages(Vwap(ls, want), Filled(ls, want), Cost(ls, want))
  {
    VwapMeans(ls, want);
  }

  // A tick of another market, a state without interest in it, a time before arrival or a
  // missing book: at most the arrival is noticed.
  lemma TickPassesBy(model: QueueModel, o: Order, marketId: nat, yes: Option<BookState>,
                     no: Option<BookState>, now: nat)
    requires OrderInv(o) && !(o.state == PendingCancel && o.cancelAckT <= now)
    requires o.marketId != marketId || !AtEngine(o, now) || (if o.isYes then yes else no) == None
    ensures OrderStep(model, o, TickEv(marketId, yes, no, now))
         == (if o.marketId == marketId && o.state == PendingSubmit && o.arrivalT <= now
             then o.(state := Live, lastUpdateT := now) else o, [])
  {
  }

  // A cancel whose time has come.
  lemma TickAcknowledges(model: QueueModel, o: Order, yes: Option<BookState>, no: Option<BookState>, now: nat)
    requires o.state == PendingCancel && o.cancelAckT <= now
    ensures OrderStep(model, o, TickEv(o.marketId, yes, no, now)) == (o.(state := Cancelled, lastUpdateT := now), [])
  {
  }

  // An order that a tick sets against its book.
  ghost predicate Faces(o: Order, book: BookState, yes: Option<BookState>, no: Option<BookState>, now: nat) {
    && OrderInv(o) && book.Inv() && AtEngine(o, now) && !(o.state == PendingCancel && o.cancelAckT <= now)
    && (if o.isYes then yes else no) == Some(book)
  }

  // The queue has no part in it.
  ghost predicate QueueKept(o: Order, o': Order) {
    Queued(o, o', o.queueAhead, o.consumed, o.cancelled)
  }

  lemma FacingTick(model: QueueModel, o: Order, book: BookState, yes: Option<BookState>,
                   no: Option<BookState>, now: nat)
    requires Faces(o, book, yes, no, now)
    ensures OrderStep(model, o, TickEv(o.marketId, yes, no, now)) == BookStep(LiveNow(o, now), book, now)
    ensures OrderInv(LiveNow(o, now)) && LiveNow(o, now).Working() && LiveNow(o, now).otype == o.otype
  {
  }

  lemma LevelsAgainst(o: Order, book: BookState)
    requires book.Inv()
    ensures book.WalkOrder(Opposite(o.side)) == Against(o, book)
    ensures PositiveSizes(Against(o, book)) && (Against(o, book) == [] <==> OppositeBest(o, book) == None)
  {
  }

  // What a market or IOC order takes: what there is, at the average of it, and no more.
  ghost predicate Took(o: Order, o': Order, fills: seq<FillRec>, ls: seq<Level>, now: nat) {
    var qty := Min(o.remaining, Depth(ls));
    && Kept(o, o') && QueueKept(o, o')
    && o'.state == (if qty == o.remaining then FullyFilled else Cancelled)
    && o'.lastUpdateT == (if qty == 0 && o.state != PendingSubmit then o.lastUpdateT else now)
    && if qty == 0 then fills == [] && Grown(o, o', 0, 0)
       else && |fills| == 1 && fills[0].qty == qty && fills[0].now == now
            && fills[0].order == o'.(state := Noticed(o))
            && Averages(fills[0].price, qty, Cost(ls, o.remaining)) && Grown(o, o', qty, fills[0].price)
  }

  lemma MarketTakes(o: Order, book: BookState, now: nat)
    requires OrderInv(o) && o.Working() && book.Inv() && (o.otype == Market || o.otype == Ioc)
    ensures var (o', fills) := BookStep(o, book, now); Took(o, o', fills, Against(o, book), now)
  {
    var ls := Against(o, book);
    LevelsAgainst(o, book);
    if 0 < Filled(ls, o.remaining) { VwapAverages(ls, o.remaining); }
  }

  lemma TookFromArrival(o: Order, o': Order, fills: seq<FillRec>, ls: seq<Level>, now: nat)
    requires o.state == PendingSubmit ==> o.arrivalT <= now
    requires Took(LiveNow(o, now), o', fills, ls, now)
    ensures Took(o, o', fills, ls, now)
  {
  }

  // A market or IOC order is done with the first tick that sets it against its book.
  lemma TickTakes(model: QueueModel, o: Order, book: BookState, yes: Option<BookState>,
                  no: Option<BookState>, now: nat)
    requires Faces(o, book, yes, no, now) && (o.otype == Market || o.otype == Ioc)
    ensures var (o', fills) := OrderStep(model, o, TickEv(o.marketId, yes, no, now));
      Took(o, o', fills, Against(o, book), now)
  {
    FacingTick(model, o, book, yes, no, now);
    MarketTakes(LiveNow(o, now), book, now);
    var (o', fills) := BookStep(LiveNow(o, now), book, now);
    TookFromArrival(o, o', fills, Against(o, book), now);
  }

  // What a sweep leaves: what there is, at the average of it, or at the limit when that
  // average truncates to nothing.
  ghost predicate Swung(o: Order, o': Order, fills: seq<FillRec>, ls: seq<Level>, now: nat) {
    var qty := Min(o.remaining, Depth(ls));
    && Kept(o, o') && QueueKept(o, o') && 0 < qty && o'.lastUpdateT == now
    && o'.state == (if qty == o.remaining then FullyFilled else Partial)
    && |fills| == 1 && fills[0] == FillRec(o', qty, fills[0].price, now) && Grown(o, o', qty, fills[0].price)
    && if qty <= Cost(ls, o.remaining) then Averages(fills[0].price, qty, Cost(ls, o.remaining))
       else fills[0].price == o.price
  }

  lemma SweepSwings(o: Order, book: BookState, now: nat)
    requires OrderInv(o) && o.Working() && book.Inv() && o.otype != Market && o.otype != Ioc && Crossed(o, book)
    ensures var (o', fills) := BookStep(o, book, now); Swung(o, o', fills, Against(o, book), now)
  {
    var ls := Against(o, book);
    LevelsAgainst(o, book);
    SomeDepth(ls, o.remaining);
    VwapAverages(ls, o.remaining);
    AverageSign(Vwap(ls, o.remaining), Filled(ls, o.remaining), Cost(ls, o.remaining));
  }

  lemma SwungFromArrival(o: Order, o': Order, fills: seq<FillRec>, ls: seq<Level>, now: nat)
    requires Swung(LiveNow(o, now), o', fills, ls, now)
    ensures Swung(o, o', fills, ls, now)
  {
  }

  // Any other order is filled exactly when the best of the levels against it is strictly
  // through its limit.
  lemma TickSweeps(model: QueueModel, o: Order, book: BookState, yes: Option<BookState>,
                   no: Option<BookState>, now: nat)
    requires Faces(o, book, yes, no, now) && o.otype != Market && o.otype != Ioc && Crossed(o, book)
    ensures var (o', fills) := OrderStep(model, o, TickEv(o.marketId, yes, no, now));
      Swung(o, o', fills, Against(o, book), now)
  {
    FacingTick(model, o, book, yes, no, now);
    SweepSwings(LiveNow(o, now), book, now);
    var (o', fills) := BookStep(LiveNow(o, now), book, now);
    SwungFromArrival(o, o', fills, Against(o, book), now);
  }

  lemma TickRests(model: QueueModel, o: Order, book: BookState, yes: Option<BookState>,
                  no: Option<BookState>, now: nat)
    requires Faces(o, book, yes, no, now) && o.otype != Market && o.otype != Ioc && !Crossed(o, book)
    ensures OrderStep(model, o, TickEv(o.marketId, yes, no, now))
         == (if o.state == PendingSubmit then o.(state := Live, lastUpdateT := now) else o, [])
  {
  }

  // So a limit order is filled by a tick exactly when the tick sets it against a book that
  // has moved through its limit.
  lemma TickFillsWhen(model: QueueModel, o: Order, book: BookState, yes: Option<BookState>,
                      no: Option<BookState>, now: nat)
    requires OrderInv(o) && book.Inv() && (if o.isYes then yes else no) == Some(book)
    requires o.otype != Market && o.otype != Ioc
    ensures OrderStep(model, o, TickEv(o.marketId, yes, no, now)).1 != []
       <==> AtEngine(o, now) && !(o.state == PendingCancel && o.cancelAckT <= now) && Crossed(o, book)
  {
    if o.state == PendingCancel && o.cancelAckT <= now {
      TickAcknowledges(model, o, yes, no, now);
    } else if !AtEngine(o, now) {
      TickPassesBy(model, o, o.marketId, yes, no, now);
    } else if Crossed(o, book) {
      TickSweeps(model, o, book, yes, no, now);
    } else {
      TickRests(model, o, book, yes, no, now);
    }
  }

  lemma SomeDepth(ls: seq<Level>, want: nat)
    requires ls != [] && PositiveSizes(ls) && 0 < want
    ensures 0 < Filled(ls, want)
  {
  }

  lemma AverageSign(p: int, n: nat, cost: int)
    requires 0 < n && Averages(p, n, cost)
    ensures 0 < p <==> n <= cost
  {
    if 0 < p { ScaleUp(1, p, n); } else { ScaleUp(p + 1, 1, n); }
  }

  // -------------------------------------------------------------- submits and cancels

  predicate Vacant(o: Order) {
    o.state == Created || o.state == FullyFilled || o.state == Cancelled || o.state == Rejected || o.state == Expired
  }

  // The size of the first level at a price, and nothing where there is none.
  ghost predicate ShowsAt(ls: seq<Level>, price: int, size: nat) {
    if exists i :: 0 <= i < |ls| && ls[i].price == price
    then exists i :: 0 <= i < |ls| && ls[i] == Level(price, size) && forall j :: 0 <= j < i ==> ls[j].price != price
    else size == 0
  }

  lemma {:induction false} SizeAtShows(ls: seq<Level>, price: int)
    ensures ShowsAt(ls, price, SizeAt(ls, price))
  {
    if ls != [] {
      if ls[0].price == price {
        assert ls[0] == Level(price, ls[0].size);
      } else {
        SizeAtShows(ls[1..], price);
        ShowsBehind(ls, price, SizeAt(ls[1..], price));
      }
    }
  }

  lemma ShowsBehind(ls: seq<Level>, price: int, size: nat)
    requires ls != [] && ls[0].price != price && ShowsAt(ls[1..], price, size)
    ensures ShowsAt(ls, price, size)
  {
    if i :| 0 <= i < |ls| && ls[i].price == price {
      assert ls[1..][i - 1].price == price;
      var k :| 0 <= k < |ls[1..]| && ls[1..][k] == Level(price, size)
        && forall j :: 0 <= j < k ==> ls[1..][j].price != price;
      assert ls[k + 1] == Level(price, size);
      assert forall j :: 1 <= j < k + 1 ==> ls[j] == ls[1..][j - 1];
    }
  }

  // What the submission says, with nothing filled and behind this queue.
  ghost predicate AsSubmitted(o: Order, s: Submission, queue: nat) {
    && OfOutcome(o, s.marketId, s.isYes) && o.side == s.side && o.otype == s.otype && o.price == s.price
    && o.original == s.size == o.remaining && o.strategy == s.strategy && o.signalId == s.signalId
    && o.filled == 0 == o.cumCost && o.avgFillPrice == 0 && o.state == PendingSubmit
    && o.queueAhead == queue == o.initialQueue && o.queueAfterUpdates == queue
    && o.consumed == 0 == o.cancelled && o.cancelReqT == 0 == o.cancelAckT
  }

  // The clocks of a submission: in the network and in processing before it arrives, in the
  // network again before its acknowledgement.
  ghost predicate Timed(cfg: QueueCfg, o: Order, now: nat) {
    && o.submitT == now == o.lastUpdateT && o.arrivalT == now + cfg.netNs + cfg.procNs
    && o.ackT == now + cfg.netNs + cfg.procNs + cfg.netNs
  }

  // A submit of a real size at a real price takes the first vacant slot, if there is one;
  // any other is refused and changes nothing.
  lemma SubmitTakesSlot(cfg: QueueCfg, q: QState, s: Submission, book: Option<BookState>, now: nat) returns (i: nat)
    ensures i <= |q.orders| && forall j :: 0 <= j < i ==> !Vacant(q.orders[j])
    ensures i < |q.orders| ==> Vacant(q.orders[i])
    ensures var (q', id) := Submit(cfg, q, s, book, now);
      QStep(cfg, q, SubmitEv(s, book, now)) == (q', [])
      && if s.size == 0 || s.price <= 0 || i == |q.orders| then q' == q && id == 0
         else && id == q.nextOid && q'.nextOid == q.nextOid + 1 && |q'.orders| == |q.orders|
              && (forall j :: 0 <= j < |q.orders| && j != i ==> q'.orders[j] == q.orders[j])
              && q'.orders[i].id == id && Timed(cfg, q'.orders[i], now)
              && AsSubmitted(q'.orders[i], s, q'.orders[i].queueAhead)
              && (book == None ==> q'.orders[i].queueAhead == 0)
              && (book.Some? ==>
                    ShowsAt(if s.side == BID then book.value.bids else book.value.asks, s.price,
                            q'.orders[i].queueAhead))
  {
    i := FirstReusable(q.orders);
    if book.Some? { SizeAtShows(book.value.Side(s.side), s.price); }
  }

  // Not acknowledged as finished, and no cancel pending.
  predicate CanCancel(o: Order, oid: nat) {
    o.id == oid && (o.state == PendingSubmit || o.state == Live || o.state == Partial)
  }

  // A cancel reaches the first open order of its id, and has its acknowledgement a cancel
  // and a network latency later; without one it fails and changes nothing.
  lemma CancelTakesOrder(cfg: QueueCfg, q: QState, oid: nat, now: nat) returns (i: nat)
    ensures i <= |q.orders| && forall j :: 0 <= j < i ==> !CanCancel(q.orders[j], oid)
    ensures i < |q.orders| ==> CanCancel(q.orders[i], oid)
    ensures var (q', rc) := Cancel(cfg, q, oid, now);
      QStep(cfg, q, CancelEv(oid, now)) == (q', [])
      && if i == |q.orders| then q' == q && rc == -1
         else rc == 0 && q'.nextOid == q.nextOid && |q'.orders| == |q.orders|
              && (forall j :: 0 <= j < |q.orders| && j != i ==> q'.orders[j] == q.orders[j])
              && q'.orders[i] == q.orders[i].(state := PendingCancel, cancelReqT := now, lastUpdateT := now,
                                              cancelAckT := now + cfg.cancelNs + cfg.netNs)
  {
    i := FirstCancellable(q.orders, oid);
  }

  // ------------------------------------------------------------------- configuration

  // The whole nanoseconds of a latency in milliseconds.
  ghost predicate InNs(ns: nat, ms: real) {
    if ms < 0.0 then ns == 0 else ns as real <= ms * 1000000.0 < ns as real + 1.0
  }

  // What the simulator runs on: its configuration, 1 for the conservative model, 3 for the
  // aggressive one and the realistic one otherwise; by default 2, 1 and 2 milliseconds.
  lemma ConfiguredAs(given: Option<SimCfg>)
    ensures given.Some? ==>
      var g, c := given.value, Resolved(given);
      InNs(c.netNs, g.netMs) && InNs(c.procNs, g.processMs) && InNs(c.cancelNs, g.cancelMs)
      && (c.model == Conservative <==> g.model == 1) && (c.model == Aggressive <==> g.model == 3)
    ensures given == None ==> Resolved(given) == QueueCfg(2000000, 1000000, 2000000, Realistic)
  {
  }

  // A table of 256 blank slots, ids from 100000.
  lemma FreshTable()
    ensures |QInit().orders| == 256 && QInit().nextOid == 100000
    ensures forall i :: 0 <= i < 256 ==> QInit().orders[i] == BLANK && Vacant(BLANK) && BLANK.id == 0
  {
  }
}
