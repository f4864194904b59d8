// The three cancellation models under everything that can happen to a resting limit
// order: trades, level changes, ticks that sweep it or acknowledge a cancel, and cancel
// requests, which a fill in one model but not in another can withdraw.

module Dominance {
  import opened Types
  import opened Walk
  import opened OrderBook
  import opened SimQueue
  import opened OrderRuns
  import opened QueueLaws

  datatype OrderEvent = Seen(e: MarketEvent) | CancelAsked(now: nat)

  function OStep(cfg: QueueCfg, o: Order, e: OrderEvent): Order {
    match e
    case Seen(m) => OrderStep(cfg.model, o, m).0
    case CancelAsked(now) => if o.Cancellable() then CancelRequested(cfg, o, now) else o
  }

  function ORun(cfg: QueueCfg, o: Order, es: seq<OrderEvent>): Order {
    if es == [] then o else OStep(cfg, ORun(cfg, o, es[..|es| - 1]), es[|es| - 1])
  }

  // A stored order that rests until it is filled or cancelled.
  ghost predicate Resident(o: Order) {
    OrderInv(o) && o != BLANK && (o.otype == Limit || o.otype == Fok)
  }

  // x fills no less than y; it is not cancelled before y is, nor sooner to be; and while
  // both are open its queue is no longer.
  ghost predicate Ahead(x: Order, y: Order) {
    && Resident(x) && Resident(y) && SameIdentity(x, y) && y.filled <= x.filled
    && (x.state == Cancelled ==> y.state == Cancelled)
    && (x.state == PendingCancel ==>
          y.state == Cancelled || (y.state == PendingCancel && y.cancelAckT <= x.cancelAckT))
    && (!Terminal(x) && !Terminal(y) ==> x.queueAhead <= y.queueAhead)
  }

  // ------------------------------------------------------ one event, one open order

  // What trades, level changes and sweeps leave of an open order.
  ghost predicate Moved(o: Order, o': Order) {
    && Resident(o') && SameIdentity(o, o') && o'.cancelAckT == o.cancelAckT && o'.state != Cancelled
    && (o'.state == PendingCancel <==> o.state == PendingCancel && o'.filled == o.filled)
  }

  lemma EventMoves(model: QueueModel, o: Order, e: MarketEvent)
    requires Resident(o) && !Terminal(o) && !e.TickEv?
    ensures Moved(o, OrderStep(model, o, e).0)
  {
    OrderStepGood(model, o, e);
  }

  lemma OpenTrade(model: QueueModel, o: Order, e: MarketEvent)
    requires Resident(o) && !Terminal(o) && e.TradeEv?
    ensures var o', v := OrderStep(model, o, e).0, Reaching(o, e);
      Moved(o, o') && o'.queueAhead == Max(0, o.queueAhead - v)
      && o'.filled == Min(o.original, o.filled + Max(0, v - o.queueAhead))
  {
    EventMoves(model, o, e);
  }

  lemma OpenLevel(model: QueueModel, o: Order, e: MarketEvent)
    requires Resident(o) && !Terminal(o) && e.LevelEv?
    ensures var o' := OrderStep(model, o, e).0;
      Moved(o, o') && o'.queueAhead == o.queueAhead - Cut(model, o, e) && o'.filled == o.filled
  {
    EventMoves(model, o, e);
  }

  function BookFor(o: Order, e: MarketEvent): Option<BookState>
    requires e.TickEv?
  {
    if o.isYes then e.yes else e.no
  }

  ghost predicate SoundBooks(e: MarketEvent) {
    e.TickEv? ==> (e.yes.Some? ==> e.yes.value.Inv()) && (e.no.Some? ==> e.no.value.Inv())
  }

  predicate Acked(o: Order, e: MarketEvent)
    requires e.TickEv?
  {
    e.marketId == o.marketId && o.state == PendingCancel && o.cancelAckT <= e.now
  }

  // Shares a tick's sweep can take: the whole opposite side once it is through the limit.
  function SweptDepth(o: Order, e: MarketEvent): nat
    requires e.TickEv?
  {
    if e.marketId == o.marketId && o.arrivalT <= e.now && BookFor(o, e).Some? && Swept(o, BookFor(o, e).value)
    then Depth(BookFor(o, e).value.WalkOrder(Opposite(o.side))) else 0
  }

  lemma AckedTick(model: QueueModel, o: Order, e: MarketEvent)
    requires Resident(o) && e.TickEv? && Acked(o, e)
    ensures var o' := OrderStep(model, o, e).0;
      o'.state == Cancelled && o'.filled == o.filled && Resident(o') && SameIdentity(o, o')
  {
  }

  // An order its market's tick reaches, with a book to look at.
  predicate Looked(o: Order, e: MarketEvent)
    requires e.TickEv?
  {
    e.marketId == o.marketId && o.arrivalT <= e.now && BookFor(o, e).Some?
  }

  lemma TickLooks(model: QueueModel, o: Order, e: MarketEvent)
    requires Resident(o) && !Terminal(o) && e.TickEv? && !Acked(o, e)
    ensures OrderStep(model, o, e).0
         == if Looked(o, e) then BookStep(LiveNow(o, e.now), BookFor(o, e).value, e.now).0
            else if e.marketId == o.marketId then LiveNow(o, e.now) else o
  {
  }

  // A sound book is swept for as much as the order still wants.
  lemma SweepTakes(o: Order, book: BookState, now: nat)
    requires Resident(o) && 0 < o.remaining && book.Inv()
    ensures var o' := BookStep(o, book, now).0;
      o'.queueAhead == o.queueAhead && o'.cancelAckT == o.cancelAckT
      && (if Swept(o, book)
          then o'.filled == Min(o.original, o.filled + Depth(book.WalkOrder(Opposite(o.side)))) && o.filled < o'.filled
               && (o'.state == Partial || o'.state == FullyFilled)
          else o' == o)
  {
    if Swept(o, book) { SweepAlwaysWalks(o, book); }
  }

  // Against the book or not, in numbers.
  ghost predicate Swung(o: Order, o': Order, depth: nat) {
    && o'.queueAhead == o.queueAhead && o'.cancelAckT == o.cancelAckT && o'.state != Cancelled
    && o'.filled == Min(o.original, o.filled + depth)
    && (o'.state == PendingCancel <==> o.state == PendingCancel && o'.filled == o.filled)
  }

  lemma BookSwings(o: Order, book: BookState, now: nat)
    requires Resident(o) && o.Working() && book.Inv()
    ensures Swung(o, BookStep(o, book, now).0,
                  if Swept(o, book) then Depth(book.WalkOrder(Opposite(o.side))) else 0)
  {
    SweepTakes(o, book, now);
  }

  // Becoming live changes none of the numbers.
  lemma LiveSwings(o: Order, now: nat, o': Order, depth: nat)
    requires Swung(LiveNow(o, now), o', depth)
    ensures Swung(o, o', depth)
  {
  }

  lemma LookedSwings(o: Order, e: MarketEvent)
    requires Resident(o) && !Terminal(o) && e.TickEv? && SoundBooks(e) && Looked(o, e)
    ensures Swung(o, BookStep(LiveNow(o, e.now), BookFor(o, e).value, e.now).0, SweptDepth(o, e))
  {
    var o1, book := LiveNow(o, e.now), BookFor(o, e).value;
    BookSwings(o1, book, e.now);
    LiveSwings(o, e.now, BookStep(o1, book, e.now).0, SweptDepth(o, e));
  }

  lemma TickSwings(model: QueueModel, o: Order, e: MarketEvent)
    requires Resident(o) && !Terminal(o) && e.TickEv? && SoundBooks(e) && !Acked(o, e)
    ensures Swung(o, OrderStep(model, o, e).0, SweptDepth(o, e))
  {
    TickLooks(model, o, e);
    if Looked(o, e) { LookedSwings(o, e); }
  }

  lemma TickKeepsOrder(model: QueueModel, o: Order, e: MarketEvent)
    requires Resident(o) && e.TickEv?
    ensures Resident(OrderStep(model, o, e).0) && SameIdentity(o, OrderStep(model, o, e).0)
  {
    OrderStepGood(model, o, e);
  }

  lemma SweepingTick(model: QueueModel, o: Order, e: MarketEvent)
    requires Resident(o) && !Terminal(o) && e.TickEv? && SoundBooks(e) && !Acked(o, e)
    ensures var o' := OrderStep(model, o, e).0;
      Moved(o, o') && o'.queueAhead == o.queueAhead
      && o'.filled == Min(o.original, o.filled + SweptDepth(o, e))
  {
    TickKeepsOrder(model, o, e);
    TickSwings(model, o, e);
  }

  lemma OpenTick(model: QueueModel, o: Order, e: MarketEvent)
    requires Resident(o) && !Terminal(o) && e.TickEv? && SoundBooks(e)
    ensures var o' := OrderStep(model, o, e).0;
      if Acked(o, e) then o'.state == Cancelled && o'.filled == o.filled && Resident(o') && SameIdentity(o, o')
      else Moved(o, o') && o'.queueAhead == o.queueAhead
           && o'.filled == Min(o.original, o.filled + SweptDepth(o, e))
  {
    if Acked(o, e) { AckedTick(model, o, e); } else { SweepingTick(model, o, e); }
  }

  lemma TerminalRests(model: QueueModel, o: Order, e: MarketEvent)
    requires Resident(o) && Terminal(o)
    ensures OrderStep(model, o, e).0 == o
  {
    OrderStepGood(model, o, e);
  }

  // ------------------------------------------------------------- two orders, one event

  // Both moved by the same event: enough to stay ahead.
  lemma MovedStaysAhead(x: Order, y: Order, x': Order, y': Order)
    requires Ahead(x, y) && !Terminal(x) && !Terminal(y) && Moved(x, x') && Moved(y, y')
    requires y'.filled <= x'.filled && x'.queueAhead <= y'.queueAhead
    requires x'.filled == x.filled && x'.filled < x'.original ==> y'.filled == y.filled
    ensures Ahead(x', y')
  {
  }

  lemma OneIsDone(x: Order, y: Order, x': Order, y': Order)
    requires Ahead(x, y)
    requires if Terminal(x) then x' == x else Moved(x, x') && x.filled <= x'.filled
    requires if Terminal(y) then y' == y else Moved(y, y') && y.filled <= y'.filled
    requires Terminal(x) || Terminal(y)
    ensures Ahead(x', y')
  {
  }

  lemma TradeKeepsAhead(mx: QueueModel, my: QueueModel, x: Order, y: Order, e: MarketEvent)
    requires Ahead(x, y) && e.TradeEv?
    ensures Ahead(OrderStep(mx, x, e).0, OrderStep(my, y, e).0)
  {
    if Terminal(x) { TerminalRests(mx, x, e); } else { OpenTrade(mx, x, e); }
    if Terminal(y) { TerminalRests(my, y, e); } else { OpenTrade(my, y, e); }
    if Terminal(x) || Terminal(y) {
      OneIsDone(x, y, OrderStep(mx, x, e).0, OrderStep(my, y, e).0);
    } else {
      ReachingIsStatic(x, y, e);
      MovedStaysAhead(x, y, OrderStep(mx, x, e).0, OrderStep(my, y, e).0);
    }
  }

  lemma LevelKeepsAhead(mx: QueueModel, my: QueueModel, x: Order, y: Order, e: MarketEvent)
    requires Ahead(x, y) && e.LevelEv?
    requires !Terminal(x) && !Terminal(y) ==> x.queueAhead - Cut(mx, x, e) <= y.queueAhead - Cut(my, y, e)
    ensures Ahead(OrderStep(mx, x, e).0, OrderStep(my, y, e).0)
  {
    if Terminal(x) { TerminalRests(mx, x, e); } else { OpenLevel(mx, x, e); }
    if Terminal(y) { TerminalRests(my, y, e); } else { OpenLevel(my, y, e); }
    if Terminal(x) || Terminal(y) {
      OneIsDone(x, y, OrderStep(mx, x, e).0, OrderStep(my, y, e).0);
    } else {
      MovedStaysAhead(x, y, OrderStep(mx, x, e).0, OrderStep(my, y, e).0);
    }
  }

  lemma SweepIsStatic(x: Order, y: Order, e: MarketEvent)
    requires SameIdentity(x, y) && e.TickEv?
    ensures SweptDepth(x, e) == SweptDepth(y, e)
  {
  }

  lemma CancelledStaysBehind(x: Order, y: Order, x': Order, y': Order)
    requires Ahead(x, y) && !Terminal(y) && Resident(y') && SameIdentity(y, y')
    requires y'.state == Cancelled && y'.filled == y.filled
    requires Resident(x') && SameIdentity(x, x') && x.filled <= x'.filled
    ensures Ahead(x', y')
  {
  }

  lemma TickKeepsAhead(mx: QueueModel, my: QueueModel, x: Order, y: Order, e: MarketEvent)
    requires Ahead(x, y) && e.TickEv? && SoundBooks(e)
    ensures Ahead(OrderStep(mx, x, e).0, OrderStep(my, y, e).0)
  {
    var x', y' := OrderStep(mx, x, e).0, OrderStep(my, y, e).0;
    if Terminal(x) { TerminalRests(mx, x, e); } else { OpenTick(mx, x, e); }
    if Terminal(y) { TerminalRests(my, y, e); } else { OpenTick(my, y, e); }
    SweepIsStatic(x, y, e);
    if !Terminal(y) && Acked(y, e) {
      CancelledStaysBehind(x, y, x', y');
    } else if Terminal(x) || Terminal(y) {
      if !Terminal(x) && Acked(x, e) {
        AckedBehindDone(x, y, x');
      } else {
        OneIsDone(x, y, x', y');
      }
    } else {
      MovedStaysAhead(x, y, x', y');
    }
  }

  // The one behind is cancelled already.
  lemma AckedBehindDone(x: Order, y: Order, x': Order)
    requires Ahead(x, y) && x.state == PendingCancel && Terminal(y)
    requires x'.state == Cancelled && x'.filled == x.filled && Resident(x') && SameIdentity(x, x')
    ensures Ahead(x', y)
  {
  }

  // A cancel request reaches both; one that is behind may have an older one pending.
  lemma CancelKeepsAhead(a: QueueCfg, b: QueueCfg, x: Order, y: Order, now: nat)
    requires Ahead(x, y) && a.cancelNs == b.cancelNs && a.netNs == b.netNs
    requires y.state == PendingCancel ==> y.cancelAckT <= now + a.cancelNs + a.netNs
    ensures Ahead(OStep(a, x, CancelAsked(now)), OStep(b, y, CancelAsked(now)))
  {
  }

  // ----------------------------------------------------------------- cuts of the models

  lemma AggressiveCutsDeeper(x: Order, y: Order, e: MarketEvent)
    requires SameIdentity(x, y) && x.queueAhead <= y.queueAhead && e.LevelEv?
    requires Touches(y, e) && 0 < e.oldSize ==> InProportion(y.queueAhead, e.oldSize - e.newSize, e.oldSize)
    ensures x.queueAhead - Cut(Aggressive, x, e) <= y.queueAhead - Cut(Realistic, y, e)
  {
    ReachingIsStatic(x, y, e);
    if Touches(y, e) && 0 < e.oldSize {
      ProportionalAtMostReduction(y.queueAhead, e.oldSize - e.newSize, e.oldSize);
    }
  }

  lemma RealisticCutsDeeper(x: Order, y: Order, e: MarketEvent)
    requires SameIdentity(x, y) && x.queueAhead <= y.queueAhead && e.LevelEv?
    ensures x.queueAhead - Cut(Realistic, x, e) <= y.queueAhead - Cut(Conservative, y, e)
  {
  }

  // ----------------------------------------------------------------------- whole runs

  // Acknowledgement time of the last cancel requested.
  function LastAck(cfg: QueueCfg, o: Order, es: seq<OrderEvent>): nat {
    if es == [] then o.cancelAckT
    else if es[|es| - 1].CancelAsked? then es[|es| - 1].now + cfg.cancelNs + cfg.netNs
    else LastAck(cfg, o, es[..|es| - 1])
  }

  // Ticks see sound books, and cancel requests do not go back in time.
  ghost predicate InOrder(cfg: QueueCfg, o: Order, es: seq<OrderEvent>) {
    es != [] ==>
      var n := |es| - 1;
      InOrder(cfg, o, es[..n])
      && (es[n].Seen? ==> SoundBooks(es[n].e))
      && (es[n].CancelAsked? ==> LastAck(cfg, o, es[..n]) <= es[n].now + cfg.cancelNs + cfg.netNs)
  }

  lemma {:induction false} PendingIsLast(cfg: QueueCfg, b: QueueCfg, o: Order, es: seq<OrderEvent>)
    requires Resident(o) && InOrder(cfg, o, es) && b.cancelNs == cfg.cancelNs && b.netNs == cfg.netNs
    ensures var y := ORun(b, o, es);
      Resident(y) && SameIdentity(o, y) && (y.state == PendingCancel ==> y.cancelAckT <= LastAck(cfg, o, es))
  {
    if es != [] {
      PendingIsLast(cfg, b, o, es[..|es| - 1]);
      PendingNext(b, ORun(b, o, es[..|es| - 1]), es[|es| - 1]);
    }
  }

  lemma PendingNext(b: QueueCfg, y: Order, e: OrderEvent)
    requires Resident(y) && (e.Seen? ==> SoundBooks(e.e))
    ensures var y' := OStep(b, y, e);
      Resident(y') && SameIdentity(y, y')
      && (y'.state == PendingCancel ==>
            (y.state == PendingCancel && y'.cancelAckT == y.cancelAckT)
            || (e.CancelAsked? && y'.cancelAckT == e.now + b.cancelNs + b.netNs))
  {
    if e.Seen? {
      if Terminal(y) { TerminalRests(b.model, y, e.e); }
      else if e.e.TradeEv? { OpenTrade(b.model, y, e.e); }
      else if e.e.LevelEv? { OpenLevel(b.model, y, e.e); }
      else { OpenTick(b.model, y, e.e); }
    }
  }

  // At every reduction the order sees while it is open, the reduction is in proportion
  // to its realistic queue.
  ghost predicate InProportionWhileOpen(r: QueueCfg, o: Order, es: seq<OrderEvent>) {
    es != [] ==>
      var n := |es| - 1;
      var y, e := ORun(r, o, es[..n]), es[n];
      InProportionWhileOpen(r, o, es[..n])
      && (e.Seen? && Touches(o, e.e) && 0 < e.e.oldSize && !Terminal(y) ==>
            InProportion(y.queueAhead, e.e.oldSize - e.e.newSize, e.e.oldSize))
  }

  // Three configurations that differ in their model only.
  ghost predicate ThreeModels(a: QueueCfg, r: QueueCfg, c: QueueCfg) {
    && a.model == Aggressive && r.model == Realistic && c.model == Conservative
    && a.cancelNs == r.cancelNs == c.cancelNs && a.netNs == r.netNs == c.netNs
  }

  lemma AggressiveNext(a: QueueCfg, r: QueueCfg, x: Order, y: Order, e: OrderEvent)
    requires a.model == Aggressive && r.model == Realistic && a.cancelNs == r.cancelNs && a.netNs == r.netNs
    requires Ahead(x, y) && (e.Seen? ==> SoundBooks(e.e))
    requires e.CancelAsked? && y.state == PendingCancel ==> y.cancelAckT <= e.now + a.cancelNs + a.netNs
    requires e.Seen? && Touches(y, e.e) && 0 < e.e.oldSize && !Terminal(y) ==>
      InProportion(y.queueAhead, e.e.oldSize - e.e.newSize, e.e.oldSize)
    ensures Ahead(OStep(a, x, e), OStep(r, y, e))
  {
    match e
    case CancelAsked(now) => CancelKeepsAhead(a, r, x, y, now);
    case Seen(m) =>
      match m {
        case TradeEv(_, _, _, _, _, _) => TradeKeepsAhead(Aggressive, Realistic, x, y, m);
        case TickEv(_, _, _, _) => TickKeepsAhead(Aggressive, Realistic, x, y, m);
        case LevelEv(_, _, _, _, _, _, _) =>
          if !Terminal(x) && !Terminal(y) { AggressiveCutsDeeper(x, y, m); }
          LevelKeepsAhead(Aggressive, Realistic, x, y, m);
      }
  }

  lemma RealisticNext(r: QueueCfg, c: QueueCfg, x: Order, y: Order, e: OrderEvent)
    requires r.model == Realistic && c.model == Conservative && r.cancelNs == c.cancelNs && r.netNs == c.netNs
    requires Ahead(x, y) && (e.Seen? ==> SoundBooks(e.e))
    requires e.CancelAsked? && y.state == PendingCancel ==> y.cancelAckT <= e.now + r.cancelNs + r.netNs
    ensures Ahead(OStep(r, x, e), OStep(c, y, e))
  {
    match e
    case CancelAsked(now) => CancelKeepsAhead(r, c, x, y, now);
    case Seen(m) =>
      match m {
        case TradeEv(_, _, _, _, _, _) => TradeKeepsAhead(Realistic, Conservative, x, y, m);
        case TickEv(_, _, _, _) => TickKeepsAhead(Realistic, Conservative, x, y, m);
        case LevelEv(_, _, _, _, _, _, _) =>
          if !Terminal(x) && !Terminal(y) { RealisticCutsDeeper(x, y, m); }
          LevelKeepsAhead(Realistic, Conservative, x, y, m);
      }
  }

  // What the one behind has pending is no later than the next request's acknowledgement.
  lemma PendingBefore(b: QueueCfg, c: QueueCfg, o: Order, es: seq<OrderEvent>, y: Order, e: OrderEvent)
    requires Resident(o) && es != [] && InOrder(b, o, es) && b.cancelNs == c.cancelNs && b.netNs == c.netNs
    requires y == ORun(c, o, es[..|es| - 1]) && e == es[|es| - 1]
    ensures SameIdentity(o, y) && (e.Seen? ==> SoundBooks(e.e))
    ensures e.CancelAsked? && y.state == PendingCancel ==> y.cancelAckT <= e.now + b.cancelNs + b.netNs
  {
    PendingIsLast(b, c, o, es[..|es| - 1]);
  }

  lemma {:induction false} AggressiveStaysAhead(a: QueueCfg, r: QueueCfg, o: Order, es: seq<OrderEvent>)
    returns (x: Order, y: Order)
    requires a.model == Aggressive && r.model == Realistic && a.cancelNs == r.cancelNs && a.netNs == r.netNs
    requires Resident(o) && InOrder(r, o, es) && InProportionWhileOpen(r, o, es)
    ensures x == ORun(a, o, es) && y == ORun(r, o, es) && Ahead(x, y)
  {
    if es == [] {
      x, y := o, o;
    } else {
      var n := |es| - 1;
      var x1, y1 := AggressiveStaysAhead(a, r, o, es[..n]);
      PendingBefore(r, r, o, es, y1, es[n]);
      if es[n].Seen? { ReachingIsStatic(o, y1, es[n].e); }
      AggressiveNext(a, r, x1, y1, es[n]);
      x, y := OStep(a, x1, es[n]), OStep(r, y1, es[n]);
    }
  }

  lemma {:induction false} RealisticStaysAhead(r: QueueCfg, c: QueueCfg, o: Order, es: seq<OrderEvent>)
    returns (x: Order, y: Order)
    requires r.model == Realistic && c.model == Conservative && r.cancelNs == c.cancelNs && r.netNs == c.netNs
    requires Resident(o) && InOrder(r, o, es)
    ensures x == ORun(r, o, es) && y == ORun(c, o, es) && Ahead(x, y)
  {
    if es == [] {
      x, y := o, o;
    } else {
      var n := |es| - 1;
      var x1, y1 := RealisticStaysAhead(r, c, o, es[..n]);
      PendingBefore(r, c, o, es, y1, es[n]);
      RealisticNext(r, c, x1, y1, es[n]);
      x, y := OStep(r, x1, es[n]), OStep(c, y1, es[n]);
    }
  }

  // Over any stream of trades, level changes, ticks and cancel requests, common to three
  // simulators, the model that credits cancellations more is ahead at every point.
  lemma ModelsStayAhead(a: QueueCfg, r: QueueCfg, c: QueueCfg, o: Order, es: seq<OrderEvent>)
    requires ThreeModels(a, r, c) && Resident(o) && InOrder(r, o, es) && InProportionWhileOpen(r, o, es)
    ensures Ahead(ORun(a, o, es), ORun(r, o, es)) && Ahead(ORun(r, o, es), ORun(c, o, es))
  {
    var xa, xr := AggressiveStaysAhead(a, r, o, es);
    var yr, yc := RealisticStaysAhead(r, c, o, es);
  }

  // ------------------------------------------------------ a feed that reports one level

  // Size displayed at the order's level after the stream.
  function Shown(o: Order, level: int, es: seq<OrderEvent>): int {
    if es == [] then level
    else
      var e := es[|es| - 1];
      if e.Seen? && ReportsLevel(o, e.e) then e.e.newSize else Shown(o, level, es[..|es| - 1])
  }

  // The size shown when reports start to reach the order holds the queue it joined.
  ghost predicate ShownHolds(o: Order, level: int, es: seq<OrderEvent>) {
    if es == [] then o.queueAhead <= level
    else
      var e := es[|es| - 1];
      if e.Seen? && ReportsLevel(o, e.e) && e.e.now < o.arrivalT then o.queueAhead <= e.e.newSize
      else ShownHolds(o, level, es[..|es| - 1])
  }

  // Every report of the level starts from the size last displayed, none is negative, and
  // those that reach the order find its queue held.
  ghost predicate ChainedFeed(o: Order, level: int, es: seq<OrderEvent>) {
    es != [] ==>
      var n := |es| - 1;
      ChainedFeed(o, level, es[..n])
      && (es[n].Seen? && ReportsLevel(o, es[n].e) ==>
            && es[n].e.oldSize == Shown(o, level, es[..n]) && 0 <= es[n].e.newSize
            && (o.arrivalT <= es[n].e.now ==> ShownHolds(o, level, es[..n])))
  }

  lemma OpenStaysWithin(r: QueueCfg, o: Order, y: Order, e: OrderEvent, shown: int)
    requires r.model == Realistic && Resident(y) && SameIdentity(o, y) && !Terminal(y) && y.queueAhead <= shown
    requires e.Seen? ==> SoundBooks(e.e)
    requires e.Seen? && ReportsLevel(o, e.e) ==> o.arrivalT <= e.e.now && e.e.oldSize == shown && 0 <= e.e.newSize
    ensures var y' := OStep(r, y, e);
      !Terminal(y') ==> y'.queueAhead <= if e.Seen? && ReportsLevel(o, e.e) then e.e.newSize else shown
  {
    if e.Seen? {
      if e.e.TradeEv? {
        OpenTrade(Realistic, y, e.e);
      } else if e.e.TickEv? {
        OpenTick(Realistic, y, e.e);
      } else {
        OpenLevel(Realistic, y, e.e);
        if ReportsLevel(o, e.e) && e.e.newSize < e.e.oldSize && 0 < y.queueAhead {
          ProportionalKeepsShare(y.queueAhead, e.e.oldSize, e.e.newSize);
        }
      }
    }
  }

  lemma OpenQueueShrinks(r: QueueCfg, y: Order, e: OrderEvent)
    requires Resident(y) && !Terminal(y) && (e.Seen? ==> SoundBooks(e.e))
    ensures var y' := OStep(r, y, e); !Terminal(y') ==> y'.queueAhead <= y.queueAhead
  {
    if e.Seen? {
      if e.e.TradeEv? { OpenTrade(r.model, y, e.e); }
      else if e.e.TickEv? { OpenTick(r.model, y, e.e); }
      else { OpenLevel(r.model, y, e.e); }
    }
  }

  lemma DoneStaysDone(r: QueueCfg, y: Order, e: OrderEvent)
    requires Resident(y) && Terminal(y)
    ensures Terminal(OStep(r, y, e))
  {
    if e.Seen? { TerminalRests(r.model, y, e.e); }
  }

  // While it is open its realistic queue fits the level, so reductions are in proportion.
  lemma {:induction false} OpenQueueFits(r: QueueCfg, o: Order, level: int, es: seq<OrderEvent>)
    requires r.model == Realistic && Resident(o) && InOrder(r, o, es) && ChainedFeed(o, level, es)
    ensures var y := ORun(r, o, es);
      !Terminal(y) ==>
        y.queueAhead <= o.queueAhead && (ShownHolds(o, level, es) ==> y.queueAhead <= Shown(o, level, es))
    ensures InProportionWhileOpen(r, o, es)
  {
    if es != [] {
      var n := |es| - 1;
      var y := ORun(r, o, es[..n]);
      OpenQueueFits(r, o, level, es[..n]);
      PendingIsLast(r, r, o, es[..n]);
      if Terminal(y) {
        DoneStaysDone(r, y, es[n]);
      } else {
        OpenQueueShrinks(r, y, es[n]);
        if ShownHolds(o, level, es[..n]) && !PassesBy(o, es[n]) {
          OpenStaysWithin(r, o, y, es[n], Shown(o, level, es[..n]));
        }
      }
    }
  }

  // A report of the level before the order's arrival.
  ghost predicate PassesBy(o: Order, e: OrderEvent) {
    e.Seen? && ReportsLevel(o, e.e) && e.e.now < o.arrivalT
  }

  lemma ModelsStayAheadOnFeed(a: QueueCfg, r: QueueCfg, c: QueueCfg, o: Order, level: int, es: seq<OrderEvent>)
    requires ThreeModels(a, r, c) && Resident(o) && InOrder(r, o, es) && ChainedFeed(o, level, es)
    ensures Ahead(ORun(a, o, es), ORun(r, o, es)) && Ahead(ORun(r, o, es), ORun(c, o, es))
  {
    OpenQueueFits(r, o, level, es);
    ModelsStayAhead(a, r, c, o, es);
  }

  // ---------------------------------------------------------- inside the simulator

  // The table after operations other than submits.
  function TableRun(cfg: QueueCfg, q: QState, es: seq<QEvent>): QState {
    if es == [] then q else QStep(cfg, TableRun(cfg, q, es[..|es| - 1]), es[|es| - 1]).0
  }

  // What of it concerns the order with this id.
  function Concerning(id: nat, es: seq<QEvent>): seq<OrderEvent> {
    if es == [] then []
    else
      var before, e := Concerning(id, es[..|es| - 1]), es[|es| - 1];
      match e
      case MarketEv(m) => before + [Seen(m)]
      case CancelEv(oid, now) => if oid == id then before + [CancelAsked(now)] else before
      case SubmitEv(_, _, _) => before
  }

  ghost predicate NoSubmits(es: seq<QEvent>) {
    forall i :: 0 <= i < |es| ==> !es[i].SubmitEv?
  }

  ghost predicate SameIds(os: seq<Order>, os': seq<Order>) {
    |os'| == |os| && forall i :: 0 <= i < |os| ==> os'[i].id == os[i].id && OrderInv(os'[i])
  }

  lemma CancelTouchesOne(cfg: QueueCfg, q: QState, oid: nat, now: nat, i: nat)
    requires i < |q.orders| && q.orders[i].id != 0 && DistinctIds(q.orders)
    requires forall j :: 0 <= j < |q.orders| ==> OrderInv(q.orders[j])
    ensures var q' := Cancel(cfg, q, oid, now).0;
      SameIds(q.orders, q'.orders)
      && q'.orders[i] == if oid == q.orders[i].id then OStep(cfg, q.orders[i], CancelAsked(now)) else q.orders[i]
  {
  }

  lemma EventKeepsIds(cfg: QueueCfg, q: QState, m: MarketEvent)
    requires forall j :: 0 <= j < |q.orders| ==> OrderInv(q.orders[j])
    ensures SameIds(q.orders, AllOrders(cfg.model, q.orders, m))
  {
    forall j | 0 <= j < |q.orders|
      ensures var o' := OrderStep(cfg.model, q.orders[j], m).0; o'.id == q.orders[j].id && OrderInv(o')
    {
      OrderStepGood(cfg.model, q.orders[j], m);
    }
  }

  lemma {:induction false} SlotFollowsEvents(cfg: QueueCfg, q: QState, es: seq<QEvent>, i: nat)
    requires i < |q.orders| && q.orders[i].id != 0 && DistinctIds(q.orders) && NoSubmits(es)
    requires forall j :: 0 <= j < |q.orders| ==> OrderInv(q.orders[j])
    ensures var q' := TableRun(cfg, q, es);
      SameIds(q.orders, q'.orders) && q'.orders[i] == ORun(cfg, q.orders[i], Concerning(q.orders[i].id, es))
  {
    if es != [] {
      var n, id := |es| - 1, q.orders[i].id;
      SlotFollowsEvents(cfg, q, es[..n], i);
      var q1, before := TableRun(cfg, q, es[..n]), Concerning(id, es[..n]);
      match es[n]
      case MarketEv(m) =>
        EventKeepsIds(cfg, q1, m);
        assert (before + [Seen(m)])[..|before|] == before;
      case CancelEv(oid, now) =>
        CancelTouchesOne(cfg, q1, oid, now, i);
        assert (before + [CancelAsked(now)])[..|before|] == before;
    }
  }

  // Three simulators with the same table, latencies and stream, of any events but submits,
  // on a feed that chains the reports of an order's level: that order fills most under the
  // aggressive model and least under the conservative one, and is cancelled in that order
  // last and first.
  lemma SimulatorsStayAhead(a: QueueCfg, r: QueueCfg, c: QueueCfg, q: QState, es: seq<QEvent>, i: nat, level: int)
    requires ThreeModels(a, r, c) && SlotsInv(q) && NoSubmits(es)
    requires i < |q.orders| && q.orders[i].id != 0 && Resident(q.orders[i])
    requires var mine := Concerning(q.orders[i].id, es);
      InOrder(r, q.orders[i], mine) && ChainedFeed(q.orders[i], level, mine)
    ensures |TableRun(a, q, es).orders| == |TableRun(r, q, es).orders| == |TableRun(c, q, es).orders| == |q.orders|
    ensures Ahead(TableRun(a, q, es).orders[i], TableRun(r, q, es).orders[i])
    ensures Ahead(TableRun(r, q, es).orders[i], TableRun(c, q, es).orders[i])
  {
    SlotFollowsEvents(a, q, es, i);
    SlotFollowsEvents(r, q, es, i);
    SlotFollowsEvents(c, q, es, i);
    ModelsStayAheadOnFeed(a, r, c, q.orders[i], level, Concerning(q.orders[i].id, es));
  }

  // ------------------------------------------------------- submits among the events

  // The order with an id, in whatever slot.
  function ById(os: seq<Order>, id: nat): Option<Order> {
    if os == [] then None else if os[0].id == id then Some(os[0]) else ById(os[1..], id)
  }

  lemma {:induction false} ByIdIs(os: seq<Order>, id: nat, i: nat)
    requires DistinctIds(os) && id != 0 && i < |os| && os[i].id == id
    ensures ById(os, id) == Some(os[i])
  {
    if i > 0 {
      assert os[1..][i - 1] == os[i] && os[0].id != id;
      ByIdIs(os[1..], id, i - 1);
    }
  }

  lemma {:induction false} ByIdFinds(os: seq<Order>, id: nat) returns (i: nat)
    ensures i <= |os| && (i < |os| ==> os[i].id == id && ById(os, id) == Some(os[i]))
    ensures i == |os| ==> ById(os, id) == None && forall k :: 0 <= k < |os| ==> os[k].id != id
  {
    if os == [] || os[0].id == id {
      i := 0;
    } else {
      i := ByIdFinds(os[1..], id);
      i := i + 1;
      assert forall k :: 1 <= k < |os| ==> os[k] == os[1..][k - 1];
    }
  }

  // What an event does to the order with an id.
  function Step(cfg: QueueCfg, o: Order, id: nat, e: QEvent): Order {
    match e
    case MarketEv(m) => OStep(cfg, o, Seen(m))
    case CancelEv(oid, now) => if oid == id then OStep(cfg, o, CancelAsked(now)) else o
    case SubmitEv(_, _, _) => o
  }

  // The table has the order as it should be, or gave its slot away once it was finished.
  ghost predicate Carries(os: seq<Order>, id: nat, o: Order) {
    ById(os, id) == Some(o) || (ById(os, id) == None && Terminal(o))
  }

  lemma SubmitKeepsSlots(cfg: QueueCfg, q: QState, s: Submission, book: Option<BookState>, now: nat)
    requires SlotsInv(q)
    ensures var q' := Submit(cfg, q, s, book, now).0; SlotsInv(q') && q.nextOid <= q'.nextOid <= q.nextOid + 1
  {
  }

  lemma CancelKeepsSlots(cfg: QueueCfg, q: QState, oid: nat, now: nat)
    requires SlotsInv(q)
    ensures var q' := Cancel(cfg, q, oid, now).0; SlotsInv(q') && q'.nextOid == q.nextOid
  {
  }

  lemma StepKeepsSlots(cfg: QueueCfg, q: QState, e: QEvent)
    requires SlotsInv(q)
    ensures var q' := QStep(cfg, q, e).0; SlotsInv(q') && q.nextOid <= q'.nextOid
  {
    match e
    case SubmitEv(s, book, now) => SubmitKeepsSlots(cfg, q, s, book, now);
    case CancelEv(oid, now) => CancelKeepsSlots(cfg, q, oid, now);
    case MarketEv(m) => MarketEventKeepsSlots(cfg, q, m);
  }

  // The slot that holds an id, after an event.
  lemma SlotSteps(cfg: QueueCfg, q: QState, e: QEvent, i: nat)
    requires SlotsInv(q) && i < |q.orders| && q.orders[i].id != 0
    ensures var o, o' := q.orders[i], QStep(cfg, q, e).0.orders[i];
      o' == Step(cfg, o, o.id, e) || (o'.id == q.nextOid && Terminal(o) && e.SubmitEv?)
  {
    match e
    case SubmitEv(s, book, now) =>
    case CancelEv(oid, now) => CancelTouchesOne(cfg, q, oid, now, i);
    case MarketEv(m) =>
  }

  // No event but the submit that makes an id brings it into the table.
  lemma NoOtherBirth(cfg: QueueCfg, q: QState, e: QEvent, id: nat, k: nat)
    requires SlotsInv(q) && k < |q.orders| && id < q.nextOid
    ensures QStep(cfg, q, e).0.orders[k].id == id ==> q.orders[k].id == id
  {
    match e
    case SubmitEv(s, book, now) =>
    case CancelEv(oid, now) =>
    case MarketEv(m) => OrderStepGood(cfg.model, q.orders[k], m);
  }

  lemma StepKeepsOrder(cfg: QueueCfg, o: Order, id: nat, e: QEvent)
    requires OrderInv(o)
    ensures OrderInv(Step(cfg, o, id, e)) && Step(cfg, o, id, e).id == o.id
    ensures Terminal(o) ==> Step(cfg, o, id, e) == o
  {
    if e.MarketEv? { OrderStepGood(cfg.model, o, e.e); }
  }

  // Nothing in the table has the id after an event.
  lemma StaysAbsent(cfg: QueueCfg, q: QState, e: QEvent, id: nat)
    requires SlotsInv(q) && 0 < id < q.nextOid
    requires forall k :: 0 <= k < |q.orders| && q.orders[k].id == id ==> QStep(cfg, q, e).0.orders[k].id != id
    ensures ById(QStep(cfg, q, e).0.orders, id) == None
  {
    var k := ByIdFinds(QStep(cfg, q, e).0.orders, id);
    StepKeepsSlots(cfg, q, e);
    if k < |q.orders| { NoOtherBirth(cfg, q, e, id, k); }
  }

  lemma OneSlotHolds(os: seq<Order>, id: nat, i: nat, k: nat)
    requires DistinctIds(os) && 0 < id && i < |os| && k < |os| && os[i].id == id == os[k].id
    ensures i == k
  {
  }

  lemma StepCarries(cfg: QueueCfg, q: QState, e: QEvent, id: nat, o: Order)
    requires SlotsInv(q) && 0 < id < q.nextOid && OrderInv(o) && o.id == id && Carries(q.orders, id, o)
    ensures Carries(QStep(cfg, q, e).0.orders, id, Step(cfg, o, id, e))
  {
    var os' := QStep(cfg, q, e).0.orders;
    var i := ByIdFinds(q.orders, id);
    StepKeepsOrder(cfg, o, id, e);
    StepKeepsSlots(cfg, q, e);
    if i == |q.orders| {
      StaysAbsent(cfg, q, e, id);
    } else {
      SlotSteps(cfg, q, e, i);
      if os'[i].id == id {
        ByIdIs(os', id, i);
      } else {
        forall k | 0 <= k < |q.orders| && q.orders[k].id == id ensures os'[k].id != id {
          OneSlotHolds(q.orders, id, i, k);
        }
        StaysAbsent(cfg, q, e, id);
      }
    }
  }

  lemma ConcerningNext(cfg: QueueCfg, o: Order, id: nat, es: seq<QEvent>)
    requires es != []
    ensures var n := |es| - 1;
      ORun(cfg, o, Concerning(id, es)) == Step(cfg, ORun(cfg, o, Concerning(id, es[..n])), id, es[n])
  {
    var n := |es| - 1;
    var before := Concerning(id, es[..n]);
    match es[n]
    case MarketEv(m) => assert (before + [Seen(m)])[..|before|] == before;
    case CancelEv(oid, now) => assert (before + [CancelAsked(now)])[..|before|] == before;
    case SubmitEv(_, _, _) =>
  }

  // Whatever else is submitted: a table carries an order through the events that concern
  // it, and can forget it only once it is finished.
  lemma {:induction false} OrderFollowsEvents(cfg: QueueCfg, q: QState, es: seq<QEvent>, id: nat, o: Order)
    returns (q': QState, o': Order)
    requires SlotsInv(q) && 0 < id < q.nextOid && ById(q.orders, id) == Some(o)
    ensures q' == TableRun(cfg, q, es) && o' == ORun(cfg, o, Concerning(id, es))
    ensures SlotsInv(q') && q.nextOid <= q'.nextOid && OrderInv(o') && o'.id == id
    ensures Carries(q'.orders, id, o')
  {
    if es == [] {
      var i := ByIdFinds(q.orders, id);
      q', o' := q, o;
    } else {
      var n := |es| - 1;
      var q1, o1 := OrderFollowsEvents(cfg, q, es[..n], id, o);
      StepCarries(cfg, q1, es[n], id, o1);
      StepKeepsOrder(cfg, o1, id, es[n]);
      StepKeepsSlots(cfg, q1, es[n]);
      ConcerningNext(cfg, o, id, es);
      q', o' := QStep(cfg, q1, es[n]).0, Step(cfg, o1, id, es[n]);
    }
  }

  // One table carries the order ahead of where the other does.
  ghost predicate CarriedAhead(os: seq<Order>, os': seq<Order>, id: nat, x: Order, y: Order) {
    Carries(os, id, x) && Carries(os', id, y) && Ahead(x, y)
  }

  // From tables that hold the same order, be they equal otherwise or not, with submits
  // among the events or without.
  lemma OrdersStayAhead(a: QueueCfg, r: QueueCfg, c: QueueCfg, qa: QState, qr: QState, qc: QState,
                        es: seq<QEvent>, id: nat, o: Order, level: int)
    requires ThreeModels(a, r, c) && Resident(o)
    requires SlotsInv(qa) && 0 < id < qa.nextOid && ById(qa.orders, id) == Some(o)
    requires SlotsInv(qr) && 0 < id < qr.nextOid && ById(qr.orders, id) == Some(o)
    requires SlotsInv(qc) && 0 < id < qc.nextOid && ById(qc.orders, id) == Some(o)
    requires InOrder(r, o, Concerning(id, es)) && ChainedFeed(o, level, Concerning(id, es))
    ensures var mine := Concerning(id, es);
      var x, y, z := ORun(a, o, mine), ORun(r, o, mine), ORun(c, o, mine);
      CarriedAhead(TableRun(a, qa, es).orders, TableRun(r, qr, es).orders, id, x, y)
      && CarriedAhead(TableRun(r, qr, es).orders, TableRun(c, qc, es).orders, id, y, z)
  {
    var ta, x := OrderFollowsEvents(a, qa, es, id, o);
    var tr, y := OrderFollowsEvents(r, qr, es, id, o);
    var tc, z := OrderFollowsEvents(c, qc, es, id, o);
    ModelsStayAheadOnFeed(a, r, c, o, level, Concerning(id, es));
  }

  // ------------------------------------------------------- orders submitted on the way

  predicate Accepted(e: QEvent) {
    e.SubmitEv? && e.s.size != 0 && 0 < e.s.price
  }

  function AcceptedIn(es: seq<QEvent>): nat {
    if es == [] then 0 else AcceptedIn(es[..|es| - 1]) + if Accepted(es[|es| - 1]) then 1 else 0
  }

  ghost predicate HasRoom(q: QState) {
    exists i :: 0 <= i < |q.orders| && q.orders[i].Reusable()
  }

  // No submit finds the table full.
  ghost predicate NeverFull(cfg: QueueCfg, q: QState, es: seq<QEvent>) {
    es != [] ==>
      var n := |es| - 1;
      NeverFull(cfg, q, es[..n])
      && (es[n].SubmitEv? ==> HasRoom(TableRun(cfg, q, es[..n])))
  }

  lemma IdGiven(cfg: QueueCfg, q: QState, s: Submission, book: Option<BookState>, now: nat)
    requires SlotsInv(q) && HasRoom(q)
    ensures var q' := Submit(cfg, q, s, book, now).0;
      SlotsInv(q')
      && (if s.size == 0 || s.price <= 0 then q' == q
          else q'.nextOid == q.nextOid + 1
               && ById(q'.orders, q.nextOid) == Some(NewOrder(cfg, s, q.nextOid, QueueAtSubmit(s, book), now)))
  {
    SubmitKeepsSlots(cfg, q, s, book, now);
    if s.size != 0 && 0 < s.price {
      ByIdIs(Submit(cfg, q, s, book, now).0.orders, q.nextOid, FirstReusable(q.orders));
    }
  }

  // The next id counts the submits accepted.
  lemma {:induction false} IdsAreCounted(cfg: QueueCfg, q: QState, es: seq<QEvent>) returns (q': QState)
    requires SlotsInv(q) && NeverFull(cfg, q, es)
    ensures q' == TableRun(cfg, q, es) && SlotsInv(q') && q'.nextOid == q.nextOid + AcceptedIn(es)
  {
    if es == [] {
      q' := q;
    } else {
      var n := |es| - 1;
      var q1 := IdsAreCounted(cfg, q, es[..n]);
      q' := QStep(cfg, q1, es[n]).0;
      StepKeepsSlots(cfg, q1, es[n]);
      match es[n]
      case SubmitEv(s, book, now) => IdGiven(cfg, q1, s, book, now);
      case CancelEv(oid, now) =>
      case MarketEv(m) =>
    }
  }

  // Two runs that end in one table.
  ghost predicate Meet(cfg: QueueCfg, q: QState, es: seq<QEvent>, t: QState, more: seq<QEvent>) {
    TableRun(cfg, q, es) == TableRun(cfg, t, more)
  }

  lemma MeetNext(cfg: QueueCfg, q: QState, pre: seq<QEvent>, t: QState, post: seq<QEvent>)
    requires post != [] && Meet(cfg, q, pre + post[..|post| - 1], t, post[..|post| - 1])
    ensures Meet(cfg, q, pre + post, t, post)
  {
    assert (pre + post)[..|pre + post| - 1] == pre + post[..|post| - 1];
  }

  lemma {:induction false} RunInTwo(cfg: QueueCfg, q: QState, pre: seq<QEvent>, t: QState, post: seq<QEvent>)
    requires Meet(cfg, q, pre, t, [])
    ensures Meet(cfg, q, pre + post, t, post)
  {
    if post == [] {
      assert pre + post == pre;
    } else {
      RunInTwo(cfg, q, pre, t, post[..|post| - 1]);
      MeetNext(cfg, q, pre, t, post);
    }
  }

  lemma OneMore(cfg: QueueCfg, q: QState, pre: seq<QEvent>, e: QEvent)
    requires NeverFull(cfg, q, pre + [e]) && e.SubmitEv?
    ensures NeverFull(cfg, q, pre) && HasRoom(TableRun(cfg, q, pre))
    ensures TableRun(cfg, q, pre + [e]) == Submit(cfg, TableRun(cfg, q, pre), e.s, e.book, e.now).0
  {
    assert (pre + [e])[..|pre|] == pre;
  }

  // The order that a submit after a run makes.
  function Born(cfg: QueueCfg, q: QState, pre: seq<QEvent>, e: QEvent): Order
    requires Accepted(e)
  {
    NewOrder(cfg, e.s, q.nextOid + AcceptedIn(pre), QueueAtSubmit(e.s, e.book), e.now)
  }

  lemma SameBirth(cfg: QueueCfg, r: QueueCfg, e: QEvent, id: nat)
    requires Accepted(e) && cfg.netNs == r.netNs && cfg.procNs == r.procNs
    ensures var queue := QueueAtSubmit(e.s, e.book);
      NewOrder(cfg, e.s, id, queue, e.now) == NewOrder(r, e.s, id, queue, e.now)
  {
  }

  lemma IdIsNext(cfg: QueueCfg, q: QState, e: QEvent, o: Order) returns (q': QState)
    requires SlotsInv(q) && HasRoom(q) && Accepted(e)
    requires o == NewOrder(cfg, e.s, q.nextOid, QueueAtSubmit(e.s, e.book), e.now)
    ensures q' == Submit(cfg, q, e.s, e.book, e.now).0
    ensures SlotsInv(q') && 0 < o.id < q'.nextOid && ById(q'.orders, o.id) == Some(o)
  {
    IdGiven(cfg, q, e.s, e.book, e.now);
    q' := Submit(cfg, q, e.s, e.book, e.now).0;
  }

  // It is the same under every model.
  lemma BornAs(cfg: QueueCfg, r: QueueCfg, q: QState, pre: seq<QEvent>, e: QEvent, o: Order)
    returns (q': QState)
    requires SlotsInv(q) && NeverFull(cfg, q, pre + [e]) && Accepted(e) && o == Born(r, q, pre, e)
    requires cfg.netNs == r.netNs && cfg.procNs == r.procNs
    ensures q' == TableRun(cfg, q, pre + [e]) && SlotsInv(q') && 0 < o.id < q'.nextOid
    ensures ById(q'.orders, o.id) == Some(o)
  {
    OneMore(cfg, q, pre, e);
    var q1 := IdsAreCounted(cfg, q, pre);
    SameBirth(cfg, r, e, o.id);
    q' := IdIsNext(cfg, q1, e, o);
  }

  // Three simulators with the same table and latencies take the same stream, submits
  // included. An order submitted anywhere in it, no submit up to it having found a table
  // full, has the same id in all three, and from then on fills most under the aggressive
  // model and least under the conservative one, on a feed that chains its level's reports.
  lemma NewOrdersStayAhead(a: QueueCfg, r: QueueCfg, c: QueueCfg, q: QState, pre: seq<QEvent>, e: QEvent,
                           post: seq<QEvent>, o: Order, level: int)
    requires ThreeModels(a, r, c) && a.procNs == r.procNs == c.procNs && SlotsInv(q)
    requires Accepted(e) && (e.s.otype == Limit || e.s.otype == Fok) && o == Born(r, q, pre, e)
    requires NeverFull(a, q, pre + [e]) && NeverFull(r, q, pre + [e]) && NeverFull(c, q, pre + [e])
    requires InOrder(r, o, Concerning(o.id, post)) && ChainedFeed(o, level, Concerning(o.id, post))
    ensures var es, mine := pre + [e] + post, Concerning(o.id, post);
      var x, y, z := ORun(a, o, mine), ORun(r, o, mine), ORun(c, o, mine);
      CarriedAhead(TableRun(a, q, es).orders, TableRun(r, q, es).orders, o.id, x, y)
      && CarriedAhead(TableRun(r, q, es).orders, TableRun(c, q, es).orders, o.id, y, z)
  {
    var qa := BornAs(a, r, q, pre, e, o);
    var qr := BornAs(r, r, q, pre, e, o);
    var qc := BornAs(c, r, q, pre, e, o);
    BornResident(r, q, pre, e, o);
    OrdersStayAhead(a, r, c, qa, qr, qc, post, o.id, o, level);
    RunInTwo(a, q, pre + [e], qa, post);
    RunInTwo(r, q, pre + [e], qr, post);
    RunInTwo(c, q, pre + [e], qc, post);
  }

  lemma BornResident(cfg: QueueCfg, q: QState, pre: seq<QEvent>, e: QEvent, o: Order)
    requires Accepted(e) && o == Born(cfg, q, pre, e) && FIRST_OID <= q.nextOid
    requires e.s.otype == Limit || e.s.otype == Fok
    ensures Resident(o)
  {
  }
}
