// What the two-leg manager answers to a fill, a cancel, a tick and an opening, in terms of
// the fills, the limits, the books and the fees it goes by.

module ManagerAnswers {
  import opened Arith
  import opened Types
  import opened Walk
  import opened OrderBook
  import opened Economics
  import opened Arb
  import opened ArbMgr
  import opened ArbOutcomes

  // ------------------------------------------------------------------ what it looks at

  // Best ask and best bid of a book, zero when there is none.
  function Ask(book: Option<BookState>): int {
    if book == None || book.value.asks == [] then 0 else book.value.asks[0].price
  }

  function Bid(book: Option<BookState>): int {
    if book == None || book.value.bids == [] then 0 else book.value.bids[|book.value.bids| - 1].price
  }

  // Dollars a taker pays in fees for n shares at a price.
  function TakerFee(arb: ArbCfg, price: int, n: nat): real {
    (n * price) as real * arb.fees.takerFeeBps / 10000000.0 + arb.fees.fixedOrderFeeUsd
  }

  // The net edge of n pairs in the two books, and less than nothing when they do not fill.
  ghost predicate EdgeNow(arb: ArbCfg, books: Books, n: nat, edge: real)
    requires 0 < n
  {
    if books.yes.Some? && books.no.Some? && n <= Depth(books.yes.value.asks) && n <= Depth(books.no.value.asks)
    then exists ay: int, an: int :: AverageOf(ay, books.yes.value.asks, n) && AverageOf(an, books.no.value.asks, n)
                                    && edge == PairNet(arb, ay + an, n)
    else edge == -1.0
  }

  lemma NetNowIsEdge(arb: ArbCfg, op: Op, books: Books)
    requires 0 < op.target
    ensures EdgeNow(arb, books, op.target, NetNow(arb, op, books))
  {
    if books.yes.Some? && books.no.Some? {
      var q := NetAt(books.yes.value, books.no.value, arb, op.target);
      QuoteMeans(books.yes.value, books.no.value, arb, op.target, q);
    }
  }

  // The loss of buying n shares at a price instead of at the limit, fees included, and
  // nothing for a gain.
  ghost predicate LossOf(arb: ArbCfg, n: nat, price: int, limit: int, loss: real)
    requires 0 < n
  {
    var most := (n * (price - limit)) as real / 1000.0 + TakerFee(arb, price, n);
    loss == if most < 0.0 then 0.0 else most
  }

  lemma LagLossMeans(arb: ArbCfg, n: nat, price: int, limit: int)
    requires 0 < n
    ensures LossOf(arb, n, price, limit, LagLoss(arb, n, price, limit))
  {
    TakerFeeMeans(arb.fees, price, n);
    assert (n * (price - limit)) as real == n as real * (price as real - limit as real);
  }

  // ------------------------------------------------------------------------- a fill

  // An answer that asks for nothing, the configuration that stands in for a missing one,
  // and a slot without an operation, of 64.
  lemma BlanksAre()
    ensures MAX_OPS == 64
    ensures CLEARED == Action(NoAction, 0, 0, 0, 0, 0.0, 0.0, 0.0, 0.0, false)
    ensures NO_ARB == ArbCfg(FeeSchedule(0.0, 0.0, 0.0, 0.0, 0.0), 0.0, 0.0, 0.0, 0.0, 0)
    ensures NO_OP == Op(0, Idle, 0, 0, 0, 0, 0, 0, 0, 0, 0, 0.0, 0, 0, 0, 0.0)
  {
  }

  // A fill goes to its leg, and the first of YES starts the hedge clock.
  ghost predicate Booking(op: Op, op': Op, isYes: bool, delta: nat, price: int, now: nat) {
    && op'.arbId == op.arbId && op'.target == op.target && op'.yesLimit == op.yesLimit && op'.noLimit == op.noLimit
    && op'.yesOid == op.yesOid && op'.noOid == op.noOid && op'.designedNetEdge == op.designedNetEdge
    && op'.openedT == op.openedT && op'.lastUpdateT == now
    && op'.yesFilled == op.yesFilled + (if isYes then delta else 0)
    && op'.noFilled == op.noFilled + (if isYes then 0 else delta)
    && op'.yesNotional == op.yesNotional + (if isYes then delta * price else 0)
    && op'.noNotional == op.noNotional + (if isYes then 0 else delta * price)
    && op'.legAFillT == if isYes && op.legAFillT == 0 then now else op.legAFillT
  }

  // The answer that reports a PnL: a dollar a targeted pair, less what was paid and a
  // taker's fees on both legs at their averages, in whole thousandths.
  ghost predicate Completes(arb: ArbCfg, op: Op, i: int, act: Action)
    requires 0 < op.target
  {
    && op.state == BothFilled && act == CLEARED.(kind := Complete, opIndex := i, realizedPnl := op.realizedPnl)
    && exists ay: int, an: int :: TowardZero(ay, op.yesNotional, op.target) && TowardZero(an, op.noNotional, op.target)
         && op.realizedPnl == op.target as real - (op.yesNotional + op.noNotional) as real / 1000.0
                              - TakerFee(arb, ay, op.target) - TakerFee(arb, an, op.target)
  }

  lemma PnlIs(arb: ArbCfg, op: Op, ay: int, an: int)
    requires 0 < op.target && ay == Truncated(op.yesNotional, op.target) && an == Truncated(op.noNotional, op.target)
    ensures CompletionPnl(arb, op) == op.target as real - (op.yesNotional + op.noNotional) as real / 1000.0
                                      - TakerFee(arb, ay, op.target) - TakerFee(arb, an, op.target)
  {
    TakerFeeMeans(arb.fees, ay, op.target);
    TakerFeeMeans(arb.fees, an, op.target);
    WholePnl(op.yesNotional as real, op.noNotional as real, op.target as real);
  }

  lemma PnlCompletes(arb: ArbCfg, op: Op, i: int)
    requires 0 < op.target
    ensures var pnl := CompletionPnl(arb, op);
      Completes(arb, op.(state := BothFilled, realizedPnl := pnl), i,
                CLEARED.(kind := Complete, opIndex := i, realizedPnl := pnl))
  {
    var ay, an := Truncated(op.yesNotional, op.target), Truncated(op.noNotional, op.target);
    TruncatedIsTowardZero(op.yesNotional, op.target);
    TruncatedIsTowardZero(op.noNotional, op.target);
    PnlIs(arb, op, ay, an);
  }

  lemma WholePnl(y: real, n: real, size: real)
    requires 0.0 < size
    ensures (1.0 - (y / size + n / size) / 1000.0) * size == size - (y + n) / 1000.0
  {
    var ay, an := y / size, n / size;
    assert ay * size == y && an * size == n;
    assert (1.0 - (ay + an) / 1000.0) * size == size - (ay * size + an * size) / 1000.0;
  }

  // One leg leads. The rest of the other is bought at the ask when requotes are allowed,
  // its loss is below what a trade may lose, and the pair still has edge; otherwise what
  // the leading leg has over the other is sold at its bid. Either way the answer carries
  // the loss, and whether that alone spoke against it.
  ghost predicate Resolves(cfg: MgrCfg, arb: ArbCfg, op: Op, i: int, books: Books, op': Op, act: Action)
    requires 0 < op.target && op.yesFilled != op.noFilled
  {
    var yesLeads := op.noFilled < op.yesFilled;
    var n := if yesLeads then op.yesFilled - op.noFilled else op.noFilled - op.yesFilled;
    var price := if yesLeads then Ask(books.no) else Ask(books.yes);
    && LossOf(arb, n, price, if yesLeads then op.noLimit else op.yesLimit, act.projectedLoss)
    && act.maxLossAllowed == cfg.maxLossPerTrade && act.size == n && act.opIndex == i && act.realizedPnl == 0.0
    && (act.overRisk <==> cfg.maxLossPerTrade <= act.projectedLoss)
    && exists edge: real :: EdgeNow(arb, books, op.target, edge)
         && if cfg.allowRequote && act.projectedLoss < cfg.maxLossPerTrade && arb.minEdge < edge
            then && act.kind == SubmitLeg && act.leg == (if yesLeads then 1 else 0) && act.price == price
                 && act.remainingEdge == edge && op' == op.(state := if yesLeads then LegBPending else LegAPending)
            else && act.kind == MarketHedge && act.leg == (if yesLeads then 0 else 1)
                 && act.price == (if yesLeads then Bid(books.yes) else Bid(books.no))
                 && act.remainingEdge == 0.0 && op' == op.(state := HedgeRequired)
  }

  lemma ExcessResolves(cfg: MgrCfg, arb: ArbCfg, op: Op, i: int, books: Books)
    requires 0 < op.target && op.yesFilled != op.noFilled
    ensures var (op', act) := OnExcess(cfg, arb, op, i, books); Resolves(cfg, arb, op, i, books, op', act)
  {
    NetNowIsEdge(arb, op, books);
    if op.noFilled < op.yesFilled {
      LagLossMeans(arb, op.yesFilled - op.noFilled, Ask(books.no), op.noLimit);
    } else {
      LagLossMeans(arb, op.noFilled - op.yesFilled, Ask(books.yes), op.yesLimit);
    }
  }

  // Complete when both legs have reached the target; else one leg is brought level with the
  // other; else, level, it waits for more of either.
  ghost predicate Answers(cfg: MgrCfg, arb: ArbCfg, op: Op, i: int, books: Books, op': Op, act: Action)
    requires 0 < op.target
  {
    if op.target <= op.yesFilled && op.target <= op.noFilled then
      op' == op.(state := BothFilled, realizedPnl := op'.realizedPnl) && Completes(arb, op', i, act)
    else if op.yesFilled != op.noFilled then Resolves(cfg, arb, op, i, books, op', act)
    else
      && op' == op.(state := LegAPartial) && act == CLEARED.(opIndex := i, remainingEdge := act.remainingEdge)
      && EdgeNow(arb, books, op.target, act.remainingEdge)
  }

  lemma FillIsAnswered(cfg: MgrCfg, arb: ArbCfg, op0: Op, i: int, books: Books, isYes: bool, delta: nat,
                       price: int, now: nat)
    returns (op: Op)
    requires op0.arbId != 0 && 0 < op0.target
    ensures Booking(op0, op, isYes, delta, price, now) && op.state == op0.state && op.realizedPnl == op0.realizedPnl
    ensures var (op', act) := OnFill(cfg, arb, op0, i, books, isYes, delta, price, now);
      Answers(cfg, arb, op, i, books, op', act)
  {
    op := Booked(op0, isYes, delta, price, now);
    if op.target <= op.yesFilled && op.target <= op.noFilled {
      PnlCompletes(arb, op, i);
    } else if op.yesFilled != op.noFilled {
      ExcessResolves(cfg, arb, op, i, books);
    } else {
      NetNowIsEdge(arb, op, books);
    }
  }

  // So the lagging leg is requoted exactly when that is allowed, affordable and worth it,
  // whichever leg leads.
  lemma RequotesExactly(cfg: MgrCfg, arb: ArbCfg, op0: Op, i: int, books: Books, isYes: bool, delta: nat,
                        price: int, now: nat, op: Op, n: nat, loss: real, edge: real)
    requires op0.arbId != 0 && 0 < op0.target && Booking(op0, op, isYes, delta, price, now)
    requires op.noFilled < op.yesFilled ==>
      n == op.yesFilled - op.noFilled && LossOf(arb, n, Ask(books.no), op.noLimit, loss)
    requires op.yesFilled < op.noFilled ==>
      n == op.noFilled - op.yesFilled && LossOf(arb, n, Ask(books.yes), op.yesLimit, loss)
    requires op.yesFilled != op.noFilled
    requires EdgeNow(arb, books, op.target, edge)
    ensures OnFill(cfg, arb, op0, i, books, isYes, delta, price, now).1.kind == SubmitLeg
       <==> !(op.target <= op.yesFilled && op.target <= op.noFilled)
            && cfg.allowRequote && loss < cfg.maxLossPerTrade && arb.minEdge < edge
  {
    var op1 := FillIsAnswered(cfg, arb, op0, i, books, isYes, delta, price, now);
    EdgeIsOne(arb, books, op.target);
  }

  lemma EdgeIsOne(arb: ArbCfg, books: Books, n: nat)
    requires 0 < n
    ensures forall e: real, f: real :: EdgeNow(arb, books, n, e) && EdgeNow(arb, books, n, f) ==> e == f
  {
    if books.yes.Some? && books.no.Some? {
      forall a: int, b: int | AverageOf(a, books.yes.value.asks, n) && AverageOf(b, books.yes.value.asks, n)
        ensures a == b { AveragesAreUnique(a, b, books.yes.value.asks, n); }
      forall a: int, b: int | AverageOf(a, books.no.value.asks, n) && AverageOf(b, books.no.value.asks, n)
        ensures a == b { AveragesAreUnique(a, b, books.no.value.asks, n); }
    }
  }

  // What one leg has over the other, and what each still wants.
  lemma ExposureMeans(op: Op)
    ensures var x := ExposureOf(op);
      x.excessYes == Max(0, op.yesFilled - op.noFilled) && x.excessNo == Max(0, op.noFilled - op.yesFilled)
      && x.remainingYes == Max(0, op.target - op.yesFilled) && x.remainingNo == Max(0, op.target - op.noFilled)
  {
  }

  // -------------------------------------------------------------- cancels and ticks

  // The sale of what one leg has over the other, at that leg's bid.
  ghost predicate Dumps(op: Op, i: int, books: Books, act: Action) {
    act == CLEARED.(kind := MarketHedge, opIndex := i,
                    leg := if op.noFilled < op.yesFilled then 0 else 1,
                    size := if op.noFilled < op.yesFilled then op.yesFilled - op.noFilled
                            else op.noFilled - op.yesFilled,
                    price := if op.noFilled < op.yesFilled then Bid(books.yes) else Bid(books.no))
  }

  // A cancel aborts what has no fill, hedges what is uneven, and ends the rest.
  lemma CancelIsAnswered(op: Op, i: int, books: Books)
    ensures var (op', act) := OnCancel(op, i, books);
      if op.yesFilled == 0 && op.noFilled == 0 then
        op' == op.(state := OpCancelled) && act == CLEARED.(kind := Abort, opIndex := i)
      else if op.yesFilled == op.noFilled then op' == op.(state := OpCancelled) && act == CLEARED.(opIndex := i)
      else op' == op.(state := HedgeRequired) && Dumps(op, i, books, act)
  {
  }

  // Neither finished nor given up.
  predicate Going(op: Op) {
    && op.state != Idle && op.state != BothFilled && op.state != Hedged
    && op.state != OpCancelled && op.state != OpExpired && op.state != OpFailed
  }

  // Uneven with its clock running for as long as it may, on clocks of 64 bits.
  predicate Overdue(cfg: MgrCfg, op: Op, now: nat) {
    && Going(op) && op.yesFilled != op.noFilled && 0 < op.legAFillT
    && cfg.maxUnhedgedNs <= (now - op.legAFillT) % 18446744073709551616
  }

  lemma TickIsAnswered(cfg: MgrCfg, op: Op, i: int, books: Books, now: nat)
    ensures var (op', acts) := OnTick(cfg, op, i, books, now);
      if Overdue(cfg, op, now) then
        op' == op.(state := HedgeRequired, lastUpdateT := now) && |acts| == 1 && Dumps(op, i, books, acts[0])
      else op' == op && acts == []
  {
  }

  // The hedge of an overdue operation of the table.
  ghost predicate HedgesOne(cfg: MgrCfg, ops: seq<Op>, books: Books, now: nat, act: Action) {
    exists i :: 0 <= i < |ops| && Overdue(cfg, ops[i], now) && Dumps(ops[i], i, books, act)
  }

  lemma OneMoreOverdue(cfg: MgrCfg, ops: seq<Op>, books: Books, now: nat, act: Action)
    requires ops != []
    ensures var n := |ops| - 1;
      HedgesOne(cfg, ops, books, now, act)
      <==> HedgesOne(cfg, ops[..n], books, now, act) || (Overdue(cfg, ops[n], now) && Dumps(ops[n], n, books, act))
  {
    var n := |ops| - 1;
    if HedgesOne(cfg, ops[..n], books, now, act) {
      var i :| 0 <= i < n && Overdue(cfg, ops[..n][i], now) && Dumps(ops[..n][i], i, books, act);
      assert Overdue(cfg, ops[i], now) && Dumps(ops[i], i, books, act);
    }
    if i :| 0 <= i < n && Overdue(cfg, ops[i], now) && Dumps(ops[i], i, books, act) {
      assert Overdue(cfg, ops[..n][i], now) && Dumps(ops[..n][i], i, books, act);
    }
  }

  // A tick of the whole table hedges the operations that are overdue, and no others.
  lemma {:induction false} TickHedgesOverdue(cfg: MgrCfg, ops: seq<Op>, books: Books, now: nat)
    ensures forall act :: act in TickActions(cfg, ops, books, now) <==> HedgesOne(cfg, ops, books, now, act)
  {
    if ops != [] {
      var n := |ops| - 1;
      TickHedgesOverdue(cfg, ops[..n], books, now);
      TickIsAnswered(cfg, ops[n], n, books, now);
      forall act ensures act in TickActions(cfg, ops, books, now) <==> HedgesOne(cfg, ops, books, now, act) {
        OneMoreOverdue(cfg, ops, books, now, act);
      }
    }
  }

  // ------------------------------------------------------------------------ openings

  // A slot is given away when its operation is not going, or is none.
  predicate Vacant(op: Op) {
    !Going(op) || op.arbId == 0
  }

  // An opportunity takes the first such slot, with its size as the target and its averages
  // as the limits; without a slot or an opportunity nothing changes.
  lemma OpenTakesSlot(m: MState, o: Opportunity, yesOid: nat, now: nat) returns (i: nat)
    ensures i <= |m.ops| && forall j :: 0 <= j < i ==> !Vacant(m.ops[j])
    ensures i < |m.ops| ==> Vacant(m.ops[i])
    ensures var (m', slot) := Open(m, o, yesOid, now);
      if !o.hasOpportunity || i == |m.ops| then m' == m && slot == -1
      else && slot == i && m'.nextId == m.nextId + 1 && |m'.ops| == |m.ops|
           && (forall j :: 0 <= j < |m.ops| && j != i ==> m'.ops[j] == m.ops[j])
           && m'.ops[i] == NO_OP.(arbId := m.nextId, state := LegAPending, target := o.size, yesLimit := o.avgYes,
                                  noLimit := o.avgNo, yesOid := yesOid, designedNetEdge := o.netEdge,
                                  openedT := now, lastUpdateT := now)
  {
    i := FirstFree(m.ops);
  }

  // Fills and cancels touch the slot they name, and nothing when there is none or it is
  // blank.
  lemma ReportsNameASlot(cfg: MgrCfg, arb: ArbCfg, ops: seq<Op>, i: int, books: Books, isYes: bool, delta: nat,
                         price: int, now: nat)
    requires forall j :: 0 <= j < |ops| && ops[j].arbId != 0 ==> ops[j].target > 0
    ensures var (fs, f) := FillAt(cfg, arb, ops, i, books, isYes, delta, price, now);
      var (cs, c) := CancelAt(ops, i, books);
      |fs| == |ops| == |cs|
      && (forall j :: 0 <= j < |ops| && j != i ==> fs[j] == ops[j] == cs[j])
      && (if 0 <= i < |ops| then
            (fs[i], f) == OnFill(cfg, arb, ops[i], i, books, isYes, delta, price, now)
            && (cs[i], c) == OnCancel(ops[i], i, books)
            && (ops[i].arbId == 0 ==> fs[i] == ops[i] && f == CLEARED)
          else f == CLEARED == c)
  {
  }

  // The limits in hand, or 10 dollars a trade, requotes and half a second.
  lemma LimitedBy(given: Option<MgrLimits>)
    ensures given == None ==> LimitsOf(given) == MgrCfg(10.0, true, 500000000)
    ensures given.Some? ==>
      var g, c := given.value, LimitsOf(given);
      c.maxLossPerTrade == g.maxLossPerTrade && c.allowRequote == g.allowRequote
      && (0.0 <= g.maxUnhedgedMs ==>
            c.maxUnhedgedNs as real <= g.maxUnhedgedMs * 1000000.0 < c.maxUnhedgedNs as real + 1.0)
  {
  }
}
