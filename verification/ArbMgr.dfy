// pt_arb_mgr: up to 64 two-leg operations, each buying YES and NO, advanced by fills,
// cancels and ticks, which answer with the next action to take.

module ArbMgr {
  import opened Arith
  import opened Types
  import opened Walk
  import opened OrderBook
  import opened Economics
  import opened Arb

  const MAX_OPS: nat := 64

  datatype OpState =
    | Idle | SignalDetected | LegAPending | LegAPartial | LegAFilled | LegBPending | LegBPartial
    | BothFilled | HedgeRequired | Hedged | OpCancelled | OpExpired | OpFailed

  datatype Op = Op(
    arbId: nat, state: OpState, target: nat, yesLimit: int, noLimit: int, yesOid: nat, noOid: nat,
    yesFilled: nat, noFilled: nat, yesNotional: int, noNotional: int, designedNetEdge: real,
    openedT: nat, legAFillT: nat, lastUpdateT: nat, realizedPnl: real)
  {
    // States a new operation may overwrite, and a tick skips.
    predicate Done() {
      state == Idle || state == BothFilled || state == Hedged || state == OpCancelled
      || state == OpExpired || state == OpFailed
    }
  }

  const NO_OP: Op := Op(0, Idle, 0, 0, 0, 0, 0, 0, 0, 0, 0, 0.0, 0, 0, 0, 0.0)

  datatype MgrCfg = MgrCfg(maxLossPerTrade: real, allowRequote: bool, maxUnhedgedNs: nat)

  // Limits as they are handed in; what stands in for missing ones.
  datatype MgrLimits = MgrLimits(maxLossPerTrade: real, allowRequote: bool, maxUnhedgedMs: real)

  const DEFAULT_LIMITS: MgrLimits := MgrLimits(10.0, true, 500.0)

  const NO_ARB: ArbCfg := ArbCfg(FeeSchedule(0.0, 0.0, 0.0, 0.0, 0.0), 0.0, 0.0, 0.0, 0.0, 0)

  function LimitsOf(given: Option<MgrLimits>): MgrCfg {
    var g := if given.Some? then given.value else DEFAULT_LIMITS;
    MgrCfg(g.maxLossPerTrade, g.allowRequote, WholeNs(g.maxUnhedgedMs))
  }

  datatype ActionKind = NoAction | SubmitLeg | MarketHedge | Complete | Abort

  // leg: 0 is YES, 1 is NO.
  datatype Action = Action(
    kind: ActionKind, leg: int, size: nat, price: int, opIndex: int, realizedPnl: real,
    remainingEdge: real, maxLossAllowed: real, projectedLoss: real, overRisk: bool)

  const CLEARED: Action := Action(NoAction, 0, 0, 0, 0, 0.0, 0.0, 0.0, 0.0, false)

  // The two books as a call finds them; either may be missing.
  datatype Books = Books(yes: Option<BookState>, no: Option<BookState>)

  // ---------------------------------------------------------------------- exposure

  datatype Exposure = Exposure(excessYes: nat, excessNo: nat, remainingYes: nat, remainingNo: nat)

  function ExposureOf(op: Op): Exposure {
    var common := Min(op.yesFilled, op.noFilled);
    Exposure(op.yesFilled - common, op.noFilled - common,
             if op.target > op.yesFilled then op.target - op.yesFilled else 0,
             if op.target > op.noFilled then op.target - op.noFilled else 0)
  }

  function CurAsk(b: Option<BookState>): int {
    if b.Some? && b.value.BestAsk().Some? then b.value.BestAsk().value.price else 0
  }

  function CurBid(b: Option<BookState>): int {
    if b.Some? && b.value.BestBid().Some? then b.value.BestBid().value.price else 0
  }

  // The market sale that flattens the leading leg.
  function Hedge(op: Op, i: int, books: Books): Action {
    var x := ExposureOf(op);
    if x.excessYes > 0 then
      CLEARED.(kind := MarketHedge, leg := 0, size := x.excessYes, price := CurBid(books.yes), opIndex := i)
    else
      CLEARED.(kind := MarketHedge, leg := 1, size := x.excessNo, price := CurBid(books.no), opIndex := i)
  }

  // ------------------------------------------------------------------------- a fill

  function Booked(op: Op, isYes: bool, delta: nat, price: int, now: nat): Op {
    var op1 :=
      if isYes then
        op.(yesFilled := op.yesFilled + delta, yesNotional := op.yesNotional + delta * price,
            legAFillT := if op.legAFillT == 0 then now else op.legAFillT)
      else
        op.(noFilled := op.noFilled + delta, noNotional := op.noNotional + delta * price);
    op1.(lastUpdateT := now)
  }

  // Fees both legs are charged at completion, on averages truncated to whole ticks.
  function CompletionFees(arb: ArbCfg, op: Op): real
    requires op.target > 0
  {
    FeeUsd(Some(arb.fees), true, Truncated(op.yesNotional, op.target), op.target)
    + FeeUsd(Some(arb.fees), true, Truncated(op.noNotional, op.target), op.target)
  }

  function CompletionPnl(arb: ArbCfg, op: Op): real
    requires op.target > 0
  {
    var n := op.target as real;
    var ay, an := op.yesNotional as real / n, op.noNotional as real / n;
    (1.0 - (ay + an) / 1000.0) * n - CompletionFees(arb, op)
  }

  function NetNow(arb: ArbCfg, op: Op, books: Books): real {
    var size := if op.target > 1 then op.target else 1;
    if books.yes == None || books.no == None then -1.0
    else
      var q := NetAt(books.yes.value, books.no.value, arb, size);
      if q.Some? then q.value.net else -1.0
  }

  // Loss of buying a size at an ask instead of at the limit it was designed for.
  function LagLoss(arb: ArbCfg, size: nat, ask: int, designed: int): real {
    var loss := size as real * (ask as real - designed as real) / 1000.0
                + FeeUsd(Some(arb.fees), true, ask, size);
    if loss > 0.0 then loss else 0.0
  }

  // Loss from completing the lagging leg now.
  function ProjectedLoss(arb: ArbCfg, op: Op, books: Books): real {
    var x, leadingYes := ExposureOf(op), op.yesFilled > op.noFilled;
    var ask := if leadingYes then CurAsk(books.no) else CurAsk(books.yes);
    var designed := if leadingYes then op.noLimit else op.yesLimit;
    var size := if leadingYes then x.excessYes else x.excessNo;
    LagLoss(arb, size, ask, designed)
  }

  // One leg leads: requote the lagging leg if that is cheap enough, else flatten.
  function OnExcess(cfg: MgrCfg, arb: ArbCfg, op: Op, i: int, books: Books): (Op, Action) {
    var x, leadingYes := ExposureOf(op), op.yesFilled > op.noFilled;
    var net, loss := NetNow(arb, op, books), ProjectedLoss(arb, op, books);
    var judged := CLEARED.(projectedLoss := loss, maxLossAllowed := cfg.maxLossPerTrade,
                           overRisk := loss >= cfg.maxLossPerTrade);
    if loss < cfg.maxLossPerTrade && net > arb.minEdge && cfg.allowRequote then
      (op.(state := if leadingYes then LegBPending else LegAPending),
       judged.(kind := SubmitLeg, leg := if leadingYes then 1 else 0,
               size := if leadingYes then x.excessYes else x.excessNo,
               price := if leadingYes then CurAsk(books.no) else CurAsk(books.yes),
               remainingEdge := net, opIndex := i))
    else
      var h := Hedge(op, i, books);
      (op.(state := HedgeRequired),
       judged.(kind := MarketHedge, leg := h.leg, size := h.size, price := h.price, opIndex := i))
  }

  function OnFill(cfg: MgrCfg, arb: ArbCfg, op0: Op, i: int, books: Books, isYes: bool, delta: nat,
                  price: int, now: nat): (Op, Action)
    requires op0.arbId != 0 ==> op0.target > 0
  {
    if op0.arbId == 0 then (op0, CLEARED)
    else
      var op := Booked(op0, isYes, delta, price, now);
      if op.yesFilled >= op.target && op.noFilled >= op.target then
        var pnl := CompletionPnl(arb, op);
        (op.(state := BothFilled, realizedPnl := pnl),
         CLEARED.(kind := Complete, opIndex := i, realizedPnl := pnl))
      else if op.yesFilled != op.noFilled then OnExcess(cfg, arb, op, i, books)
      else (op.(state := LegAPartial), CLEARED.(remainingEdge := NetNow(arb, op, books), opIndex := i))
  }

  // ----------------------------------------------------------------- cancel and tick

  function OnCancel(op: Op, i: int, books: Books): (Op, Action) {
    if op.yesFilled == 0 && op.noFilled == 0 then
      (op.(state := OpCancelled), CLEARED.(kind := Abort, opIndex := i))
    else if op.yesFilled != op.noFilled then (op.(state := HedgeRequired), Hedge(op, i, books))
    else (op.(state := OpCancelled), CLEARED.(opIndex := i))
  }

  // Elapsed time of unsigned 64-bit clocks.
  function Elapsed(now: nat, since: nat): nat {
    (now - since) % TWO_64
  }

  function OnTick(cfg: MgrCfg, op: Op, i: int, books: Books, now: nat): (Op, seq<Action>) {
    if op.Done() then (op, [])
    else if op.yesFilled != op.noFilled && op.legAFillT > 0 && Elapsed(now, op.legAFillT) >= cfg.maxUnhedgedNs
    then (op.(state := HedgeRequired, lastUpdateT := now), [Hedge(op, i, books)])
    else (op, [])
  }

  // ----------------------------------------------------------------- the whole table

  datatype MState = MState(ops: seq<Op>, nextId: nat)

  predicate Free(op: Op) {
    op.Done() || op.arbId == 0
  }

  function FirstFree(ops: seq<Op>): (i: nat)
    ensures i <= |ops|
    ensures forall j :: 0 <= j < i ==> !Free(ops[j])
    ensures i < |ops| ==> Free(ops[i])
  {
    if ops == [] || Free(ops[0]) then 0 else 1 + FirstFree(ops[1..])
  }

  function Opened(o: Opportunity, id: nat, yesOid: nat, now: nat): Op {
    Op(id, LegAPending, o.size, o.avgYes, o.avgNo, yesOid, 0, 0, 0, 0, 0, o.netEdge, now, 0, now, 0.0)
  }

  // The new table and the slot, -1 when there is none.
  function Open(m: MState, o: Opportunity, yesOid: nat, now: nat): (MState, int) {
    var i: int := FirstFree(m.ops);
    if !o.hasOpportunity || i == |m.ops| then (m, -1)
    else (MState(m.ops[i := Opened(o, m.nextId, yesOid, now)], m.nextId + 1), i)
  }

  // A fill or a cancel reported for a slot; an index outside the table is ignored.
  function FillAt(cfg: MgrCfg, arb: ArbCfg, ops: seq<Op>, i: int, books: Books, isYes: bool, delta: nat,
                  price: int, now: nat): (seq<Op>, Action)
    requires forall j :: 0 <= j < |ops| && ops[j].arbId != 0 ==> ops[j].target > 0
  {
    if i < 0 || i >= |ops| then (ops, CLEARED)
    else
      var (op, act) := OnFill(cfg, arb, ops[i], i, books, isYes, delta, price, now);
      (ops[i := op], act)
  }

  function CancelAt(ops: seq<Op>, i: int, books: Books): (seq<Op>, Action) {
    if i < 0 || i >= |ops| then (ops, CLEARED)
    else
      var (op, act) := OnCancel(ops[i], i, books);
      (ops[i := op], act)
  }

  // Actions of a tick, in slot order.
  function TickActions(cfg: MgrCfg, ops: seq<Op>, books: Books, now: nat): seq<Action> {
    if ops == [] then []
    else
      var n := |ops| - 1;
      TickActions(cfg, ops[..n], books, now) + OnTick(cfg, ops[n], n, books, now).1
  }

  function Ticked(cfg: MgrCfg, ops: seq<Op>, books: Books, now: nat): (ts: seq<Op>)
    ensures |ts| == |ops|
    ensures forall i :: 0 <= i < |ops| ==> ts[i] == OnTick(cfg, ops[i], i, books, now).0
  {
    seq(|ops|, i requires 0 <= i < |ops| => OnTick(cfg, ops[i], i, books, now).0)
  }

  // --------------------------------------------------------------------- the manager

  class Manager {
    const ops: array<Op>
    const cfg: MgrCfg
    const arb: ArbCfg
    var yesBook: Book?
    var noBook: Book?
    var nextArbId: nat

    ghost predicate Valid()
      reads this, ops
    {
      ops.Length == MAX_OPS && forall i :: 0 <= i < ops.Length && ops[i].arbId != 0 ==> ops[i].target > 0
    }

    ghost predicate BooksValid()
      reads this
      reads if yesBook == null then {}
            else {yesBook, yesBook.bids, yesBook.bids.levels, yesBook.asks, yesBook.asks.levels}
      reads if noBook == null then {} else {noBook, noBook.bids, noBook.bids.levels, noBook.asks, noBook.asks.levels}
    {
      (yesBook != null ==> yesBook.Valid()) && (noBook != null ==> noBook.Valid())
    }

    ghost function Market(): Books
      requires BooksValid()
      reads this
      reads if yesBook == null then {}
            else {yesBook, yesBook.bids, yesBook.bids.levels, yesBook.asks, yesBook.asks.levels}
      reads if noBook == null then {} else {noBook, noBook.bids, noBook.bids.levels, noBook.asks, noBook.asks.levels}
    {
      Books(View(yesBook), View(noBook))
    }

    ghost function State(): MState
      reads this, ops
    {
      MState(ops[..], nextArbId)
    }

    constructor (limits: Option<MgrLimits>, arb: Option<ArbCfg>, yes: Book?, no: Book?)
      ensures Valid() && State() == MState(seq(MAX_OPS, _ => NO_OP), 1)
      ensures cfg == LimitsOf(limits) && this.arb == (if arb.Some? then arb.value else NO_ARB)
      ensures yesBook == yes && noBook == no && fresh(ops)
    {
      cfg, yesBook, noBook := LimitsOf(limits), yes, no;
      this.arb := if arb.Some? then arb.value else NO_ARB;
      ops := new Op[MAX_OPS](_ => NO_OP);
      nextArbId := 1;
    }

    method OpenOp(o: Opportunity, yesOid: nat, now: nat) returns (slot: int)
      requires Valid() && (o.hasOpportunity ==> o.size > 0)
      modifies this`nextArbId, ops
      ensures Valid() && (State(), slot) == Open(old(State()), o, yesOid, now)
    {
      if !o.hasOpportunity { return -1; }
      var i := 0;
      while i < ops.Length && !Free(ops[i])
        invariant i <= ops.Length
        invariant forall j :: 0 <= j < i ==> !Free(ops[j])
      {
        i := i + 1;
      }
      FirstFreeIs(ops[..], i);
      if i == ops.Length { return -1; }
      ops[i] := Opened(o, nextArbId, yesOid, now);
      nextArbId := nextArbId + 1;
      slot := i;
    }

    // Excess and remaining shares of a slot's legs; nothing for an index outside the table.
    method LegExposure(i: int) returns (x: Exposure)
      requires Valid()
      ensures x == if 0 <= i < ops.Length then ExposureOf(ops[i]) else Exposure(0, 0, 0, 0)
    {
      if i < 0 || i >= ops.Length { return Exposure(0, 0, 0, 0); }
      var op := ops[i];
      var common := if op.yesFilled < op.noFilled then op.yesFilled else op.noFilled;
      x := Exposure(op.yesFilled - common, op.noFilled - common,
                    if op.target > op.yesFilled then op.target - op.yesFilled else 0,
                    if op.target > op.noFilled then op.target - op.noFilled else 0);
    }

    method CurrentAsk(b: Book?) returns (price: int)
      requires b != null ==> b.Valid()
      ensures price == CurAsk(View(b))
    {
      if b == null { return 0; }
      var best := b.BestAsk();
      price := if best.Some? then best.value.price else 0;
    }

    method CurrentBid(b: Book?) returns (price: int)
      requires b != null ==> b.Valid()
      ensures price == CurBid(View(b))
    {
      if b == null { return 0; }
      var best := b.BestBid();
      price := if best.Some? then best.value.price else 0;
    }

    method CurrentNet(op: Op) returns (net: real)
      requires BooksValid()
      ensures net == NetNow(arb, op, Market())
    {
      if yesBook == null || noBook == null { return -1.0; }
      var q := ComputeNetAt(yesBook, noBook, arb, if op.target > 1 then op.target else 1);
      net := if q.Some? then q.value.net else -1.0;
    }

    // The excess branch of a fill: judge the loss, then requote or flatten.
    method ResolveExcess(op: Op, i: int) returns (op': Op, act: Action)
      requires BooksValid() && op.yesFilled != op.noFilled
      ensures (op', act) == OnExcess(cfg, arb, op, i, Market())
    {
      var leadingYes := op.yesFilled > op.noFilled;
      var lagAsk := CurrentAsk(if leadingYes then noBook else yesBook);
      var leadBid := CurrentBid(if leadingYes then yesBook else noBook);
      var net := CurrentNet(op);
      var size := if leadingYes then op.yesFilled - op.noFilled else op.noFilled - op.yesFilled;
      var designed := if leadingYes then op.noLimit else op.yesLimit;
      var loss := LagLoss(arb, size, lagAsk, designed);
      act := CLEARED.(projectedLoss := loss, maxLossAllowed := cfg.maxLossPerTrade,
                      overRisk := loss >= cfg.maxLossPerTrade);
      if !act.overRisk && net > arb.minEdge && cfg.allowRequote {
        op' := op.(state := if leadingYes then LegBPending else LegAPending);
        act := act.(kind := SubmitLeg, leg := if leadingYes then 1 else 0, size := size, price := lagAsk,
                    remainingEdge := net, opIndex := i);
      } else {
        op' := op.(state := HedgeRequired);
        act := act.(kind := MarketHedge, leg := if leadingYes then 0 else 1, size := size,
                    price := leadBid, opIndex := i);
      }
    }

    method RecordFill(i: int, isYes: bool, delta: nat, price: int, now: nat) returns (act: Action)
      requires Valid() && BooksValid()
      modifies ops
      ensures Valid()
      ensures (ops[..], act) == old(FillAt(cfg, arb, ops[..], i, Market(), isYes, delta, price, now))
    {
      act := CLEARED;
      if i < 0 || i >= ops.Length { return; }
      if ops[i].arbId == 0 {
        assert ops[..][i := ops[i]] == ops[..];
        return;
      }
      var op := Booked(ops[i], isYes, delta, price, now);
      if op.yesFilled >= op.target && op.noFilled >= op.target {
        var pnl := CompletionPnl(arb, op);
        act := act.(kind := Complete, opIndex := i, realizedPnl := pnl);
        op := op.(state := BothFilled, realizedPnl := pnl);
      } else if op.yesFilled != op.noFilled {
        op, act := ResolveExcess(op, i);
      } else {
        var net := CurrentNet(op);
        act := act.(remainingEdge := net, opIndex := i);
        op := op.(state := LegAPartial);
      }
      ops[i] := op;
    }

    method SellLeadingLeg(op: Op, i: int) returns (act: Action)
      requires BooksValid()
      ensures act == Hedge(op, i, Market())
    {
      if op.yesFilled > op.noFilled {
        var bid := CurrentBid(yesBook);
        act := CLEARED.(kind := MarketHedge, leg := 0, size := op.yesFilled - op.noFilled, price := bid, opIndex := i);
      } else {
        var bid := CurrentBid(noBook);
        act := CLEARED.(kind := MarketHedge, leg := 1, size := op.noFilled - op.yesFilled, price := bid, opIndex := i);
      }
    }

    method RecordCancel(i: int) returns (act: Action)
      requires Valid() && BooksValid()
      modifies ops
      ensures Valid()
      ensures (ops[..], act) == old(CancelAt(ops[..], i, Market()))
    {
      if i < 0 || i >= ops.Length { return CLEARED; }
      var op := ops[i];
      if op.yesFilled == 0 && op.noFilled == 0 {
        ops[i] := op.(state := OpCancelled);
        return CLEARED.(kind := Abort, opIndex := i);
      }
      if op.yesFilled != op.noFilled {
        act := SellLeadingLeg(op, i);
        ops[i] := op.(state := HedgeRequired);
      } else {
        ops[i] := op.(state := OpCancelled);
        act := CLEARED.(opIndex := i);
      }
    }

    method TickSlot(i: nat, now: nat) returns (acts: seq<Action>)
      requires i < ops.Length && BooksValid()
      modifies ops
      ensures (ops[i], acts) == old(OnTick(cfg, ops[i], i, Market(), now))
      ensures forall j :: 0 <= j < ops.Length && j != i ==> ops[j] == old(ops[j])
      ensures BooksValid() && Market() == old(Market())
    {
      acts := [];
      var op := ops[i];
      if op.Done() { return; }
      if op.yesFilled != op.noFilled && op.legAFillT > 0 {
        if Elapsed(now, op.legAFillT) >= cfg.maxUnhedgedNs {
          var act := SellLeadingLeg(op, i);
          acts := [act];
          ops[i] := op.(state := HedgeRequired, lastUpdateT := now);
        }
      }
    }

    method Tick(now: nat) returns (acts: seq<Action>)
      requires Valid() && BooksValid()
      modifies ops
      ensures Valid() && ops[..] == old(Ticked(cfg, ops[..], Market(), now))
      ensures acts == old(TickActions(cfg, ops[..], Market(), now))
    {
      acts := [];
      ghost var was, books := ops[..], Market();
      for i := 0 to ops.Length
        invariant BooksValid() && Market() == books
        invariant forall j :: 0 <= j < i ==> ops[j] == OnTick(cfg, was[j], j, books, now).0
        invariant forall j :: i <= j < |was| ==> ops[j] == was[j]
        invariant acts == TickActions(cfg, was[..i], books, now)
      {
        TickActionsNext(cfg, was, i, books, now);
        var made := TickSlot(i, now);
        acts := acts + made;
      }
      assert was[..ops.Length] == was;
      TickedIs(cfg, was, books, now, ops[..]);
      TickKeepsTargets(cfg, was, books, now);
    }
  }

  lemma TickActionsNext(cfg: MgrCfg, ops: seq<Op>, i: nat, books: Books, now: nat)
    requires i < |ops|
    ensures TickActions(cfg, ops[..i + 1], books, now)
         == TickActions(cfg, ops[..i], books, now) + OnTick(cfg, ops[i], i, books, now).1
  {
    assert ops[..i + 1][..i] == ops[..i];
  }

  lemma TickedIs(cfg: MgrCfg, ops: seq<Op>, books: Books, now: nat, ts: seq<Op>)
    requires |ts| == |ops| && forall i :: 0 <= i < |ops| ==> ts[i] == OnTick(cfg, ops[i], i, books, now).0
    ensures ts == Ticked(cfg, ops, books, now)
  {
  }

  lemma TickKeepsTargets(cfg: MgrCfg, ops: seq<Op>, books: Books, now: nat)
    ensures forall i :: 0 <= i < |ops| ==>
      Ticked(cfg, ops, books, now)[i].arbId == ops[i].arbId && Ticked(cfg, ops, books, now)[i].target == ops[i].target
  {
  }

  lemma FirstFreeIs(ops: seq<Op>, i: nat)
    requires i <= |ops|
    requires forall j :: 0 <= j < i ==> !Free(ops[j])
    requires i < |ops| ==> Free(ops[i])
    ensures i == FirstFree(ops)
  {
  }
}
