// Safety of the two-leg manager: what its actions mean for one operation, and what
// holds of every operation over whole runs.

module ArbMgrLaws {
  import opened Arith
  import opened Types
  import opened Economics
  import opened Arb
  import opened ArbMgr

  function Legs(op: Op): int {
    op.yesFilled - op.noFilled
  }

  // At most one leg leads, by exactly the difference of the fills.
  lemma OneLegLeads(op: Op)
    ensures var x := ExposureOf(op);
      x.excessYes - x.excessNo == Legs(op)
      && (x.excessYes == 0 || x.excessNo == 0)
      && (x.excessYes + x.excessNo == 0 <==> op.yesFilled == op.noFilled)
  {
  }

  // A market hedge sells exactly what the leading leg has over the other, at that
  // leg's best bid.
  ghost predicate FlattensExactly(op: Op, act: Action, books: Books) {
    act.kind == MarketHedge ==>
      if act.leg == 0 then op.yesFilled > op.noFilled && act.size == Legs(op) && act.price == CurBid(books.yes)
      else act.leg == 1 && op.noFilled > op.yesFilled && act.size == -Legs(op) && act.price == CurBid(books.no)
  }

  // A submit, filled in full, brings the lagging leg level with the leading one, and
  // not past the target unless the leading leg already was; it bids that leg's best ask.
  ghost predicate EqualisesLegs(op: Op, act: Action, books: Books) {
    act.kind == SubmitLeg ==>
      if act.leg == 1 then
        op.noFilled < op.yesFilled == op.noFilled + act.size && act.price == CurAsk(books.no)
        && (op.yesFilled <= op.target ==> op.noFilled + act.size <= op.target)
      else
        act.leg == 0 && op.yesFilled < op.noFilled == op.yesFilled + act.size && act.price == CurAsk(books.yes)
        && (op.noFilled <= op.target ==> op.yesFilled + act.size <= op.target)
  }

  predicate Reached(op: Op) {
    op.yesFilled >= op.target && op.noFilled >= op.target
  }

  lemma FillActions(cfg: MgrCfg, arb: ArbCfg, op: Op, i: int, books: Books, isYes: bool, delta: nat,
                    price: int, now: nat)
    requires op.arbId != 0 ==> op.target > 0
    ensures var (op', act) := OnFill(cfg, arb, op, i, books, isYes, delta, price, now);
      FlattensExactly(op', act, books) && EqualisesLegs(op', act, books)
      && (act.kind == SubmitLeg ==> act.projectedLoss < cfg.maxLossPerTrade && act.remainingEdge > arb.minEdge)
      && (act.kind == MarketHedge ==> op'.state == HedgeRequired)
      && (act.kind == Complete <==> op.arbId != 0 && Reached(op'))
      && (act.kind == SubmitLeg || act.kind == MarketHedge <==> op.arbId != 0 && !Reached(op') && Legs(op') != 0)
      && (act.kind == SubmitLeg ==> op'.state == if act.leg == 1 then LegBPending else LegAPending)
      && (op.arbId != 0 ==> act.opIndex == i)
      && (op.arbId != 0 ==> Legs(op') - Legs(op) == if isYes then delta else 0 - delta)
  {
    if op.arbId != 0 {
      OneLegLeads(Booked(op, isYes, delta, price, now));
    }
  }

  // After a cancel the legs are level, or the action at hand makes them so.
  lemma CancelActions(op: Op, i: int, books: Books)
    ensures var (op', act) := OnCancel(op, i, books);
      FlattensExactly(op, act, books) && Legs(op') == Legs(op)
      && (act.kind == MarketHedge <==> Legs(op) != 0)
      && (op'.state == OpCancelled <==> Legs(op) == 0)
  {
    OneLegLeads(op);
  }

  // ------------------------------------------------------------------ completion PnL

  // With both legs filled to target or past it, the PnL reported plus the fees charged is
  // a dollar a targeted pair, less all that was paid: for exact fills, what a settlement
  // pays, whichever side wins.
  lemma CompletionIsSettlement(cfg: MgrCfg, arb: ArbCfg, op: Op, i: int, books: Books, isYes: bool,
                               delta: nat, price: int, now: nat)
    requires op.arbId != 0 && op.target > 0 && Reached(Booked(op, isYes, delta, price, now))
    ensures var (op', act) := OnFill(cfg, arb, op, i, books, isYes, delta, price, now);
      act.kind == Complete && op'.realizedPnl == act.realizedPnl
      && act.realizedPnl + CompletionFees(arb, op')
           == op'.target as real - Dollars(op'.yesNotional + op'.noNotional)
  {
    var b := Booked(op, isYes, delta, price, now);
    AveragesTimesTarget(b.yesNotional as real, b.noNotional as real, b.target as real);
  }

  lemma AveragesTimesTarget(y: real, n: real, size: real)
    requires 0.0 < size
    ensures (1.0 - (y / size + n / size) / 1000.0) * size == size - (y + n) / 1000.0
  {
    var ay, an := y / size, n / size;
    assert ay * size == y && an * size == n;
    ThreeTerms(ay, an, size);
  }

  lemma ThreeTerms(ay: real, an: real, size: real)
    ensures (1.0 - (ay + an) / 1000.0) * size == size - (ay * size + an * size) / 1000.0
  {
  }

  // --------------------------------------------------------- what a requote is worth

  // Each leg was bought at its limit or better.
  ghost predicate WithinLimits(op: Op) {
    op.yesNotional <= op.yesLimit * op.yesFilled && op.noNotional <= op.noLimit * op.noFilled
  }

  // The rest of the lagging leg, bought at the ask, set against the limits and the loss
  // that was projected for it.
  lemma RequoteBound(lead: int, leadLimit: int, lag: int, lagLimit: int, size: nat, had: nat, rest: nat,
                     ask: int, loss: real, fee: real)
    requires size == had + rest && lead <= leadLimit * size && lag <= lagLimit * had
    requires rest as real * (ask as real - lagLimit as real) / 1000.0 + fee <= loss
    ensures Dollars(lead + lag + rest * ask) <= Dollars(size * (leadLimit + lagLimit)) + loss - fee
  {
    Distribute(size, leadLimit, lagLimit);
    Distribute(lagLimit, had, rest);
    Commutes(size, leadLimit);
    Commutes(size, lagLimit);
    assert rest * ask == lagLimit * rest + rest * (ask - lagLimit);
    assert (rest * (ask - lagLimit)) as real == rest as real * (ask as real - lagLimit as real);
  }

  // Filled as asked, a requote equalises the legs and completes the operation.
  lemma RequoteCompletes(cfg: MgrCfg, arb: ArbCfg, op: Op, i: int, books: Books, act: Action, later: nat)
    requires op.arbId != 0 && op.target > 0 && op.yesFilled != op.noFilled
    requires Max(op.yesFilled, op.noFilled) == op.target
    requires act.leg == (if op.yesFilled > op.noFilled then 1 else 0)
    requires act.size == op.target - Min(op.yesFilled, op.noFilled)
    ensures var (op2, act2) := OnFill(cfg, arb, op, i, books, act.leg == 0, act.size, act.price, later);
      act2.kind == Complete && op2.target == op.target
      && act2.realizedPnl + CompletionFees(arb, op2)
           == op.target as real - Dollars(op.yesNotional + op.noNotional + act.size * act.price)
  {
    CompletionIsSettlement(cfg, arb, op, i, books, act.leg == 0, act.size, act.price, later);
  }

  // The limit of the leg that lags.
  function LagLimit(op: Op): int {
    if op.yesFilled > op.noFilled then op.noLimit else op.yesLimit
  }

  // What a submit asks for, and the loss it was let through with.
  lemma SubmitIs(cfg: MgrCfg, arb: ArbCfg, op0: Op, i: int, books: Books, isYes: bool, delta: nat, price: int,
                 now: nat, op: Op, act: Action)
    requires op0.arbId != 0 && op0.target > 0
    requires (op, act) == OnFill(cfg, arb, op0, i, books, isYes, delta, price, now) && act.kind == SubmitLeg
    ensures op.arbId != 0 && op.target > 0 && op.yesFilled != op.noFilled
    ensures act.leg == (if op.yesFilled > op.noFilled then 1 else 0)
    ensures act.size == Max(op.yesFilled, op.noFilled) - Min(op.yesFilled, op.noFilled)
    ensures act.projectedLoss == LagLoss(arb, act.size, act.price, LagLimit(op)) < cfg.maxLossPerTrade
  {
  }

  lemma RequoteFilled(cfg: MgrCfg, arb: ArbCfg, op: Op, i: int, act: Action, books: Books, later: nat)
    requires op.arbId != 0 && op.target > 0 && op.yesFilled != op.noFilled
    requires Max(op.yesFilled, op.noFilled) == op.target && WithinLimits(op)
    requires act.leg == (if op.yesFilled > op.noFilled then 1 else 0)
    requires act.size == op.target - Min(op.yesFilled, op.noFilled)
    requires act.projectedLoss == LagLoss(arb, act.size, act.price, LagLimit(op))
    ensures var (op2, act2) := OnFill(cfg, arb, op, i, books, act.leg == 0, act.size, act.price, later);
      act2.kind == Complete && op2.target == op.target
      && act2.realizedPnl + CompletionFees(arb, op2)
           >= op.target as real - Dollars(op.target * (op.yesLimit + op.noLimit)) - act.projectedLoss
              + FeeUsd(Some(arb.fees), true, act.price, act.size)
  {
    RequoteCompletes(cfg, arb, op, i, books, act, later);
    RequotePays(arb, op, act);
  }

  lemma RequotePays(arb: ArbCfg, op: Op, act: Action)
    requires op.target > 0 && op.yesFilled != op.noFilled
    requires Max(op.yesFilled, op.noFilled) == op.target && WithinLimits(op)
    requires act.size == op.target - Min(op.yesFilled, op.noFilled)
    requires act.projectedLoss == LagLoss(arb, act.size, act.price, LagLimit(op))
    ensures Dollars(op.yesNotional + op.noNotional + act.size * act.price)
         <= Dollars(op.target * (op.yesLimit + op.noLimit)) + act.projectedLoss
            - FeeUsd(Some(arb.fees), true, act.price, act.size)
  {
    var fee := FeeUsd(Some(arb.fees), true, act.price, act.size);
    if op.yesFilled > op.noFilled {
      RequoteBound(op.yesNotional, op.yesLimit, op.noNotional, op.noLimit, op.target, op.noFilled, act.size,
                   act.price, act.projectedLoss, fee);
    } else {
      RequoteBound(op.noNotional, op.noLimit, op.yesNotional, op.yesLimit, op.target, op.yesFilled, act.size,
                   act.price, act.projectedLoss, fee);
    }
  }

  // With the leading leg filled to target and both bought within their limits, a requote
  // filled as asked earns the edge of the limits less the loss projected for it, which the
  // gate keeps below its maximum, with the requote's fee given back.
  lemma RequoteKeepsEdge(cfg: MgrCfg, arb: ArbCfg, op0: Op, i: int, books: Books, isYes: bool, delta: nat, price: int,
                         now: nat, op: Op, act: Action, books': Books, later: nat)
    requires op0.arbId != 0 && op0.target > 0
    requires (op, act) == OnFill(cfg, arb, op0, i, books, isYes, delta, price, now) && act.kind == SubmitLeg
    requires Max(op.yesFilled, op.noFilled) == op.target && WithinLimits(op)
    ensures op.arbId != 0 && op.target > 0 && act.projectedLoss < cfg.maxLossPerTrade
    ensures var (op2, act2) := OnFill(cfg, arb, op, i, books', act.leg == 0, act.size, act.price, later);
      act2.kind == Complete && op2.target == op.target
      && act2.realizedPnl + CompletionFees(arb, op2)
           >= op.target as real - Dollars(op.target * (op.yesLimit + op.noLimit)) - act.projectedLoss
              + FeeUsd(Some(arb.fees), true, act.price, act.size)
  {
    SubmitIs(cfg, arb, op0, i, books, isYes, delta, price, now, op, act);
    RequoteFilled(cfg, arb, op, i, act, books', later);
  }

  // ------------------------------------------------------------------------- runs

  datatype MEvent =
    | OpenEv(o: Opportunity, yesOid: nat, now: nat)
    | FillEv(i: int, isYes: bool, delta: nat, price: int, now: nat, books: Books)
    | CancelEv(i: int, books: Books)
    | TickEv(now: nat, books: Books)

  // Opportunities have a size.
  ghost predicate WellFormed(e: MEvent) {
    e.OpenEv? && e.o.hasOpportunity ==> e.o.size > 0
  }

  // Fills have a quantity, and the clock has started.
  ghost predicate Genuine(e: MEvent) {
    e.FillEv? ==> 0 < e.delta && 0 < e.now
  }

  // The only states that any operation ever enters: nothing ever marks one hedged,
  // expired or failed.
  ghost predicate Entered(state: OpState) {
    state == Idle || state == LegAPending || state == LegAPartial || state == LegBPending
    || state == BothFilled || state == HedgeRequired || state == OpCancelled
  }

  ghost predicate OpInv(op: Op) {
    && Entered(op.state)
    && (op.arbId == 0 ==> (op.state == Idle || op.state == OpCancelled) && op.yesFilled == 0 == op.noFilled)
    && (op.arbId != 0 ==> op.target > 0 && op.state != Idle)
  }

  ghost predicate MInv(m: MState) {
    && |m.ops| == MAX_OPS && 0 < m.nextId
    && (forall i :: 0 <= i < |m.ops| ==> OpInv(m.ops[i]) && m.ops[i].arbId < m.nextId)
    && (forall i, j :: 0 <= i < j < |m.ops| && m.ops[i].arbId != 0 ==> m.ops[i].arbId != m.ops[j].arbId)
  }

  // The hedge clock runs since the first YES fill.
  ghost predicate Clocked(op: Op) {
    op.legAFillT > 0 <==> op.yesFilled > 0
  }

  ghost predicate AllClocked(m: MState) {
    forall i :: 0 <= i < |m.ops| ==> Clocked(m.ops[i])
  }

  ghost function MStep(cfg: MgrCfg, arb: ArbCfg, m: MState, e: MEvent): MState
    requires MInv(m) && WellFormed(e)
  {
    match e
    case OpenEv(o, yesOid, now) => Open(m, o, yesOid, now).0
    case FillEv(i, isYes, delta, price, now, books) =>
      m.(ops := FillAt(cfg, arb, m.ops, i, books, isYes, delta, price, now).0)
    case CancelEv(i, books) => m.(ops := CancelAt(m.ops, i, books).0)
    case TickEv(now, books) => m.(ops := Ticked(cfg, m.ops, books, now))
  }

  lemma FillKeepsOp(cfg: MgrCfg, arb: ArbCfg, op: Op, i: int, books: Books, isYes: bool, delta: nat,
                    price: int, now: nat)
    requires OpInv(op)
    ensures var op' := OnFill(cfg, arb, op, i, books, isYes, delta, price, now).0;
      OpInv(op') && op'.arbId == op.arbId
      && (Clocked(op) && 0 < delta && 0 < now ==> Clocked(op'))
  {
  }

  lemma OpenKeepsInv(m: MState, o: Opportunity, yesOid: nat, now: nat)
    requires MInv(m) && (o.hasOpportunity ==> o.size > 0)
    ensures MInv(Open(m, o, yesOid, now).0)
  {
  }

  // Replacing one operation by a sound one of the same id.
  lemma SlotKeepsInv(m: MState, i: nat, op: Op)
    requires MInv(m) && i < MAX_OPS && OpInv(op) && op.arbId == m.ops[i].arbId
    ensures MInv(m.(ops := m.ops[i := op]))
  {
  }

  lemma TickKeepsInv(cfg: MgrCfg, m: MState, books: Books, now: nat)
    requires MInv(m)
    ensures MInv(m.(ops := Ticked(cfg, m.ops, books, now)))
  {
    forall i | 0 <= i < MAX_OPS
      ensures OpInv(Ticked(cfg, m.ops, books, now)[i]) && Ticked(cfg, m.ops, books, now)[i].arbId == m.ops[i].arbId
    {
      assert Ticked(cfg, m.ops, books, now)[i] == OnTick(cfg, m.ops[i], i, books, now).0;
    }
  }

  lemma StepKeepsInv(cfg: MgrCfg, arb: ArbCfg, m: MState, e: MEvent)
    requires MInv(m) && WellFormed(e)
    ensures MInv(MStep(cfg, arb, m, e))
  {
    match e
    case OpenEv(o, yesOid, now) => OpenKeepsInv(m, o, yesOid, now);
    case FillEv(i, isYes, delta, price, now, books) =>
      if 0 <= i < MAX_OPS {
        FillKeepsOp(cfg, arb, m.ops[i], i, books, isYes, delta, price, now);
        SlotKeepsInv(m, i, OnFill(cfg, arb, m.ops[i], i, books, isYes, delta, price, now).0);
      }
    case CancelEv(i, books) =>
      if 0 <= i < MAX_OPS { SlotKeepsInv(m, i, OnCancel(m.ops[i], i, books).0); }
    case TickEv(now, books) => TickKeepsInv(cfg, m, books, now);
  }

  lemma StepKeepsClocks(cfg: MgrCfg, arb: ArbCfg, m: MState, e: MEvent)
    requires MInv(m) && WellFormed(e) && AllClocked(m) && Genuine(e)
    ensures AllClocked(MStep(cfg, arb, m, e))
  {
    match e
    case OpenEv(o, yesOid, now) =>
    case FillEv(i, isYes, delta, price, now, books) =>
      if 0 <= i < MAX_OPS { FillKeepsOp(cfg, arb, m.ops[i], i, books, isYes, delta, price, now); }
    case CancelEv(i, books) =>
    case TickEv(now, books) =>
  }

  function Start(): MState {
    MState(seq(MAX_OPS, _ => NO_OP), 1)
  }

  lemma StartIsSound()
    ensures MInv(Start()) && AllClocked(Start())
  {
  }

  // The table after any run of operations; every one it goes through is sound.
  ghost function RunOf(cfg: MgrCfg, arb: ArbCfg, m: MState, es: seq<MEvent>): (m': MState)
    requires MInv(m) && forall i :: 0 <= i < |es| ==> WellFormed(es[i])
    ensures MInv(m')
  {
    if es == [] then m
    else
      var m1 := RunOf(cfg, arb, m, es[..|es| - 1]);
      StepKeepsInv(cfg, arb, m1, es[|es| - 1]);
      MStep(cfg, arb, m1, es[|es| - 1])
  }

  lemma {:induction false} RunKeepsClocks(cfg: MgrCfg, arb: ArbCfg, m: MState, es: seq<MEvent>)
    requires MInv(m) && AllClocked(m) && forall i :: 0 <= i < |es| ==> WellFormed(es[i]) && Genuine(es[i])
    ensures AllClocked(RunOf(cfg, arb, m, es))
  {
    if es != [] {
      var n := |es| - 1;
      RunKeepsClocks(cfg, arb, m, es[..n]);
      StepKeepsClocks(cfg, arb, RunOf(cfg, arb, m, es[..n]), es[n]);
    }
  }

  // ---------------------------------------------------------------- slots and clocks

  // Opening never overwrites an operation that is still going, in any reachable table.
  lemma OpenTakesFinishedSlot(m: MState, o: Opportunity, yesOid: nat, now: nat)
    requires MInv(m)
    ensures var (m', slot) := Open(m, o, yesOid, now);
      (slot < 0 ==> m' == m && (o.hasOpportunity ==> forall i :: 0 <= i < MAX_OPS ==> !m.ops[i].Done()))
      && (slot >= 0 ==>
            (&& slot < MAX_OPS && m.ops[slot].Done() && m'.ops[slot].arbId == m.nextId
             && forall j :: 0 <= j < MAX_OPS && j != slot ==> m'.ops[j] == m.ops[j]))
  {
  }

  // The tick hedges an unbalanced operation exactly when it is unfinished, has had a
  // YES fill, and that fill is old enough: an operation that only NO has filled waits
  // for ever, because only YES fills start its clock.
  lemma TickHedgesWhen(cfg: MgrCfg, op: Op, i: nat, books: Books, now: nat)
    requires Clocked(op)
    ensures var acts := OnTick(cfg, op, i, books, now).1;
      (acts != [] <==> !op.Done() && Legs(op) != 0 && op.yesFilled > 0
                       && Elapsed(now, op.legAFillT) >= cfg.maxUnhedgedNs)
      && |acts| <= 1
      && (acts != [] ==> acts[0].kind == MarketHedge && acts[0].opIndex == i && FlattensExactly(op, acts[0], books))
  {
    OneLegLeads(op);
  }

  // Hedges of distinct slots, in order, each exact for its slot.
  ghost predicate OrderedHedges(ops: seq<Op>, acts: seq<Action>, books: Books) {
    && |acts| <= |ops|
    && (forall k :: 0 <= k < |acts| ==>
          0 <= acts[k].opIndex < |ops| && acts[k].kind == MarketHedge
          && FlattensExactly(ops[acts[k].opIndex], acts[k], books))
    && (forall k, l :: 0 <= k < l < |acts| ==> acts[k].opIndex < acts[l].opIndex)
  }

  lemma OneSlotsHedge(cfg: MgrCfg, op: Op, i: nat, books: Books, now: nat)
    ensures var acts := OnTick(cfg, op, i, books, now).1;
      |acts| <= 1
      && (acts != [] ==>
            acts[0].opIndex == i && acts[0].kind == MarketHedge && FlattensExactly(op, acts[0], books))
  {
    OneLegLeads(op);
  }

  lemma HedgesNext(ops: seq<Op>, acts: seq<Action>, op: Op, last: seq<Action>, books: Books)
    requires OrderedHedges(ops, acts, books) && |last| <= 1
    requires last != [] ==>
      last[0].opIndex == |ops| && last[0].kind == MarketHedge && FlattensExactly(op, last[0], books)
    ensures OrderedHedges(ops + [op], acts + last, books)
  {
  }

  // A tick asks for at most one hedge a slot, so 64 action slots are enough.
  lemma {:induction false} TickActionsFit(cfg: MgrCfg, ops: seq<Op>, books: Books, now: nat)
    ensures OrderedHedges(ops, TickActions(cfg, ops, books, now), books)
  {
    if ops != [] {
      var n := |ops| - 1;
      TickActionsFit(cfg, ops[..n], books, now);
      OneSlotsHedge(cfg, ops[n], n, books, now);
      HedgesNext(ops[..n], TickActions(cfg, ops[..n], books, now), ops[n], OnTick(cfg, ops[n], n, books, now).1, books);
      assert ops[..n] + [ops[n]] == ops;
    }
  }

  // ------------------------------------------------------------ unbalanced operations

  // Unfinished with one leg ahead.
  predicate Stuck(op: Op) {
    op.arbId != 0 && !op.Done() && op.yesFilled != op.noFilled
  }

  // The same operation with the same fills, stuck still.
  ghost predicate StillStuck(op: Op, op': Op) {
    Stuck(op') && op'.arbId == op.arbId && op'.target == op.target && op'.legAFillT == op.legAFillT
    && op'.yesFilled == op.yesFilled && op'.noFilled == op.noFilled
    && op'.yesNotional == op.yesNotional && op'.noNotional == op.noNotional
  }

  ghost predicate NoFillOf(es: seq<MEvent>, i: nat) {
    forall k :: 0 <= k < |es| && es[k].FillEv? ==> es[k].i != i
  }

  lemma StuckStep(cfg: MgrCfg, arb: ArbCfg, m: MState, e: MEvent, i: nat)
    requires MInv(m) && WellFormed(e) && i < MAX_OPS && Stuck(m.ops[i])
    requires e.FillEv? ==> e.i != i
    ensures |MStep(cfg, arb, m, e).ops| == MAX_OPS && StillStuck(m.ops[i], MStep(cfg, arb, m, e).ops[i])
  {
  }

  // Only its own fills free an unbalanced operation: through any opens, cancels, ticks and
  // fills of others it keeps its slot, its fills and its clock.
  lemma {:induction false} StuckStays(cfg: MgrCfg, arb: ArbCfg, m: MState, es: seq<MEvent>, i: nat)
    requires MInv(m) && (forall k :: 0 <= k < |es| ==> WellFormed(es[k]))
    requires i < MAX_OPS && Stuck(m.ops[i]) && NoFillOf(es, i)
    ensures StillStuck(m.ops[i], RunOf(cfg, arb, m, es).ops[i])
  {
    if es != [] {
      var n := |es| - 1;
      StuckStays(cfg, arb, m, es[..n], i);
      StuckStep(cfg, arb, RunOf(cfg, arb, m, es[..n]), es[n], i);
    }
  }

  lemma StuckHedge(cfg: MgrCfg, op: Op, op': Op, i: nat, books: Books, now: nat)
    requires Stuck(op) && StillStuck(op, op')
    ensures OnTick(cfg, op', i, books, now).1
         == if op.legAFillT > 0 && Elapsed(now, op.legAFillT) >= cfg.maxUnhedgedNs then [Hedge(op, i, books)] else []
    ensures FlattensExactly(op, Hedge(op, i, books), books)
  {
    OneLegLeads(op);
  }

  // So after any such run a tick asks for its hedge, of the same size on the same leg,
  // whenever the first YES fill is old enough, however often it did before.
  lemma HedgeIsReemitted(cfg: MgrCfg, arb: ArbCfg, m: MState, es: seq<MEvent>, i: nat, books: Books, now: nat)
    requires MInv(m) && (forall k :: 0 <= k < |es| ==> WellFormed(es[k]))
    requires i < MAX_OPS && Stuck(m.ops[i]) && NoFillOf(es, i)
    ensures var op, acts := m.ops[i], OnTick(cfg, RunOf(cfg, arb, m, es).ops[i], i, books, now).1;
      acts == if op.legAFillT > 0 && Elapsed(now, op.legAFillT) >= cfg.maxUnhedgedNs then [Hedge(op, i, books)] else []
    ensures FlattensExactly(m.ops[i], Hedge(m.ops[i], i, books), books)
  {
    StuckStays(cfg, arb, m, es, i);
    StuckHedge(cfg, m.ops[i], RunOf(cfg, arb, m, es).ops[i], i, books, now);
  }

  // A pair of books at 0.4 and 0.5 and its opportunity, with room to requote.
  ghost predicate Plain(cfg: MgrCfg, arb: ArbCfg, o: Opportunity, books: Books) {
    && cfg.allowRequote && cfg.maxLossPerTrade == 10.0 && arb == NO_ARB
    && o.hasOpportunity && o.size == 10 && o.avgYes == 400 && o.avgNo == 500
    && books == Books(Some(Flat(400, 10)), Some(Flat(500, 10)))
  }

  lemma PlainIsWorthIt(arb: ArbCfg, op: Op, books: Books)
    requires arb == NO_ARB && op.target == 10 && books == Books(Some(Flat(400, 10)), Some(Flat(500, 10)))
    ensures NetNow(arb, op, books) > 0.0
  {
    FlatVwap(400, 10, 10);
    FlatVwap(500, 10, 10);
  }

  // Filled on NO alone the operation is answered with a submit, and then no tick ever asks
  // for its hedge, at any clock, whatever happens short of its own fills.
  lemma HedgeCanWaitForever(cfg: MgrCfg, arb: ArbCfg, o: Opportunity, oid: nat, books: Books) returns (m: MState)
    requires Plain(cfg, arb, o, books)
    ensures var m1 := Open(Start(), o, oid, 1).0;
      var (ops, act) := FillAt(cfg, arb, m1.ops, 0, books, false, 10, 500, 2);
      act.kind == SubmitLeg && m == m1.(ops := ops) && MInv(m) && Stuck(m.ops[0])
    ensures forall es: seq<MEvent>, seen: Books, now: nat ::
      (forall k :: 0 <= k < |es| ==> WellFormed(es[k])) && NoFillOf(es, 0)
      ==> OnTick(cfg, RunOf(cfg, arb, m, es).ops[0], 0, seen, now).1 == []
  {
    StartIsSound();
    FirstFreeIs(Start().ops, 0);
    var m1 := Open(Start(), o, oid, 1).0;
    OpenKeepsInv(Start(), o, oid, 1);
    var op := Booked(m1.ops[0], false, 10, 500, 2);
    PlainIsWorthIt(arb, op, books);
    assert CurAsk(books.yes) == 400 && LagLoss(arb, 10, 400, 400) == 0.0;
    m := m1.(ops := FillAt(cfg, arb, m1.ops, 0, books, false, 10, 500, 2).0);
    StepKeepsInv(cfg, arb, m1, FillEv(0, false, 10, 500, 2, books));
    forall es: seq<MEvent>, seen: Books, now: nat |
      (forall k :: 0 <= k < |es| ==> WellFormed(es[k])) && NoFillOf(es, 0)
      ensures OnTick(cfg, RunOf(cfg, arb, m, es).ops[0], 0, seen, now).1 == []
    {
      HedgeIsReemitted(cfg, arb, m, es, 0, seen, now);
    }
  }

  // ------------------------------------------------------------ overfilled operations

  // Complete, with whatever its legs have past the target.
  predicate Finished(op: Op) {
    op.arbId != 0 && op.target > 0 && op.state == BothFilled && Reached(op)
  }

  ghost predicate NoCancelOf(es: seq<MEvent>, i: nat) {
    forall k :: 0 <= k < |es| && es[k].CancelEv? ==> es[k].i != i
  }

  // The same operation, still complete, or a later one in its slot.
  ghost predicate FinishedOrGone(m: MState, i: nat, op: Op)
    requires i < |m.ops|
  {
    if op.arbId == m.ops[i].arbId then Finished(op) else m.nextId <= op.arbId
  }

  lemma FinishedStep(cfg: MgrCfg, arb: ArbCfg, m: MState, m1: MState, e: MEvent, i: nat)
    requires MInv(m) && MInv(m1) && WellFormed(e) && i < MAX_OPS && m.nextId <= m1.nextId
    requires Finished(m.ops[i]) && FinishedOrGone(m, i, m1.ops[i]) && (e.CancelEv? ==> e.i != i)
    ensures var m2 := MStep(cfg, arb, m1, e); m.nextId <= m2.nextId && FinishedOrGone(m, i, m2.ops[i])
  {
  }

  lemma {:induction false} FinishedStays(cfg: MgrCfg, arb: ArbCfg, m: MState, es: seq<MEvent>, i: nat)
    requires MInv(m) && (forall k :: 0 <= k < |es| ==> WellFormed(es[k]))
    requires i < MAX_OPS && Finished(m.ops[i]) && NoCancelOf(es, i)
    ensures m.nextId <= RunOf(cfg, arb, m, es).nextId && FinishedOrGone(m, i, RunOf(cfg, arb, m, es).ops[i])
  {
    if es != [] {
      var n := |es| - 1;
      FinishedStays(cfg, arb, m, es[..n], i);
      FinishedStep(cfg, arb, m, RunOf(cfg, arb, m, es[..n]), es[n], i);
    }
  }

  // Shares past the target are never hedged but at a cancel: until one is reported, every
  // answer to a further fill is that the operation is complete, and no tick asks for
  // anything, however far its legs are apart and for as long as its slot is its own.
  lemma OverfillIsNotHedged(cfg: MgrCfg, arb: ArbCfg, m: MState, es: seq<MEvent>, i: nat, books: Books, now: nat)
    requires MInv(m) && (forall k :: 0 <= k < |es| ==> WellFormed(es[k]))
    requires i < MAX_OPS && Finished(m.ops[i]) && NoCancelOf(es, i)
    requires RunOf(cfg, arb, m, es).ops[i].arbId == m.ops[i].arbId
    ensures var op := RunOf(cfg, arb, m, es).ops[i];
      OnTick(cfg, op, i, books, now).1 == []
      && (forall isYes: bool, delta: nat, price: int ::
            OnFill(cfg, arb, op, i, books, isYes, delta, price, now).1.kind == Complete)
      && (OnCancel(op, i, books).1.kind == MarketHedge <==> Legs(op) != 0)
  {
    FinishedStays(cfg, arb, m, es, i);
  }

  // Nothing marks a hedge as done, so 64 unbalanced operations close the table: without
  // further fills no opportunity can be opened, whatever else happens.
  lemma StuckTableRefuses(cfg: MgrCfg, arb: ArbCfg, m: MState, es: seq<MEvent>, o: Opportunity, yesOid: nat, now: nat)
    requires MInv(m) && (forall k :: 0 <= k < |es| ==> WellFormed(es[k]) && !es[k].FillEv?)
    requires forall i :: 0 <= i < MAX_OPS ==> Stuck(m.ops[i])
    ensures Open(RunOf(cfg, arb, m, es), o, yesOid, now) == (RunOf(cfg, arb, m, es), -1)
  {
    var m' := RunOf(cfg, arb, m, es);
    forall i | 0 <= i < MAX_OPS ensures Stuck(m'.ops[i]) {
      StuckStays(cfg, arb, m, es, i);
    }
    OpenTakesFinishedSlot(m', o, yesOid, now);
  }
}
