// pt_portfolio: cash, cost bases, exposure and PnL of up to 128 positions, updated
// by fills, marks and binary settlements. Dollars are exact reals; cost bases are
// integers in thousandths, so a partial sale rounds.

module Portfolio {
  import opened Arith
  import opened Types

  const MAX_POSITIONS: nat := 128

  datatype Position = Position(
    marketId: nat, isYes: bool, strategy: int, signalId: nat, shares: nat, cost: int,
    bid: int, unrealized: real, realized: real, settled: bool)

  datatype PState = PState(
    initialCash: real, cash: real, realized: real, unrealized: real, exposure: real,
    trades: nat, wins: nat, losses: nat, positions: seq<Position>)

  datatype Fill = Fill(
    marketId: nat, isYes: bool, side: int, shares: nat, price: int, strategy: int, signalId: nat)

  datatype Event =
    | FillEvent(fill: Fill)
    | MarkEvent(marketId: nat, isYes: bool, bid: int)
    | SettleEvent(marketId: nat, winnerIsYes: bool)

  // -------------------------------------------------------------- finding a position

  predicate Matches(p: Position, f: Fill) {
    p.marketId == f.marketId && p.isYes == f.isYes && p.strategy == f.strategy && !p.settled
    && (f.signalId == 0 || p.signalId == 0 || p.signalId == f.signalId)
  }

  function FirstMatch(ps: seq<Position>, f: Fill): (i: nat)
    ensures i <= |ps|
    ensures forall j :: 0 <= j < i ==> !Matches(ps[j], f)
    ensures i < |ps| ==> Matches(ps[i], f)
  {
    if ps == [] || Matches(ps[0], f) then 0 else 1 + FirstMatch(ps[1..], f)
  }

  function Opened(f: Fill): Position {
    Position(f.marketId, f.isYes, f.strategy, f.signalId, 0, 0, 0, 0.0, 0.0, false)
  }

  // The fill finds neither its position nor room for a new one: it is lost.
  predicate Drops(st: PState, f: Fill) {
    FirstMatch(st.positions, f) == |st.positions| >= MAX_POSITIONS
  }

  // The table with the fill's position in it.
  function WithPosition(ps: seq<Position>, f: Fill): (ps': seq<Position>)
    ensures FirstMatch(ps, f) < |ps'|
  {
    if FirstMatch(ps, f) < |ps| then ps else ps + [Opened(f)]
  }

  // ------------------------------------------------------------------------- a fill

  function AvgCost(p: Position): real
    requires p.shares > 0
  {
    p.cost as real / p.shares as real / 1000.0
  }

  // Basis that leaves with the shares closed.
  function CostRemoved(p: Position, closed: nat): int
    requires p.shares > 0
  {
    Truncated(p.cost * closed, p.shares)
  }

  // Exposure that leaves with them.
  function ExposureRemoved(p: Position, closed: nat): real
    requires p.shares > 0
  {
    AvgCost(p) * closed as real
  }

  function SalePnl(p: Position, price: int, closed: nat): real
    requires p.shares > 0
  {
    (Dollars(price) - AvgCost(p)) * closed as real
  }

  function FillUsd(f: Fill): real {
    f.shares as real * f.price as real / 1000.0
  }

  function Attributed(p: Position, f: Fill): Position {
    if f.signalId > 0 && p.signalId == 0 then p.(signalId := f.signalId) else p
  }

  function Bought(st: PState, p: Position, f: Fill): (PState, Position) {
    var cost := FillUsd(f);
    (st.(cash := st.cash - cost, exposure := st.exposure + cost),
     p.(shares := p.shares + f.shares, cost := p.cost + f.shares * f.price, strategy := f.strategy))
  }

  function Sold(st: PState, p: Position, f: Fill): (PState, Position) {
    var st1 := st.(cash := st.cash + FillUsd(f));
    if p.shares == 0 then (st1, p)
    else
      var closed := Min(f.shares, p.shares);
      var pnl := SalePnl(p, f.price, closed);
      var exposure := st.exposure - ExposureRemoved(p, closed);
      (st1.(realized := st.realized + pnl, trades := st.trades + 1,
            wins := st.wins + (if pnl > 0.0 then 1 else 0),
            losses := st.losses + (if pnl < 0.0 then 1 else 0),
            exposure := if exposure < 0.0 then 0.0 else exposure),
       p.(realized := p.realized + pnl, cost := p.cost - CostRemoved(p, closed),
          shares := p.shares - closed))
  }

  function FillAt(st: PState, i: nat, f: Fill): PState
    requires i < |st.positions|
  {
    var p := Attributed(st.positions[i], f);
    var (st', p') := if f.side == BID then Bought(st, p, f) else Sold(st, p, f);
    st'.(positions := st.positions[i := p'])
  }

  function OnFill(st: PState, f: Fill): PState {
    if f.shares == 0 || Drops(st, f) then st
    else FillAt(st.(positions := WithPosition(st.positions, f)), FirstMatch(st.positions, f), f)
  }

  // ------------------------------------------------------------------------- a mark

  function UnrealizedOf(p: Position): real {
    if p.shares > 0 then (Dollars(p.bid) - AvgCost(p)) * p.shares as real else 0.0
  }

  function Marked(p: Position, marketId: nat, isYes: bool, bid: int): Position {
    var q := if p.marketId == marketId && p.isYes == isYes then p.(bid := bid) else p;
    q.(unrealized := UnrealizedOf(q))
  }

  function MarkedAll(ps: seq<Position>, marketId: nat, isYes: bool, bid: int): (ms: seq<Position>)
    ensures |ms| == |ps|
    ensures forall i :: 0 <= i < |ps| ==> ms[i] == Marked(ps[i], marketId, isYes, bid)
  {
    seq(|ps|, i requires 0 <= i < |ps| => Marked(ps[i], marketId, isYes, bid))
  }

  function SumUnrealized(ps: seq<Position>): real {
    if ps == [] then 0.0 else SumUnrealized(ps[..|ps| - 1]) + ps[|ps| - 1].unrealized
  }

  function Mark(st: PState, marketId: nat, isYes: bool, bid: int): PState {
    var ms := MarkedAll(st.positions, marketId, isYes, bid);
    st.(positions := ms, unrealized := SumUnrealized(ms))
  }

  function Equity(st: PState): real {
    st.cash + st.exposure + st.unrealized
  }

  // ------------------------------------------------------------------ a settlement

  predicate Settles(p: Position, marketId: nat) {
    p.marketId == marketId && p.shares > 0 && !p.settled
  }

  function Payoff(p: Position, winnerIsYes: bool): real {
    if p.isYes == winnerIsYes then p.shares as real else 0.0
  }

  function SettledAt(st: PState, i: nat, marketId: nat, winnerIsYes: bool): PState
    requires i < |st.positions|
  {
    var p := st.positions[i];
    if !Settles(p, marketId) then st
    else
      var cost, payoff := Dollars(p.cost), Payoff(p, winnerIsYes);
      var pnl := payoff - cost;
      var exposure := st.exposure - cost;
      st.(cash := st.cash + payoff, exposure := if exposure < 0.0 then 0.0 else exposure,
          realized := st.realized + pnl, trades := st.trades + 1,
          wins := st.wins + (if pnl >= 0.0 then 1 else 0),
          losses := st.losses + (if pnl >= 0.0 then 0 else 1),
          positions := st.positions[i := p.(shares := 0, cost := 0, unrealized := 0.0,
                                            realized := p.realized + pnl, settled := true)])
  }

  function SettleFrom(st: PState, i: nat, marketId: nat, winnerIsYes: bool): PState
    requires i <= |st.positions|
    decreases |st.positions| - i
  {
    if i == |st.positions| then st
    else SettleFrom(SettledAt(st, i, marketId, winnerIsYes), i + 1, marketId, winnerIsYes)
  }

  function Settle(st: PState, marketId: nat, winnerIsYes: bool): PState {
    SettleFrom(st, 0, marketId, winnerIsYes)
  }

  // -------------------------------------------------------------------------- runs

  function Step(st: PState, e: Event): PState {
    match e
    case FillEvent(f) => OnFill(st, f)
    case MarkEvent(m, isYes, bid) => Mark(st, m, isYes, bid)
    case SettleEvent(m, winnerIsYes) => Settle(st, m, winnerIsYes)
  }

  function Run(st: PState, es: seq<Event>): PState {
    if es == [] then st else Step(Run(st, es[..|es| - 1]), es[|es| - 1])
  }

  function Init(cash: real): PState {
    PState(cash, cash, 0.0, 0.0, 0.0, 0, 0, 0, [])
  }

  // ---------------------------------------------------------------- the class itself

  class PortfolioBook {
    var initialCash: real
    var cash: real
    var realizedPnl: real
    var unrealizedPnl: real
    var totalExposure: real
    var tradesCount: nat
    var winsCount: nat
    var lossesCount: nat
    var positionCount: nat
    const positions: array<Position>

    ghost predicate Valid()
      reads this
    {
      positions.Length == MAX_POSITIONS && positionCount <= MAX_POSITIONS
    }

    ghost function State(): PState
      requires Valid()
      reads this, positions
    {
      PState(initialCash, cash, realizedPnl, unrealizedPnl, totalExposure, tradesCount,
             winsCount, lossesCount, positions[..positionCount])
    }

    constructor (initial: real)
      ensures Valid() && State() == Init(initial) && fresh(positions)
    {
      initialCash, cash := initial, initial;
      realizedPnl, unrealizedPnl, totalExposure := 0.0, 0.0, 0.0;
      tradesCount, winsCount, lossesCount, positionCount := 0, 0, 0, 0;
      positions := new Position[MAX_POSITIONS](_ => Position(0, false, 0, 0, 0, 0, 0, 0.0, 0.0, false));
    }

    // The index of the fill's position, opened if need be; None when the table is full.
    method FindPosition(f: Fill) returns (at: Option<nat>)
      requires Valid()
      modifies this`positionCount, positions
      ensures Valid()
      ensures at == if old(Drops(State(), f)) then None else Some(old(FirstMatch(State().positions, f)))
      ensures State() == old(if Drops(State(), f) then State()
                             else State().(positions := WithPosition(State().positions, f)))
    {
      ghost var ps := State().positions;
      var i := 0;
      while i < positionCount
        invariant 0 <= i <= positionCount
        invariant forall j :: 0 <= j < i ==> !Matches(positions[j], f)
      {
        if Matches(positions[i], f) {
          FirstMatchIs(ps, f, i);
          return Some(i);
        }
        i := i + 1;
      }
      FirstMatchIs(ps, f, i);
      if positionCount < MAX_POSITIONS {
        positions[positionCount] := Opened(f);
        positionCount := positionCount + 1;
        assert positions[..positionCount] == ps + [Opened(f)];
        return Some(i);
      }
      return None;
    }

    method Buy(i: nat, f: Fill)
      requires Valid() && i < positionCount
      modifies this, positions
      ensures Valid()
      ensures var (st, p) := Bought(old(State()), old(positions[i]), f);
        State() == st.(positions := old(State()).positions[i := p])
    {
      var cost := FillUsd(f);
      var p := positions[i];
      cash := cash - cost;
      positions[i] := p.(shares := p.shares + f.shares, cost := p.cost + f.shares * f.price,
                         strategy := f.strategy);
      totalExposure := totalExposure + cost;
    }

    method Sell(i: nat, f: Fill)
      requires Valid() && i < positionCount
      modifies this, positions
      ensures Valid()
      ensures var (st, p) := Sold(old(State()), old(positions[i]), f);
        State() == st.(positions := old(State()).positions[i := p])
    {
      var cost := FillUsd(f);
      var p := positions[i];
      cash := cash + cost;
      if p.shares > 0 {
        var closed := if f.shares <= p.shares then f.shares else p.shares;
        var pnl := SalePnl(p, f.price, closed);
        Tally(pnl);
        ReduceExposure(ExposureRemoved(p, closed));
        positions[i] := p.(realized := p.realized + pnl,
                           cost := p.cost - CostRemoved(p, closed),
                           shares := p.shares - closed);
      }
    }

    // A closed trade and what it realized.
    method Tally(pnl: real)
      requires Valid()
      modifies this
      ensures Valid()
      ensures var st := old(State());
        State() == st.(realized := st.realized + pnl, trades := st.trades + 1,
                       wins := st.wins + (if pnl > 0.0 then 1 else 0),
                       losses := st.losses + (if pnl < 0.0 then 1 else 0))
    {
      realizedPnl := realizedPnl + pnl;
      tradesCount := tradesCount + 1;
      if pnl > 0.0 { winsCount := winsCount + 1; } else if pnl < 0.0 { lossesCount := lossesCount + 1; }
    }

    method ReduceExposure(removed: real)
      requires Valid()
      modifies this
      ensures Valid()
      ensures var st := old(State());
        State() == st.(exposure := if st.exposure - removed < 0.0 then 0.0 else st.exposure - removed)
    {
      totalExposure := totalExposure - removed;
      if totalExposure < 0.0 { totalExposure := 0.0; }
    }

    method Trade(i: nat, f: Fill)
      requires Valid() && i < positionCount
      modifies this, positions
      ensures Valid() && State() == FillAt(old(State()), i, f)
    {
      if f.signalId > 0 && positions[i].signalId == 0 {
        positions[i] := positions[i].(signalId := f.signalId);
      }
      if f.side == BID {
        Buy(i, f);
      } else {
        Sell(i, f);
      }
    }

    method RecordFill(f: Fill)
      requires Valid()
      modifies this, positions
      ensures Valid() && State() == OnFill(old(State()), f)
    {
      if f.shares == 0 { return; }
      var at := FindPosition(f);
      if at == None { return; }
      Trade(at.value, f);
    }

    method MarkSlot(i: nat, marketId: nat, isYes: bool, bid: int) returns (unrealized: real)
      requires Valid() && i < positionCount
      modifies positions
      ensures positions[i] == Marked(old(positions[i]), marketId, isYes, bid) && unrealized == positions[i].unrealized
      ensures forall j :: 0 <= j < positions.Length && j != i ==> positions[j] == old(positions[j])
    {
      var p := positions[i];
      if p.marketId == marketId && p.isYes == isYes { p := p.(bid := bid); }
      unrealized := if p.shares > 0 then (Dollars(p.bid) - AvgCost(p)) * p.shares as real else 0.0;
      positions[i] := p.(unrealized := unrealized);
    }

    method MarkBid(marketId: nat, isYes: bool, bid: int)
      requires Valid()
      modifies this, positions
      ensures Valid() && State() == Mark(old(State()), marketId, isYes, bid)
    {
      var sum := 0.0;
      ghost var ps := State().positions;
      ghost var ms := MarkedAll(ps, marketId, isYes, bid);
      var i := 0;
      while i < positionCount
        invariant 0 <= i <= positionCount
        invariant forall j :: 0 <= j < i ==> positions[j] == ms[j]
        invariant forall j :: i <= j < positionCount ==> positions[j] == ps[j]
        invariant sum == SumUnrealized(ms[..i])
        modifies positions
      {
        var unrealized := MarkSlot(i, marketId, isYes, bid);
        sum := sum + unrealized;
        assert ms[..i + 1] == ms[..i] + [ms[i]];
        i := i + 1;
      }
      assert ms[..i] == ms && State().positions == ms;
      unrealizedPnl := sum;
    }

    method SettleOne(i: nat, marketId: nat, winnerIsYes: bool)
      requires Valid() && i < positionCount
      modifies this, positions
      ensures Valid() && State() == SettledAt(old(State()), i, marketId, winnerIsYes)
    {
      var p := positions[i];
      if p.marketId == marketId && p.shares > 0 && !p.settled {
        var cost := Dollars(p.cost);
        var payoff := if p.isYes == winnerIsYes then p.shares as real else 0.0;
        var pnl := payoff - cost;
        cash := cash + payoff;
        totalExposure := totalExposure - cost;
        if totalExposure < 0.0 { totalExposure := 0.0; }
        realizedPnl := realizedPnl + pnl;
        tradesCount := tradesCount + 1;
        if pnl >= 0.0 { winsCount := winsCount + 1; } else { lossesCount := lossesCount + 1; }
        positions[i] := p.(shares := 0, cost := 0, unrealized := 0.0,
                           realized := p.realized + pnl, settled := true);
      }
    }

    method SettleMarket(marketId: nat, winnerIsYes: bool)
      requires Valid()
      modifies this, positions
      ensures Valid() && State() == Settle(old(State()), marketId, winnerIsYes)
    {
      ghost var goal := Settle(State(), marketId, winnerIsYes);
      var i := 0;
      while i < positionCount
        invariant Valid() && i <= positionCount
        invariant SettleFrom(State(), i, marketId, winnerIsYes) == goal
        decreases |State().positions| - i
      {
        SettleOne(i, marketId, winnerIsYes);
        i := i + 1;
      }
    }
  }

  lemma FirstMatchIs(ps: seq<Position>, f: Fill, i: nat)
    requires i <= |ps|
    requires forall j :: 0 <= j < i ==> !Matches(ps[j], f)
    requires i < |ps| ==> Matches(ps[i], f)
    ensures i == FirstMatch(ps, f)
  {
  }
}
