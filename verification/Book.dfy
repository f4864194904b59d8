// pt_book: two sides of price levels kept in sorted arrays, updated in place.
// Each side refines a finite map from price to size.

module OrderBook {
  import opened Types
  import opened Walk

  const MAX_LEVELS: nat := 64

  ghost predicate DistinctPrices(s: seq<Level>) {
    forall i, j :: 0 <= i < j < |s| ==> s[i].price != s[j].price
  }

  // What every side satisfies in every reachable book.
  ghost predicate SideInv(s: seq<Level>) {
    |s| <= MAX_LEVELS && Ascending(s) && PositiveSizes(s) && PricesAtLeast(s, 0)
  }

  ghost function MapOf(s: seq<Level>): map<int, nat>
    requires DistinctPrices(s)
  {
    map l | l in s :: l.price := l.size
  }

  function Reversed(s: seq<Level>): (r: seq<Level>)
    ensures |r| == |s|
    ensures forall i :: 0 <= i < |s| ==> r[i] == s[|s| - 1 - i]
  {
    seq(|s|, i requires 0 <= i < |s| => s[|s| - 1 - i])
  }

  // The two sides and the last sequence number, as values.
  datatype BookState = BookState(bids: seq<Level>, asks: seq<Level>, seqNo: nat) {
    // Any side other than the bid is the ask side, as in the queries of the code.
    function Side(side: int): seq<Level> {
      if side == BID then bids else asks
    }

    function WithSide(side: int, s: seq<Level>): BookState {
      if side == BID then this.(bids := s) else this.(asks := s)
    }

    function Touch(n: nat): BookState {
      this.(seqNo := Max(seqNo, n))
    }

    // The levels of a side in the order the walk meets them: best first on the two named
    // sides; any other value selects the asks and walks them from the highest price down.
    function WalkOrder(side: int): seq<Level> {
      if side == BID then Reversed(bids) else if side == ASK then asks else Reversed(asks)
    }

    function BestBid(): Option<Level> {
      if bids == [] then None else Some(bids[|bids| - 1])
    }

    function BestAsk(): Option<Level> {
      if asks == [] then None else Some(asks[0])
    }

    ghost predicate Inv() {
      SideInv(bids) && SideInv(asks)
    }

    ghost predicate Strict() {
      Inv() && DistinctPrices(bids) && DistinctPrices(asks)
    }
  }

  // ------------------------------------------------------------ one side, as values

  // Number of leading levels below a price: where it is, or belongs.
  function LowerBound(s: seq<Level>, price: int): (i: nat)
    ensures i <= |s|
    ensures forall j :: 0 <= j < i ==> s[j].price < price
    ensures i < |s| ==> price <= s[i].price
  {
    if s == [] || price <= s[0].price then 0 else 1 + LowerBound(s[1..], price)
  }

  lemma LowerBoundIs(s: seq<Level>, price: int, i: nat)
    requires i <= |s|
    requires forall j :: 0 <= j < i ==> s[j].price < price
    requires i < |s| ==> price <= s[i].price
    ensures i == LowerBound(s, price)
  {
  }

  // One level update, knowing where its price belongs.
  function ApplyAt(s: seq<Level>, i: nat, price: int, amount: int, isDelta: bool): (seq<Level>, int)
    requires i <= |s|
  {
    if i < |s| && s[i].price == price then
      var next := if isDelta then s[i].size + amount else amount;
      if next <= 0 then (s[..i] + s[i + 1..], 0) else (s[i := Level(price, next)], 0)
    else if amount <= 0 then (s, 0)
    else if |s| >= MAX_LEVELS then (s, -1)
    else (s[..i] + [Level(price, amount)] + s[i..], 0)
  }

  function Apply(s: seq<Level>, price: int, amount: int, isDelta: bool): (seq<Level>, int) {
    ApplyAt(s, LowerBound(s, price), price, amount, isDelta)
  }

  // The same update on a price -> size map that may hold MAX_LEVELS prices.
  function MapApply(m: map<int, nat>, price: int, amount: int, isDelta: bool): (map<int, nat>, int) {
    var next := amount + (if isDelta && price in m then m[price] else 0);
    if price in m then (if next <= 0 then m - {price} else m[price := next], 0)
    else if amount <= 0 then (m, 0)
    else if |m| >= MAX_LEVELS then (m, -1)
    else (m[price := amount], 0)
  }

  lemma AppendedLevel(init: seq<Level>, last: Level)
    requires DistinctPrices(init + [last])
    ensures DistinctPrices(init) && last.price !in MapOf(init)
    ensures MapOf(init + [last]) == MapOf(init)[last.price := last.size]
  {
    var s := init + [last];
    assert s[..|init|] == init && s[|init|] == last;
    assert forall i, j :: 0 <= i < j < |init| ==> init[i] == s[i] && init[j] == s[j];
    InsertedLevel(init, |init|, last);
    assert init[..|init|] + [last] + init[|init|..] == s;
  }

  lemma {:induction false} MapSize(s: seq<Level>)
    requires DistinctPrices(s)
    ensures |MapOf(s)| == |s|
  {
    if s == [] {
      assert MapOf(s) == map[];
    } else {
      var init, last := s[..|s| - 1], s[|s| - 1];
      assert s == init + [last];
      AppendedLevel(init, last);
      MapSize(init);
    }
  }

  lemma RemovalKeepsSide(s: seq<Level>, i: nat)
    requires SideInv(s) && i < |s|
    ensures SideInv(s[..i] + s[i + 1..])
  {
    var s' := s[..i] + s[i + 1..];
    assert forall j :: 0 <= j < |s'| ==> s'[j] == s[if j < i then j else j + 1];
  }

  lemma ResizeKeepsSide(s: seq<Level>, i: nat, size: nat)
    requires SideInv(s) && i < |s| && 0 < size
    ensures SideInv(s[i := Level(s[i].price, size)])
  {
  }

  lemma InsertionKeepsSide(s: seq<Level>, i: nat, l: Level)
    requires SideInv(s) && i <= |s| < MAX_LEVELS && 0 < l.size && 0 <= l.price
    requires forall j :: 0 <= j < i ==> s[j].price <= l.price
    requires i < |s| ==> l.price <= s[i].price
    ensures SideInv(s[..i] + [l] + s[i..])
  {
    var s' := s[..i] + [l] + s[i..];
    assert forall j :: 0 <= j < |s'| ==> s'[j] == if j < i then s[j] else if j == i then l else s[j - 1];
  }

  lemma ApplyKeepsSide(s: seq<Level>, price: int, amount: int, isDelta: bool)
    requires SideInv(s) && 0 <= price
    ensures SideInv(Apply(s, price, amount, isDelta).0)
  {
    var i := LowerBound(s, price);
    if i < |s| && s[i].price == price {
      var next := if isDelta then s[i].size + amount else amount;
      if next <= 0 { RemovalKeepsSide(s, i); } else { ResizeKeepsSide(s, i, next); }
    } else if 0 < amount && |s| < MAX_LEVELS {
      InsertionKeepsSide(s, i, Level(price, amount));
    }
  }

  lemma AbsentPrice(s: seq<Level>, price: int)
    requires Ascending(s)
    requires LowerBound(s, price) < |s| ==> s[LowerBound(s, price)].price != price
    ensures forall j :: 0 <= j < |s| ==> s[j].price != price
  {
    var i := LowerBound(s, price);
    forall j | i <= j < |s| ensures s[j].price != price {
      assert s[i].price <= s[j].price;
    }
  }

  lemma LowerBoundFinds(s: seq<Level>, price: int)
    requires Ascending(s) && DistinctPrices(s)
    ensures var i := LowerBound(s, price);
      (price in MapOf(s) <==> i < |s| && s[i].price == price)
      && (price in MapOf(s) ==> MapOf(s)[price] == s[i].size)
  {
    var i := LowerBound(s, price);
    if i < |s| && s[i].price == price {
      PriceIsMapped(s, i);
    } else {
      AbsentPrice(s, price);
    }
  }

  lemma PriceIsMapped(s: seq<Level>, i: nat)
    requires DistinctPrices(s) && i < |s|
    ensures s[i].price in MapOf(s) && MapOf(s)[s[i].price] == s[i].size
  {
    assert s[i] in s;
  }

  lemma ApplyAtLevel(s: seq<Level>, i: nat, amount: int, isDelta: bool)
    requires DistinctPrices(s) && i < |s|
    ensures var (s', rc) := ApplyAt(s, i, s[i].price, amount, isDelta);
      DistinctPrices(s') && (MapOf(s'), rc) == MapApply(MapOf(s), s[i].price, amount, isDelta)
  {
    PriceIsMapped(s, i);
    var next := if isDelta then s[i].size + amount else amount;
    if next <= 0 {
      RemovedLevel(s, i);
    } else {
      ReplacedLevel(s, i, next);
    }
  }

  lemma ApplyBetweenLevels(s: seq<Level>, i: nat, price: int, amount: int, isDelta: bool)
    requires DistinctPrices(s) && i <= |s|
    requires forall j :: 0 <= j < |s| ==> s[j].price != price
    ensures var (s', rc) := ApplyAt(s, i, price, amount, isDelta);
      DistinctPrices(s') && (MapOf(s'), rc) == MapApply(MapOf(s), price, amount, isDelta)
  {
    MapSize(s);
    if 0 < amount && |s| < MAX_LEVELS {
      InsertedLevel(s, i, Level(price, amount));
    }
  }

  // An update of the sorted array is the update of the map, result code included.
  lemma ApplyRefinesMap(s: seq<Level>, price: int, amount: int, isDelta: bool)
    requires Ascending(s) && DistinctPrices(s)
    ensures var (s', rc) := Apply(s, price, amount, isDelta);
      DistinctPrices(s') && (MapOf(s'), rc) == MapApply(MapOf(s), price, amount, isDelta)
  {
    var i := LowerBound(s, price);
    if i < |s| && s[i].price == price {
      ApplyAtLevel(s, i, amount, isDelta);
    } else {
      AbsentPrice(s, price);
      ApplyBetweenLevels(s, i, price, amount, isDelta);
    }
  }

  lemma RemovedLevel(s: seq<Level>, i: nat)
    requires DistinctPrices(s) && i < |s|
    ensures var s' := s[..i] + s[i + 1..];
      DistinctPrices(s') && MapOf(s') == MapOf(s) - {s[i].price}
  {
    RemovedIsDistinct(s, i);
    RemovedLeaves(s, i);
  }

  lemma RemovedIsDistinct(s: seq<Level>, i: nat)
    requires DistinctPrices(s) && i < |s|
    ensures DistinctPrices(s[..i] + s[i + 1..])
  {
  }

  lemma RemovedLeaves(s: seq<Level>, i: nat)
    requires DistinctPrices(s) && i < |s|
    ensures forall l :: l in s[..i] + s[i + 1..] <==> l in s && l.price != s[i].price
  {
    var s' := s[..i] + s[i + 1..];
    forall l | l in s && l.price != s[i].price ensures l in s' {
      var j :| 0 <= j < |s| && s[j] == l;
      assert l == s'[if j < i then j else j - 1];
    }
  }

  lemma ReplacedLevel(s: seq<Level>, i: nat, size: nat)
    requires DistinctPrices(s) && i < |s|
    ensures var s' := s[i := Level(s[i].price, size)];
      DistinctPrices(s') && MapOf(s') == MapOf(s)[s[i].price := size]
  {
    var p := s[i].price;
    var s' := s[i := Level(p, size)];
    forall l ensures l in s' <==> l == Level(p, size) || (l in s && l.price != p) {
      if l in s && l.price != p {
        var j :| 0 <= j < |s| && s[j] == l;
        assert l == s'[j];
      }
      assert s'[i] == Level(p, size);
    }
  }

  lemma InsertedLevel(s: seq<Level>, i: nat, l: Level)
    requires DistinctPrices(s) && i <= |s|
    requires forall j :: 0 <= j < |s| ==> s[j].price != l.price
    ensures var s' := s[..i] + [l] + s[i..];
      DistinctPrices(s') && MapOf(s') == MapOf(s)[l.price := l.size]
  {
    var s' := s[..i] + [l] + s[i..];
    forall x ensures x in s' <==> x == l || x in s {
      if x in s {
        var j :| 0 <= j < |s| && s[j] == x;
        assert x == s'[if j < i then j else j + 1];
      }
      assert s'[i] == l;
    }
  }

  // Best ask and best bid are the smallest and the largest price of the map.
  lemma BestPricesAreExtremes(b: BookState)
    requires b.Strict()
    ensures b.BestAsk() == None <==> MapOf(b.asks) == map[]
    ensures b.BestBid() == None <==> MapOf(b.bids) == map[]
    ensures b.BestAsk().Some? ==> var l := b.BestAsk().value;
      l.price in MapOf(b.asks) && MapOf(b.asks)[l.price] == l.size
      && forall p :: p in MapOf(b.asks) ==> l.price <= p
    ensures b.BestBid().Some? ==> var l := b.BestBid().value;
      l.price in MapOf(b.bids) && MapOf(b.bids)[l.price] == l.size
      && forall p :: p in MapOf(b.bids) ==> p <= l.price
  {
    if b.asks != [] { assert b.asks[0] in b.asks; assert b.asks[0].price in MapOf(b.asks); }
    if b.bids != [] {
      assert b.bids[|b.bids| - 1] in b.bids;
      assert b.bids[|b.bids| - 1].price in MapOf(b.bids);
    }
  }

  // The bid side is met from its highest price down.
  lemma WalkOrderIs(b: BookState)
    requires b.Inv()
    ensures Ascending(b.WalkOrder(ASK)) && Descending(b.WalkOrder(BID))
    ensures PositiveSizes(b.WalkOrder(ASK)) && PositiveSizes(b.WalkOrder(BID))
    ensures PricesAtLeast(b.WalkOrder(ASK), 0) && PricesAtLeast(b.WalkOrder(BID), 0)
  {
  }

  // Which levels the walk of a side meets, and in what order: bids from the highest price,
  // asks from the lowest, and for a side that is neither, asks from the highest.
  lemma WalkMeets(b: BookState, side: int)
    ensures var ls := b.WalkOrder(side);
      var met := if side == 1 then b.bids else b.asks;
      |ls| == |met| && forall i :: 0 <= i < |ls| ==> ls[i] == met[if side == 2 then i else |met| - 1 - i]
  {
  }

  // ------------------------------------------------------------------- whole book

  function Update(b: BookState, side: int, price: int, amount: int, isDelta: bool, seqNo: nat): (BookState, int) {
    if price < 0 || (side != BID && side != ASK) then (b, -1)
    else
      var (s, rc) := Apply(b.Side(side), price, amount, isDelta);
      var b' := b.WithSide(side, s);
      (if rc == 0 then b'.Touch(seqNo) else b', rc)
  }

  // An update is refused for a bad price or side, or for a new price on a side of 64; then
  // nothing changes, and otherwise the book has at least its sequence number.
  lemma RefusedWhen(b: BookState, side: int, price: int, amount: int, isDelta: bool, seqNo: nat)
    requires b.Inv()
    ensures var (b', rc) := Update(b, side, price, amount, isDelta, seqNo);
      var ls := if side == 1 then b.bids else b.asks;
      var adds := 0 < amount && forall i :: 0 <= i < |ls| ==> ls[i].price != price;
      && (rc == -1 <==> price < 0 || (side != 1 && side != 2) || (adds && |ls| == 64)) && (rc == 0 || rc == -1)
      && (if rc == -1 then b' == b else b'.seqNo == if b.seqNo < seqNo then seqNo else b.seqNo)
  {
    var ls := if side == BID then b.bids else b.asks;
    var i := LowerBound(ls, price);
    if i < |ls| && ls[i].price == price {
      assert !(forall j :: 0 <= j < |ls| ==> ls[j].price != price);
    } else {
      AbsentPrice(ls, price);
    }
  }

  function NonZero(ls: seq<Level>): seq<Level> {
    if ls == [] then []
    else if ls[|ls| - 1].size == 0 then NonZero(ls[..|ls| - 1])
    else NonZero(ls[..|ls| - 1]) + [ls[|ls| - 1]]
  }

  lemma {:induction false} NonZeroElements(ls: seq<Level>)
    ensures |NonZero(ls)| <= |ls|
    ensures forall l :: l in NonZero(ls) <==> l in ls && l.size > 0
  {
    if ls != [] {
      var init, last := ls[..|ls| - 1], ls[|ls| - 1];
      NonZeroElements(init);
      assert ls == init + [last];
    }
  }

  // The levels a snapshot puts on its side: the positive ones among the first n.
  function Shown(levels: Option<seq<Level>>, n: nat): seq<Level>
    requires levels.Some? ==> n <= |levels.value|
  {
    if levels.Some? then NonZero(levels.value[..n]) else []
  }

  // qsort orders by price and says nothing about equal prices: any ordered
  // rearrangement is a possible outcome.
  ghost predicate Snapshot(b: BookState, side: int, levels: Option<seq<Level>>, n: int, seqNo: nat,
                           b': BookState, rc: int)
    requires levels.Some? ==> n <= |levels.value|
  {
    if n < 0 || n > MAX_LEVELS then b' == b && rc == -1
    else
      var s := b'.Side(side);
      rc == 0 && b' == b.WithSide(side, s).Touch(seqNo)
      && Ascending(s) && multiset(s) == multiset(Shown(levels, n))
  }

  // ------------------------------------------------------------- runs of updates

  datatype BookOp =
    | UpdateOp(side: int, price: int, amount: int, isDelta: bool, seqNo: nat)
    | SnapshotOp(side: int, levels: Option<seq<Level>>, n: int, seqNo: nat)
  {
    // Arrays as long as announced, prices on the non-negative scale of the exchange.
    ghost predicate WellFormed() {
      SnapshotOp? && levels.Some? ==> n <= |levels.value| && PricesAtLeast(levels.value, 0)
    }

    // An accepted snapshot shows each price once.
    ghost predicate Unambiguous()
      requires WellFormed()
    {
      SnapshotOp? && 0 <= n <= MAX_LEVELS ==> DistinctPrices(Shown(levels, n))
    }
  }

  ghost predicate Step(b: BookState, op: BookOp, b': BookState, rc: int)
    requires op.WellFormed()
  {
    match op
    case UpdateOp(side, price, amount, isDelta, n) => (b', rc) == Update(b, side, price, amount, isDelta, n)
    case SnapshotOp(side, levels, n, seqNo) => Snapshot(b, side, levels, n, seqNo, b', rc)
  }

  const EMPTY_BOOK: BookState := BookState([], [], 0)

  ghost predicate Run(states: seq<BookState>, rcs: seq<int>, ops: seq<BookOp>) {
    && |states| == |ops| + 1 && |rcs| == |ops|
    && (forall i :: 0 <= i < |ops| ==> ops[i].WellFormed())
    && states[0] == EMPTY_BOOK
    && (forall i :: 0 <= i < |ops| ==> Step(states[i], ops[i], states[i + 1], rcs[i]))
  }

  // The abstract book: one finite map a side.
  datatype MapBook = MapBook(bids: map<int, nat>, asks: map<int, nat>, seqNo: nat)

  ghost function Abstract(b: BookState): MapBook
    requires b.Strict()
  {
    MapBook(MapOf(b.bids), MapOf(b.asks), b.seqNo)
  }

  ghost function MapStep(m: MapBook, op: BookOp): (MapBook, int)
    requires op.WellFormed() && op.Unambiguous()
  {
    match op
    case UpdateOp(side, price, amount, isDelta, n) =>
      if price < 0 || (side != BID && side != ASK) then (m, -1)
      else
        var (s, rc) := MapApply(if side == BID then m.bids else m.asks, price, amount, isDelta);
        var m' := if side == BID then m.(bids := s) else m.(asks := s);
        (if rc == 0 then m'.(seqNo := Max(m.seqNo, n)) else m', rc)
    case SnapshotOp(side, levels, n, seqNo) =>
      if n < 0 || n > MAX_LEVELS then (m, -1)
      else
        var s := MapOf(Shown(levels, n));
        var m' := if side == BID then m.(bids := s) else m.(asks := s);
        (m'.(seqNo := Max(m.seqNo, seqNo)), 0)
  }

  ghost function MapRun(ops: seq<BookOp>): MapBook
    requires forall i :: 0 <= i < |ops| ==> ops[i].WellFormed() && ops[i].Unambiguous()
  {
    if ops == [] then MapBook(map[], map[], 0)
    else MapStep(MapRun(ops[..|ops| - 1]), ops[|ops| - 1]).0
  }

  lemma StepKeepsInv(b: BookState, op: BookOp, b': BookState, rc: int)
    requires b.Inv() && op.WellFormed() && Step(b, op, b', rc)
    ensures b'.Inv()
  {
    match op
    case UpdateOp(side, price, amount, isDelta, n) =>
      if 0 <= price {
        ApplyKeepsSide(b.Side(side), price, amount, isDelta);
      }
    case SnapshotOp(side, levels, n, seqNo) =>
      if 0 <= n <= MAX_LEVELS {
        SnapshotSide(b, side, levels, n, seqNo, b', rc);
      }
  }

  lemma SnapshotSide(b: BookState, side: int, levels: Option<seq<Level>>, n: int, seqNo: nat,
                     b': BookState, rc: int)
    requires levels.Some? ==> n <= |levels.value| && PricesAtLeast(levels.value, 0)
    requires 0 <= n <= MAX_LEVELS && Snapshot(b, side, levels, n, seqNo, b', rc)
    ensures SideInv(b'.Side(side))
    ensures forall l :: l in b'.Side(side) <==> l in Shown(levels, n)
  {
    var given, s := Shown(levels, n), b'.Side(side);
    if levels.Some? { NonZeroElements(levels.value[..n]); }
    SamePositiveLevels(s, given);
    assert forall l :: l in s <==> l in multiset(s);
    assert forall l :: l in given <==> l in multiset(given);
  }

  // A rearrangement keeps what holds level by level.
  lemma SamePositiveLevels(s: seq<Level>, given: seq<Level>)
    requires multiset(s) == multiset(given)
    requires PositiveSizes(given) && PricesAtLeast(given, 0)
    ensures |s| == |given| && PositiveSizes(s) && PricesAtLeast(s, 0)
  {
    assert |s| == |multiset(s)| && |given| == |multiset(given)|;
    forall i | 0 <= i < |s| ensures 0 < s[i].size && 0 <= s[i].price {
      assert s[i] in multiset(s);
      assert s[i] in given;
    }
  }

  // A rearrangement of distinct prices has distinct prices.
  lemma OnceEach(given: seq<Level>, s: seq<Level>)
    requires DistinctPrices(given) && multiset(s) == multiset(given)
    ensures DistinctPrices(s)
  {
    forall i, j | 0 <= i < j < |s| ensures s[i].price != s[j].price {
      assert s[i] in multiset(s) && s[j] in multiset(s);
      assert s[i] in given && s[j] in given;
      if s[i] == s[j] {
        TwiceInMultiset(s, i, j);
        AtMostOnce(given, s[i]);
      }
    }
  }

  lemma TwiceInMultiset(s: seq<Level>, i: nat, j: nat)
    requires i < j < |s| && s[i] == s[j]
    ensures multiset(s)[s[i]] >= 2
  {
    assert s == s[..j] + [s[j]] + s[j + 1..];
    assert s[i] in s[..j];
  }

  lemma {:induction false} AtMostOnce(s: seq<Level>, l: Level)
    requires DistinctPrices(s)
    ensures multiset(s)[l] <= 1
  {
    if s != [] {
      var init := s[..|s| - 1];
      AtMostOnce(init, l);
      assert s == init + [s[|s| - 1]];
      if l == s[|s| - 1] { assert l !in init; }
    }
  }

  lemma SideReplaced(b: BookState, side: int, s: seq<Level>)
    requires b.Strict() && SideInv(s) && DistinctPrices(s)
    ensures var b' := b.WithSide(side, s);
      b'.Strict()
      && Abstract(b') == if side == BID then Abstract(b).(bids := MapOf(s)) else Abstract(b).(asks := MapOf(s))
  {
  }

  lemma UpdateRefinesMaps(b: BookState, side: int, price: int, amount: int, isDelta: bool, n: nat)
    requires b.Strict()
    ensures var (b', rc) := Update(b, side, price, amount, isDelta, n);
      b'.Strict() && (Abstract(b'), rc) == MapStep(Abstract(b), UpdateOp(side, price, amount, isDelta, n))
  {
    if 0 <= price && (side == BID || side == ASK) {
      var was := b.Side(side);
      ApplyKeepsSide(was, price, amount, isDelta);
      ApplyRefinesMap(was, price, amount, isDelta);
      SideReplaced(b, side, Apply(was, price, amount, isDelta).0);
    }
  }

  // A snapshot leaves one level a price exactly when it shows each price once.
  lemma SnapshotStrictWhen(b: BookState, side: int, levels: Option<seq<Level>>, n: int, seqNo: nat,
                           b': BookState, rc: int)
    requires var op := SnapshotOp(side, levels, n, seqNo); b.Strict() && op.WellFormed() && Step(b, op, b', rc)
    ensures b'.Strict() <==> SnapshotOp(side, levels, n, seqNo).Unambiguous()
  {
    if 0 <= n <= MAX_LEVELS {
      SnapshotSide(b, side, levels, n, seqNo, b', rc);
      var given, s := Shown(levels, n), b'.Side(side);
      if DistinctPrices(given) { OnceEach(given, s); }
      if DistinctPrices(s) { OnceEach(s, given); }
    }
  }

  // It can: a price shown twice becomes two levels.
  lemma RepeatedPriceStays(shown: seq<Level>, b': BookState, rc: int)
    requires shown == [Level(500, 10), Level(500, 20)]
    requires Step(EMPTY_BOOK, SnapshotOp(ASK, Some(shown), 2, 1), b', rc)
    ensures rc == 0 && |b'.asks| == 2 && b'.asks[0].price == 500 == b'.asks[1].price && !b'.Strict()
  {
    assert shown[..2] == shown && shown[..1] == [Level(500, 10)] && shown[..1][..0] == [];
    assert NonZero(shown[..1]) == [] + [Level(500, 10)];
    assert NonZero(shown) == NonZero(shown[..1]) + [Level(500, 20)];
    assert Shown(Some(shown), 2) == shown;
    SnapshotSide(EMPTY_BOOK, ASK, Some(shown), 2, 1, b', rc);
    SamePositiveLevels(b'.asks, shown);
  }

  lemma SnapshotRefinesMaps(b: BookState, side: int, levels: Option<seq<Level>>, n: int, seqNo: nat,
                            b': BookState, rc: int)
    requires var op := SnapshotOp(side, levels, n, seqNo);
      b.Strict() && op.WellFormed() && op.Unambiguous() && Step(b, op, b', rc) && b'.Strict()
    ensures (Abstract(b'), rc) == MapStep(Abstract(b), SnapshotOp(side, levels, n, seqNo))
  {
    if 0 <= n <= MAX_LEVELS {
      SnapshotSide(b, side, levels, n, seqNo, b', rc);
      SameElementsSameMap(b'.Side(side), Shown(levels, n));
    }
  }

  lemma SameElementsSameMap(s: seq<Level>, given: seq<Level>)
    requires DistinctPrices(s) && DistinctPrices(given)
    requires forall l :: l in s <==> l in given
    ensures MapOf(s) == MapOf(given)
  {
  }

  lemma StepRefinesMaps(b: BookState, op: BookOp, b': BookState, rc: int)
    requires b.Strict() && op.WellFormed() && op.Unambiguous() && Step(b, op, b', rc)
    ensures b'.Strict() && (Abstract(b'), rc) == MapStep(Abstract(b), op)
  {
    match op
    case UpdateOp(side, price, amount, isDelta, n) =>
      UpdateRefinesMaps(b, side, price, amount, isDelta, n);
    case SnapshotOp(side, levels, n, seqNo) =>
      SnapshotStrictWhen(b, side, levels, n, seqNo, b', rc);
      SnapshotRefinesMaps(b, side, levels, n, seqNo, b', rc);
  }

  // Every reachable book is sorted, positive and within capacity, even when
  // snapshots repeat a price.
  lemma {:induction false} RunKeepsInv(states: seq<BookState>, rcs: seq<int>, ops: seq<BookOp>)
    requires Run(states, rcs, ops)
    ensures states[|ops|].Inv()
  {
    if ops != [] {
      var n := |ops| - 1;
      RunKeepsInv(states[..n + 1], rcs[..n], ops[..n]);
      StepKeepsInv(states[n], ops[n], states[n + 1], rcs[n]);
    }
  }

  // With unambiguous snapshots the arrays are, after every operation, the maps that
  // the same operations build, and so are the result codes.
  lemma {:induction false} RunRefinesMaps(states: seq<BookState>, rcs: seq<int>, ops: seq<BookOp>)
    requires Run(states, rcs, ops)
    requires forall i :: 0 <= i < |ops| ==> ops[i].Unambiguous()
    ensures states[|ops|].Strict() && Abstract(states[|ops|]) == MapRun(ops)
    ensures ops != [] ==> rcs[|ops| - 1] == MapStep(MapRun(ops[..|ops| - 1]), ops[|ops| - 1]).1
  {
    if ops == [] {
      assert MapOf([]) == map[];
    } else {
      var n := |ops| - 1;
      RunRefinesMaps(states[..n + 1], rcs[..n], ops[..n]);
      StepRefinesMaps(states[n], ops[n], states[n + 1], rcs[n]);
    }
  }

  // ------------------------------------------------------------------ the classes

  // The first n levels are in price order, except that the one at j may be too low
  // for its place.
  ghost predicate OrderedBut(s: seq<Level>, n: nat, j: nat)
    requires n <= |s|
  {
    forall a, b :: 0 <= a < b < n && b != j ==> s[a].price <= s[b].price
  }

  function Swapped(s: seq<Level>, i: nat, j: nat): (s': seq<Level>)
    requires i < j < |s|
    ensures |s'| == |s| && multiset(s') == multiset(s)
  {
    s[i := s[j]][j := s[i]]
  }

  lemma SunkOnce(s: seq<Level>, n: nat, j: nat)
    requires 0 < j < n <= |s| && OrderedBut(s, n, j) && s[j].price < s[j - 1].price
    ensures OrderedBut(Swapped(s, j - 1, j), n, j - 1)
  {
    var s' := Swapped(s, j - 1, j);
    forall a, b | 0 <= a < b < n && b != j - 1 ensures s'[a].price <= s'[b].price {
      if b == j {
        if a < j - 1 { assert s[a].price <= s[j - 1].price; }
      } else if a == j {
        assert s[j - 1].price <= s[b].price;
      } else if a == j - 1 {
        assert s[j].price <= s[b].price;
      } else {
        assert s[a].price <= s[b].price;
      }
    }
  }

  lemma Settled(s: seq<Level>, n: nat, j: nat)
    requires j < n <= |s| && OrderedBut(s, n, j)
    requires j == 0 || s[j - 1].price <= s[j].price
    ensures OrderedBut(s, n, n)
  {
    forall a | 0 <= a < j ensures s[a].price <= s[j].price {
      if a < j - 1 { assert s[a].price <= s[j - 1].price; }
    }
  }

  // One side: a fixed array and a count, as pt_side_book_t.
  class SideBook {
    const levels: array<Level>
    var count: nat

    ghost predicate Shape()
      reads this
    {
      levels.Length == MAX_LEVELS && count <= MAX_LEVELS
    }

    ghost function Contents(): seq<Level>
      requires Shape()
      reads this, levels
    {
      levels[..count]
    }

    ghost predicate Valid()
      reads this, levels
    {
      Shape() && SideInv(Contents())
    }

    constructor ()
      ensures Valid() && Contents() == [] && fresh(levels)
    {
      levels := new Level[MAX_LEVELS](_ => Level(0, 0));
      count := 0;
    }

    method Find(price: int) returns (at: nat, exact: bool)
      requires Valid()
      ensures at == LowerBound(Contents(), price)
      ensures exact <==> at < count && levels[at].price == price
    {
      var lo, hi := 0, count;
      while lo < hi
        invariant 0 <= lo <= hi <= count
        invariant forall j :: 0 <= j < lo ==> levels[j].price < price
        invariant forall j :: hi <= j < count ==> price <= levels[j].price
      {
        var mid := (lo + hi) / 2;
        if levels[mid].price < price {
          lo := mid + 1;
        } else {
          hi := mid;
        }
      }
      LowerBoundIs(Contents(), price, lo);
      at := lo;
      exact := lo < count && levels[lo].price == price;
    }

    method RemoveAt(at: nat)
      requires Shape() && at < count
      modifies this, levels
      ensures Shape() && Contents() == old(Contents()[..at] + Contents()[at + 1..])
    {
      forall j | at <= j < count - 1 { levels[j] := levels[j + 1]; }
      count := count - 1;
    }

    method InsertAt(at: nat, l: Level)
      requires Shape() && at <= count < MAX_LEVELS
      modifies this, levels
      ensures Shape() && Contents() == old(Contents()[..at] + [l] + Contents()[at..])
    {
      forall j | at < j <= count { levels[j] := levels[j - 1]; }
      levels[at] := l;
      count := count + 1;
    }

    method ApplyLevel(price: int, amount: int, isDelta: bool) returns (rc: int)
      requires Valid() && 0 <= price
      modifies this, levels
      ensures Valid()
      ensures (Contents(), rc) == Apply(old(Contents()), price, amount, isDelta)
    {
      ApplyKeepsSide(Contents(), price, amount, isDelta);
      var at, exact := Find(price);
      rc := 0;
      if exact {
        var next := if isDelta then levels[at].size + amount else amount;
        if next <= 0 {
          RemoveAt(at);
        } else {
          levels[at] := Level(levels[at].price, next);
        }
      } else if amount > 0 {
        if count >= MAX_LEVELS { return -1; }
        InsertAt(at, Level(price, amount));
      }
    }

    // Clears the side and copies the positive levels.
    method CopyNonZero(given: seq<Level>)
      requires Shape() && |given| <= MAX_LEVELS
      modifies this, levels
      ensures Shape() && Contents() == NonZero(given)
    {
      count := 0;
      for i := 0 to |given|
        invariant Shape() && count <= i
        invariant Contents() == NonZero(given[..i])
      {
        assert given[..i + 1][..i] == given[..i];
        if given[i].size != 0 {
          levels[count] := given[i];
          count := count + 1;
        }
      }
      assert given[..|given|] == given;
    }

    method Replace(given: Option<seq<Level>>, n: nat)
      requires Shape() && n <= MAX_LEVELS
      requires given.Some? ==> n <= |given.value| && PricesAtLeast(given.value, 0)
      modifies this, levels
      ensures Valid()
      ensures multiset(Contents()) == multiset(Shown(given, n))
    {
      if given == None {
        count := 0;
        return;
      }
      var ls := given.value[..n];
      CopyNonZero(ls);
      NonZeroElements(ls);
      Sort();
      SamePositiveLevels(Contents(), NonZero(ls));
    }

    method Swap(i: nat, j: nat)
      requires Shape() && i < j < count
      modifies levels
      ensures Contents() == Swapped(old(Contents()), i, j)
    {
      levels[i], levels[j] := levels[j], levels[i];
    }

    // Stands for the C library's qsort on this array and comparator: a side on its
    // own, so that no order of equal prices is promised.
    method Sort()
      requires Shape()
      modifies levels
      ensures Ascending(Contents())
      ensures multiset(Contents()) == old(multiset(Contents()))
    {
      for i := 0 to count
        invariant OrderedBut(Contents(), i, i)
        invariant multiset(Contents()) == old(multiset(Contents()))
      {
        SinkLast(i);
      }
    }

    // Moves the level at i down to its place in the ordered prefix.
    method SinkLast(i: nat)
      requires Shape() && i < count && OrderedBut(Contents(), i, i)
      modifies levels
      ensures OrderedBut(Contents(), i + 1, i + 1)
      ensures multiset(Contents()) == old(multiset(Contents()))
    {
      var j := i;
      while j > 0 && levels[j - 1].price > levels[j].price
        invariant 0 <= j <= i && OrderedBut(Contents(), i + 1, j)
        invariant multiset(Contents()) == old(multiset(Contents()))
      {
        SunkOnce(Contents(), i + 1, j);
        Swap(j - 1, j);
        j := j - 1;
      }
      Settled(Contents(), i + 1, j);
    }

    // The walk from the lowest price up, as for asks.
    method WalkUp(want: nat) returns (filled: nat, cost: int, used: nat)
      requires Valid()
      ensures var ls := Contents();
        filled == Filled(ls, want) && cost == Cost(ls, want) && used == Used(ls, want)
    {
      filled, cost, used := 0, 0, 0;
      ghost var ls := Contents();
      assert ls[0..] == ls;
      var i := 0;
      while i < count && filled < want
        invariant i == used <= count
        invariant WalkedTo(ls, want, used, filled, cost)
      {
        assert ls[used] == levels[i];
        var take := if levels[i].size < want - filled then levels[i].size else want - filled;
        WalkTurn(ls, want, used, filled, cost, levels[i], take);
        filled, cost := filled + take, cost + levels[i].price * take;
        used, i := used + 1, i + 1;
      }
      WalkDone(ls, want, used, filled, cost);
    }

    // The walk from the highest price down, as for bids.
    method WalkDown(want: nat) returns (filled: nat, cost: int, used: nat)
      requires Valid()
      ensures var ls := Reversed(Contents());
        filled == Filled(ls, want) && cost == Cost(ls, want) && used == Used(ls, want)
    {
      filled, cost, used := 0, 0, 0;
      ghost var ls := Reversed(Contents());
      assert ls[0..] == ls;
      var i := count - 1;
      while i >= 0 && filled < want
        invariant -1 <= i && used == count - 1 - i
        invariant WalkedTo(ls, want, used, filled, cost)
      {
        assert ls[used] == levels[i];
        var take := if levels[i].size < want - filled then levels[i].size else want - filled;
        WalkTurn(ls, want, used, filled, cost, levels[i], take);
        filled, cost := filled + take, cost + levels[i].price * take;
        used, i := used + 1, i - 1;
      }
      WalkDone(ls, want, used, filled, cost);
    }
  }

  // Both sides; the result codes are those of the code.
  class Book {
    const bids: SideBook
    const asks: SideBook
    var seqNo: nat

    ghost predicate Valid()
      reads this, bids, bids.levels, asks, asks.levels
    {
      bids != asks && bids.levels != asks.levels && bids.Valid() && asks.Valid()
    }

    ghost function State(): (b: BookState)
      requires Valid()
      reads this, bids, bids.levels, asks, asks.levels
      ensures b.Inv()
    {
      BookState(bids.Contents(), asks.Contents(), seqNo)
    }

    constructor ()
      ensures Valid() && State() == EMPTY_BOOK
      ensures fresh(bids) && fresh(asks) && fresh(bids.levels) && fresh(asks.levels)
    {
      bids := new SideBook();
      asks := new SideBook();
      seqNo := 0;
    }

    method ApplyUpdate(side: int, price: int, amount: int, isDelta: bool, n: nat) returns (rc: int)
      requires Valid()
      modifies this, bids, bids.levels, asks, asks.levels
      ensures Valid()
      ensures (State(), rc) == Update(old(State()), side, price, amount, isDelta, n)
    {
      if price < 0 { return -1; }
      if side == BID {
        rc := bids.ApplyLevel(price, amount, isDelta);
      } else if side == ASK {
        rc := asks.ApplyLevel(price, amount, isDelta);
      } else {
        return -1;
      }
      if rc == 0 && n > seqNo { seqNo := n; }
    }

    method ApplySnapshot(side: int, given: Option<seq<Level>>, n: int, seqN: nat) returns (rc: int)
      requires Valid()
      requires given.Some? ==> n <= |given.value| && PricesAtLeast(given.value, 0)
      modifies this, bids, bids.levels, asks, asks.levels
      ensures Valid()
      ensures Snapshot(old(State()), side, given, n, seqN, State(), rc)
    {
      if n < 0 || n > MAX_LEVELS { return -1; }
      if side == BID {
        bids.Replace(given, n);
      } else {
        asks.Replace(given, n);
      }
      if seqN > seqNo { seqNo := seqN; }
      rc := 0;
    }

    method BestBid() returns (best: Option<Level>)
      requires Valid()
      ensures best == State().BestBid()
    {
      if bids.count == 0 { return None; }
      return Some(bids.levels[bids.count - 1]);
    }

    method BestAsk() returns (best: Option<Level>)
      requires Valid()
      ensures best == State().BestAsk()
    {
      if asks.count == 0 { return None; }
      return Some(asks.levels[0]);
    }

    // Size shown at a price: the map's value there, 0 elsewhere and for prices <= 0.
    method LevelSize(side: int, price: int) returns (size: nat)
      requires Valid()
      ensures price <= 0 ==> size == 0
      ensures 0 < price && State().Strict() ==>
        var m := MapOf(State().Side(side)); size == if price in m then m[price] else 0
    {
      if price <= 0 { return 0; }
      var s := if side == BID then bids else asks;
      var at, exact := s.Find(price);
      if State().Strict() { LowerBoundFinds(s.Contents(), price); }
      size := if exact then s.levels[at].size else 0;
    }

    method Walk(side: int, want: nat) returns (filled: nat, avg: int, used: nat)
      requires Valid()
      ensures var ls := State().WalkOrder(side);
        filled == Filled(ls, want) && avg == Vwap(ls, want) && used == Used(ls, want)
    {
      var cost;
      var s := if side == BID then bids else asks;
      if side == ASK {
        filled, cost, used := s.WalkUp(want);
      } else {
        filled, cost, used := s.WalkDown(want);
      }
      avg := if filled > 0 then cost / filled else 0;
    }
  }

  // A book that may be missing, as a value.
  ghost function View(book: Book?): Option<BookState>
    requires book != null ==> book.Valid()
    reads if book == null then {} else {book, book.bids, book.bids.levels, book.asks, book.asks.levels}
  {
    if book == null then None else Some(book.State())
  }
}
