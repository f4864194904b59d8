// The greedy depth walk (pt_book_walk) as a function of the levels met best-first,
// and what makes it the right one: no way to take the same shares is cheaper, and
// the truncated average price moves one way only as the wanted size grows.

module Walk {
  import opened Arith
  import opened Types

  datatype Level = Level(price: int, size: nat)

  ghost predicate Ascending(ls: seq<Level>) {
    forall i, j :: 0 <= i < j < |ls| ==> ls[i].price <= ls[j].price
  }

  ghost predicate Descending(ls: seq<Level>) {
    forall i, j :: 0 <= i < j < |ls| ==> ls[j].price <= ls[i].price
  }

  ghost predicate PricesAtLeast(ls: seq<Level>, p: int) {
    forall i :: 0 <= i < |ls| ==> p <= ls[i].price
  }

  ghost predicate PositiveSizes(ls: seq<Level>) {
    forall i :: 0 <= i < |ls| ==> 0 < ls[i].size
  }

  function Depth(ls: seq<Level>): nat {
    if ls == [] then 0 else ls[0].size + Depth(ls[1..])
  }

  // Shares obtained when `want` are asked for.
  function Filled(ls: seq<Level>, want: nat): nat {
    Min(want, Depth(ls))
  }

  // Scaled cost of taking `want` shares, each level emptied before the next one.
  function Cost(ls: seq<Level>, want: nat): int {
    if ls == [] || want == 0 then 0
    else var take := Min(ls[0].size, want);
         ls[0].price * take + Cost(ls[1..], want - take)
  }

  // Number of levels looked at.
  function Used(ls: seq<Level>, want: nat): nat {
    if ls == [] || want == 0 then 0 else 1 + Used(ls[1..], want - Min(ls[0].size, want))
  }

  // Truncated average price; 0 when nothing is filled.
  function Vwap(ls: seq<Level>, want: nat): int {
    if Filled(ls, want) > 0 then Cost(ls, want) / Filled(ls, want) else 0
  }

  // Where the walk's loop stands after k levels: what it has plus what the other
  // levels yield is the whole answer.
  ghost predicate WalkedTo(ls: seq<Level>, want: nat, k: nat, filled: nat, cost: int) {
    && k <= |ls| && filled <= want
    && Cost(ls, want) == cost + Cost(ls[k..], want - filled)
    && Filled(ls, want) == filled + Filled(ls[k..], want - filled)
    && Used(ls, want) == k + Used(ls[k..], want - filled)
  }

  lemma WalkTurn(ls: seq<Level>, want: nat, k: nat, filled: nat, cost: int, l: Level, take: nat)
    requires WalkedTo(ls, want, k, filled, cost) && k < |ls| && filled < want
    requires l == ls[k] && take == Min(l.size, want - filled)
    ensures WalkedTo(ls, want, k + 1, filled + take, cost + l.price * take)
  {
    assert ls[k..][1..] == ls[k + 1..];
  }

  lemma WalkDone(ls: seq<Level>, want: nat, k: nat, filled: nat, cost: int)
    requires WalkedTo(ls, want, k, filled, cost)
    requires k == |ls| || filled == want
    ensures Filled(ls, want) == filled && Cost(ls, want) == cost && Used(ls, want) == k
  {
  }

  // The average reported: whole thousandths of the cost a share, none when nothing is filled.
  lemma VwapMeans(ls: seq<Level>, want: nat)
    ensures var n := Min(want, Depth(ls));
      if n == 0 then Vwap(ls, want) == 0
      else Vwap(ls, want) * n <= Cost(ls, want) < (Vwap(ls, want) + 1) * n
  {
    var x, n := Cost(ls, want), Filled(ls, want);
    if 0 < n {
      assert x == n * (x / n) + x % n;
      Distribute(n, x / n, 1);
      Commutes(n, x / n);
      Commutes(n, x / n + 1);
    }
  }

  // ------------------------------------------------------------------ bounds

  lemma {:induction false} CostSaturates(ls: seq<Level>, want: nat)
    ensures Cost(ls, want) == Cost(ls, Filled(ls, want))
  {
    if ls != [] && want > 0 {
      CostSaturates(ls[1..], want - Min(ls[0].size, want));
    }
  }

  lemma CostUnfolds(ls: seq<Level>, want: nat)
    requires ls != []
    ensures Cost(ls, want) == ls[0].price * Min(ls[0].size, want) + Cost(ls[1..], want - Min(ls[0].size, want))
  {
  }

  // Every share beyond the first `b` costs at least p when every level does.
  lemma {:induction false} ExtraCostAtLeast(ls: seq<Level>, p: int, a: nat, b: nat)
    requires PricesAtLeast(ls, p)
    requires a <= b <= Depth(ls)
    ensures Cost(ls, b) - Cost(ls, a) >= p * (b - a)
  {
    if ls != [] {
      var ta, tb := Min(ls[0].size, a), Min(ls[0].size, b);
      ExtraCostAtLeast(ls[1..], p, a - ta, b - tb);
      var x, y := tb - ta, (b - tb) - (a - ta);
      CostUnfolds(ls, a);
      CostUnfolds(ls, b);
      ScaleUp(p, ls[0].price, x);
      Distribute(ls[0].price, ta, x);
      Distribute(p, x, y);
      assert ta + x == tb && x + y == b - a;
    }
  }

  // -------------------------------------------------------------- optimality

  function Sum(qs: seq<nat>): nat {
    if qs == [] then 0 else qs[0] + Sum(qs[1..])
  }

  function AllocationCost(ls: seq<Level>, qs: seq<nat>): int
    requires |ls| == |qs|
  {
    if ls == [] then 0 else ls[0].price * qs[0] + AllocationCost(ls[1..], qs[1..])
  }

  // qs takes qs[i] shares from level i, and no more than the level shows.
  ghost predicate Allocation(ls: seq<Level>, qs: seq<nat>) {
    |ls| == |qs| && forall i :: 0 <= i < |qs| ==> qs[i] <= ls[i].size
  }

  lemma {:induction false} AllocationWithinDepth(ls: seq<Level>, qs: seq<nat>)
    requires Allocation(ls, qs)
    ensures Sum(qs) <= Depth(ls)
  {
    if ls != [] {
      AllocationWithinDepth(ls[1..], qs[1..]);
    }
  }

  // On an ascending side (asks) no other way to take as many shares is cheaper.
  lemma {:induction false} GreedyIsCheapest(ls: seq<Level>, qs: seq<nat>)
    requires Ascending(ls) && Allocation(ls, qs)
    ensures Cost(ls, Sum(qs)) <= AllocationCost(ls, qs)
  {
    if ls != [] {
      var want, q, tail := Sum(qs), qs[0], ls[1..];
      var take := Min(ls[0].size, want);
      GreedyIsCheapest(tail, qs[1..]);
      AllocationWithinDepth(tail, qs[1..]);
      ExtraCostAtLeast(tail, ls[0].price, want - take, want - q);
      CostUnfolds(ls, want);
      HeadFirst(ls[0].price, take, q, Cost(tail, want - take), Cost(tail, want - q));
    }
  }

  // Taking more from the cheapest level and less from the others cannot cost more.
  lemma HeadFirst(p: int, take: nat, q: nat, less: int, more: int)
    requires q <= take && more - less >= p * (take - q)
    ensures p * take + less <= p * q + more
  {
    Distribute(p, q, take - q);
  }

  // Flipping the sign of every price turns a bid side into an ask side.
  function Negated(ls: seq<Level>): (ns: seq<Level>)
    ensures |ns| == |ls|
    ensures forall i :: 0 <= i < |ls| ==> ns[i] == Level(-ls[i].price, ls[i].size)
  {
    seq(|ls|, i requires 0 <= i < |ls| => Level(-ls[i].price, ls[i].size))
  }

  lemma {:induction false} NegatedWalk(ls: seq<Level>, want: nat)
    ensures Depth(Negated(ls)) == Depth(ls)
    ensures Cost(Negated(ls), want) == -Cost(ls, want)
  {
    if ls != [] {
      assert Negated(ls)[1..] == Negated(ls[1..]);
      NegatedWalk(ls[1..], want - Min(ls[0].size, want));
    }
  }

  lemma {:induction false} NegatedAllocation(ls: seq<Level>, qs: seq<nat>)
    requires |ls| == |qs|
    ensures AllocationCost(Negated(ls), qs) == -AllocationCost(ls, qs)
  {
    if ls != [] {
      assert Negated(ls)[1..] == Negated(ls[1..]);
      NegatedAllocation(ls[1..], qs[1..]);
    }
  }

  // On a descending side (bids, best first) no other way to sell as many is dearer.
  lemma GreedyIsDearest(ls: seq<Level>, qs: seq<nat>)
    requires Descending(ls) && Allocation(ls, qs)
    ensures Cost(ls, Sum(qs)) >= AllocationCost(ls, qs)
  {
    NegatedWalk(ls, Sum(qs));
    NegatedAllocation(ls, qs);
    GreedyIsCheapest(Negated(ls), qs);
  }

  // The walk is itself such a way of taking its shares: it fills min(want, depth).
  lemma {:induction false} GreedyIsAnAllocation(ls: seq<Level>, want: nat) returns (qs: seq<nat>)
    ensures Allocation(ls, qs)
    ensures Sum(qs) == Filled(ls, want)
    ensures AllocationCost(ls, qs) == Cost(ls, want)
  {
    if ls == [] {
      qs := [];
    } else {
      var take := Min(ls[0].size, want);
      var rest := GreedyIsAnAllocation(ls[1..], want - take);
      qs := [take] + rest;
      assert qs[1..] == rest;
    }
  }

  // ------------------------------------------------------------ monotonicity

  // Price of the level that holds the a-th share.
  function MarginalPrice(ls: seq<Level>, a: nat): int
    requires 0 < a <= Depth(ls)
  {
    if a <= ls[0].size then ls[0].price else MarginalPrice(ls[1..], a - ls[0].size)
  }

  lemma {:induction false} MarginalSplits(ls: seq<Level>, a: nat, b: nat)
    requires Ascending(ls) && 0 < a <= b <= Depth(ls)
    ensures Cost(ls, a) <= MarginalPrice(ls, a) * a
    ensures Cost(ls, b) - Cost(ls, a) >= MarginalPrice(ls, a) * (b - a)
    ensures MarginalPrice(ls, a) >= ls[0].price
  {
    var s := ls[0].size;
    if a <= s {
      CostUnfolds(ls, a);
      ExtraCostAtLeast(ls, ls[0].price, a, b);
    } else {
      MarginalSplits(ls[1..], a - s, b - s);
      CostUnfolds(ls, a);
      CostUnfolds(ls, b);
      var m := MarginalPrice(ls, a);
      assert ls[1].price >= ls[0].price;
      ScaleUp(ls[0].price, m, s);
      Distribute(m, a - s, s);
      assert (a - s) + s == a && (b - s) - (a - s) == b - a;
    }
  }

  // Average cost per share, cross-multiplied, is non-decreasing.
  lemma AverageCostGrows(ls: seq<Level>, a: nat, b: nat)
    requires Ascending(ls) && 0 < a <= b <= Depth(ls)
    ensures Cost(ls, a) * b <= Cost(ls, b) * a
  {
    MarginalSplits(ls, a, b);
    CrossMultiplied(MarginalPrice(ls, a), Cost(ls, a), Cost(ls, b), a, b - a);
    assert a + (b - a) == b;
  }

  // Asks: the truncated average never falls as the wanted size grows.
  lemma AskVwapGrows(ls: seq<Level>, a: nat, b: nat)
    requires Ascending(ls) && 0 < a <= b
    ensures Vwap(ls, a) <= Vwap(ls, b)
  {
    CostSaturates(ls, a);
    CostSaturates(ls, b);
    var fa, fb := Filled(ls, a), Filled(ls, b);
    if fa > 0 {
      AverageCostGrows(ls, fa, fb);
      FlooredRatios(Cost(ls, fa), fa, Cost(ls, fb), fb);
    }
  }

  // Bids: it never rises.
  lemma BidVwapShrinks(ls: seq<Level>, a: nat, b: nat)
    requires Descending(ls) && 0 < a <= b
    ensures Vwap(ls, b) <= Vwap(ls, a)
  {
    CostSaturates(ls, a);
    CostSaturates(ls, b);
    var fa, fb := Filled(ls, a), Filled(ls, b);
    if fa > 0 {
      NegatedWalk(ls, fa);
      NegatedWalk(ls, fb);
      AverageCostGrows(Negated(ls), fa, fb);
      FlooredRatiosOfNegated(Cost(ls, fa), fa, Cost(ls, fb), fb);
    }
  }

  lemma VwapAtLeast(ls: seq<Level>, p: int, want: nat)
    requires PricesAtLeast(ls, p) && 0 < Filled(ls, want)
    ensures p <= Vwap(ls, want)
  {
    ExtraCostAtLeast(ls, p, 0, Filled(ls, want));
    CostSaturates(ls, want);
    QuotientIsLargest(p, Cost(ls, want), Filled(ls, want));
  }

  // ------------------------------------------------------------- price limit

  // Shares shown at prices a buyer with this limit accepts.
  function DepthUpTo(ls: seq<Level>, limit: int): nat {
    if ls == [] then 0 else (if ls[0].price <= limit then ls[0].size else 0) + DepthUpTo(ls[1..], limit)
  }

  // The walk stays within a price limit exactly when the depth inside the limit
  // covers what it fills.
  lemma {:induction false} WalkWithinLimit(ls: seq<Level>, want: nat, limit: int)
    requires Ascending(ls) && PositiveSizes(ls)
    ensures Used(ls, want) <= |ls|
    ensures (forall i :: 0 <= i < Used(ls, want) ==> ls[i].price <= limit)
       <==> Filled(ls, want) <= DepthUpTo(ls, limit)
  {
    if ls != [] && want > 0 {
      var take, used := Min(ls[0].size, want), Used(ls, want);
      WalkWithinLimit(ls[1..], want - take, limit);
      assert Filled(ls, want) == take + Filled(ls[1..], want - take);
      if ls[0].price > limit {
        NothingAboveLimit(ls, limit);
        assert Filled(ls, want) > 0;
      } else {
        assert forall i :: 1 <= i < used ==> ls[i] == ls[1..][i - 1];
        if take < ls[0].size { assert used == 1; } else {
          assert (forall i :: 0 <= i < used ==> ls[i].price <= limit)
            <==> (forall i :: 0 <= i < used - 1 ==> ls[1..][i].price <= limit) by {
            if forall i :: 0 <= i < used ==> ls[i].price <= limit {
              forall i | 0 <= i < used - 1 ensures ls[1..][i].price <= limit {
                assert ls[1..][i] == ls[i + 1];
              }
            }
          }
        }
      }
    }
  }

  lemma {:induction false} NothingAboveLimit(ls: seq<Level>, limit: int)
    requires PricesAtLeast(ls, limit + 1)
    ensures DepthUpTo(ls, limit) == 0
  {
    if ls != [] {
      NothingAboveLimit(ls[1..], limit);
    }
  }

  lemma {:induction false} UsedLevelsBoundCost(ls: seq<Level>, want: nat, limit: int)
    requires Used(ls, want) <= |ls|
    requires forall i :: 0 <= i < Used(ls, want) ==> ls[i].price <= limit
    ensures Cost(ls, want) <= limit * Filled(ls, want)
  {
    if ls != [] && want > 0 {
      var take := Min(ls[0].size, want);
      assert forall i :: 0 <= i < Used(ls[1..], want - take) ==> ls[1..][i] == ls[i + 1];
      UsedLevelsBoundCost(ls[1..], want - take, limit);
      var rest := Filled(ls[1..], want - take);
      ScaleUp(ls[0].price, limit, take);
      Distribute(limit, take, rest);
    }
  }

  // Scaled dollars the walk pays beyond a limit price, and saves below it.
  function Beyond(ls: seq<Level>, want: nat, limit: int): int {
    if ls == [] || want == 0 then 0
    else var take := Min(ls[0].size, want);
         Max(0, ls[0].price - limit) * take + Beyond(ls[1..], want - take, limit)
  }

  function Below(ls: seq<Level>, want: nat, limit: int): int {
    if ls == [] || want == 0 then 0
    else var take := Min(ls[0].size, want);
         Max(0, limit - ls[0].price) * take + Below(ls[1..], want - take, limit)
  }

  lemma OneLevelAgainst(p: int, limit: int, take: nat, rest: nat)
    ensures p * take + limit * rest
         == limit * (take + rest) + Max(0, p - limit) * take - Max(0, limit - p) * take
  {
    Distribute(limit, take, rest);
    assert p * take == limit * take + (p - limit) * take;
    assert Max(0, limit - p) * take == if p < limit then -((p - limit) * take) else 0;
  }

  // The cost is the limit a share, what is paid beyond it, less what is saved below it.
  lemma {:induction false} CostAgainstLimit(ls: seq<Level>, want: nat, limit: int)
    ensures Cost(ls, want) == limit * Filled(ls, want) + Beyond(ls, want, limit) - Below(ls, want, limit)
  {
    if ls != [] && want > 0 {
      var take := Min(ls[0].size, want);
      CostAgainstLimit(ls[1..], want - take, limit);
      OneLevelAgainst(ls[0].price, limit, take, Filled(ls[1..], want - take));
    }
  }

  lemma QuotientAgainst(cost: int, limit: int, filled: nat, more: int)
    requires 0 < filled && cost == limit * filled + more
    ensures cost / filled <= limit <==> more < filled
    ensures limit <= cost / filled <==> 0 <= more
  {
    var q := cost / filled;
    if limit + 1 <= q { ScaleUp(limit + 1, q, filled); Distribute(filled, limit, 1); }
    if q + 1 <= limit { ScaleUp(q + 1, limit, filled); Distribute(filled, q, 1); }
    if 0 <= more { QuotientIsLargest(limit, cost, filled); }
    if filled <= more {
      Distribute(filled, limit, 1);
      QuotientIsLargest(limit + 1, cost, filled);
    }
  }

  // On which side of a limit the truncated average falls.
  lemma VwapAgainstLimit(ls: seq<Level>, want: nat, limit: int)
    requires 0 < Filled(ls, want)
    ensures Vwap(ls, want) <= limit <==> Beyond(ls, want, limit) < Below(ls, want, limit) + Filled(ls, want)
    ensures limit <= Vwap(ls, want) <==> Below(ls, want, limit) <= Beyond(ls, want, limit)
  {
    CostAgainstLimit(ls, want, limit);
    QuotientAgainst(Cost(ls, want), limit, Filled(ls, want), Beyond(ls, want, limit) - Below(ls, want, limit));
  }
}
