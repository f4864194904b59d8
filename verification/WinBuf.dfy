// pt_winbuf: a circular buffer of timestamped samples with window aggregates. Once it
// is full it behaves as a bounded list of the newest samples.

module WinBuf {
  import opened Types

  datatype Sample = Sample(t: nat, v: real)

  // Arrays, next write slot and number of samples, as values.
  datatype WState = WState(slots: seq<Sample>, head: nat, count: nat) {
    ghost predicate Shape() {
      0 < |slots| && head < |slots| && count <= |slots|
    }

    // The slot taken for the k-th newest sample.
    function Slot(k: nat): nat
      requires 0 < |slots| && k < count
    {
      (head + count - 1 - k) % |slots|
    }

    ghost predicate Full() {
      Shape() && count == |slots|
    }
  }

  // ------------------------------------------------------------------------- adding

  function Stored(w: WState, t: nat, v: real): WState
    requires w.Shape()
  {
    w.(slots := w.slots[w.head := Sample(t, v)], head := (w.head + 1) % |w.slots|,
       count := if w.count == |w.slots| then w.count else w.count + 1)
  }

  function Added(w: WState, t: nat, v: real): WState
    requires w.Shape()
  {
    if w.count == 0 then Stored(w, t, v)
    else
      var latest := w.Slot(0);
      if t <= w.slots[latest].t then w.(slots := w.slots[latest := w.slots[latest].(v := v)])
      else Stored(w, t, v)
  }

  // The same on a list, oldest first: times never go back, an equal time replaces the
  // newest value, a later one drops the oldest sample.
  function ListAdded(s: seq<Sample>, t: nat, v: real): seq<Sample>
    requires s != []
  {
    var newest := s[|s| - 1];
    if t <= newest.t then s[|s| - 1 := newest.(v := v)] else s[1..] + [Sample(t, v)]
  }

  // Samples of a full buffer, oldest first.
  ghost function Samples(w: WState): (s: seq<Sample>)
    requires w.Full()
    ensures |s| == w.count
    ensures forall i :: 0 <= i < |s| ==> s[i] == w.slots[(w.head + i) % |w.slots|]
  {
    seq(w.count, i requires 0 <= i < w.count => w.slots[(w.head + i) % |w.slots|])
  }

  ghost predicate Ordered(s: seq<Sample>) {
    forall i, j :: 0 <= i < j < |s| ==> s[i].t <= s[j].t
  }

  function Wrapped(i: nat, cap: nat): nat
    requires 0 < cap && i < 2 * cap
  {
    if i < cap then i else i - cap
  }

  lemma WrappedIs(i: nat, cap: nat)
    requires 0 < cap && i < 2 * cap
    ensures i % cap == Wrapped(i, cap)
  {
    if i < cap { SmallMod(i, cap); } else { LapMod(i, cap); }
  }

  lemma SmallMod(i: nat, cap: nat)
    requires i < cap
    ensures i % cap == i
  {
  }

  lemma LapMod(i: nat, cap: nat)
    requires 0 < cap <= i < 2 * cap
    ensures i % cap == i - cap
  {
    assert i == 1 * cap + (i - cap);
  }

  lemma SlotsWrap(w: WState)
    requires w.Full()
    ensures forall i {:trigger Samples(w)[i]} :: 0 <= i < w.count ==>
      Samples(w)[i] == w.slots[Wrapped(w.head + i, |w.slots|)]
    ensures w.Slot(0) == Wrapped(w.head + w.count - 1, |w.slots|)
  {
    forall i | 0 <= i < w.count ensures Samples(w)[i] == w.slots[Wrapped(w.head + i, |w.slots|)] {
      WrappedIs(w.head + i, |w.slots|);
    }
    WrappedIs(w.head + w.count - 1, |w.slots|);
  }

  lemma ReplacingRefinesList(w: WState, v: real)
    requires w.Full()
    ensures var i := w.Slot(0);
      var w', s := w.(slots := w.slots[i := w.slots[i].(v := v)]), Samples(w);
      w'.Full() && Samples(w') == s[|s| - 1 := s[|s| - 1].(v := v)] && w.slots[i] == s[|s| - 1]
  {
    var i := w.Slot(0);
    var w' := w.(slots := w.slots[i := w.slots[i].(v := v)]);
    SlotsWrap(w);
    SlotsWrap(w');
  }

  lemma StoringRefinesList(w: WState, t: nat, v: real)
    requires w.Full()
    ensures var w' := Stored(w, t, v); w'.Full() && Samples(w') == Samples(w)[1..] + [Sample(t, v)]
  {
    var w', cap := Stored(w, t, v), |w.slots|;
    SlotsWrap(w);
    WrappedIs(w.head + 1, cap);
    SlotsWrap(w');
    var s := Samples(w);
    forall i | 0 <= i < cap ensures Samples(w')[i] == (s[1..] + [Sample(t, v)])[i] {
      if i + 1 < cap { assert s[1..][i] == s[i + 1]; }
    }
    assert Samples(w') == s[1..] + [Sample(t, v)];
  }

  // Adding to a full buffer is adding to the list, and leaves it full.
  lemma AddRefinesList(w: WState, t: nat, v: real)
    requires w.Full()
    ensures var w' := Added(w, t, v); w'.Full() && Samples(w') == ListAdded(Samples(w), t, v)
  {
    ReplacingRefinesList(w, v);
    StoringRefinesList(w, t, v);
  }

  lemma AddKeepsOrder(s: seq<Sample>, t: nat, v: real)
    requires s != [] && Ordered(s)
    ensures Ordered(ListAdded(s, t, v)) && |ListAdded(s, t, v)| == |s|
  {
  }

  function AddedAll(w: WState, adds: seq<Sample>): (w': WState)
    requires w.Shape()
    ensures w'.Shape()
  {
    if adds == [] then w
    else Added(AddedAll(w, adds[..|adds| - 1]), adds[|adds| - 1].t, adds[|adds| - 1].v)
  }

  function ListAddedAll(s: seq<Sample>, adds: seq<Sample>): (s': seq<Sample>)
    requires s != []
    ensures |s'| == |s|
  {
    if adds == [] then s
    else ListAdded(ListAddedAll(s, adds[..|adds| - 1]), adds[|adds| - 1].t, adds[|adds| - 1].v)
  }

  // Over any run of adds a full buffer stays full, is the list, and stays in time order.
  lemma {:induction false} AddsRefineList(w: WState, adds: seq<Sample>)
    requires w.Full()
    ensures var w' := AddedAll(w, adds);
      w'.Full() && Samples(w') == ListAddedAll(Samples(w), adds)
      && (Ordered(Samples(w)) ==> Ordered(Samples(w')))
  {
    if adds != [] {
      var n := |adds| - 1;
      AddsRefineList(w, adds[..n]);
      AddRefinesList(AddedAll(w, adds[..n]), adds[n].t, adds[n].v);
      if Ordered(Samples(w)) { AddKeepsOrder(Samples(AddedAll(w, adds[..n])), adds[n].t, adds[n].v); }
    }
  }

  // ------------------------------------------------------------------- while filling

  // The slot written last is the one before the next write; the slot the code compares
  // new samples with is that one exactly when the buffer is full.
  lemma LatestIsNewestWhenFull(w: WState)
    requires w.Shape() && 0 < w.count && (w.count < |w.slots| ==> w.head == w.count)
    ensures w.Slot(0) == Wrapped(w.head + |w.slots| - 1, |w.slots|) <==> w.count == |w.slots|
  {
    WrappedIs(w.head + w.count - 1, |w.slots|);
  }

  // --------------------------------------------------------------------- aggregating

  datatype WinAgg = WinAgg(sum: real, min: real, max: real, first: real, last: real,
                           firstT: nat, lastT: nat, count: nat)

  // One more sample, older than those aggregated so far.
  function Include(a: Option<WinAgg>, x: Sample): WinAgg {
    if a == None then WinAgg(x.v, x.v, x.v, x.v, x.v, x.t, x.t, 1)
    else
      var b := a.value;
      b.(sum := b.sum + x.v, min := if x.v < b.min then x.v else b.min,
         max := if x.v > b.max then x.v else b.max, first := x.v, firstT := x.t, count := b.count + 1)
  }

  // The scan: newest to oldest, past the future samples, up to the first that is too old.
  function Scan(xs: seq<Sample>, lo: nat, now: nat, a: Option<WinAgg>): Option<WinAgg> {
    if xs == [] then a
    else if xs[0].t > now then Scan(xs[1..], lo, now, a)
    else if xs[0].t <= lo then a
    else Scan(xs[1..], lo, now, Some(Include(a, xs[0])))
  }

  // Samples in the order in which the scan meets them.
  function Scanned(w: WState): (xs: seq<Sample>)
    requires w.Shape()
    ensures |xs| == w.count
    ensures forall k :: 0 <= k < |xs| ==> xs[k] == w.slots[w.Slot(k)]
  {
    seq(w.count, k requires 0 <= k < w.count => w.slots[w.Slot(k)])
  }

  function WindowStart(now: nat, dur: nat): nat {
    if now > dur then now - dur else 0
  }

  function Aggregate(w: WState, now: nat, dur: nat): Option<WinAgg>
    requires w.Shape()
  {
    if dur == 0 then None else Scan(Scanned(w), WindowStart(now, dur), now, None)
  }

  // What an aggregate ought to be: over exactly the samples with lo < t <= now.
  function InWindow(s: seq<Sample>, lo: nat, now: nat): seq<Sample> {
    if s == [] then []
    else
      var x := s[|s| - 1];
      InWindow(s[..|s| - 1], lo, now) + (if lo < x.t <= now then [x] else [])
  }

  // The window holds what is not in the future and less than its duration old.
  lemma WindowMeans(t: nat, now: nat, dur: nat)
    ensures WindowStart(now, dur) < t <= now <==> 0 < t <= now < t + dur
  {
  }

  function Sum(s: seq<Sample>): real {
    if s == [] then 0.0 else s[0].v + Sum(s[1..])
  }

  ghost predicate IsAggregate(a: WinAgg, s: seq<Sample>) {
    && s != [] && a.count == |s| && a.sum == Sum(s)
    && a.first == s[0].v && a.firstT == s[0].t && a.last == s[|s| - 1].v && a.lastT == s[|s| - 1].t
    && (forall i :: 0 <= i < |s| ==> a.min <= s[i].v <= a.max)
    && (exists i :: 0 <= i < |s| && s[i].v == a.min) && (exists i :: 0 <= i < |s| && s[i].v == a.max)
  }

  ghost predicate Describes(a: Option<WinAgg>, s: seq<Sample>) {
    if s == [] then a == None else a.Some? && IsAggregate(a.value, s)
  }

  lemma IncludeDescribes(a: Option<WinAgg>, s: seq<Sample>, x: Sample)
    requires Describes(a, s)
    ensures Describes(Some(Include(a, x)), [x] + s)
  {
    var ys, b := [x] + s, Include(a, x);
    assert ys[1..] == s && ys[0] == x;
    if s != [] {
      var i :| 0 <= i < |s| && s[i].v == a.value.min;
      var j :| 0 <= j < |s| && s[j].v == a.value.max;
      assert ys[i + 1].v == a.value.min && ys[j + 1].v == a.value.max;
      forall k | 0 <= k < |ys| ensures b.min <= ys[k].v <= b.max {
        if k > 0 { assert ys[k] == s[k - 1]; }
      }
    }
  }

  lemma {:induction false} NothingOldInWindow(s: seq<Sample>, lo: nat, now: nat)
    requires forall i :: 0 <= i < |s| ==> s[i].t <= lo
    ensures InWindow(s, lo, now) == []
  {
    if s != [] { NothingOldInWindow(s[..|s| - 1], lo, now); }
  }

  // The same samples, newest first.
  ghost predicate Backwards(xs: seq<Sample>, s: seq<Sample>) {
    |xs| == |s| && forall k :: 0 <= k < |xs| ==> xs[k] == s[|s| - 1 - k]
  }

  lemma WindowNext(s: seq<Sample>, lo: nat, now: nat, newer: seq<Sample>)
    requires s != []
    ensures var x, older := s[|s| - 1], InWindow(s[..|s| - 1], lo, now);
      InWindow(s, lo, now) + newer == if lo < x.t <= now then older + ([x] + newer) else older + newer
  {
  }

  // In time order the scan's early stop loses nothing.
  lemma {:induction false} ScanDescribes(s: seq<Sample>, xs: seq<Sample>, lo: nat, now: nat,
                                         a: Option<WinAgg>, newer: seq<Sample>)
    requires Ordered(s) && Backwards(xs, s) && Describes(a, newer)
    ensures Describes(Scan(xs, lo, now, a), InWindow(s, lo, now) + newer)
  {
    if s == [] {
      assert InWindow(s, lo, now) + newer == newer;
    } else {
      var n := |s| - 1;
      var x := s[n];
      WindowNext(s, lo, now, newer);
      if x.t > now {
        ScanDescribes(s[..n], xs[1..], lo, now, a, newer);
      } else if x.t <= lo {
        NothingOldInWindow(s, lo, now);
        assert [] + newer == newer;
      } else {
        IncludeDescribes(a, newer, x);
        ScanDescribes(s[..n], xs[1..], lo, now, Some(Include(a, x)), [x] + newer);
      }
    }
  }

  lemma ScansBackwards(w: WState)
    requires w.Full()
    ensures Backwards(Scanned(w), Samples(w))
  {
    var s, xs := Samples(w), Scanned(w);
    SlotsWrap(w);
    forall k | 0 <= k < w.count ensures xs[k] == s[w.count - 1 - k] {
      WrappedIs(w.head + w.count - 1 - k, |w.slots|);
    }
  }

  // On a full buffer in time order, the aggregate is that of the window's samples.
  lemma AggregateIsWindow(w: WState, now: nat, dur: nat)
    requires w.Full() && Ordered(Samples(w)) && 0 < dur
    ensures Describes(Aggregate(w, now, dur), InWindow(Samples(w), WindowStart(now, dur), now))
  {
    var s, lo := Samples(w), WindowStart(now, dur);
    ScansBackwards(w);
    ScanDescribes(s, Scanned(w), lo, now, None, []);
    assert InWindow(s, lo, now) + [] == InWindow(s, lo, now);
  }

  // ---------------------------------------------------------- filling and aggregating

  // A buffer as adds from the start leave it: the next write follows the samples.
  ghost predicate Reachable(w: WState) {
    w.Shape() && (w.count < |w.slots| ==> w.head == w.count)
  }

  // The samples written, oldest first.
  ghost function Written(w: WState): seq<Sample>
    requires Reachable(w)
  {
    if w.count == |w.slots| then Samples(w) else w.slots[..w.count]
  }

  ghost predicate AggregateIsRight(w: WState, now: nat, dur: nat)
    requires Reachable(w)
  {
    Describes(Aggregate(w, now, dur), InWindow(Written(w), WindowStart(now, dur), now))
  }

  // Every run of adds from an empty buffer stays in that shape.
  lemma {:induction false} AddsStayReachable(w: WState, adds: seq<Sample>)
    requires Reachable(w)
    ensures Reachable(AddedAll(w, adds))
  {
    if adds != [] {
      var w' := AddedAll(w, adds[..|adds| - 1]);
      AddsStayReachable(w, adds[..|adds| - 1]);
      if w'.head + 1 < |w'.slots| { SmallMod(w'.head + 1, |w'.slots|); }
    }
  }

  // A sample inside the window can be overlooked: here the only one is.
  lemma FillingMissesSample()
    ensures var blank := Sample(0, 0.0);
      var w := Added(WState([blank, blank, blank, blank], 0, 0), 10, 1.0);
      Aggregate(w, 10, 5) == None && w.slots[0] == Sample(10, 1.0)
  {
    var blank := Sample(0, 0.0);
    var w := Added(WState([blank, blank, blank, blank], 0, 0), 10, 1.0);
    assert w == WState([Sample(10, 1.0), blank, blank, blank], 1, 1);
    assert Scanned(w)[0] == blank;
  }

  // What the slots hold is older than anything added.
  ghost predicate Older(slots: seq<Sample>, adds: seq<Sample>) {
    forall i, j :: 0 <= i < |slots| && 0 <= j < |adds| ==> slots[i].t < adds[j].t
  }

  // And times go up strictly.
  ghost predicate FreshTimes(slots: seq<Sample>, adds: seq<Sample>) {
    Older(slots, adds) && forall i, j :: 0 <= i < j < |adds| ==> adds[i].t < adds[j].t
  }

  // A buffer that has taken these adds, one slot each.
  ghost predicate FilledWith(slots: seq<Sample>, adds: seq<Sample>, w: WState) {
    && 0 < |slots| == |w.slots| && |adds| <= |slots| && w.count == |adds| && w.head == Wrapped(|adds|, |slots|)
    && (forall i :: 0 <= i < |slots| ==> w.slots[i] == if i < |adds| then adds[i] else slots[i])
  }

  lemma OneSlotMore(slots: seq<Sample>, adds: seq<Sample>, w: WState, x: Sample)
    requires |adds| < |slots| && FilledWith(slots, adds, w) && FreshTimes(slots, adds + [x])
    ensures w.Shape() && FilledWith(slots, adds + [x], Added(w, x.t, x.v))
  {
    var all := adds + [x];
    WrappedIs(|adds| + 1, |slots|);
    assert all[|adds|] == x;
    if w.count > 0 {
      var latest := w.Slot(0);
      if latest < |adds| { assert w.slots[latest] == all[latest]; }
      assert w.slots[latest].t < x.t;
    }
  }

  lemma {:induction false} FillingKeepsAdds(w: WState, adds: seq<Sample>)
    requires w.Shape() && w.head == 0 == w.count && |adds| <= |w.slots| && FreshTimes(w.slots, adds)
    ensures FilledWith(w.slots, adds, AddedAll(w, adds))
  {
    if adds != [] {
      var n := |adds| - 1;
      assert adds == adds[..n] + [adds[n]];
      FillingKeepsAdds(w, adds[..n]);
      OneSlotMore(w.slots, adds[..n], AddedAll(w, adds[..n]), adds[n]);
    }
  }

  // From an empty buffer, as many adds as it has slots, at such times, leave it full of
  // exactly those samples in time order.
  lemma FillingReachesList(w: WState, adds: seq<Sample>)
    requires w.Shape() && w.head == 0 == w.count && |adds| == |w.slots| && FreshTimes(w.slots, adds)
    ensures var w' := AddedAll(w, adds); w'.Full() && Samples(w') == adds && Ordered(adds)
  {
    FillingKeepsAdds(w, adds);
    var w' := AddedAll(w, adds);
    SlotsWrap(w');
    assert Samples(w') == adds;
  }

  // From a full buffer in time order on, after any further adds, the aggregate is that of
  // the bounded list's samples in the window.
  lemma RunAggregates(w: WState, more: seq<Sample>, now: nat, dur: nat)
    requires w.Full() && Ordered(Samples(w)) && 0 < dur
    ensures Describes(Aggregate(AddedAll(w, more), now, dur),
                      InWindow(ListAddedAll(Samples(w), more), WindowStart(now, dur), now))
  {
    AddsRefineList(w, more);
    AggregateIsWindow(AddedAll(w, more), now, dur);
  }

  // --------------------------------------------------- when the aggregate is right

  ghost predicate AlwaysRight(w: WState)
    requires Reachable(w)
  {
    forall now: nat, dur: nat :: 0 < dur ==> AggregateIsRight(w, now, dur)
  }

  function CountOf(a: Option<WinAgg>): nat {
    if a == None then 0 else a.value.count
  }

  lemma {:induction false} InsideCounts(s: seq<Sample>, lo: nat, now: nat, i: nat)
    requires i < |s| && lo < s[i].t <= now
    ensures 0 < |InWindow(s, lo, now)|
  {
    if i < |s| - 1 { InsideCounts(s[..|s| - 1], lo, now, i); }
  }

  // A scan stopped by a sample that came after a later one counts too few.
  lemma {:induction false} ScanLoses(s: seq<Sample>, xs: seq<Sample>, lo: nat, now: nat, a: Option<WinAgg>,
                                     i: nat, j: nat)
    requires Backwards(xs, s) && i < j < |s| && s[j].t <= lo < s[i].t <= now
    ensures CountOf(Scan(xs, lo, now, a)) < CountOf(a) + |InWindow(s, lo, now)|
  {
    var n := |s| - 1;
    if s[n].t <= lo {
      InsideCounts(s, lo, now, i);
    } else {
      ScanLoses(s[..n], xs[1..], lo, now, if s[n].t > now then a else Some(Include(a, s[n])), i, j);
    }
  }

  lemma DisorderShows(w: WState, i: nat, j: nat)
    requires w.Full() && i < j < |w.slots| && Samples(w)[j].t < Samples(w)[i].t
    ensures !AlwaysRight(w)
  {
    var s := Samples(w);
    var lo, now := s[j].t, s[i].t;
    ScansBackwards(w);
    ScanLoses(s, Scanned(w), lo, now, None, i, j);
    assert WindowStart(now, now - lo) == lo;
    assert !AggregateIsRight(w, now, now - lo);
  }

  // A full buffer aggregates every window rightly exactly when it is in time order.
  lemma FullExactness(w: WState)
    requires w.Full()
    ensures AlwaysRight(w) <==> Ordered(Samples(w))
  {
    if Ordered(Samples(w)) {
      forall now: nat, dur: nat | 0 < dur ensures AggregateIsRight(w, now, dur) {
        AggregateIsWindow(w, now, dur);
      }
    } else {
      var s := Samples(w);
      var i: nat, j: nat :| i < j < |s| && s[j].t < s[i].t;
      DisorderShows(w, i, j);
    }
  }

  // While it fills from these slots, those not written are as they were, and what is
  // written is later.
  ghost predicate Filling(slots: seq<Sample>, w: WState) {
    && w.Shape() && |w.slots| == |slots|
    && (w.count < |slots| ==>
          && w.head == w.count
          && (forall i :: w.count <= i < |slots| ==> w.slots[i] == slots[i])
          && (forall i, j :: 0 <= i < w.count && 0 <= j < |slots| ==> slots[j].t < w.slots[i].t))
  }

  lemma FillingNext(slots: seq<Sample>, w: WState, x: Sample)
    requires Filling(slots, w) && Older(slots, [x])
    ensures Filling(slots, Added(w, x.t, x.v)) && 0 < Added(w, x.t, x.v).count
  {
    assert [x][0] == x;
    if w.head + 1 < |slots| { SmallMod(w.head + 1, |slots|); }
  }

  lemma {:induction false} AddsFill(w: WState, adds: seq<Sample>)
    requires w.Shape() && w.head == 0 == w.count && Older(w.slots, adds)
    ensures Filling(w.slots, AddedAll(w, adds)) && (adds != [] ==> 0 < AddedAll(w, adds).count)
  {
    if adds != [] {
      var n := |adds| - 1;
      AddsFill(w, adds[..n]);
      FillingNext(w.slots, AddedAll(w, adds[..n]), adds[n]);
    }
  }

  // A scan counts all it meets only if it ends at the last.
  lemma {:induction false} ScanEndsLast(xs: seq<Sample>, lo: nat, now: nat, a: Option<WinAgg>)
    requires xs != []
    ensures var r := Scan(xs, lo, now, a);
      CountOf(r) < CountOf(a) + |xs| || (r.Some? && r.value.firstT == xs[|xs| - 1].t)
  {
    if |xs| > 1 && (lo < xs[0].t || xs[0].t > now) {
      ScanEndsLast(xs[1..], lo, now, if xs[0].t > now then a else Some(Include(a, xs[0])));
    }
  }

  lemma {:induction false} AllInWindow(s: seq<Sample>, lo: nat, now: nat)
    requires forall i :: 0 <= i < |s| ==> lo < s[i].t <= now
    ensures InWindow(s, lo, now) == s
  {
    if s != [] {
      AllInWindow(s[..|s| - 1], lo, now);
      assert s == s[..|s| - 1] + [s[|s| - 1]];
    }
  }

  lemma OlderEndIsWrong(xs: seq<Sample>, s: seq<Sample>, lo: nat, now: nat)
    requires |xs| == |s| && xs != [] && xs[|xs| - 1].t < s[0].t
    ensures !Describes(Scan(xs, lo, now, None), s)
  {
    ScanEndsLast(xs, lo, now, None);
  }

  // While it fills, the last slot scanned is the one that is written next.
  lemma UnwrittenIsLast(w: WState)
    requires w.Shape() && 0 < w.count < |w.slots| && w.head == w.count
    ensures Scanned(w)[w.count - 1] == w.slots[w.count]
  {
    SmallMod(w.head, |w.slots|);
  }

  lemma UnwrittenShows(slots: seq<Sample>, w: WState, now: nat, dur: nat)
    requires Filling(slots, w) && 0 < w.count < |w.slots| && 0 < dur
    requires forall i :: 0 <= i < w.count ==> WindowStart(now, dur) < w.slots[i].t <= now
    ensures Reachable(w) && !AggregateIsRight(w, now, dur)
  {
    var lo, written := WindowStart(now, dur), w.slots[..w.count];
    AllInWindow(written, lo, now);
    UnwrittenIsLast(w);
    assert slots[w.count].t < written[0].t;
    OlderEndIsWrong(Scanned(w), written, lo, now);
  }

  // So after any adds that leave it filling, in whatever order they came, every window
  // that holds all it has is aggregated wrongly.
  lemma FillingIsWrong(w: WState, adds: seq<Sample>, now: nat, dur: nat)
    requires w.Shape() && w.head == 0 == w.count && adds != [] && Older(w.slots, adds)
    requires var w' := AddedAll(w, adds);
      !w'.Full() && 0 < dur
      && forall i :: 0 <= i < w'.count ==> WindowStart(now, dur) < w'.slots[i].t <= now
    ensures var w' := AddedAll(w, adds); Reachable(w') && !AggregateIsRight(w', now, dur)
  {
    AddsFill(w, adds);
    UnwrittenShows(w.slots, AddedAll(w, adds), now, dur);
  }

  lemma {:induction false} SomeTimeIsLatest(s: seq<Sample>) returns (now: nat)
    ensures forall i :: 0 <= i < |s| ==> s[i].t <= now
  {
    now := 0;
    if s != [] {
      now := SomeTimeIsLatest(s[1..]);
      assert forall i :: 1 <= i < |s| ==> s[i] == s[1..][i - 1];
      if now < s[0].t { now := s[0].t; }
    }
  }

  lemma FillingIsNotRight(w: WState, adds: seq<Sample>)
    requires w.Shape() && w.head == 0 == w.count && adds != [] && Older(w.slots, adds)
    requires !AddedAll(w, adds).Full()
    ensures Reachable(AddedAll(w, adds)) && !AlwaysRight(AddedAll(w, adds))
  {
    var w' := AddedAll(w, adds);
    AddsFill(w, adds);
    var now := SomeTimeIsLatest(w'.slots);
    assert w.slots[0].t < w'.slots[0].t <= now;
    FillingIsWrong(w, adds, now, now);
    assert !AggregateIsRight(w', now, now);
  }

  // Whatever is added, and in whatever order, to an empty buffer that holds nothing as
  // late: its aggregate is that of its samples, for every window, exactly when nothing was
  // added, or it is full and in time order.
  lemma AggregateExactness(w: WState, adds: seq<Sample>)
    requires w.Shape() && w.head == 0 == w.count && Older(w.slots, adds)
    ensures var w' := AddedAll(w, adds);
      Reachable(w') && (AlwaysRight(w') <==> adds == [] || (w'.Full() && Ordered(Samples(w'))))
  {
    var w' := AddedAll(w, adds);
    AddsStayReachable(w, adds);
    if w'.Full() { FullExactness(w'); } else if adds != [] { FillingIsNotRight(w, adds); }
  }

  lemma TwoAdds(w: WState, x: Sample, y: Sample)
    requires w.Shape()
    ensures AddedAll(w, [x, y]) == Added(Added(w, x.t, x.v), y.t, y.v)
  {
    assert [x, y][..1] == [x] && [x][..0] == [];
    assert AddedAll(w, [x]) == Added(w, x.t, x.v);
  }

  lemma LateSampleKept(w: WState, blank: Sample, adds: seq<Sample>)
    requires w == WState([blank, blank], 0, 0) && |adds| == 2 && blank.t < adds[1].t
    ensures AddedAll(w, adds) == WState(adds, 0, 2)
  {
    TwoAdds(w, adds[0], adds[1]);
    assert Added(w, adds[0].t, adds[0].v) == WState([adds[0], blank], 1, 1);
    assert [adds[0], adds[1]] == adds;
  }

  lemma LateSampleFills(w: WState, blank: Sample, adds: seq<Sample>) returns (w': WState)
    requires w == WState([blank, blank], 0, 0) && |adds| == 2 && blank.t < adds[1].t
    ensures w' == AddedAll(w, adds) && w'.Full() && Samples(w') == adds
  {
    LateSampleKept(w, blank, adds);
    w' := WState(adds, 0, 2);
    assert Samples(w') == adds;
  }

  lemma LatePairHides(w: WState, s: seq<Sample>)
    requires w.Full() && |s| == 2 && Samples(w) == s && s[1].t < s[0].t
    ensures Aggregate(w, s[0].t, s[0].t - s[1].t) == None && !AggregateIsRight(w, s[0].t, s[0].t - s[1].t)
  {
    ScansBackwards(w);
    assert Scanned(w)[0] == s[1];
    InsideCounts(s, s[1].t, s[0].t, 0);
  }

  // It can be full and out of order: of two blank slots the second is still blank when the
  // second sample is compared with it, so a late one is not held back, and hides the first.
  lemma FullCanBeWrong(w: WState, blank: Sample, adds: seq<Sample>) returns (w': WState)
    requires w == WState([blank, blank], 0, 0) && |adds| == 2 && blank.t < adds[1].t < adds[0].t
    ensures w' == AddedAll(w, adds) && w'.Full() && Samples(w') == adds
    ensures var now, dur := adds[0].t, adds[0].t - adds[1].t;
      Aggregate(w', now, dur) == None && !AggregateIsRight(w', now, dur)
  {
    w' := LateSampleFills(w, blank, adds);
    LatePairHides(w', adds);
  }

  // Contents as late as what is added take its value instead of a slot: here the second
  // sample is not counted.
  lemma LateContentsTakeAdd(w: WState, x: Sample, y: Sample)
    requires w.head == 0 == w.count && |w.slots| == 2 && y.t <= w.slots[1].t
    ensures AddedAll(w, [x, y]) == WState([x, Sample(w.slots[1].t, y.v)], 1, 1)
  {
    TwoAdds(w, x, y);
    assert Added(w, x.t, x.v) == WState([x, w.slots[1]], 1, 1);
  }

  lemma OneMoreAdd(w: WState, adds: seq<Sample>, x: Sample, all: seq<Sample>)
    requires w.Shape() && all == adds + [x]
    ensures AddedAll(w, all) == Added(AddedAll(w, adds), x.t, x.v)
  {
    assert all[..|adds|] == adds;
  }

  lemma {:induction false} AddsInTwo(w: WState, a: seq<Sample>, b: seq<Sample>)
    requires w.Shape()
    ensures AddedAll(w, a + b) == AddedAll(AddedAll(w, a), b)
  {
    if b == [] {
      assert a + b == a;
    } else {
      var n := |b| - 1;
      AddsInTwo(w, a, b[..n]);
      assert a + b == a + b[..n] + [b[n]];
      OneMoreAdd(w, a + b[..n], b[n], a + b);
    }
  }

  lemma FilledStaysFull(w: WState, first: seq<Sample>, more: seq<Sample>, all: seq<Sample>) returns (w': WState)
    requires w.Shape() && w.head == 0 == w.count && |w.slots| == |first| && FreshTimes(w.slots, first)
    requires all == first + more
    ensures w' == AddedAll(w, all) && w'.Full() && Ordered(Samples(w'))
  {
    FillingReachesList(w, first);
    AddsRefineList(AddedAll(w, first), more);
    AddsInTwo(w, first, more);
    w' := AddedAll(AddedAll(w, first), more);
  }

  // Adds in time order leave a full buffer in time order, when there are enough.
  lemma InOrderFills(w: WState, adds: seq<Sample>)
    requires w.Shape() && w.head == 0 == w.count && FreshTimes(w.slots, adds)
    ensures var w' := AddedAll(w, adds);
      if |w.slots| <= |adds| then w'.Full() && Ordered(Samples(w')) else !w'.Full()
  {
    if |w.slots| <= |adds| {
      var w' := FilledStaysFull(w, adds[..|w.slots|], adds[|w.slots|..], adds);
    } else {
      FillingKeepsAdds(w, adds);
    }
  }

  // So after adds in time order it is right exactly when there were none or enough to fill
  // it.
  lemma InOrderExactness(w: WState, adds: seq<Sample>)
    requires w.Shape() && w.head == 0 == w.count && FreshTimes(w.slots, adds)
    ensures Reachable(AddedAll(w, adds))
    ensures AlwaysRight(AddedAll(w, adds)) <==> adds == [] || |w.slots| <= |adds|
  {
    AggregateExactness(w, adds);
    InOrderFills(w, adds);
  }

  // ----------------------------------------------------------------------- the class

  class WindowBuffer {
    const t: array<nat>
    const v: array<real>
    var head: nat
    var count: nat

    ghost predicate Valid()
      reads this
    {
      0 < t.Length == v.Length && head < t.Length && count <= t.Length
    }

    ghost function State(): (w: WState)
      requires Valid()
      reads this, t, v
      ensures w.Shape()
    {
      WState(seq(t.Length, i requires 0 <= i < t.Length reads t, v => Sample(t[i], v[i])), head, count)
    }

    // The arrays come as the allocator leaves them.
    constructor (cap: nat)
      requires 0 < cap
      ensures Valid() && head == 0 && count == 0 && t.Length == cap && fresh(t) && fresh(v)
    {
      t, v := new nat[cap], new real[cap];
      head, count := 0, 0;
    }

    method Reset()
      requires Valid()
      modifies this
      ensures Valid() && State() == old(State()).(head := 0, count := 0)
    {
      head, count := 0, 0;
    }

    method Add(time: nat, value: real)
      requires Valid()
      modifies this, t, v
      ensures Valid() && State() == Added(old(State()), time, value)
    {
      var tt := time;
      if count > 0 {
        var latest := (head + count - 1) % t.Length;
        if tt < t[latest] { tt := t[latest]; }
        if tt == t[latest] {
          v[latest] := value;
          return;
        }
      }
      t[head], v[head] := tt, value;
      head := (head + 1) % t.Length;
      if count < t.Length { count := count + 1; }
    }

    method Agg(now: nat, dur: nat) returns (out: Option<WinAgg>)
      requires Valid()
      ensures out == Aggregate(State(), now, dur)
    {
      out := None;
      if dur == 0 { return; }
      var lo := if now > dur then now - dur else 0;
      ghost var xs := Scanned(State());
      assert xs[0..] == xs;
      var k := 0;
      while k < count
        invariant k <= count && Scan(xs, lo, now, None) == Scan(xs[k..], lo, now, out)
      {
        var i := (head + count - 1 - k) % t.Length;
        assert xs[k] == Sample(t[i], v[i]) && xs[k..][1..] == xs[k + 1..];
        if t[i] <= now {
          if t[i] <= lo { break; }
          out := Some(Include(out, Sample(t[i], v[i])));
        }
        k := k + 1;
      }
    }
  }
}
