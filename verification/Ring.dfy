// pt_ring: a lock-free queue between one producer and one consumer, as the steps the
// two take: single index loads and stores, and a slot copied byte by byte. Any
// interleaving of those steps is a schedule.

module Ring {
  import opened Types
  import opened Masks

  type Item = seq<bv8>

  // Where the producer is inside a push.
  datatype Producer =
    | Resting
    | HeadLoaded(data: Item, h: nat)
    | FoundFull(held: int)
    | Writing(data: Item, h: nat, done: nat)

  // Where the consumer is inside a pop or a peek.
  datatype Consumer =
    | Waiting
    | TailLoaded(t: nat, peek: bool)
    | Reading(t: nat, peek: bool, got: Item)

  // Shared memory, the two programs, and the history they leave.
  datatype RingState = RingState(
    k: nat, slotSize: nat, buf: seq<Item>, head: nat, tail: nat, dropped: nat,
    producer: Producer, consumer: Consumer,
    attempts: nat, pushed: seq<Item>, popped: seq<Item>, peeked: seq<(nat, Item)>,
    heldAtDrop: seq<int>, heldAtEmpty: seq<int>)

  function Capacity(s: RingState): nat {
    Pow2(s.k)
  }

  // ring_next_: masking keeps the index inside the buffer.
  function Next(s: RingState, i: nat): nat {
    And(i + 1, Pow2(s.k) - 1)
  }

  // pt_ring_len on a pair of loaded indices.
  function LenOf(s: RingState, head: nat, tail: nat): nat {
    MaskedLen(head, tail, Pow2(s.k))
  }

  function Occupied(s: RingState): int {
    |s.pushed| - |s.popped|
  }

  function Fresh(k: nat, slotSize: nat, garbage: seq<Item>): RingState {
    RingState(k, slotSize, garbage, 0, 0, 0, Resting, Waiting, 0, [], [], [], [], [])
  }

  // ------------------------------------------------------------------------- steps

  datatype Choice = StartPush(data: Item) | PushStep | StartPop(peek: bool) | PopStep

  // The slots the two sides are copying exist and are as long as what is copied.
  predicate InBounds(s: RingState) {
    && (s.producer.Writing? ==>
          s.producer.h < |s.buf| && s.producer.done <= |s.producer.data| == |s.buf[s.producer.h]|)
    && (s.consumer.Reading? ==> s.consumer.t < |s.buf| && |s.consumer.got| <= |s.buf[s.consumer.t]|)
  }

  // One atomic step of the producer, inside a push.
  function PushStepped(s: RingState): RingState
    requires InBounds(s)
  {
    match s.producer
    case Resting => s
    case HeadLoaded(data, h) =>
      if Next(s, h) == s.tail then s.(producer := FoundFull(Occupied(s)))
      else s.(producer := Writing(data, h, 0))
    case FoundFull(held) =>
      s.(producer := Resting, dropped := s.dropped + 1, heldAtDrop := s.heldAtDrop + [held])
    case Writing(data, h, done) =>
      if done < |data| then
        s.(producer := Writing(data, h, done + 1), buf := s.buf[h := s.buf[h][done := data[done]]])
      else
        s.(producer := Resting, head := Next(s, h), pushed := s.pushed + [data])
  }

  // One atomic step of the consumer, inside a pop or a peek.
  function PopStepped(s: RingState): RingState
    requires InBounds(s)
  {
    match s.consumer
    case Waiting => s
    case TailLoaded(t, peek) =>
      if t == s.head then s.(consumer := Waiting, heldAtEmpty := s.heldAtEmpty + [Occupied(s)])
      else s.(consumer := Reading(t, peek, []))
    case Reading(t, peek, got) =>
      if |got| < |s.buf[t]| then
        s.(consumer := Reading(t, peek, got + [s.buf[t][|got|]]))
      else if peek then
        s.(consumer := Waiting, peeked := s.peeked + [(|s.popped|, got)])
      else
        s.(consumer := Waiting, tail := Next(s, t), popped := s.popped + [got])
  }

  // The next state under a choice; a choice the programs cannot make changes nothing.
  function Stepped(s: RingState, c: Choice): RingState {
    if !InBounds(s) then s else
    match c
    case StartPush(data) =>
      if s.producer.Resting? && |data| == s.slotSize
      then s.(producer := HeadLoaded(data, s.head), attempts := s.attempts + 1) else s
    case PushStep => PushStepped(s)
    case StartPop(peek) => if s.consumer.Waiting? then s.(consumer := TailLoaded(s.tail, peek)) else s
    case PopStep => PopStepped(s)
  }

  // ---------------------------------------------------------------------- invariant

  // The slots between tail and head hold the items pushed and not yet popped.
  ghost predicate SlotsHold(s: RingState) {
    && |s.buf| == Capacity(s)
    && (forall i :: 0 <= i < |s.buf| ==> |s.buf[i]| == s.slotSize)
    && (forall i :: 0 <= i < |s.pushed| ==> |s.pushed[i]| == s.slotSize)
    && (forall i :: |s.popped| <= i < |s.pushed| ==> s.buf[i % Capacity(s)] == s.pushed[i])
  }

  ghost predicate IndicesMatch(s: RingState) {
    && s.head == |s.pushed| % Capacity(s) && s.tail == |s.popped| % Capacity(s)
    && 0 <= Occupied(s) <= Capacity(s) - 1
  }

  ghost predicate ProducerSound(s: RingState) {
    match s.producer
    case Resting => true
    case HeadLoaded(data, h) => |data| == s.slotSize && h == s.head
    case FoundFull(held) => held == Capacity(s) - 1
    case Writing(data, h, done) =>
      |data| == s.slotSize && h == s.head && done <= |data| && Occupied(s) <= Capacity(s) - 2
      && h < |s.buf| && |s.buf[h]| == |data| && s.buf[h][..done] == data[..done]
  }

  ghost predicate ConsumerSound(s: RingState) {
    match s.consumer
    case Waiting => true
    case TailLoaded(t, peek) => t == s.tail
    case Reading(t, peek, got) =>
      t == s.tail && 0 < Occupied(s) && |got| <= s.slotSize == |s.pushed[|s.popped|]|
      && got == s.pushed[|s.popped|][..|got|]
  }

  // What has been handed out is what was handed in, in order, and no attempt is lost
  // from the count.
  ghost predicate HistorySound(s: RingState) {
    && s.popped <= s.pushed
    && s.attempts == |s.pushed| + s.dropped + (if s.producer.Resting? then 0 else 1)
    && s.dropped == |s.heldAtDrop|
    && (forall i :: 0 <= i < |s.heldAtDrop| ==> s.heldAtDrop[i] == Capacity(s) - 1)
    && (forall i :: 0 <= i < |s.heldAtEmpty| ==> s.heldAtEmpty[i] == 0)
    && (forall i :: 0 <= i < |s.peeked| ==>
          s.peeked[i].0 < |s.pushed| && s.peeked[i].1 == s.pushed[s.peeked[i].0])
  }

  ghost predicate Sound(s: RingState) {
    && 0 < s.k < 64 && 0 < s.slotSize
    && SlotsHold(s) && IndicesMatch(s) && ProducerSound(s) && ConsumerSound(s) && HistorySound(s)
  }

  lemma FreshIsSound(k: nat, slotSize: nat, garbage: seq<Item>)
    requires 0 < k < 64 && 0 < slotSize
    requires |garbage| == Pow2(k) && forall i :: 0 <= i < |garbage| ==> |garbage[i]| == slotSize
    ensures Sound(Fresh(k, slotSize, garbage))
  {
  }

  // ---------------------------------------------------------- every step keeps it

  // Indices a lap apart at most agree exactly when the counters do.
  lemma FullTest(s: RingState)
    requires Sound(s)
    ensures Next(s, s.head) == (|s.pushed| + 1) % Capacity(s)
    ensures Next(s, s.head) == s.tail <==> Occupied(s) == Capacity(s) - 1
  {
    var h, t, cap := |s.pushed|, |s.popped|, Capacity(s);
    MaskIsMod(s.head + 1, s.k);
    NextMod(h, cap);
    if h + 1 < t + cap {
      DistinctSlots(t, h + 1, cap);
    } else {
      ModShift(t, 1, cap);
    }
  }

  lemma EmptyTest(s: RingState)
    requires Sound(s)
    ensures s.tail == s.head <==> Occupied(s) == 0
  {
    if 0 < Occupied(s) {
      DistinctSlots(|s.popped|, |s.pushed|, Capacity(s));
    }
  }

  // The slot being written is none of those that hold items.
  lemma WriteSlotIsFree(s: RingState)
    requires Sound(s) && Occupied(s) <= Capacity(s) - 1
    ensures forall i :: |s.popped| <= i < |s.pushed| ==> i % Capacity(s) != s.head
  {
    forall i | |s.popped| <= i < |s.pushed| ensures i % Capacity(s) != s.head {
      DistinctSlots(i, |s.pushed|, Capacity(s));
    }
  }

  lemma LoadTailKeeps(s: RingState)
    requires Sound(s) && s.producer.HeadLoaded?
    ensures Sound(PushStepped(s))
  {
    FullTest(s);
    var h := s.producer.h;
    assert h < |s.buf|;
    assert s.buf[h][..0] == s.producer.data[..0];
  }

  lemma DropKeeps(s: RingState)
    requires Sound(s) && s.producer.FoundFull?
    ensures Sound(PushStepped(s))
  {
  }

  lemma WriteByteKeeps(s: RingState)
    requires Sound(s) && s.producer.Writing? && s.producer.done < |s.producer.data|
    ensures Sound(PushStepped(s))
  {
    WriteSlotIsFree(s);
    var Writing(data, h, done) := s.producer;
    var slot := s.buf[h][done := data[done]];
    assert slot[..done + 1] == s.buf[h][..done] + [data[done]];
    assert data[..done + 1] == data[..done] + [data[done]];
  }

  lemma PublishKeeps(s: RingState)
    requires Sound(s) && s.producer.Writing? && s.producer.done == |s.producer.data|
    ensures Sound(PushStepped(s))
  {
    FullTest(s);
    var data, h := s.producer.data, s.producer.h;
    assert s.buf[h] == s.buf[h][..|data|] && data == data[..|data|];
    var s' := PushStepped(s);
    assert s'.pushed[|s.popped|..|s.pushed|] == s.pushed[|s.popped|..];
    forall i | |s'.popped| <= i < |s'.pushed| ensures s'.buf[i % Capacity(s)] == s'.pushed[i] {
      if i < |s.pushed| { assert s'.pushed[i] == s.pushed[i]; }
    }
  }

  lemma PushStepKeeps(s: RingState)
    requires Sound(s)
    ensures Sound(PushStepped(s))
  {
    match s.producer
    case Resting =>
    case HeadLoaded(_, _) => LoadTailKeeps(s);
    case FoundFull(_) => DropKeeps(s);
    case Writing(data, _, done) => if done < |data| { WriteByteKeeps(s); } else { PublishKeeps(s); }
  }

  lemma LoadHeadKeeps(s: RingState)
    requires Sound(s) && s.consumer.TailLoaded?
    ensures Sound(PopStepped(s))
  {
    EmptyTest(s);
    if 0 < Occupied(s) { assert s.pushed[|s.popped|][..0] == []; }
  }

  lemma ReadByteKeeps(s: RingState)
    requires Sound(s) && s.consumer.Reading? && |s.consumer.got| < s.slotSize
    ensures Sound(PopStepped(s))
  {
    var got, item := s.consumer.got, s.pushed[|s.popped|];
    assert s.buf[s.tail] == item;
    assert item[..|got| + 1] == item[..|got|] + [item[|got|]];
  }

  lemma TakeKeeps(s: RingState)
    requires Sound(s) && s.consumer.Reading? && |s.consumer.got| == s.slotSize
    ensures Sound(PopStepped(s))
  {
    var got, item := s.consumer.got, s.pushed[|s.popped|];
    assert got == item;
    MaskIsMod(s.tail + 1, s.k);
    NextMod(|s.popped|, Capacity(s));
  }

  lemma PopStepKeeps(s: RingState)
    requires Sound(s)
    ensures Sound(PopStepped(s))
  {
    match s.consumer
    case Waiting =>
    case TailLoaded(_, _) => LoadHeadKeeps(s);
    case Reading(_, _, got) => if |got| < s.slotSize { ReadByteKeeps(s); } else { TakeKeeps(s); }
  }

  lemma StepKeeps(s: RingState, c: Choice)
    requires Sound(s)
    ensures Sound(Stepped(s, c))
  {
    match c
    case PushStep => PushStepKeeps(s);
    case PopStep => PopStepKeeps(s);
    case _ =>
  }

  // ----------------------------------------------------------------- every schedule

  // The state after an interleaving of steps.
  function Scheduled(s: RingState, cs: seq<Choice>): RingState {
    if cs == [] then s else Stepped(Scheduled(s, cs[..|cs| - 1]), cs[|cs| - 1])
  }

  // Any interleaving from a sound state leads through sound states only.
  lemma {:induction false} ScheduledIsSound(s: RingState, cs: seq<Choice>)
    requires Sound(s)
    ensures Sound(Scheduled(s, cs))
    ensures Scheduled(s, cs).k == s.k && Scheduled(s, cs).slotSize == s.slotSize
  {
    if cs != [] {
      var s1 := Scheduled(s, cs[..|cs| - 1]);
      ScheduledIsSound(s, cs[..|cs| - 1]);
      StepKeeps(s1, cs[|cs| - 1]);
    }
  }

  // Over every interleaving of a pusher and a popper: what was popped is a prefix of what
  // was pushed; attempts are successes, drops and the push in progress; every drop found
  // capacity - 1 items when it loaded the tail; every pop or peek that found nothing
  // loaded the head while nothing was held; and at most capacity - 1 are ever held.
  lemma RingIsLinearizable(k: nat, slotSize: nat, garbage: seq<Item>, cs: seq<Choice>)
    requires 0 < k < 64 && 0 < slotSize
    requires |garbage| == Pow2(k) && forall i :: 0 <= i < |garbage| ==> |garbage[i]| == slotSize
    ensures Sound(Fresh(k, slotSize, garbage))
    ensures var s := Scheduled(Fresh(k, slotSize, garbage), cs);
      s.popped <= s.pushed && 0 <= Occupied(s) <= Pow2(k) - 1
      && s.attempts == |s.pushed| + s.dropped + (if s.producer.Resting? then 0 else 1)
      && |s.heldAtDrop| == s.dropped
      && (forall i :: 0 <= i < s.dropped ==> s.heldAtDrop[i] == Pow2(k) - 1)
      && (forall i :: 0 <= i < |s.heldAtEmpty| ==> s.heldAtEmpty[i] == 0)
      && (forall i :: 0 <= i < |s.peeked| ==>
            s.peeked[i].0 < |s.pushed| && s.peeked[i].1 == s.pushed[s.peeked[i].0])
  {
    FreshIsSound(k, slotSize, garbage);
    ScheduledIsSound(Fresh(k, slotSize, garbage), cs);
  }

  // The two sides are never inside the same slot, so no item is read half-written.
  lemma SidesNeverMeet(s: RingState)
    requires Sound(s) && s.producer.Writing? && s.consumer.Reading?
    ensures s.producer.h != s.consumer.t
  {
    DistinctSlots(|s.popped|, |s.pushed|, Capacity(s));
  }

  // Whenever head and tail are loaded together, the masked length is the number of
  // items held.
  lemma LengthIsExact(s: RingState)
    requires Sound(s)
    ensures LenOf(s, s.head, s.tail) == Occupied(s)
  {
    MaskedDistance(|s.pushed|, |s.popped|, s.k);
  }

  // ------------------------------------------------- a length read in two loads

  predicate ProducerMoves(c: Choice) {
    c.StartPush? || c.PushStep?
  }

  predicate ConsumerMoves(c: Choice) {
    c.StartPop? || c.PopStep?
  }

  lemma {:induction false} ProducerRests(s: RingState, cs: seq<Choice>)
    requires forall i :: 0 <= i < |cs| ==> !ProducerMoves(cs[i])
    ensures var s' := Scheduled(s, cs); s'.head == s.head && s'.pushed == s.pushed && s'.producer == s.producer
  {
    if cs != [] { ProducerRests(s, cs[..|cs| - 1]); }
  }

  lemma {:induction false} ConsumerRests(s: RingState, cs: seq<Choice>)
    requires forall i :: 0 <= i < |cs| ==> !ConsumerMoves(cs[i])
    ensures var s' := Scheduled(s, cs); s'.tail == s.tail && s'.popped == s.popped && s'.consumer == s.consumer
  {
    if cs != [] { ConsumerRests(s, cs[..|cs| - 1]); }
  }

  lemma {:induction false} HistoryGrows(s: RingState, cs: seq<Choice>)
    ensures |s.pushed| <= |Scheduled(s, cs).pushed| && |s.popped| <= |Scheduled(s, cs).popped|
  {
    if cs != [] { HistoryGrows(s, cs[..|cs| - 1]); }
  }

  // pt_ring_len: the head is loaded, any steps of either side happen, the tail is loaded.
  function LenAcross(s: RingState, cs: seq<Choice>): nat {
    LenOf(s, s.head, Scheduled(s, cs).tail)
  }

  lemma LenOfCounters(s: RingState, tail: nat, popped: nat)
    requires 0 < s.k < 64 && s.head == |s.pushed| % Capacity(s) && tail == popped % Capacity(s)
    ensures LenOf(s, s.head, tail) == (|s.pushed| - popped) % Capacity(s)
  {
    MaskedDifference(|s.pushed|, popped, s.k);
  }

  lemma TailAfter(s: RingState, cs: seq<Choice>)
    requires Sound(s)
    ensures Scheduled(s, cs).tail == |Scheduled(s, cs).popped| % Capacity(s)
  {
    ScheduledIsSound(s, cs);
  }

  lemma LenAcrossIs(s: RingState, cs: seq<Choice>)
    requires Sound(s)
    ensures LenAcross(s, cs) == (|s.pushed| - |Scheduled(s, cs).popped|) % Capacity(s)
  {
    TailAfter(s, cs);
    LenOfCounters(s, Scheduled(s, cs).tail, |Scheduled(s, cs).popped|);
  }

  // Called from anywhere the length is always a possible one. It is what was pushed before
  // the first load less what was popped before the second, and then at most what is held
  // at either, exactly when the pops in between do not pass the head that was loaded.
  lemma LengthAcross(s: RingState, cs: seq<Choice>)
    requires Sound(s)
    ensures var n, s' := LenAcross(s, cs), Scheduled(s, cs);
      n <= Capacity(s) - 1
      && (n == |s.pushed| - |s'.popped| <==> |s'.popped| <= |s.pushed|)
      && (|s'.popped| <= |s.pushed| ==> n <= Occupied(s) && n <= Occupied(s'))
  {
    LenAcrossIs(s, cs);
    HistoryGrows(s, cs);
    var d := |s.pushed| - |Scheduled(s, cs).popped|;
    if 0 <= d { ModIs(d, 0, d, Capacity(s)); }
  }

  // Called by the producer, which does not push meanwhile, it is exact at the second load;
  // called by the consumer, at the first.
  lemma LengthOnOneSide(s: RingState, cs: seq<Choice>)
    requires Sound(s)
    ensures (forall i :: 0 <= i < |cs| ==> !ProducerMoves(cs[i])) ==> LenAcross(s, cs) == Occupied(Scheduled(s, cs))
    ensures (forall i :: 0 <= i < |cs| ==> !ConsumerMoves(cs[i])) ==> LenAcross(s, cs) == Occupied(s)
  {
    LengthAcross(s, cs);
    HeldAfter(s, cs);
    if forall i :: 0 <= i < |cs| ==> !ProducerMoves(cs[i]) { ProducerRests(s, cs); }
    if forall i :: 0 <= i < |cs| ==> !ConsumerMoves(cs[i]) { ConsumerRests(s, cs); }
  }

  lemma HeldAfter(s: RingState, cs: seq<Choice>)
    requires Sound(s)
    ensures |Scheduled(s, cs).popped| <= |Scheduled(s, cs).pushed| && |s.popped| <= |s.pushed|
  {
    ScheduledIsSound(s, cs);
  }

  ghost predicate Meet(s: RingState, a: seq<Choice>, t: RingState, b: seq<Choice>) {
    Scheduled(s, a) == Scheduled(t, b)
  }

  lemma UnfoldsOnce(s: RingState, cs: seq<Choice>, c: Choice)
    requires cs != [] && cs[|cs| - 1] == c
    ensures Scheduled(s, cs) == Stepped(Scheduled(s, cs[..|cs| - 1]), c)
  {
  }

  // Two schedules that meet still do after one more step.
  lemma BothNext(s: RingState, a: seq<Choice>, t: RingState, b: seq<Choice>)
    requires b != [] && Meet(s, a + b[..|b| - 1], t, b[..|b| - 1])
    ensures Meet(s, a + b, t, b)
  {
    var all, c := a + b, b[|b| - 1];
    assert all[..|all| - 1] == a + b[..|b| - 1] && all[|all| - 1] == c;
    UnfoldsOnce(s, all, c);
    UnfoldsOnce(t, b, c);
  }

  lemma {:induction false} ScheduledInTwo(s: RingState, a: seq<Choice>, m: RingState, b: seq<Choice>)
    requires Meet(s, a, m, [])
    ensures Meet(s, a + b, m, b)
  {
    if b == [] {
      assert a + b == a;
    } else {
      ScheduledInTwo(s, a, m, b[..|b| - 1]);
      BothNext(s, a, m, b);
    }
  }

  lemma OnePushed(s: RingState, data: Item, cs: seq<Choice>) returns (s1: RingState)
    requires Sound(s) && s.producer.Resting? && s.consumer.Waiting? && |data| == s.slotSize && Occupied(s) == 0
    requires cs == [StartPush(data)] + Times(PushStep, |data| + 2)
    ensures s1 == Scheduled(s, cs) && Sound(s1) && s1.consumer.Waiting? && s1.slotSize == s.slotSize
    ensures s1.pushed == s.pushed + [data] && s1.popped == s.popped
  {
    s1 := Scheduled(s, cs);
    PushCallIsScheduled(s, data);
    PushCallAppends(s, data);
    ScheduledIsSound(s, cs);
    ConsumerRests(s, cs);
  }

  lemma OnePopped(s1: RingState, cs: seq<Choice>) returns (s2: RingState)
    requires Sound(s1) && s1.consumer.Waiting? && Occupied(s1) == 1
    requires cs == [StartPop(false)] + Times(PopStep, s1.slotSize + 2)
    ensures s2 == Scheduled(s1, cs) && |s2.pushed| == |s1.pushed| && |s2.popped| == |s1.popped| + 1
  {
    s2 := Scheduled(s1, cs);
    PopCallIsScheduled(s1);
    PopCallTakes(s1);
  }

  lemma OneThrough(s: RingState, data: Item) returns (cs: seq<Choice>)
    requires Sound(s) && s.producer.Resting? && s.consumer.Waiting? && |data| == s.slotSize && Occupied(s) == 0
    ensures var s' := Scheduled(s, cs); |s'.pushed| == |s'.popped| == |s.pushed| + 1
  {
    var a := [StartPush(data)] + Times(PushStep, |data| + 2);
    var b := [StartPop(false)] + Times(PopStep, s.slotSize + 2);
    cs := a + b;
    var s1 := OnePushed(s, data, a);
    var s2 := OnePopped(s1, b);
    ScheduledInTwo(s, a, s1, b);
  }

  // A third caller can be told that a ring is full which never held more than one item: a
  // push and a pop between its loads pass the head it loaded.
  lemma LengthCanWrap(s: RingState, data: Item) returns (cs: seq<Choice>)
    requires Sound(s) && s.producer.Resting? && s.consumer.Waiting? && |data| == s.slotSize
    requires Occupied(s) == 0
    ensures Occupied(Scheduled(s, cs)) == 0 && LenAcross(s, cs) == Capacity(s) - 1
  {
    cs := OneThrough(s, data);
    LenAcrossIs(s, cs);
    ModIs(-1, -1, Capacity(s) - 1, Capacity(s));
  }

  lemma PushCallIsScheduled(s: RingState, data: Item)
    ensures PushCall(s, data) == Scheduled(s, [StartPush(data)] + Times(PushStep, |data| + 2))
    ensures forall c :: c in [StartPush(data)] + Times(PushStep, |data| + 2) ==> !ConsumerMoves(c)
  {
    OneStep(s, StartPush(data));
    AloneIsScheduled(Stepped(s, StartPush(data)), PushStep, |data| + 2);
    ScheduledInTwo(s, [StartPush(data)], Stepped(s, StartPush(data)), Times(PushStep, |data| + 2));
    AllTimes(PushStep, |data| + 2);
  }

  lemma PopCallIsScheduled(s: RingState)
    ensures PopCall(s) == Scheduled(s, [StartPop(false)] + Times(PopStep, s.slotSize + 2))
  {
    OneStep(s, StartPop(false));
    AloneIsScheduled(Stepped(s, StartPop(false)), PopStep, s.slotSize + 2);
    ScheduledInTwo(s, [StartPop(false)], Stepped(s, StartPop(false)), Times(PopStep, s.slotSize + 2));
  }

  lemma OneStep(s: RingState, c: Choice)
    ensures Scheduled(s, [c]) == Stepped(s, c)
  {
    assert [c][..0] == [];
  }

  lemma {:induction false} AllTimes(c: Choice, n: nat)
    ensures forall d :: d in Times(c, n) ==> d == c
  {
    if n > 0 { AllTimes(c, n - 1); }
  }

  // ---------------------------------------------------------------------- progress

  // Steps a push in progress still has to take.
  function PushLeft(s: RingState): nat {
    match s.producer
    case Resting => 0
    case HeadLoaded(data, _) => |data| + 2
    case FoundFull(_) => 1
    case Writing(data, _, done) => if done <= |data| then |data| - done + 1 else 0
  }

  function PushSteps(cs: seq<Choice>): nat {
    if cs == [] then 0 else PushSteps(cs[..|cs| - 1]) + (if cs[|cs| - 1].PushStep? then 1 else 0)
  }

  lemma PushIsBounded(s: RingState)
    requires Sound(s)
    ensures PushLeft(s) <= s.slotSize + 2
  {
  }

  lemma NothingLeft(s: RingState)
    requires InBounds(s) && PushLeft(s) == 0
    ensures s.producer.Resting?
  {
  }

  lemma StepUsesUpPush(s: RingState, c: Choice, left: int)
    requires InBounds(s) && !c.StartPush? && PushLeft(s) <= Max(0, left)
    ensures PushLeft(Stepped(s, c)) <= Max(0, left - if c.PushStep? then 1 else 0)
  {
  }

  lemma ScheduledInBounds(s: RingState, cs: seq<Choice>)
    requires Sound(s)
    ensures InBounds(Scheduled(s, cs))
  {
    ScheduledIsSound(s, cs);
  }

  lemma {:induction false} PushRunsDown(s: RingState, cs: seq<Choice>) returns (s': RingState)
    requires Sound(s) && forall i :: 0 <= i < |cs| ==> !cs[i].StartPush?
    ensures s' == Scheduled(s, cs) && InBounds(s') && PushLeft(s') <= Max(0, PushLeft(s) - PushSteps(cs))
  {
    ScheduledInBounds(s, cs);
    if cs == [] {
      s' := s;
    } else {
      var n := |cs| - 1;
      var s1 := PushRunsDown(s, cs[..n]);
      StepUsesUpPush(s1, cs[n], PushLeft(s) - PushSteps(cs[..n]));
      s' := Stepped(s1, cs[n]);
    }
  }

  // A push is wait-free: it ends within slot size + 2 steps of its own, whatever the
  // consumer does in between.
  lemma PushIsWaitFree(s: RingState, cs: seq<Choice>) returns (s': RingState)
    requires Sound(s) && forall i :: 0 <= i < |cs| ==> !cs[i].StartPush?
    requires s.slotSize + 2 <= PushSteps(cs)
    ensures s' == Scheduled(s, cs) && s'.producer.Resting?
  {
    s' := PushRunsDown(s, cs);
    PushIsBounded(s);
    NothingLeft(s');
  }

  // Steps a pop or a peek in progress still has to take.
  function PopLeft(s: RingState): nat {
    match s.consumer
    case Waiting => 0
    case TailLoaded(_, _) => s.slotSize + 2
    case Reading(_, _, got) => if |got| <= s.slotSize then s.slotSize - |got| + 1 else 1
  }

  function PopSteps(cs: seq<Choice>): nat {
    if cs == [] then 0 else PopSteps(cs[..|cs| - 1]) + (if cs[|cs| - 1].PopStep? then 1 else 0)
  }

  lemma StepUsesUpPop(s: RingState, c: Choice, left: int)
    requires Sound(s) && !c.StartPop? && PopLeft(s) <= Max(0, left)
    ensures PopLeft(Stepped(s, c)) <= Max(0, left - if c.PopStep? then 1 else 0)
  {
  }

  lemma {:induction false} PopRunsDown(s: RingState, cs: seq<Choice>) returns (s': RingState)
    requires Sound(s) && forall i :: 0 <= i < |cs| ==> !cs[i].StartPop?
    ensures s' == Scheduled(s, cs) && Sound(s') && PopLeft(s') <= Max(0, PopLeft(s) - PopSteps(cs))
  {
    ScheduledIsSound(s, cs);
    if cs == [] {
      s' := s;
    } else {
      var n := |cs| - 1;
      var s1 := PopRunsDown(s, cs[..n]);
      StepUsesUpPop(s1, cs[n], PopLeft(s) - PopSteps(cs[..n]));
      s' := Stepped(s1, cs[n]);
    }
  }

  // So is a pop or a peek, whether it finds anything or not and whatever the producer does.
  lemma PopIsWaitFree(s: RingState, cs: seq<Choice>) returns (s': RingState)
    requires Sound(s) && forall i :: 0 <= i < |cs| ==> !cs[i].StartPop?
    requires s.slotSize + 2 <= PopSteps(cs)
    ensures s' == Scheduled(s, cs) && s'.consumer.Waiting?
  {
    s' := PopRunsDown(s, cs);
  }

  // ------------------------------------------------------------ calls run to their end

  // n steps of one kind, nothing in between: one of the interleavings.
  function Alone(s: RingState, c: Choice, n: nat): RingState {
    if n == 0 then s else Stepped(Alone(s, c, n - 1), c)
  }

  function Times(c: Choice, n: nat): (cs: seq<Choice>)
    ensures |cs| == n
  {
    if n == 0 then [] else Times(c, n - 1) + [c]
  }

  lemma {:induction false} AloneIsScheduled(s: RingState, c: Choice, n: nat)
    ensures Alone(s, c, n) == Scheduled(s, Times(c, n))
  {
    if n > 0 {
      AloneIsScheduled(s, c, n - 1);
      assert Times(c, n)[..n - 1] == Times(c, n - 1);
    }
  }

  lemma AloneIsSound(s: RingState, c: Choice, n: nat)
    requires Sound(s)
    ensures Sound(Alone(s, c, n))
  {
    AloneIsScheduled(s, c, n);
    ScheduledIsSound(s, Times(c, n));
  }

  // A call's first step, and the others it needs.
  function PushCall(s: RingState, data: Item): RingState {
    Alone(Stepped(s, StartPush(data)), PushStep, |data| + 2)
  }

  function PopCall(s: RingState): RingState {
    Alone(Stepped(s, StartPop(false)), PopStep, s.slotSize + 2)
  }

  // What a call leaves alone until it ends.
  ghost predicate SameItems(s: RingState, s': RingState) {
    s'.pushed == s.pushed && s'.popped == s.popped && s'.dropped == s.dropped
    && s'.k == s.k && s'.slotSize == s.slotSize
  }

  ghost predicate WritingAt(s: RingState, data: Item, j: nat, s': RingState) {
    s'.producer == Writing(data, s.head, j) && SameItems(s, s')
  }

  lemma StartsWriting(s: RingState, data: Item)
    requires Sound(s) && s.producer.Resting? && |data| == s.slotSize && Occupied(s) < Capacity(s) - 1
    ensures var s1 := Stepped(s, StartPush(data)); Sound(s1) && WritingAt(s, data, 0, Stepped(s1, PushStep))
  {
    StepKeeps(s, StartPush(data));
    FullTest(s);
  }

  lemma WritesOn(s: RingState, data: Item, j: nat, s1: RingState)
    requires Sound(s1) && WritingAt(s, data, j, s1) && j < |data|
    ensures WritingAt(s, data, j + 1, Stepped(s1, PushStep))
  {
  }

  lemma Publishes(s: RingState, data: Item, s1: RingState)
    requires Sound(s1) && WritingAt(s, data, |data|, s1)
    ensures var s2 := Stepped(s1, PushStep);
      s2.producer.Resting? && s2.popped == s.popped && s2.pushed == s.pushed + [data] && s2.dropped == s.dropped
  {
  }

  lemma {:induction false} CopyIn(s: RingState, data: Item, j: nat)
    requires Sound(s) && s.producer.Resting? && |data| == s.slotSize && j <= |data|
    requires Occupied(s) < Capacity(s) - 1
    ensures WritingAt(s, data, j, Alone(Stepped(s, StartPush(data)), PushStep, j + 1))
  {
    StartsWriting(s, data);
    if 0 < j {
      CopyIn(s, data, j - 1);
      AloneIsSound(Stepped(s, StartPush(data)), PushStep, j);
      WritesOn(s, data, j - 1, Alone(Stepped(s, StartPush(data)), PushStep, j));
    }
  }

  // A full ring, as the push that finds it full goes on.
  ghost predicate FullAt(s: RingState, data: Item, j: nat, s': RingState) {
    && s'.pushed == s.pushed && s'.popped == s.popped && s'.k == s.k && s'.head == s.head
    && s'.dropped == s.dropped + (if j < 3 then 0 else 1)
    && s'.producer == if j == 1 then HeadLoaded(data, s.head) else if j == 2 then FoundFull(Occupied(s)) else Resting
  }

  lemma FullStarts(s: RingState, data: Item)
    requires Sound(s) && s.producer.Resting? && |data| == s.slotSize
    ensures Sound(Stepped(s, StartPush(data))) && FullAt(s, data, 1, Stepped(s, StartPush(data)))
  {
    StepKeeps(s, StartPush(data));
  }

  lemma FullOn(s: RingState, data: Item, j: nat, s1: RingState)
    requires Sound(s1) && FullAt(s, data, j, s1) && 1 <= j && Occupied(s) == Capacity(s) - 1
    ensures FullAt(s, data, j + 1, Stepped(s1, PushStep))
  {
    FullTest(s1);
  }

  lemma {:induction false} FullCall(s: RingState, data: Item, j: nat)
    requires Sound(s) && s.producer.Resting? && |data| == s.slotSize && Occupied(s) == Capacity(s) - 1
    ensures FullAt(s, data, j + 1, Alone(Stepped(s, StartPush(data)), PushStep, j))
  {
    FullStarts(s, data);
    if 0 < j {
      FullCall(s, data, j - 1);
      AloneIsSound(Stepped(s, StartPush(data)), PushStep, j - 1);
      FullOn(s, data, j, Alone(Stepped(s, StartPush(data)), PushStep, j - 1));
    }
  }

  // A push that is not interrupted appends its item, unless capacity - 1 are held: then
  // it is dropped and counted.
  lemma PushCallAppends(s: RingState, data: Item)
    requires Sound(s) && s.producer.Resting? && |data| == s.slotSize
    ensures var s', full := PushCall(s, data), Occupied(s) == Capacity(s) - 1;
      s'.producer.Resting? && s'.popped == s.popped
      && s'.pushed == (if full then s.pushed else s.pushed + [data])
      && s'.dropped == s.dropped + (if full then 1 else 0)
  {
    if Occupied(s) < Capacity(s) - 1 {
      CopyIn(s, data, |data|);
      StepKeeps(s, StartPush(data));
      AloneIsSound(Stepped(s, StartPush(data)), PushStep, |data| + 1);
      Publishes(s, data, Alone(Stepped(s, StartPush(data)), PushStep, |data| + 1));
    } else {
      FullCall(s, data, |data| + 2);
    }
  }

  ghost predicate ReadingAt(s: RingState, j: nat, s': RingState) {
    s'.consumer.Reading? && !s'.consumer.peek && |s'.consumer.got| == j && SameItems(s, s')
  }

  lemma StartsReading(s: RingState)
    requires Sound(s) && s.consumer.Waiting? && 0 < Occupied(s)
    ensures var s1 := Stepped(s, StartPop(false)); Sound(s1) && ReadingAt(s, 0, Stepped(s1, PopStep))
  {
    StepKeeps(s, StartPop(false));
    EmptyTest(s);
  }

  lemma ReadsOn(s: RingState, j: nat, s1: RingState)
    requires Sound(s1) && ReadingAt(s, j, s1) && j < s.slotSize
    ensures ReadingAt(s, j + 1, Stepped(s1, PopStep))
  {
    assert |s1.buf[s1.tail]| == s1.slotSize;
  }

  lemma Takes(s: RingState, s1: RingState)
    requires Sound(s1) && ReadingAt(s, s.slotSize, s1)
    ensures var s2 := Stepped(s1, PopStep);
      0 < Occupied(s) && s2.consumer.Waiting? && s2.pushed == s.pushed
      && s2.popped == s.popped + [s.pushed[|s.popped|]]
  {
    var item := s1.pushed[|s1.popped|];
    assert item[..|item|] == item && |s1.buf[s1.tail]| == s1.slotSize;
  }

  lemma {:induction false} CopyOut(s: RingState, j: nat)
    requires Sound(s) && s.consumer.Waiting? && 0 < Occupied(s) && j <= s.slotSize
    ensures ReadingAt(s, j, Alone(Stepped(s, StartPop(false)), PopStep, j + 1))
  {
    StartsReading(s);
    if 0 < j {
      CopyOut(s, j - 1);
      AloneIsSound(Stepped(s, StartPop(false)), PopStep, j);
      ReadsOn(s, j - 1, Alone(Stepped(s, StartPop(false)), PopStep, j));
    }
  }

  // A pop that is not interrupted takes the oldest item, if there is one.
  lemma PopCallTakes(s: RingState)
    requires Sound(s) && s.consumer.Waiting? && 0 < Occupied(s)
    ensures var s' := PopCall(s);
      s'.consumer.Waiting? && s'.pushed == s.pushed && s'.popped == s.popped + [s.pushed[|s.popped|]]
  {
    CopyOut(s, s.slotSize);
    StepKeeps(s, StartPop(false));
    AloneIsSound(Stepped(s, StartPop(false)), PopStep, s.slotSize + 1);
    Takes(s, Alone(Stepped(s, StartPop(false)), PopStep, s.slotSize + 1));
  }

  // ------------------------------------------------ the calls, one thread at a time

  // Slot of the i-th item after t have been taken.
  function SlotOf(t: nat, i: nat, cap: nat): (slot: nat)
    requires 0 < cap
    ensures slot < cap
  {
    (t + i) % cap
  }

  // The same structure used from one thread: slots in place, FIFO contents.
  class RingBuffer {
    const k: nat
    const slots: array<Item>
    var head: nat
    var tail: nat
    var dropped: nat
    ghost var contents: seq<Item>
    ghost var taken: nat

    ghost predicate Valid()
      reads this, slots
    {
      && 0 < k < 64 && slots.Length == Pow2(k) && |contents| <= Pow2(k) - 1
      && tail == taken % Pow2(k) && head == (taken + |contents|) % Pow2(k)
      && forall i :: 0 <= i < |contents| ==> slots[SlotOf(taken, i, Pow2(k))] == contents[i]
    }

    constructor (k: nat, blank: Item)
      requires 0 < k < 64
      ensures Valid() && contents == [] && dropped == 0 && this.k == k && fresh(slots)
    {
      ModIs(0, 0, 0, Pow2(k));
      this.k := k;
      slots := new Item[Pow2(k)](_ => blank);
      head, tail, dropped := 0, 0, 0;
      contents, taken := [], 0;
    }

    method Push(data: Item) returns (ok: bool)
      requires Valid()
      modifies this, slots
      ensures Valid() && ok == (|old(contents)| < Pow2(k) - 1)
      ensures contents == if ok then old(contents) + [data] else old(contents)
      ensures dropped == old(dropped) + if ok then 0 else 1
    {
      var cap, count := Pow2(k), taken + |contents|;
      MaskIsMod(head + 1, k);
      NextMod(count, cap);
      NextIsTail(taken, |contents|, cap);
      var next := And(head + 1, slots.Length - 1);
      if next == tail {
        dropped := dropped + 1;
        return false;
      }
      forall i | 0 <= i < |contents| ensures SlotOf(taken, i, cap) != head {
        DistinctSlots(taken + i, count, cap);
      }
      slots[head] := data;
      head := next;
      contents := contents + [data];
      return true;
    }

    method Pop() returns (item: Option<Item>)
      requires Valid()
      modifies this
      ensures Valid() && dropped == old(dropped)
      ensures item == if old(contents) == [] then None else Some(old(contents)[0])
      ensures contents == if old(contents) == [] then [] else old(contents)[1..]
    {
      var cap := Pow2(k);
      if contents != [] { DistinctSlots(taken, taken + |contents|, cap); }
      if tail == head { return None; }
      item := Some(slots[tail]);
      MaskIsMod(tail + 1, k);
      NextMod(taken, cap);
      tail := And(tail + 1, slots.Length - 1);
      contents, taken := contents[1..], taken + 1;
    }

    method Peek() returns (item: Option<Item>)
      requires Valid()
      ensures item == if contents == [] then None else Some(contents[0])
    {
      if contents != [] { DistinctSlots(taken, taken + |contents|, Pow2(k)); }
      if tail == head { return None; }
      item := Some(slots[tail]);
    }

    method Len() returns (n: nat)
      requires Valid()
      ensures n == |contents|
    {
      MaskedDistance(taken + |contents|, taken, k);
      n := MaskedLen(head, tail, slots.Length);
    }

    method Free() returns (n: int)
      requires Valid()
      ensures n == Pow2(k) - 1 - |contents| && n >= 0
    {
      var len := Len();
      n := slots.Length - 1 - len;
    }
  }

  lemma NextIsTail(t: nat, n: nat, cap: nat)
    requires 0 < cap && n <= cap - 1
    ensures (t + n + 1) % cap == t % cap <==> n == cap - 1
  {
    if n + 1 < cap {
      DistinctSlots(t, t + n + 1, cap);
    } else {
      ModShift(t, 1, cap);
    }
  }
}
