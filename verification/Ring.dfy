/** The single-producer single-consumer ring under every interleaving of the two threads'
    micro-steps. Each side reads the other's counter through a view that may be stale but
    never goes backwards; words wrap; a write and a read each take two micro-steps, so that a
    race would show as both being in progress on one slot. */
module Rings {
  import opened Types
  import opened Words

  datatype Producer<T> =
    | PIdle
    | PTailLoaded(value: T, tail: nat)
    | PRoom(value: T, tail: nat)
    | PWriting(value: T, tail: nat)
    | PWritten(value: T, tail: nat)

  datatype Consumer<T> =
    | CIdle
    | CHeadLoaded(head: nat)
    | CReady(head: nat)
    | CReading(head: nat)
    | CRead(head: nat, value: T)

  /** `head`, `tail` and `dropped` are the words in memory; a slot is None while it holds no
      initialised value. `accepted` and `popped` are the histories of published pushes and
      pops; `headSeen` and `tailSeen` are how far each side's view of the other has come. */
  datatype Ring<T> = Ring(
    k: nat, buf: seq<Option<T>>, head: nat, tail: nat, dropped: nat,
    producer: Producer<T>, consumer: Consumer<T>,
    accepted: seq<T>, popped: seq<T>, headSeen: nat, tailSeen: nat, refused: nat)
  {
    function Capacity(): nat { Pow2(k) }

    function Index(counter: nat): nat { And(counter, Pow2(k) - 1) }
  }

  datatype Micro<T> =
    | LoadOwnTail(value: T)
    | LoadHead(view: nat)
    | BeginWrite
    | EndWrite
    | PublishTail
    | LoadOwnHead
    | LoadTail(view: nat)
    | BeginRead
    | EndRead
    | PublishHead

  function LogCapacity(requested: nat): nat {
    if LogAtLeast(requested, 0) == 0 then 1 else LogAtLeast(requested, 0)
  }

  /** next_power_of_two, but at least two. */
  lemma CapacityIs(requested: nat)
    ensures Pow2(LogCapacity(requested)) == (if NextPowerOfTwo(requested) >= 2 then NextPowerOfTwo(requested) else 2)
  {
    assert Pow2(1) == 2;
    var k := LogAtLeast(requested, 0);
    if k > 0 { assert Pow2(k) == 2 * Pow2(k - 1); }
  }

  function InitRing<T>(requested: nat): Ring<T> {
    var k := LogCapacity(requested);
    Ring(k, seq(Pow2(k), _ => None), 0, 0, 0, PIdle, CIdle, [], [], 0, 0, 0)
  }

  /** One micro-step; a step whose turn it is not, or a view that is not possible, is no step. */
  function Next<T>(r: Ring<T>, m: Micro<T>): Ring<T> {
    match m
    case LoadOwnTail(value) =>
      if r.producer.PIdle? then r.(producer := PTailLoaded(value, r.tail)) else r
    case LoadHead(view) =>
      if r.producer.PTailLoaded? && r.headSeen <= view <= |r.popped| && r.producer.tail < WORD then
        if WrappingSub(r.producer.tail, view % WORD) >= r.Capacity()
        then r.(dropped := WrappingAdd(r.dropped, 1), refused := r.refused + 1, producer := PIdle, headSeen := view)
        else r.(producer := PRoom(r.producer.value, r.producer.tail), headSeen := view)
      else r
    case BeginWrite =>
      if r.producer.PRoom? && r.Index(r.producer.tail) < |r.buf| then
        r.(buf := r.buf[r.Index(r.producer.tail) := None], producer := PWriting(r.producer.value, r.producer.tail))
      else r
    case EndWrite =>
      if r.producer.PWriting? && r.Index(r.producer.tail) < |r.buf| then
        r.(buf := r.buf[r.Index(r.producer.tail) := Some(r.producer.value)],
           producer := PWritten(r.producer.value, r.producer.tail))
      else r
    case PublishTail =>
      if r.producer.PWritten? then
        r.(tail := WrappingAdd(r.producer.tail, 1), accepted := r.accepted + [r.producer.value], producer := PIdle)
      else r
    case LoadOwnHead =>
      if r.consumer.CIdle? then r.(consumer := CHeadLoaded(r.head)) else r
    case LoadTail(view) =>
      if r.consumer.CHeadLoaded? && r.tailSeen <= view <= |r.accepted| then
        if r.consumer.head == view % WORD
        then r.(consumer := CIdle, tailSeen := view)
        else r.(consumer := CReady(r.consumer.head), tailSeen := view)
      else r
    case BeginRead =>
      if r.consumer.CReady? then r.(consumer := CReading(r.consumer.head)) else r
    case EndRead =>
      if r.consumer.CReading? && r.Index(r.consumer.head) < |r.buf| && r.buf[r.Index(r.consumer.head)].Some? then
        r.(consumer := CRead(r.consumer.head, r.buf[r.Index(r.consumer.head)].value))
      else r
    case PublishHead =>
      if r.consumer.CRead? then
        r.(head := WrappingAdd(r.consumer.head, 1), popped := r.popped + [r.consumer.value], consumer := CIdle)
      else r
  }

  function Interleave<T>(r: Ring<T>, ms: seq<Micro<T>>): Ring<T> {
    if ms == [] then r else Next(Interleave(r, ms[..|ms| - 1]), ms[|ms| - 1])
  }

  // The invariant, in terms of the unbounded counters H = |popped| and T = |accepted|.

  ghost predicate CountersOk<T>(r: Ring<T>) {
    && 1 <= r.k < BITS && |r.buf| == r.Capacity()
    && r.head == |r.popped| % WORD && r.tail == |r.accepted| % WORD && r.dropped == r.refused % WORD
    && |r.popped| <= r.tailSeen <= |r.accepted|
    && r.headSeen <= |r.popped| && |r.accepted| <= r.headSeen + r.Capacity()
  }

  ghost predicate ContentsOk<T>(r: Ring<T>)
    requires CountersOk(r)
  {
    && r.popped == r.accepted[..|r.popped|]
    && forall i :: |r.popped| <= i < |r.accepted| ==> r.buf[i % r.Capacity()] == Some(r.accepted[i])
  }

  ghost predicate ProducerOk<T>(r: Ring<T>)
    requires CountersOk(r)
  {
    && (!r.producer.PIdle? ==> r.producer.tail == |r.accepted| % WORD)
    && (r.producer.PRoom? || r.producer.PWriting? || r.producer.PWritten? ==>
          |r.accepted| < r.headSeen + r.Capacity())
    && (r.producer.PWritten? ==> r.buf[|r.accepted| % r.Capacity()] == Some(r.producer.value))
  }

  ghost predicate ConsumerOk<T>(r: Ring<T>)
    requires CountersOk(r)
  {
    && (!r.consumer.CIdle? ==> r.consumer.head == |r.popped| % WORD)
    && (r.consumer.CReady? || r.consumer.CReading? || r.consumer.CRead? ==> |r.popped| < r.tailSeen)
    && (r.consumer.CRead? ==> r.consumer.value == r.accepted[|r.popped|])
  }

  ghost predicate RingOk<T>(r: Ring<T>) {
    CountersOk(r) && ContentsOk(r) && ProducerOk(r) && ConsumerOk(r)
  }

  lemma {:induction false} Pow2Monotone(a: nat, b: nat)
    requires a <= b
    ensures Pow2(a) <= Pow2(b)
  {
    if a < b { Pow2Monotone(a, b - 1); }
  }

  /** What the wrapped arithmetic means: the mask is mod capacity, and capacity < word. */
  lemma CapacityFacts<T>(r: Ring<T>)
    requires CountersOk(r)
    ensures 2 <= r.Capacity() < WORD
    ensures r.Index(|r.accepted| % WORD) == |r.accepted| % r.Capacity()
    ensures r.Index(|r.popped| % WORD) == |r.popped| % r.Capacity()
  {
    WordIsPow2();
    Pow2Monotone(1, r.k);
    Pow2Monotone(r.k, BITS - 1);
    assert Pow2(1) == 2 && Pow2(BITS) == 2 * Pow2(BITS - 1);
    SlotIndex(|r.accepted|, r.k);
    SlotIndex(|r.popped|, r.k);
  }

  /** The occupancy test and the emptiness test on wrapped words decide exactly what they
      should about the counters seen. */
  lemma TestsAreExact<T>(r: Ring<T>, headView: nat, tailView: nat)
    requires CountersOk(r) && r.headSeen <= headView <= |r.popped| && r.tailSeen <= tailView <= |r.accepted|
    ensures WrappingSub(r.tail, headView % WORD) == |r.accepted| - headView
    ensures r.head == tailView % WORD <==> |r.popped| == tailView
  {
    CapacityFacts(r);
    WrappedDistance(|r.accepted|, headView);
    WrappedEqual(tailView, |r.popped|);
  }

  lemma InitRingOk<T>(requested: nat)
    requires LogCapacity(requested) < BITS
    ensures RingOk(InitRing<T>(requested))
  {
  }

  lemma ProducerStepOk<T>(r: Ring<T>, m: Micro<T>)
    requires RingOk(r) && (m.LoadOwnTail? || m.LoadHead? || m.BeginWrite? || m.EndWrite? || m.PublishTail?)
    ensures RingOk(Next(r, m))
  {
    CapacityFacts(r);
    var cap, t := r.Capacity(), |r.accepted|;
    match m
    case LoadHead(view) =>
      if r.headSeen <= view <= |r.popped| {
        TestsAreExact(r, view, r.tailSeen);
        WrappedIncrement(r.refused);
      }
    case BeginWrite =>
      if r.producer.PRoom? { OthersUntouched(r); }
    case EndWrite =>
      if r.producer.PWriting? { OthersUntouched(r); }
    case PublishTail => WrappedIncrement(t);
    case _ =>
  }

  /** The slot the producer is entitled to write holds no unread value. */
  lemma OthersUntouched<T>(r: Ring<T>)
    requires CountersOk(r) && |r.accepted| < r.headSeen + r.Capacity()
    ensures forall i :: |r.popped| <= i < |r.accepted| ==> i % r.Capacity() != |r.accepted| % r.Capacity()
  {
    forall i | |r.popped| <= i < |r.accepted| ensures i % r.Capacity() != |r.accepted| % r.Capacity() {
      DistinctSlots(i, |r.accepted|, r.Capacity());
    }
  }

  lemma ConsumerStepOk<T>(r: Ring<T>, m: Micro<T>)
    requires RingOk(r) && (m.LoadOwnHead? || m.LoadTail? || m.BeginRead? || m.EndRead? || m.PublishHead?)
    ensures RingOk(Next(r, m))
  {
    CapacityFacts(r);
    match m
    case LoadTail(view) =>
      if r.tailSeen <= view <= |r.accepted| { TestsAreExact(r, r.headSeen, view); }
    case PublishHead =>
      WrappedIncrement(|r.popped|);
      if r.consumer.CRead? {
        assert r.accepted[..|r.popped|] + [r.accepted[|r.popped|]] == r.accepted[..|r.popped| + 1];
      }
    case _ =>
  }

  lemma StepKeepsOk<T>(r: Ring<T>, m: Micro<T>)
    requires RingOk(r)
    ensures RingOk(Next(r, m))
  {
    if m.LoadOwnTail? || m.LoadHead? || m.BeginWrite? || m.EndWrite? || m.PublishTail? {
      ProducerStepOk(r, m);
    } else {
      ConsumerStepOk(r, m);
    }
  }

  lemma {:induction false} InterleavingOk<T>(requested: nat, ms: seq<Micro<T>>)
    requires LogCapacity(requested) < BITS
    ensures RingOk(Interleave(InitRing(requested), ms))
  {
    if ms == [] {
      InitRingOk<T>(requested);
    } else {
      var n := |ms| - 1;
      InterleavingOk(requested, ms[..n]);
      var r := Interleave(InitRing(requested), ms[..n]);
      StepKeepsOk(r, ms[n]);
    }
  }

  // What it gives the two threads.

  /** No race: the producer never touches the slot the consumer is about to read or reading,
      nor any slot holding a value not yet popped. */
  lemma NoRace<T>(requested: nat, ms: seq<Micro<T>>)
    requires LogCapacity(requested) < BITS
    ensures var r := Interleave(InitRing(requested), ms);
            r.producer.PRoom? || r.producer.PWriting? ==>
              && (r.consumer.CReady? || r.consumer.CReading? ==> r.Index(r.producer.tail) != r.Index(r.consumer.head))
              && forall i :: |r.popped| <= i < |r.accepted| ==> r.Index(r.producer.tail) != i % r.Capacity()
  {
    InterleavingOk(requested, ms);
    var r := Interleave(InitRing(requested), ms);
    CapacityFacts(r);
    if r.producer.PRoom? || r.producer.PWriting? { OthersUntouched(r); }
  }

  /** No uninitialised read: a slot being read holds exactly the oldest value not yet popped,
      and every slot index either thread computes is inside the buffer. */
  lemma ReadsInitialised<T>(requested: nat, ms: seq<Micro<T>>)
    requires LogCapacity(requested) < BITS
    ensures var r := Interleave(InitRing(requested), ms);
            && (!r.producer.PIdle? ==> r.Index(r.producer.tail) < |r.buf|)
            && (!r.consumer.CIdle? ==> r.Index(r.consumer.head) < |r.buf|)
            && (r.consumer.CReady? || r.consumer.CReading? ==>
                  |r.popped| < |r.accepted| && r.buf[r.Index(r.consumer.head)] == Some(r.accepted[|r.popped|]))
  {
    InterleavingOk(requested, ms);
    CapacityFacts(Interleave(InitRing(requested), ms));
  }

  /** The values in flight, oldest first. */
  function InFlight<T>(r: Ring<T>): seq<T>
    requires |r.popped| <= |r.accepted|
  {
    r.accepted[|r.popped|..]
  }

  /** First in, first out: popped values are a prefix of accepted ones, accepted = popped + in
      flight, never more in flight than the capacity, and the drop counter counts refusals. */
  lemma FifoOrder<T>(requested: nat, ms: seq<Micro<T>>)
    requires LogCapacity(requested) < BITS
    ensures var r := Interleave(InitRing(requested), ms);
            && |r.popped| <= |r.accepted|
            && r.accepted == r.popped + InFlight(r)
            && |InFlight(r)| <= r.Capacity()
            && r.dropped == r.refused % WORD
  {
    InterleavingOk(requested, ms);
  }

  /** What a single micro-step does to the values in flight. */
  ghost predicate QueueStep<T>(r: Ring<T>, m: Micro<T>, r': Ring<T>) {
    && |r.popped| <= |r.accepted| && |r'.popped| <= |r'.accepted|
    && if m.PublishTail? && r.producer.PWritten? then
         InFlight(r') == InFlight(r) + [r.producer.value] && |InFlight(r)| < r.Capacity()
       else if m.PublishHead? && r.consumer.CRead? then
         InFlight(r) == [r.consumer.value] + InFlight(r')
       else
         InFlight(r') == InFlight(r)
  }

  lemma StepIsQueueStep<T>(r: Ring<T>, m: Micro<T>)
    requires RingOk(r) && RingOk(Next(r, m))
    ensures QueueStep(r, m, Next(r, m))
  {
  }

  /** The ring refines a queue: publishing a pop takes the oldest value in flight, publishing a
      push appends the value pushed, and no other micro-step is visible. */
  lemma RefinesQueue<T>(requested: nat, ms: seq<Micro<T>>, m: Micro<T>)
    requires LogCapacity(requested) < BITS
    ensures var r := Interleave(InitRing(requested), ms);
            QueueStep(r, m, Next(r, m))
  {
    InterleavingOk(requested, ms);
    var r := Interleave(InitRing(requested), ms);
    StepKeepsOk(r, m);
    StepIsQueueStep(r, m);
  }

  /** A push is refused exactly when the queue is full as the producer sees it, and a pop finds
      nothing exactly when the queue is empty as the consumer sees it. */
  lemma RefusalsAreExact<T>(requested: nat, ms: seq<Micro<T>>, view: nat)
    requires LogCapacity(requested) < BITS
    ensures var r := Interleave(InitRing(requested), ms);
            && (r.producer.PTailLoaded? && r.headSeen <= view <= |r.popped| ==>
                  (Next(r, LoadHead(view)).producer.PIdle? <==> |r.accepted| - view == r.Capacity()))
            && (r.consumer.CHeadLoaded? && r.tailSeen <= view <= |r.accepted| ==>
                  (Next(r, LoadTail(view)).consumer.CIdle? <==> view == |r.popped|))
  {
    InterleavingOk(requested, ms);
    var r := Interleave(InitRing(requested), ms);
    CapacityFacts(r);
    if r.producer.PTailLoaded? && r.headSeen <= view <= |r.popped| { TestsAreExact(r, view, r.tailSeen); }
    if r.consumer.CHeadLoaded? && r.tailSeen <= view <= |r.accepted| { TestsAreExact(r, r.headSeen, view); }
  }

  // What was pushed, told from the calls alone.

  /** The pushes of the producer: the value its present call offers, if a call is under way, the
      values of earlier calls that succeeded, in order, and how many calls were refused. */
  datatype Calls<T> = Calls(offered: Option<T>, succeeded: seq<T>, refused: nat)

  /** How one micro-step moves the calls. A call offers its value when the producer is free; it
      is refused when as many values as the capacity are unread as far as it can see; it
      succeeds when it is published. */
  function Call<T>(c: Calls<T>, r: Ring<T>, m: Micro<T>): Calls<T> {
    match m
    case LoadOwnTail(value) =>
      if c.offered == None then c.(offered := Some(value)) else c
    case LoadHead(view) =>
      if r.producer.PTailLoaded? && r.headSeen <= view <= |r.popped| && |c.succeeded| - view >= r.Capacity()
      then c.(offered := None, refused := c.refused + 1)
      else c
    case PublishTail =>
      if r.producer.PWritten? && c.offered.Some?
      then c.(offered := None, succeeded := c.succeeded + [c.offered.value])
      else c
    case _ => c
  }

  function CallsOf<T>(requested: nat, ms: seq<Micro<T>>): Calls<T> {
    if ms == [] then Calls(None, [], 0)
    else
      var n := |ms| - 1;
      Call(CallsOf(requested, ms[..n]), Interleave(InitRing(requested), ms[..n]), ms[n])
  }

  /** The producer is free exactly when no call is under way, holds exactly the value offered,
      and the ring's histories are those of the calls. */
  ghost predicate CallsAgree<T>(c: Calls<T>, r: Ring<T>) {
    && (r.producer.PIdle? <==> c.offered == None)
    && (!r.producer.PIdle? ==> c.offered == Some(r.producer.value))
    && r.accepted == c.succeeded && r.refused == c.refused
  }

  lemma CallStep<T>(c: Calls<T>, r: Ring<T>, m: Micro<T>)
    requires RingOk(r) && CallsAgree(c, r)
    ensures CallsAgree(Call(c, r, m), Next(r, m))
  {
    CapacityFacts(r);
    if m.LoadHead? && r.headSeen <= m.view <= |r.popped| { TestsAreExact(r, m.view, r.tailSeen); }
  }

  /** For every interleaving: a push in progress holds the very value its call offered, and the
      values accepted are, in order, those of the calls that were not refused. */
  lemma {:induction false} AcceptedIsOffered<T>(requested: nat, ms: seq<Micro<T>>)
    requires LogCapacity(requested) < BITS
    ensures CallsAgree(CallsOf(requested, ms), Interleave(InitRing(requested), ms))
    decreases |ms|
  {
    if ms != [] {
      var n := |ms| - 1;
      AcceptedIsOffered(requested, ms[..n]);
      InterleavingOk(requested, ms[..n]);
      CallStep(CallsOf(requested, ms[..n]), Interleave(InitRing(requested), ms[..n]), ms[n]);
    }
  }

  // Calls run to the end.

  lemma Then<T>(r: Ring<T>, ms: seq<Micro<T>>, m: Micro<T>)
    ensures Interleave(r, ms + [m]) == Next(Interleave(r, ms), m)
  {
    assert (ms + [m])[..|ms|] == ms;
  }

  function PushSteps<T>(value: T, view: nat): seq<Micro<T>> {
    [LoadOwnTail(value), LoadHead(view), BeginWrite, EndWrite, PublishTail]
  }

  function PopSteps<T>(view: nat): seq<Micro<T>> {
    [LoadOwnHead, LoadTail(view), BeginRead, EndRead, PublishHead]
  }

  lemma FiveSteps<T>(r: Ring<T>, ms: seq<Micro<T>>)
    requires |ms| == 5
    ensures Interleave(r, ms) == Next(Next(Next(Next(Next(r, ms[0]), ms[1]), ms[2]), ms[3]), ms[4])
  {
    Then(r, [], ms[0]);
    Then(r, [ms[0]], ms[1]);
    Then(r, [ms[0], ms[1]], ms[2]);
    Then(r, [ms[0], ms[1], ms[2]], ms[3]);
    Then(r, [ms[0], ms[1], ms[2], ms[3]], ms[4]);
    assert [] + [ms[0]] == [ms[0]] && [ms[0]] + [ms[1]] == [ms[0], ms[1]];
    assert [ms[0], ms[1]] + [ms[2]] == [ms[0], ms[1], ms[2]];
    assert [ms[0], ms[1], ms[2]] + [ms[3]] == [ms[0], ms[1], ms[2], ms[3]];
    assert [ms[0], ms[1], ms[2], ms[3]] + [ms[4]] == ms;
  }

  lemma WriteOut<T>(r: Ring<T>, value: T)
    requires CountersOk(r) && r.producer == PRoom(value, r.tail)
    ensures var r' := Next(Next(Next(r, BeginWrite), EndWrite), PublishTail);
            && r'.producer == PIdle && r'.popped == r.popped && r'.consumer == r.consumer
            && r'.accepted == r.accepted + [value] && r'.refused == r.refused
  {
    CapacityFacts(r);
    var r3 := Next(r, BeginWrite);
    assert r3.producer == PWriting(value, r.tail) && |r3.buf| == |r.buf|;
    var r4 := Next(r3, EndWrite);
    assert r4.producer == PWritten(value, r.tail);
  }

  lemma OfferSeen<T>(r: Ring<T>, value: T, view: nat) returns (r': Ring<T>)
    requires RingOk(r) && r.producer.PIdle? && r.headSeen <= view <= |r.popped|
    ensures r' == Next(Next(r, LoadOwnTail(value)), LoadHead(view)) && CountersOk(r') && r'.tail == r.tail
    ensures r'.popped == r.popped && r'.consumer == r.consumer && r'.accepted == r.accepted
    ensures if |r.accepted| - view == r.Capacity() then r'.producer == PIdle && r'.refused == r.refused + 1
            else r'.producer == PRoom(value, r.tail) && r'.refused == r.refused
  {
    var r1 := Next(r, LoadOwnTail(value));
    r' := Next(r1, LoadHead(view));
    CapacityFacts(r);
    TestsAreExact(r, view, r.tailSeen);
    StepKeepsOk(r, LoadOwnTail(value));
    StepKeepsOk(r1, LoadHead(view));
  }

  /** In any reachable state a push that runs through appends its value, or is refused and
      counted if as far as it can see the ring is full; either way the producer is free again
      and nothing popped or being popped has changed. */
  lemma PushCompletes<T>(r: Ring<T>, value: T, view: nat) returns (r': Ring<T>)
    requires RingOk(r) && r.producer.PIdle? && r.headSeen <= view <= |r.popped|
    ensures r' == Interleave(r, PushSteps(value, view))
    ensures r'.producer.PIdle? && r'.popped == r.popped && r'.consumer == r.consumer
    ensures if |r.accepted| - view == r.Capacity()
            then r'.accepted == r.accepted && r'.refused == r.refused + 1
            else r'.accepted == r.accepted + [value] && r'.refused == r.refused
  {
    var r2 := OfferSeen(r, value, view);
    r' := Next(Next(Next(r2, BeginWrite), EndWrite), PublishTail);
    if r2.producer.PRoom? { WriteOut(r2, value); }
    FiveSteps(r, PushSteps(value, view));
  }

  lemma ReadOut<T>(r: Ring<T>)
    requires RingOk(r) && r.consumer == CReady(r.head) && |r.popped| < |r.accepted|
    ensures var r' := Next(Next(Next(r, BeginRead), EndRead), PublishHead);
            && r'.consumer == CIdle && r'.accepted == r.accepted && r'.producer == r.producer
            && r'.popped == r.popped + [r.accepted[|r.popped|]]
  {
    CapacityFacts(r);
    var r3 := Next(r, BeginRead);
    assert r3.consumer == CReading(r.head) && r3.buf == r.buf && r3.k == r.k;
    assert Next(r3, EndRead).consumer == CRead(r.head, r.accepted[|r.popped|]);
  }

  lemma PopSeen<T>(r: Ring<T>, view: nat) returns (r': Ring<T>)
    requires RingOk(r) && r.consumer.CIdle? && r.tailSeen <= view <= |r.accepted|
    ensures r' == Next(Next(r, LoadOwnHead), LoadTail(view)) && RingOk(r') && r'.head == r.head
    ensures r'.accepted == r.accepted && r'.producer == r.producer && r'.popped == r.popped
    ensures r'.consumer == if view == |r.popped| then CIdle else CReady(r.head)
  {
    var r1 := Next(r, LoadOwnHead);
    r' := Next(r1, LoadTail(view));
    TestsAreExact(r, r.headSeen, view);
    StepKeepsOk(r, LoadOwnHead);
    StepKeepsOk(r1, LoadTail(view));
  }

  /** And a pop that runs through takes the oldest value in flight, or nothing when as far as it
      can see there is none. */
  lemma PopCompletes<T>(r: Ring<T>, view: nat) returns (r': Ring<T>)
    requires RingOk(r) && r.consumer.CIdle? && r.tailSeen <= view <= |r.accepted|
    ensures r' == Interleave(r, PopSteps(view))
    ensures r'.consumer.CIdle? && r'.accepted == r.accepted && r'.producer == r.producer
    ensures r'.popped == if view == |r.popped| then r.popped else r.popped + [r.accepted[|r.popped|]]
  {
    var r2 := PopSeen(r, view);
    r' := Next(Next(Next(r2, BeginRead), EndRead), PublishHead);
    if r2.consumer.CReady? { ReadOut(r2); }
    FiveSteps(r, PopSteps(view));
  }
}
