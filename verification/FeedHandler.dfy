/** The feed handler: gap detection over arbitrary packet sequence numbers, with duplicates,
    reorderings and losses, and forwarding into the ring. */
module FeedHandlers {
  import opened Types
  import opened RingBuffers

  datatype Health = Health(expected: Option<nat>, received: nat, gaps: nat, lost: nat)

  const INIT_HEALTH := Health(None, 0, 0, 0)

  /** The accounting for one packet. A stale packet changes only the received count. */
  function Observe(h: Health, n: nat): Health {
    var h' := h.(received := h.received + 1);
    match h.expected
    case None => h'.(expected := Some(n + 1))
    case Some(exp) =>
      if n < exp then h'
      else if n > exp then h'.(expected := Some(n + 1), gaps := h.gaps + 1, lost := h.lost + (n - exp))
      else h'.(expected := Some(n + 1))
  }

  function ObserveAll(ns: seq<nat>): Health {
    if ns == [] then INIT_HEALTH else Observe(ObserveAll(ns[..|ns| - 1]), ns[|ns| - 1])
  }

  /** The packets that moved the expectation: higher than everything before them. */
  function Advancing(ns: seq<nat>): (adv: set<nat>)
    ensures forall n :: n in adv ==> n in ns
  {
    if ns == [] then {} else
      var pre, n := ns[..|ns| - 1], ns[|ns| - 1];
      Advancing(pre) + if forall i :: 0 <= i < |pre| ==> pre[i] < n then {n} else {}
  }

  function Interval(lo: nat, hi: nat): (ns: set<nat>)
    ensures forall n :: n in ns <==> lo <= n < hi
  {
    if lo >= hi then {} else Interval(lo, hi - 1) + {hi - 1}
  }

  lemma {:induction false} IntervalSize(lo: nat, hi: nat)
    requires lo <= hi
    ensures |Interval(lo, hi)| == hi - lo
    decreases hi
  {
    if lo < hi { IntervalSize(lo, hi - 1); }
  }

  ghost predicate ExpectsAbove(ns: seq<nat>, expected: Option<nat>) {
    && expected.Some? && expected.value > 0 && expected.value - 1 in ns
    && forall i :: 0 <= i < |ns| ==> ns[i] < expected.value
  }

  /** The expectation is one more than the highest number seen so far. */
  lemma {:induction false} ExpectationIsHighest(ns: seq<nat>)
    requires ns != []
    ensures ExpectsAbove(ns, ObserveAll(ns).expected) && ObserveAll(ns).received == |ns|
    decreases |ns|
  {
    var pre, n := ns[..|ns| - 1], ns[|ns| - 1];
    if pre == [] {
      assert ObserveAll(pre) == INIT_HEALTH;
    } else {
      ExpectationIsHighest(pre);
      var exp := ObserveAll(pre).expected.value;
      assert exp - 1 in pre && forall k :: k in pre ==> k in ns;
    }
  }

  /** A packet advances the expectation exactly when it is at or above it. */
  lemma {:induction false} AdvancingStep(pre: seq<nat>, n: nat)
    requires pre != []
    ensures var exp := ObserveAll(pre).expected;
            && exp.Some?
            && Advancing(pre + [n]) == (if n >= exp.value then Advancing(pre) + {n} else Advancing(pre))
            && (n >= exp.value ==> n !in Advancing(pre))
            && ObserveAll(pre + [n]) == Observe(ObserveAll(pre), n)
  {
    ExpectationIsHighest(pre);
    var exp := ObserveAll(pre).expected.value;
    assert (pre + [n])[..|pre|] == pre;
    var i :| 0 <= i < |pre| && pre[i] == exp - 1;
    assert n < exp ==> !(pre[i] < n);
  }

  /** From the first packet to the expectation there are exactly the packets that advanced it
      and the events counted lost. */
  lemma {:induction false} GapAccounting(ns: seq<nat>)
    requires ns != []
    ensures var h := ObserveAll(ns);
            && h.expected.Some? && h.expected.value >= ns[0]
            && h.expected.value - ns[0] == |Advancing(ns)| + h.lost
            && (forall n :: n in Advancing(ns) ==> ns[0] <= n < h.expected.value)
    decreases |ns|
  {
    var pre, n := ns[..|ns| - 1], ns[|ns| - 1];
    assert ns == pre + [n];
    if pre == [] {
      assert ObserveAll(pre) == INIT_HEALTH && Advancing(pre) == {};
    } else {
      GapAccounting(pre);
      AdvancingStep(pre, n);
    }
  }

  /** A gap was detected exactly when something is counted lost, and each gap lost an event. */
  lemma {:induction false} GapsAndLosses(ns: seq<nat>)
    ensures (ObserveAll(ns).gaps == 0 <==> ObserveAll(ns).lost == 0) && ObserveAll(ns).gaps <= ObserveAll(ns).lost
    decreases |ns|
  {
    if ns != [] { GapsAndLosses(ns[..|ns| - 1]); }
  }

  /** Arrivals more than one above everything before them. */
  function Jumps(ns: seq<nat>): nat {
    if ns == [] then 0 else
      var pre, n := ns[..|ns| - 1], ns[|ns| - 1];
      Jumps(pre) + if pre != [] && forall i :: 0 <= i < |pre| ==> n > pre[i] + 1 then 1 else 0
  }

  /** A gap is counted for each such arrival, however much it skips, and for nothing else. */
  lemma {:induction false} GapsAreJumps(ns: seq<nat>)
    ensures ObserveAll(ns).gaps == Jumps(ns)
    decreases |ns|
  {
    if ns != [] {
      var pre, n := ns[..|ns| - 1], ns[|ns| - 1];
      GapsAreJumps(pre);
      if pre != [] {
        ExpectationIsHighest(pre);
        var exp := ObserveAll(pre).expected.value;
        var i :| 0 <= i < |pre| && pre[i] == exp - 1;
        assert n <= exp ==> !(n > pre[i] + 1);
      }
    }
  }

  /** Whatever arrives afterwards, the expectation never rewinds and no count goes down. */
  lemma {:induction false} NeverRewinds(ns: seq<nat>, more: seq<nat>)
    ensures var h, h' := ObserveAll(ns), ObserveAll(ns + more);
            && (h.expected.Some? ==> h'.expected.Some? && h'.expected.value >= h.expected.value)
            && h'.lost >= h.lost && h'.gaps >= h.gaps && h'.received == h.received + |more|
    decreases |more|
  {
    if more == [] {
      assert ns + more == ns;
    } else {
      var n := |more| - 1;
      NeverRewinds(ns, more[..n]);
      assert (ns + more)[..|ns + more| - 1] == ns + more[..n];
    }
  }

  /** Without a further gap nothing further is counted lost. */
  lemma {:induction false} LossNeedsGap(ns: seq<nat>, more: seq<nat>)
    ensures ObserveAll(ns + more).lost > ObserveAll(ns).lost ==> ObserveAll(ns + more).gaps > ObserveAll(ns).gaps
    decreases |more|
  {
    if more == [] {
      assert ns + more == ns;
    } else {
      var n := |more| - 1;
      LossNeedsGap(ns, more[..n]);
      NeverRewinds(ns, more[..n]);
      assert (ns + more)[..|ns + more| - 1] == ns + more[..n];
    }
  }

  /** Packets 0, 1, 2, ... without a gap. */
  ghost predicate Counting(ns: seq<nat>) {
    forall i :: 0 <= i < |ns| ==> ns[i] == i
  }

  lemma {:induction false} CountingLosesNothing(ns: seq<nat>)
    requires Counting(ns)
    ensures ObserveAll(ns).lost == 0 && (ns != [] ==> ObserveAll(ns).expected == Some(|ns|))
    decreases |ns|
  {
    if ns != [] { CountingLosesNothing(ns[..|ns| - 1]); }
  }

  /** Numbers since the first packet that have not arrived at all. */
  function Missing(ns: seq<nat>): set<nat>
    requires ns != []
  {
    var h := ObserveAll(ns);
    if h.expected.Some? then set n | n in Interval(ns[0], h.expected.value) && n !in ns else {}
  }

  /** Arrivals since the first packet that were already counted lost when they came. */
  function LateArrivals(ns: seq<nat>): set<nat>
    requires ns != []
  {
    set n | n in ns && n >= ns[0] && n !in Advancing(ns)
  }

  /** What is counted lost is what never arrived plus what arrived late: late packets are
      never uncounted. */
  lemma LostIsMissingPlusLate(ns: seq<nat>)
    requires ns != []
    ensures ObserveAll(ns).lost == |Missing(ns)| + |LateArrivals(ns)|
  {
    GapAccounting(ns);
    ExpectationIsHighest(ns);
    var hi := ObserveAll(ns).expected.value;
    var all := Interval(ns[0], hi);
    assert ns[0] in ns;
    IntervalSize(ns[0], hi);
    var adv, missing, late := Advancing(ns), Missing(ns), LateArrivals(ns);
    forall n | n in all ensures n in adv || n in missing || n in late {}
    forall n | n in late ensures n in all {}
    assert all == adv + missing + late;
    assert |adv + missing| == |adv| + |missing| by { assert adv !! missing; }
    assert |adv + missing + late| == |adv + missing| + |late| by { assert (adv + missing) !! late; }
  }

  /** The loss count is exact, the number of events missing since the first packet, if and
      only if no packet arrived after a later one had already made it count as lost. */
  lemma LossCountExactIff(ns: seq<nat>)
    requires ns != []
    ensures ObserveAll(ns).lost == |Missing(ns)| <==> LateArrivals(ns) == {}
  {
    LostIsMissingPlusLate(ns);
  }

  /** Two packets swapped on the way are enough: one event counted lost, and none missing. */
  lemma LateArrivalOvercounts()
    ensures ObserveAll([0, 2, 1]).lost == 1 && Missing([0, 2, 1]) == {} && 1 in LateArrivals([0, 2, 1])
  {
    var ns := [0, 2, 1];
    assert ns[..2] == [0, 2] && ns[..2][..1] == [0] && ns[..2][..1][..0] == [];
    assert ObserveAll([0]).expected == Some(1);
    assert ObserveAll([0, 2]) == Health(Some(3), 2, 1, 1);
    assert ObserveAll(ns) == Health(Some(3), 3, 1, 1);
    assert ns[0] == 0 && ns[1] == 2 && ns[2] == 1;
  }

  ghost predicate Increasing(ns: seq<nat>) {
    forall i, j :: 0 <= i < j < |ns| ==> ns[i] < ns[j]
  }

  lemma {:induction false} IncreasingAllAdvance(ns: seq<nat>)
    requires Increasing(ns)
    ensures forall n :: n in ns ==> n in Advancing(ns)
  {
    if ns != [] {
      var m := |ns| - 1;
      IncreasingAllAdvance(ns[..m]);
      assert forall n :: n in ns ==> n in ns[..m] || n == ns[m];
    }
  }

  /** In-order delivery with losses: the count is exactly the missing events. */
  lemma InOrderLossIsExact(ns: seq<nat>)
    requires ns != [] && Increasing(ns)
    ensures ObserveAll(ns).lost == |Missing(ns)|
  {
    IncreasingAllAdvance(ns);
    assert LateArrivals(ns) == {};
    LossCountExactIff(ns);
  }

  class FeedHandler {
    const out: RingBuffer<SeqEvent>
    var expectedSeq: Option<nat>
    var packetsReceived: nat
    var gapsDetected: nat
    var eventsLostToGaps: nat

    function State(): Health
      reads this
    {
      Health(expectedSeq, packetsReceived, gapsDetected, eventsLostToGaps)
    }

    constructor (out: RingBuffer<SeqEvent>)
      ensures State() == INIT_HEALTH && this.out == out
    {
      this.out := out;
      expectedSeq, packetsReceived, gapsDetected, eventsLostToGaps := None, 0, 0, 0;
    }

    /** Counts the packet, then forwards it whether or not it was stale; a full ring drops it
        without counting it as lost to a gap. */
    method Receive(packet: SeqEvent)
      requires out.Valid()
      modifies this, out, out.buf
      ensures out.Valid() && State() == Observe(old(State()), packet.seqNo)
      ensures if |old(out.Contents)| == out.buf.Length
              then out.Contents == old(out.Contents) && out.refusals == old(out.refusals) + 1
              else out.Contents == old(out.Contents) + [packet] && out.refusals == old(out.refusals)
    {
      packetsReceived := packetsReceived + 1;
      match expectedSeq {
        case None =>
          expectedSeq := Some(packet.seqNo + 1);
        case Some(exp) =>
          if packet.seqNo >= exp {
            if packet.seqNo > exp {
              var lost := packet.seqNo - exp;
              gapsDetected := gapsDetected + 1;
              eventsLostToGaps := eventsLostToGaps + lost;
            }
            expectedSeq := Some(packet.seqNo + 1);
          }
      }
      var _ := out.TryPush(packet);
    }

    /** The receive loop over any sequence of packets, from a fresh handler and with nobody
        popping: every packet is accounted for, the ring takes them in order, stale or not,
        until it is full, and each one after that is refused and counted by the ring alone. */
    method Run(packets: seq<SeqEvent>)
      requires out.Valid() && State() == INIT_HEALTH
      modifies this, out, out.buf
      ensures out.Valid() && State() == ObserveAll(Numbers(packets))
      ensures out.Contents == Accepted(old(out.Contents), packets, out.buf.Length)
      ensures out.refusals == old(out.refusals) + (|old(out.Contents)| + |packets| - |out.Contents|)
    {
      ghost var before := out.Contents;
      for i := 0 to |packets|
        invariant out.Valid() && State() == ObserveAll(Numbers(packets[..i]))
        invariant out.Contents == Accepted(before, packets[..i], out.buf.Length)
        invariant out.refusals == old(out.refusals) + (|before| + i - |out.Contents|)
      {
        assert Numbers(packets[..i + 1])[..i] == Numbers(packets[..i]);
        Receive(packets[i]);
      }
      assert packets[..|packets|] == packets;
    }
  }

  /** What a ring of the given capacity holds after these pushes and no pop. */
  function Accepted(before: seq<SeqEvent>, packets: seq<SeqEvent>, capacity: nat): seq<SeqEvent>
    requires |before| <= capacity
  {
    if |before + packets| <= capacity then before + packets else (before + packets)[..capacity]
  }

  function Numbers(packets: seq<SeqEvent>): (ns: seq<nat>)
    ensures |ns| == |packets| && forall i :: 0 <= i < |ns| ==> ns[i] == packets[i].seqNo
  {
    seq(|packets|, i requires 0 <= i < |packets| => packets[i].seqNo)
  }
}
