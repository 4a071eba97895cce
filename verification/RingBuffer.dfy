/** The ring as the source lays it out: an array, a mask, and wrapping word counters, with
    try_push and try_pop run without interference. `Rings` covers every interleaving. */
module RingBuffers {
  import opened Types
  import opened Words
  import opened Rings

  /** The slot of counter `n`. */
  function SlotOf(n: nat, capacity: nat): (slot: nat)
    requires capacity > 0
    ensures slot < capacity
  {
    n % capacity
  }

  lemma SlotsDiffer(a: nat, b: nat, capacity: nat)
    requires a < b < a + capacity
    ensures SlotOf(a, capacity) != SlotOf(b, capacity)
  {
    DistinctSlots(a, b, capacity);
  }

  /** The slots hold the contents in order, the oldest in the slot of counter `pops`. */
  ghost predicate Holds<T>(slots: seq<T>, pops: nat, contents: seq<T>) {
    && 0 < |slots| && |contents| <= |slots|
    && forall i :: 0 <= i < |contents| ==> slots[SlotOf(pops + i, |slots|)] == contents[i]
  }

  lemma HoldsAfterPush<T>(slots: seq<T>, pops: nat, contents: seq<T>, idx: nat, value: T)
    requires Holds(slots, pops, contents) && |contents| < |slots|
    requires idx == SlotOf(pops + |contents|, |slots|)
    ensures idx < |slots| && Holds(slots[idx := value], pops, contents + [value])
  {
    var slots', contents' := slots[idx := value], contents + [value];
    forall i | 0 <= i < |contents'| ensures slots'[SlotOf(pops + i, |slots'|)] == contents'[i] {
      if i < |contents| { OtherSlot(slots, pops + i, pops + |contents|, value); }
    }
  }

  lemma OtherSlot<T>(slots: seq<T>, a: nat, b: nat, value: T)
    requires a < b < a + |slots|
    ensures slots[SlotOf(b, |slots|) := value][SlotOf(a, |slots|)] == slots[SlotOf(a, |slots|)]
  {
    SlotsDiffer(a, b, |slots|);
  }

  lemma HoldsAfterPop<T>(slots: seq<T>, pops: nat, contents: seq<T>)
    requires Holds(slots, pops, contents) && contents != []
    ensures slots[SlotOf(pops, |slots|)] == contents[0] && Holds(slots, pops + 1, contents[1..])
  {
    assert slots[SlotOf(pops + 0, |slots|)] == contents[0];
    var rest := contents[1..];
    forall i | 0 <= i < |rest| ensures slots[SlotOf(pops + 1 + i, |slots|)] == rest[i] {
      assert pops + 1 + i == pops + (i + 1);
      assert slots[SlotOf(pops + (i + 1), |slots|)] == contents[i + 1];
    }
  }

  datatype PushResult<T> = Pushed | Refused(value: T)

  class RingBuffer<T(0)> {
    const buf: array<T>
    const mask: nat
    ghost const k: nat
    var head: nat
    var tail: nat
    var dropped: nat

    // The unbounded counters the words stand for, and the values in flight.
    ghost var pushes: nat
    ghost var pops: nat
    ghost var refusals: nat
    ghost var Contents: seq<T>

    ghost predicate Valid()
      reads this, buf
    {
      && 1 <= k < BITS && buf.Length == Pow2(k) && mask == Pow2(k) - 1
      && head == pops % WORD && tail == pushes % WORD && dropped == refusals % WORD
      && pushes == pops + |Contents|
      && Holds(buf[..], pops, Contents)
    }

    constructor (requested: nat)
      requires LogCapacity(requested) < BITS
      ensures Valid() && fresh(buf) && Contents == [] && refusals == 0
      ensures buf.Length == if NextPowerOfTwo(requested) >= 2 then NextPowerOfTwo(requested) else 2
    {
      CapacityIs(requested);
      k := LogCapacity(requested);
      var next := NextPowerOfTwo(requested);
      var capacity := if next >= 2 then next else 2;
      buf := new T[capacity];
      mask := capacity - 1;
      head, tail, dropped := 0, 0, 0;
      pushes, pops, refusals, Contents := 0, 0, 0, [];
    }

    lemma WordFacts()
      requires Valid()
      ensures 2 <= buf.Length < WORD
      ensures And(tail, mask) == pushes % Pow2(k) && And(head, mask) == pops % Pow2(k)
      ensures WrappingSub(tail, head) == |Contents|
      ensures head == tail <==> Contents == []
    {
      WordIsPow2();
      Pow2Monotone(1, k);
      Pow2Monotone(k, BITS - 1);
      assert Pow2(1) == 2 && Pow2(BITS) == 2 * Pow2(BITS - 1);
      SlotIndex(pushes, k);
      SlotIndex(pops, k);
      WrappedDistance(pushes, pops);
      WrappedEqual(pushes, pops);
    }

    /** Appends the value, or refuses it and counts the refusal when the buffer is full. */
    method TryPush(value: T) returns (r: PushResult<T>)
      requires Valid()
      modifies this, buf
      ensures Valid()
      ensures if |old(Contents)| == buf.Length
              then r == Refused(value) && Contents == old(Contents) && refusals == old(refusals) + 1
              else r == Pushed && Contents == old(Contents) + [value] && refusals == old(refusals)
      ensures pops == old(pops)
    {
      WordFacts();
      if WrappingSub(tail, head) >= buf.Length {
        WrappedIncrement(refusals);
        dropped := WrappingAdd(dropped, 1);
        refusals := refusals + 1;
        return Refused(value);
      }
      var idx := And(tail, mask);
      HoldsAfterPush(buf[..], pops, Contents, idx, value);
      buf[idx] := value;
      WrappedIncrement(pushes);
      tail := WrappingAdd(tail, 1);
      pushes := pushes + 1;
      Contents := Contents + [value];
      return Pushed;
    }

    /** Removes and returns the oldest value, or None exactly when there is none. */
    method TryPop() returns (r: Option<T>)
      requires Valid()
      modifies this
      ensures Valid() && pushes == old(pushes) && refusals == old(refusals)
      ensures if old(Contents) == [] then r == None && Contents == []
              else r == Some(old(Contents)[0]) && Contents == old(Contents)[1..]
    {
      WordFacts();
      if head == tail {
        return None;
      }
      var idx := And(head, mask);
      HoldsAfterPop(buf[..], pops, Contents);
      var value := buf[idx];
      WrappedIncrement(pops);
      head := WrappingAdd(head, 1);
      pops := pops + 1;
      Contents := Contents[1..];
      return Some(value);
    }
  }
}
