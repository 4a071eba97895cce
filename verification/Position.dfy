/** What lost, repeated and reordered deliveries do to a position counted from the feed. */
module Positions {
  import opened Types
  import opened Feed
  import opened Drift
  import opened Conservation

  /** How often event `n` was delivered. */
  function Times(delivered: seq<SeqEvent>, n: nat): nat {
    if delivered == [] then 0 else
      var k := |delivered| - 1;
      Times(delivered[..k], n) + if delivered[k].seqNo == n then 1 else 0
  }

  /** The same quantity, counted so many times. */
  function Repeated(times: nat, qty: int): int {
    if times == 0 then 0 else qty + Repeated(times - 1, qty)
  }

  /** Signed quantity of our passive fills in a log, each as often as it was delivered. */
  function Counted(log: seq<MarketEvent>, delivered: seq<SeqEvent>): int {
    if log == [] then 0 else
      var n := |log| - 1;
      Counted(log[..n], delivered) + Repeated(Times(delivered, n), Bought(log[n]))
  }

  /** Signed quantity of our passive fills the deliveries leave out, less what they repeat. */
  function Missed(log: seq<MarketEvent>, delivered: seq<SeqEvent>): int {
    if log == [] then 0 else
      var n := |log| - 1;
      Missed(log[..n], delivered) + Bought(log[n]) - Repeated(Times(delivered, n), Bought(log[n]))
  }

  ghost predicate InLog(log: seq<MarketEvent>, e: SeqEvent) {
    e.seqNo < |log| && log[e.seqNo] == e.event
  }

  ghost predicate AllInLog(log: seq<MarketEvent>, events: seq<SeqEvent>) {
    forall i :: 0 <= i < |events| ==> InLog(log, events[i])
  }

  lemma {:induction false} CountedPlusMissed(log: seq<MarketEvent>, delivered: seq<SeqEvent>)
    ensures Inventory(log) == Counted(log, delivered) + Missed(log, delivered)
    decreases |log|
  {
    if log != [] {
      var n := |log| - 1;
      CountedPlusMissed(log[..n], delivered);
    }
  }

  lemma {:induction false} NoneDelivered(log: seq<MarketEvent>)
    ensures Counted(log, []) == 0
    decreases |log|
  {
    if log != [] { NoneDelivered(log[..|log| - 1]); }
  }

  /** One more delivery counts its event once more. */
  lemma {:induction false} CountedSnoc(log: seq<MarketEvent>, delivered: seq<SeqEvent>, e: SeqEvent)
    ensures Counted(log, delivered + [e]) ==
            Counted(log, delivered) + if e.seqNo < |log| then Bought(log[e.seqNo]) else 0
    decreases |log|
  {
    if log != [] {
      var n := |log| - 1;
      CountedSnoc(log[..n], delivered, e);
      assert (delivered + [e])[..|delivered|] == delivered;
    }
  }

  /** Adding up what was delivered, in whatever order, is counting by number. */
  lemma {:induction false} DeliveredIsCounted(log: seq<MarketEvent>, delivered: seq<SeqEvent>)
    requires AllInLog(log, delivered)
    ensures Inventory(EventsOf(delivered)) == Counted(log, delivered)
    decreases |delivered|
  {
    if delivered == [] {
      NoneDelivered(log);
    } else {
      var k := |delivered| - 1;
      var pre, e := delivered[..k], delivered[k];
      assert AllInLog(log, pre) && InLog(log, e);
      DeliveredIsCounted(log, pre);
      CountedSnoc(log, pre, e);
      assert pre + [e] == delivered;
      assert EventsOf(delivered)[..k] == EventsOf(pre);
    }
  }

  /** Which events of a log were not delivered. */
  function Undelivered(n: nat, delivered: seq<SeqEvent>): seq<bool> {
    seq(n, i requires 0 <= i < n => Times(delivered, i) == 0)
  }

  /** When nothing was delivered twice, what is missed is exactly the trades of ours that were
      not delivered. */
  lemma {:induction false} MissedIsLost(log: seq<MarketEvent>, delivered: seq<SeqEvent>)
    requires forall n :: 0 <= n < |log| ==> Times(delivered, n) <= 1
    ensures Missed(log, delivered) == Inventory(Kept(log, Undelivered(|log|, delivered)))
    decreases |log|
  {
    if log != [] {
      var n := |log| - 1;
      MissedIsLost(log[..n], delivered);
      assert Undelivered(|log|, delivered)[..n] == Undelivered(n, delivered);
      var lost := Kept(log[..n], Undelivered(n, delivered));
      if Times(delivered, n) == 0 {
        assert (lost + [log[n]])[..|lost|] == lost;
      } else {
        assert lost + [] == lost;
        assert Times(delivered, n) == 1 && Repeated(1, Bought(log[n])) == Bought(log[n]) + Repeated(0, Bought(log[n]));
      }
    }
  }

  /** The position counted from any deliveries of a log's events differs from the log's own by
      exactly the fills of ours not delivered, less those delivered again. */
  lemma PositionError(log: seq<MarketEvent>, delivered: seq<SeqEvent>)
    requires AllInLog(log, delivered)
    ensures Inventory(log) - Inventory(EventsOf(delivered)) == Missed(log, delivered)
  {
    DeliveredIsCounted(log, delivered);
    CountedPlusMissed(log, delivered);
  }
}
