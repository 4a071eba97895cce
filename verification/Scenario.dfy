/** Executions that show what the code does not promise: a repair refused for good, and an old
    event replayed on top of a newer snapshot. Both start from one lost Cancel. */
module Scenarios {
  import opened Types
  import opened Levels
  import Matching
  import opened OrderBooks
  import opened FeedHandlers
  import opened Strategies
  import opened Crossings
  import opened Composition
  import opened Deliveries

  lemma ExecuteSnoc(ls: seq<Label>, l: Label)
    ensures Execute(ONE_LEVEL, ls + [l]) == Next(ONE_LEVEL, Execute(ONE_LEVEL, ls), l)
  {
    assert (ls + [l])[..|ls|] == ls;
  }

  const REFRESHED := Refresh(Ask, 0, 100, 0, 0, 0)
  const MOVED := Refresh(Ask, 0, 110, 0, 0, 0)

  /** The first packet and the third; the second, the Cancel, never arrives. */
  const ASK_1_ADDED := SeqEvent(0, AskAdded(1, 101))
  const ASK_2_ADDED := SeqEvent(2, AskAdded(2, 111))

  const QUIET := InitSystem(ONE_LEVEL)

  /** A snapshot was published between the refreshes; two packets wait in the ring. */
  const WAITING := QUIET.(
    exchange := ASK_AT_111, published := Export(ASK_AT_101.venue.book, 1),
    health := Health(Some(3), 2, 1, 1), events := [ASK_1_ADDED, ASK_2_ADDED], arrived := [0, 2])

  lemma Refreshes() returns (ls: seq<Label>)
    ensures Execute(ONE_LEVEL, ls) == QUIET.(exchange := ASK_AT_111, published := Export(ASK_AT_101.venue.book, 1))
  {
    FirstRefresh();
    SecondRefresh();
    ExecuteSnoc([], REFRESHED);
    ExecuteSnoc([] + [REFRESHED], Publish);
    ExecuteSnoc(([] + [REFRESHED]) + [Publish], MOVED);
    ls := (([] + [REFRESHED]) + [Publish]) + [MOVED];
  }

  lemma Arrives(ls: seq<Label>, e: SeqEvent) returns (ls': seq<Label>)
    requires var s := Execute(ONE_LEVEL, ls);
             s.pending.None? && e.seqNo < |s.Log()| && s.Log()[e.seqNo] == e.event
    ensures var s := Execute(ONE_LEVEL, ls);
            Execute(ONE_LEVEL, ls') ==
              s.(health := Observe(s.health, e.seqNo), arrived := s.arrived + [e.seqNo], events := s.events + [e])
  {
    ExecuteSnoc(ls, Receive(e.seqNo));
    ExecuteSnoc(ls + [Receive(e.seqNo)], Forward(false));
    ls' := (ls + [Receive(e.seqNo)]) + [Forward(false)];
  }

  lemma Waiting() returns (ls: seq<Label>)
    ensures Execute(ONE_LEVEL, ls) == WAITING
  {
    var ls0 := Refreshes();
    var ls1 := Arrives(ls0, ASK_1_ADDED);
    ls := Arrives(ls1, ASK_2_ADDED);
    assert [] + [ASK_1_ADDED] + [ASK_2_ADDED] == [ASK_1_ADDED, ASK_2_ADDED];
    assert [] + [0] + [2] == [0, 2];
  }

  // A repair refused.

  /** Both packets replayed: the shadow shows the ask that has gone, with one loss counted and
      a published snapshot older than the last event replayed. */
  ghost predicate Drifted(s: System) {
    && s.exchange == ASK_AT_111 && s.health == Health(Some(3), 2, 1, 1) && s.arrived == [0, 2]
    && s.published.seqAtSnapshot == 1 && s.strategy.highestSeq == 2 && s.strategy.lastKnownLost == 0
    && 101 in s.strategy.shadow.asks && s.resyncs == 0
  }

  lemma Drifts() returns (ls: seq<Label>)
    ensures Drifted(Execute(ONE_LEVEL, ls))
  {
    var ls0 := Waiting();
    ExecuteSnoc(ls0, PopEvent);
    ExecuteSnoc(ls0 + [PopEvent], PopEvent);
    ls := (ls0 + [PopEvent]) + [PopEvent];
    var t := OnEvent(INIT_STRATEGY, ASK_1_ADDED);
    assert t.shadow.asks.Keys == {101};
    assert 101 in OnEvent(t, ASK_2_ADDED).shadow.asks;
  }

  lemma LossCounted()
    ensures ObserveAll([0, 2][..2]).lost == 1
  {
    var ns := [0, 2];
    assert ns[..2] == ns && ns[..1] == [0] && ns[..1][..0] == [];
    assert ObserveAll([0]).expected == Some(1);
  }

  lemma Refused(s: System)
    requires Drifted(s)
    ensures var s' := Next(ONE_LEVEL, s, Pull(2, 0));
            && s'.strategy == s.strategy.(lastKnownLost := 1)
            && s'.exchange == s.exchange && s'.health == s.health
  {
    LossCounted();
  }

  /** Only snapshots published and checks made. */
  ghost predicate OnlyChecks(ls: seq<Label>) {
    forall i :: 0 <= i < |ls| ==> ls[i].Publish? || ls[i].Pull?
  }

  lemma {:induction false} ChecksMoveNothing(s: System, more: seq<Label>)
    requires OnlyChecks(more)
    ensures Continue(ONE_LEVEL, s, more).exchange == s.exchange && Continue(ONE_LEVEL, s, more).health == s.health
    decreases |more|
  {
    if more != [] { ChecksMoveNothing(s, more[..|more| - 1]); }
  }

  /** An execution in which a counted loss is never repaired: a Cancel is lost, the handler
      counts it, and the strategy's one check for it finds a snapshot older than what it has
      replayed. However many snapshots are then published, each of them newer than anything
      replayed, and however often it checks, the shadow keeps an ask the exchange no longer has. */
  lemma RefusedForGood() returns (ls: seq<Label>)
    ensures var s := Execute(ONE_LEVEL, ls);
            && s.health.lost == 1
            && forall more :: OnlyChecks(more) ==>
                 var s' := Continue(ONE_LEVEL, s, more);
                 101 in s'.strategy.shadow.asks && 101 !in s'.exchange.venue.book.asks
  {
    var ls0 := Drifts();
    var s0 := Execute(ONE_LEVEL, ls0);
    ls := ls0 + [Pull(2, 0)];
    ExecuteSnoc(ls0, Pull(2, 0));
    Refused(s0);
    ExecutionLossOk(ONE_LEVEL, ls);
    var s := Execute(ONE_LEVEL, ls);
    forall more | OnlyChecks(more)
      ensures var s' := Continue(ONE_LEVEL, s, more);
              101 in s'.strategy.shadow.asks && 101 !in s'.exchange.venue.book.asks
    {
      ChecksMoveNothing(s, more);
      DriftStands(ONE_LEVEL, s, more);
    }
  }

  // An old event after a resync.

  lemma SnapshotShowsAsk()
    ensures Export(ASK_AT_111.venue.book, 3).asks != []
  {
    var levels: Levels := map[111 := [AskOrder(2, 111)]];
    assert 111 in levels.Keys && Best(Ask, levels.Keys) == 111;
    assert Matching.Flatten(Ask, levels) == levels[111] + Matching.Flatten(Ask, levels - {111});
    assert |Matching.Flatten(Ask, levels)| >= 1;
  }

  /** A resync at 3 has just been taken, with event 0 still first in the ring. */
  lemma Resynced() returns (ls: seq<Label>)
    ensures var s := Execute(ONE_LEVEL, ls);
            && s.exchange == ASK_AT_111 && s.inStep == Some(3) && s.resyncs == 1
            && s.published.seqAtSnapshot == 3 && s.events == [ASK_1_ADDED, ASK_2_ADDED]
  {
    var ls0 := Waiting();
    ExecuteSnoc(ls0, Publish);
    ExecuteSnoc(ls0 + [Publish], Pull(2, 0));
    ls := (ls0 + [Publish]) + [Pull(2, 0)];
    LossCounted();
    SnapshotShowsAsk();
  }

  lemma OldAddShows(t: Strategy)
    ensures 101 in OnEvent(t, ASK_1_ADDED).shadow.asks
  {
    OnEventFields(t, ASK_1_ADDED);
  }

  /** An execution in which a snapshot is taken while an older event is still in the ring: the
      shadow is then exactly the exchange's book, and replaying that one event spoils it. */
  lemma StaleEventAfterResync() returns (ls: seq<Label>)
    ensures var s := Execute(ONE_LEVEL, ls);
            && s.resyncs == 1 && SameBook(s.strategy.shadow, s.exchange.venue.book)
            && s.events != [] && s.events[0].seqNo < s.published.seqAtSnapshot
            && var s' := Next(ONE_LEVEL, s, PopEvent);
               101 in s'.strategy.shadow.asks && 101 !in s'.exchange.venue.book.asks
  {
    ls := Resynced();
    ShadowInStep(ONE_LEVEL, ls);
    OldAddShows(Execute(ONE_LEVEL, ls).strategy);
  }
}
