/** What the deliveries of an execution decide: when resyncs are taken, when the shadow stays in
    step, and how far the strategy's position is from its orders' true passive fills. */
module Deliveries {
  import opened Types
  import opened Levels
  import opened Feed
  import opened Drift
  import opened Exchanges
  import opened FeedHandlers
  import opened Strategies
  import opened Conservation
  import opened Positions
  import opened Composition
  import Risk

  // Resyncs need newly counted loss.

  /** The loss count acted on is one the handler had reached, and every resync taken so far
      has used up a gap of its own. */
  ghost predicate LossOk(s: System) {
    && s.health == ObserveAll(s.arrived) && s.lossReadAt <= |s.arrived|
    && s.strategy.lastKnownLost == ObserveAll(s.arrived[..s.lossReadAt]).lost
    && s.resyncs <= ObserveAll(s.arrived[..s.lossReadAt]).gaps
  }

  /** A later reading of the counts. */
  lemma LaterCounts(ns: seq<nat>, at: nat, later: nat)
    requires at <= later <= |ns|
    ensures ObserveAll(ns[..at]).lost <= ObserveAll(ns[..later]).lost
    ensures ObserveAll(ns[..at]).gaps <= ObserveAll(ns[..later]).gaps
    ensures ObserveAll(ns[..later]).lost > ObserveAll(ns[..at]).lost ==>
              ObserveAll(ns[..later]).gaps > ObserveAll(ns[..at]).gaps
  {
    assert ns[..at] + ns[at..later] == ns[..later];
    NeverRewinds(ns[..at], ns[at..later]);
    LossNeedsGap(ns[..at], ns[at..later]);
  }

  lemma PullLossOk(s: System, at: nat, ts: nat)
    requires LossOk(s) && at <= |s.arrived|
    ensures LossOk(PullAt(s, at, ts))
  {
    if at <= s.lossReadAt {
      LaterCounts(s.arrived, at, s.lossReadAt);
    } else {
      LaterCounts(s.arrived, s.lossReadAt, at);
    }
  }

  lemma ReceiveLossOk(cfg: Config, s: System, n: nat)
    requires LossOk(s)
    ensures LossOk(Next(cfg, s, Receive(n)))
  {
    assert (s.arrived + [n])[..|s.arrived|] == s.arrived;
    assert (s.arrived + [n])[..s.lossReadAt] == s.arrived[..s.lossReadAt];
  }

  lemma NextLossOk(cfg: Config, s: System, l: Label)
    requires LossOk(s)
    ensures LossOk(Next(cfg, s, l))
  {
    match l
    case Receive(n) => ReceiveLossOk(cfg, s, n);
    case Pull(at, ts) => if at <= |s.arrived| { PullLossOk(s, at, ts); }
    case PopEvent => if s.events != [] { OnEventFields(s.strategy, s.events[0]); }
    case _ =>
  }

  lemma {:induction false} ContinueLossOk(cfg: Config, s: System, ls: seq<Label>)
    requires LossOk(s)
    ensures LossOk(Continue(cfg, s, ls))
    decreases |ls|
  {
    if ls != [] {
      var k := |ls| - 1;
      ContinueLossOk(cfg, s, ls[..k]);
      NextLossOk(cfg, Continue(cfg, s, ls[..k]), ls[k]);
    }
  }

  lemma ExecutionLossOk(cfg: Config, ls: seq<Label>)
    ensures LossOk(Execute(cfg, ls))
  {
    ContinueLossOk(cfg, InitSystem(cfg), ls);
  }

  /** No more resyncs are ever taken than the handler has counted gaps, and the strategy never
      acts on more loss than the handler has counted. */
  lemma ResyncsNeedGaps(cfg: Config, ls: seq<Label>)
    ensures var s := Execute(cfg, ls);
            s.resyncs <= s.health.gaps && s.strategy.lastKnownLost <= s.health.lost
  {
    ExecutionLossOk(cfg, ls);
    var s := Execute(cfg, ls);
    assert s.arrived[..|s.arrived|] == s.arrived;
    LaterCounts(s.arrived, s.lossReadAt, |s.arrived|);
  }

  lemma LossOnlyGrows(cfg: Config, s: System, l: Label)
    requires LossOk(s)
    ensures Next(cfg, s, l).health.lost >= s.health.lost
    ensures Next(cfg, s, l).strategy.lastKnownLost >= s.strategy.lastKnownLost
  {
    if l.PopEvent? && s.events != [] { OnEventFields(s.strategy, s.events[0]); }
  }

  /** With no loss counted beyond what was acted on, a label takes no resync. */
  lemma NoNewLoss(cfg: Config, s: System, l: Label)
    requires LossOk(s) && s.health.lost <= s.strategy.lastKnownLost
    ensures Next(cfg, s, l).resyncs == s.resyncs
    ensures Next(cfg, s, l).strategy.lastKnownLost == s.strategy.lastKnownLost
    ensures !l.PopEvent? ==> Next(cfg, s, l).strategy.shadow == s.strategy.shadow
  {
    if l.Pull? && l.at <= |s.arrived| {
      assert s.arrived[..|s.arrived|] == s.arrived;
      LaterCounts(s.arrived, l.at, |s.arrived|);
    } else if l.PopEvent? && s.events != [] {
      OnEventFields(s.strategy, s.events[0]);
    }
  }

  /** No resync without newly counted loss: as long as the handler counts nothing beyond what
      the strategy has acted on, whatever is published and however often it checks, no snapshot
      is taken, and only replayed events change the shadow. Drift then stands. */
  lemma {:induction false} DriftStands(cfg: Config, s: System, more: seq<Label>)
    requires LossOk(s) && Continue(cfg, s, more).health.lost <= s.strategy.lastKnownLost
    ensures Continue(cfg, s, more).resyncs == s.resyncs
    ensures Continue(cfg, s, more).strategy.lastKnownLost == s.strategy.lastKnownLost
    ensures (forall i :: 0 <= i < |more| ==> !more[i].PopEvent?) ==>
              Continue(cfg, s, more).strategy.shadow == s.strategy.shadow
    decreases |more|
  {
    if more != [] {
      var k := |more| - 1;
      var s1 := Continue(cfg, s, more[..k]);
      ContinueLossOk(cfg, s, more[..k]);
      LossOnlyGrows(cfg, s1, more[k]);
      DriftStands(cfg, s, more[..k]);
      NoNewLoss(cfg, s1, more[k]);
    }
  }

  // In-order delivery.

  /** Everything has arrived so far, in order, and nothing was dropped at the ring. */
  ghost predicate Gapless(s: System) {
    Counting(s.arrived) && s.dropped == 0
  }

  function Forwarding(s: System): nat {
    if s.pending.Some? then 1 else 0
  }

  /** Then replay, ring and handler hold consecutive stretches of the feed. */
  ghost predicate Stretches(s: System) {
    && |s.popped| + |s.events| + Forwarding(s) == |s.arrived|
    && (forall i :: 0 <= i < |s.popped| ==> s.popped[i].seqNo == i)
    && (forall i :: 0 <= i < |s.events| ==> s.events[i].seqNo == |s.popped| + i)
    && (s.pending.Some? ==> s.pending.value.seqNo == |s.arrived| - 1)
    && s.inStep == Some(|s.popped|) && s.strategy.lastKnownLost == 0 && s.resyncs == 0
  }

  ghost predicate InOrderOk(s: System) {
    Gapless(s) ==> Stretches(s)
  }

  lemma GaplessBefore(cfg: Config, s: System, l: Label)
    requires Gapless(Next(cfg, s, l))
    ensures Gapless(s)
  {
    if l.Receive? && s.pending.None? && l.seqNo < |s.Log()| {
      assert (s.arrived + [l.seqNo])[..|s.arrived|] == s.arrived;
      forall i | 0 <= i < |s.arrived| ensures s.arrived[i] == i {
        assert (s.arrived + [l.seqNo])[i] == i;
      }
    }
  }

  lemma GaplessReceive(cfg: Config, s: System, n: nat)
    requires Stretches(s) && Gapless(Next(cfg, s, Receive(n)))
    ensures Stretches(Next(cfg, s, Receive(n)))
  {
    if s.pending.None? && n < |s.Log()| {
      assert (s.arrived + [n])[|s.arrived|] == n;
    }
  }

  lemma GaplessPull(s: System, at: nat, ts: nat)
    requires Gapless(s) && Stretches(s) && at <= |s.arrived|
    ensures Stretches(PullAt(s, at, ts))
  {
    CountingLosesNothing(s.arrived[..at]);
  }

  lemma GaplessPop(cfg: Config, s: System)
    requires Stretches(s) && s.events != []
    ensures Stretches(Next(cfg, s, PopEvent))
  {
    var e := s.events[0];
    OnEventFields(s.strategy, e);
    var s' := Next(cfg, s, PopEvent);
    forall i | 0 <= i < |s'.events| ensures s'.events[i].seqNo == |s'.popped| + i {
      assert s'.events[i] == s.events[i + 1];
    }
  }

  lemma NextInOrder(cfg: Config, s: System, l: Label)
    requires InOrderOk(s)
    ensures InOrderOk(Next(cfg, s, l))
  {
    if Gapless(Next(cfg, s, l)) {
      GaplessBefore(cfg, s, l);
      match l
      case Receive(n) => GaplessReceive(cfg, s, n);
      case Pull(at, ts) => if at <= |s.arrived| { GaplessPull(s, at, ts); }
      case PopEvent => if s.events != [] { GaplessPop(cfg, s); }
      case _ =>
    }
  }

  lemma {:induction false} ContinueInOrder(cfg: Config, s: System, ls: seq<Label>)
    requires InOrderOk(s)
    ensures InOrderOk(Continue(cfg, s, ls))
    decreases |ls|
  {
    if ls != [] {
      var k := |ls| - 1;
      ContinueInOrder(cfg, s, ls[..k]);
      NextInOrder(cfg, Continue(cfg, s, ls[..k]), ls[k]);
    }
  }

  /** With gapless in-order arrival and no full ring, the shadow never leaves step: no resync
      is taken, and the shadow is always what the events replayed so far make of the feed; once
      all of them are, it is the exchange's own book. */
  lemma InOrderStaysInStep(cfg: Config, ls: seq<Label>)
    requires Gapless(Execute(cfg, ls))
    ensures var s := Execute(cfg, ls);
            && s.resyncs == 0 && |s.popped| <= |s.Log()|
            && EventsOf(s.popped) == s.Log()[..|s.popped|]
            && SameBook(s.strategy.shadow, Fold(s.Log()[..|s.popped|]))
            && (|s.popped| == |s.Log()| ==> SameBook(s.strategy.shadow, s.exchange.venue.book))
  {
    ContinueInOrder(cfg, InitSystem(cfg), ls);
    ExecutionOk(cfg, ls);
    ShadowInStep(cfg, ls);
    PoppedIsPrefix(Execute(cfg, ls));
  }

  lemma PoppedIsPrefix(s: System)
    requires AllInLog(s.Log(), s.popped) && |s.popped| <= |s.Log()|
    requires forall i :: 0 <= i < |s.popped| ==> s.popped[i].seqNo == i
    ensures EventsOf(s.popped) == s.Log()[..|s.popped|]
  {
    forall i | 0 <= i < |s.popped| ensures EventsOf(s.popped)[i] == s.Log()[i] {
      assert InLog(s.Log(), s.popped[i]);
    }
  }

  // Position.

  ghost predicate PositionOk(s: System) {
    && s.strategy.inventory == Inventory(EventsOf(s.popped))
    && s.strategy.cash == Cash(EventsOf(s.popped))
    && s.strategy.tradesCount == OwnTrades(EventsOf(s.popped))
  }

  lemma NextPosition(cfg: Config, s: System, l: Label)
    requires PositionOk(s)
    ensures PositionOk(Next(cfg, s, l))
  {
    if l.PopEvent? && s.events != [] {
      var e := s.events[0];
      assert EventsOf(s.popped + [e])[..|s.popped|] == EventsOf(s.popped);
      EventAdds(s.strategy, e);
    }
  }

  lemma {:induction false} ContinuePosition(cfg: Config, s: System, ls: seq<Label>)
    requires PositionOk(s)
    ensures PositionOk(Continue(cfg, s, ls))
    decreases |ls|
  {
    if ls != [] {
      var k := |ls| - 1;
      ContinuePosition(cfg, s, ls[..k]);
      NextPosition(cfg, Continue(cfg, s, ls[..k]), ls[k]);
    }
  }

  /** In every execution the inventory, the cash and the fill count are those of the events
      replayed, and of nothing else: neither a resync nor a decision moves them. */
  lemma AccountsAreKept(cfg: Config, ls: seq<Label>)
    ensures var s := Execute(cfg, ls);
            var es := EventsOf(s.popped);
            && s.strategy.inventory == Inventory(es) && s.strategy.cash == Cash(es)
            && s.strategy.tradesCount == OwnTrades(es)
  {
    ContinuePosition(cfg, InitSystem(cfg), ls);
  }

  /** In every execution, resyncs included, the strategy's position differs from the feed's by
      exactly our fills it has not replayed, less those it has replayed again: a resync repairs
      the book and never the position. With no event replayed twice, the difference is exactly
      the trades of ours not replayed. */
  lemma PositionIsOffByLostTrades(cfg: Config, ls: seq<Label>)
    ensures var s := Execute(cfg, ls);
            var log := s.Log();
            && Inventory(log) - s.strategy.inventory == Missed(log, s.popped)
            && ((forall n :: 0 <= n < |log| ==> Times(s.popped, n) <= 1) ==>
                  Inventory(log) - s.strategy.inventory == Inventory(Kept(log, Undelivered(|log|, s.popped))))
  {
    ExecutionOk(cfg, ls);
    ContinuePosition(cfg, InitSystem(cfg), ls);
    var s := Execute(cfg, ls);
    PositionError(s.Log(), s.popped);
    if forall n :: 0 <= n < |s.Log()| ==> Times(s.popped, n) <= 1 { MissedIsLost(s.Log(), s.popped); }
  }

  /** The net passive position of our orders according to a log. */
  function NetPassive(log: seq<MarketEvent>): int {
    PassiveQty(OurAdds(log, Bid), log) - PassiveQty(OurAdds(log, Ask), log)
  }

  lemma ObservedPosition(cfg: Config, s: System, l: Label)
    requires SystemOk(s) && l.Tick? && PushesQuote(s, Next(cfg, s, l))
    ensures Risk.Abs(s.strategy.inventory) <= 60
  {
    var s' := QuotePushed(cfg, s, l);
    var j := |s.observed|;
    Risk.UnlatchedWithinLimits(LIMITS, s'.observed, j, j);
  }

  lemma NetIsInventory(log: seq<MarketEvent>)
    requires LogOk(log)
    ensures NetPassive(log) == Inventory(log)
  {
    PositionIsPassiveFills(log);
  }

  lemma PositionAccount(cfg: Config, ls: seq<Label>) returns (s: System, missed: int)
    ensures s == Execute(cfg, ls) && SystemOk(s) && missed == Missed(s.Log(), s.popped)
    ensures NetPassive(s.Log()) == s.strategy.inventory + missed
  {
    s := Execute(cfg, ls);
    missed := Missed(s.Log(), s.popped);
    ExecutionOk(cfg, ls);
    PositionIsOffByLostTrades(cfg, ls);
    NetIsInventory(s.Log());
  }

  /** Whenever a quote is pushed, the net passive fills of our orders over the whole feed are
      within the inventory limit, give or take the fills of ours the strategy never saw. */
  lemma QuotedPositionIsBounded(cfg: Config, ls: seq<Label>, l: Label) returns (net: int, missed: int)
    requires l.Tick?
    ensures var s := Execute(cfg, ls);
            net == NetPassive(s.Log()) && missed == Missed(s.Log(), s.popped)
    ensures PushesQuote(Execute(cfg, ls), Next(cfg, Execute(cfg, ls), l)) ==> -60 <= net - missed <= 60
  {
    var s;
    s, missed := PositionAccount(cfg, ls);
    net := NetPassive(s.Log());
    QuoteIsBounded(cfg, s, l);
  }

  lemma QuoteIsBounded(cfg: Config, s: System, l: Label)
    requires SystemOk(s) && l.Tick?
    ensures PushesQuote(s, Next(cfg, s, l)) ==> -60 <= s.strategy.inventory <= 60
  {
    if PushesQuote(s, Next(cfg, s, l)) { ObservedPosition(cfg, s, l); }
  }

  /** On a gapless feed they are within the limit as of the last event replayed. */
  lemma GaplessQuoteIsBounded(cfg: Config, ls: seq<Label>, l: Label)
    requires l.Tick? && PushesQuote(Execute(cfg, ls), Next(cfg, Execute(cfg, ls), l))
    requires Gapless(Execute(cfg, ls))
    ensures var s := Execute(cfg, ls);
            && |s.popped| <= |s.Log()|
            && Risk.Abs(NetPassive(s.Log()[..|s.popped|])) <= 60
  {
    ExecutionOk(cfg, ls);
    var s := Execute(cfg, ls);
    ObservedPosition(cfg, s, l);
    InOrderStaysInStep(cfg, ls);
    ContinuePosition(cfg, InitSystem(cfg), ls);
    PrefixOk(s.Log(), |s.popped|);
    NetIsInventory(s.Log()[..|s.popped|]);
  }
}
