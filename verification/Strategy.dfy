/** The strategy thread: replaying the feed into a shadow book, position keeping, the
    sequence-gated resync, and the choice between quoting and cancelling. */
module Strategies {
  import opened Types
  import opened Levels
  import opened Feed
  import opened Drift
  import opened Matching
  import opened Venues
  import opened Exchanges
  import opened Guarantees
  import opened OrderBooks
  import opened Conservation
  import Risk

  const OUR_LOT_SIZE: Qty := 5
  const LIMITS := Risk.Limits(60, 8.0, 4.0)

  datatype Strategy = Strategy(
    shadow: Book, inventory: int, cash: int, tradesCount: nat,
    ourBidPrice: Price, ourAskPrice: Price, haveQuotes: bool,
    highestSeq: nat, lastKnownLost: nat, kill: Risk.Switch)

  const INIT_STRATEGY := Strategy(EMPTY_BOOK, 0, 0, 0, 0, 0, false, 0, 0, Risk.INIT_SWITCH)

  /** One event popped from the ring. Nothing filters events by sequence number. */
  function OnEvent(s: Strategy, se: SeqEvent): Strategy {
    var s' := s.(highestSeq := Max(s.highestSeq, se.seqNo), shadow := Apply(s.shadow, se.event));
    match se.event
    case Add(_, side, price, _, _, isOurs) =>
      if isOurs then
        (if side == Bid then s'.(ourBidPrice := price, haveQuotes := true)
         else s'.(ourAskPrice := price, haveQuotes := true))
      else s'
    case Cancel(_, _, _, _) => s'
    case Trade(_, isOurs, side, price, qty, _) =>
      if !isOurs then s'
      else if side == Bid then
        s'.(tradesCount := s.tradesCount + 1, inventory := s.inventory + qty, cash := s.cash - qty * price)
      else
        s'.(tradesCount := s.tradesCount + 1, inventory := s.inventory - qty, cash := s.cash + qty * price)
  }

  function Drained(s: Strategy, events: seq<SeqEvent>): Strategy {
    if events == [] then s else OnEvent(Drained(s, events[..|events| - 1]), events[|events| - 1])
  }

  /** New loss has been reported, and the snapshot is newer than everything applied. */
  predicate ResyncFires(s: Strategy, currentLost: nat, snap: BookResync) {
    currentLost > s.lastKnownLost && snap.seqAtSnapshot > s.highestSeq && (snap.bids != [] || snap.asks != [])
  }

  /** Price of the first entry of ours in a snapshot side. */
  function FirstOurs(es: seq<Entry>, otherwise: Price): (price: Price)
    ensures (forall i :: 0 <= i < |es| ==> !es[i].isOurs) ==> price == otherwise
    ensures forall i :: 0 <= i < |es| && es[i].isOurs && (forall j :: 0 <= j < i ==> !es[j].isOurs) ==>
              price == es[i].price
  {
    if es == [] then otherwise
    else if es[0].isOurs then es[0].price
    else
      assert forall i :: 0 < i < |es| ==> es[i] == es[1..][i - 1];
      FirstOurs(es[1..], otherwise)
  }

  /** The loss signal is consumed whether or not the snapshot is taken. */
  function PullResync(s: Strategy, currentLost: nat, snap: BookResync, ts: nat): Strategy {
    if currentLost <= s.lastKnownLost then s else
      var s' := s.(lastKnownLost := currentLost);
      if ResyncFires(s, currentLost, snap) then
        s'.(shadow := Rebuilt(snap, ts), highestSeq := snap.seqAtSnapshot,
            ourBidPrice := FirstOurs(snap.bids, s.ourBidPrice), ourAskPrice := FirstOurs(snap.asks, s.ourAskPrice))
      else s'
  }

  datatype Decision = Decision(strategy: Strategy, command: Option<StrategyCommand>)

  /** Evaluate the kill switch on our own position, then cancel everything or requote. */
  function Decide(s: Strategy, pnl: real, var95: real, manual: bool, bidTicks: Price, askTicks: Price): Decision {
    var kill := Risk.Evaluate(LIMITS, s.kill, Risk.Observation(s.inventory, pnl, var95, manual));
    if kill.triggered.Some? then
      Decision(s.(kill := kill, haveQuotes := false), Some(CancelAll))
    else
      Decision(s.(kill := kill),
               if !s.haveQuotes || s.ourBidPrice != bidTicks || s.ourAskPrice != askTicks
               then Some(Quote(bidTicks, OUR_LOT_SIZE, askTicks, OUR_LOT_SIZE))
               else None)
  }

  // Replay.

  /** Price of the last of a list of orders. */
  function LastPrice(adds: seq<MarketEvent>, otherwise: Price): Price {
    if adds == [] then otherwise else adds[|adds| - 1].price
  }

  /** What any drain adds to our position and cash, and that it leaves the switch and the loss
      mark alone. */
  lemma {:induction false} DrainAdds(s: Strategy, events: seq<SeqEvent>)
    ensures var d, es := Drained(s, events), EventsOf(events);
            && d.inventory == s.inventory + Inventory(es) && d.cash == s.cash + Cash(es)
            && d.tradesCount == s.tradesCount + OwnTrades(es)
            && d.kill == s.kill && d.lastKnownLost == s.lastKnownLost
    decreases |events|
  {
    if events != [] {
      var n := |events| - 1;
      DrainAdds(s, events[..n]);
      assert EventsOf(events)[..n] == EventsOf(events[..n]);
      EventAdds(Drained(s, events[..n]), events[n]);
    }
  }

  /** What one event adds: a passive fill of ours, at its price, and nothing else. */
  lemma EventAdds(t: Strategy, e: SeqEvent)
    ensures OnEvent(t, e).inventory == t.inventory + Bought(e.event)
    ensures OnEvent(t, e).cash == t.cash - Bought(e.event) * (if e.event.Trade? then e.event.price else 0)
    ensures OnEvent(t, e).tradesCount == t.tradesCount + if e.event.Trade? && e.event.isOurs then 1 else 0
    ensures OnEvent(t, e).kill == t.kill && OnEvent(t, e).lastKnownLost == t.lastKnownLost
  {
    if e.event.Trade? { NegProduct(e.event.qty, e.event.price); }
  }

  /** What any drain leaves our quotes at: the last order of ours reported on each side. */
  lemma {:induction false} DrainQuotes(s: Strategy, events: seq<SeqEvent>)
    ensures var d, es := Drained(s, events), EventsOf(events);
            && d.ourBidPrice == LastPrice(OurAdds(es, Bid), s.ourBidPrice)
            && d.ourAskPrice == LastPrice(OurAdds(es, Ask), s.ourAskPrice)
            && (d.haveQuotes <==> s.haveQuotes || OurAdds(es, Bid) != [] || OurAdds(es, Ask) != [])
    decreases |events|
  {
    if events != [] {
      var n := |events| - 1;
      DrainQuotes(s, events[..n]);
      assert EventsOf(events)[..n] == EventsOf(events[..n]);
      EventQuotes(Drained(s, events[..n]), events[n]);
      OurAddsSnoc(EventsOf(events[..n]), events[n].event, Bid);
      OurAddsSnoc(EventsOf(events[..n]), events[n].event, Ask);
      assert EventsOf(events) == EventsOf(events[..n]) + [events[n].event];
    }
  }

  function OursAdded(e: MarketEvent, side: Side): bool {
    e.Add? && e.isOurs && e.side == side
  }

  lemma EventQuotes(t: Strategy, e: SeqEvent)
    ensures OnEvent(t, e).ourBidPrice == if OursAdded(e.event, Bid) then e.event.price else t.ourBidPrice
    ensures OnEvent(t, e).ourAskPrice == if OursAdded(e.event, Ask) then e.event.price else t.ourAskPrice
    ensures OnEvent(t, e).haveQuotes <==> t.haveQuotes || OursAdded(e.event, Bid) || OursAdded(e.event, Ask)
  {
  }

  /** After any drain the sequence mark is the highest of what it was and what was drained. */
  lemma {:induction false} DrainMarks(s: Strategy, events: seq<SeqEvent>)
    ensures var mark := Drained(s, events).highestSeq;
            && mark >= s.highestSeq && (forall i :: 0 <= i < |events| ==> events[i].seqNo <= mark)
            && (mark == s.highestSeq || exists i :: 0 <= i < |events| && events[i].seqNo == mark)
    decreases |events|
  {
    if events != [] {
      var n := |events| - 1;
      DrainMarks(s, events[..n]);
      var before := Drained(s, events[..n]).highestSeq;
      if before != s.highestSeq {
        var i :| 0 <= i < n && events[..n][i].seqNo == before;
        assert events[i].seqNo == before;
      }
    }
  }

  /** Draining from the start replays the events, books exactly our passive fills, and takes
      the last order of ours reported on each side for our quotes. */
  lemma DrainIsReplay(events: seq<SeqEvent>)
    ensures var s, es := Drained(INIT_STRATEGY, events), EventsOf(events);
            && s.shadow == Fold(es) && s.inventory == Inventory(es) && s.cash == Cash(es)
            && s.ourBidPrice == LastPrice(OurAdds(es, Bid), 0) && s.ourAskPrice == LastPrice(OurAdds(es, Ask), 0)
            && (s.haveQuotes <==> OurAdds(es, Bid) != [] || OurAdds(es, Ask) != [])
  {
    DrainAdds(INIT_STRATEGY, events);
    DrainQuotes(INIT_STRATEGY, events);
    DrainedShadow(INIT_STRATEGY, events);
  }

  lemma NegProduct(q: int, p: int)
    ensures (-q) * p == -(q * p) && q * p == p * q
  {
  }

  /** A lossless drain of any exchange's feed ends with the exchange's own book, and with
      position and cash equal to the net of our orders' passive fills. */
  lemma LosslessDrain(v: Venue, events: seq<SeqEvent>)
    requires VenueOk(v) && EventsOf(events) == v.log
    ensures var s := Drained(INIT_STRATEGY, events);
            && SameBook(v.book, s.shadow)
            && s.inventory == PassiveQty(OurAdds(v.log, Bid), v.log) - PassiveQty(OurAdds(v.log, Ask), v.log)
            && s.cash == PassiveValue(OurAdds(v.log, Ask), v.log) - PassiveValue(OurAdds(v.log, Bid), v.log)
  {
    DrainIsReplay(events);
    PositionIsPassiveFills(v.log);
  }

  /** The decision after any drain, in any state, against the whole history of observations:
      everything is cancelled exactly when some observation so far was a breach; otherwise
      nothing is sent exactly when we have quotes and the last known prices, those of the last
      orders of ours drained, are the wanted ones; otherwise the wanted quote is sent. */
  lemma {:induction false} RequoteIff(s: Strategy, obs: seq<Risk.Observation>, events: seq<SeqEvent>,
                                      pnl: real, var95: real, manual: bool, bidTicks: Price, askTicks: Price)
    requires s.kill == Risk.EvaluateAll(LIMITS, obs)
    ensures var d, es := Drained(s, events), EventsOf(events);
            var obs' := obs + [Risk.Observation(d.inventory, pnl, var95, manual)];
            var command := Decide(d, pnl, var95, manual, bidTicks, askTicks).command;
            var quoted := && (s.haveQuotes || OurAdds(es, Bid) != [] || OurAdds(es, Ask) != [])
                          && LastPrice(OurAdds(es, Bid), s.ourBidPrice) == bidTicks
                          && LastPrice(OurAdds(es, Ask), s.ourAskPrice) == askTicks;
            command == if Breached(obs') then Some(CancelAll)
                       else if quoted then None else Some(Quote(bidTicks, 5, askTicks, 5))
  {
    DrainAdds(s, events);
    DrainQuotes(s, events);
    var obs' := obs + [Risk.Observation(Drained(s, events).inventory, pnl, var95, manual)];
    assert obs'[..|obs|] == obs;
    LatchedIffBreached(obs');
  }

  /** An observation that must stop us: a manual kill, more than 60 lots either way, P&L down
      by more than 8 from any earlier observation, or a VaR of more than 4. */
  ghost predicate BreachedAt(obs: seq<Risk.Observation>, j: nat)
    requires j < |obs|
  {
    || obs[j].manual || obs[j].inventory > 60 || obs[j].inventory < -60 || obs[j].var95 > 4.0
    || exists i :: 0 <= i <= j && obs[i].pnl - obs[j].pnl > 8.0
  }

  ghost predicate Breached(obs: seq<Risk.Observation>) {
    exists j :: 0 <= j < |obs| && BreachedAt(obs, j)
  }

  /** The switch has latched exactly when some observation so far was such. */
  lemma LatchedIffBreached(obs: seq<Risk.Observation>)
    ensures Risk.EvaluateAll(LIMITS, obs).triggered.Some? <==> Breached(obs)
  {
    Risk.LatchIsFirstBreach(LIMITS, obs);
    forall j | 0 <= j < |obs| ensures BreachedAt(obs, j) <==> Risk.BreachAt(LIMITS, obs, j).Some? {
      assert Risk.DrawdownAt(LIMITS, obs, j) <==> exists i :: 0 <= i <= j && obs[i].pnl - obs[j].pnl > 8.0;
    }
  }

  /** Deciding leaves the book, the position, the marks and the quote prices alone: the switch
      becomes that of the whole history, and a breach forgets our quotes. */
  lemma DecideLeaves(s: Strategy, obs: seq<Risk.Observation>,
                     pnl: real, var95: real, manual: bool, bidTicks: Price, askTicks: Price)
    requires s.kill == Risk.EvaluateAll(LIMITS, obs)
    ensures var obs' := obs + [Risk.Observation(s.inventory, pnl, var95, manual)];
            Decide(s, pnl, var95, manual, bidTicks, askTicks).strategy ==
            s.(kill := Risk.EvaluateAll(Risk.Limits(60, 8.0, 4.0), obs'), haveQuotes := s.haveQuotes && !Breached(obs'))
  {
    var obs' := obs + [Risk.Observation(s.inventory, pnl, var95, manual)];
    assert obs'[..|obs|] == obs;
    LatchedIffBreached(obs');
  }

  // Our quotes, as a snapshot shows them.

  /** Every entry of ours on a published side carries the price of our tracker. */
  lemma {:induction false} FirstOursIs(es: seq<Entry>, otherwise: Price, price: Price)
    requires forall i :: 0 <= i < |es| && es[i].isOurs ==> es[i].price == price
    ensures FirstOurs(es, otherwise) == if exists i :: 0 <= i < |es| && es[i].isOurs then price else otherwise
  {
    if es != [] && !es[0].isOurs {
      FirstOursIs(es[1..], otherwise, price);
      if exists i :: 0 <= i < |es| && es[i].isOurs {
        var i :| 0 <= i < |es| && es[i].isOurs;
        assert es[1..][i - 1].isOurs;
      }
    }
  }

  lemma ExportedOurs(x: Exchange, side: Side, i: nat)
    requires ExchangeOk(x) && i < |Flatten(Ask, x.venue.book.Of(side))|
    ensures var e := Entries(Flatten(Ask, x.venue.book.Of(side)))[i];
            e.isOurs ==> x.OurId(side) == Some(e.id) && x.OurPrice(side) == e.price
  {
    var levels := x.venue.book.Of(side);
    var o := Flatten(Ask, levels)[i];
    FlattenMembers(Ask, levels);
    assert RestsIn(levels, o);
    var p :| p in levels && o in levels[p];
    var k :| 0 <= k < |levels[p]| && levels[p][k] == o;
    VenueBookOk(x.venue);
    assert QueueOk(side, p, levels[p]);
    OursIsTracked(x, side, p, k);
  }

  /** A resync sets our quote prices to those of the orders of ours that really rest: the
      exchange's own trackers, for each side on which the snapshot shows an order of ours. */
  lemma ResyncRestoresQuotes(x: Exchange, s: Strategy, currentLost: nat, ts: nat)
    requires ExchangeOk(x)
    requires ResyncFires(s, currentLost, Export(x.venue.book, |x.venue.log|))
    ensures var snap := Export(x.venue.book, |x.venue.log|);
            var s' := PullResync(s, currentLost, snap, ts);
            && s'.ourBidPrice == (if exists i :: 0 <= i < |snap.bids| && snap.bids[i].isOurs then x.ourBidPrice
                                  else s.ourBidPrice)
            && s'.ourAskPrice == (if exists i :: 0 <= i < |snap.asks| && snap.asks[i].isOurs then x.ourAskPrice
                                  else s.ourAskPrice)
  {
    var snap := Export(x.venue.book, |x.venue.log|);
    forall i | 0 <= i < |snap.bids| && snap.bids[i].isOurs ensures snap.bids[i].price == x.ourBidPrice {
      ExportedOurs(x, Bid, i);
    }
    forall i | 0 <= i < |snap.asks| && snap.asks[i].isOurs ensures snap.asks[i].price == x.ourAskPrice {
      ExportedOurs(x, Ask, i);
    }
    FirstOursIs(snap.bids, s.ourBidPrice, x.ourBidPrice);
    FirstOursIs(snap.asks, s.ourAskPrice, x.ourAskPrice);
  }

  // Snapshots and the splice.

  /** A snapshot tagged S rebuilds to what folding events 0..S-1 gives. */
  ghost predicate SnapshotOk(log: seq<MarketEvent>, snap: BookResync) {
    && snap.seqAtSnapshot <= |log|
    && SameBook(InsertedFrom(snap), Fold(log[..snap.seqAtSnapshot]))
  }

  function InsertedFrom(snap: BookResync): Book { Rebuilt(snap, 0) }

  /** The timestamp a rebuild stamps on every order is the only thing it decides. */
  lemma {:induction false} StampOnly(side: Side, a: Levels, b: Levels, es: seq<Entry>, ts: nat, ts': nat)
    requires SameLevels(a, b)
    ensures SameLevels(InsertAll(side, a, es, ts), InsertAll(side, b, es, ts'))
    decreases |es|
  {
    if es != [] {
      var o, o' := EntryOrder(side, es[0], ts), EntryOrder(side, es[0], ts');
      SameInsert(a, b, o, o');
      StampOnly(side, Insert(a, o), Insert(b, o'), es[1..], ts, ts');
    }
  }

  lemma SameTransitive(a: Book, b: Book, c: Book)
    requires SameBook(a, b) && SameBook(b, c)
    ensures SameBook(a, c)
  {
    SameLevelsTransitive(a.bids, b.bids, c.bids);
    SameLevelsTransitive(a.asks, b.asks, c.asks);
  }

  lemma SameLevelsTransitive(a: Levels, b: Levels, c: Levels)
    requires SameLevels(a, b) && SameLevels(b, c)
    ensures SameLevels(a, c)
  {
    forall p | p in a ensures SameQueue(a[p], c[p]) {
      assert SameQueue(a[p], b[p]) && SameQueue(b[p], c[p]);
      forall i | 0 <= i < |a[p]| ensures SameOrder(a[p][i], c[p][i]) {
        assert SameOrder(a[p][i], b[p][i]) && SameOrder(b[p][i], c[p][i]);
      }
    }
  }

  /** What the exchange publishes is always such a snapshot, whatever it then goes on to do. */
  lemma PublishedIsSnapshot(v: Venue, later: seq<MarketEvent>)
    requires VenueOk(v)
    ensures SnapshotOk(v.log + later, Export(v.book, |v.log|))
  {
    VenueBookOk(v);
    ResyncRoundTrip(v.book, |v.log|, 0);
    assert (v.log + later)[..|v.log|] == v.log;
    SameTransitive(InsertedFrom(Export(v.book, |v.log|)), v.book, Fold(v.log));
  }

  lemma RebuildIsFold(log: seq<MarketEvent>, snap: BookResync, ts: nat)
    requires SnapshotOk(log, snap)
    ensures SameBook(Rebuilt(snap, ts), Fold(log[..snap.seqAtSnapshot]))
  {
    StampOnly(Bid, map[], map[], snap.bids, ts, 0);
    StampOnly(Ask, map[], map[], snap.asks, ts, 0);
    SameTransitive(Rebuilt(snap, ts), InsertedFrom(snap), Fold(log[..snap.seqAtSnapshot]));
  }

  /** Replaying from a book in step with the first `from` events, contiguously, ends in step. */
  lemma ContiguousStaysInStep(shadow: Book, log: seq<MarketEvent>, from: nat, to: nat)
    requires from <= to <= |log| && SameBook(shadow, Fold(log[..from]))
    ensures SameBook(Replay(shadow, log[from..to]), Fold(log[..to]))
  {
    SameReplay(shadow, Fold(log[..from]), log[from..to]);
    ReplayAppend(EMPTY_BOOK, log[..from], log[from..to]);
    assert log[..from] + log[from..to] == log[..to];
  }

  lemma {:induction false} DrainedShadow(s: Strategy, events: seq<SeqEvent>)
    ensures Drained(s, events).shadow == Replay(s.shadow, EventsOf(events))
    decreases |events|
  {
    if events != [] {
      var n := |events| - 1;
      DrainedShadow(s, events[..n]);
      assert EventsOf(events)[..n] == EventsOf(events[..n]);
    }
  }

  /** The events are those numbered `from`, `from + 1`, ... of the log, without a break. */
  ghost predicate Contiguous(log: seq<MarketEvent>, from: nat, events: seq<SeqEvent>) {
    && from + |events| <= |log|
    && forall i :: 0 <= i < |events| ==> events[i] == SeqEvent(from + i, log[from + i])
  }

  lemma {:induction false} DrainInStep(s: Strategy, log: seq<MarketEvent>, from: nat, events: seq<SeqEvent>)
      returns (end: Strategy)
    requires Contiguous(log, from, events) && SameBook(s.shadow, Fold(log[..from]))
    ensures end == Drained(s, events) && SameBook(end.shadow, Fold(log[..from + |events|]))
  {
    end := Drained(s, events);
    DrainedShadow(s, events);
    assert EventsOf(events) == log[from..from + |events|];
    ContiguousStaysInStep(s.shadow, log, from, from + |events|);
  }

  lemma FiredShadow(s: Strategy, currentLost: nat, snap: BookResync, ts: nat) returns (s': Strategy)
    requires ResyncFires(s, currentLost, snap)
    ensures s' == PullResync(s, currentLost, snap, ts) && s'.shadow == Rebuilt(snap, ts)
  {
    s' := PullResync(s, currentLost, snap, ts);
  }

  lemma FiredInStep(s: Strategy, log: seq<MarketEvent>, currentLost: nat, snap: BookResync, ts: nat)
      returns (s': Strategy)
    requires SnapshotOk(log, snap) && ResyncFires(s, currentLost, snap)
    ensures s' == PullResync(s, currentLost, snap, ts)
    ensures SameBook(s'.shadow, Fold(log[..snap.seqAtSnapshot]))
  {
    s' := FiredShadow(s, currentLost, snap, ts);
    RebuildIsFold(log, snap, ts);
  }

  /** The splice: after the gate fires at S, whatever drift there was before, contiguous
      deliveries from S on keep the shadow equal to the folded feed at every later point. */
  lemma ResyncSplice(s: Strategy, log: seq<MarketEvent>, currentLost: nat, snap: BookResync, ts: nat,
                     events: seq<SeqEvent>)
    returns (end: Strategy)
    requires SnapshotOk(log, snap) && ResyncFires(s, currentLost, snap)
    requires Contiguous(log, snap.seqAtSnapshot, events)
    ensures end == Drained(PullResync(s, currentLost, snap, ts), events)
    ensures SameBook(end.shadow, Fold(log[..snap.seqAtSnapshot + |events|]))
  {
    var s' := FiredInStep(s, log, currentLost, snap, ts);
    end := DrainInStep(s', log, snap.seqAtSnapshot, events);
  }

  /** A loss signal is acted on at most once: whatever the first check did with it, no later
      check with the same count takes any snapshot, however new. */
  lemma SignalIsConsumed(s: Strategy, currentLost: nat, snap: BookResync, ts: nat, later: BookResync, ts': nat)
    ensures var s1 := PullResync(s, currentLost, snap, ts);
            !ResyncFires(s1, currentLost, later) && PullResync(s1, currentLost, later, ts') == s1
  {
  }

  /** A check touches the shadow, the sequence mark, the loss mark and the quote prices, and
      never the position, the cash, the fill count, the kill switch or whether we have quotes.
      The loss mark moves to the count whatever is decided; the rest moves only when the count
      is new and the snapshot newer than everything applied, and not empty. */
  lemma PullTouches(s: Strategy, currentLost: nat, snap: BookResync, ts: nat)
    ensures var s' := PullResync(s, currentLost, snap, ts);
            var taken := currentLost > s.lastKnownLost && snap.seqAtSnapshot > s.highestSeq
                         && (|snap.bids| > 0 || |snap.asks| > 0);
            && s'.inventory == s.inventory && s'.cash == s.cash && s'.tradesCount == s.tradesCount
            && s'.haveQuotes == s.haveQuotes && s'.kill == s.kill
            && s'.lastKnownLost == (if currentLost > s.lastKnownLost then currentLost else s.lastKnownLost)
            && s'.highestSeq == (if taken then snap.seqAtSnapshot else s.highestSeq)
            && (!taken ==> s'.shadow == s.shadow && s'.ourBidPrice == s.ourBidPrice && s'.ourAskPrice == s.ourAskPrice)
  {
  }

  datatype Check = Check(snap: BookResync, ts: nat)

  /** Repeated checks while the loss count stands still. */
  function PullAll(s: Strategy, currentLost: nat, checks: seq<Check>): Strategy {
    if checks == [] then s else
      var n := |checks| - 1;
      PullResync(PullAll(s, currentLost, checks[..n]), currentLost, checks[n].snap, checks[n].ts)
  }

  /** The first check at a loss count decides. However many follow at that count and whatever
      they offer, the shadow ends in step with the feed at the first snapshot's position if and
      only if it was in step there already, or that snapshot was newer than everything applied
      and not empty. A repair refused is not retried for that loss count. */
  lemma {:induction false} RepairIff(s: Strategy, log: seq<MarketEvent>, currentLost: nat, checks: seq<Check>)
    requires checks != [] && currentLost > s.lastKnownLost && SnapshotOk(log, checks[0].snap)
    ensures var first := checks[0].snap;
            var s', truth := PullAll(s, currentLost, checks), Fold(log[..first.seqAtSnapshot]);
            var taken := first.seqAtSnapshot > s.highestSeq && (first.bids != [] || first.asks != []);
            && (SameBook(s'.shadow, truth) <==> taken || SameBook(s.shadow, truth))
            && (!taken ==> s'.shadow == s.shadow && s'.highestSeq == s.highestSeq)
  {
    PullAllIsFirst(s, currentLost, checks);
    RebuildIsFold(log, checks[0].snap, checks[0].ts);
  }

  lemma {:induction false} PullAllIsFirst(s: Strategy, currentLost: nat, checks: seq<Check>)
    requires checks != [] && currentLost > s.lastKnownLost
    ensures PullAll(s, currentLost, checks) == PullResync(s, currentLost, checks[0].snap, checks[0].ts)
    decreases |checks|
  {
    var n := |checks| - 1;
    if n == 0 {
      assert PullAll(s, currentLost, checks[..0]) == s;
    } else {
      PullAllIsFirst(s, currentLost, checks[..n]);
      SignalIsConsumed(s, currentLost, checks[0].snap, checks[0].ts, checks[n].snap, checks[n].ts);
    }
  }

  // Stale deliveries.

  /** An order cancelled, or traded away, before `n` is not found again at `n`. */
  lemma {:induction false} StaleTarget(log: seq<MarketEvent>, n: nat, e: MarketEvent)
    requires LogOk(log) && n <= |log| && e in log[..n] && !e.Add?
    ensures LogOk(log[..n]) && e.orderId in Adds(log[..n])
    ensures Adds(log[..n])[e.orderId].side == e.side && Adds(log[..n])[e.orderId].price == e.price
    ensures e.Cancel? ==> !HasOrder(Fold(log[..n]).Of(e.side), e.price, e.orderId)
    ensures e.Trade? ==> e.qty > 0
  {
    PrefixOk(log, n);
    var pre := log[..n];
    var k :| 0 <= k < n && pre[k] == e;
    PrefixOk(pre, k);
    EventNamesAdded(pre[..k], e);
    AddsGrow(pre, k, e.orderId);
    FullLaw(pre, e.orderId);
    FoldOk(pre);
    HasOrderIsResting(e.side, Fold(pre).Of(e.side), e.price, e.orderId);
  }

  lemma {:induction false} AddsGrow(log: seq<MarketEvent>, k: nat, id: OrderId)
    requires LogOk(log) && k <= |log| && id in Adds(log[..k])
    ensures id in Adds(log) && Adds(log)[id] == Adds(log[..k])[id]
    decreases |log|
  {
    if k < |log| {
      assert log[..|log| - 1][..k] == log[..k];
      AddsGrow(log[..|log| - 1], k, id);
    } else {
      assert log[..k] == log;
    }
  }

  /** A late Add lengthens its queue, so the book is no longer the same. */
  lemma InsertDiffers(a: Levels, b: Levels, o: Order)
    requires SameLevels(a, b)
    ensures !SameLevels(Insert(a, o), b)
  {
    var q := QueueAt(a, o.price);
    assert |Insert(a, o)[o.price]| == |q| + 1;
    if o.price in b { assert SameQueue(a[o.price], b[o.price]); }
  }

  lemma ReduceDiffers(side: Side, a: Levels, b: Levels, price: Price, id: OrderId, qty: Qty)
    requires SameLevels(a, b) && LevelsOk(side, a) && HasOrder(a, price, id) && qty > 0
    ensures !SameLevels(ReduceOrder(a, price, id, qty), b)
  {
    ReduceResting(side, a, price, id, qty, price, id);
    HasOrderIsResting(side, a, price, id);
    SameResting(a, b, price, id);
    if SameLevels(ReduceOrder(a, price, id, qty), b) {
      SameResting(ReduceOrder(a, price, id, qty), b, price, id);
    }
  }

  lemma AbsentUntouched(side: Side, levels: Levels, price: Price, id: OrderId, qty: Qty)
    requires LevelsOk(side, levels) && !HasOrder(levels, price, id)
    ensures RemoveOrder(levels, price, id) == levels && ReduceOrder(levels, price, id, qty) == levels
  {
    if price in levels { assert QueueOk(side, price, levels[price]); }
  }

  /** Nothing filters old events, so the splice needs none still in flight. Exactly: for a
      shadow in step at `n`, delivering again an event older than `n` leaves it in step if and
      only if the event is not an Add and not a Trade against an order still resting. */
  lemma StaleDeliveryIff(shadow: Book, log: seq<MarketEvent>, n: nat, e: MarketEvent)
    requires LogOk(log) && n <= |log| && e in log[..n] && SameBook(shadow, Fold(log[..n]))
    ensures SameBook(Apply(shadow, e), Fold(log[..n])) <==>
              !e.Add? && (e.Trade? ==> !HasOrder(Fold(log[..n]).Of(e.side), e.price, e.orderId))
  {
    var fold := Fold(log[..n]);
    PrefixOk(log, n);
    FoldOk(log[..n]);
    SameLevelsSym(shadow.Of(e.side), fold.Of(e.side));
    SameLevelsOk(e.side, fold.Of(e.side), shadow.Of(e.side));
    SameRemove(shadow.Of(e.side), fold.Of(e.side), e.price, e.orderId);
    if e.Add? {
      InsertDiffers(shadow.Of(e.side), fold.Of(e.side), Order(e.orderId, e.side, e.price, e.qty, e.ts, e.isOurs));
    } else {
      StaleTarget(log, n, e);
      if HasOrder(fold.Of(e.side), e.price, e.orderId) {
        ReduceDiffers(e.side, shadow.Of(e.side), fold.Of(e.side), e.price, e.orderId, e.qty);
      } else {
        AbsentUntouched(e.side, shadow.Of(e.side), e.price, e.orderId, if e.Trade? then e.qty else 0);
      }
    }
  }
}
