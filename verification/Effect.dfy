/** What each step of the exchange does, read off the feed it emits and the book it leaves: who
    trades with whom, at what prices, for how much, what is cancelled and what comes to rest. */
module Effects {
  import opened Types
  import opened Levels
  import opened Matching
  import opened Feed
  import opened Drift
  import opened Venues
  import opened Exchanges
  import opened Guarantees

  // Trades.

  function TradeTotal(events: seq<MarketEvent>): Qty {
    if events == [] then 0 else (if events[0].Trade? then events[0].qty else 0) + TradeTotal(events[1..])
  }

  lemma {:induction false} TradeTotalOf(fills: seq<Fill>)
    ensures TradeTotal(TradeEvents(fills)) == FillTotal(fills)
  {
    if fills != [] { TradeTotalOf(fills[1..]); }
  }

  /** Trades against one side, all stamped at one moment. */
  ghost predicate TradesAgainst(events: seq<MarketEvent>, side: Side, ts: nat) {
    forall e :: e in events ==> e.Trade? && e.side == side && e.ts == ts
  }

  /** No trade at a price worse for the aggressor than its limit. */
  ghost predicate AtLimitOrBetter(events: seq<MarketEvent>, aggressor: Side, limit: Price) {
    forall e :: e in events ==> if aggressor == Bid then e.price <= limit else e.price >= limit
  }

  lemma {:induction false} TradesOfFills(fills: seq<Fill>, side: Side, ts: nat)
    requires forall f :: f in fills ==> f.sideOfRestingOrder == side && f.ts == ts
    ensures TradesAgainst(TradeEvents(fills), side, ts)
    ensures forall e :: e in TradeEvents(fills) ==> exists f :: f in fills && f.price == e.price
  {
    if fills != [] { TradesOfFills(fills[1..], side, ts); }
  }

  /** The Add reported for a remainder, if there is one. */
  function Rested(add: MarketEvent): seq<MarketEvent>
    requires add.Add?
  {
    if add.qty > 0 then [add] else []
  }

  // Noise orders.

  /** A noise order takes from the side opposite to its own, as much as it asks for or all there
      is, and touches nothing else: not its own side, no slot, no tracker, no id. */
  lemma NoiseEffect(cfg: Config, actions: seq<Action>, aggressor: Side, ts: nat) returns (trades: seq<MarketEvent>)
    ensures var x, opp := Run(cfg, actions), if aggressor == Bid then Ask else Bid;
            var x' := Step(cfg, x, Noise(aggressor, ts));
            && x' == x.(venue := x'.venue)
            && x'.venue.book.Of(aggressor) == x.venue.book.Of(aggressor)
            && x'.venue.log == x.venue.log + trades && TradesAgainst(trades, opp, ts)
            && TradeTotal(trades) == Min(cfg.noiseQty, RestingTotal(Flatten(opp, x.venue.book.Of(opp))))
  {
    RunOk(cfg, actions);
    var x := Run(cfg, actions);
    VenueBookOk(x.venue);
    ExecuteHitsOpposite(x.venue.book, aggressor, cfg.noiseQty, ts);
    var fills := Execute(x.venue.book, aggressor, cfg.noiseQty, ts).fills;
    trades := TradeEvents(fills);
    TradesOfFills(fills, aggressor.Opposite(), ts);
    TradeTotalOf(fills);
  }

  // Submissions.

  /** What a submission reports: trades on the other side within its limit, then what is left,
      at its own price. Together they are the quantity submitted. */
  lemma SubmitReports(v: Venue, id: OrderId, side: Side, price: Price, qty: Qty, ts: nat, addTs: nat, isOurs: bool)
      returns (v': Venue, trades: seq<MarketEvent>, left: Qty)
    requires VenueOk(v) && forall k :: k in Adds(v.log) ==> k < id
    ensures v' == SubmitReported(v, id, side, price, qty, ts, addTs, isOurs)
    ensures left == Unfilled(v, side, price, qty, ts) && TradeTotal(trades) + left == qty
    ensures v'.log == v.log + trades + Rested(Add(id, side, price, left, addTs, isOurs))
    ensures TradesAgainst(trades, side.Opposite(), ts) && AtLimitOrBetter(trades, side, price)
  {
    v' := SubmitReported(v, id, side, price, qty, ts, addTs, isOurs);
    var fills := Submit(v.book, id, side, price, qty, ts, isOurs).fills;
    trades, left := TradeEvents(fills), Unfilled(v, side, price, qty, ts);
    FilledPlusLeft(v, side, price, qty, ts);
    SubmitHonoursLimit(v.book, id, side, price, qty, ts, isOurs);
    TradesOfFills(fills, side.Opposite(), ts);
    TradeTotalOf(fills);
  }

  /** The remainder rests whole under its own id and price, and leaves the other side clear. */
  lemma SubmitRests(v: Venue, id: OrderId, side: Side, price: Price, qty: Qty, ts: nat, addTs: nat, isOurs: bool)
    requires VenueOk(v) && forall k :: k in Adds(v.log) ==> k < id
    requires Unfilled(v, side, price, qty, ts) > 0
    ensures RestingQty(SubmitReported(v, id, side, price, qty, ts, addTs, isOurs).book.Of(side), price, id)
         == Unfilled(v, side, price, qty, ts)
  {
    var left := Unfilled(v, side, price, qty, ts);
    var mid := SweepVenue(v, side.Opposite(), Some(price), qty, ts);
    SubmitIsSweepThenRest(v, id, side, price, qty, ts, addTs, isOurs);
    SweepReported(v, side.Opposite(), Some(price), qty, ts);
    if HasOrder(mid.book.Of(side), price, id) { FoundIsAdded(mid, side, price, id); }
    InsertResting(mid.book.Of(side), Order(id, side, price, left, ts, isOurs), price, id);
  }

  lemma FoundIsAdded(v: Venue, side: Side, price: Price, id: OrderId)
    requires VenueOk(v) && HasOrder(v.book.Of(side), price, id)
    ensures id in Adds(v.log)
  {
    VenueLocated(v, side);
    var q := QueueAt(v.book.Of(side), price);
    assert AddedAs(Adds(v.log), side, price, q[Position(q, id)]);
  }

  // Background refreshes.

  /** The Cancel a refresh reports, if the slot's old order still rests. */
  function OldCancel(x: Exchange, side: Side, lvl: nat, ts: nat): seq<MarketEvent>
    requires lvl < |x.Slots(side)|
  {
    var slot := x.Slots(side)[lvl];
    if slot.Some? && HasOrder(x.venue.book.Of(side), slot.value.price, slot.value.id)
    then [Cancel(slot.value.id, side, slot.value.price, ts)]
    else []
  }

  lemma ClearReports(x: Exchange, side: Side, lvl: nat, ts: nat) returns (x': Exchange)
    requires lvl < |x.Slots(side)|
    ensures x' == ClearSlot(x, side, lvl, ts)
    ensures x'.venue.log == x.venue.log + OldCancel(x, side, lvl, ts)
    ensures x' == x.WithSlots(side, x.Slots(side)[lvl := None]).(venue := x'.venue)
  {
    x' := ClearSlot(x, side, lvl, ts);
    assert x.Slots(side)[lvl].None? ==> x.Slots(side)[lvl := None] == x.Slots(side);
  }

  lemma FillIs(x: Exchange, side: Side, lvl: nat, price: Price, qty: Qty, ts: nat, addTs: nat) returns (x': Exchange)
    requires lvl < |x.Slots(side)|
    ensures x' == FillSlot(x, side, lvl, price, qty, ts, addTs)
    ensures x'.venue == SubmitReported(x.venue, x.idGen + 1, side, price, qty, ts, addTs, false)
    ensures var slot := if Unfilled(x.venue, side, price, qty, ts) > 0 then Some(Slot(x.idGen + 1, price))
                        else x.Slots(side)[lvl];
            x' == Refreshed(x, side, lvl, slot, x'.venue)
  {
    x' := FillSlot(x, side, lvl, price, qty, ts, addTs);
    assert x.Slots(side)[lvl := x.Slots(side)[lvl]] == x.Slots(side);
  }

  /** The exchange a refresh leaves, apart from its venue. */
  function Refreshed(x: Exchange, side: Side, lvl: nat, slot: Option<Slot>, v: Venue): Exchange
    requires lvl < |x.Slots(side)|
  {
    x.WithSlots(side, x.Slots(side)[lvl := slot]).(idGen := x.idGen + 1, venue := v)
  }

  lemma RefreshedTwice(x: Exchange, side: Side, lvl: nat, v1: Venue, slot: Option<Slot>, v: Venue)
    requires lvl < |x.Slots(side)|
    ensures var x1 := x.WithSlots(side, x.Slots(side)[lvl := None]).(venue := v1);
            && x1.Slots(side)[lvl] == None && x1.idGen == x.idGen
            && Refreshed(x1, side, lvl, slot, v) == Refreshed(x, side, lvl, slot, v)
  {
    var slots := x.Slots(side);
    assert slots[lvl := None][lvl := slot] == slots[lvl := slot];
  }

  /** All a refresh does: the level's old order cancelled, if it still rests, and no other; then
      a fresh one submitted `lvl + 1` ticks from the mid on its own side: what trades does so
      within that price, what is left rests at it whole and is what the slot names. */
  ghost predicate RefreshDone(cfg: Config, x: Exchange, x': Exchange, side: Side, lvl: nat, midTicks: Price,
                              cancelTs: nat, ts: nat, addTs: nat, trades: seq<MarketEvent>)
    requires lvl < |x.Slots(side)|
  {
    && TradeTotal(trades) <= cfg.levelQty
    && var price, id := if side == Bid then midTicks - lvl - 1 else midTicks + lvl + 1, x.idGen + 1;
       var left := cfg.levelQty - TradeTotal(trades);
       && x'.venue.log == x.venue.log + OldCancel(x, side, lvl, cancelTs) + trades
                          + Rested(Add(id, side, price, left, addTs, false))
       && TradesAgainst(trades, if side == Bid then Ask else Bid, ts) && AtLimitOrBetter(trades, side, price)
       && (left > 0 ==> RestingQty(x'.venue.book.Of(side), price, id) == left)
       && x' == Refreshed(x, side, lvl, if left > 0 then Some(Slot(id, price)) else None, x'.venue)
  }

  lemma RefreshRun(cfg: Config, x: Exchange, side: Side, lvl: nat, midTicks: Price, cancelTs: nat, ts: nat, addTs: nat)
      returns (x1: Exchange, x': Exchange, trades: seq<MarketEvent>)
    requires ExchangeOk(x) && lvl < |x.Slots(side)|
    ensures x1 == ClearSlot(x, side, lvl, cancelTs) && lvl < |x1.Slots(side)|
    ensures x' == FillSlot(x1, side, lvl, BackgroundPrice(side, lvl, midTicks), cfg.levelQty, ts, addTs)
    ensures RefreshDone(cfg, x, x', side, lvl, midTicks, cancelTs, ts, addTs, trades)
  {
    var price := BackgroundPrice(side, lvl, midTicks);
    var left;
    x1 := ClearedClean(x, side, lvl, cancelTs);
    x', trades, left := FillReports(x1, side, lvl, price, cfg.levelQty, ts, addTs);
    RefreshParts(cfg, x, x1, x', side, lvl, midTicks, cancelTs, ts, addTs, trades, left);
  }

  lemma RefreshParts(cfg: Config, x: Exchange, x1: Exchange, x': Exchange, side: Side, lvl: nat, midTicks: Price,
                     cancelTs: nat, ts: nat, addTs: nat, trades: seq<MarketEvent>, left: Qty)
    requires lvl < |x.Slots(side)| && x1 == x.WithSlots(side, x.Slots(side)[lvl := None]).(venue := x1.venue)
    requires lvl < |x1.Slots(side)| && x1.venue.log == x.venue.log + OldCancel(x, side, lvl, cancelTs)
    requires TradesAgainst(trades, side.Opposite(), ts) && TradeTotal(trades) + left == cfg.levelQty
    requires var price := BackgroundPrice(side, lvl, midTicks);
             && x'.venue.log == x1.venue.log + trades + Rested(Add(x1.idGen + 1, side, price, left, addTs, false))
             && AtLimitOrBetter(trades, side, price)
             && (left > 0 ==> RestingQty(x'.venue.book.Of(side), price, x1.idGen + 1) == left)
             && x' == Refreshed(x1, side, lvl, if left > 0 then Some(Slot(x1.idGen + 1, price)) else None, x'.venue)
    ensures RefreshDone(cfg, x, x', side, lvl, midTicks, cancelTs, ts, addTs, trades)
  {
    var price := BackgroundPrice(side, lvl, midTicks);
    RefreshedTwice(x, side, lvl, x1.venue, if left > 0 then Some(Slot(x.idGen + 1, price)) else None, x'.venue);
  }

  /** Each refresh does exactly that, and nothing else. */
  lemma RefreshEffect(cfg: Config, x: Exchange, side: Side, lvl: nat, midTicks: Price, cancelTs: nat, ts: nat,
                      addTs: nat)
      returns (x': Exchange, trades: seq<MarketEvent>)
    requires ExchangeOk(x) && lvl < |x.Slots(side)|
    ensures x' == Step(cfg, x, Background(side, lvl, midTicks, cancelTs, ts, addTs))
    ensures RefreshDone(cfg, x, x', side, lvl, midTicks, cancelTs, ts, addTs, trades)
  {
    var x1;
    x1, x', trades := RefreshRun(cfg, x, side, lvl, midTicks, cancelTs, ts, addTs);
    RefreshIs(cfg, x, x1, side, lvl, midTicks, cancelTs, ts, addTs);
  }

  lemma RefreshIs(cfg: Config, x: Exchange, x1: Exchange, side: Side, lvl: nat, midTicks: Price,
                  cancelTs: nat, ts: nat, addTs: nat)
    requires lvl < |x.Slots(side)| && x1 == ClearSlot(x, side, lvl, cancelTs) && lvl < |x1.Slots(side)|
    ensures FillSlot(x1, side, lvl, BackgroundPrice(side, lvl, midTicks), cfg.levelQty, ts, addTs)
         == Step(cfg, x, Background(side, lvl, midTicks, cancelTs, ts, addTs))
  {
  }

  lemma ClearedClean(x: Exchange, side: Side, lvl: nat, ts: nat) returns (x1: Exchange)
    requires ExchangeOk(x) && lvl < |x.Slots(side)|
    ensures x1 == ClearSlot(x, side, lvl, ts) && VenueOk(x1.venue)
    ensures forall k :: k in Adds(x1.venue.log) ==> k <= x1.idGen
    ensures x1.venue.log == x.venue.log + OldCancel(x, side, lvl, ts)
    ensures x1 == x.WithSlots(side, x.Slots(side)[lvl := None]).(venue := x1.venue)
    ensures |x1.Slots(side)| == |x.Slots(side)| && x1.Slots(side)[lvl] == None && x1.idGen == x.idGen
  {
    ClearSlotOk(x, side, lvl, ts);
    x1 := ClearReports(x, side, lvl, ts);
  }

  lemma FillReports(x: Exchange, side: Side, lvl: nat, price: Price, qty: Qty, ts: nat, addTs: nat)
      returns (x': Exchange, trades: seq<MarketEvent>, left: Qty)
    requires VenueOk(x.venue) && forall k :: k in Adds(x.venue.log) ==> k <= x.idGen
    requires lvl < |x.Slots(side)| && x.Slots(side)[lvl] == None
    ensures x' == FillSlot(x, side, lvl, price, qty, ts, addTs)
    ensures x'.venue.log == x.venue.log + trades + Rested(Add(x.idGen + 1, side, price, left, addTs, false))
    ensures TradesAgainst(trades, side.Opposite(), ts) && AtLimitOrBetter(trades, side, price)
    ensures TradeTotal(trades) + left == qty
    ensures left > 0 ==> RestingQty(x'.venue.book.Of(side), price, x.idGen + 1) == left
    ensures x' == Refreshed(x, side, lvl, if left > 0 then Some(Slot(x.idGen + 1, price)) else None, x'.venue)
  {
    x' := FillIs(x, side, lvl, price, qty, ts, addTs);
    var v;
    v, trades, left := SubmitReports(x.venue, x.idGen + 1, side, price, qty, ts, addTs, false);
    if left > 0 { SubmitRests(x.venue, x.idGen + 1, side, price, qty, ts, addTs, false); }
  }

  // Commands.

  /** Cancels of orders our trackers name, each where its tracker says. */
  ghost predicate CancelsOfOurs(x: Exchange, events: seq<MarketEvent>) {
    forall e :: e in events ==> e.Cancel? && x.OurId(e.side) == Some(e.orderId) && x.OurPrice(e.side) == e.price
  }

  lemma CancelOneReports(x: Exchange, side: Side, ts: nat) returns (x': Exchange, cancels: seq<MarketEvent>)
    ensures x' == CancelOurs(x, side, ts)
    ensures x'.venue.log == x.venue.log + cancels && CancelsOfOurs(x, cancels)
    ensures x' == if side == Bid then x.(ourBidId := None, venue := x'.venue)
                  else x.(ourAskId := None, venue := x'.venue)
  {
    x' := CancelOurs(x, side, ts);
    cancels := if x'.venue.log == x.venue.log then [] else [Cancel(x.OurId(side).value, side, x.OurPrice(side), ts)];
    assert x.venue.log + [] == x.venue.log;
  }

  lemma CancelReports(x: Exchange, bidTs: nat, askTs: nat) returns (x': Exchange, cancels: seq<MarketEvent>)
    ensures x' == CancelBoth(x, bidTs, askTs)
    ensures x'.venue.log == x.venue.log + cancels && CancelsOfOurs(x, cancels)
    ensures x' == x.(ourBidId := None, ourAskId := None, venue := x'.venue)
  {
    var x1, c1 := CancelOneReports(x, Bid, bidTs);
    var c2;
    x', c2 := CancelOneReports(x1, Ask, askTs);
    cancels := c1 + c2;
    assert (x.venue.log + c1) + c2 == x.venue.log + cancels;
  }

  lemma CancelOursLive(x: Exchange, side: Side, ts: nat, k: OrderId)
    requires ExchangeOk(x)
    ensures Live(CancelOurs(x, side, ts).venue.log, k) <==> Live(x.venue.log, k) && x.OurId(side) != Some(k)
  {
    if x.OurId(side).Some? { CancelEffect(x.venue, side, x.OurPrice(side), x.OurId(side).value, ts); }
  }

  /** Cancel-all takes every order of ours off the book and no order of anybody else's, trades
      nothing, and leaves slots and ids alone. */
  lemma CancelAllEffect(x: Exchange, clock: QuoteClock) returns (x': Exchange, cancels: seq<MarketEvent>)
    requires ExchangeOk(x)
    ensures x' == ApplyCommand(x, CancelAll, clock)
    ensures x' == x.(ourBidId := None, ourAskId := None, venue := x'.venue)
    ensures x'.venue.log == x.venue.log + cancels && CancelsOfOurs(x, cancels)
    ensures forall k :: Live(x'.venue.log, k) <==> Live(x.venue.log, k) && !Adds(x.venue.log)[k].isOurs
  {
    x', cancels := CancelReports(x, clock.cancelBid, clock.cancelAsk);
    var x1 := CancelOurs(x, Bid, clock.cancelBid);
    CancelOursOk(x, Bid, clock.cancelBid);
    forall k ensures Live(x'.venue.log, k) <==> Live(x.venue.log, k) && !Adds(x.venue.log)[k].isOurs {
      CancelOursLive(x, Bid, clock.cancelBid, k);
      CancelOursLive(x1, Ask, clock.cancelAsk, k);
      if Live(x.venue.log, k) { OursIffNamed(x, k); }
    }
  }

  /** A live order is ours exactly when one of our two trackers names it. */
  lemma OursIffNamed(x: Exchange, k: OrderId)
    requires ExchangeOk(x) && Live(x.venue.log, k)
    ensures Adds(x.venue.log)[k].isOurs <==> x.ourBidId == Some(k) || x.ourAskId == Some(k)
  {
    assert Tracked(Adds(x.venue.log), x, k);
  }

  /** Events that trade against other orders leave an order's quantity as it was. */
  lemma {:induction false} UntouchedBy(log: seq<MarketEvent>, events: seq<MarketEvent>, id: OrderId)
    requires forall e :: e in events ==> e.Trade? && e.orderId != id
    ensures Traded(log + events, id) == Traded(log, id) && HasCancel(log + events, id) == HasCancel(log, id)
    ensures HasAdd(log + events, id) == HasAdd(log, id) && Adds(log + events) == Adds(log)
    decreases |events|
  {
    if events == [] {
      assert log + events == log;
    } else {
      var n := |events| - 1;
      UntouchedBy(log, events[..n], id);
      assert log + events == (log + events[..n]) + [events[n]];
      Snoc(log + events[..n], events[n]);
      SnocId(log + events[..n], events[n], id);
    }
  }

  lemma RestingIsAccount(v: Venue, id: OrderId)
    requires VenueOk(v) && id in Adds(v.log)
    ensures var a := Adds(v.log)[id];
            RestingQty(v.book.Of(a.side), a.price, id) ==
            if HasCancel(v.log, id) then 0 else a.qty - Traded(v.log, id)
  {
    var a := Adds(v.log)[id];
    AddsAreAdds(v.log, id);
    FullLaw(v.log, id);
    SameResting(v.book.Of(a.side), Fold(v.log).Of(a.side), a.price, id);
  }

  /** An order out of reach of a submission of the other side keeps all it has. */
  lemma SubmitSpares(v: Venue, id: OrderId, side: Side, price: Price, qty: Qty, ts: nat, addTs: nat, isOurs: bool,
                     k: OrderId)
    requires VenueOk(v) && forall j :: j in Adds(v.log) ==> j < id
    requires k in Adds(v.log) && Adds(v.log)[k].side == side.Opposite()
    requires !Within(side.Opposite(), Adds(v.log)[k].price, Some(price))
    ensures var a, v' := Adds(v.log)[k], SubmitReported(v, id, side, price, qty, ts, addTs, isOurs);
            RestingQty(v'.book.Of(a.side), a.price, k) == RestingQty(v.book.Of(a.side), a.price, k)
  {
    var opp := side.Opposite();
    var mid := SweepVenue(v, opp, Some(price), qty, ts);
    SubmitIsSweepThenRest(v, id, side, price, qty, ts, addTs, isOurs);
    SweepReported(v, opp, Some(price), qty, ts);
    SweepHits(v, opp, Some(price), qty, ts);
    var trades := SweepTrades(v, opp, Some(price), qty, ts);
    forall e | e in trades ensures e.Trade? && e.orderId != k {
      assert HitsLive(v.log, e, opp, Some(price));
    }
    UntouchedBy(v.log, trades, k);
    RestingIsAccount(v, k);
    RestingIsAccount(mid, k);
  }

  /** Only our tracker for the side, the ids and the venue change. */
  ghost predicate PlacedFrame(x: Exchange, x': Exchange, side: Side) {
    && x'.idGen == x.idGen + 1 && x'.bidSlots == x.bidSlots && x'.askSlots == x.askSlots
    && x'.OurId(side.Opposite()) == x.OurId(side.Opposite())
  }

  lemma PlaceIs(x: Exchange, side: Side, price: Price, qty: Qty, ts: nat, addTs: nat) returns (x': Exchange)
    ensures x' == PlaceOurs(x, side, price, qty, ts, addTs) && PlacedFrame(x, x', side)
    ensures x'.venue == SubmitReported(x.venue, x.idGen + 1, side, price, qty, ts, addTs, true)
  {
    x' := PlaceOurs(x, side, price, qty, ts, addTs);
  }

  lemma PlaceReports(x: Exchange, side: Side, price: Price, qty: Qty, ts: nat, addTs: nat)
      returns (x': Exchange, trades: seq<MarketEvent>, left: Qty)
    requires VenueOk(x.venue) && forall k :: k in Adds(x.venue.log) ==> k <= x.idGen
    ensures x' == PlaceOurs(x, side, price, qty, ts, addTs) && PlacedFrame(x, x', side)
    ensures x'.venue.log == x.venue.log + trades + Rested(Add(x.idGen + 1, side, price, left, addTs, true))
    ensures TradeTotal(trades) + left == qty
    ensures TradesAgainst(trades, side.Opposite(), ts) && AtLimitOrBetter(trades, side, price)
    ensures left > 0 ==> RestingQty(x'.venue.book.Of(side), price, x.idGen + 1) == left
  {
    x' := PlaceIs(x, side, price, qty, ts, addTs);
    var v;
    v, trades, left := SubmitReports(x.venue, x.idGen + 1, side, price, qty, ts, addTs, true);
    if left > 0 { SubmitRests(x.venue, x.idGen + 1, side, price, qty, ts, addTs, true); }
  }

  /** The ask placed after our bid, above it, leaves the bid as it was. */
  lemma BidSpared(x2: Exchange, price: Price, qty: Qty, ts: nat, addTs: nat, bid: OrderId)
    requires ExchangeOk(x2) && bid in Adds(x2.venue.log)
    requires Adds(x2.venue.log)[bid].side == Bid && Adds(x2.venue.log)[bid].price < price
    ensures var a, x3 := Adds(x2.venue.log)[bid], PlaceOurs(x2, Ask, price, qty, ts, addTs);
            RestingQty(x3.venue.book.bids, a.price, bid) == RestingQty(x2.venue.book.bids, a.price, bid)
  {
    SubmitSpares(x2.venue, x2.idGen + 1, Ask, price, qty, ts, addTs, true, bid);
  }

  /** Everything a quote leaves and reports: our old orders cancelled and nobody else's; the bid
      buying from asks at the bid price or less and resting whole with what it did not buy; the
      ask, lifted clear of the bid, selling to bids at its price or more and resting likewise;
      no slot touched, two ids used. */
  ghost predicate QuoteDone(x: Exchange, x': Exchange, cmd: StrategyCommand, clock: QuoteClock,
                            cancels: seq<MarketEvent>, bought: seq<MarketEvent>, sold: seq<MarketEvent>)
    requires cmd.Quote?
  {
    var askPrice := if cmd.askPrice > cmd.bidPrice then cmd.askPrice else cmd.bidPrice + 1;
    && TradeTotal(bought) <= cmd.bidQty && TradeTotal(sold) <= cmd.askQty
    && var bidLeft, askLeft := cmd.bidQty - TradeTotal(bought), cmd.askQty - TradeTotal(sold);
    && x'.venue.log == x.venue.log + cancels
         + bought + Rested(Add(x.idGen + 1, Bid, cmd.bidPrice, bidLeft, clock.addBid, true))
         + sold + Rested(Add(x.idGen + 2, Ask, askPrice, askLeft, clock.addAsk, true))
    && CancelsOfOurs(x, cancels)
    && TradesAgainst(bought, Ask, clock.submitBid) && AtLimitOrBetter(bought, Bid, cmd.bidPrice)
    && TradesAgainst(sold, Bid, clock.submitAsk) && AtLimitOrBetter(sold, Ask, askPrice)
    && (bidLeft > 0 ==> RestingQty(x'.venue.book.bids, cmd.bidPrice, x.idGen + 1) == bidLeft)
    && (askLeft > 0 ==> RestingQty(x'.venue.book.asks, askPrice, x.idGen + 2) == askLeft)
    && x'.idGen == x.idGen + 2 && x'.bidSlots == x.bidSlots && x'.askSlots == x.askSlots
  }

  ghost predicate AddedBid(x: Exchange, bid: OrderId, price: Price) {
    bid in Adds(x.venue.log) && Adds(x.venue.log)[bid].side == Bid && Adds(x.venue.log)[bid].price == price
  }

  /** After our bid: what it bought, what rests of it, and that the feed added just that. */
  lemma BidPlaced(x1: Exchange, price: Price, qty: Qty, ts: nat, addTs: nat)
      returns (x2: Exchange, bought: seq<MarketEvent>, left: Qty)
    requires ExchangeOk(x1) && x1.ourBidId == None
    ensures x2 == PlaceOurs(x1, Bid, price, qty, ts, addTs) && PlacedFrame(x1, x2, Bid) && ExchangeOk(x2)
    ensures x2.venue.log == x1.venue.log + bought + Rested(Add(x1.idGen + 1, Bid, price, left, addTs, true))
    ensures TradeTotal(bought) + left == qty
    ensures TradesAgainst(bought, Ask, ts) && AtLimitOrBetter(bought, Bid, price)
    ensures left > 0 ==> RestingQty(x2.venue.book.bids, price, x1.idGen + 1) == left
    ensures left > 0 ==> AddedBid(x2, x1.idGen + 1, price)
  {
    PlaceOursOk(x1, Bid, price, qty, ts, addTs);
    x2, bought, left := PlaceReports(x1, Bid, price, qty, ts, addTs);
    if left > 0 { Snoc(x1.venue.log + bought, Add(x1.idGen + 1, Bid, price, left, addTs, true)); }
  }

  lemma AskPlaced(x2: Exchange, price: Price, qty: Qty, ts: nat, addTs: nat, bid: OrderId, bidPrice: Price,
                  bidLeft: Qty)
      returns (x3: Exchange, sold: seq<MarketEvent>, left: Qty)
    requires ExchangeOk(x2)
    requires bidLeft > 0 ==> AddedBid(x2, bid, bidPrice) && bidPrice < price
    ensures x3 == PlaceOurs(x2, Ask, price, qty, ts, addTs) && PlacedFrame(x2, x3, Ask)
    ensures x3.venue.log == x2.venue.log + sold + Rested(Add(x2.idGen + 1, Ask, price, left, addTs, true))
    ensures TradeTotal(sold) + left == qty
    ensures TradesAgainst(sold, Bid, ts) && AtLimitOrBetter(sold, Ask, price)
    ensures left > 0 ==> RestingQty(x3.venue.book.asks, price, x2.idGen + 1) == left
    ensures bidLeft > 0 ==>
              RestingQty(x3.venue.book.bids, bidPrice, bid) == RestingQty(x2.venue.book.bids, bidPrice, bid)
  {
    x3, sold, left := PlaceReports(x2, Ask, price, qty, ts, addTs);
    if bidLeft > 0 { BidSpared(x2, price, qty, ts, addTs, bid); }
  }

  lemma QuoteIs(x: Exchange, x1: Exchange, x2: Exchange, cmd: StrategyCommand, clock: QuoteClock)
    requires cmd.Quote? && x1 == CancelBoth(x, clock.cancelBid, clock.cancelAsk)
    requires x2 == PlaceOurs(x1, Bid, cmd.bidPrice, cmd.bidQty, clock.submitBid, clock.addBid)
    ensures PlaceOurs(x2, Ask, SafeAsk(cmd.bidPrice, cmd.askPrice), cmd.askQty, clock.submitAsk, clock.addAsk)
         == ApplyCommand(x, cmd, clock)
  {
  }

  lemma CancelledClean(x: Exchange, bidTs: nat, askTs: nat) returns (x1: Exchange, cancels: seq<MarketEvent>)
    requires ExchangeOk(x)
    ensures x1 == CancelBoth(x, bidTs, askTs) && ExchangeOk(x1)
    ensures x1.venue.log == x.venue.log + cancels && CancelsOfOurs(x, cancels)
    ensures x1.ourBidId == None && x1.ourAskId == None && x1.idGen == x.idGen
    ensures x1.bidSlots == x.bidSlots && x1.askSlots == x.askSlots
  {
    x1, cancels := CancelReports(x, bidTs, askTs);
    CancelBothOk(x, bidTs, askTs);
  }

  /** The three parts of a quote, put together. */
  lemma QuoteParts(x: Exchange, x1: Exchange, x2: Exchange, x3: Exchange, cmd: StrategyCommand, clock: QuoteClock,
                   cancels: seq<MarketEvent>, bought: seq<MarketEvent>, sold: seq<MarketEvent>,
                   bidLeft: Qty, askLeft: Qty)
    requires cmd.Quote? && PlacedFrame(x1, x2, Bid) && PlacedFrame(x2, x3, Ask)
    requires x1.idGen == x.idGen && x1.bidSlots == x.bidSlots && x1.askSlots == x.askSlots
    requires x1.venue.log == x.venue.log + cancels && CancelsOfOurs(x, cancels)
    requires x2.venue.log == x1.venue.log + bought
                             + Rested(Add(x1.idGen + 1, Bid, cmd.bidPrice, bidLeft, clock.addBid, true))
    requires TradeTotal(bought) + bidLeft == cmd.bidQty
    requires TradesAgainst(bought, Ask, clock.submitBid) && AtLimitOrBetter(bought, Bid, cmd.bidPrice)
    requires bidLeft > 0 ==> RestingQty(x3.venue.book.bids, cmd.bidPrice, x.idGen + 1) == bidLeft
    requires var askPrice := SafeAsk(cmd.bidPrice, cmd.askPrice);
             && x3.venue.log == x2.venue.log + sold
                                + Rested(Add(x2.idGen + 1, Ask, askPrice, askLeft, clock.addAsk, true))
             && AtLimitOrBetter(sold, Ask, askPrice)
             && (askLeft > 0 ==> RestingQty(x3.venue.book.asks, askPrice, x2.idGen + 1) == askLeft)
    requires TradeTotal(sold) + askLeft == cmd.askQty && TradesAgainst(sold, Bid, clock.submitAsk)
    ensures QuoteDone(x, x3, cmd, clock, cancels, bought, sold)
  {
  }

  lemma BidThenAsk(x1: Exchange, cmd: StrategyCommand, clock: QuoteClock)
      returns (x2: Exchange, x3: Exchange, bought: seq<MarketEvent>, sold: seq<MarketEvent>, bidLeft: Qty, askLeft: Qty)
    requires ExchangeOk(x1) && x1.ourBidId == None && cmd.Quote?
    ensures x2 == PlaceOurs(x1, Bid, cmd.bidPrice, cmd.bidQty, clock.submitBid, clock.addBid)
    ensures x3 == PlaceOurs(x2, Ask, SafeAsk(cmd.bidPrice, cmd.askPrice), cmd.askQty, clock.submitAsk, clock.addAsk)
    ensures PlacedFrame(x1, x2, Bid) && PlacedFrame(x2, x3, Ask)
    ensures x2.venue.log == x1.venue.log + bought
                            + Rested(Add(x1.idGen + 1, Bid, cmd.bidPrice, bidLeft, clock.addBid, true))
    ensures TradeTotal(bought) + bidLeft == cmd.bidQty
    ensures TradesAgainst(bought, Ask, clock.submitBid) && AtLimitOrBetter(bought, Bid, cmd.bidPrice)
    ensures bidLeft > 0 ==> RestingQty(x3.venue.book.bids, cmd.bidPrice, x1.idGen + 1) == bidLeft
    ensures var askPrice := SafeAsk(cmd.bidPrice, cmd.askPrice);
            && x3.venue.log == x2.venue.log + sold
                               + Rested(Add(x2.idGen + 1, Ask, askPrice, askLeft, clock.addAsk, true))
            && AtLimitOrBetter(sold, Ask, askPrice)
            && (askLeft > 0 ==> RestingQty(x3.venue.book.asks, askPrice, x2.idGen + 1) == askLeft)
    ensures TradeTotal(sold) + askLeft == cmd.askQty && TradesAgainst(sold, Bid, clock.submitAsk)
  {
    x2, bought, bidLeft := BidPlaced(x1, cmd.bidPrice, cmd.bidQty, clock.submitBid, clock.addBid);
    x3, sold, askLeft := AskPlaced(x2, SafeAsk(cmd.bidPrice, cmd.askPrice), cmd.askQty, clock.submitAsk, clock.addAsk,
                                   x1.idGen + 1, cmd.bidPrice, bidLeft);
  }

  /** The three parts of a quote, one after the other. */
  lemma QuoteRun(x: Exchange, cmd: StrategyCommand, clock: QuoteClock)
      returns (x1: Exchange, x2: Exchange, x3: Exchange,
               cancels: seq<MarketEvent>, bought: seq<MarketEvent>, sold: seq<MarketEvent>)
    requires ExchangeOk(x) && cmd.Quote?
    ensures x1 == CancelBoth(x, clock.cancelBid, clock.cancelAsk)
    ensures x2 == PlaceOurs(x1, Bid, cmd.bidPrice, cmd.bidQty, clock.submitBid, clock.addBid)
    ensures x3 == PlaceOurs(x2, Ask, SafeAsk(cmd.bidPrice, cmd.askPrice), cmd.askQty, clock.submitAsk, clock.addAsk)
    ensures QuoteDone(x, x3, cmd, clock, cancels, bought, sold)
  {
    var bidLeft, askLeft;
    x1, cancels := CancelledClean(x, clock.cancelBid, clock.cancelAsk);
    x2, x3, bought, sold, bidLeft, askLeft := BidThenAsk(x1, cmd, clock);
    QuoteParts(x, x1, x2, x3, cmd, clock, cancels, bought, sold, bidLeft, askLeft);
  }

  lemma QuoteEffect(x: Exchange, cmd: StrategyCommand, clock: QuoteClock)
      returns (x': Exchange, cancels: seq<MarketEvent>, bought: seq<MarketEvent>, sold: seq<MarketEvent>)
    requires ExchangeOk(x) && cmd.Quote?
    ensures x' == ApplyCommand(x, cmd, clock) && QuoteDone(x, x', cmd, clock, cancels, bought, sold)
  {
    var x1, x2;
    x1, x2, x', cancels, bought, sold := QuoteRun(x, cmd, clock);
    QuoteIs(x, x1, x2, cmd, clock);
  }
}
