/** Where every submitted unit of quantity went, over whole runs, and what the feed's own
    trades add up to for a subscriber who accounts for them one by one. */
module Conservation {
  import opened Types
  import opened Levels
  import opened Matching
  import opened Feed
  import opened Drift
  import opened Venues
  import opened Exchanges
  import opened Guarantees

  /** What was asked for, and what was taken from the opposite side on arrival. */
  datatype Ticket = Ticket(qty: Qty, taken: Qty)

  function TicketFor(v: Venue, side: Side, price: Price, qty: Qty, ts: nat): Ticket {
    Ticket(qty, FillTotal(Sweep(side.Opposite(), v.book.Of(side.Opposite()), Some(price), qty, ts).fills))
  }

  /** The tickets of every order a run submits, ours and background, by id. */
  function Tickets(cfg: Config, actions: seq<Action>): map<OrderId, Ticket> {
    if actions == [] then map[] else
      var pre, a := actions[..|actions| - 1], actions[|actions| - 1];
      StepTickets(cfg, Run(cfg, pre), a, Tickets(cfg, pre))
  }

  function WithTicket(x: Exchange, side: Side, price: Price, qty: Qty, ts: nat,
                      tickets: map<OrderId, Ticket>): map<OrderId, Ticket> {
    tickets[x.idGen + 1 := TicketFor(x.venue, side, price, qty, ts)]
  }

  function StepTickets(cfg: Config, x: Exchange, a: Action, tickets: map<OrderId, Ticket>): map<OrderId, Ticket> {
    match a
    case Background(side, lvl, midTicks, cancelTs, ts, _) =>
      if lvl >= |x.Slots(side)| then tickets
      else WithTicket(ClearSlot(x, side, lvl, cancelTs), side, BackgroundPrice(side, lvl, midTicks), cfg.levelQty,
                      ts, tickets)
    case Command(Quote(bidPrice, bidQty, askPrice, askQty), c) =>
      var x1 := CancelBoth(x, c.cancelBid, c.cancelAsk);
      var x2 := PlaceOurs(x1, Bid, bidPrice, bidQty, c.submitBid, c.addBid);
      var tickets1 := WithTicket(x1, Bid, bidPrice, bidQty, c.submitBid, tickets);
      WithTicket(x2, Ask, SafeAsk(bidPrice, askPrice), askQty, c.submitAsk, tickets1)
    case _ => tickets
  }

  /** What was not taken on arrival came to rest. */
  ghost predicate TicketsOk(adds: map<OrderId, MarketEvent>, idGen: nat, tickets: map<OrderId, Ticket>) {
    && (forall id :: id in adds ==> id in tickets)
    && (forall id :: id in tickets ==> id <= idGen)
    && (forall id :: id in tickets ==>
          tickets[id].qty == tickets[id].taken + (if id in adds && adds[id].Add? then adds[id].qty else 0))
  }

  /** One more order, of which `left` came to rest, keeps the tickets accounted. */
  lemma NewTicket(adds: map<OrderId, MarketEvent>, adds': map<OrderId, MarketEvent>, idGen: nat,
                  tickets: map<OrderId, Ticket>, t: Ticket, add: MarketEvent)
    requires TicketsOk(adds, idGen, tickets) && add.Add? && add.orderId == idGen + 1
    requires adds' == if add.qty == 0 then adds else adds[idGen + 1 := add]
    requires t.qty == t.taken + add.qty
    ensures TicketsOk(adds', idGen + 1, tickets[idGen + 1 := t])
  {
  }

  lemma TicketAdded(v: Venue, idGen: nat, tickets: map<OrderId, Ticket>, side: Side, price: Price, qty: Qty, ts: nat,
                    addTs: nat, isOurs: bool)
      returns (v': Venue, tickets': map<OrderId, Ticket>)
    requires VenueOk(v) && TicketsOk(Adds(v.log), idGen, tickets)
    ensures v' == SubmitReported(v, idGen + 1, side, price, qty, ts, addTs, isOurs)
    ensures tickets' == tickets[idGen + 1 := TicketFor(v, side, price, qty, ts)]
    ensures TicketsOk(Adds(v'.log), idGen + 1, tickets')
  {
    SubmitIsSweepThenRest(v, idGen + 1, side, price, qty, ts, addTs, isOurs);
    var add;
    v', add := SubmitGrows(v, idGen + 1, side, price, qty, ts, addTs, isOurs);
    tickets' := tickets[idGen + 1 := TicketFor(v, side, price, qty, ts)];
    NewTicket(Adds(v.log), Adds(v'.log), idGen, tickets, TicketFor(v, side, price, qty, ts), add);
  }

  lemma ClearSlotAdds(x: Exchange, side: Side, lvl: nat, ts: nat)
    requires ExchangeOk(x) && lvl < |x.Slots(side)|
    ensures Adds(ClearSlot(x, side, lvl, ts).venue.log) == Adds(x.venue.log)
    ensures ClearSlot(x, side, lvl, ts).idGen == x.idGen
  {
    var slot := x.Slots(side)[lvl];
    if slot.Some? { Snoc(x.venue.log, Cancel(slot.value.id, side, slot.value.price, ts)); }
  }

  lemma CancelOursAdds(x: Exchange, side: Side, ts: nat)
    ensures Adds(CancelOurs(x, side, ts).venue.log) == Adds(x.venue.log)
    ensures CancelOurs(x, side, ts).idGen == x.idGen
  {
    if x.OurId(side).Some? { Snoc(x.venue.log, Cancel(x.OurId(side).value, side, x.OurPrice(side), ts)); }
  }

  lemma CancelBothAdds(x: Exchange, bidTs: nat, askTs: nat)
    ensures Adds(CancelBoth(x, bidTs, askTs).venue.log) == Adds(x.venue.log)
    ensures CancelBoth(x, bidTs, askTs).idGen == x.idGen
  {
    CancelOursAdds(x, Bid, bidTs);
    CancelOursAdds(CancelOurs(x, Bid, bidTs), Ask, askTs);
  }

  ghost predicate ExchangeTicketsOk(x: Exchange, tickets: map<OrderId, Ticket>) {
    TicketsOk(Adds(x.venue.log), x.idGen, tickets)
  }

  lemma PlaceOursVenue(x: Exchange, side: Side, price: Price, qty: Qty, ts: nat, addTs: nat) returns (x': Exchange)
    ensures x' == PlaceOurs(x, side, price, qty, ts, addTs) && x'.idGen == x.idGen + 1
    ensures x'.venue == SubmitReported(x.venue, x.idGen + 1, side, price, qty, ts, addTs, true)
  {
    x' := PlaceOurs(x, side, price, qty, ts, addTs);
  }

  lemma FillSlotVenue(x: Exchange, side: Side, lvl: nat, price: Price, qty: Qty, ts: nat, addTs: nat)
      returns (x': Exchange)
    requires lvl < |x.Slots(side)|
    ensures x' == FillSlot(x, side, lvl, price, qty, ts, addTs) && x'.idGen == x.idGen + 1
    ensures x'.venue == SubmitReported(x.venue, x.idGen + 1, side, price, qty, ts, addTs, false)
  {
    x' := FillSlot(x, side, lvl, price, qty, ts, addTs);
  }

  lemma OursTicket(x: Exchange, side: Side, price: Price, qty: Qty, ts: nat, addTs: nat, tickets: map<OrderId, Ticket>)
      returns (x': Exchange, tickets': map<OrderId, Ticket>)
    requires ExchangeOk(x) && x.OurId(side) == None && ExchangeTicketsOk(x, tickets)
    ensures x' == PlaceOurs(x, side, price, qty, ts, addTs)
    ensures tickets' == WithTicket(x, side, price, qty, ts, tickets)
    ensures ExchangeTicketsOk(x', tickets')
  {
    x' := PlaceOursVenue(x, side, price, qty, ts, addTs);
    var v;
    v, tickets' := TicketAdded(x.venue, x.idGen, tickets, side, price, qty, ts, addTs, true);
  }

  lemma SlotTicket(x: Exchange, side: Side, lvl: nat, price: Price, qty: Qty, ts: nat, addTs: nat,
                   tickets: map<OrderId, Ticket>)
      returns (x': Exchange, tickets': map<OrderId, Ticket>)
    requires VenueOk(x.venue) && lvl < |x.Slots(side)| && ExchangeTicketsOk(x, tickets)
    ensures x' == FillSlot(x, side, lvl, price, qty, ts, addTs)
    ensures tickets' == WithTicket(x, side, price, qty, ts, tickets)
    ensures ExchangeTicketsOk(x', tickets')
  {
    x' := FillSlotVenue(x, side, lvl, price, qty, ts, addTs);
    var v;
    v, tickets' := TicketAdded(x.venue, x.idGen, tickets, side, price, qty, ts, addTs, false);
  }

  lemma BackgroundTicket(x: Exchange, cfg: Config, side: Side, lvl: nat, midTicks: Price, cancelTs: nat, ts: nat,
                         addTs: nat, tickets: map<OrderId, Ticket>)
      returns (x': Exchange, tickets': map<OrderId, Ticket>)
    requires ExchangeOk(x) && ExchangeTicketsOk(x, tickets) && lvl < |x.Slots(side)|
    ensures x' == PlaceBackground(x, cfg, side, lvl, midTicks, cancelTs, ts, addTs)
    ensures tickets' == WithTicket(ClearSlot(x, side, lvl, cancelTs), side, BackgroundPrice(side, lvl, midTicks),
                                   cfg.levelQty, ts, tickets)
    ensures ExchangeTicketsOk(x', tickets')
  {
    ClearSlotOk(x, side, lvl, cancelTs);
    ClearSlotAdds(x, side, lvl, cancelTs);
    x', tickets' := SlotTicket(ClearSlot(x, side, lvl, cancelTs), side, lvl, BackgroundPrice(side, lvl, midTicks),
                               cfg.levelQty, ts, addTs, tickets);
  }

  lemma StepTicketsOk(cfg: Config, x: Exchange, a: Action, tickets: map<OrderId, Ticket>)
    requires ExchangeOk(x) && ExchangeTicketsOk(x, tickets)
    ensures ExchangeTicketsOk(Step(cfg, x, a), StepTickets(cfg, x, a, tickets))
  {
    match a
    case Background(side, lvl, midTicks, cancelTs, ts, addTs) =>
      if lvl < |x.Slots(side)| {
        var _, _ := BackgroundTicket(x, cfg, side, lvl, midTicks, cancelTs, ts, addTs, tickets);
      }
    case Command(cmd, c) =>
      CancelBothOk(x, c.cancelBid, c.cancelAsk);
      CancelBothAdds(x, c.cancelBid, c.cancelAsk);
      if cmd.Quote? {
        QuoteTicketsOk(CancelBoth(x, c.cancelBid, c.cancelAsk), cmd, c, tickets);
      }
    case Noise(aggressor, ts) =>
      ExecuteEffect(x.venue, aggressor, cfg.noiseQty, ts);
  }

  lemma QuoteTicketsOk(x1: Exchange, cmd: StrategyCommand, c: QuoteClock, tickets: map<OrderId, Ticket>)
    requires ExchangeOk(x1) && x1.ourBidId == None && x1.ourAskId == None && cmd.Quote?
    requires ExchangeTicketsOk(x1, tickets)
    ensures var x2 := PlaceOurs(x1, Bid, cmd.bidPrice, cmd.bidQty, c.submitBid, c.addBid);
            var safe := SafeAsk(cmd.bidPrice, cmd.askPrice);
            ExchangeTicketsOk(PlaceOurs(x2, Ask, safe, cmd.askQty, c.submitAsk, c.addAsk),
                              WithTicket(x2, Ask, safe, cmd.askQty, c.submitAsk,
                                         WithTicket(x1, Bid, cmd.bidPrice, cmd.bidQty, c.submitBid, tickets)))
  {
    var x2, tickets2 := OursTicket(x1, Bid, cmd.bidPrice, cmd.bidQty, c.submitBid, c.addBid, tickets);
    PlaceOursOk(x1, Bid, cmd.bidPrice, cmd.bidQty, c.submitBid, c.addBid);
    var x3, tickets3 := OursTicket(x2, Ask, SafeAsk(cmd.bidPrice, cmd.askPrice), cmd.askQty, c.submitAsk, c.addAsk,
                                   tickets2);
  }

  lemma {:induction false} TicketsAccounted(cfg: Config, actions: seq<Action>)
    ensures TicketsOk(Adds(Run(cfg, actions).venue.log), Run(cfg, actions).idGen, Tickets(cfg, actions))
  {
    if actions != [] {
      var pre := actions[..|actions| - 1];
      TicketsAccounted(cfg, pre);
      RunOk(cfg, pre);
      StepTicketsOk(cfg, Run(cfg, pre), actions[|actions| - 1], Tickets(cfg, pre));
    }
  }

  /** Every submitted order, over any run: what was asked for = taken on arrival + traded
      against it later + cancelled + resting in the ground-truth book now. */
  lemma {:induction false} EveryUnitAccounted(cfg: Config, actions: seq<Action>, id: OrderId)
    requires id in Tickets(cfg, actions)
    ensures var v, t := Run(cfg, actions).venue, Tickets(cfg, actions)[id];
            t.qty == t.taken +
              if id in Adds(v.log)
              then Traded(v.log, id) + CancelledQty(v.log, id) + OrderQty(v.book, Adds(v.log)[id])
              else 0
  {
    RunOk(cfg, actions);
    TicketsAccounted(cfg, actions);
    var v := Run(cfg, actions).venue;
    if id in Adds(v.log) {
      var a := Adds(v.log)[id];
      QuantityConserved(v.log, id);
      SameResting(v.book.Of(a.side), Fold(v.log).Of(a.side), a.price, id);
    }
  }

  // Position.

  /** Signed quantity of one of our passive fills: a hit bid buys, a lifted ask sells. */
  function Bought(e: MarketEvent): int {
    if e.Trade? && e.isOurs then (if e.side == Bid then e.qty as int else -(e.qty as int)) else 0
  }

  /** The running position and tick-denominated cash of a subscriber to the feed. */
  function Inventory(log: seq<MarketEvent>): int {
    if log == [] then 0 else Inventory(log[..|log| - 1]) + Bought(log[|log| - 1])
  }

  function Cash(log: seq<MarketEvent>): int {
    if log == [] then 0 else
      var e := log[|log| - 1];
      Cash(log[..|log| - 1]) - Bought(e) * (if e.Trade? then e.price else 0)
  }

  /** How many of our passive fills a log reports. */
  function OwnTrades(log: seq<MarketEvent>): nat {
    if log == [] then 0 else
      var e := log[|log| - 1];
      OwnTrades(log[..|log| - 1]) + if e.Trade? && e.isOurs then 1 else 0
  }

  /** Our orders of one side that ever rested, in the order they were added. */
  function OurAdds(log: seq<MarketEvent>, side: Side): seq<MarketEvent> {
    if log == [] then [] else
      var e := log[|log| - 1];
      OurAdds(log[..|log| - 1], side) + if e.Add? && e.isOurs && e.side == side then [e] else []
  }

  /** Passive fills of a list of orders, according to a log. */
  function PassiveQty(adds: seq<MarketEvent>, log: seq<MarketEvent>): int {
    if adds == [] then 0 else PassiveQty(adds[..|adds| - 1], log) + Traded(log, adds[|adds| - 1].orderId)
  }

  function PassiveValue(adds: seq<MarketEvent>, log: seq<MarketEvent>): int {
    if adds == [] then 0 else
      var a := adds[|adds| - 1];
      PassiveValue(adds[..|adds| - 1], log) + a.price * Traded(log, a.orderId)
  }

  ghost predicate OurAddsOk(log: seq<MarketEvent>, side: Side) {
    var ours := OurAdds(log, side);
    && (forall i :: 0 <= i < |ours| ==> ours[i].orderId in Adds(log) && Adds(log)[ours[i].orderId] == ours[i])
    && Distinct(ours)
    && (forall id :: id in Adds(log) && Adds(log)[id].isOurs && Adds(log)[id].side == side ==> Adds(log)[id] in ours)
  }

  lemma {:induction false} OurAddsAre(log: seq<MarketEvent>, side: Side)
    requires LogOk(log)
    ensures OurAddsOk(log, side)
  {
    if log != [] {
      var pre, e := log[..|log| - 1], log[|log| - 1];
      OurAddsAre(pre, side);
      SplitLast(log);
      Snoc(pre, e);
    }
  }

  ghost predicate Distinct(adds: seq<MarketEvent>) {
    forall i, j :: 0 <= i < j < |adds| ==> adds[i].orderId != adds[j].orderId
  }

  /** An event that trades against none of the orders leaves their sums alone. */
  lemma {:induction false} PassiveSame(adds: seq<MarketEvent>, log: seq<MarketEvent>, e: MarketEvent)
    requires e.Trade? ==> forall i :: 0 <= i < |adds| ==> adds[i].orderId != e.orderId
    ensures PassiveQty(adds, log + [e]) == PassiveQty(adds, log)
    ensures PassiveValue(adds, log + [e]) == PassiveValue(adds, log)
    decreases |adds|
  {
    if adds != [] {
      var n := |adds| - 1;
      PassiveSame(adds[..n], log, e);
      SnocId(log, e, adds[n].orderId);
    }
  }

  /** A trade against one of the orders adds its quantity and value exactly once. */
  lemma {:induction false} PassiveHit(adds: seq<MarketEvent>, log: seq<MarketEvent>, e: MarketEvent, k: nat)
    requires Distinct(adds) && k < |adds| && e.Trade?
    requires adds[k].orderId == e.orderId && adds[k].price == e.price
    ensures PassiveQty(adds, log + [e]) == PassiveQty(adds, log) + e.qty
    ensures PassiveValue(adds, log + [e]) == PassiveValue(adds, log) + e.price * e.qty
    decreases |adds|
  {
    var n := |adds| - 1;
    SnocId(log, e, adds[n].orderId);
    if k == n {
      PassiveSame(adds[..n], log, e);
      Distribute(e.price, Traded(log, e.orderId), e.qty);
    } else {
      PassiveHit(adds[..n], log, e, k);
    }
  }

  lemma Distribute(p: int, a: int, b: int)
    ensures p * (a + b) == p * a + p * b
  {
  }

  lemma {:induction false} NotYetTraded(log: seq<MarketEvent>, e: MarketEvent)
    requires LogOk(log) && e.Add? && EventOk(Adds(log), Fold(log), e)
    ensures Traded(log, e.orderId) == 0
  {
    FullLaw(log, e.orderId);
  }

  lemma OurAddsSnoc(pre: seq<MarketEvent>, e: MarketEvent, side: Side)
    ensures OurAdds(pre + [e], side) ==
            if e.Add? && e.isOurs && e.side == side then OurAdds(pre, side) + [e] else OurAdds(pre, side)
  {
    assert (pre + [e])[..|pre|] == pre;
  }

  lemma PassiveSnoc(adds: seq<MarketEvent>, e: MarketEvent, log: seq<MarketEvent>)
    ensures PassiveQty(adds + [e], log) == PassiveQty(adds, log) + Traded(log, e.orderId)
    ensures PassiveValue(adds + [e], log) == PassiveValue(adds, log) + e.price * Traded(log, e.orderId)
  {
    assert (adds + [e])[..|adds|] == adds;
  }

  /** How one event moves the passive totals of one side. */
  function SideQty(e: MarketEvent, side: Side): Qty {
    if e.Trade? && e.isOurs && e.side == side then e.qty else 0
  }

  /** A fresh order contributes nothing yet. */
  lemma FreshOrder(ours: seq<MarketEvent>, pre: seq<MarketEvent>, e: MarketEvent)
    requires e.Add? && Traded(pre, e.orderId) == 0
    ensures PassiveQty(ours, pre + [e]) == PassiveQty(ours, pre)
    ensures PassiveValue(ours, pre + [e]) == PassiveValue(ours, pre)
    ensures PassiveQty(ours + [e], pre + [e]) == PassiveQty(ours, pre)
    ensures PassiveValue(ours + [e], pre + [e]) == PassiveValue(ours, pre)
  {
    PassiveSame(ours, pre, e);
    SnocId(pre, e, e.orderId);
    var t := Traded(pre + [e], e.orderId);
    assert t == 0 && e.price * t == 0;
    PassiveSnoc(ours, e, pre + [e]);
  }

  lemma AddStep(pre: seq<MarketEvent>, e: MarketEvent, side: Side)
    requires LogOk(pre) && EventOk(Adds(pre), Fold(pre), e) && e.Add?
    ensures PassiveQty(OurAdds(pre + [e], side), pre + [e]) == PassiveQty(OurAdds(pre, side), pre)
    ensures PassiveValue(OurAdds(pre + [e], side), pre + [e]) == PassiveValue(OurAdds(pre, side), pre)
  {
    NotYetTraded(pre, e);
    OurAddsSnoc(pre, e, side);
    FreshOrder(OurAdds(pre, side), pre, e);
  }

  /** Which of our orders of this side, if any, an event trades against. */
  lemma FindHit(pre: seq<MarketEvent>, e: MarketEvent, side: Side) returns (k: nat)
    requires LogOk(pre) && EventOk(Adds(pre), Fold(pre), e) && !e.Add?
    ensures var ours := OurAdds(pre, side);
            && Distinct(ours) && k <= |ours|
            && (SideQty(e, side) > 0 <==> k < |ours|)
            && (k < |ours| ==>
                  && e.Trade? && ours[k].orderId == e.orderId && ours[k].price == e.price
                  && SideQty(e, side) == e.qty)
            && (k == |ours| && e.Trade? ==> forall i :: 0 <= i < |ours| ==> ours[i].orderId != e.orderId)
  {
    var ours := OurAdds(pre, side);
    OurAddsAre(pre, side);
    EventNamesAdded(pre, e);
    if SideQty(e, side) > 0 {
      k :| 0 <= k < |ours| && ours[k] == Adds(pre)[e.orderId];
    } else {
      k := |ours|;
      OursHaveSide(pre, side);
    }
  }

  lemma {:induction false} OursHaveSide(log: seq<MarketEvent>, side: Side)
    ensures forall i :: 0 <= i < |OurAdds(log, side)| ==>
              OurAdds(log, side)[i].Add? && OurAdds(log, side)[i].isOurs && OurAdds(log, side)[i].side == side
  {
    if log != [] { OursHaveSide(log[..|log| - 1], side); }
  }

  lemma {:induction false} OtherStep(pre: seq<MarketEvent>, e: MarketEvent, side: Side)
    requires LogOk(pre) && EventOk(Adds(pre), Fold(pre), e) && !e.Add?
    ensures PassiveQty(OurAdds(pre + [e], side), pre + [e]) == PassiveQty(OurAdds(pre, side), pre) + SideQty(e, side)
    ensures PassiveValue(OurAdds(pre + [e], side), pre + [e]) ==
            PassiveValue(OurAdds(pre, side), pre) + e.price * SideQty(e, side)
  {
    OurAddsSnoc(pre, e, side);
    var k := FindHit(pre, e, side);
    if k < |OurAdds(pre, side)| {
      PassiveHit(OurAdds(pre, side), pre, e, k);
    } else {
      PassiveSame(OurAdds(pre, side), pre, e);
    }
  }

  lemma PositionSnoc(pre: seq<MarketEvent>, e: MarketEvent)
    ensures Inventory(pre + [e]) == Inventory(pre) + SideQty(e, Bid) - SideQty(e, Ask)
    ensures !e.Add? ==> Cash(pre + [e]) == Cash(pre) - e.price * SideQty(e, Bid) + e.price * SideQty(e, Ask)
    ensures e.Add? ==> Cash(pre + [e]) == Cash(pre)
  {
    assert (pre + [e])[..|pre|] == pre;
  }

  /** On a lossless feed, position and cash are exactly the net of our orders' passive fills,
      order by order: bids bought, asks sold, each at its own price. */
  lemma {:induction false} PositionIsPassiveFills(log: seq<MarketEvent>)
    requires LogOk(log)
    ensures Inventory(log) == PassiveQty(OurAdds(log, Bid), log) - PassiveQty(OurAdds(log, Ask), log)
    ensures Cash(log) == PassiveValue(OurAdds(log, Ask), log) - PassiveValue(OurAdds(log, Bid), log)
  {
    if log != [] {
      var pre, e := log[..|log| - 1], log[|log| - 1];
      PositionIsPassiveFills(pre);
      SplitLast(log);
      PositionSnoc(pre, e);
      if e.Add? {
        AddStep(pre, e, Bid);
        AddStep(pre, e, Ask);
      } else {
        OtherStep(pre, e, Bid);
        OtherStep(pre, e, Ask);
      }
    }
  }
}
