/** The ground-truth book together with the feed it publishes: every edit of the book is
    reported by events that replay to exactly that edit. */
module Venues {
  import opened Types
  import opened Levels
  import opened Matching
  import opened Feed
  import opened Drift

  /** `log[i]` is the event sent with sequence number `i`. */
  datatype Venue = Venue(book: Book, log: seq<MarketEvent>)

  const EMPTY_VENUE := Venue(EMPTY_BOOK, [])

  function TradeEvent(f: Fill): MarketEvent {
    Trade(f.restingOrderId, f.restingIsOurs, f.sideOfRestingOrder, f.price, f.qty, f.ts)
  }

  function TradeEvents(fills: seq<Fill>): seq<MarketEvent> {
    if fills == [] then [] else [TradeEvent(fills[0])] + TradeEvents(fills[1..])
  }

  /** cancel_order, reported when it found something. */
  function CancelReported(v: Venue, side: Side, price: Price, id: OrderId, ts: nat): Venue {
    if HasOrder(v.book.Of(side), price, id)
    then Venue(v.book.With(side, RemoveOrder(v.book.Of(side), price, id)), v.log + [Cancel(id, side, price, ts)])
    else v
  }

  /** submit_limit_order, reported as its fills and then any remainder. */
  function SubmitReported(v: Venue, id: OrderId, side: Side, price: Price, qty: Qty, ts: nat, addTs: nat,
                          isOurs: bool): Venue {
    var r := Submit(v.book, id, side, price, qty, ts, isOurs);
    var filled := FillTotal(r.fills);
    Venue(r.book, v.log + TradeEvents(r.fills) +
                  if filled < qty then [Add(id, side, price, qty - filled, addTs, isOurs)] else [])
  }

  function ExecuteReported(v: Venue, aggressor: Side, qty: Qty, ts: nat): Venue {
    var r := Execute(v.book, aggressor, qty, ts);
    Venue(r.book, v.log + TradeEvents(r.fills))
  }

  /** The log is disciplined and replays to the book, level by level and queue position by
      queue position, up to timestamps. */
  ghost predicate VenueOk(v: Venue) {
    LogOk(v.log) && SameBook(v.book, Fold(v.log))
  }

  /** An order the log added that is neither cancelled nor fully traded. */
  ghost predicate Live(log: seq<MarketEvent>, id: OrderId) {
    id in Adds(log) && !HasCancel(log, id) && Traded(log, id) < Adds(log)[id].qty
  }

  lemma LiveIsResting(log: seq<MarketEvent>, id: OrderId)
    requires LogOk(log) && id in Adds(log)
    ensures Live(log, id) <==> OrderQty(Fold(log), Adds(log)[id]) > 0
  {
    AddsAreAdds(log, id);
    FullLaw(log, id);
  }

  lemma SnocLive(log: seq<MarketEvent>, e: MarketEvent, id: OrderId)
    requires e.Add? ==> e.orderId !in Adds(log)
    requires LogOk(log + [e])
    ensures Live(log + [e], id) ==> Live(log, id) || (e.Add? && e.orderId == id)
    ensures e.Add? && e.orderId == id ==> Live(log + [e], id)
    ensures e.Cancel? ==> (Live(log + [e], id) <==> Live(log, id) && id != e.orderId)
    ensures e.orderId != id ==> (Live(log + [e], id) <==> Live(log, id))
  {
    Snoc(log, e);
    SnocId(log, e, id);
    FullLaw(log, id);
  }

  lemma VenueBookOk(v: Venue)
    requires VenueOk(v)
    ensures BookOk(v.book) && BookOk(Fold(v.log)) && BookLocated(Adds(v.log), Fold(v.log))
    ensures Uncrossed(v.book) && Uncrossed(Fold(v.log))
  {
    FoldOk(v.log);
    SameLevelsSym(v.book.bids, Fold(v.log).bids);
    SameLevelsSym(v.book.asks, Fold(v.log).asks);
    SameLevelsOk(Bid, Fold(v.log).bids, v.book.bids);
    SameLevelsOk(Ask, Fold(v.log).asks, v.book.asks);
  }

  lemma SameLevelsSym(a: Levels, b: Levels)
    requires SameLevels(a, b)
    ensures SameLevels(b, a)
  {
    forall p | p in b ensures SameQueue(b[p], a[p]) {
      assert SameQueue(a[p], b[p]);
      forall i | 0 <= i < |b[p]| ensures SameOrder(b[p][i], a[p][i]) {
        assert SameOrder(a[p][i], b[p][i]);
      }
    }
  }

  // Cancelling.

  /** Cancelling an order by its true side and price removes exactly it, if it is live. */
  lemma CancelEffect(v: Venue, side: Side, price: Price, id: OrderId, ts: nat)
    requires VenueOk(v) && id in Adds(v.log)
    requires Adds(v.log)[id].side == side && Adds(v.log)[id].price == price
    ensures var v' := CancelReported(v, side, price, id, ts);
            && VenueOk(v') && Adds(v'.log) == Adds(v.log) && v.log <= v'.log
            && (forall k :: Live(v'.log, k) <==> Live(v.log, k) && k != id)
  {
    VenueBookOk(v);
    var fold := Fold(v.log);
    SameRemove(v.book.Of(side), fold.Of(side), price, id);
    LiveIsResting(v.log, id);
    HasOrderIsResting(side, fold.Of(side), price, id);
    var e := Cancel(id, side, price, ts);
    if HasOrder(v.book.Of(side), price, id) {
      Snoc(v.log, e);
      SameApply(v.book, fold, e);
      forall k ensures Live(v.log + [e], k) <==> Live(v.log, k) && k != id {
        SnocLive(v.log, e, k);
      }
    }
  }

  // Matching.

  /** A trade event against an order that was live in the log, reported as it stands. */
  ghost predicate HitsLive(log: seq<MarketEvent>, e: MarketEvent, side: Side, limit: Option<Price>) {
    && e.Trade? && e.side == side && Within(side, e.price, limit)
    && Live(log, e.orderId)
    && var a := Adds(log)[e.orderId];
       a.isOurs == e.isOurs && a.side == side && a.price == e.price
  }

  function SweepTrades(v: Venue, side: Side, limit: Option<Price>, qty: Qty, ts: nat): seq<MarketEvent> {
    TradeEvents(Sweep(side, v.book.Of(side), limit, qty, ts).fills)
  }

  function SweepVenue(v: Venue, side: Side, limit: Option<Price>, qty: Qty, ts: nat): Venue {
    Venue(v.book.With(side, Sweep(side, v.book.Of(side), limit, qty, ts).levels),
          v.log + SweepTrades(v, side, limit, qty, ts))
  }

  lemma NoFill(v: Venue, side: Side, limit: Option<Price>, qty: Qty, ts: nat)
    requires !CanFill(side, v.book.Of(side), limit, qty)
    ensures SweepVenue(v, side, limit, qty, ts) == v && SweepTrades(v, side, limit, qty, ts) == []
  {
    SweepNothing(side, v.book.Of(side), limit, qty, ts);
    assert v.log + [] == v.log;
  }

  /** The first fill of a walk is a trade the feed's discipline allows. */
  lemma FirstFillOk(v: Venue, side: Side, limit: Option<Price>, qty: Qty, ts: nat)
    requires VenueOk(v) && CanFill(side, v.book.Of(side), limit, qty)
    ensures NoEmptyLevel(v.book.Of(side))
    ensures FirstFill(side, v.book.Of(side), qty, ts).qty > 0
    ensures Within(side, FirstFill(side, v.book.Of(side), qty, ts).price, limit)
    ensures EventOk(Adds(v.log), Fold(v.log), TradeEvent(FirstFill(side, v.book.Of(side), qty, ts)))
  {
    VenueBookOk(v);
    var levels, fold := v.book.Of(side), Fold(v.log).Of(side);
    var p := Best(side, levels.Keys);
    assert QueueOk(side, p, levels[p]);
    OkIsKeyed(side, levels);
    assert SameQueue(levels[p], fold[p]) && SameOrder(levels[p][0], fold[p][0]);
  }

  lemma TradeEventsCons(log: seq<MarketEvent>, f: Fill, fills: seq<Fill>)
    ensures TradeEvents([f] + fills) == [TradeEvent(f)] + TradeEvents(fills)
    ensures log + TradeEvents([f] + fills) == (log + [TradeEvent(f)]) + TradeEvents(fills)
  {
    assert ([f] + fills)[1..] == fills;
  }

  /** Editing a side, then editing it again. */
  lemma WithSides(b: Book, side: Side, first: Levels, last: Levels)
    ensures b.With(side, first).Of(side) == first
    ensures b.With(side, first).With(side, last) == b.With(side, last)
  {
  }

  /** A walk that fills something, as its first fill and the walk over what that leaves. */
  lemma SplitFill(v: Venue, side: Side, limit: Option<Price>, qty: Qty, ts: nat)
      returns (f: Fill, levels': Levels, mid: Venue)
    requires NoEmptyLevel(v.book.Of(side)) && CanFill(side, v.book.Of(side), limit, qty)
    ensures f == FirstFill(side, v.book.Of(side), qty, ts)
    ensures levels' == ReduceOrder(v.book.Of(side), f.price, f.restingOrderId, f.qty)
    ensures mid == Venue(v.book.With(side, levels'), v.log + [TradeEvent(f)])
    ensures SweepVenue(v, side, limit, qty, ts) == SweepVenue(mid, side, limit, qty - f.qty, ts)
    ensures SweepTrades(v, side, limit, qty, ts) == [TradeEvent(f)] + SweepTrades(mid, side, limit, qty - f.qty, ts)
  {
    f, levels' := SweepFirstFill(side, v.book.Of(side), limit, qty, ts);
    mid := Venue(v.book.With(side, levels'), v.log + [TradeEvent(f)]);
    var r := Sweep(side, levels', limit, qty - f.qty, ts);
    WithSides(v.book, side, levels', r.levels);
    TradeEventsCons(v.log, f, r.fills);
  }

  /** A walk that fills something is its first trade followed by the walk over the rest. */
  lemma SplitTrade(v: Venue, side: Side, limit: Option<Price>, qty: Qty, ts: nat)
      returns (e: MarketEvent, mid: Venue, left: Qty)
    requires VenueOk(v) && CanFill(side, v.book.Of(side), limit, qty)
    ensures left < qty && mid == Venue(Apply(v.book, e), v.log + [e])
    ensures e.Trade? && e.side == side && Within(side, e.price, limit) && EventOk(Adds(v.log), Fold(v.log), e)
    ensures SweepVenue(v, side, limit, qty, ts) == SweepVenue(mid, side, limit, left, ts)
    ensures SweepTrades(v, side, limit, qty, ts) == [e] + SweepTrades(mid, side, limit, left, ts)
  {
    FirstFillOk(v, side, limit, qty, ts);
    var f, levels';
    f, levels', mid := SplitFill(v, side, limit, qty, ts);
    e, left := TradeEvent(f), qty - f.qty;
  }

  /** Takes the first trade off a walk: it keeps the venue in order and hits a live order. */
  lemma {:induction false} PeelTrade(v: Venue, side: Side, limit: Option<Price>, qty: Qty, ts: nat)
      returns (e: MarketEvent, mid: Venue, left: Qty)
    requires VenueOk(v) && CanFill(side, v.book.Of(side), limit, qty)
    ensures left < qty && VenueOk(mid) && mid.log == v.log + [e] && Adds(mid.log) == Adds(v.log)
    ensures HitsLive(v.log, e, side, limit)
    ensures SweepVenue(v, side, limit, qty, ts) == SweepVenue(mid, side, limit, left, ts)
    ensures SweepTrades(v, side, limit, qty, ts) == [e] + SweepTrades(mid, side, limit, left, ts)
  {
    e, mid, left := SplitTrade(v, side, limit, qty, ts);
    TradeKeeps(v, e);
  }

  lemma TradeKeeps(v: Venue, e: MarketEvent)
    requires VenueOk(v) && e.Trade? && EventOk(Adds(v.log), Fold(v.log), e)
    ensures VenueOk(Venue(Apply(v.book, e), v.log + [e])) && Adds(v.log + [e]) == Adds(v.log)
    ensures HitsLive(v.log, e, e.side, None)
  {
    Snoc(v.log, e);
    SameApply(v.book, Fold(v.log), e);
    EventNamesAdded(v.log, e);
    LiveIsResting(v.log, e.orderId);
  }

  /** All the fills of a walk, reported one by one, replay to the walk's effect. */
  lemma {:induction false} SweepReported(v: Venue, side: Side, limit: Option<Price>, qty: Qty, ts: nat)
    requires VenueOk(v)
    ensures VenueOk(SweepVenue(v, side, limit, qty, ts))
    ensures Adds(SweepVenue(v, side, limit, qty, ts).log) == Adds(v.log)
    decreases qty
  {
    if CanFill(side, v.book.Of(side), limit, qty) {
      var e, mid, left := PeelTrade(v, side, limit, qty, ts);
      SweepReported(mid, side, limit, left, ts);
    } else {
      NoFill(v, side, limit, qty, ts);
    }
  }

  /** Matching never makes an order live. */
  lemma {:induction false} SweepLive(v: Venue, side: Side, limit: Option<Price>, qty: Qty, ts: nat, k: OrderId)
    requires VenueOk(v)
    ensures Live(SweepVenue(v, side, limit, qty, ts).log, k) ==> Live(v.log, k)
    decreases qty
  {
    if CanFill(side, v.book.Of(side), limit, qty) {
      var e, mid, left := PeelTrade(v, side, limit, qty, ts);
      SweepLive(mid, side, limit, left, ts, k);
      SnocLive(v.log, e, k);
    } else {
      NoFill(v, side, limit, qty, ts);
    }
  }

  lemma HitsEarlier(log: seq<MarketEvent>, e: MarketEvent, e': MarketEvent, side: Side, limit: Option<Price>)
    requires LogOk(log + [e]) && !e.Add? && HitsLive(log + [e], e', side, limit)
    ensures HitsLive(log, e', side, limit)
  {
    Snoc(log, e);
    SnocLive(log, e, e'.orderId);
  }

  /** Every trade a walk reports hits an order that was live when the walk began. */
  lemma {:induction false} SweepHits(v: Venue, side: Side, limit: Option<Price>, qty: Qty, ts: nat)
    requires VenueOk(v)
    ensures forall e :: e in SweepTrades(v, side, limit, qty, ts) ==> HitsLive(v.log, e, side, limit)
    decreases qty
  {
    if CanFill(side, v.book.Of(side), limit, qty) {
      var e, mid, left := PeelTrade(v, side, limit, qty, ts);
      SweepHits(mid, side, limit, left, ts);
      forall e' | e' in SweepTrades(mid, side, limit, left, ts) ensures HitsLive(v.log, e', side, limit) {
        HitsEarlier(v.log, e, e', side, limit);
      }
    } else {
      NoFill(v, side, limit, qty, ts);
    }
  }

  lemma RestRemainder(v: Venue, o: Order, addTs: nat)
    requires VenueOk(v) && o.qty > 0 && forall k :: k in Adds(v.log) ==> k < o.id
    requires forall p :: p in v.book.Of(o.side.Opposite()) ==> !Within(o.side.Opposite(), p, Some(o.price))
    ensures var add := Add(o.id, o.side, o.price, o.qty, addTs, o.isOurs);
            && VenueOk(Venue(v.book.With(o.side, Insert(v.book.Of(o.side), o)), v.log + [add]))
            && Adds(v.log + [add]) == Adds(v.log)[o.id := add]
  {
    var add := Add(o.id, o.side, o.price, o.qty, addTs, o.isOurs);
    var fold, opp := Fold(v.log), o.side.Opposite();
    assert v.book.Of(opp).Keys == fold.Of(opp).Keys;
    forall p | p in fold.Of(opp) ensures !Within(opp, p, Some(o.price)) {
      assert p in v.book.Of(opp);
    }
    assert EventOk(Adds(v.log), fold, add);
    Snoc(v.log, add);
    SameInsert(v.book.Of(o.side), fold.Of(o.side), o, o.(ts := addTs));
  }

  /** What is left to rest after matching. */
  function Unfilled(v: Venue, side: Side, price: Price, qty: Qty, ts: nat): Qty {
    Sweep(side.Opposite(), v.book.Of(side.Opposite()), Some(price), qty, ts).remaining
  }

  /** What is not filled is left. */
  lemma FilledPlusLeft(v: Venue, side: Side, price: Price, qty: Qty, ts: nat)
    requires VenueOk(v)
    ensures var r := Sweep(side.Opposite(), v.book.Of(side.Opposite()), Some(price), qty, ts);
            FillTotal(r.fills) + Unfilled(v, side, price, qty, ts) == qty
  {
    var opp := side.Opposite();
    VenueBookOk(v);
    OkIsKeyed(opp, v.book.Of(opp));
    SweepTotal(opp, v.book.Of(opp), Some(price), qty, ts);
  }

  /** A reported submission is a reported walk followed by a reported remainder. */
  lemma SubmitIsSweepThenRest(v: Venue, id: OrderId, side: Side, price: Price, qty: Qty, ts: nat, addTs: nat,
                              isOurs: bool)
    requires VenueOk(v)
    ensures var opp := side.Opposite();
            var v' := SubmitReported(v, id, side, price, qty, ts, addTs, isOurs);
            var mid := SweepVenue(v, opp, Some(price), qty, ts);
            var left := Unfilled(v, side, price, qty, ts);
            && FillTotal(Submit(v.book, id, side, price, qty, ts, isOurs).fills) + left == qty
            && v' == if left == 0 then mid else
                 Venue(mid.book.With(side, Insert(mid.book.Of(side), Order(id, side, price, left, ts, isOurs))),
                       mid.log + [Add(id, side, price, left, addTs, isOurs)])
  {
    FilledPlusLeft(v, side, price, qty, ts);
    var mid := SweepVenue(v, side.Opposite(), Some(price), qty, ts);
    assert mid.log + [] == mid.log;
  }

  /** A reported submission keeps the feed disciplined and in step with the book, and adds
      exactly its remainder, if there is one. */
  lemma SubmitEffect(v: Venue, id: OrderId, side: Side, price: Price, qty: Qty, ts: nat, addTs: nat, isOurs: bool)
    requires VenueOk(v) && forall k :: k in Adds(v.log) ==> k < id
    ensures var v' := SubmitReported(v, id, side, price, qty, ts, addTs, isOurs);
            var left := Unfilled(v, side, price, qty, ts);
            && VenueOk(v') && v.log <= v'.log
            && Adds(v'.log) == if left == 0 then Adds(v.log)
                               else Adds(v.log)[id := Add(id, side, price, left, addTs, isOurs)]
  {
    var opp := side.Opposite();
    SubmitIsSweepThenRest(v, id, side, price, qty, ts, addTs, isOurs);
    SweepReported(v, opp, Some(price), qty, ts);
    var left := Unfilled(v, side, price, qty, ts);
    if left > 0 {
      SweepExhausts(opp, v.book.Of(opp), Some(price), qty, ts);
      RestRemainder(SweepVenue(v, opp, Some(price), qty, ts), Order(id, side, price, left, ts, isOurs), addTs);
    }
  }

  /** The only order a submission can make live is the one submitted. */
  lemma SubmitLive(v: Venue, id: OrderId, side: Side, price: Price, qty: Qty, ts: nat, addTs: nat, isOurs: bool,
                   k: OrderId)
    requires VenueOk(v) && forall k' :: k' in Adds(v.log) ==> k' < id
    ensures Live(SubmitReported(v, id, side, price, qty, ts, addTs, isOurs).log, k) ==>
              Live(v.log, k) || (k == id && Unfilled(v, side, price, qty, ts) > 0)
  {
    var opp := side.Opposite();
    SubmitIsSweepThenRest(v, id, side, price, qty, ts, addTs, isOurs);
    SubmitEffect(v, id, side, price, qty, ts, addTs, isOurs);
    SweepReported(v, opp, Some(price), qty, ts);
    SweepLive(v, opp, Some(price), qty, ts, k);
    var left := Unfilled(v, side, price, qty, ts);
    if left > 0 {
      SnocLive(SweepVenue(v, opp, Some(price), qty, ts).log, Add(id, side, price, left, addTs, isOurs), k);
    }
  }

  lemma ExecuteEffect(v: Venue, aggressor: Side, qty: Qty, ts: nat)
    requires VenueOk(v)
    ensures var v' := ExecuteReported(v, aggressor, qty, ts);
            VenueOk(v') && v.log <= v'.log && Adds(v'.log) == Adds(v.log)
  {
    SweepReported(v, aggressor.Opposite(), None, qty, ts);
  }

  /** An order in the book is a live order of the log, with the owner the log gave it. */
  lemma RestingIsLive(v: Venue, side: Side, price: Price, i: nat)
    requires VenueOk(v) && price in v.book.Of(side) && i < |v.book.Of(side)[price]|
    ensures var o := v.book.Of(side)[price][i];
            Live(v.log, o.id) && AddedAs(Adds(v.log), side, price, o)
  {
    VenueBookOk(v);
    var q, f := v.book.Of(side)[price], Fold(v.log).Of(side)[price];
    assert SameQueue(q, f) && SameOrder(q[i], f[i]);
    assert QueueOk(side, price, f) && AddedAs(Adds(v.log), side, price, f[i]);
    PositionUnique(side, price, f, i);
    LiveIsResting(v.log, q[i].id);
  }
}
