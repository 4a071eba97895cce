/** The exchange's step machine: background slots, our two trackers, noise orders, and the
    invariant that every step of every run keeps. */
module Exchanges {
  import opened Types
  import opened Feed
  import opened Venues

  datatype Config = Config(levels: nat, levelQty: Qty, noiseQty: Qty)

  datatype Slot = Slot(id: OrderId, price: Price)

  datatype Exchange = Exchange(
    venue: Venue, idGen: nat,
    bidSlots: seq<Option<Slot>>, askSlots: seq<Option<Slot>>,
    ourBidId: Option<OrderId>, ourBidPrice: Price,
    ourAskId: Option<OrderId>, ourAskPrice: Price)
  {
    function Slots(side: Side): seq<Option<Slot>> {
      if side == Bid then bidSlots else askSlots
    }

    function WithSlots(side: Side, slots: seq<Option<Slot>>): Exchange {
      if side == Bid then this.(bidSlots := slots) else this.(askSlots := slots)
    }

    function OurId(side: Side): Option<OrderId> {
      if side == Bid then ourBidId else ourAskId
    }

    function OurPrice(side: Side): Price {
      if side == Bid then ourBidPrice else ourAskPrice
    }

    function WithOurs(side: Side, id: Option<OrderId>, price: Price): Exchange {
      if side == Bid then this.(ourBidId := id, ourBidPrice := price) else this.(ourAskId := id, ourAskPrice := price)
    }
  }

  function NoSlots(n: nat): (s: seq<Option<Slot>>)
    ensures |s| == n && forall i :: 0 <= i < n ==> s[i] == None
  {
    seq(n, _ => None)
  }

  function InitExchange(cfg: Config): Exchange {
    Exchange(EMPTY_VENUE, 0, NoSlots(cfg.levels), NoSlots(cfg.levels), None, 0, None, 0)
  }

  /** One side's tracker is taken, and the order it names cancelled if it still rests. */
  function CancelOurs(x: Exchange, side: Side, ts: nat): Exchange {
    if x.OurId(side).None? then x else
      var v := CancelReported(x.venue, side, x.OurPrice(side), x.OurId(side).value, ts);
      x.WithOurs(side, None, x.OurPrice(side)).(venue := v)
  }

  /** Our side after order `idGen + 1` went in, leaving venue `v` and `left` unfilled. */
  function TrackOurs(x: Exchange, side: Side, price: Price, v: Venue, left: Qty): Exchange {
    var x' := x.(idGen := x.idGen + 1, venue := v);
    if left > 0 then x'.WithOurs(side, Some(x'.idGen), price) else x'
  }

  /** A fresh order of ours, tracked when some of it rests. */
  function PlaceOurs(x: Exchange, side: Side, price: Price, qty: Qty, ts: nat, addTs: nat): Exchange {
    TrackOurs(x, side, price, SubmitReported(x.venue, x.idGen + 1, side, price, qty, ts, addTs, true),
              Unfilled(x.venue, side, price, qty, ts))
  }

  datatype QuoteClock = QuoteClock(
    cancelBid: nat, cancelAsk: nat, submitBid: nat, addBid: nat, submitAsk: nat, addAsk: nat)

  function SafeAsk(bidPrice: Price, askPrice: Price): Price {
    Max(askPrice, bidPrice + 1)
  }

  function CancelBoth(x: Exchange, bidTs: nat, askTs: nat): Exchange {
    CancelOurs(CancelOurs(x, Bid, bidTs), Ask, askTs)
  }

  function ApplyQuote(x: Exchange, bidPrice: Price, bidQty: Qty, askPrice: Price, askQty: Qty,
                      clock: QuoteClock): Exchange {
    var x1 := CancelBoth(x, clock.cancelBid, clock.cancelAsk);
    var x2 := PlaceOurs(x1, Bid, bidPrice, bidQty, clock.submitBid, clock.addBid);
    PlaceOurs(x2, Ask, SafeAsk(bidPrice, askPrice), askQty, clock.submitAsk, clock.addAsk)
  }

  function ApplyCommand(x: Exchange, cmd: StrategyCommand, clock: QuoteClock): Exchange {
    match cmd
    case Quote(bidPrice, bidQty, askPrice, askQty) => ApplyQuote(x, bidPrice, bidQty, askPrice, askQty, clock)
    case CancelAll => CancelBoth(x, clock.cancelBid, clock.cancelAsk)
  }

  /** The slot's old order is cancelled if it still rests, and a fresh one submitted. */
  function ClearSlot(x: Exchange, side: Side, lvl: nat, ts: nat): Exchange
    requires lvl < |x.Slots(side)|
  {
    var slot := x.Slots(side)[lvl];
    if slot.None? then x else
      x.WithSlots(side, x.Slots(side)[lvl := None])
       .(venue := CancelReported(x.venue, side, slot.value.price, slot.value.id, ts))
  }

  function TrackSlot(x: Exchange, side: Side, lvl: nat, price: Price, v: Venue, left: Qty): Exchange
    requires lvl < |x.Slots(side)|
  {
    var x' := x.(idGen := x.idGen + 1, venue := v);
    if left > 0 then x'.WithSlots(side, x.Slots(side)[lvl := Some(Slot(x'.idGen, price))]) else x'
  }

  function FillSlot(x: Exchange, side: Side, lvl: nat, price: Price, qty: Qty, ts: nat, addTs: nat): Exchange
    requires lvl < |x.Slots(side)|
  {
    TrackSlot(x, side, lvl, price, SubmitReported(x.venue, x.idGen + 1, side, price, qty, ts, addTs, false),
              Unfilled(x.venue, side, price, qty, ts))
  }

  function BackgroundPrice(side: Side, lvl: nat, midTicks: Price): Price {
    if side == Bid then midTicks - (lvl + 1) else midTicks + (lvl + 1)
  }

  function PlaceBackground(x: Exchange, cfg: Config, side: Side, lvl: nat, midTicks: Price, cancelTs: nat, ts: nat,
                           addTs: nat): Exchange
    requires lvl < |x.Slots(side)|
  {
    FillSlot(ClearSlot(x, side, lvl, cancelTs), side, lvl, BackgroundPrice(side, lvl, midTicks), cfg.levelQty, ts,
             addTs)
  }

  function NoiseOrder(x: Exchange, cfg: Config, aggressor: Side, ts: nat): Exchange {
    x.(venue := ExecuteReported(x.venue, aggressor, cfg.noiseQty, ts))
  }

  // The invariant.

  /** A live order is named, at its own price, by our tracker for its side or by a slot. */
  ghost predicate Tracked(adds: map<OrderId, MarketEvent>, x: Exchange, id: OrderId) {
    && id in adds && adds[id].Add?
    && var a := adds[id];
       if a.isOurs
       then x.OurId(a.side) == Some(id) && x.OurPrice(a.side) == a.price
       else Some(Slot(id, a.price)) in x.Slots(a.side)
  }

  /** What a tracker names really was added, there and for that owner. */
  predicate Names(adds: map<OrderId, MarketEvent>, side: Side, price: Price, id: OrderId, isOurs: bool) {
    && id in adds && adds[id].Add?
    && adds[id].side == side && adds[id].price == price && adds[id].isOurs == isOurs
  }

  predicate SlotOk(adds: map<OrderId, MarketEvent>, side: Side, slot: Option<Slot>) {
    slot.Some? ==> Names(adds, side, slot.value.price, slot.value.id, false)
  }

  ghost predicate SlotsOk(adds: map<OrderId, MarketEvent>, side: Side, slots: seq<Option<Slot>>) {
    && (forall i :: 0 <= i < |slots| ==> SlotOk(adds, side, slots[i]))
    && (forall i, j :: 0 <= i < j < |slots| && slots[i].Some? && slots[j].Some? ==>
        slots[i].value.id != slots[j].value.id)
  }

  predicate OursOk(adds: map<OrderId, MarketEvent>, side: Side, id: Option<OrderId>, price: Price) {
    id.Some? ==> Names(adds, side, price, id.value, true)
  }

  ghost predicate TrackersOk(adds: map<OrderId, MarketEvent>, x: Exchange) {
    && (forall k :: k in adds ==> k <= x.idGen)
    && SlotsOk(adds, Bid, x.bidSlots) && SlotsOk(adds, Ask, x.askSlots)
    && OursOk(adds, Bid, x.ourBidId, x.ourBidPrice) && OursOk(adds, Ask, x.ourAskId, x.ourAskPrice)
  }

  ghost predicate ExchangeOk(x: Exchange) {
    && VenueOk(x.venue)
    && TrackersOk(Adds(x.venue.log), x)
    && (forall k :: Live(x.venue.log, k) ==> Tracked(Adds(x.venue.log), x, k))
  }

  lemma InitOk(cfg: Config)
    ensures ExchangeOk(InitExchange(cfg))
  {
  }

  /** Adding a later order leaves everything the trackers name in place. */
  lemma TrackersWeaken(adds: map<OrderId, MarketEvent>, x: Exchange, add: MarketEvent)
    requires TrackersOk(adds, x) && add.Add? && add.orderId == x.idGen + 1
    ensures TrackersOk(adds[add.orderId := add], x.(idGen := add.orderId))
    ensures forall k :: Tracked(adds, x, k) ==> Tracked(adds[add.orderId := add], x, k)
  {
    var adds' := adds[add.orderId := add];
    forall side, slot | SlotOk(adds, side, slot) ensures SlotOk(adds', side, slot) {}
  }

  // Our orders.

  lemma CancelOursOk(x: Exchange, side: Side, ts: nat)
    requires ExchangeOk(x)
    ensures ExchangeOk(CancelOurs(x, side, ts))
    ensures Adds(CancelOurs(x, side, ts).venue.log) == Adds(x.venue.log)
    ensures CancelOurs(x, side, ts).OurId(side) == None
    ensures CancelOurs(x, side, ts).OurId(side.Opposite()) == x.OurId(side.Opposite())
  {
    if x.OurId(side).Some? {
      CancelEffect(x.venue, side, x.OurPrice(side), x.OurId(side).value, ts);
      var x' := CancelOurs(x, side, ts);
      forall k | Live(x'.venue.log, k) ensures Tracked(Adds(x'.venue.log), x', k) {
        assert Tracked(Adds(x.venue.log), x, k);
      }
    }
  }

  lemma CancelBothOk(x: Exchange, bidTs: nat, askTs: nat)
    requires ExchangeOk(x)
    ensures ExchangeOk(CancelBoth(x, bidTs, askTs))
    ensures CancelBoth(x, bidTs, askTs).ourBidId == None && CancelBoth(x, bidTs, askTs).ourAskId == None
  {
    CancelOursOk(x, Bid, bidTs);
    CancelOursOk(CancelOurs(x, Bid, bidTs), Ask, askTs);
  }

  /** `v'` extends `v` by one submission of which `add.qty` came to rest. */
  ghost predicate Grown(v: Venue, v': Venue, add: MarketEvent) {
    && add.Add? && VenueOk(v') && v.log <= v'.log
    && Adds(v'.log) == (if add.qty == 0 then Adds(v.log) else Adds(v.log)[add.orderId := add])
    && (forall k :: Live(v'.log, k) ==> Live(v.log, k) || (k == add.orderId && add.qty > 0))
  }

  lemma SubmitGrows(v: Venue, id: OrderId, side: Side, price: Price, qty: Qty, ts: nat, addTs: nat, isOurs: bool)
      returns (v': Venue, add: MarketEvent)
    requires VenueOk(v) && forall k :: k in Adds(v.log) ==> k < id
    ensures v' == SubmitReported(v, id, side, price, qty, ts, addTs, isOurs)
    ensures add == Add(id, side, price, Unfilled(v, side, price, qty, ts), addTs, isOurs)
    ensures Grown(v, v', add)
  {
    SubmitEffect(v, id, side, price, qty, ts, addTs, isOurs);
    v' := SubmitReported(v, id, side, price, qty, ts, addTs, isOurs);
    add := Add(id, side, price, Unfilled(v, side, price, qty, ts), addTs, isOurs);
    forall k | Live(v'.log, k) ensures Live(v.log, k) || (k == id && add.qty > 0) {
      SubmitLive(v, id, side, price, qty, ts, addTs, isOurs, k);
    }
  }

  lemma TrackOursOk(x: Exchange, side: Side, price: Price, v: Venue, add: MarketEvent)
    requires ExchangeOk(x) && x.OurId(side) == None && Grown(x.venue, v, add)
    requires add.orderId == x.idGen + 1 && add.side == side && add.price == price && add.isOurs
    ensures ExchangeOk(TrackOurs(x, side, price, v, add.qty))
  {
    var x' := TrackOurs(x, side, price, v, add.qty);
    TrackersWeaken(Adds(x.venue.log), x, add);
    forall k | Live(v.log, k) ensures Tracked(Adds(v.log), x', k) {
      if Live(x.venue.log, k) {
        assert Tracked(Adds(x.venue.log), x, k);
        assert k != add.orderId;
      }
    }
  }

  lemma PlaceOursIs(x: Exchange, side: Side, price: Price, qty: Qty, ts: nat, addTs: nat)
      returns (v: Venue, add: MarketEvent)
    requires VenueOk(x.venue) && forall k :: k in Adds(x.venue.log) ==> k <= x.idGen
    ensures Grown(x.venue, v, add)
    ensures add == Add(x.idGen + 1, side, price, add.qty, addTs, true)
    ensures PlaceOurs(x, side, price, qty, ts, addTs) == TrackOurs(x, side, price, v, add.qty)
  {
    v, add := SubmitGrows(x.venue, x.idGen + 1, side, price, qty, ts, addTs, true);
  }

  lemma PlaceOursOk(x: Exchange, side: Side, price: Price, qty: Qty, ts: nat, addTs: nat)
    requires ExchangeOk(x) && x.OurId(side) == None
    ensures ExchangeOk(PlaceOurs(x, side, price, qty, ts, addTs))
  {
    var v, add := PlaceOursIs(x, side, price, qty, ts, addTs);
    TrackOursOk(x, side, price, v, add);
  }

  // Background orders.

  lemma ClearSlotTracked(x: Exchange, side: Side, lvl: nat, ts: nat, k: OrderId)
    requires ExchangeOk(x) && lvl < |x.Slots(side)|
    requires Live(ClearSlot(x, side, lvl, ts).venue.log, k)
    ensures var x' := ClearSlot(x, side, lvl, ts);
            Tracked(Adds(x'.venue.log), x', k)
  {
    var slot := x.Slots(side)[lvl];
    var x' := ClearSlot(x, side, lvl, ts);
    if slot.Some? {
      assert SlotOk(Adds(x.venue.log), side, slot);
      CancelEffect(x.venue, side, slot.value.price, slot.value.id, ts);
      assert Tracked(Adds(x.venue.log), x, k);
      var a := Adds(x.venue.log)[k];
      if !a.isOurs && a.side == side {
        var i :| 0 <= i < |x.Slots(side)| && x.Slots(side)[i] == Some(Slot(k, a.price));
        assert x'.Slots(side)[i] == Some(Slot(k, a.price));
      }
    }
  }

  lemma ClearSlotOk(x: Exchange, side: Side, lvl: nat, ts: nat)
    requires ExchangeOk(x) && lvl < |x.Slots(side)|
    ensures ExchangeOk(ClearSlot(x, side, lvl, ts))
    ensures ClearSlot(x, side, lvl, ts).Slots(side) == x.Slots(side)[lvl := None]
  {
    var slot := x.Slots(side)[lvl];
    var x' := ClearSlot(x, side, lvl, ts);
    if slot.Some? {
      assert SlotOk(Adds(x.venue.log), side, slot);
      CancelEffect(x.venue, side, slot.value.price, slot.value.id, ts);
      forall k | Live(x'.venue.log, k) ensures Tracked(Adds(x'.venue.log), x', k) {
        ClearSlotTracked(x, side, lvl, ts, k);
      }
    } else {
      assert x.Slots(side)[lvl := None] == x.Slots(side);
    }
  }

  lemma TrackSlotOk(x: Exchange, side: Side, lvl: nat, price: Price, v: Venue, add: MarketEvent)
    requires ExchangeOk(x) && lvl < |x.Slots(side)| && x.Slots(side)[lvl] == None && Grown(x.venue, v, add)
    requires add.orderId == x.idGen + 1 && add.side == side && add.price == price && !add.isOurs
    ensures ExchangeOk(TrackSlot(x, side, lvl, price, v, add.qty))
  {
    var x' := TrackSlot(x, side, lvl, price, v, add.qty);
    var adds := Adds(x.venue.log);
    TrackersWeaken(adds, x, add);
    SlotAdded(adds, side, x.Slots(side), lvl, add, x.idGen);
    forall k | Live(v.log, k) ensures Tracked(Adds(v.log), x', k) {
      if Live(x.venue.log, k) {
        assert Tracked(adds, x, k);
        assert k != add.orderId;
        var a := adds[k];
        if !a.isOurs && a.side == side {
          var i :| 0 <= i < |x.Slots(side)| && x.Slots(side)[i] == Some(Slot(k, a.price));
          assert x'.Slots(side)[i] == Some(Slot(k, a.price));
        }
      } else {
        assert x'.Slots(side)[lvl] == Some(Slot(add.orderId, price));
      }
    }
  }

  lemma FillSlotIs(x: Exchange, side: Side, lvl: nat, price: Price, qty: Qty, ts: nat, addTs: nat)
      returns (v: Venue, add: MarketEvent)
    requires VenueOk(x.venue) && (forall k :: k in Adds(x.venue.log) ==> k <= x.idGen) && lvl < |x.Slots(side)|
    ensures Grown(x.venue, v, add)
    ensures add == Add(x.idGen + 1, side, price, add.qty, addTs, false)
    ensures FillSlot(x, side, lvl, price, qty, ts, addTs) == TrackSlot(x, side, lvl, price, v, add.qty)
  {
    v, add := SubmitGrows(x.venue, x.idGen + 1, side, price, qty, ts, addTs, false);
  }

  lemma FillSlotOk(x: Exchange, side: Side, lvl: nat, price: Price, qty: Qty, ts: nat, addTs: nat)
    requires ExchangeOk(x) && lvl < |x.Slots(side)| && x.Slots(side)[lvl] == None
    ensures ExchangeOk(FillSlot(x, side, lvl, price, qty, ts, addTs))
  {
    var v, add := FillSlotIs(x, side, lvl, price, qty, ts, addTs);
    TrackSlotOk(x, side, lvl, price, v, add);
  }

  lemma SlotAdded(adds: map<OrderId, MarketEvent>, side: Side, slots: seq<Option<Slot>>, lvl: nat, add: MarketEvent,
                  idGen: nat)
    requires SlotsOk(adds, side, slots) && lvl < |slots| && add.Add? && add.side == side && !add.isOurs
    requires add.orderId == idGen + 1 && forall k :: k in adds ==> k <= idGen
    ensures SlotsOk(adds[add.orderId := add], side, slots[lvl := Some(Slot(add.orderId, add.price))])
  {
    forall i | 0 <= i < |slots| && slots[i].Some? ensures slots[i].value.id != add.orderId {
      assert SlotOk(adds, side, slots[i]);
    }
  }

  lemma PlaceBackgroundOk(x: Exchange, cfg: Config, side: Side, lvl: nat, midTicks: Price, cancelTs: nat, ts: nat,
                          addTs: nat)
    requires ExchangeOk(x) && lvl < |x.Slots(side)|
    ensures ExchangeOk(PlaceBackground(x, cfg, side, lvl, midTicks, cancelTs, ts, addTs))
  {
    ClearSlotOk(x, side, lvl, cancelTs);
    FillSlotOk(ClearSlot(x, side, lvl, cancelTs), side, lvl, BackgroundPrice(side, lvl, midTicks), cfg.levelQty, ts,
               addTs);
  }

  // Noise orders and commands.

  lemma NoiseOrderTracked(x: Exchange, cfg: Config, aggressor: Side, ts: nat, k: OrderId)
    requires ExchangeOk(x) && Live(NoiseOrder(x, cfg, aggressor, ts).venue.log, k)
    ensures Tracked(Adds(x.venue.log), x, k)
  {
    SweepLive(x.venue, aggressor.Opposite(), None, cfg.noiseQty, ts, k);
  }

  lemma {:induction false} NoiseOrderOk(x: Exchange, cfg: Config, aggressor: Side, ts: nat)
    requires ExchangeOk(x)
    ensures ExchangeOk(NoiseOrder(x, cfg, aggressor, ts))
  {
    var x' := NoiseOrder(x, cfg, aggressor, ts);
    ExecuteEffect(x.venue, aggressor, cfg.noiseQty, ts);
    forall k | Live(x'.venue.log, k) ensures Tracked(Adds(x'.venue.log), x', k) {
      NoiseOrderTracked(x, cfg, aggressor, ts, k);
    }
  }

  // The log only grows.

  lemma SubmitExtends(v: Venue, id: OrderId, side: Side, price: Price, qty: Qty, ts: nat, addTs: nat, isOurs: bool)
    ensures v.log <= SubmitReported(v, id, side, price, qty, ts, addTs, isOurs).log
  {
  }

  /** The same number of background levels on both sides. */
  predicate SameLevelCount(x: Exchange, x': Exchange) {
    |x'.bidSlots| == |x.bidSlots| && |x'.askSlots| == |x.askSlots|
  }

  lemma PlaceBackgroundExtends(x: Exchange, cfg: Config, side: Side, lvl: nat, midTicks: Price, cancelTs: nat,
                               ts: nat, addTs: nat)
    requires lvl < |x.Slots(side)|
    ensures x.venue.log <= PlaceBackground(x, cfg, side, lvl, midTicks, cancelTs, ts, addTs).venue.log
    ensures SameLevelCount(x, PlaceBackground(x, cfg, side, lvl, midTicks, cancelTs, ts, addTs))
  {
    var x1 := ClearSlot(x, side, lvl, cancelTs);
    assert x.venue.log <= x1.venue.log;
    SubmitExtends(x1.venue, x1.idGen + 1, side, BackgroundPrice(side, lvl, midTicks), cfg.levelQty, ts, addTs, false);
  }

  lemma ApplyCommandExtends(x: Exchange, cmd: StrategyCommand, clock: QuoteClock)
    ensures x.venue.log <= ApplyCommand(x, cmd, clock).venue.log
    ensures SameLevelCount(x, ApplyCommand(x, cmd, clock))
  {
    var x1 := CancelBoth(x, clock.cancelBid, clock.cancelAsk);
    assert x.venue.log <= x1.venue.log;
    if cmd.Quote? {
      SubmitExtends(x1.venue, x1.idGen + 1, Bid, cmd.bidPrice, cmd.bidQty, clock.submitBid, clock.addBid, true);
      var x2 := PlaceOurs(x1, Bid, cmd.bidPrice, cmd.bidQty, clock.submitBid, clock.addBid);
      SubmitExtends(x2.venue, x2.idGen + 1, Ask, SafeAsk(cmd.bidPrice, cmd.askPrice), cmd.askQty, clock.submitAsk,
                    clock.addAsk, true);
    }
  }

  lemma NoiseOrderExtends(x: Exchange, cfg: Config, aggressor: Side, ts: nat)
    ensures x.venue.log <= NoiseOrder(x, cfg, aggressor, ts).venue.log
    ensures SameLevelCount(x, NoiseOrder(x, cfg, aggressor, ts))
  {
  }

  lemma ApplyCommandOk(x: Exchange, cmd: StrategyCommand, clock: QuoteClock)
    requires ExchangeOk(x)
    ensures ExchangeOk(ApplyCommand(x, cmd, clock))
  {
    CancelBothOk(x, clock.cancelBid, clock.cancelAsk);
    match cmd
    case CancelAll =>
    case Quote(bidPrice, bidQty, askPrice, askQty) =>
      var x1 := CancelBoth(x, clock.cancelBid, clock.cancelAsk);
      PlaceOursOk(x1, Bid, bidPrice, bidQty, clock.submitBid, clock.addBid);
      var x2 := PlaceOurs(x1, Bid, bidPrice, bidQty, clock.submitBid, clock.addBid);
      PlaceOursOk(x2, Ask, SafeAsk(bidPrice, askPrice), askQty, clock.submitAsk, clock.addAsk);
  }
}
