/** The exchange thread's state as it is updated step by step, each step proved equal to the
    corresponding step of `Exchanges`. */
module MarketSims {
  import opened Types
  import opened Levels
  import opened Matching
  import opened Feed
  import opened Drift
  import opened Venues
  import opened Exchanges
  import opened Guarantees
  import opened OrderBooks

  // The numbered, lossy sender.

  /** The packets on the wire for a log, when packet `i` is lost exactly if `loses(i)`. */
  function Wire(log: seq<MarketEvent>, loses: nat -> bool): (wire: seq<SeqEvent>)
    ensures forall i :: 0 <= i < |wire| ==> wire[i].seqNo < |log| && log[wire[i].seqNo] == wire[i].event
  {
    if log == [] then [] else
      var n := |log| - 1;
      Wire(log[..n], loses) + if loses(n) then [] else [SeqEvent(n, log[n])]
  }

  function Mask(n: nat, loses: nat -> bool): seq<bool> {
    seq(n, i requires 0 <= i < n => !loses(i))
  }

  /** What is on the wire is the log with the lost events left out, so every statement about
      `Kept` speaks of what this sender delivers. */
  lemma {:induction false} WireIsKept(log: seq<MarketEvent>, loses: nat -> bool)
    ensures EventsOf(Wire(log, loses)) == Kept(log, Mask(|log|, loses))
    decreases |log|
  {
    if log != [] {
      var n := |log| - 1;
      WireIsKept(log[..n], loses);
      assert Mask(|log|, loses)[..n] == Mask(n, loses);
    }
  }

  /** Sequence numbers on the wire strictly increase. */
  lemma {:induction false} WireAscends(log: seq<MarketEvent>, loses: nat -> bool)
    ensures forall i, j :: 0 <= i < j < |Wire(log, loses)| ==> Wire(log, loses)[i].seqNo < Wire(log, loses)[j].seqNo
    decreases |log|
  {
    if log != [] { WireAscends(log[..|log| - 1], loses); }
  }

  class FeedSender {
    var nextSeq: nat
    var wire: seq<SeqEvent>
    const loses: nat -> bool
    ghost var log: seq<MarketEvent>

    ghost predicate Valid()
      reads this
    {
      nextSeq == |log| && wire == Wire(log, loses)
    }

    constructor (loses: nat -> bool)
      ensures Valid() && log == [] && this.loses == loses
    {
      this.loses := loses;
      nextSeq, wire, log := 0, [], [];
    }

    /** The sequence number advances even when the packet is lost, so a gap is real. */
    method Emit(event: MarketEvent)
      requires Valid()
      modifies this
      ensures Valid() && log == old(log) + [event]
    {
      var packet := SeqEvent(nextSeq, event);
      nextSeq := nextSeq + 1;
      log := log + [event];
      assert log[..|log| - 1] == old(log);
      if !loses(packet.seqNo) {
        wire := wire + [packet];
      }
    }

    method EmitTrades(fills: seq<Fill>)
      requires Valid()
      modifies this
      ensures Valid() && log == old(log) + TradeEvents(fills)
    {
      for i := 0 to |fills|
        invariant Valid()
        invariant log + TradeEvents(fills[i..]) == old(log) + TradeEvents(fills)
      {
        assert fills[i..] == [fills[i]] + fills[i + 1..];
        TradeEventsCons(log, fills[i], fills[i + 1..]);
        Emit(TradeEvent(fills[i]));
      }
    }
  }

  class MarketSim {
    const cfg: Config
    const book: OrderBook
    const feed: FeedSender
    var idGen: nat
    var bidSlots: seq<Option<Slot>>
    var askSlots: seq<Option<Slot>>
    var ourBidId: Option<OrderId>
    var ourBidPrice: Price
    var ourAskId: Option<OrderId>
    var ourAskPrice: Price
    var resync: BookResync

    ghost predicate Valid()
      reads this, feed
    {
      feed.Valid() && |bidSlots| == |askSlots| == cfg.levels
    }

    ghost function State(): Exchange
      reads this, book, feed
    {
      Exchange(Venue(book.State(), feed.log), idGen, bidSlots, askSlots, ourBidId, ourBidPrice, ourAskId, ourAskPrice)
    }

    constructor (cfg: Config, loses: nat -> bool)
      ensures Valid() && fresh(book) && fresh(feed)
      ensures State() == InitExchange(cfg) && this.cfg == cfg && feed.loses == loses
      ensures resync == BookResync([], [], 0)
    {
      this.cfg := cfg;
      book := new OrderBook();
      feed := new FeedSender(loses);
      idGen := 0;
      bidSlots, askSlots := NoSlots(cfg.levels), NoSlots(cfg.levels);
      ourBidId, ourBidPrice, ourAskId, ourAskPrice := None, 0, None, 0;
      resync := BookResync([], [], 0);
    }

    /** cancel_order, and the Cancel event when it found the order. */
    method CancelAndReport(side: Side, price: Price, id: OrderId, ts: nat)
      requires Valid()
      modifies book, feed
      ensures Valid()
      ensures State() == old(State()).(venue := CancelReported(old(State()).venue, side, price, id, ts))
    {
      var found := book.CancelOrder(side, price, id);
      if found {
        feed.Emit(Cancel(id, side, price, ts));
      }
    }

    /** submit_limit_order, its trades, and the Add event when something rests. */
    method SubmitAndReport(id: OrderId, side: Side, price: Price, qty: Qty, ts: nat, addTs: nat, isOurs: bool)
        returns (rested: bool)
      requires Valid() && VenueOk(State().venue)
      modifies book, feed
      ensures Valid()
      ensures var x := old(State());
              State() == x.(venue := SubmitReported(x.venue, id, side, price, qty, ts, addTs, isOurs))
      ensures rested == (Unfilled(old(State()).venue, side, price, qty, ts) > 0)
    {
      SubmitIsSweepThenRest(State().venue, id, side, price, qty, ts, addTs, isOurs);
      ghost var before := feed.log;
      var fills := book.SubmitLimitOrder(id, side, price, qty, ts, isOurs);
      var filled := FillTotal(fills);
      feed.EmitTrades(fills);
      rested := filled < qty;
      if rested {
        feed.Emit(Add(id, side, price, qty - filled, addTs, isOurs));
      }
      ghost var added := if rested then [Add(id, side, price, qty - filled, addTs, isOurs)] else [];
      assert feed.log == before + TradeEvents(fills) + added;
    }

    /** The exchange after a fresh order was submitted, before any tracker is set. */
    function AfterSubmit(x: Exchange, side: Side, price: Price, qty: Qty, ts: nat, addTs: nat, isOurs: bool): Exchange {
      x.(idGen := x.idGen + 1, venue := SubmitReported(x.venue, x.idGen + 1, side, price, qty, ts, addTs, isOurs))
    }

    method SubmitFresh(side: Side, price: Price, qty: Qty, ts: nat, addTs: nat, isOurs: bool) returns (rested: bool)
      requires Valid() && VenueOk(State().venue)
      modifies this`idGen, book, feed
      ensures Valid() && State() == AfterSubmit(old(State()), side, price, qty, ts, addTs, isOurs)
      ensures rested == (Unfilled(old(State()).venue, side, price, qty, ts) > 0)
    {
      idGen := idGen + 1;
      rested := SubmitAndReport(idGen, side, price, qty, ts, addTs, isOurs);
    }

    method CancelOurBid(ts: nat)
      requires Valid()
      modifies this, book, feed
      ensures Valid() && State() == CancelOurs(old(State()), Bid, ts) && resync == old(resync)
    {
      if ourBidId.Some? {
        var id := ourBidId.value;
        ourBidId := None;
        CancelAndReport(Bid, ourBidPrice, id, ts);
      }
    }

    method CancelOurAsk(ts: nat)
      requires Valid()
      modifies this, book, feed
      ensures Valid() && State() == CancelOurs(old(State()), Ask, ts) && resync == old(resync)
    {
      if ourAskId.Some? {
        var id := ourAskId.value;
        ourAskId := None;
        CancelAndReport(Ask, ourAskPrice, id, ts);
      }
    }

    method OnCancelAll(clock: QuoteClock)
      requires Valid()
      modifies this, book, feed
      ensures Valid() && State() == ApplyCommand(old(State()), CancelAll, clock) && resync == old(resync)
    {
      CancelOurBid(clock.cancelBid);
      CancelOurAsk(clock.cancelAsk);
    }

    method PlaceOurBid(price: Price, qty: Qty, ts: nat, addTs: nat)
      requires Valid() && VenueOk(State().venue)
      modifies this, book, feed
      ensures Valid() && State() == PlaceOurs(old(State()), Bid, price, qty, ts, addTs) && resync == old(resync)
    {
      var rested := SubmitFresh(Bid, price, qty, ts, addTs, true);
      if rested {
        ourBidId := Some(idGen);
        ourBidPrice := price;
      }
    }

    method PlaceOurAsk(price: Price, qty: Qty, ts: nat, addTs: nat)
      requires Valid() && VenueOk(State().venue)
      modifies this, book, feed
      ensures Valid() && State() == PlaceOurs(old(State()), Ask, price, qty, ts, addTs) && resync == old(resync)
    {
      var rested := SubmitFresh(Ask, price, qty, ts, addTs, true);
      if rested {
        ourAskId := Some(idGen);
        ourAskPrice := price;
      }
    }

    lemma QuoteVenuesOk(x: Exchange, bidPrice: Price, bidQty: Qty, clock: QuoteClock)
      requires ExchangeOk(x)
      ensures var x1 := CancelBoth(x, clock.cancelBid, clock.cancelAsk);
              VenueOk(x1.venue) && VenueOk(PlaceOurs(x1, Bid, bidPrice, bidQty, clock.submitBid, clock.addBid).venue)
    {
      CancelBothOk(x, clock.cancelBid, clock.cancelAsk);
      PlaceOursOk(CancelBoth(x, clock.cancelBid, clock.cancelAsk), Bid, bidPrice, bidQty, clock.submitBid,
                  clock.addBid);
    }

    method OnQuote(bidPrice: Price, bidQty: Qty, askPrice: Price, askQty: Qty, clock: QuoteClock)
      requires Valid() && ExchangeOk(State())
      modifies this, book, feed
      ensures Valid() && resync == old(resync)
      ensures State() == ApplyCommand(old(State()), Quote(bidPrice, bidQty, askPrice, askQty), clock)
    {
      QuoteVenuesOk(State(), bidPrice, bidQty, clock);
      CancelOurBid(clock.cancelBid);
      CancelOurAsk(clock.cancelAsk);
      PlaceOurBid(bidPrice, bidQty, clock.submitBid, clock.addBid);
      // Lift the ask clear of the bid just placed, so our two orders cannot meet.
      var safeAskPrice := Max(askPrice, bidPrice + 1);
      PlaceOurAsk(safeAskPrice, askQty, clock.submitAsk, clock.addAsk);
    }

    method TakeSlot(side: Side, lvl: nat, ts: nat)
      requires Valid() && lvl < cfg.levels
      modifies this, book, feed
      ensures Valid() && State() == ClearSlot(old(State()), side, lvl, ts) && resync == old(resync)
    {
      var existing := if side == Bid then bidSlots[lvl] else askSlots[lvl];
      if existing.Some? {
        match side {
          case Bid => bidSlots := bidSlots[lvl := None];
          case Ask => askSlots := askSlots[lvl := None];
        }
        CancelAndReport(side, existing.value.price, existing.value.id, ts);
      }
    }

    method StoreSlot(side: Side, lvl: nat, slot: Slot)
      requires Valid() && lvl < cfg.levels
      modifies this
      ensures Valid() && resync == old(resync)
      ensures State() == old(State()).WithSlots(side, old(State()).Slots(side)[lvl := Some(slot)])
    {
      match side
      case Bid => bidSlots := bidSlots[lvl := Some(slot)];
      case Ask => askSlots := askSlots[lvl := Some(slot)];
    }

    lemma ComposesFill(x: Exchange, x1: Exchange, side: Side, lvl: nat, price: Price, qty: Qty, ts: nat, addTs: nat,
                       rested: bool)
      requires lvl < |x.Slots(side)|
      requires x1 == AfterSubmit(x, side, price, qty, ts, addTs, false)
      requires rested == (Unfilled(x.venue, side, price, qty, ts) > 0)
      ensures FillSlot(x, side, lvl, price, qty, ts, addTs) ==
              if rested then x1.WithSlots(side, x1.Slots(side)[lvl := Some(Slot(x1.idGen, price))]) else x1
    {
    }

    method RestInSlot(side: Side, lvl: nat, price: Price, ts: nat, addTs: nat)
      requires Valid() && VenueOk(State().venue) && lvl < cfg.levels
      modifies this, book, feed
      ensures Valid() && resync == old(resync)
      ensures State() == FillSlot(old(State()), side, lvl, price, cfg.levelQty, ts, addTs)
    {
      ghost var x := State();
      var rested := SubmitFresh(side, price, cfg.levelQty, ts, addTs, false);
      ComposesFill(x, State(), side, lvl, price, cfg.levelQty, ts, addTs, rested);
      if rested {
        StoreSlot(side, lvl, Slot(idGen, price));
      }
    }

    lemma ClearedVenueOk(x: Exchange, side: Side, lvl: nat, ts: nat)
      requires ExchangeOk(x) && lvl < |x.Slots(side)|
      ensures VenueOk(ClearSlot(x, side, lvl, ts).venue)
    {
      ClearSlotOk(x, side, lvl, ts);
    }

    lemma ComposesBackground(x: Exchange, x1: Exchange, x2: Exchange, cfg: Config, side: Side, lvl: nat,
                             midTicks: Price, cancelTs: nat, ts: nat, addTs: nat)
      requires lvl < |x.Slots(side)| && x1 == ClearSlot(x, side, lvl, cancelTs)
      requires lvl < |x1.Slots(side)|
      requires x2 == FillSlot(x1, side, lvl, BackgroundPrice(side, lvl, midTicks), cfg.levelQty, ts, addTs)
      ensures x2 == PlaceBackground(x, cfg, side, lvl, midTicks, cancelTs, ts, addTs)
    {
    }

    method RefreshBackground(side: Side, lvl: nat, midTicks: Price, cancelTs: nat, ts: nat, addTs: nat)
      requires Valid() && ExchangeOk(State()) && lvl < cfg.levels
      modifies this, book, feed
      ensures Valid() && resync == old(resync)
      ensures State() == PlaceBackground(old(State()), cfg, side, lvl, midTicks, cancelTs, ts, addTs)
    {
      ghost var x := State();
      ClearedVenueOk(x, side, lvl, cancelTs);
      TakeSlot(side, lvl, cancelTs);
      ghost var x1 := State();
      var depth := lvl + 1;
      var price := match side { case Bid => midTicks - depth case Ask => midTicks + depth };
      RestInSlot(side, lvl, price, ts, addTs);
      ComposesBackground(x, x1, State(), cfg, side, lvl, midTicks, cancelTs, ts, addTs);
    }

    method FireNoiseOrder(aggressor: Side, ts: nat)
      requires Valid()
      modifies book, feed
      ensures Valid() && State() == NoiseOrder(old(State()), cfg, aggressor, ts)
    {
      var fills := book.ExecuteMarketOrder(aggressor, cfg.noiseQty, ts);
      feed.EmitTrades(fills);
    }

    method Perform(a: Action)
      requires Valid() && ExchangeOk(State())
      modifies this, book, feed
      ensures Valid() && State() == Step(cfg, old(State()), a)
    {
      match a
      case Background(side, lvl, midTicks, cancelTs, ts, addTs) =>
        if lvl < cfg.levels { RefreshBackground(side, lvl, midTicks, cancelTs, ts, addTs); }
      case Command(cmd, clock) =>
        match cmd {
          case Quote(bidPrice, bidQty, askPrice, askQty) => OnQuote(bidPrice, bidQty, askPrice, askQty, clock);
          case CancelAll => OnCancelAll(clock);
        }
      case Noise(aggressor, ts) => FireNoiseOrder(aggressor, ts);
    }

    /** The loop, from the empty book, for any sequence of random and commanded steps: the
        state is the run of the model, so the book is what the emitted feed folds to. */
    method RunLoop(actions: seq<Action>)
      requires Valid() && State() == InitExchange(cfg)
      modifies this, book, feed
      ensures Valid() && State() == Run(cfg, actions)
      ensures SameBook(book.State(), Fold(feed.log)) && Uncrossed(book.State())
    {
      for i := 0 to |actions|
        invariant Valid() && State() == Run(cfg, actions[..i])
      {
        RunOk(cfg, actions[..i]);
        assert actions[..i + 1][..i] == actions[..i];
        Perform(actions[i]);
      }
      assert actions[..|actions|] == actions;
      ReplayRefinement(cfg, actions);
      NeverCrossed(cfg, actions, 0);
    }

    /** Publishes the whole book, tagged with the number of events emitted so far. */
    method PublishResync()
      requires Valid()
      modifies this`resync
      ensures Valid() && resync == Export(book.State(), |feed.log|)
    {
      resync := book.ExportResync().(seqAtSnapshot := feed.nextSeq);
    }
  }
}
