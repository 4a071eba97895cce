/** What holds in every run of the exchange, for all prices, sizes, refreshes and commands. */
module Guarantees {
  import opened Types
  import opened Levels
  import opened Matching
  import opened Feed
  import opened Drift
  import opened Venues
  import opened Exchanges

  datatype Action =
    | Background(side: Side, lvl: nat, midTicks: Price, cancelTs: nat, ts: nat, addTs: nat)
    | Command(cmd: StrategyCommand, clock: QuoteClock)
    | Noise(aggressor: Side, ts: nat)

  function Step(cfg: Config, x: Exchange, a: Action): Exchange {
    match a
    case Background(side, lvl, midTicks, cancelTs, ts, addTs) =>
      if lvl < |x.Slots(side)| then PlaceBackground(x, cfg, side, lvl, midTicks, cancelTs, ts, addTs) else x
    case Command(cmd, clock) => ApplyCommand(x, cmd, clock)
    case Noise(aggressor, ts) => NoiseOrder(x, cfg, aggressor, ts)
  }

  function Run(cfg: Config, actions: seq<Action>): Exchange {
    if actions == [] then InitExchange(cfg)
    else Step(cfg, Run(cfg, actions[..|actions| - 1]), actions[|actions| - 1])
  }

  lemma {:induction false} StepOk(cfg: Config, x: Exchange, a: Action)
    requires ExchangeOk(x)
    ensures ExchangeOk(Step(cfg, x, a))
  {
    match a
    case Background(side, lvl, midTicks, cancelTs, ts, addTs) =>
      if lvl < |x.Slots(side)| { PlaceBackgroundOk(x, cfg, side, lvl, midTicks, cancelTs, ts, addTs); }
    case Command(cmd, clock) => ApplyCommandOk(x, cmd, clock);
    case Noise(aggressor, ts) => NoiseOrderOk(x, cfg, aggressor, ts);
  }

  /** The feed only ever grows, and no step changes the number of background levels. */
  lemma StepExtends(cfg: Config, x: Exchange, a: Action)
    ensures x.venue.log <= Step(cfg, x, a).venue.log
    ensures SameLevelCount(x, Step(cfg, x, a))
  {
    match a
    case Background(side, lvl, midTicks, cancelTs, ts, addTs) =>
      if lvl < |x.Slots(side)| { PlaceBackgroundExtends(x, cfg, side, lvl, midTicks, cancelTs, ts, addTs); }
    case Command(cmd, clock) => ApplyCommandExtends(x, cmd, clock);
    case Noise(aggressor, ts) => NoiseOrderExtends(x, cfg, aggressor, ts);
  }

  lemma {:induction false} RunOk(cfg: Config, actions: seq<Action>)
    ensures ExchangeOk(Run(cfg, actions))
    ensures |Run(cfg, actions).bidSlots| == |Run(cfg, actions).askSlots| == cfg.levels
  {
    if actions == [] {
      InitOk(cfg);
    } else {
      var pre := actions[..|actions| - 1];
      RunOk(cfg, pre);
      StepOk(cfg, Run(cfg, pre), actions[|actions| - 1]);
      StepExtends(cfg, Run(cfg, pre), actions[|actions| - 1]);
    }
  }

  // Replay refinement.

  /** Folding the emitted events into an empty shadow book yields the ground-truth book,
      level by level and queue position by queue position, up to timestamps. */
  lemma {:induction false} ReplayRefinement(cfg: Config, actions: seq<Action>)
    ensures SameBook(Run(cfg, actions).venue.book, Fold(Run(cfg, actions).venue.log))
  {
    RunOk(cfg, actions);
  }

  /** Neither the ground-truth book nor the book after any number of events is ever crossed. */
  lemma NeverCrossed(cfg: Config, actions: seq<Action>, n: nat)
    requires n <= |Run(cfg, actions).venue.log|
    ensures Uncrossed(Run(cfg, actions).venue.book)
    ensures Uncrossed(Fold(Run(cfg, actions).venue.log[..n]))
  {
    RunOk(cfg, actions);
    var v := Run(cfg, actions).venue;
    VenueBookOk(v);
    PrefixOk(v.log, n);
    FoldOk(v.log[..n]);
  }

  // Drift.

  /** Whatever part of a run's feed is delivered in order, an order resting in the ground
      truth whose Add arrived rests in the shadow too, with its true quantity plus exactly
      the traded quantity that was lost. */
  lemma {:induction false} ShadowCoversBook(cfg: Config, actions: seq<Action>, keep: seq<bool>, side: Side,
                                            price: Price, i: nat)
    requires |keep| == |Run(cfg, actions).venue.log|
    requires price in Run(cfg, actions).venue.book.Of(side) && i < |Run(cfg, actions).venue.book.Of(side)[price]|
    requires HasAdd(Kept(Run(cfg, actions).venue.log, keep), Run(cfg, actions).venue.book.Of(side)[price][i].id)
    ensures var v := Run(cfg, actions).venue;
            var o, sub := v.book.Of(side)[price][i], Kept(v.log, keep);
            && Traded(sub, o.id) <= Traded(v.log, o.id)
            && RestingQty(Fold(sub).Of(side), price, o.id) == o.qty + (Traded(v.log, o.id) - Traded(sub, o.id))
  {
    RunOk(cfg, actions);
    var v := Run(cfg, actions).venue;
    var levels: Levels := v.book.Of(side);
    var o: Order := levels[price][i];
    RestingIsLive(v, side, price, i);
    VenueBookOk(v);
    assert QueueOk(side, price, levels[price]);
    PositionUnique(side, price, levels[price], i);
    SameResting(levels, Fold(v.log).Of(side), price, o.id);
    ShadowLaw(v.log, keep, o.id);
    DriftIsLostTrades(v.log, keep, o.id);
  }

  /** Every order the shadow of a run holds but the ground truth does not is one whose Add
      arrived and whose Cancel, or some traded quantity, was lost. */
  lemma GhostsAreLosses(cfg: Config, actions: seq<Action>, keep: seq<bool>, side: Side, price: Price, id: OrderId)
    requires |keep| == |Run(cfg, actions).venue.log|
    requires HasOrder(Fold(Kept(Run(cfg, actions).venue.log, keep)).Of(side), price, id)
    requires !HasOrder(Run(cfg, actions).venue.book.Of(side), price, id)
    ensures var log := Run(cfg, actions).venue.log;
            var sub := Kept(log, keep);
            && HasAdd(sub, id)
            && ((HasCancel(log, id) && !HasCancel(sub, id)) || Traded(sub, id) < Traded(log, id))
  {
    RunOk(cfg, actions);
    var v := Run(cfg, actions).venue;
    VenueBookOk(v);
    ShadowOnlyDelivered(v.log, keep, side, price, id);
    SameRemove(v.book.Of(side), Fold(v.log).Of(side), price, id);
    HasOrderIsResting(side, Fold(v.log).Of(side), price, id);
    ShadowLaw(v.log, keep, id);
    HasOrderIsResting(side, Fold(Kept(v.log, keep)).Of(side), price, id);
    GhostIff(v.log, keep, id);
  }

  /** A crossed shadow always shows its losses: whenever it holds a bid at or above an ask,
      every order at one of those two levels is a ghost, its Add delivered and its Cancel or
      some traded quantity lost. */
  lemma {:induction false} CrossedShadowIsGhosts(cfg: Config, actions: seq<Action>, keep: seq<bool>, bid: Price,
                                                 ask: Price)
      returns (side: Side, price: Price)
    requires |keep| == |Run(cfg, actions).venue.log|
    requires bid in Fold(Kept(Run(cfg, actions).venue.log, keep)).bids
    requires ask in Fold(Kept(Run(cfg, actions).venue.log, keep)).asks
    requires bid >= ask
    ensures price == (if side == Bid then bid else ask)
    ensures var log := Run(cfg, actions).venue.log;
            var sub := Kept(log, keep);
            price in Fold(sub).Of(side) && Fold(sub).Of(side)[price] != []
            && forall o :: o in Fold(sub).Of(side)[price] ==>
                 && HasAdd(sub, o.id)
                 && ((HasCancel(log, o.id) && !HasCancel(sub, o.id)) || Traded(sub, o.id) < Traded(log, o.id))
  {
    RunOk(cfg, actions);
    var v := Run(cfg, actions).venue;
    VenueBookOk(v);
    side := if bid !in v.book.bids then Bid else Ask;
    price := if side == Bid then bid else ask;
    assert price !in v.book.Of(side);
    ShadowLaw(v.log, keep, 0);
    var q := Fold(Kept(v.log, keep)).Of(side)[price];
    assert QueueOk(side, price, q);
    forall o | o in q
      ensures HasAdd(Kept(v.log, keep), o.id)
      ensures (HasCancel(v.log, o.id) && !HasCancel(Kept(v.log, keep), o.id))
              || Traded(Kept(v.log, keep), o.id) < Traded(v.log, o.id)
    {
      GhostsAreLosses(cfg, actions, keep, side, price, o.id);
    }
  }

  // Price-time priority.

  /** No order in the levels goes before (price, id): none has a better price, nor the same
      price and an earlier id. */
  ghost predicate GoesFirst(side: Side, levels: Levels, price: Price, id: OrderId) {
    forall p, i :: p in levels && 0 <= i < |levels[p]| ==>
      (if side == Bid then p < price else price < p) || (p == price && id <= levels[p][i].id)
  }

  /** Every trade of every run hits, at that moment, the order first in price-time order on
      its side, for no more than it had left. */
  lemma {:induction false} PriceTimePriority(cfg: Config, actions: seq<Action>, n: nat)
    requires n < |Run(cfg, actions).venue.log| && Run(cfg, actions).venue.log[n].Trade?
    ensures var log := Run(cfg, actions).venue.log;
            var levels := Fold(log[..n]).Of(log[n].side);
            && GoesFirst(log[n].side, levels, log[n].price, log[n].orderId)
            && 0 < log[n].qty <= RestingQty(levels, log[n].price, log[n].orderId)
  {
    RunOk(cfg, actions);
    var log := Run(cfg, actions).venue.log;
    PrefixOk(log, n);
    FoldOk(log[..n]);
    FirstGoesFirst(log[..n], log[n]);
    EventNamesAdded(log[..n], log[n]);
  }

  lemma FirstGoesFirst(log: seq<MarketEvent>, e: MarketEvent)
    requires BookOk(Fold(log)) && e.Trade? && IsFirst(e.side, Fold(log).Of(e.side), e.price, e.orderId)
    ensures GoesFirst(e.side, Fold(log).Of(e.side), e.price, e.orderId)
  {
    var levels: Levels := Fold(log).Of(e.side);
    forall p: Price, i: int | p in levels && 0 <= i < |levels[p]|
      ensures (if e.side == Bid then p < e.price else e.price < p) || (p == e.price && e.orderId <= levels[p][i].id)
    {
      assert QueueOk(e.side, p, levels[p]);
      assert Rank(e.side, e.price) <= Rank(e.side, p);
      if p == e.price && i > 0 { assert levels[p][0].id < levels[p][i].id; }
    }
  }

  /** Every ground-truth queue is in strictly ascending id order, holds only orders of its own
      side and price with quantity left, and no level is empty. */
  lemma {:induction false} QueuesAscend(cfg: Config, actions: seq<Action>)
    ensures BookOk(Run(cfg, actions).venue.book)
  {
    RunOk(cfg, actions);
    VenueBookOk(Run(cfg, actions).venue);
  }

  // Tracking.

  lemma VenueLocated(v: Venue, side: Side)
    requires VenueOk(v)
    ensures Located(Adds(v.log), side, v.book.Of(side))
  {
    var levels := v.book.Of(side);
    forall p, i | p in levels && 0 <= i < |levels[p]| ensures AddedAs(Adds(v.log), side, p, levels[p][i]) {
      RestingIsLive(v, side, p, i);
    }
  }

  predicate SlotNames(slot: Option<Slot>, id: OrderId) {
    slot.Some? && slot.value.id == id
  }

  /** No tracker of this side names the order. */
  ghost predicate Unnamed(x: Exchange, side: Side, id: OrderId) {
    && x.OurId(side) != Some(id)
    && forall l :: 0 <= l < |x.Slots(side)| ==> !SlotNames(x.Slots(side)[l], id)
  }

  ghost predicate OnlySlot(slots: seq<Option<Slot>>, l: nat, id: OrderId, price: Price) {
    && l < |slots| && slots[l] == Some(Slot(id, price))
    && forall m :: 0 <= m < |slots| && m != l ==> !SlotNames(slots[m], id)
  }

  /** Exactly one tracker names the order, at its exact side and price. */
  ghost predicate NamedOnce(x: Exchange, side: Side, price: Price, o: Order) {
    && Unnamed(x, side.Opposite(), o.id)
    && if o.isOurs then
         && x.OurId(side) == Some(o.id) && x.OurPrice(side) == price
         && forall l :: 0 <= l < |x.Slots(side)| ==> !SlotNames(x.Slots(side)[l], o.id)
       else
         && x.OurId(side) != Some(o.id)
         && (exists l :: OnlySlot(x.Slots(side), l, o.id, price))
  }

  /** No untracked liquidity: every resting order is named by exactly one tracker. */
  lemma {:induction false} NoUntrackedLiquidity(cfg: Config, actions: seq<Action>, side: Side, price: Price, i: nat)
    requires price in Run(cfg, actions).venue.book.Of(side)
    requires i < |Run(cfg, actions).venue.book.Of(side)[price]|
    ensures NamedOnce(Run(cfg, actions), side, price, Run(cfg, actions).venue.book.Of(side)[price][i])
  {
    RunOk(cfg, actions);
    var x := Run(cfg, actions);
    RestingIsLive(x.venue, side, price, i);
    TrackedOnce(x, side, price, x.venue.book.Of(side)[price][i]);
  }

  lemma TrackedOnce(x: Exchange, side: Side, price: Price, o: Order)
    requires TrackersOk(Adds(x.venue.log), x) && Tracked(Adds(x.venue.log), x, o.id)
    requires AddedAs(Adds(x.venue.log), side, price, o)
    ensures NamedOnce(x, side, price, o)
  {
    var adds, slots, opp := Adds(x.venue.log), x.Slots(side), side.Opposite();
    assert SlotsOk(adds, side, slots) && SlotsOk(adds, opp, x.Slots(opp));
    assert OursOk(adds, side, x.OurId(side), x.OurPrice(side)) && OursOk(adds, opp, x.OurId(opp), x.OurPrice(opp));
    forall l | 0 <= l < |x.Slots(opp)| ensures !SlotNames(x.Slots(opp)[l], o.id) {
      assert SlotOk(adds, opp, x.Slots(opp)[l]);
    }
    if o.isOurs {
      forall l | 0 <= l < |slots| ensures !SlotNames(slots[l], o.id) {
        assert SlotOk(adds, side, slots[l]);
      }
    } else {
      var l: nat :| l < |slots| && slots[l] == Some(Slot(o.id, price));
      assert OnlySlot(slots, l, o.id, price);
    }
  }

  // Bounded depth.

  function SlotIds(slots: seq<Option<Slot>>): (ids: set<OrderId>)
    ensures |ids| <= |slots|
    ensures forall l :: 0 <= l < |slots| && slots[l].Some? ==> slots[l].value.id in ids
  {
    if slots == [] then {} else
      var rest := SlotIds(slots[1..]);
      assert forall l :: 0 < l < |slots| ==> slots[l] == slots[1..][l - 1];
      if slots[0].Some? then rest + {slots[0].value.id} else rest
  }

  function IdsOf(flat: seq<Order>): (ids: set<OrderId>)
    ensures forall id :: id in ids <==> exists i :: 0 <= i < |flat| && flat[i].id == id
  {
    set i | 0 <= i < |flat| :: flat[i].id
  }

  ghost predicate DistinctIds(flat: seq<Order>) {
    forall i, j :: 0 <= i < j < |flat| ==> flat[i].id != flat[j].id
  }

  lemma {:induction false} DistinctCount(flat: seq<Order>)
    requires DistinctIds(flat)
    ensures |IdsOf(flat)| == |flat|
  {
    if flat != [] {
      var n := |flat| - 1;
      DistinctCount(flat[..n]);
      assert IdsOf(flat) == IdsOf(flat[..n]) + {flat[n].id};
      assert flat[n].id !in IdsOf(flat[..n]);
    }
  }

  lemma {:induction false} FlattenDistinct(side: Side, levels: Levels, adds: map<OrderId, MarketEvent>)
    requires LevelsOk(side, levels) && Located(adds, side, levels)
    ensures DistinctIds(Flatten(side, levels))
    ensures forall o :: o in Flatten(side, levels) ==> AddedAs(adds, side, o.price, o)
    decreases |levels|
  {
    if levels.Keys != {} {
      var p := Best(side, levels.Keys);
      var q, rest := levels[p], levels - {p};
      assert rest.Keys == levels.Keys - {p};
      assert QueueOk(side, p, q);
      FlattenDistinct(side, rest, adds);
      FlattenMembers(side, rest);
      var tail := Flatten(side, rest);
      forall i, j | 0 <= i < |q| && 0 <= j < |tail| ensures q[i].id != tail[j].id {
        assert AddedAs(adds, side, p, q[i]);
        assert RestsIn(rest, tail[j]);
        var p' :| p' in rest && tail[j] in rest[p'];
        var k :| 0 <= k < |rest[p']| && rest[p'][k] == tail[j];
        assert AddedAs(adds, side, p', rest[p'][k]);
      }
    }
  }

  /** The ids the trackers of one side name. */
  function NamedIds(x: Exchange, side: Side): (ids: set<OrderId>)
    ensures |ids| <= |x.Slots(side)| + 1
  {
    SlotIds(x.Slots(side)) + if x.OurId(side).Some? then {x.OurId(side).value} else {}
  }

  lemma RestingIsNamed(x: Exchange, side: Side, o: Order)
    requires ExchangeOk(x) && RestsIn(x.venue.book.Of(side), o)
    ensures o.id in NamedIds(x, side)
  {
    var p :| p in x.venue.book.Of(side) && o in x.venue.book.Of(side)[p];
    var k :| 0 <= k < |x.venue.book.Of(side)[p]| && x.venue.book.Of(side)[p][k] == o;
    RestingIsLive(x.venue, side, p, k);
    assert Tracked(Adds(x.venue.log), x, o.id);
  }

  lemma IdsAreNamed(x: Exchange, side: Side)
    requires ExchangeOk(x)
    ensures IdsOf(Flatten(side, x.venue.book.Of(side))) <= NamedIds(x, side)
  {
    FlattenMembers(side, x.venue.book.Of(side));
    var flat := Flatten(side, x.venue.book.Of(side));
    forall id | id in IdsOf(flat) ensures id in NamedIds(x, side) {
      var i :| 0 <= i < |flat| && flat[i].id == id;
      RestingIsNamed(x, side, flat[i]);
    }
  }

  lemma SideCount(x: Exchange, side: Side)
    requires VenueOk(x.venue)
    ensures |IdsOf(Flatten(side, x.venue.book.Of(side)))| == |Flatten(side, x.venue.book.Of(side))|
  {
    VenueBookOk(x.venue);
    VenueLocated(x.venue, side);
    FlattenDistinct(side, x.venue.book.Of(side), Adds(x.venue.log));
    DistinctCount(Flatten(side, x.venue.book.Of(side)));
  }

  /** Each side holds at most one order per background level plus one of ours, forever. */
  lemma {:induction false} BoundedDepth(cfg: Config, actions: seq<Action>, side: Side)
    ensures |Flatten(side, Run(cfg, actions).venue.book.Of(side))| <= cfg.levels + 1
  {
    RunOk(cfg, actions);
    var x := Run(cfg, actions);
    SideCount(x, side);
    IdsAreNamed(x, side);
    SubsetSize(IdsOf(Flatten(side, x.venue.book.Of(side))), NamedIds(x, side));
  }

  lemma {:induction false} SubsetSize(a: set<OrderId>, b: set<OrderId>)
    requires a <= b
    ensures |a| <= |b|
  {
    if a != {} {
      var x := Pick(a);
      SubsetSize(a - {x}, b - {x});
    }
  }

  // Our own orders.

  /** No order of ours rests anywhere in the book. */
  ghost predicate NoneOfOurs(b: Book) {
    forall side: Side, p, i :: p in b.Of(side) && 0 <= i < |b.Of(side)[p]| ==> !b.Of(side)[p][i].isOurs
  }

  /** With both of our trackers empty, nothing of ours is live or rests. */
  lemma UntrackedMeansGone(x: Exchange)
    requires ExchangeOk(x) && x.ourBidId == None && x.ourAskId == None
    ensures NoneOfOurs(x.venue.book)
    ensures forall k :: Live(x.venue.log, k) ==> !Adds(x.venue.log)[k].isOurs
  {
    forall side: Side, p, i | p in x.venue.book.Of(side) && 0 <= i < |x.venue.book.Of(side)[p]|
      ensures !x.venue.book.Of(side)[p][i].isOurs
    {
      RestingIsLive(x.venue, side, p, i);
      assert Tracked(Adds(x.venue.log), x, x.venue.book.Of(side)[p][i].id);
    }
    forall k | Live(x.venue.log, k) ensures !Adds(x.venue.log)[k].isOurs {
      assert Tracked(Adds(x.venue.log), x, k);
    }
  }

  /** Every trade among the events is against somebody else's order. */
  ghost predicate NoOwnTrade(events: seq<MarketEvent>) {
    forall e :: e in events && e.Trade? ==> !e.isOurs
  }

  lemma {:induction false} PlaceOursTrades(x: Exchange, side: Side, price: Price, qty: Qty, ts: nat, addTs: nat)
    requires ExchangeOk(x)
    requires forall k :: Live(x.venue.log, k) && Adds(x.venue.log)[k].isOurs ==>
                           !Within(side.Opposite(), Adds(x.venue.log)[k].price, Some(price))
    ensures var log, log' := x.venue.log, PlaceOurs(x, side, price, qty, ts, addTs).venue.log;
            log <= log' && NoOwnTrade(log'[|log|..])
  {
    var opp, log := side.Opposite(), x.venue.log;
    var log' := PlaceOurs(x, side, price, qty, ts, addTs).venue.log;
    SubmitIsSweepThenRest(x.venue, x.idGen + 1, side, price, qty, ts, addTs, true);
    SweepHits(x.venue, opp, Some(price), qty, ts);
    var trades := SweepTrades(x.venue, opp, Some(price), qty, ts);
    forall e | e in log'[|log|..] && e.Trade? ensures !e.isOurs {
      assert e in trades;
      assert HitsLive(log, e, opp, Some(price));
    }
  }

  /** Our bid goes in with nothing of ours live: its trades are all with others. */
  lemma BidTrades(x1: Exchange, price: Price, qty: Qty, ts: nat, addTs: nat) returns (x2: Exchange)
    requires ExchangeOk(x1) && x1.ourBidId == None && x1.ourAskId == None
    ensures x2 == PlaceOurs(x1, Bid, price, qty, ts, addTs)
    ensures ExchangeOk(x2) && x2.ourAskId == None && (x2.ourBidId.Some? ==> x2.ourBidPrice == price)
    ensures x1.venue.log <= x2.venue.log && NoOwnTrade(x2.venue.log[|x1.venue.log|..])
  {
    UntrackedMeansGone(x1);
    PlaceOursTrades(x1, Bid, price, qty, ts, addTs);
    PlaceOursOk(x1, Bid, price, qty, ts, addTs);
    x2 := PlaceOurs(x1, Bid, price, qty, ts, addTs);
  }

  /** Then the only order of ours is the bid, which an ask above it cannot reach. */
  lemma AskTrades(x2: Exchange, price: Price, qty: Qty, ts: nat, addTs: nat)
    requires ExchangeOk(x2) && x2.ourAskId == None && (x2.ourBidId.Some? ==> x2.ourBidPrice < price)
    ensures var x3 := PlaceOurs(x2, Ask, price, qty, ts, addTs);
            x2.venue.log <= x3.venue.log && NoOwnTrade(x3.venue.log[|x2.venue.log|..])
  {
    forall k | Live(x2.venue.log, k) && Adds(x2.venue.log)[k].isOurs
      ensures !Within(Bid, Adds(x2.venue.log)[k].price, Some(price))
    {
      assert Tracked(Adds(x2.venue.log), x2, k);
    }
    PlaceOursTrades(x2, Ask, price, qty, ts, addTs);
  }

  /** After a reachable state, executing a quote of ours never trades with our own order. */
  lemma NoSelfTrade(cfg: Config, actions: seq<Action>, cmd: StrategyCommand, clock: QuoteClock)
    ensures var x := Run(cfg, actions);
            var log, log' := x.venue.log, ApplyCommand(x, cmd, clock).venue.log;
            log <= log' && NoOwnTrade(log'[|log|..])
  {
    RunOk(cfg, actions);
    var x := Run(cfg, actions);
    CancelsOnly(x, clock.cancelBid, clock.cancelAsk);
    if cmd.Quote? {
      CancelBothOk(x, clock.cancelBid, clock.cancelAsk);
      var x1 := CancelBoth(x, clock.cancelBid, clock.cancelAsk);
      var x2 := BidTrades(x1, cmd.bidPrice, cmd.bidQty, clock.submitBid, clock.addBid);
      AskTrades(x2, SafeAsk(cmd.bidPrice, cmd.askPrice), cmd.askQty, clock.submitAsk, clock.addAsk);
      ThreeParts(x.venue.log, x1.venue.log, x2.venue.log, ApplyCommand(x, cmd, clock).venue.log);
    }
  }

  lemma CancelsOnly(x: Exchange, bidTs: nat, askTs: nat)
    ensures var log, log' := x.venue.log, CancelBoth(x, bidTs, askTs).venue.log;
            log <= log' && NoOwnTrade(log'[|log|..])
  {
  }

  lemma ThreeParts(a: seq<MarketEvent>, b: seq<MarketEvent>, c: seq<MarketEvent>, d: seq<MarketEvent>)
    requires a <= b <= c <= d
    requires NoOwnTrade(b[|a|..]) && NoOwnTrade(c[|b|..]) && NoOwnTrade(d[|c|..])
    ensures a <= d && NoOwnTrade(d[|a|..])
  {
    assert d[|a|..] == b[|a|..] + c[|b|..] + d[|c|..];
  }

  /** The order our side has after a quote, if any rests: a fresh id at the quoted price. */
  ghost predicate QuotedAt(x: Exchange, side: Side, price: Price, id: OrderId) {
    x.OurId(side).Some? ==> x.OurId(side).value == id && x.OurPrice(side) == price
  }

  lemma QuoteTrackers(x: Exchange, cmd: StrategyCommand, clock: QuoteClock)
    requires ExchangeOk(x) && cmd.Quote?
    ensures QuotedAt(ApplyCommand(x, cmd, clock), Bid, cmd.bidPrice, x.idGen + 1)
    ensures QuotedAt(ApplyCommand(x, cmd, clock), Ask, SafeAsk(cmd.bidPrice, cmd.askPrice), x.idGen + 2)
  {
    CancelBothOk(x, clock.cancelBid, clock.cancelAsk);
    var x1 := CancelBoth(x, clock.cancelBid, clock.cancelAsk);
    assert x1.idGen == x.idGen;
  }

  /** After a quote nothing of ours is left from before it: every order of ours in the
      ground-truth book is the new bid at the quoted price or the new ask at the quoted price
      lifted clear of the bid, and the bid rests below the ask. */
  lemma QuoteReplacesOurs(cfg: Config, actions: seq<Action>, cmd: StrategyCommand, clock: QuoteClock, side: Side,
                          price: Price, i: nat)
    requires cmd.Quote?
    requires price in ApplyCommand(Run(cfg, actions), cmd, clock).venue.book.Of(side)
    requires i < |ApplyCommand(Run(cfg, actions), cmd, clock).venue.book.Of(side)[price]|
    ensures var x := Run(cfg, actions);
            var o := ApplyCommand(x, cmd, clock).venue.book.Of(side)[price][i];
            o.isOurs ==>
              if side == Bid then o.id == x.idGen + 1 && price == cmd.bidPrice
              else o.id == x.idGen + 2 && price >= cmd.askPrice && price > cmd.bidPrice
                   && (cmd.askPrice > cmd.bidPrice ==> price == cmd.askPrice)
  {
    RunOk(cfg, actions);
    var x := Run(cfg, actions);
    ApplyCommandOk(x, cmd, clock);
    QuoteTrackers(x, cmd, clock);
    OursIsTracked(ApplyCommand(x, cmd, clock), side, price, i);
  }

  /** An order of ours that rests is the one our tracker names. */
  lemma OursIsTracked(x: Exchange, side: Side, price: Price, i: nat)
    requires ExchangeOk(x) && price in x.venue.book.Of(side) && i < |x.venue.book.Of(side)[price]|
    ensures var o := x.venue.book.Of(side)[price][i];
            o.isOurs ==> x.OurId(side) == Some(o.id) && x.OurPrice(side) == price
  {
    RestingIsLive(x.venue, side, price, i);
    assert Tracked(Adds(x.venue.log), x, x.venue.book.Of(side)[price][i].id);
  }
}
