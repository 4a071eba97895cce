/** When a book replayed from a lossy feed is crossed: the exact condition, and a run of the
    exchange in which the loss of a single packet is enough. */
module Crossings {
  import opened Types
  import opened Levels
  import opened Matching
  import opened Feed
  import opened Drift
  import opened Venues
  import opened Exchanges
  import opened Guarantees

  /** As far as the delivered events tell, the order still has quantity: its Add arrived, no
      Cancel of it did, and the trades that arrived leave something of it. */
  ghost predicate Open(log: seq<MarketEvent>, sub: seq<MarketEvent>, id: OrderId) {
    && id in Adds(log) && HasAdd(sub, id) && !HasCancel(sub, id)
    && Traded(sub, id) < Adds(log)[id].qty
  }

  /** An open order of a side, at its price. */
  ghost predicate OpenAt(log: seq<MarketEvent>, sub: seq<MarketEvent>, id: OrderId, side: Side, price: Price) {
    Open(log, sub, id) && Adds(log)[id].side == side && Adds(log)[id].price == price
  }

  /** Every open bid is priced below every open ask. */
  ghost predicate OpenApart(log: seq<MarketEvent>, sub: seq<MarketEvent>) {
    forall i, j, x, y :: OpenAt(log, sub, i, Bid, x) && OpenAt(log, sub, j, Ask, y) ==> x < y
  }

  /** An open order has a level of its own side and price in the replayed book. */
  lemma OpenHasLevel(log: seq<MarketEvent>, keep: seq<bool>, id: OrderId)
    requires LogOk(log) && |keep| == |log| && Open(log, Kept(log, keep), id)
    ensures Adds(log)[id].price in Fold(Kept(log, keep)).Of(Adds(log)[id].side)
  {
    ShadowLaw(log, keep, id);
    var a := Adds(log)[id];
    assert RestingQty(Fold(Kept(log, keep)).Of(a.side), a.price, id) > 0;
  }

  /** A level of the replayed book holds an open order. */
  lemma LevelHasOpen(log: seq<MarketEvent>, keep: seq<bool>, side: Side, price: Price) returns (id: OrderId)
    requires LogOk(log) && |keep| == |log| && price in Fold(Kept(log, keep)).Of(side)
    ensures OpenAt(log, Kept(log, keep), id, side, price)
  {
    var sub := Kept(log, keep);
    var q := Fold(sub).Of(side)[price];
    ShadowLaw(log, keep, 0);
    assert QueueOk(side, price, q) && AddedAs(Adds(sub), side, price, q[0]);
    id := q[0].id;
    PositionUnique(side, price, q, 0);
    ShadowLaw(log, keep, id);
    AddsAreAdds(log, id);
  }

  /** Under any losses the replayed book is uncrossed if and only if every open bid is priced
      below every open ask. */
  lemma ShadowUncrossedIff(log: seq<MarketEvent>, keep: seq<bool>)
    requires LogOk(log) && |keep| == |log|
    ensures Uncrossed(Fold(Kept(log, keep))) <==> OpenApart(log, Kept(log, keep))
  {
    var sub := Kept(log, keep);
    var book := Fold(sub);
    if Uncrossed(book) {
      forall i, j, x, y | OpenAt(log, sub, i, Bid, x) && OpenAt(log, sub, j, Ask, y) ensures x < y {
        OpenHasLevel(log, keep, i);
        OpenHasLevel(log, keep, j);
      }
    }
    if OpenApart(log, sub) {
      forall x, y | x in book.bids && y in book.asks ensures x < y {
        var i := LevelHasOpen(log, keep, Bid, x);
        var j := LevelHasOpen(log, keep, Ask, y);
      }
    }
  }

  /** The same of every run of the exchange. */
  lemma RunShadowUncrossedIff(cfg: Config, actions: seq<Action>, keep: seq<bool>)
    requires |keep| == |Run(cfg, actions).venue.log|
    ensures var log := Run(cfg, actions).venue.log;
            Uncrossed(Fold(Kept(log, keep))) <==> OpenApart(log, Kept(log, keep))
  {
    RunOk(cfg, actions);
    ShadowUncrossedIff(Run(cfg, actions).venue.log, keep);
  }

  // A run that crosses the shadow.

  /** A submission that reaches nothing rests whole. */
  lemma RestsWhole(v: Venue, id: OrderId, side: Side, price: Price, qty: Qty, ts: nat, addTs: nat, isOurs: bool)
    requires qty > 0
    requires forall p :: p in v.book.Of(side.Opposite()) ==> !Within(side.Opposite(), p, Some(price))
    ensures Unfilled(v, side, price, qty, ts) == qty
    ensures SubmitReported(v, id, side, price, qty, ts, addTs, isOurs) ==
            Venue(v.book.With(side, Insert(v.book.Of(side), Order(id, side, price, qty, ts, isOurs))),
                  v.log + [Add(id, side, price, qty, addTs, isOurs)])
  {
    SweepNothing(side.Opposite(), v.book.Of(side.Opposite()), Some(price), qty, ts);
    assert v.log + [] == v.log;
  }

  const ONE_LEVEL := Config(1, 5, 0)

  function AskOrder(id: OrderId, price: Price): Order { Order(id, Ask, price, 5, 0, false) }
  function AskAdded(id: OrderId, price: Price): MarketEvent { Add(id, Ask, price, 5, 0, false) }

  /** One background ask, resting at 101. */
  const ASK_AT_101 := Exchange(
    Venue(Book(map[], map[101 := [AskOrder(1, 101)]]), [AskAdded(1, 101)]),
    1, [None], [Some(Slot(1, 101))], None, 0, None, 0)

  /** The same level refreshed further out: the ask has moved to 111. */
  const ASK_AT_111 := Exchange(
    Venue(Book(map[], map[111 := [AskOrder(2, 111)]]), [AskAdded(1, 101), Cancel(1, Ask, 101, 0), AskAdded(2, 111)]),
    2, [None], [Some(Slot(2, 111))], None, 0, None, 0)

  lemma FirstRefresh()
    ensures PlaceBackground(InitExchange(ONE_LEVEL), ONE_LEVEL, Ask, 0, 100, 0, 0, 0) == ASK_AT_101
  {
    RestsWhole(EMPTY_VENUE, 1, Ask, 101, 5, 0, 0, false);
    assert [] + [AskOrder(1, 101)] == [AskOrder(1, 101)];
    assert [] + [AskAdded(1, 101)] == [AskAdded(1, 101)];
  }

  lemma AskCancelled(ts: nat)
    ensures CancelReported(ASK_AT_101.venue, Ask, 101, 1, ts) ==
        Venue(EMPTY_BOOK, [AskAdded(1, 101), Cancel(1, Ask, 101, ts)])
  {
    var q := [AskOrder(1, 101)];
    PositionIs(q, 1, 0);
    assert q[..0] + q[1..] == [];
    assert map[101 := q] - {101} == map[];
    assert [AskAdded(1, 101)] + [Cancel(1, Ask, 101, ts)] == [AskAdded(1, 101), Cancel(1, Ask, 101, ts)];
  }

  lemma SecondRefresh()
    ensures PlaceBackground(ASK_AT_101, ONE_LEVEL, Ask, 0, 110, 0, 0, 0) == ASK_AT_111
  {
    AskCancelled(0);
    var v := Venue(EMPTY_BOOK, [AskAdded(1, 101), Cancel(1, Ask, 101, 0)]);
    RestsWhole(v, 2, Ask, 111, 5, 0, 0, false);
    assert [] + [AskOrder(2, 111)] == [AskOrder(2, 111)];
    assert v.log + [AskAdded(2, 111)] == ASK_AT_111.venue.log;
  }

  lemma BidRefresh()
    ensures var x := PlaceBackground(ASK_AT_111, ONE_LEVEL, Bid, 0, 104, 0, 0, 0);
            x.venue.log == ASK_AT_111.venue.log + [Add(3, Bid, 103, 5, 0, false)]
  {
    RestsWhole(ASK_AT_111.venue, 3, Bid, 103, 5, 0, 0, false);
  }

  const REFRESH_100 := Background(Ask, 0, 100, 0, 0, 0)
  const REFRESH_110 := Background(Ask, 0, 110, 0, 0, 0)
  const REFRESH_BID := Background(Bid, 0, 104, 0, 0, 0)

  lemma RunSnoc(cfg: Config, actions: seq<Action>, a: Action)
    ensures Run(cfg, actions + [a]) == Step(cfg, Run(cfg, actions), a)
  {
    assert (actions + [a])[..|actions|] == actions;
  }

  lemma KeptSnoc(log: seq<MarketEvent>, keep: seq<bool>, e: MarketEvent, kept: bool)
    requires |keep| == |log|
    ensures Kept(log + [e], keep + [kept]) == Kept(log, keep) + if kept then [e] else []
  {
    assert (log + [e])[..|log|] == log && (keep + [kept])[..|keep|] == keep;
  }

  const TWO_REFRESHES := [REFRESH_100, REFRESH_110]

  lemma OneRun()
    ensures Run(ONE_LEVEL, [REFRESH_100]) == ASK_AT_101
  {
    RunSnoc(ONE_LEVEL, [], REFRESH_100);
    assert [] + [REFRESH_100] == [REFRESH_100];
    FirstRefresh();
  }

  lemma TwoRuns()
    ensures Run(ONE_LEVEL, TWO_REFRESHES) == ASK_AT_111
  {
    OneRun();
    RunSnoc(ONE_LEVEL, [REFRESH_100], REFRESH_110);
    assert [REFRESH_100] + [REFRESH_110] == TWO_REFRESHES;
    SecondRefresh();
  }

  lemma ThreeRuns() returns (actions: seq<Action>)
    ensures Run(ONE_LEVEL, actions).venue.log == ASK_AT_111.venue.log + [Add(3, Bid, 103, 5, 0, false)]
  {
    actions := TWO_REFRESHES + [REFRESH_BID];
    TwoRuns();
    RunSnoc(ONE_LEVEL, TWO_REFRESHES, REFRESH_BID);
    BidRefresh();
  }

  /** The exchange can do it: an ask is refreshed away from 101, a bid then rests at 103, and a
      subscriber that lost nothing but the ask's Cancel holds both. */
  lemma LostCancelCrosses() returns (actions: seq<Action>, keep: seq<bool>)
    ensures var log := Run(ONE_LEVEL, actions).venue.log;
            && keep == [true, false, true, true] && |log| == 4 && log[1].Cancel?
            && var shadow := Fold(Kept(log, keep));
               101 in shadow.asks && 103 in shadow.bids && !Uncrossed(shadow)
  {
    actions := ThreeRuns();
    keep := [true, false, true, true];
    var log := LostCancelFold();
  }

  lemma LostCancelFold() returns (log: seq<MarketEvent>)
    ensures log == ASK_AT_111.venue.log + [Add(3, Bid, 103, 5, 0, false)]
    ensures var shadow := Fold(Kept(log, [true, false, true, true]));
            101 in shadow.asks && 103 in shadow.bids && !Uncrossed(shadow)
  {
    var first, cancel := AskAdded(1, 101), Cancel(1, Ask, 101, 0);
    var second, bid := AskAdded(2, 111), Add(3, Bid, 103, 5, 0, false);
    KeptSnoc([], [], first, true);
    KeptSnoc([] + [first], [] + [true], cancel, false);
    KeptSnoc(([] + [first]) + [cancel], ([] + [true]) + [false], second, true);
    KeptSnoc((([] + [first]) + [cancel]) + [second], (([] + [true]) + [false]) + [true], bid, true);
    Snoc([], first);
    Snoc([] + [first], second);
    Snoc(([] + [first]) + [second], bid);
    log := ((([] + [first]) + [cancel]) + [second]) + [bid];
    assert ((([] + [true]) + [false]) + [true]) + [true] == [true, false, true, true];
    assert [first] + [] == [first];
  }
}
