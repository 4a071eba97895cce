/** The price-time-priority book as the source runs it: two maps edited in place.
    Each method is tied to the specification functions of `Levels` and `Matching`. */
module OrderBooks {
  import opened Types
  import opened Levels
  import opened Matching

  // Snapshots.

  function Entries(flat: seq<Order>): (es: seq<Entry>)
    ensures |es| == |flat|
    ensures forall i :: 0 <= i < |es| ==> es[i] == Entry(flat[i].id, flat[i].price, flat[i].qty, flat[i].isOurs)
  {
    seq(|flat|, i requires 0 <= i < |flat| => Entry(flat[i].id, flat[i].price, flat[i].qty, flat[i].isOurs))
  }

  /** Both sides in ascending price order, each queue front to back. */
  function Export(b: Book, seqAtSnapshot: nat): BookResync {
    BookResync(Entries(Flatten(Ask, b.bids)), Entries(Flatten(Ask, b.asks)), seqAtSnapshot)
  }

  /** Both sides of a snapshot ascend in price, and at one price in id. */
  lemma ExportAscends(b: Book, seqAtSnapshot: nat)
    requires BookOk(b)
    ensures Ascending(Export(b, seqAtSnapshot).bids) && Ascending(Export(b, seqAtSnapshot).asks)
  {
    FlatAscends(Bid, b.bids);
    FlatAscends(Ask, b.asks);
  }

  ghost predicate Ascending(es: seq<Entry>) {
    forall i, j :: 0 <= i < j < |es| ==>
      es[i].price < es[j].price || (es[i].price == es[j].price && es[i].id < es[j].id)
  }

  lemma {:induction false} FlatAscends(side: Side, levels: Levels)
    requires LevelsOk(side, levels)
    ensures Ascending(Entries(Flatten(Ask, levels)))
    decreases |levels|
  {
    if levels.Keys != {} {
      var p := Best(Ask, levels.Keys);
      var rest := levels - {p};
      assert rest.Keys == levels.Keys - {p};
      assert QueueOk(side, p, levels[p]);
      FlatAscends(side, rest);
      FlattenMembers(Ask, rest);
      var tail := Flatten(Ask, rest);
      assert Entries(levels[p] + tail) == Entries(levels[p]) + Entries(tail);
      forall i | 0 <= i < |tail| ensures p < tail[i].price {
        assert RestsIn(rest, tail[i]);
        var p' :| p' in rest && tail[i] in rest[p'];
        assert QueueOk(side, p', rest[p']) && Rank(Ask, p) <= Rank(Ask, p');
      }
    }
  }

  function EntryOrder(side: Side, e: Entry, ts: nat): Order {
    Order(e.id, side, e.price, e.qty, ts, e.isOurs)
  }

  function InsertAll(side: Side, levels: Levels, es: seq<Entry>, ts: nat): Levels
    decreases |es|
  {
    if es == [] then levels
    else InsertAll(side, Insert(levels, EntryOrder(side, es[0], ts)), es[1..], ts)
  }

  function Rebuilt(snap: BookResync, ts: nat): Book {
    Book(InsertAll(Bid, map[], snap.bids, ts), InsertAll(Ask, map[], snap.asks, ts))
  }

  lemma {:induction false} InsertAllAppend(side: Side, levels: Levels, a: seq<Entry>, b: seq<Entry>, ts: nat)
    ensures InsertAll(side, levels, a + b, ts) == InsertAll(side, InsertAll(side, levels, a, ts), b, ts)
    decreases |a|
  {
    if a == [] {
      assert a + b == b;
    } else {
      assert (a + b)[1..] == a[1..] + b;
      InsertAllAppend(side, Insert(levels, EntryOrder(side, a[0], ts)), a[1..], b, ts);
    }
  }

  function OrdersOf(side: Side, es: seq<Entry>, ts: nat): (r: seq<Order>)
    ensures |r| == |es|
    ensures forall i :: 0 <= i < |es| ==> r[i] == EntryOrder(side, es[i], ts)
  {
    seq(|es|, i requires 0 <= i < |es| => EntryOrder(side, es[i], ts))
  }

  lemma OrdersOfCons(side: Side, es: seq<Entry>, ts: nat, before: seq<Order>)
    requires es != []
    ensures (before + [EntryOrder(side, es[0], ts)]) + OrdersOf(side, es[1..], ts) == before + OrdersOf(side, es, ts)
  {
  }

  lemma Override(levels: Levels, price: Price, a: seq<Order>, b: seq<Order>)
    ensures levels[price := a][price := b] == levels[price := b]
  {
  }

  /** Inserting entries at one price appends them to that price's queue. */
  lemma {:induction false} InsertQueue(side: Side, levels: Levels, price: Price, es: seq<Entry>, ts: nat)
    requires es != [] && forall i :: 0 <= i < |es| ==> es[i].price == price
    ensures InsertAll(side, levels, es, ts) == levels[price := QueueAt(levels, price) + OrdersOf(side, es, ts)]
    decreases |es|
  {
    var before, o := QueueAt(levels, price), EntryOrder(side, es[0], ts);
    OrdersOfCons(side, es, ts, before);
    var rest := es[1..];
    if rest == [] {
      assert OrdersOf(side, rest, ts) == [];
      assert (before + [o]) + [] == before + [o];
    } else {
      var next := Insert(levels, o);
      assert QueueAt(next, price) == before + [o];
      InsertQueue(side, next, price, rest, ts);
      Override(levels, price, before + [o], before + OrdersOf(side, es, ts));
    }
  }

  lemma OrdersOfEntries(side: Side, price: Price, q: seq<Order>, ts: nat)
    requires QueueOk(side, price, q)
    ensures SameQueue(OrdersOf(side, Entries(q), ts), q)
  {
  }

  /** `r` is `base` with `levels`, at other prices, added up to timestamps. */
  ghost predicate Extends(r: Levels, base: Levels, levels: Levels) {
    && r.Keys == base.Keys + levels.Keys
    && (forall p :: p in base ==> r[p] == base[p])
    && (forall p :: p in levels ==> SameQueue(r[p], levels[p]))
  }

  lemma ExtendsBest(r: Levels, base: Levels, levels: Levels, p: Price, q: seq<Order>)
    requires p in levels && p !in base && SameQueue(q, levels[p])
    requires base.Keys !! levels.Keys && Extends(r, base[p := q], levels - {p})
    ensures Extends(r, base, levels)
  {
    assert levels.Keys == (levels - {p}).Keys + {p};
    forall p' | p' in levels ensures SameQueue(r[p'], levels[p']) {
      if p' == p {
        assert p in base[p := q];
      } else {
        assert p' in levels - {p};
      }
    }
  }

  lemma EntriesAppend(a: seq<Order>, b: seq<Order>)
    ensures Entries(a + b) == Entries(a) + Entries(b)
  {
  }

  /** The best level of a flattened side goes in first, as a fresh queue. */
  lemma InsertBestLevel(side: Side, order: Side, base: Levels, levels: Levels, ts: nat)
      returns (p: Price, q: seq<Order>)
    requires LevelsOk(side, levels) && base.Keys !! levels.Keys && levels.Keys != {}
    ensures p in levels && (levels - {p}).Keys == levels.Keys - {p} && SameQueue(q, levels[p])
    ensures InsertAll(side, base, Entries(Flatten(order, levels)), ts)
         == InsertAll(side, base[p := q], Entries(Flatten(order, levels - {p})), ts)
  {
    p := Best(order, levels.Keys);
    assert QueueOk(side, p, levels[p]);
    var es, tail := Entries(levels[p]), Flatten(order, levels - {p});
    q := OrdersOf(side, es, ts);
    OrdersOfEntries(side, p, levels[p], ts);
    EntriesAppend(levels[p], tail);
    InsertAllAppend(side, base, es, Entries(tail), ts);
    InsertQueue(side, base, p, es, ts);
    assert [] + q == q;
  }

  /** Inserting a flattened side, in any price order, on top of levels at other prices. */
  lemma {:induction false} InsertFlattened(side: Side, order: Side, base: Levels, levels: Levels, ts: nat)
    requires LevelsOk(side, levels) && base.Keys !! levels.Keys
    ensures Extends(InsertAll(side, base, Entries(Flatten(order, levels)), ts), base, levels)
    decreases |levels|
  {
    if levels.Keys != {} {
      var p, q := InsertBestLevel(side, order, base, levels, ts);
      InsertFlattened(side, order, base[p := q], levels - {p}, ts);
      ExtendsBest(InsertAll(side, base[p := q], Entries(Flatten(order, levels - {p})), ts), base, levels, p, q);
    }
  }

  /** Rebuilding from an exported snapshot restores every level and queue position. */
  lemma ResyncRoundTrip(b: Book, seqAtSnapshot: nat, ts: nat)
    requires BookOk(b)
    ensures SameBook(Rebuilt(Export(b, seqAtSnapshot), ts), b)
  {
    InsertFlattened(Bid, Ask, map[], b.bids, ts);
    InsertFlattened(Ask, Ask, map[], b.asks, ts);
  }

  ghost predicate AllStamped(levels: Levels, ts: nat) {
    forall p, i :: p in levels && 0 <= i < |levels[p]| ==> levels[p][i].ts == ts
  }

  /** A rebuild stamps every order with the moment of the rebuild. */
  lemma {:induction false} InsertAllStamps(side: Side, levels: Levels, es: seq<Entry>, ts: nat)
    requires AllStamped(levels, ts)
    ensures AllStamped(InsertAll(side, levels, es, ts), ts)
    decreases |es|
  {
    if es != [] { InsertAllStamps(side, Insert(levels, EntryOrder(side, es[0], ts)), es[1..], ts); }
  }

  lemma RebuildStamps(snap: BookResync, ts: nat)
    ensures AllStamped(Rebuilt(snap, ts).bids, ts) && AllStamped(Rebuilt(snap, ts).asks, ts)
  {
    InsertAllStamps(Bid, map[], snap.bids, ts);
    InsertAllStamps(Ask, map[], snap.asks, ts);
  }

  /** Fills made so far in front of what the rest of a walk yields. */
  function Prepend(fills: seq<Fill>, t: Taken): Taken {
    t.(fills := fills + t.fills)
  }

  lemma PrependNone(t: Taken)
    ensures Prepend([], t) == t
  {
  }

  /** One fill of a queue's walk: the front order is traded, and leaves when used up. */
  lemma TakeStep(side: Side, price: Price, q: seq<Order>, q': seq<Order>, qty: Qty, traded: Qty, ts: nat,
                 fills: seq<Fill>, f: Fill)
    requires qty > 0 && q != [] && traded == Min(q[0].qty, qty)
    requires f == MakeFill(side, price, q[0], traded, ts) && q' == Shrink(q, traded)
    ensures Prepend(fills, TakeQueue(side, price, q, qty, ts))
         == Prepend(fills + [f], TakeQueue(side, price, q', qty - traded, ts))
  {
    var rest := TakeQueue(side, price, q', qty - traded, ts).fills;
    assert fills + ([f] + rest) == (fills + [f]) + rest;
  }

  lemma TakeDone(side: Side, price: Price, q: seq<Order>, qty: Qty, ts: nat, fills: seq<Fill>)
    requires qty == 0 || q == []
    ensures Prepend(fills, TakeQueue(side, price, q, qty, ts)) == Taken(fills, q, qty)
  {
    assert fills + [] == fills;
  }

  lemma DropLevel(levels: Levels, price: Price)
    ensures levels[price := []] - {price} == Put(levels, price, [])
  {
  }

  function PrependSwept(fills: seq<Fill>, r: Swept): Swept {
    r.(fills := fills + r.fills)
  }

  /** One level of a walk, from the levels that trading its queue leaves. */
  lemma SweepStep(side: Side, levels: Levels, limit: Option<Price>, qty: Qty, ts: nat, fills: seq<Fill>)
    requires qty > 0 && levels.Keys != {} && Within(side, Best(side, levels.Keys), limit)
    ensures var p := Best(side, levels.Keys);
            var taken := TakeQueue(side, p, levels[p], qty, ts);
            && PrependSwept(fills, Sweep(side, levels, limit, qty, ts)) ==
                 PrependSwept(fills + taken.fills, Sweep(side, Put(levels, p, taken.rest), limit, taken.remaining, ts))
            && (taken.remaining > 0 ==> Put(levels, p, taken.rest) == levels - {p})
            && (taken.rest != [] ==> taken.remaining == 0)
            && taken.remaining <= qty
  {
    var p := Best(side, levels.Keys);
    var taken := TakeQueue(side, p, levels[p], qty, ts);
    TakeRemaining(side, p, levels[p], qty, ts);
    var rest := Sweep(side, Put(levels, p, taken.rest), limit, taken.remaining, ts).fills;
    assert fills + (taken.fills + rest) == (fills + taken.fills) + rest;
  }

  /** The next price of a list collected best first, and the list after its level is gone. */
  lemma NextPrice(side: Side, levels: Levels, priceLevels: seq<Price>, i: nat)
    requires i < |priceLevels| && SortedPrices(side, levels.Keys) == priceLevels[i..]
    ensures levels.Keys != {} && priceLevels[i] == Best(side, levels.Keys)
    ensures SortedPrices(side, (levels - {priceLevels[i]}).Keys) == priceLevels[i + 1..]
  {
    assert priceLevels[i] == priceLevels[i..][0];
    assert (levels - {priceLevels[i]}).Keys == levels.Keys - {priceLevels[i]};
    assert priceLevels[i..][1..] == priceLevels[i + 1..];
  }

  class OrderBook {
    var bids: Levels
    var asks: Levels

    function State(): Book
      reads this
    {
      Book(bids, asks)
    }

    constructor ()
      ensures State() == EMPTY_BOOK
    {
      bids, asks := map[], map[];
    }

    method BestBid() returns (r: Option<Price>)
      ensures r.None? <==> bids.Keys == {}
      ensures r.Some? ==> r.value in bids && forall p :: p in bids ==> p <= r.value
    {
      r := if bids.Keys == {} then None else Some(Best(Bid, bids.Keys));
      if r.Some? {
        assert forall p :: p in bids ==> Rank(Bid, r.value) <= Rank(Bid, p);
      }
    }

    method BestAsk() returns (r: Option<Price>)
      ensures r.None? <==> asks.Keys == {}
      ensures r.Some? ==> r.value in asks && forall p :: p in asks ==> r.value <= p
    {
      r := if asks.Keys == {} then None else Some(Best(Ask, asks.Keys));
      if r.Some? {
        assert forall p :: p in asks ==> Rank(Ask, r.value) <= Rank(Ask, p);
      }
    }

    method SetSide(side: Side, levels: Levels)
      modifies this
      ensures bids == if side == Bid then levels else old(bids)
      ensures asks == if side == Ask then levels else old(asks)
    {
      match side
      case Bid => bids := levels;
      case Ask => asks := levels;
    }

    method InsertRestingOrder(id: OrderId, side: Side, price: Price, qty: Qty, ts: nat, isOurs: bool)
      modifies this
      ensures State() == old(State()).With(side, Insert(old(State()).Of(side), Order(id, side, price, qty, ts, isOurs)))
    {
      var levels := State().Of(side);
      var queue := if price in levels then levels[price] else [];
      queue := queue + [Order(id, side, price, qty, ts, isOurs)];
      SetSide(side, levels[price := queue]);
    }

    /** The inner loop of both matchers: trades the front of the queue at one level. */
    method TradeQueue(restingSide: Side, price: Price, qty: Qty, ts: nat)
        returns (fills: seq<Fill>, remaining: Qty)
      requires price in State().Of(restingSide)
      modifies this
      ensures var taken := TakeQueue(restingSide, price, old(State().Of(restingSide))[price], qty, ts);
              && fills == taken.fills && remaining == taken.remaining
              && State() == old(State()).With(restingSide, Put(old(State().Of(restingSide)), price, taken.rest))
    {
      var levels := State().Of(restingSide);
      var queue := levels[price];
      ghost var taken := TakeQueue(restingSide, price, queue, qty, ts);
      fills, remaining := [], qty;
      PrependNone(taken);
      while remaining > 0 && queue != []
        invariant bids == if restingSide == Bid then levels[price := queue] else old(bids)
        invariant asks == if restingSide == Ask then levels[price := queue] else old(asks)
        invariant taken == Prepend(fills, TakeQueue(restingSide, price, queue, remaining, ts))
        decreases |queue| + remaining
      {
        var front := queue[0];
        var traded := Min(front.qty, remaining);
        var fill := Fill(front.id, front.isOurs, restingSide, price, traded, ts);
        ghost var before := queue;
        front := front.(qty := front.qty - traded);
        queue := if front.qty == 0 then queue[1..] else [front] + queue[1..];
        TakeStep(restingSide, price, before, queue, remaining, traded, ts, fills, fill);
        fills := fills + [fill];
        remaining := remaining - traded;
        SetSide(restingSide, levels[price := queue]);
      }
      TakeDone(restingSide, price, queue, remaining, ts, fills);
      if queue == [] {
        DropLevel(levels, price);
        SetSide(restingSide, State().Of(restingSide) - {price});
      }
    }

    /** Matches as far as the limit allows, then rests any remainder. */
    method SubmitLimitOrder(id: OrderId, side: Side, price: Price, qty: Qty, ts: nat, isOurs: bool)
        returns (fills: seq<Fill>)
      modifies this
      ensures fills == Submit(old(State()), id, side, price, qty, ts, isOurs).fills
      ensures State() == Submit(old(State()), id, side, price, qty, ts, isOurs).book
      ensures forall f :: f in fills ==> if side == Bid then f.price <= price else f.price >= price
    {
      SubmitHonoursLimit(State(), id, side, price, qty, ts, isOurs);
      var remaining := qty;
      fills := [];
      var restingSide := side.Opposite();
      ghost var swept := Sweep(restingSide, State().Of(restingSide), Some(price), qty, ts);
      assert swept == PrependSwept([], swept);
      while remaining > 0
        invariant State() == old(State()).With(restingSide, State().Of(restingSide))
        invariant swept == PrependSwept(fills, Sweep(restingSide, State().Of(restingSide), Some(price), remaining, ts))
        decreases |State().Of(restingSide)|, remaining
      {
        var levels := State().Of(restingSide);
        if levels.Keys == {} { break; }
        var levelPrice := Best(restingSide, levels.Keys);
        var crosses := if side == Bid then price >= levelPrice else price <= levelPrice;
        if !crosses { break; }
        SweepStep(restingSide, levels, Some(price), remaining, ts, fills);
        var levelFills, left := TradeQueue(restingSide, levelPrice, remaining, ts);
        assert (levels - {levelPrice}).Keys == levels.Keys - {levelPrice};
        fills := fills + levelFills;
        remaining := left;
      }
      assert swept == Swept(fills + [], State().Of(restingSide), remaining);
      if remaining > 0 {
        InsertRestingOrder(id, side, price, remaining, ts, isOurs);
      }
    }

    /** Walks a price list collected before any edit, best level first. */
    method ExecuteMarketOrder(aggressorSide: Side, qty: Qty, ts: nat) returns (fills: seq<Fill>)
      modifies this
      ensures fills == Execute(old(State()), aggressorSide, qty, ts).fills
      ensures State() == Execute(old(State()), aggressorSide, qty, ts).book
    {
      var remaining := qty;
      fills := [];
      var restingSide := aggressorSide.Opposite();
      ghost var swept := Sweep(restingSide, State().Of(restingSide), None, qty, ts);
      assert swept == PrependSwept([], swept);
      var priceLevels := SortedPrices(restingSide, State().Of(restingSide).Keys);
      var i := 0;
      while i < |priceLevels|
        invariant 0 <= i <= |priceLevels|
        invariant State() == old(State()).With(restingSide, State().Of(restingSide))
        invariant remaining > 0 ==> SortedPrices(restingSide, State().Of(restingSide).Keys) == priceLevels[i..]
        invariant swept == PrependSwept(fills, Sweep(restingSide, State().Of(restingSide), None, remaining, ts))
      {
        if remaining == 0 { break; }
        var levels := State().Of(restingSide);
        var price := priceLevels[i];
        NextPrice(restingSide, levels, priceLevels, i);
        SweepStep(restingSide, levels, None, remaining, ts, fills);
        var levelFills, left := TradeQueue(restingSide, price, remaining, ts);
        fills := fills + levelFills;
        remaining := left;
        i := i + 1;
      }
      assert swept == Swept(fills + [], State().Of(restingSide), remaining);
    }

    method CancelOrder(side: Side, price: Price, id: OrderId) returns (found: bool)
      modifies this
      ensures found == HasOrder(old(State()).Of(side), price, id)
      ensures State() == old(State()).With(side, RemoveOrder(old(State()).Of(side), price, id))
    {
      var levels := State().Of(side);
      if price in levels {
        var queue := levels[price];
        var pos := Position(queue, id);
        if pos < |queue| {
          queue := queue[..pos] + queue[pos + 1..];
          if queue == [] {
            SetSide(side, levels - {price});
          } else {
            SetSide(side, levels[price := queue]);
          }
          return true;
        }
      }
      return false;
    }

    /** Applies a reported trade to a book built by replay. */
    method ApplyTrade(side: Side, price: Price, id: OrderId, tradedQty: Qty)
      modifies this
      ensures State() == old(State()).With(side, ReduceOrder(old(State()).Of(side), price, id, tradedQty))
    {
      var levels := State().Of(side);
      if price in levels {
        var queue := levels[price];
        var pos := Position(queue, id);
        if pos < |queue| {
          if tradedQty >= queue[pos].qty {
            queue := queue[..pos] + queue[pos + 1..];
          } else {
            queue := queue[pos := queue[pos].(qty := queue[pos].qty - tradedQty)];
          }
        }
        if queue == [] {
          SetSide(side, levels - {price});
        } else {
          SetSide(side, levels[price := queue]);
        }
      }
    }

    function ExportResync(): BookResync
      reads this
    {
      Export(State(), 0)
    }

    method RebuildFromResync(resync: BookResync, ts: nat)
      modifies this
      ensures State() == Rebuilt(resync, ts)
    {
      bids, asks := map[], map[];
      for i := 0 to |resync.bids|
        invariant asks == map[]
        invariant InsertAll(Bid, bids, resync.bids[i..], ts) == InsertAll(Bid, map[], resync.bids, ts)
      {
        var e := resync.bids[i];
        assert resync.bids[i..][1..] == resync.bids[i + 1..];
        InsertRestingOrder(e.id, Bid, e.price, e.qty, ts, e.isOurs);
      }
      for i := 0 to |resync.asks|
        invariant bids == InsertAll(Bid, map[], resync.bids, ts)
        invariant InsertAll(Ask, asks, resync.asks[i..], ts) == InsertAll(Ask, map[], resync.asks, ts)
      {
        var e := resync.asks[i];
        assert resync.asks[i..][1..] == resync.asks[i + 1..];
        InsertRestingOrder(e.id, Ask, e.price, e.qty, ts, e.isOurs);
      }
    }
  }
}
