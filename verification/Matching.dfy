/** The matcher's specification, level by level as the source walks the book,
    and its refinement of greedy consumption of one flat priority list. */
module Matching {
  import opened Types
  import opened Levels

  /** Fills, what is left of the resting orders, and what is left to fill. */
  datatype Taken = Taken(fills: seq<Fill>, rest: seq<Order>, remaining: Qty)
  datatype Swept = Swept(fills: seq<Fill>, levels: Levels, remaining: Qty)

  function MakeFill(side: Side, price: Price, o: Order, traded: Qty, ts: nat): Fill {
    Fill(o.id, o.isOurs, side, price, traded, ts)
  }

  /** The front order after trading: gone when nothing is left of it. */
  function Shrink(q: seq<Order>, traded: Qty): seq<Order>
    requires q != [] && traded <= q[0].qty
  {
    if traded == q[0].qty then q[1..] else [q[0].(qty := q[0].qty - traded)] + q[1..]
  }

  /** One level: fill from the front of the queue until it or the quantity is gone. */
  function TakeQueue(side: Side, price: Price, q: seq<Order>, qty: Qty, ts: nat): (r: Taken)
    ensures r.remaining > 0 ==> r.rest == []
    decreases |q| + qty
  {
    if qty == 0 || q == [] then Taken([], q, qty) else
      var traded := Min(q[0].qty, qty);
      var r := TakeQueue(side, price, Shrink(q, traded), qty - traded, ts);
      r.(fills := [MakeFill(side, price, q[0], traded, ts)] + r.fills)
  }

  /** No limit means a market order; otherwise the limit must be at or through the level. */
  predicate Within(side: Side, price: Price, limit: Option<Price>) {
    limit.None? || Rank(side, price) <= Rank(side, limit.value)
  }

  /** The whole walk over the resting side, best level first. */
  function Sweep(side: Side, levels: Levels, limit: Option<Price>, qty: Qty, ts: nat): (r: Swept)
    ensures r.levels.Keys <= levels.Keys && r.remaining <= qty
    decreases |levels|
  {
    if qty == 0 || levels.Keys == {} then Swept([], levels, qty) else
      var p := Best(side, levels.Keys);
      if !Within(side, p, limit) then Swept([], levels, qty) else
        var taken := TakeQueue(side, p, levels[p], qty, ts);
        TakeRemaining(side, p, levels[p], qty, ts);
        if taken.rest == [] then
          assert (levels - {p}).Keys == levels.Keys - {p};
          var r := Sweep(side, levels - {p}, limit, taken.remaining, ts);
          r.(fills := taken.fills + r.fills)
        else
          Swept(taken.fills, levels[p := taken.rest], taken.remaining)
  }

  lemma TakeRemaining(side: Side, price: Price, q: seq<Order>, qty: Qty, ts: nat)
    ensures TakeQueue(side, price, q, qty, ts).remaining <= qty
    decreases |q| + qty
  {
    if qty != 0 && q != [] {
      var traded := Min(q[0].qty, qty);
      TakeRemaining(side, price, Shrink(q, traded), qty - traded, ts);
    }
  }

  // The flat priority list.

  ghost predicate NoEmptyLevel(levels: Levels) {
    forall p :: p in levels ==> levels[p] != []
  }

  ghost predicate Keyed(levels: Levels) {
    forall p, i :: p in levels && 0 <= i < |levels[p]| ==> levels[p][i].price == p
  }

  /** Every resting order in price-then-time order of the given side. */
  function Flatten(side: Side, levels: Levels): seq<Order>
    decreases |levels|
  {
    if levels.Keys == {} then [] else
      var p := Best(side, levels.Keys);
      assert (levels - {p}).Keys == levels.Keys - {p};
      levels[p] + Flatten(side, levels - {p})
  }

  /** Reference semantics: consume a flat list from the front until it leaves the limit. */
  function Greedy(side: Side, flat: seq<Order>, limit: Option<Price>, qty: Qty, ts: nat): Taken
    decreases |flat| + qty
  {
    if qty == 0 || flat == [] || !Within(side, flat[0].price, limit) then Taken([], flat, qty) else
      var traded := Min(flat[0].qty, qty);
      var r := Greedy(side, Shrink(flat, traded), limit, qty - traded, ts);
      r.(fills := [MakeFill(side, flat[0].price, flat[0], traded, ts)] + r.fills)
  }

  ghost predicate AllAt(q: seq<Order>, price: Price) {
    forall i :: 0 <= i < |q| ==> q[i].price == price
  }

  lemma ShrinkSplit(q: seq<Order>, tail: seq<Order>, price: Price, traded: Qty)
    requires q != [] && AllAt(q, price) && traded <= q[0].qty
    ensures Shrink(q + tail, traded) == Shrink(q, traded) + tail
    ensures AllAt(Shrink(q, traded), price)
  {
    var flat := q + tail;
    assert flat[0] == q[0] && flat[1..] == q[1..] + tail;
    if traded < q[0].qty {
      var front := [q[0].(qty := q[0].qty - traded)];
      assert front + (q[1..] + tail) == (front + q[1..]) + tail;
    }
  }

  lemma Glue(f: seq<Fill>, a: Taken, b: Taken)
    ensures Taken(f + (a.fills + b.fills), a.rest + b.rest, b.remaining)
         == Taken((f + a.fills) + b.fills, a.rest + b.rest, b.remaining)
  {
    assert f + (a.fills + b.fills) == (f + a.fills) + b.fills;
  }

  /** What one level contributes, followed by what greedy takes from the orders behind it. */
  function LevelThenTail(side: Side, price: Price, q: seq<Order>, tail: seq<Order>, limit: Option<Price>, qty: Qty,
                         ts: nat): Taken {
    var a := TakeQueue(side, price, q, qty, ts);
    var b := Greedy(side, tail, limit, a.remaining, ts);
    Taken(a.fills + b.fills, a.rest + b.rest, b.remaining)
  }

  lemma LevelThenTailStep(side: Side, price: Price, q: seq<Order>, tail: seq<Order>, limit: Option<Price>, qty: Qty,
                          ts: nat)
    requires qty > 0 && q != []
    ensures var traded := Min(q[0].qty, qty);
            var r := LevelThenTail(side, price, Shrink(q, traded), tail, limit, qty - traded, ts);
            LevelThenTail(side, price, q, tail, limit, qty, ts) ==
            r.(fills := [MakeFill(side, price, q[0], traded, ts)] + r.fills)
  {
    var traded := Min(q[0].qty, qty);
    var a := TakeQueue(side, price, Shrink(q, traded), qty - traded, ts);
    Glue([MakeFill(side, price, q[0], traded, ts)], a, Greedy(side, tail, limit, a.remaining, ts));
  }

  /** Greedy over a level that is within the limit is one level's walk, then the rest. */
  lemma {:induction false} GreedySplit(side: Side, price: Price, q: seq<Order>, tail: seq<Order>,
                                       limit: Option<Price>, qty: Qty, ts: nat)
    requires AllAt(q, price) && Within(side, price, limit)
    ensures Greedy(side, q + tail, limit, qty, ts) == LevelThenTail(side, price, q, tail, limit, qty, ts)
    decreases |q| + qty
  {
    if q == [] {
      assert q + tail == tail;
      var b := Greedy(side, tail, limit, qty, ts);
      assert [] + b.fills == b.fills && [] + b.rest == b.rest;
    } else if qty == 0 {
      assert LevelThenTail(side, price, q, tail, limit, qty, ts) == Taken([] + [], q + tail, 0);
    } else {
      var traded := Min(q[0].qty, qty);
      ShrinkSplit(q, tail, price, traded);
      GreedySplit(side, price, Shrink(q, traded), tail, limit, qty - traded, ts);
      LevelThenTailStep(side, price, q, tail, limit, qty, ts);
      assert (q + tail)[0] == q[0];
    }
  }

  /** Replacing the best queue replaces the head of the flat list. */
  lemma FlattenBest(side: Side, levels: Levels, q: seq<Order>)
    requires levels.Keys != {} && q != []
    ensures var p := Best(side, levels.Keys);
            Flatten(side, levels[p := q]) == q + Flatten(side, levels - {p})
  {
    var p := Best(side, levels.Keys);
    assert levels[p := q].Keys == levels.Keys;
    assert levels[p := q] - {p} == levels - {p};
  }

  ghost predicate RestsIn(levels: Levels, o: Order) {
    exists p :: p in levels && o in levels[p]
  }

  lemma {:induction false} FlattenMembers(side: Side, levels: Levels)
    ensures forall o :: o in Flatten(side, levels) ==> RestsIn(levels, o)
    decreases |levels|
  {
    if levels.Keys != {} {
      var p := Best(side, levels.Keys);
      var rest := levels - {p};
      assert rest.Keys == levels.Keys - {p};
      FlattenMembers(side, rest);
      forall o | o in Flatten(side, levels) ensures RestsIn(levels, o) {
        if o !in levels[p] {
          assert o in Flatten(side, rest);
          var p' :| p' in rest && o in rest[p'];
          assert o in levels[p'];
        }
      }
    }
  }

  /** When the best level is beyond the limit, no order of the flat list is within it. */
  lemma BeyondLimit(side: Side, levels: Levels, limit: Option<Price>)
    requires Keyed(levels) && levels.Keys != {} && !Within(side, Best(side, levels.Keys), limit)
    ensures forall i :: 0 <= i < |Flatten(side, levels)| ==> !Within(side, Flatten(side, levels)[i].price, limit)
  {
    FlattenMembers(side, levels);
    forall i | 0 <= i < |Flatten(side, levels)| ensures !Within(side, Flatten(side, levels)[i].price, limit) {
      assert RestsIn(levels, Flatten(side, levels)[i]);
    }
  }

  /** Walking levels and queues is greedy consumption of the flat list. */
  lemma {:induction false} SweepIsGreedy(side: Side, levels: Levels, limit: Option<Price>, qty: Qty, ts: nat)
    requires Keyed(levels) && NoEmptyLevel(levels)
    ensures var r := Sweep(side, levels, limit, qty, ts);
            Greedy(side, Flatten(side, levels), limit, qty, ts) == Taken(r.fills, Flatten(side, r.levels), r.remaining)
    decreases |levels|
  {
    if qty != 0 && levels.Keys != {} {
      var p := Best(side, levels.Keys);
      if !Within(side, p, limit) {
        BeyondLimit(side, levels, limit);
      } else {
        var q, rest := levels[p], levels - {p};
        var taken := TakeQueue(side, p, q, qty, ts);
        GreedySplit(side, p, q, Flatten(side, rest), limit, qty, ts);
        assert rest.Keys == levels.Keys - {p};
        if taken.rest == [] {
          SweepIsGreedy(side, rest, limit, taken.remaining, ts);
          var r := Sweep(side, rest, limit, taken.remaining, ts);
          assert taken.rest + Flatten(side, r.levels) == Flatten(side, r.levels);
        } else {
          FlattenBest(side, levels, taken.rest);
          assert taken.fills + [] == taken.fills;
        }
      }
    }
  }

  // How much is filled.

  function FillTotal(fills: seq<Fill>): Qty {
    if fills == [] then 0 else fills[0].qty + FillTotal(fills[1..])
  }

  /** Quantity resting at prices the limit reaches. */
  function Available(side: Side, flat: seq<Order>, limit: Option<Price>): Qty {
    if flat == [] then 0
    else (if Within(side, flat[0].price, limit) then flat[0].qty else 0) + Available(side, flat[1..], limit)
  }

  ghost predicate RankSorted(side: Side, flat: seq<Order>) {
    forall i, j :: 0 <= i < j < |flat| ==> Rank(side, flat[i].price) <= Rank(side, flat[j].price)
  }

  lemma {:induction false} FlattenSorted(side: Side, levels: Levels)
    requires Keyed(levels)
    ensures RankSorted(side, Flatten(side, levels))
    decreases |levels|
  {
    if levels.Keys != {} {
      var p := Best(side, levels.Keys);
      var rest := levels - {p};
      assert rest.Keys == levels.Keys - {p};
      FlattenSorted(side, rest);
      FlattenMembers(side, rest);
      var flat := Flatten(side, rest);
      forall i | 0 <= i < |flat| ensures Rank(side, p) <= Rank(side, flat[i].price) {
        assert RestsIn(rest, flat[i]);
      }
    }
  }

  lemma {:induction false} NothingAvailable(side: Side, flat: seq<Order>, limit: Option<Price>)
    requires forall i :: 0 <= i < |flat| ==> !Within(side, flat[i].price, limit)
    ensures Available(side, flat, limit) == 0
  {
    if flat != [] { NothingAvailable(side, flat[1..], limit); }
  }

  lemma {:induction false} GreedyTotal(side: Side, flat: seq<Order>, limit: Option<Price>, qty: Qty, ts: nat)
    requires RankSorted(side, flat)
    ensures var r := Greedy(side, flat, limit, qty, ts);
            && FillTotal(r.fills) == Min(qty, Available(side, flat, limit))
            && r.remaining == qty - FillTotal(r.fills)
    decreases |flat| + qty
  {
    if flat != [] && !Within(side, flat[0].price, limit) {
      NothingAvailable(side, flat, limit);
    } else if qty != 0 && flat != [] {
      var traded := Min(flat[0].qty, qty);
      var rest := Shrink(flat, traded);
      ShrinkSorted(side, flat, limit, traded);
      GreedyTotal(side, rest, limit, qty - traded, ts);
      var f := MakeFill(side, flat[0].price, flat[0], traded, ts);
      FillTotalCons(f, Greedy(side, rest, limit, qty - traded, ts).fills);
    }
  }

  lemma FillTotalCons(f: Fill, fills: seq<Fill>)
    ensures FillTotal([f] + fills) == f.qty + FillTotal(fills)
  {
    assert ([f] + fills)[1..] == fills;
  }

  lemma ShrinkSorted(side: Side, flat: seq<Order>, limit: Option<Price>, traded: Qty)
    requires RankSorted(side, flat) && flat != [] && traded <= flat[0].qty && Within(side, flat[0].price, limit)
    ensures RankSorted(side, Shrink(flat, traded))
    ensures Available(side, flat, limit) == traded + Available(side, Shrink(flat, traded), limit)
  {
    var rest := Shrink(flat, traded);
    if traded < flat[0].qty { assert rest[1..] == flat[1..]; }
  }

  /** Total filled is the smaller of what was asked and what the limit reaches. */
  lemma SweepTotal(side: Side, levels: Levels, limit: Option<Price>, qty: Qty, ts: nat)
    requires Keyed(levels) && NoEmptyLevel(levels)
    ensures var r := Sweep(side, levels, limit, qty, ts);
            && FillTotal(r.fills) == Min(qty, Available(side, Flatten(side, levels), limit))
            && r.remaining == qty - FillTotal(r.fills)
  {
    SweepIsGreedy(side, levels, limit, qty, ts);
    FlattenSorted(side, levels);
    GreedyTotal(side, Flatten(side, levels), limit, qty, ts);
  }

  /** With quantity left over, every level the limit reaches has been emptied. */
  lemma {:induction false} SweepExhausts(side: Side, levels: Levels, limit: Option<Price>, qty: Qty, ts: nat)
    ensures var r := Sweep(side, levels, limit, qty, ts);
            r.remaining > 0 ==> forall p :: p in r.levels ==> !Within(side, p, limit)
    decreases |levels|
  {
    if qty != 0 && levels.Keys != {} {
      var p := Best(side, levels.Keys);
      if Within(side, p, limit) {
        assert (levels - {p}).Keys == levels.Keys - {p};
        SweepExhausts(side, levels - {p}, limit, TakeQueue(side, p, levels[p], qty, ts).remaining, ts);
      }
    }
  }

  /** A limit that reaches every level makes a limit order fill as a market order does. */
  lemma {:induction false} FarLimitIsMarket(side: Side, levels: Levels, limit: Price, qty: Qty, ts: nat)
    requires forall p :: p in levels ==> Within(side, p, Some(limit))
    ensures Sweep(side, levels, Some(limit), qty, ts) == Sweep(side, levels, None, qty, ts)
    decreases |levels|
  {
    if qty != 0 && levels.Keys != {} {
      var p := Best(side, levels.Keys);
      assert (levels - {p}).Keys == levels.Keys - {p};
      FarLimitIsMarket(side, levels - {p}, limit, TakeQueue(side, p, levels[p], qty, ts).remaining, ts);
    }
  }

  // Submitting an order: match, then rest the remainder.

  datatype Submitted = Submitted(fills: seq<Fill>, book: Book)

  function Submit(b: Book, id: OrderId, side: Side, price: Price, qty: Qty, ts: nat, isOurs: bool): Submitted {
    var opp := side.Opposite();
    var r := Sweep(opp, b.Of(opp), Some(price), qty, ts);
    var b' := b.With(opp, r.levels);
    Submitted(r.fills,
              if r.remaining > 0
              then b'.With(side, Insert(b'.Of(side), Order(id, side, price, r.remaining, ts, isOurs)))
              else b')
  }

  function Execute(b: Book, aggressor: Side, qty: Qty, ts: nat): Submitted {
    var opp := aggressor.Opposite();
    var r := Sweep(opp, b.Of(opp), None, qty, ts);
    Submitted(r.fills, b.With(opp, r.levels))
  }

  /** Everything a marketable limit order does, against the flat reference: fills, the
      amount filled, the unconsumed suffix, and the remainder at the back of its level. */
  lemma SubmitRefinesGreedy(b: Book, id: OrderId, side: Side, price: Price, qty: Qty, ts: nat, isOurs: bool)
    requires BookOk(b)
    ensures var opp := side.Opposite();
            var r := Submit(b, id, side, price, qty, ts, isOurs);
            var flat := Flatten(opp, b.Of(opp));
            var g := Greedy(opp, flat, Some(price), qty, ts);
            && r.fills == g.fills
            && FillTotal(r.fills) == Min(qty, Available(opp, flat, Some(price)))
            && Flatten(opp, r.book.Of(opp)) == g.rest
            && r.book.Of(side) ==
                 if FillTotal(r.fills) < qty
                 then b.Of(side)[price := QueueAt(b.Of(side), price)
                                          + [Order(id, side, price, qty - FillTotal(r.fills), ts, isOurs)]]
                 else b.Of(side)
  {
    var opp := side.Opposite();
    OkIsKeyed(opp, b.Of(opp));
    SweepIsGreedy(opp, b.Of(opp), Some(price), qty, ts);
    SweepTotal(opp, b.Of(opp), Some(price), qty, ts);
  }

  lemma OkIsKeyed(side: Side, levels: Levels)
    requires LevelsOk(side, levels)
    ensures Keyed(levels) && NoEmptyLevel(levels)
  {
  }

  /** The market matcher and the limit matcher agree on fills and on the opposite side
      whenever the limit reaches the furthest opposite price. */
  lemma MatchersAgree(b: Book, id: OrderId, side: Side, limit: Price, qty: Qty, ts: nat, isOurs: bool)
    requires forall p :: p in b.Of(side.Opposite()) ==> Within(side.Opposite(), p, Some(limit))
    ensures var s, e := Submit(b, id, side, limit, qty, ts, isOurs), Execute(b, side, qty, ts);
            && s.fills == e.fills
            && s.book.Of(side.Opposite()) == e.book.Of(side.Opposite())
            && e.book.Of(side) == b.Of(side)
  {
    FarLimitIsMarket(side.Opposite(), b.Of(side.Opposite()), limit, qty, ts);
  }

  /** A submitted order never leaves the book crossed. */
  lemma SubmitKeepsUncrossed(b: Book, id: OrderId, side: Side, price: Price, qty: Qty, ts: nat, isOurs: bool)
    requires Uncrossed(b)
    ensures Uncrossed(Submit(b, id, side, price, qty, ts, isOurs).book)
  {
    var opp := side.Opposite();
    SweepExhausts(opp, b.Of(opp), Some(price), qty, ts);
  }

  // The limit, in prices.

  /** An order of a side with this limit may trade at the price. */
  predicate Reaches(side: Side, limit: Price, price: Price) {
    if side == Bid then price <= limit else price >= limit
  }

  lemma {:induction false} TakeFillsAt(side: Side, price: Price, q: seq<Order>, qty: Qty, ts: nat)
    ensures forall f :: f in TakeQueue(side, price, q, qty, ts).fills ==>
                          f.sideOfRestingOrder == side && f.price == price && f.ts == ts
    decreases |q| + qty
  {
    if qty != 0 && q != [] {
      var traded := Min(q[0].qty, qty);
      TakeFillsAt(side, price, Shrink(q, traded), qty - traded, ts);
    }
  }

  /** Every fill of a walk is at a level of the resting side that the limit reaches. */
  lemma {:induction false} SweepFillsWithin(side: Side, levels: Levels, limit: Option<Price>, qty: Qty, ts: nat)
    ensures forall f :: f in Sweep(side, levels, limit, qty, ts).fills ==>
                          && f.sideOfRestingOrder == side && f.ts == ts && f.price in levels
                          && (limit.Some? ==> Reaches(side.Opposite(), limit.value, f.price))
    decreases |levels|
  {
    if qty != 0 && levels.Keys != {} {
      var p := Best(side, levels.Keys);
      if Within(side, p, limit) {
        TakeFillsAt(side, p, levels[p], qty, ts);
        assert (levels - {p}).Keys == levels.Keys - {p};
        SweepFillsWithin(side, levels - {p}, limit, TakeQueue(side, p, levels[p], qty, ts).remaining, ts);
      }
    }
  }

  /** No buyer pays more than the limit and no seller gets less; and an order that is left with
      something to rest leaves nothing on the opposite side at or through its price. */
  lemma SubmitHonoursLimit(b: Book, id: OrderId, side: Side, price: Price, qty: Qty, ts: nat, isOurs: bool)
    ensures var r := Submit(b, id, side, price, qty, ts, isOurs);
            && (forall f :: f in r.fills ==>
                  && f.sideOfRestingOrder == side.Opposite() && f.ts == ts
                  && if side == Bid then f.price <= price else f.price >= price)
            && (BookOk(b) && FillTotal(r.fills) < qty ==>
                  forall p :: p in r.book.Of(side.Opposite()) ==> if side == Bid then p > price else p < price)
  {
    var opp := side.Opposite();
    SweepFillsWithin(opp, b.Of(opp), Some(price), qty, ts);
    SweepExhausts(opp, b.Of(opp), Some(price), qty, ts);
    if BookOk(b) {
      OkIsKeyed(opp, b.Of(opp));
      SweepTotal(opp, b.Of(opp), Some(price), qty, ts);
    }
  }

  function RestingTotal(flat: seq<Order>): Qty {
    if flat == [] then 0 else flat[0].qty + RestingTotal(flat[1..])
  }

  lemma {:induction false} AllAvailable(side: Side, flat: seq<Order>)
    ensures Available(side, flat, None) == RestingTotal(flat)
  {
    if flat != [] { AllAvailable(side, flat[1..]); }
  }

  /** A market order leaves its own side alone, hits only the other one, and takes as much as
      was asked or all there is. */
  lemma ExecuteHitsOpposite(b: Book, aggressor: Side, qty: Qty, ts: nat)
    requires BookOk(b)
    ensures var opp := if aggressor == Bid then Ask else Bid;
            var r := Execute(b, aggressor, qty, ts);
            && r.book.Of(aggressor) == b.Of(aggressor)
            && (forall f :: f in r.fills ==> f.sideOfRestingOrder == opp && f.ts == ts)
            && FillTotal(r.fills) == Min(qty, RestingTotal(Flatten(opp, b.Of(opp))))
  {
    var opp := aggressor.Opposite();
    SweepFillsWithin(opp, b.Of(opp), None, qty, ts);
    OkIsKeyed(opp, b.Of(opp));
    SweepTotal(opp, b.Of(opp), None, qty, ts);
    AllAvailable(opp, Flatten(opp, b.Of(opp)));
  }

  // One fill at a time.

  /** A walk has something to fill. */
  predicate CanFill(side: Side, levels: Levels, limit: Option<Price>, qty: Qty) {
    qty > 0 && levels.Keys != {} && Within(side, Best(side, levels.Keys), limit)
  }

  function FirstFill(side: Side, levels: Levels, qty: Qty, ts: nat): (f: Fill)
    requires levels.Keys != {} && NoEmptyLevel(levels)
    ensures f.qty <= qty && f.sideOfRestingOrder == side
  {
    var p := Best(side, levels.Keys);
    MakeFill(side, p, levels[p][0], Min(levels[p][0].qty, qty), ts)
  }

  /** A walk that fills anything starts by trading the front order of the best level, and
      continues as the same walk over what applying that one trade leaves. */
  lemma SweepFirstFill(side: Side, levels: Levels, limit: Option<Price>, qty: Qty, ts: nat)
      returns (f: Fill, levels': Levels)
    requires NoEmptyLevel(levels) && CanFill(side, levels, limit, qty)
    ensures f == FirstFill(side, levels, qty, ts)
    ensures levels' == ReduceOrder(levels, f.price, f.restingOrderId, f.qty) && NoEmptyLevel(levels')
    ensures var r := Sweep(side, levels', limit, qty - f.qty, ts);
            Sweep(side, levels, limit, qty, ts) == Swept([f] + r.fills, r.levels, r.remaining)
  {
    f := FirstFill(side, levels, qty, ts);
    ReduceFront(levels[f.price], f.qty);
    levels' := Put(levels, f.price, Shrink(levels[f.price], f.qty));
    SweepOneFill(side, levels, limit, qty, ts, f);
  }

  lemma SweepOneFill(side: Side, levels: Levels, limit: Option<Price>, qty: Qty, ts: nat, f: Fill)
    requires NoEmptyLevel(levels) && CanFill(side, levels, limit, qty) && f == FirstFill(side, levels, qty, ts)
    ensures var r := Sweep(side, Put(levels, f.price, Shrink(levels[f.price], f.qty)), limit, qty - f.qty, ts);
            Sweep(side, levels, limit, qty, ts) == Swept([f] + r.fills, r.levels, r.remaining)
  {
    var p, q := f.price, levels[f.price];
    var next := TakeFront(side, p, q, qty, ts);
    var t, r := SweepReplaced(side, levels, q, limit, qty, ts);
    var t', r' := SweepReplaced(side, levels, Shrink(q, f.qty), limit, qty - f.qty, ts);
    assert Put(levels, p, q) == levels;
    FillsReassociate(f, t'.fills, r.fills);
  }

  lemma FillsReassociate(f: Fill, a: seq<Fill>, b: seq<Fill>)
    ensures ([f] + a) + b == [f] + (a + b)
  {
  }

  /** One fill of a queue's walk. */
  lemma TakeFront(side: Side, price: Price, q: seq<Order>, qty: Qty, ts: nat) returns (next: Taken)
    requires q != [] && qty > 0
    ensures var traded := Min(q[0].qty, qty);
            && next == TakeQueue(side, price, Shrink(q, traded), qty - traded, ts)
            && TakeQueue(side, price, q, qty, ts) ==
                 Taken([MakeFill(side, price, q[0], traded, ts)] + next.fills, next.rest, next.remaining)
  {
    var traded := Min(q[0].qty, qty);
    next := TakeQueue(side, price, Shrink(q, traded), qty - traded, ts);
  }

  lemma ReduceFront(q: seq<Order>, traded: Qty)
    requires q != [] && traded <= q[0].qty
    ensures ReduceQueue(q, q[0].id, traded) == Shrink(q, traded)
  {
    PositionIs(q, q[0].id, 0);
    assert q[..0] + q[1..] == q[1..];
  }

  /** The walk after the best queue has been replaced, one level on. */
  lemma SweepReplaced(side: Side, levels: Levels, q: seq<Order>, limit: Option<Price>, qty: Qty, ts: nat)
      returns (t: Taken, r: Swept)
    requires levels.Keys != {} && Within(side, Best(side, levels.Keys), limit)
    ensures t == TakeQueue(side, Best(side, levels.Keys), q, qty, ts)
    ensures r == Sweep(side, levels - {Best(side, levels.Keys)}, limit, t.remaining, ts)
    ensures var p := Best(side, levels.Keys);
            Sweep(side, Put(levels, p, q), limit, qty, ts) ==
              if t.rest == [] then Swept(t.fills + r.fills, r.levels, r.remaining)
              else Swept(t.fills, levels[p := t.rest], t.remaining)
  {
    var p := Best(side, levels.Keys);
    t := TakeQueue(side, p, q, qty, ts);
    r := Sweep(side, levels - {p}, limit, t.remaining, ts);
    assert [] + r.fills == r.fills;
    if q != [] {
      var replaced := levels[p := q];
      assert replaced.Keys == levels.Keys;
      assert replaced - {p} == levels - {p};
      assert replaced[p := t.rest] == levels[p := t.rest];
    }
  }

  /** Nothing is filled exactly when there is nothing to do. */
  lemma SweepNothing(side: Side, levels: Levels, limit: Option<Price>, qty: Qty, ts: nat)
    requires !CanFill(side, levels, limit, qty)
    ensures Sweep(side, levels, limit, qty, ts) == Swept([], levels, qty)
  {
  }
}
