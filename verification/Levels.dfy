/** One side of a book as price levels of FIFO queues, the primitive edits the
    source makes to it, and equality of books that ignores timestamps. */
module Levels {
  import opened Types

  type Levels = map<Price, seq<Order>>

  datatype Book = Book(bids: Levels, asks: Levels) {
    function Of(side: Side): Levels {
      if side == Bid then bids else asks
    }

    function With(side: Side, levels: Levels): Book {
      if side == Bid then Book(levels, asks) else Book(bids, levels)
    }
  }

  const EMPTY_BOOK := Book(map[], map[])

  /** Distance from the touch: a smaller rank is a better resting price. */
  function Rank(side: Side, price: Price): int {
    if side == Ask then price else -price
  }

  ghost predicate IsBest(side: Side, prices: set<Price>, best: Price) {
    best in prices && forall p :: p in prices ==> Rank(side, best) <= Rank(side, p)
  }

  lemma Pick<T>(s: set<T>) returns (x: T)
    requires s != {}
    ensures x in s
  {
    x :| x in s;
  }

  lemma {:induction false} BestExists(side: Side, prices: set<Price>)
    requires prices != {}
    ensures exists best :: IsBest(side, prices, best)
    decreases |prices|
  {
    var p := Pick(prices);
    if prices == {p} {
      assert IsBest(side, prices, p);
    } else {
      BestExists(side, prices - {p});
      var b :| IsBest(side, prices - {p}, b);
      assert IsBest(side, prices, if Rank(side, b) <= Rank(side, p) then b else p);
    }
  }

  /** The first key an ordered map yields in the priority order of a side. */
  function Best(side: Side, prices: set<Price>): (best: Price)
    requires prices != {}
    ensures IsBest(side, prices, best)
  {
    BestExists(side, prices);
    var b :| b in prices && forall p :: p in prices ==> Rank(side, b) <= Rank(side, p);
    b
  }

  /** All keys in the priority order of a side. */
  function SortedPrices(side: Side, prices: set<Price>): (ps: seq<Price>)
    decreases |prices|
  {
    if prices == {} then [] else
      var b := Best(side, prices);
      [b] + SortedPrices(side, prices - {b})
  }

  ghost predicate IsPosition(q: seq<Order>, id: OrderId, pos: nat) {
    && pos <= |q|
    && (pos < |q| ==> q[pos].id == id)
    && forall i :: 0 <= i < pos ==> q[i].id != id
  }

  lemma {:induction false} PositionExists(q: seq<Order>, id: OrderId)
    ensures exists pos :: IsPosition(q, id, pos)
  {
    if q == [] {
      assert IsPosition(q, id, 0);
    } else {
      var n := |q| - 1;
      PositionExists(q[..n], id);
      var pos: nat :| IsPosition(q[..n], id, pos);
      assert forall i :: 0 <= i < n ==> q[..n][i] == q[i];
      assert IsPosition(q, id, if pos < n || q[n].id == id then pos else n + 1);
    }
  }

  /** Index of the first order with this id, or the length when there is none. */
  function Position(q: seq<Order>, id: OrderId): (pos: nat)
    ensures IsPosition(q, id, pos)
  {
    PositionExists(q, id);
    var pos: nat :| && pos <= |q|
                    && (pos < |q| ==> q[pos].id == id)
                    && forall i :: 0 <= i < pos ==> q[i].id != id;
    pos
  }

  /** The position is the only index with that id and no earlier match. */
  lemma PositionIs(q: seq<Order>, id: OrderId, k: nat)
    requires k <= |q| && (k < |q| ==> q[k].id == id)
    requires forall i :: 0 <= i < k ==> q[i].id != id
    ensures Position(q, id) == k
  {
    var pos := Position(q, id);
    if k < |q| { assert !(k < pos); }
    if pos < |q| { assert !(pos < k); }
  }

  lemma SameIdsSamePosition(a: seq<Order>, b: seq<Order>, id: OrderId)
    requires |a| == |b| && forall i :: 0 <= i < |a| ==> a[i].id == b[i].id
    ensures Position(a, id) == Position(b, id)
  {
    PositionIs(b, id, Position(a, id));
  }

  lemma AppendPosition(q: seq<Order>, o: Order, id: OrderId)
    ensures Position(q + [o], id) ==
            if Position(q, id) < |q| || o.id == id then Position(q, id) else |q| + 1
  {
    PositionIs(q + [o], id,
               if Position(q, id) < |q| || o.id == id then Position(q, id) else |q| + 1);
  }

  /** Stores a queue at a level, dropping the level when the queue is empty. */
  function Put(levels: Levels, price: Price, q: seq<Order>): Levels {
    if q == [] then levels - {price} else levels[price := q]
  }

  function QueueAt(levels: Levels, price: Price): seq<Order> {
    if price in levels then levels[price] else []
  }

  function Insert(levels: Levels, o: Order): Levels {
    levels[o.price := QueueAt(levels, o.price) + [o]]
  }

  predicate HasOrder(levels: Levels, price: Price, id: OrderId) {
    Position(QueueAt(levels, price), id) < |QueueAt(levels, price)|
  }

  function RemoveOrder(levels: Levels, price: Price, id: OrderId): Levels {
    var q := QueueAt(levels, price);
    var pos := Position(q, id);
    if pos < |q| then Put(levels, price, q[..pos] + q[pos + 1..]) else levels
  }

  function ReduceQueue(q: seq<Order>, id: OrderId, traded: Qty): seq<Order> {
    var pos := Position(q, id);
    if pos == |q| then q
    else if traded >= q[pos].qty then q[..pos] + q[pos + 1..]
    else q[pos := q[pos].(qty := q[pos].qty - traded)]
  }

  function ReduceOrder(levels: Levels, price: Price, id: OrderId, traded: Qty): Levels {
    if price in levels then Put(levels, price, ReduceQueue(levels[price], id, traded)) else levels
  }

  function QtyIn(q: seq<Order>, id: OrderId): Qty {
    if Position(q, id) < |q| then q[Position(q, id)].qty else 0
  }

  /** Remaining quantity of the order named (price, id); zero when absent. */
  function RestingQty(levels: Levels, price: Price, id: OrderId): Qty {
    QtyIn(QueueAt(levels, price), id)
  }

  /** A queue as the matcher leaves it: not empty, every order at its own side
      and price with quantity left, and arrival (id) order from front to back. */
  ghost predicate QueueOk(side: Side, price: Price, q: seq<Order>) {
    && q != []
    && (forall i :: 0 <= i < |q| ==> q[i].side == side && q[i].price == price && q[i].qty > 0)
    && (forall i, j :: 0 <= i < j < |q| ==> q[i].id < q[j].id)
  }

  ghost predicate LevelsOk(side: Side, levels: Levels) {
    forall p :: p in levels ==> QueueOk(side, p, levels[p])
  }

  ghost predicate BookOk(b: Book) {
    LevelsOk(Bid, b.bids) && LevelsOk(Ask, b.asks)
  }

  ghost predicate Uncrossed(b: Book) {
    forall x, y :: x in b.bids && y in b.asks ==> x < y
  }

  // Equality up to timestamps.

  predicate SameOrder(a: Order, b: Order) { a.(ts := b.ts) == b }

  ghost predicate SameQueue(a: seq<Order>, b: seq<Order>) {
    |a| == |b| && forall i :: 0 <= i < |a| ==> SameOrder(a[i], b[i])
  }

  ghost predicate SameLevels(a: Levels, b: Levels) {
    a.Keys == b.Keys && forall p :: p in a ==> SameQueue(a[p], b[p])
  }

  ghost predicate SameBook(a: Book, b: Book) {
    SameLevels(a.bids, b.bids) && SameLevels(a.asks, b.asks)
  }

  lemma SameInsert(a: Levels, b: Levels, o: Order, p: Order)
    requires SameLevels(a, b) && SameOrder(o, p)
    ensures SameLevels(Insert(a, o), Insert(b, p))
  {
  }

  lemma SamePosition(a: seq<Order>, b: seq<Order>, id: OrderId)
    requires SameQueue(a, b)
    ensures Position(a, id) == Position(b, id)
  {
    SameIdsSamePosition(a, b, id);
  }

  lemma SameRemove(a: Levels, b: Levels, price: Price, id: OrderId)
    requires SameLevels(a, b)
    ensures SameLevels(RemoveOrder(a, price, id), RemoveOrder(b, price, id))
    ensures HasOrder(a, price, id) == HasOrder(b, price, id)
  {
    SamePosition(QueueAt(a, price), QueueAt(b, price), id);
  }

  lemma SameReduce(a: Levels, b: Levels, price: Price, id: OrderId, traded: Qty)
    requires SameLevels(a, b)
    ensures SameLevels(ReduceOrder(a, price, id, traded), ReduceOrder(b, price, id, traded))
  {
    SamePosition(QueueAt(a, price), QueueAt(b, price), id);
  }

  lemma SameResting(a: Levels, b: Levels, price: Price, id: OrderId)
    requires SameLevels(a, b)
    ensures RestingQty(a, price, id) == RestingQty(b, price, id)
  {
    SamePosition(QueueAt(a, price), QueueAt(b, price), id);
  }

  lemma SameLevelsOk(side: Side, a: Levels, b: Levels)
    requires SameLevels(a, b) && LevelsOk(side, a)
    ensures LevelsOk(side, b)
  {
    forall p | p in b ensures QueueOk(side, p, b[p]) {
      assert QueueOk(side, p, a[p]) && SameQueue(a[p], b[p]);
      forall i | 0 <= i < |b[p]| ensures b[p][i].side == side && b[p][i].price == p && b[p][i].qty > 0 {
        assert SameOrder(a[p][i], b[p][i]);
      }
      forall i, j | 0 <= i < j < |b[p]| ensures b[p][i].id < b[p][j].id {
        assert SameOrder(a[p][i], b[p][i]) && SameOrder(a[p][j], b[p][j]);
      }
    }
  }

  // What one edit does to well-formedness and to the quantity of any order.

  lemma InsertOk(side: Side, levels: Levels, o: Order)
    requires LevelsOk(side, levels) && o.side == side && o.qty > 0
    requires forall i :: 0 <= i < |QueueAt(levels, o.price)| ==> QueueAt(levels, o.price)[i].id < o.id
    ensures LevelsOk(side, Insert(levels, o))
  {
  }

  lemma RemoveOk(side: Side, levels: Levels, price: Price, id: OrderId)
    requires LevelsOk(side, levels)
    ensures LevelsOk(side, RemoveOrder(levels, price, id))
  {
  }

  lemma ReduceOk(side: Side, levels: Levels, price: Price, id: OrderId, traded: Qty)
    requires LevelsOk(side, levels)
    ensures LevelsOk(side, ReduceOrder(levels, price, id, traded))
  {
  }

  /** First match is the only match, so a position is determined by its order. */
  lemma PositionUnique(side: Side, price: Price, q: seq<Order>, k: nat)
    requires QueueOk(side, price, q) && k < |q|
    ensures Position(q, q[k].id) == k
  {
    PositionIs(q, q[k].id, k);
  }

  lemma InsertResting(levels: Levels, o: Order, price: Price, id: OrderId)
    ensures (price != o.price || id != o.id) ==>
              RestingQty(Insert(levels, o), price, id) == RestingQty(levels, price, id)
    ensures price == o.price && id == o.id && !HasOrder(levels, price, id) ==>
              RestingQty(Insert(levels, o), price, id) == o.qty
  {
    var q := QueueAt(levels, price);
    if price == o.price {
      AppendPosition(q, o, id);
    }
  }

  lemma RemoveResting(side: Side, levels: Levels, price: Price, id: OrderId, price': Price, id': OrderId)
    requires LevelsOk(side, levels)
    ensures (price' != price || id' != id) ==>
              RestingQty(RemoveOrder(levels, price, id), price', id') == RestingQty(levels, price', id')
    ensures RestingQty(RemoveOrder(levels, price, id), price, id) == 0
    ensures !HasOrder(RemoveOrder(levels, price, id), price, id)
  {
    var q := QueueAt(levels, price);
    var pos := Position(q, id);
    if pos < |q| {
      DropResting(side, price, q, pos, id);
      DropResting(side, price, q, pos, id');
    }
  }

  /** Removing index `pos` leaves every other order findable and unchanged. */
  lemma DropResting(side: Side, price: Price, q: seq<Order>, pos: nat, id: OrderId)
    requires QueueOk(side, price, q) && pos < |q|
    ensures var r := q[..pos] + q[pos + 1..];
            var i, j := Position(q, id), Position(r, id);
            if id == q[pos].id then j == |r|
            else (i < |q| <==> j < |r|) && (i < |q| ==> q[i] == r[j])
  {
    var r := q[..pos] + q[pos + 1..];
    var i, j := Position(q, id), Position(r, id);
    assert forall k :: 0 <= k < |r| ==> r[k] == if k < pos then q[k] else q[k + 1];
    if j < |r| {
      PositionUnique(side, price, q, if j < pos then j else j + 1);
    }
    if i < |q| && i != pos {
      assert r[if i < pos then i else i - 1] == q[i];
    }
  }

  lemma ReduceQueueQty(side: Side, price: Price, q: seq<Order>, id: OrderId, traded: Qty, id': OrderId)
    requires QueueOk(side, price, q)
    ensures QtyIn(ReduceQueue(q, id, traded), id') ==
            if id' != id then QtyIn(q, id')
            else if QtyIn(q, id) <= traded then 0 else QtyIn(q, id) - traded
  {
    var pos := Position(q, id);
    if pos < |q| {
      if traded >= q[pos].qty {
        DropResting(side, price, q, pos, id');
      } else {
        var r := q[pos := q[pos].(qty := q[pos].qty - traded)];
        SameIdsSamePosition(q, r, id');
        if id' != id && Position(q, id') < |q| { assert q[Position(q, id')].id != q[pos].id; }
      }
    }
  }

  lemma ReduceResting(side: Side, levels: Levels, price: Price, id: OrderId, traded: Qty, price': Price, id': OrderId)
    requires LevelsOk(side, levels)
    ensures (price' != price || id' != id) ==>
              RestingQty(ReduceOrder(levels, price, id, traded), price', id') == RestingQty(levels, price', id')
    ensures RestingQty(ReduceOrder(levels, price, id, traded), price, id) ==
              (if RestingQty(levels, price, id) <= traded then 0 else RestingQty(levels, price, id) - traded)
  {
    if price in levels {
      var q := levels[price];
      ReduceQueueQty(side, price, q, id, traded, id);
      ReduceQueueQty(side, price, q, id, traded, id');
      assert QueueAt(ReduceOrder(levels, price, id, traded), price) == ReduceQueue(q, id, traded);
    }
  }

  /** An order found by name in a well-formed side has quantity left. */
  lemma HasOrderIsResting(side: Side, levels: Levels, price: Price, id: OrderId)
    requires LevelsOk(side, levels)
    ensures HasOrder(levels, price, id) <==> RestingQty(levels, price, id) > 0
  {
  }
}
