/** The Level-3 feed: replaying events into a book, the discipline a log obeys when an
    exchange emits it, and what delivering only part of such a log does to a replayed book. */
module Feed {
  import opened Types
  import opened Levels

  function Apply(b: Book, e: MarketEvent): Book {
    var levels := b.Of(e.side);
    match e
    case Add(id, side, price, qty, ts, isOurs) =>
      b.With(side, Insert(levels, Order(id, side, price, qty, ts, isOurs)))
    case Cancel(id, side, price, _) =>
      b.With(side, RemoveOrder(levels, price, id))
    case Trade(id, _, side, price, qty, _) =>
      b.With(side, ReduceOrder(levels, price, id, qty))
  }

  function Replay(b: Book, log: seq<MarketEvent>): Book {
    if log == [] then b else Apply(Replay(b, log[..|log| - 1]), log[|log| - 1])
  }

  /** What numbered events say, in the order given. */
  function EventsOf(events: seq<SeqEvent>): (es: seq<MarketEvent>)
    ensures |es| == |events| && forall i :: 0 <= i < |es| ==> es[i] == events[i].event
  {
    seq(|events|, i requires 0 <= i < |events| => events[i].event)
  }

  /** The book a lossless subscriber holds. */
  function Fold(log: seq<MarketEvent>): Book {
    Replay(EMPTY_BOOK, log)
  }

  lemma SameApply(a: Book, b: Book, e: MarketEvent)
    requires SameBook(a, b)
    ensures SameBook(Apply(a, e), Apply(b, e))
  {
    match e
    case Add(id, side, price, qty, ts, isOurs) =>
      var o := Order(id, side, price, qty, ts, isOurs);
      SameInsert(a.Of(side), b.Of(side), o, o);
    case Cancel(id, side, price, _) => SameRemove(a.Of(side), b.Of(side), price, id);
    case Trade(id, _, side, price, qty, _) => SameReduce(a.Of(side), b.Of(side), price, id, qty);
  }

  lemma {:induction false} ReplayAppend(b: Book, x: seq<MarketEvent>, y: seq<MarketEvent>)
    ensures Replay(b, x + y) == Replay(Replay(b, x), y)
    decreases |y|
  {
    if y == [] {
      assert x + y == x;
    } else {
      var y' := y[..|y| - 1];
      ReplayAppend(b, x, y');
      assert (x + y)[..|x + y| - 1] == x + y';
    }
  }

  lemma {:induction false} SameReplay(a: Book, b: Book, log: seq<MarketEvent>)
    requires SameBook(a, b)
    ensures SameBook(Replay(a, log), Replay(b, log))
    decreases |log|
  {
    if log != [] {
      var pre := log[..|log| - 1];
      SameReplay(a, b, pre);
      SameApply(Replay(a, pre), Replay(b, pre), log[|log| - 1]);
    }
  }

  // What a log says about each order.

  /** The Add event of every order the log introduces. */
  function Adds(log: seq<MarketEvent>): (adds: map<OrderId, MarketEvent>)
    ensures forall id :: id in adds ==> adds[id].Add? && adds[id].orderId == id
    decreases |log|
  {
    if log == [] then map[] else
      var e := log[|log| - 1];
      var adds := Adds(log[..|log| - 1]);
      if e.Add? then adds[e.orderId := e] else adds
  }

  predicate HasAdd(log: seq<MarketEvent>, id: OrderId) {
    exists i :: 0 <= i < |log| && log[i].Add? && log[i].orderId == id
  }

  predicate HasCancel(log: seq<MarketEvent>, id: OrderId) {
    exists i :: 0 <= i < |log| && log[i].Cancel? && log[i].orderId == id
  }

  /** Quantity the log reports as traded against an order. */
  function Traded(log: seq<MarketEvent>, id: OrderId): Qty
    decreases |log|
  {
    if log == [] then 0 else
      var e := log[|log| - 1];
      Traded(log[..|log| - 1], id) + if e.Trade? && e.orderId == id then e.qty else 0
  }

  /** First in price-time order on its side: the front order of the best level. */
  predicate IsFirst(side: Side, levels: Levels, price: Price, id: OrderId) {
    levels.Keys != {} && price == Best(side, levels.Keys) && levels[price] != [] && levels[price][0].id == id
  }

  /** What the exchange guarantees about the next event, given the book the log folds to:
      an Add is a new, later id that does not cross; a Cancel names a resting order; a
      Trade hits the first order in priority for no more than it has left. */
  predicate EventOk(adds: map<OrderId, MarketEvent>, b: Book, e: MarketEvent) {
    match e
    case Add(id, side, price, qty, _, _) =>
      && qty > 0
      && (forall k :: k in adds ==> k < id)
      && (side == Bid ==> forall p :: p in b.asks ==> price < p)
      && (side == Ask ==> forall p :: p in b.bids ==> p < price)
    case Cancel(id, side, price, _) =>
      HasOrder(b.Of(side), price, id)
    case Trade(id, isOurs, side, price, qty, _) =>
      && IsFirst(side, b.Of(side), price, id)
      && 0 < qty <= b.Of(side)[price][0].qty
      && isOurs == b.Of(side)[price][0].isOurs
  }

  predicate LogOk(log: seq<MarketEvent>)
    decreases |log|
  {
    log == [] ||
    var pre := log[..|log| - 1];
    LogOk(pre) && EventOk(Adds(pre), Fold(pre), log[|log| - 1])
  }

  /** Every summary of a log extended by one event, in terms of the shorter log. */
  lemma Snoc(log: seq<MarketEvent>, e: MarketEvent)
    ensures Fold(log + [e]) == Apply(Fold(log), e)
    ensures Adds(log + [e]) == if e.Add? then Adds(log)[e.orderId := e] else Adds(log)
    ensures LogOk(log + [e]) == (LogOk(log) && EventOk(Adds(log), Fold(log), e))
  {
    assert (log + [e])[..|log|] == log;
  }

  lemma SnocId(log: seq<MarketEvent>, e: MarketEvent, id: OrderId)
    ensures Traded(log + [e], id) == Traded(log, id) + if e.Trade? && e.orderId == id then e.qty else 0
    ensures HasCancel(log + [e], id) == (HasCancel(log, id) || (e.Cancel? && e.orderId == id))
    ensures HasAdd(log + [e], id) == (HasAdd(log, id) || (e.Add? && e.orderId == id))
  {
    var more := log + [e];
    assert more[..|log|] == log;
    assert forall i :: 0 <= i < |log| ==> more[i] == log[i];
    assert more[|log|] == e;
  }

  lemma SplitLast(log: seq<MarketEvent>)
    requires log != []
    ensures log == log[..|log| - 1] + [log[|log| - 1]]
  {
  }

  // The folded book of a disciplined log.

  /** Every resting order is one the log added, at the place and with the owner it said. */
  ghost predicate Located(adds: map<OrderId, MarketEvent>, side: Side, levels: Levels) {
    forall p, i :: p in levels && 0 <= i < |levels[p]| ==> AddedAs(adds, side, p, levels[p][i])
  }

  predicate AddedAs(adds: map<OrderId, MarketEvent>, side: Side, price: Price, o: Order) {
    && o.id in adds
    && adds[o.id].Add?
    && adds[o.id].orderId == o.id
    && adds[o.id].side == side
    && adds[o.id].price == price
    && adds[o.id].isOurs == o.isOurs
  }

  ghost predicate BookLocated(adds: map<OrderId, MarketEvent>, b: Book) {
    Located(adds, Bid, b.bids) && Located(adds, Ask, b.asks)
  }

  /** A well-formed book stays well formed, and located, under any event that introduces
      only later ids with a quantity: crossing and losses do not matter here. */
  lemma ApplyKeepsBook(adds: map<OrderId, MarketEvent>, b: Book, e: MarketEvent)
    requires BookOk(b) && BookLocated(adds, b)
    requires e.Add? ==> e.qty > 0 && forall k :: k in adds ==> k < e.orderId
    ensures BookOk(Apply(b, e))
    ensures BookLocated(if e.Add? then adds[e.orderId := e] else adds, Apply(b, e))
  {
    var levels := b.Of(e.side);
    match e
    case Add(id, side, price, qty, ts, isOurs) =>
      var o := Order(id, side, price, qty, ts, isOurs);
      var q := QueueAt(levels, price);
      forall i | 0 <= i < |q| ensures q[i].id < id {
        assert AddedAs(adds, side, price, q[i]);
      }
      InsertOk(side, levels, o);
      LocatedWeaken(adds, e, side.Opposite(), b.Of(side.Opposite()));
      LocatedInsert(adds, e, levels, o);
    case Cancel(id, side, price, _) =>
      RemoveOk(side, levels, price, id);
    case Trade(id, _, side, price, qty, _) =>
      ReduceOk(side, levels, price, id, qty);
      LocatedReduce(adds, side, levels, price, id, qty);
  }

  lemma LocatedWeaken(adds: map<OrderId, MarketEvent>, e: MarketEvent, side: Side, levels: Levels)
    requires Located(adds, side, levels) && e.Add? && e.orderId !in adds
    ensures Located(adds[e.orderId := e], side, levels)
  {
    forall p, i | p in levels && 0 <= i < |levels[p]| ensures AddedAs(adds[e.orderId := e], side, p, levels[p][i]) {
      assert AddedAs(adds, side, p, levels[p][i]);
    }
  }

  lemma LocatedInsert(adds: map<OrderId, MarketEvent>, e: MarketEvent, levels: Levels, o: Order)
    requires e.Add? && e.orderId !in adds && Located(adds, e.side, levels)
    requires o.id == e.orderId && o.price == e.price && o.isOurs == e.isOurs
    ensures Located(adds[e.orderId := e], e.side, Insert(levels, o))
  {
    LocatedWeaken(adds, e, e.side, levels);
  }

  lemma LocatedReduce(adds: map<OrderId, MarketEvent>, side: Side, levels: Levels, price: Price, id: OrderId, qty: Qty)
    requires Located(adds, side, levels)
    ensures Located(adds, side, ReduceOrder(levels, price, id, qty))
  {
    var levels' := ReduceOrder(levels, price, id, qty);
    forall p, i | p in levels' && 0 <= i < |levels'[p]| ensures AddedAs(adds, side, p, levels'[p][i]) {
      if p == price {
        var q := levels[price];
        var pos := Position(q, id);
        assert AddedAs(adds, side, p, q[if i < pos || |q| == |levels'[p]| then i else i + 1]);
      } else {
        assert AddedAs(adds, side, p, levels[p][i]);
      }
    }
  }

  lemma ApplyKeepsUncrossed(adds: map<OrderId, MarketEvent>, b: Book, e: MarketEvent)
    requires Uncrossed(b) && EventOk(adds, b, e)
    ensures Uncrossed(Apply(b, e))
  {
  }

  lemma {:induction false} AddsAreAdds(log: seq<MarketEvent>, id: OrderId)
    ensures id in Adds(log) <==> HasAdd(log, id)
    ensures id in Adds(log) ==> Adds(log)[id].Add? && Adds(log)[id].orderId == id && Adds(log)[id] in log
    decreases |log|
  {
    if log != [] {
      var pre := log[..|log| - 1];
      AddsAreAdds(pre, id);
      SplitLast(log);
      SnocId(pre, log[|log| - 1], id);
    }
  }

  /** The book a disciplined log folds to is well formed and, after every event, uncrossed. */
  lemma {:induction false} FoldOk(log: seq<MarketEvent>)
    requires LogOk(log)
    ensures BookOk(Fold(log)) && BookLocated(Adds(log), Fold(log)) && Uncrossed(Fold(log))
    decreases |log|
  {
    if log != [] {
      var pre, e := log[..|log| - 1], log[|log| - 1];
      FoldOk(pre);
      ApplyKeepsBook(Adds(pre), Fold(pre), e);
      ApplyKeepsUncrossed(Adds(pre), Fold(pre), e);
    }
  }

  lemma {:induction false} PrefixOk(log: seq<MarketEvent>, n: nat)
    requires LogOk(log) && n <= |log|
    ensures LogOk(log[..n])
    ensures n < |log| ==> EventOk(Adds(log[..n]), Fold(log[..n]), log[n])
    decreases |log|
  {
    if n == |log| {
      assert log[..n] == log;
    } else if n < |log| - 1 {
      PrefixOk(log[..|log| - 1], n);
      assert log[..|log| - 1][..n] == log[..n];
    }
  }

  // Timestamps.

  /** Every order carries the timestamp of its Add. */
  ghost predicate Stamped(adds: map<OrderId, MarketEvent>, levels: Levels) {
    forall p, i :: p in levels && 0 <= i < |levels[p]| ==> StampedAs(adds, levels[p][i])
  }

  predicate StampedAs(adds: map<OrderId, MarketEvent>, o: Order) {
    o.id in adds && adds[o.id].ts == o.ts
  }

  lemma StampsWeaken(adds: map<OrderId, MarketEvent>, e: MarketEvent, levels: Levels)
    requires Stamped(adds, levels) && e.Add? && e.orderId !in adds
    ensures Stamped(adds[e.orderId := e], levels)
  {
    forall p, i | p in levels && 0 <= i < |levels[p]| ensures StampedAs(adds[e.orderId := e], levels[p][i]) {
      assert StampedAs(adds, levels[p][i]);
    }
  }

  lemma StampsReduce(adds: map<OrderId, MarketEvent>, levels: Levels, price: Price, id: OrderId, qty: Qty)
    requires Stamped(adds, levels)
    ensures Stamped(adds, ReduceOrder(levels, price, id, qty)) && Stamped(adds, RemoveOrder(levels, price, id))
  {
    if price in levels {
      var q := levels[price];
      var pos := Position(q, id);
      forall i | 0 <= i < |q| ensures StampedAs(adds, q[i]) {}
      forall q' | q' == ReduceQueue(q, id, qty) || (pos < |q| && q' == q[..pos] + q[pos + 1..])
        ensures forall i :: 0 <= i < |q'| ==> StampedAs(adds, q'[i])
      {
        forall i | 0 <= i < |q'| ensures StampedAs(adds, q'[i]) {
          assert StampedAs(adds, q[if i < pos || |q'| == |q| then i else i + 1]);
        }
      }
    }
  }

  /** Replay stamps every order with the time its Add reported. */
  lemma {:induction false} FoldStamps(log: seq<MarketEvent>)
    requires LogOk(log)
    ensures Stamped(Adds(log), Fold(log).bids) && Stamped(Adds(log), Fold(log).asks)
    decreases |log|
  {
    if log != [] {
      var pre, e := log[..|log| - 1], log[|log| - 1];
      FoldStamps(pre);
      var b := Fold(pre);
      if e.Add? {
        StampsWeaken(Adds(pre), e, b.bids);
        StampsWeaken(Adds(pre), e, b.asks);
      } else {
        StampsReduce(Adds(pre), b.Of(e.side), e.price, e.orderId, if e.Trade? then e.qty else 0);
      }
    }
  }
}
