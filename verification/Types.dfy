/** The vocabulary shared by every component (engine/src/types.rs).
    Prices are integer ticks; ids, quantities, sequence numbers and
    timestamps are unsigned and, here, unbounded. */
module Types {

  datatype Option<+T> = None | Some(value: T)

  type Price = int
  type Qty = nat
  type OrderId = nat

  datatype Side = Bid | Ask {
    function Opposite(): Side {
      match this
      case Bid => Ask
      case Ask => Bid
    }
  }

  datatype Order = Order(id: OrderId, side: Side, price: Price, qty: Qty, ts: nat, isOurs: bool)

  datatype Fill = Fill(
    restingOrderId: OrderId, restingIsOurs: bool, sideOfRestingOrder: Side, price: Price, qty: Qty, ts: nat)

  /** Level-3 market data: one event for each order added, cancelled or hit. */
  datatype MarketEvent =
    | Add(orderId: OrderId, side: Side, price: Price, qty: Qty, ts: nat, isOurs: bool)
    | Cancel(orderId: OrderId, side: Side, price: Price, ts: nat)
    | Trade(orderId: OrderId, isOurs: bool, side: Side, price: Price, qty: Qty, ts: nat)

  /** One line of a published snapshot: (id, price, qty, is_ours). */
  datatype Entry = Entry(id: OrderId, price: Price, qty: Qty, isOurs: bool)

  datatype BookResync = BookResync(bids: seq<Entry>, asks: seq<Entry>, seqAtSnapshot: nat)

  datatype SeqEvent = SeqEvent(seqNo: nat, event: MarketEvent)

  datatype StrategyCommand =
    | Quote(bidPrice: Price, bidQty: Qty, askPrice: Price, askQty: Qty)
    | CancelAll

  function Min(a: nat, b: nat): nat { if a <= b then a else b }

  function Max(a: int, b: int): int { if a <= b then b else a }
}
