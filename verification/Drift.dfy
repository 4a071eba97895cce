/** What a lossy subscriber holds: an exact, per-order account of a book replayed from any
    in-order part of a disciplined log, and how it differs from the true book. */
module Drift {
  import opened Types
  import opened Levels
  import opened Feed

  /** The events that survive, in order. */
  function Kept(log: seq<MarketEvent>, keep: seq<bool>): (sub: seq<MarketEvent>)
    requires |keep| == |log|
    decreases |log|
  {
    if log == [] then [] else
      var n := |log| - 1;
      Kept(log[..n], keep[..n]) + if keep[n] then [log[n]] else []
  }

  /** A Cancel or Trade names an order already added, at its own side and price, with
      at least the traded quantity left. */
  lemma {:induction false} EventNamesAdded(log: seq<MarketEvent>, e: MarketEvent)
    requires LogOk(log) && EventOk(Adds(log), Fold(log), e) && !e.Add?
    ensures e.orderId in Adds(log)
    ensures var a := Adds(log)[e.orderId];
            && a.Add? && a.side == e.side && a.price == e.price
            && (e.Trade? ==> a.isOurs == e.isOurs)
    ensures RestingQty(Fold(log).Of(e.side), e.price, e.orderId) > 0
    ensures e.Trade? ==> e.qty <= RestingQty(Fold(log).Of(e.side), e.price, e.orderId)
  {
    FoldOk(log);
    var q := QueueAt(Fold(log).Of(e.side), e.price);
    if e.Trade? { PositionIs(q, e.orderId, 0); }
    assert AddedAs(Adds(log), e.side, e.price, q[Position(q, e.orderId)]);
  }

  /** A book replayed from part of a log is well formed and holds only delivered orders. */
  ghost predicate ShadowOk(log: seq<MarketEvent>, sub: seq<MarketEvent>) {
    && BookOk(Fold(sub)) && BookLocated(Adds(sub), Fold(sub))
    && (forall id :: id in Adds(sub) ==> id in Adds(log) && Adds(sub)[id] == Adds(log)[id])
  }

  lemma ShadowStep(log: seq<MarketEvent>, sub: seq<MarketEvent>, e: MarketEvent, kept: bool)
    requires LogOk(log) && EventOk(Adds(log), Fold(log), e) && ShadowOk(log, sub)
    ensures ShadowOk(log + [e], if kept then sub + [e] else sub)
  {
    Snoc(log, e);
    Snoc(sub, e);
    ApplyKeepsBook(Adds(sub), Fold(sub), e);
  }

  /** The account of one order: nothing before its Add; afterwards what was added less what
      was traded, until a cancel. `sub` is the delivered part of `log`. */
  ghost predicate LawAt(log: seq<MarketEvent>, sub: seq<MarketEvent>, id: OrderId) {
    && (HasCancel(sub, id) ==> HasCancel(log, id))
    && (HasAdd(sub, id) ==> HasAdd(log, id))
    && Traded(sub, id) <= Traded(log, id)
    && if id !in Adds(log) then
         Traded(sub, id) == 0 && !HasCancel(sub, id) && !HasAdd(sub, id)
       else
         var a := Adds(log)[id];
         && a.Add? && Traded(log, id) <= a.qty
         && (HasCancel(log, id) ==> Traded(log, id) < a.qty)
         && RestingQty(Fold(sub).Of(a.side), a.price, id) ==
              if HasAdd(sub, id) && !HasCancel(sub, id) then a.qty - Traded(sub, id) else 0
  }

  /** Any order found in a replayed book was delivered as it stands. */
  lemma FoundWasAdded(sub: seq<MarketEvent>, side: Side, price: Price, id: OrderId)
    requires BookLocated(Adds(sub), Fold(sub)) && HasOrder(Fold(sub).Of(side), price, id)
    ensures id in Adds(sub) && Adds(sub)[id].side == side && Adds(sub)[id].price == price
  {
    var q := QueueAt(Fold(sub).Of(side), price);
    assert AddedAs(Adds(sub), side, price, q[Position(q, id)]);
  }

  /** How one event changes the quantity of the order at a fixed side and price. */
  lemma ApplyResting(b: Book, e: MarketEvent, side: Side, price: Price, id: OrderId)
    requires BookOk(b)
    requires e.Add? && e.orderId == id ==> !HasOrder(b.Of(e.side), e.price, id)
    ensures var before := RestingQty(b.Of(side), price, id);
            RestingQty(Apply(b, e).Of(side), price, id) ==
              if e.side != side || e.price != price || e.orderId != id then before
              else match e
                   case Add(_, _, _, qty, _, _) => qty
                   case Cancel(_, _, _, _) => 0
                   case Trade(_, _, _, _, qty, _) => if before <= qty then 0 else before - qty
  {
    if e.side == side {
      var levels := b.Of(side);
      match e
      case Add(id', _, price', qty, ts, isOurs) =>
        InsertResting(levels, Order(id', side, price', qty, ts, isOurs), price, id);
      case Cancel(id', _, price', _) => RemoveResting(side, levels, price', id', price, id);
      case Trade(id', _, _, price', qty, _) => ReduceResting(side, levels, price', id', qty, price, id);
    }
  }

  lemma {:induction false} LawStep(log: seq<MarketEvent>, sub: seq<MarketEvent>, e: MarketEvent, kept: bool,
                                   id: OrderId)
    requires LogOk(log) && EventOk(Adds(log), Fold(log), e)
    requires ShadowOk(log, sub) && LawAt(log, log, id) && LawAt(log, sub, id)
    ensures LawAt(log + [e], if kept then sub + [e] else sub, id)
  {
    Snoc(log, e);
    Snoc(sub, e);
    SnocId(log, e, id);
    SnocId(sub, e, id);
    AddsAreAdds(log, id);
    AddsAreAdds(sub, id);
    if !e.Add? { EventNamesAdded(log, e); }
    if e.Add? && HasOrder(Fold(sub).Of(e.side), e.price, e.orderId) {
      FoundWasAdded(sub, e.side, e.price, e.orderId);
    }
    if id in Adds(log) {
      var a := Adds(log)[id];
      ApplyResting(Fold(sub), e, a.side, a.price, id);
    } else if e.Add? && e.orderId == id {
      ApplyResting(Fold(sub), e, e.side, e.price, id);
    }
  }

  lemma {:induction false} FullLaw(log: seq<MarketEvent>, id: OrderId)
    requires LogOk(log)
    ensures LawAt(log, log, id) && ShadowOk(log, log)
    decreases |log|
  {
    FoldOk(log);
    if log != [] {
      var pre, e := log[..|log| - 1], log[|log| - 1];
      FullLaw(pre, id);
      LawStep(pre, pre, e, true, id);
      SplitLast(log);
    }
  }

  /** The account holds for every order and every pattern of losses. */
  lemma {:induction false} ShadowLaw(log: seq<MarketEvent>, keep: seq<bool>, id: OrderId)
    requires LogOk(log) && |keep| == |log|
    ensures LawAt(log, Kept(log, keep), id) && ShadowOk(log, Kept(log, keep))
    decreases |log|
  {
    if log != [] {
      var n := |log| - 1;
      ShadowLaw(log[..n], keep[..n], id);
      FullLaw(log[..n], id);
      ShadowStep(log[..n], Kept(log[..n], keep[..n]), log[n], keep[n]);
      LawStep(log[..n], Kept(log[..n], keep[..n]), log[n], keep[n], id);
      SplitLast(log);
      var sub := Kept(log[..n], keep[..n]);
      assert sub + [] == sub;
    }
  }

  /** Remaining quantity of an order the log added, in a book. */
  function OrderQty(b: Book, a: MarketEvent): Qty {
    RestingQty(b.Of(a.side), a.price, a.orderId)
  }

  /** Drift is one-sided and exactly accounted for: an order that still rests in the true
      book and whose Add arrived rests in the shadow with its true quantity plus precisely
      the traded quantity that was lost. */
  lemma {:induction false} DriftIsLostTrades(log: seq<MarketEvent>, keep: seq<bool>, id: OrderId)
    requires LogOk(log) && |keep| == |log| && id in Adds(log)
    requires OrderQty(Fold(log), Adds(log)[id]) > 0 && HasAdd(Kept(log, keep), id)
    ensures var a, sub := Adds(log)[id], Kept(log, keep);
            && OrderQty(Fold(sub), a) == OrderQty(Fold(log), a) + (Traded(log, id) - Traded(sub, id))
            && OrderQty(Fold(sub), a) >= OrderQty(Fold(log), a)
  {
    AddsAreAdds(log, id);
    FullLaw(log, id);
    ShadowLaw(log, keep, id);
  }

  /** A ghost order, resting in the shadow but gone from the true book, appears exactly when
      its Add arrived and either its Cancel was lost, or it was never cancelled and some of
      its traded quantity was lost. */
  lemma {:induction false} GhostIff(log: seq<MarketEvent>, keep: seq<bool>, id: OrderId)
    requires LogOk(log) && |keep| == |log| && id in Adds(log)
    requires OrderQty(Fold(log), Adds(log)[id]) == 0
    ensures var a, sub := Adds(log)[id], Kept(log, keep);
            OrderQty(Fold(sub), a) > 0 <==>
              && HasAdd(sub, id)
              && !HasCancel(sub, id)
              && (HasCancel(log, id) || Traded(sub, id) < Traded(log, id))
  {
    AddsAreAdds(log, id);
    FullLaw(log, id);
    ShadowLaw(log, keep, id);
  }

  /** Every order in the shadow is one whose Add was delivered, at its own side and price. */
  lemma {:induction false} ShadowOnlyDelivered(log: seq<MarketEvent>, keep: seq<bool>, side: Side, price: Price,
                                               id: OrderId)
    requires LogOk(log) && |keep| == |log|
    requires HasOrder(Fold(Kept(log, keep)).Of(side), price, id)
    ensures HasAdd(Kept(log, keep), id) && id in Adds(log)
    ensures Adds(log)[id].side == side && Adds(log)[id].price == price
  {
    ShadowLaw(log, keep, id);
    FoundWasAdded(Kept(log, keep), side, price, id);
    AddsAreAdds(Kept(log, keep), id);
  }

  // Conservation.

  /** Quantity an order still had when it was cancelled. */
  function CancelledQty(log: seq<MarketEvent>, id: OrderId): Qty
    decreases |log|
  {
    if log == [] then 0 else
      var pre, e := log[..|log| - 1], log[|log| - 1];
      CancelledQty(pre, id) +
      if e.Cancel? && e.orderId == id then RestingQty(Fold(pre).Of(e.side), e.price, id) else 0
  }

  lemma {:induction false} CancelledIs(log: seq<MarketEvent>, id: OrderId)
    requires LogOk(log)
    ensures CancelledQty(log, id) ==
            if id in Adds(log) && HasCancel(log, id) then Adds(log)[id].qty - Traded(log, id) else 0
    decreases |log|
  {
    if log != [] {
      var pre, e := log[..|log| - 1], log[|log| - 1];
      CancelledIs(pre, id);
      SplitLast(log);
      SnocId(pre, e, id);
      Snoc(pre, e);
      FullLaw(pre, id);
      FullLaw(log, id);
      AddsAreAdds(pre, id);
      if !e.Add? { EventNamesAdded(pre, e); }
    }
  }

  /** Per order, over any disciplined log: added = traded + cancelled + still resting. */
  lemma {:induction false} QuantityConserved(log: seq<MarketEvent>, id: OrderId)
    requires LogOk(log) && id in Adds(log)
    ensures Adds(log)[id].qty ==
            Traded(log, id) + CancelledQty(log, id) + OrderQty(Fold(log), Adds(log)[id])
  {
    AddsAreAdds(log, id);
    FullLaw(log, id);
    CancelledIs(log, id);
  }
}
