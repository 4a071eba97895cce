/** The strategy thread's state as its loop updates it, each part proved equal to the
    corresponding function of `Strategies`. */
module StrategyThreads {
  import opened Types
  import opened OrderBooks
  import opened RingBuffers
  import opened Strategies
  import Risk

  class StrategyThread {
    const shadowBook: OrderBook
    const killSwitch: Risk.KillSwitch
    var inventory: int
    var cash: int
    var tradesCount: nat
    var ourBidPrice: Price
    var ourAskPrice: Price
    var haveQuotes: bool
    var highestSeqApplied: nat
    var lastKnownLostEvents: nat

    function State(): Strategy
      reads this, shadowBook, killSwitch
    {
      Strategy(shadowBook.State(), inventory, cash, tradesCount, ourBidPrice, ourAskPrice, haveQuotes,
               highestSeqApplied, lastKnownLostEvents, killSwitch.State())
    }

    constructor ()
      ensures State() == INIT_STRATEGY && killSwitch.limits == LIMITS
      ensures fresh(shadowBook) && fresh(killSwitch)
    {
      shadowBook := new OrderBook();
      killSwitch := new Risk.KillSwitch(LIMITS);
      inventory, cash, tradesCount := 0, 0, 0;
      ourBidPrice, ourAskPrice, haveQuotes := 0, 0, false;
      highestSeqApplied, lastKnownLostEvents := 0, 0;
    }

    method Handle(se: SeqEvent)
      modifies this, shadowBook
      ensures State() == OnEvent(old(State()), se)
    {
      highestSeqApplied := Max(highestSeqApplied, se.seqNo);
      match se.event
      case Add(id, side, price, qty, ts, isOurs) =>
        shadowBook.InsertRestingOrder(id, side, price, qty, ts, isOurs);
        if isOurs {
          match side {
            case Bid => ourBidPrice := price;
            case Ask => ourAskPrice := price;
          }
          haveQuotes := true;
        }
      case Cancel(id, side, price, _) =>
        var _ := shadowBook.CancelOrder(side, price, id);
      case Trade(id, isOurs, side, price, qty, _) =>
        shadowBook.ApplyTrade(side, price, id, qty);
        if isOurs {
          tradesCount := tradesCount + 1;
          match side {
            case Bid =>
              inventory := inventory + qty;
              cash := cash - qty * price;
            case Ask =>
              inventory := inventory - qty;
              cash := cash + qty * price;
          }
        }
    }

    /** Pops and replays everything currently in the ring. */
    method Drain(ring: RingBuffer<SeqEvent>)
      requires ring.Valid()
      modifies this, shadowBook, ring
      ensures ring.Valid() && ring.Contents == []
      ensures State() == Drained(old(State()), old(ring.Contents))
    {
      ghost var start, pending := State(), ring.Contents;
      ghost var done := 0;
      var next := ring.TryPop();
      while next.Some?
        invariant ring.Valid() && 0 <= done <= |pending|
        invariant State() == Drained(start, pending[..done])
        invariant if next.Some? then
                    && done < |pending| && next.value == pending[done]
                    && ring.Contents == pending[done + 1..]
                  else
                    done == |pending| && ring.Contents == []
        decreases |pending| - done
      {
        assert pending[..done + 1][..done] == pending[..done];
        Handle(next.value);
        done := done + 1;
        next := ring.TryPop();
      }
      assert pending[..done] == pending;
    }

    /** Takes the published snapshot when loss was reported and the gate allows it. */
    method Resync(currentLost: nat, snap: BookResync, ts: nat)
      modifies this, shadowBook
      ensures State() == PullResync(old(State()), currentLost, snap, ts)
    {
      if currentLost > lastKnownLostEvents {
        var isActuallyNewer := snap.seqAtSnapshot > highestSeqApplied;
        if isActuallyNewer && (snap.bids != [] || snap.asks != []) {
          shadowBook.RebuildFromResync(snap, ts);
          highestSeqApplied := snap.seqAtSnapshot;
          ourBidPrice := FirstOurs(snap.bids, ourBidPrice);
          ourAskPrice := FirstOurs(snap.asks, ourAskPrice);
        }
        lastKnownLostEvents := currentLost;
      }
    }

    /** Evaluates the kill switch, then pushes a cancel-all or a quote into the command ring,
        where a full ring loses it and the strategy carries on regardless. */
    method Act(commands: RingBuffer<StrategyCommand>,
               pnl: real, var95: real, manualKill: bool, bidTicks: Price, askTicks: Price)
      requires killSwitch.limits == LIMITS && commands.Valid()
      modifies this, killSwitch, commands, commands.buf
      ensures commands.Valid() && commands.pops == old(commands.pops)
      ensures var d := Decide(old(State()), pnl, var95, manualKill, bidTicks, askTicks);
              && State() == d.strategy
              && commands.Contents ==
                   if d.command.None? || |old(commands.Contents)| == commands.buf.Length then old(commands.Contents)
                   else old(commands.Contents) + [d.command.value]
    {
      var kill := killSwitch.EvaluateNow(inventory, pnl, var95, manualKill);
      if kill.Some? {
        var _ := commands.TryPush(CancelAll);
        haveQuotes := false;
      } else {
        var shouldRequote := !haveQuotes || ourBidPrice != bidTicks || ourAskPrice != askTicks;
        if shouldRequote {
          var _ := commands.TryPush(Quote(bidTicks, OUR_LOT_SIZE, askTicks, OUR_LOT_SIZE));
        }
      }
    }
  }
}
