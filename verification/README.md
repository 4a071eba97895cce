# Verified model of the simulated exchange, its lossy feed and the quoting strategy

This project models the part of the engine in which several components must agree over whole
runs: a price-time-priority matching book, the exchange loop that drives it and numbers every
edit on a Level-3 feed, the gap-counting feed handler, the strategy that rebuilds its own book
from that feed, the lock-free ring between the threads, and the kill switch over all of it.

| module | what it models |
|---|---|
| `Types`, `Levels` | the shared vocabulary; price levels, FIFO queues and equality of books up to timestamps |
| `Matching` | the matcher level by level, against greedy consumption of one flat priority list |
| `OrderBooks` | `OrderBook` as a class edited in place; snapshots and rebuilding |
| `Feed`, `Drift` | replaying events; the discipline of an exchange's log; what losing part of it does |
| `Venues`, `Exchanges`, `Guarantees`, `Conservation` | book and feed together; the exchange's steps and trackers; what holds in every run |
| `Effects` | what each step of the exchange trades, cancels and leaves resting, read off its feed and book |
| `Crossings`, `Positions` | when a lossy replay is crossed; how far a position counted from it is off |
| `MarketSims` | the exchange thread's mutable state and its lossy numbered sender |
| `Words`, `Rings`, `RingBuffers` | wrapping words; the ring under every interleaving of micro-steps; the ring as a class over an array |
| `FeedHandlers` | gap accounting for arbitrary packet sequences |
| `Risk` | the kill switch against a specification over its whole history |
| `Strategies`, `StrategyThreads` | replay, position, the sequence-gated resync, the quote or cancel decision |
| `Composition`, `Deliveries`, `Pipelines`, `Scenarios` | all threads together, for every interleaving, loss, duplicate, reordering and full ring; what the deliveries decide; what each step accomplishes; executions showing what is not promised |

Code that updates state is a class or a method with loops, proved equal to a function on values;
the theorems are about those functions. Randomness, clocks, prices and delivery are arbitrary
inputs, so each theorem covers every outcome. Books are compared up to timestamps, because Add
events, snapshots and rebuilds are each stamped at a different moment. A run is any sequence of
background refreshes, commands and noise orders from the empty book, which includes every run of
the exchange loop. In `Composition` both rings are queues that may refuse a push, which is what
`Rings.RefinesQueue` and `Rings.AcceptedIsOffered` show the ring to be. `Exchanges` and `Effects`
speak of any exchange satisfying `ExchangeOk`, which `Guarantees.RunOk` proves of every run and
`Composition.ExecutionOk` of every execution.

## Where the code and its documentation differ

- The repository's README (lines 274-281) says drift left after a dropped packet corrects itself
  on the next check. The code marks the loss as handled even when the gate refuses the snapshot
  (`engine/src/main.rs:218`). `Strategies.RepairIff` gives the exact condition for a loss count:
  only the first check at that count can repair the shadow, until a further loss is counted
  (`Deliveries.DriftStands`). `Scenarios.RefusedForGood` is an execution that is never repaired.
- Its lines 108-116, and the comment at `engine/src/main.rs:192-202`, say the gate makes a
  snapshot safe to apply. The gate never rolls anything back (`Composition.ResyncIsSafe`),
  but the drain does not filter events older than a snapshot already taken.
  `Strategies.StaleDeliveryIff` says exactly which such event disturbs a shadow that was in step,
  and `Scenarios.StaleEventAfterResync` is an execution in which one does.
- `events_lost_to_gaps` is never reduced when a packet arrives late.
  `FeedHandlers.LossCountExactIff` says exactly when it is the number of missing events, and
  `FeedHandlers.LateArrivalOvercounts` is the smallest input for which it is not.
- The same README lines call a crossed shadow brief and transient. `Crossings.ShadowUncrossedIff`
  says exactly when losses cross it, and `Crossings.LostCancelCrosses` is a run that does.

## Model

| member | source | states |
|---|---|---|
| Matching.SweepIsGreedy | engine/src/orderbook.rs:101-147 | The nested walk over levels and queues equals greedy consumption of the side flattened in price-then-time order and cut at the limit: same fills in the same order, same leftover orders, same unfilled quantity. |
| Matching.SweepTotal | engine/src/orderbook.rs:97-147 | The total filled is the smaller of the quantity asked and the quantity resting within the limit; the rest is left over. |
| Matching.SubmitRefinesGreedy | engine/src/orderbook.rs:88-153 | A submitted order's fills and the opposite side it leaves are the greedy reference's; the submitter's own side changes only by the unfilled remainder at the back of its own price level, and not at all when fully filled. |
| Matching.SubmitHonoursLimit | engine/src/orderbook.rs:114-120 | In prices: no fill of a bid is above its limit and none of an ask below it, every fill is on the opposite side; and if anything is left to rest, no opposite level is at or through the price. |
| Matching.ExecuteHitsOpposite | engine/src/orderbook.rs:180-217 | A buy takes only from asks and a sell only from bids, as much as was asked or all that rests there, and the aggressor's own side is unchanged. |
| Matching.SweepExhausts | engine/src/orderbook.rs:114-120 | If anything is left unfilled, no level within the limit survives. |
| Matching.SweepFirstFill | engine/src/orderbook.rs:123-146 | A walk that can fill anything first trades the front order of the best level, and goes on exactly as the same walk over the book on which that one trade was replayed with `apply_trade`. |
| Matching.SubmitKeepsUncrossed | engine/src/orderbook.rs:88-153 | Submitting any order to an uncrossed book leaves it uncrossed. |
| Matching.FarLimitIsMarket | engine/src/orderbook.rs:88-218 | A limit that reaches every opposite level matches exactly as having no limit does. |
| Matching.MatchersAgree | engine/src/orderbook.rs:173-218 | The market matcher and the limit matcher give the same fills and the same opposite side whenever the limit is no better than the furthest opposite price; the market matcher leaves the aggressor's own side alone. |
| OrderBooks.OrderBook.BestBid | engine/src/orderbook.rs:28-30 | None exactly when there are no bids; otherwise a bid level at or above every other. |
| OrderBooks.OrderBook.BestAsk | engine/src/orderbook.rs:32-34 | None exactly when there are no asks; otherwise an ask level at or below every other. |
| OrderBooks.OrderBook.InsertRestingOrder | engine/src/orderbook.rs:57-78 | The order joins the back of its own level, which is created if absent; nothing else changes. |
| OrderBooks.OrderBook.TradeQueue | engine/src/orderbook.rs:122-146 | The in-place loop at one level, ending with the level removed when emptied, gives the fills, quantity left and queue of the recursive specification. |
| OrderBooks.OrderBook.SubmitLimitOrder | engine/src/orderbook.rs:88-153 | The loop that re-reads the best level and edits queues in place, terminating, returns the specified fills, none beyond the limit price, and leaves the specified book. |
| OrderBooks.OrderBook.ExecuteMarketOrder | engine/src/orderbook.rs:173-218 | The loop over a price list collected before any edit meets the same sweep specification, with no limit. |
| OrderBooks.OrderBook.CancelOrder | engine/src/orderbook.rs:155-167 | Reports whether the order was there, removes exactly it and an emptied level, and changes nothing otherwise. |
| OrderBooks.OrderBook.ApplyTrade | engine/src/orderbook.rs:224-240 | Reduces the named order, removing it when the trade covers it and its level when emptied; an unknown order changes nothing. |
| OrderBooks.OrderBook.RebuildFromResync | engine/src/orderbook.rs:289-298 | Whatever the book held before, it becomes the book the snapshot's entries build in order. |
| OrderBooks.ResyncRoundTrip | engine/src/orderbook.rs:265-298 | Rebuilding from an export restores both sides, every level and every queue position, for every well-formed book, up to timestamps. |
| OrderBooks.ExportAscends | engine/src/orderbook.rs:265-283 | A snapshot lists each side in ascending price, and each level in ascending id. |
| OrderBooks.RebuildStamps | engine/src/main.rs:209 | Every order of a rebuilt book carries the timestamp of the rebuild. |
| Feed.FoldOk | engine/src/main.rs:156-190 | The book replayed from any disciplined log is well formed, holds only orders the log added, and is not crossed. |
| Feed.FoldStamps | engine/src/main.rs:159-160 | Every order of a book replayed from a disciplined log carries the timestamp its Add reported. |
| Drift.ShadowLaw | engine/src/orderbook.rs:224-240 | For any pattern of losses, each order in the replayed book has exactly what its delivered Add said less its delivered trades, and nothing if the Add was lost or a Cancel delivered. |
| Drift.DriftIsLostTrades | engine/src/orderbook.rs:224-240 | An order still in the true book whose Add was delivered rests in the replayed one with its true quantity plus exactly the traded quantity that was lost. |
| Drift.GhostIff | engine/src/orderbook.rs:285-288 | An order gone from the true book still rests in the replayed one if and only if its Add arrived, no Cancel of it arrived, and its Cancel or some of its traded quantity was lost. |
| Drift.ShadowOnlyDelivered | engine/src/market_sim.rs:86-95 | Every order found in the replayed book is one whose Add was delivered, at its own side and price. |
| Drift.QuantityConserved | engine/src/orderbook.rs:122-167 | For every order of a disciplined log: added = traded + cancelled + still resting. |
| Venues.CancelEffect | engine/src/market_sim.rs:182-191 | Cancelling by an order's true side and price keeps feed and book in step, removes it from the live orders and no other, and emits only when something was found. |
| Venues.SweepReported | engine/src/market_sim.rs:197-199 | Reporting a walk's fills one by one keeps the feed disciplined and replays to the walk's effect on the book. |
| Venues.SweepHits | engine/src/market_sim.rs:106-115 | Every trade a walk reports hits an order live when the walk began, with its true owner, side and price, and within the limit. |
| Venues.SubmitEffect | engine/src/market_sim.rs:307-321 | A reported submission keeps feed and book in step and adds exactly its unfilled remainder, or nothing. |
| Venues.SubmitLive | engine/src/market_sim.rs:195-205 | The only order a submission can make live is the one submitted, and only with quantity left. |
| Venues.RestingIsLive | engine/src/market_sim.rs:200-205 | Every resting order is one the feed added at that side, price and owner, not cancelled and not fully traded. |
| Exchanges.PlaceBackgroundOk | engine/src/market_sim.rs:281-324 | Refreshing a background level keeps the book in step with the feed and every live order tracked. |
| Exchanges.ApplyCommandOk | engine/src/market_sim.rs:179-241 | Executing any quote or cancel-all keeps the same invariant. |
| Exchanges.NoiseOrderOk | engine/src/market_sim.rs:244-250 | A market order keeps the same invariant. |
| Guarantees.ReplayRefinement | engine/src/market_sim.rs:148-250 | In every run, folding the emitted events into an empty book gives the ground-truth book, level by level and queue position by queue position. |
| Guarantees.NeverCrossed | engine/src/market_sim.rs:263-274 | The ground-truth book is never crossed, and neither is the book after any prefix of the feed. |
| Guarantees.ShadowCoversBook | engine/src/main.rs:156-190 | In every run and under any losses, a ground-truth order whose Add arrived rests in the shadow at the same place with its true quantity plus the lost traded quantity. |
| Guarantees.GhostsAreLosses | engine/src/orderbook.rs:285-288 | Every order the shadow holds and the ground truth does not had its Add delivered and its Cancel, or some traded quantity, lost. |
| Guarantees.CrossedShadowIsGhosts | engine/src/main.rs:198-202 | If losses ever leave the shadow crossed, one of the two crossing levels consists entirely of such ghosts. |
| Crossings.ShadowUncrossedIff | engine/src/main.rs:198-202 | Under any losses the replayed book is uncrossed if and only if every bid still open, as far as the delivered events tell (Add arrived, no Cancel arrived, delivered trades leave something), is priced below every ask still open. |
| Crossings.RunShadowUncrossedIff | engine/src/main.rs:198-202 | The same exact condition for the feed of every run of the exchange. |
| Crossings.LostCancelCrosses | engine/src/market_sim.rs:292-321 | A run of the exchange of three background refreshes in which losing one packet, the Cancel of the refreshed ask, leaves the subscriber with a bid at 103 and an ask at 101. |
| Guarantees.PriceTimePriority | engine/src/orderbook.rs:101-147 | In every run, each trade hits the order that at that moment has the best price on its side and the smallest id at that price, for no more than it has left. |
| Guarantees.QueuesAscend | engine/src/market_sim.rs:307-309 | In every run each ground-truth queue is non-empty, strictly ascending in id, and holds only orders of its own side and price with quantity left. |
| Guarantees.NoUntrackedLiquidity | engine/src/market_sim.rs:292-320 | Each resting order is named, at its exact side and price, by exactly one tracker: ours by our tracker for its side, any other by exactly one background slot. |
| Guarantees.BoundedDepth | engine/src/market_sim.rs:137-151 | Each side never holds more orders than the background levels plus one. |
| Guarantees.UntrackedMeansGone | engine/src/market_sim.rs:228-239 | With both of our trackers empty no order of ours rests, nor is live in the feed. |
| Guarantees.NoSelfTrade | engine/src/market_sim.rs:181-227 | From any reachable state, the trades emitted while executing a command, the bid's and then the ask's, never hit an order of ours. |
| Guarantees.QuoteReplacesOurs | engine/src/market_sim.rs:181-227 | After any quote in any run, every order of ours in the ground-truth book is the new bid at the bid price or the new ask above it, at the ask price unless that had to be lifted; nothing of ours from before rests. |
| Effects.NoiseEffect | engine/src/market_sim.rs:244-250 | In every run a noise order trades only against the side opposite to its own, for the smaller of its quantity and everything resting there, at one timestamp; its own side, the slots, the trackers and the ids are unchanged. |
| Effects.RefreshEffect | engine/src/market_sim.rs:292-321 | A refresh cancels the slot's old order if it still rests and no other, then submits at `lvl + 1` ticks from the mid on its own side: it trades no worse than that price, traded and left add up to the level quantity, what is left rests there whole and is what the slot names, and nothing else is touched. |
| Effects.QuoteEffect | engine/src/market_sim.rs:181-227 | A quote cancels only our tracked orders; buys from asks at the bid price or less and sells to bids at the lifted ask price or more; bought and resting bid add up to the bid quantity, sold and resting ask to the ask quantity, each resting at its own price under the next two ids; slots are unchanged. |
| Effects.CancelAllEffect | engine/src/market_sim.rs:228-239 | Cancel-all removes exactly the live orders of ours, emits only their Cancels, trades nothing and leaves slots and ids alone. |
| Conservation.EveryUnitAccounted | engine/src/orderbook.rs:122-151 | For every order ever submitted in any run: asked = taken on arrival + traded later + cancelled + resting in the ground-truth book. |
| Conservation.PositionIsPassiveFills | engine/src/main.rs:172-187 | The inventory and tick-valued cash a subscriber accumulates trade by trade equal the net passive fills of our orders, each order counted once at its own price. |
| MarketSims.WireIsKept | engine/src/market_sim.rs:85-95 | What the sender puts on the wire is the log with exactly the lost events left out, in order. |
| MarketSims.WireAscends | engine/src/market_sim.rs:86-95 | Sequence numbers on the wire strictly increase. |
| MarketSims.FeedSender.Emit | engine/src/market_sim.rs:86-95 | Every event takes the next number, sent or lost; the wire stays the log less the losses. |
| MarketSims.MarketSim.OnQuote | engine/src/market_sim.rs:181-227 | Cancel both, place the bid, lift the ask to at least one tick above it, place the ask: the mutated state and feed are the specified step's. |
| MarketSims.MarketSim.OnCancelAll | engine/src/market_sim.rs:228-239 | Cancelling both of our orders in place is the specified step. |
| MarketSims.MarketSim.RefreshBackground | engine/src/market_sim.rs:281-324 | Taking the slot, cancelling, resubmitting and re-filling the slot in place is the specified step. |
| MarketSims.MarketSim.FireNoiseOrder | engine/src/market_sim.rs:244-250 | Executing a market order and emitting each fill is the specified step. |
| MarketSims.MarketSim.RunLoop | engine/src/market_sim.rs:159-250 | Any sequence of steps, from the empty exchange, ends in the specified run, with the book equal to what the emitted feed folds to, and uncrossed. |
| MarketSims.MarketSim.PublishResync | engine/src/market_sim.rs:255-261 | The published snapshot is the whole book tagged with the number of events emitted so far. |
| Words.MaskIsMod | engine/src/ringbuffer.rs:110 | Masking a counter with capacity - 1 is reduction modulo the capacity, for every power of two. |
| Words.SlotIndex | engine/src/ringbuffer.rs:110-112 | The slot computed from a wrapped counter is the true push count modulo the capacity, however often the word has overflowed. |
| Words.WrappedDistance | engine/src/ringbuffer.rs:106 | Wrapping subtraction of the two counters is the true occupancy. |
| Words.WrappedEqual | engine/src/ringbuffer.rs:128 | Two wrapped counters are equal exactly when the true ones are. |
| Rings.CapacityIs | engine/src/ringbuffer.rs:64-78 | The capacity is the next power of two at or above the request, and at least two. |
| Rings.InterleavingOk | engine/src/ringbuffer.rs:102-135 | The ring's invariant holds after every interleaving of micro-steps with stale but monotone views of the other counter. |
| Rings.NoRace | engine/src/ringbuffer.rs:57-62 | While the producer may write a slot, it is neither the slot the consumer may read nor any slot holding an unread value. |
| Rings.ReadsInitialised | engine/src/ringbuffer.rs:131-132 | Every slot read holds exactly the oldest accepted and not yet popped value, and every index is in bounds. |
| Rings.FifoOrder | engine/src/ringbuffer.rs:102-135 | Accepted values are the popped ones followed by those in flight, never more in flight than the capacity; the drop counter is the number of refusals, modulo the word. |
| Rings.RefinesQueue | engine/src/ringbuffer.rs:114-134 | Publishing a push appends one value to a bounded queue, publishing a pop removes its oldest, and no other micro-step is visible. |
| Rings.AcceptedIsOffered | engine/src/ringbuffer.rs:102-116 | For every interleaving a push in progress holds the very value its caller offered, the accepted values are in order those of the calls not refused, and exactly the calls made when as many values as the capacity were seen unread are refused and counted. |
| Rings.PushCompletes | engine/src/ringbuffer.rs:102-116 | A push that runs through appends its value, or when full as far as seen is refused and counted; the consumer's side is untouched. |
| Rings.PopCompletes | engine/src/ringbuffer.rs:124-135 | A pop that runs through takes the oldest value in flight, or nothing when none is seen; the producer's side is untouched. |
| Rings.RefusalsAreExact | engine/src/ringbuffer.rs:104-130 | A push is refused exactly when the queue is full, and a pop finds nothing exactly when it is empty, as far as that side has seen. |
| RingBuffers.RingBuffer.TryPush | engine/src/ringbuffer.rs:102-116 | Over the real array, mask and wrapped words: appends, or refuses and counts exactly when full. |
| RingBuffers.RingBuffer.TryPop | engine/src/ringbuffer.rs:124-135 | Returns and removes the oldest value, or None exactly when there is none. |
| RingBuffers.RingBuffer.constructor | engine/src/ringbuffer.rs:64-78 | An empty ring whose length is the rounded-up request, at least two. |
| FeedHandlers.GapAccounting | engine/src/udp_feed.rs:69-87 | For any packet sequence: expectation - first number = packets that advanced the expectation + events counted lost. |
| FeedHandlers.ExpectationIsHighest | engine/src/udp_feed.rs:73-86 | The expectation is always one more than the highest number received. |
| FeedHandlers.NeverRewinds | engine/src/udp_feed.rs:82-86 | However many packets follow, in any order, the expectation never goes back and no counter goes down; every packet is counted received. |
| FeedHandlers.LostIsMissingPlusLate | engine/src/udp_feed.rs:75-79 | Events counted lost = numbers never received since the first packet + numbers received late. |
| FeedHandlers.LossCountExactIff | engine/src/udp_feed.rs:75-86 | The count is the number of missing events if and only if nothing since the first packet arrived late. |
| FeedHandlers.LateArrivalOvercounts | engine/src/udp_feed.rs:82-86 | Packets 0, 2, 1 leave one event counted lost although none is missing. |
| FeedHandlers.InOrderLossIsExact | engine/src/udp_feed.rs:73-81 | With strictly increasing delivery the count is exactly the missing events. |
| FeedHandlers.GapsAndLosses | engine/src/udp_feed.rs:76-78 | A gap was counted exactly when some event was counted lost, and there are no more gaps than lost events. |
| FeedHandlers.GapsAreJumps | engine/src/udp_feed.rs:75-79 | The gap count is the number of arrivals more than one above everything before them, however much each skips. |
| FeedHandlers.FeedHandler.Receive | engine/src/udp_feed.rs:67-89 | One packet updates the counters as specified and is forwarded, stale or not; a full ring refuses and counts it, and the loss count does not. |
| FeedHandlers.FeedHandler.Run | engine/src/udp_feed.rs:53-90 | The receive loop over any packets, with nobody popping, ends in the specified accounting, with the ring holding the packets in order up to its capacity and every further one refused. |
| Risk.EvaluateIsBreach | engine/src/risk.rs:92-107 | An evaluation of an unlatched switch reports the breach the whole history shows, drawdown being a fall of more than the limit from any earlier P&L, and keeps the true running maximum. |
| Risk.LatchIsFirstBreach | engine/src/risk.rs:88-108 | The latched reason is that of the first breach in the history (manual, inventory, drawdown, VaR, in that order); nothing is latched exactly when there was none. |
| Risk.UnlatchedWithinLimits | engine/src/risk.rs:95-105 | While unlatched, every past observation was within all limits, drawdown between any two of them included. |
| Risk.LatchIsFinal | engine/src/risk.rs:89-91 | No sequence of later observations changes a latched switch. |
| Risk.KillSwitch.EvaluateNow | engine/src/risk.rs:88-108 | The mutating evaluation returns the reason it latches and leaves the specified state. |
| Risk.KillSwitch.EvaluateAfterReset | engine/src/risk.rs:85-114 | Re-armed, the switch latches the first breach among the observations made since, and only that. |
| Strategies.DrainAdds | engine/src/main.rs:156-190 | Any drain, from any state, adds the events' passive fills to inventory, cash and the fill count, and leaves the kill switch and the loss mark alone. |
| Strategies.DrainQuotes | engine/src/main.rs:159-167 | Any drain leaves the quote prices at the last orders of ours drained on each side, and we have quotes if we had or one was drained. |
| Strategies.DrainMarks | engine/src/main.rs:157 | After any drain the sequence mark is the highest of what it was and every number drained. |
| Strategies.DrainIsReplay | engine/src/main.rs:156-190 | Draining from the start leaves the fold of the events as the shadow book, inventory and cash equal to the feed's totals, and as our quote prices those of the last orders of ours the feed added on each side. |
| Strategies.LosslessDrain | engine/src/main.rs:156-190 | A lossless drain of any exchange's feed ends with the exchange's own book and with the net of our orders' passive fills as position and cash. |
| Strategies.RequoteIff | engine/src/main.rs:137-277 | In any state, after any drain and against the whole history of observations: cancel-all if some observation so far was manual, beyond 60 lots either way, down more than 8 from an earlier P&L, or over 4 of VaR; otherwise nothing if we have quotes and the last known prices, those of the last orders of ours drained, are the wanted ones; otherwise exactly the wanted quote, five lots a side. |
| Strategies.LatchedIffBreached | engine/src/main.rs:137-141 | The strategy's switch has latched exactly when some observation so far was beyond those limits. |
| Strategies.DecideLeaves | engine/src/main.rs:232-277 | A decision changes the kill switch, and forgets our quotes exactly on a breach; everything else stays. |
| Strategies.PullTouches | engine/src/main.rs:203-221 | A check never touches inventory, cash, the fill count, the kill switch or whether we have quotes; the loss mark moves to any new count, and shadow, sequence mark and quote prices only when the snapshot is taken. |
| Strategies.ResyncRestoresQuotes | engine/src/main.rs:211-216 | A resync sets our quote prices to the exchange's own trackers' for each side on which an order of ours rests, and keeps the old price on the others. |
| Strategies.PublishedIsSnapshot | engine/src/market_sim.rs:255-261 | A snapshot tagged S rebuilds to the fold of events 0 to S-1, whatever is emitted later. |
| Strategies.ResyncSplice | engine/src/main.rs:203-221 | After the gate fires at S, whatever the drift before, draining the next events contiguously from S leaves the shadow equal to the fold of the feed up to that point, for every such point. |
| Strategies.RepairIff | engine/src/main.rs:203-221 | Over any number of checks at one loss count the shadow ends in step with the feed at the first snapshot's position if and only if it was in step there already or that snapshot was newer than everything applied and not empty; otherwise the shadow is untouched. |
| Strategies.StaleDeliveryIff | engine/src/main.rs:156-160 | Delivering an old event again to a shadow in step leaves it in step if and only if the event is not an Add and not a Trade against an order still resting. |
| Scenarios.RefusedForGood | engine/src/main.rs:205-219 | An execution in which a Cancel is lost and counted, the one check for it refuses a snapshot older than what was replayed, and after any further publishing and checking the shadow still shows an ask the exchange no longer has. |
| Scenarios.StaleEventAfterResync | engine/src/main.rs:156-160 | An execution in which a snapshot is taken while an older event is in the ring: the shadow equals the exchange's book, and replaying that event gives it an ask the exchange does not have. |
| StrategyThreads.StrategyThread.Handle | engine/src/main.rs:157-189 | Handling one event in place updates shadow, position and quotes as specified. |
| StrategyThreads.StrategyThread.Drain | engine/src/main.rs:156-190 | The drain loop empties the ring and applies every value that was in it, in order. |
| StrategyThreads.StrategyThread.Resync | engine/src/main.rs:203-221 | The gated rebuild, with the loss signal consumed either way, is the specified step. |
| StrategyThreads.StrategyThread.Act | engine/src/main.rs:256-277 | Evaluating the switch and then cancelling or requoting is the specified decision, which `Strategies.RequoteIff` gives in numbers, and its command joins the back of the command ring, or is lost when the ring is full. |
| Composition.ExecutionOk | engine/src/main.rs:119-282 | The whole-system invariant holds after every sequence of exchange, network, ring and strategy steps. |
| Composition.KillFinality | engine/src/main.rs:256-277 | Once the switch has latched and one CancelAll pushed after that has been processed, no order of ours rests in the ground truth in any later state, and the switch stays latched. |
| Composition.KillProgress | engine/src/main.rs:256-258 | Once latched, a single pass that finds room in the command ring suffices: after any continuation in which the exchange takes more commands than were then queued, nothing of ours rests. |
| Composition.NoQuoteAfterLatch | engine/src/main.rs:256-277 | After the latch no quote is ever pushed again in any continuation: the quotes still queued are the last of those queued at the latch, and the latched reason stands. |
| Composition.QuotesOnlyWithinLimits | engine/src/main.rs:231-277 | A quote is pushed only if everything the switch was ever shown, the present included, was within the configured limits. |
| Composition.LatchedReasonIsFirstBreach | engine/src/main.rs:137-141 | In the running system the latched reason is that of the first breach, of the limits 60, 8 and 4, among all observations made. |
| Composition.ShadowInStep | engine/src/main.rs:156-221 | The shadow is the fold of the feed up to the position it has followed unbroken, from the start or the last resync taken; at the feed's end it is the ground-truth book; it is not crossed. |
| Composition.ResyncIsSafe | engine/src/main.rs:192-217 | In any state, a check either leaves the shadow alone or takes a snapshot that contains every event replayed and leaves the shadow equal to the feed at the snapshot's position; the highest-sequence mark never falls. |
| Composition.LossCountIsAccounted | engine/src/udp_feed.rs:69-87 | In any execution the handler's count is the missing plus the late events among what arrived. |
| Deliveries.ResyncsNeedGaps | engine/src/main.rs:203-219 | In any execution, with every check reading some earlier value of the handler's count, no more resyncs are taken than gaps were counted. |
| Deliveries.DriftStands | engine/src/main.rs:204-205 | From any state, as long as the handler counts no loss beyond what was acted on, no snapshot is taken whatever is published, and only replayed events change the shadow. |
| Deliveries.InOrderStaysInStep | engine/src/main.rs:156-221 | With gapless in-order arrival and no full ring, no resync is ever taken and the shadow is always the fold of exactly the events replayed; with all of them replayed it is the exchange's book. |
| Positions.PositionError | engine/src/main.rs:172-187 | A position counted from any deliveries of a log's events, in any order, differs from the log's own by exactly our fills left out, less those repeated. |
| Deliveries.PositionIsOffByLostTrades | engine/src/main.rs:172-217 | In every execution, resyncs included, the strategy's inventory differs from our passive fills by exactly those not replayed, less those repeated: a resync repairs the book and never the position. |
| Deliveries.AccountsAreKept | engine/src/main.rs:172-187 | In every execution inventory, cash and fill count are those of the events replayed and of nothing else. |
| Deliveries.QuotedPositionIsBounded | engine/src/main.rs:231-274 | Whenever a quote is pushed, the net passive fills of our orders over the whole feed, apart from those the strategy missed, are within 60 lots either way. |
| Deliveries.GaplessQuoteIsBounded | engine/src/main.rs:231-274 | On a gapless feed they are within the limit, with nothing missed, as of the last event replayed. |
| Pipelines.ExchangeIsRun | engine/src/market_sim.rs:159-250 | In every execution the exchange is the run of the refreshes, noise orders and commands taken off the ring, in order, so what is proved of runs holds in the system. |
| Pipelines.StrategyIsItsDeeds | engine/src/main.rs:153-281 | In every execution the strategy's whole state is that of the packets it took off its ring, its checks and its decisions, in order. |
| Pipelines.PacketsConserved | engine/src/udp_feed.rs:67-89 | Every packet received has been replayed, waits in the ring, is being forwarded, or was dropped at the full ring. |
| Pipelines.PassSends | engine/src/main.rs:256-277 | In any execution a pass with room in the ring pushes cancel-all exactly when something it was ever shown breaches the limits, otherwise the wanted quote unless it is believed to stand; a full ring loses it; nothing else in the system changes. |
| Pipelines.QuoteTaken | engine/src/market_sim.rs:179-227 | In any execution a quote taken off the ring leaves it and has its whole effect on the exchange. |
| Pipelines.CancelTaken | engine/src/market_sim.rs:228-239 | In any execution a cancel-all taken off the ring leaves nothing of ours resting and every other live order live. |
| Pipelines.DeliveryCatchesUp | engine/src/main.rs:156-190 | From any state of an execution with nothing on its way and the shadow in step up to some point, delivering the rest of the feed in order ends with the shadow equal to the exchange's book. |
| Pipelines.ResyncRepairsIff | engine/src/main.rs:203-221 | In any execution, publishing and then checking leaves the shadow equal to the exchange's book if and only if it was already, or newly counted loss, unreplayed events and a non-empty book are all there. |

## Left out

- Sockets, JSON, threads, sleeps, clocks and random draws: arbitrary inputs (prices, timestamps, which steps happen, which packets are lost, repeated or reordered).
- `engine/src/quoting.rs`, `compute_risk`, `VolEstimator`, `engine/src/bench.rs`, `engine/src/ipc.rs`, the monitor and dashboard: closed formulas, timing and display.
- Floating point: P&L and VaR are reals, so NaN is not modelled; the least float that starts the P&L peak is None; cash is an integer number of ticks times quantity.
- Overflow of prices, ids, quantities and feed sequence numbers: unbounded integers; only the ring's counters are machine words.
- A requested ring capacity above 2^63, for which rounding up to a power of two overflows the word.
- Cache-line padding, `MaybeUninit`, `Arc` and full hardware memory ordering: Acquire and Release appear as publish-after-write and as a view of the other counter that may be stale but never goes back.
- Events dropped because the ring is full, and events before the first packet, are not counted lost by the handler; no repair of them is claimed, and `Deliveries.InOrderStaysInStep` is about executions without them.
- Eventual repair of drift: the code does not establish it. A break in the sequence leaves the shadow without a guarantee until a snapshot is taken.
- The strategy's true position when our own quotes take liquidity: the feed says only whether the resting order was ours, so position theorems are about passive fills.
- `depth_snapshot` and the mid price: derived reads, settled by book equality.
- When snapshots are published and pulled (5 ms and 20 ms): in `Composition` they may happen at any moment.
- Re-arming the kill switch in the running system: no thread calls `reset`, so finality is proved of executions without it.
