/** What the steps of the whole system accomplish: the exchange inside it is a run of its own,
    commands pushed and taken have their effects, packets are conserved, deliveries catch up and
    resyncs repair. */
module Pipelines {
  import opened Types
  import opened Levels
  import opened Matching
  import opened Feed
  import opened Venues
  import opened Exchanges
  import opened Guarantees
  import opened Effects
  import opened FeedHandlers
  import opened Strategies
  import Composition
  import opened Deliveries
  import Risk

  type System = Composition.System
  type Label = Composition.Label

  // The exchange's own run.

  /** What one label asks of the exchange. */
  function LabelActions(s: System, l: Label): seq<Action> {
    match l
    case Refresh(side, lvl, midTicks, cancelTs, ts, addTs) => [Background(side, lvl, midTicks, cancelTs, ts, addTs)]
    case NoiseHit(aggressor, ts) => [Noise(aggressor, ts)]
    case PopCommand(clock) => if s.commands == [] then [] else [Command(s.commands[0].cmd, clock)]
    case _ => []
  }

  function ActionsOf(cfg: Config, ls: seq<Label>): seq<Action> {
    if ls == [] then [] else
      var pre := ls[..|ls| - 1];
      ActionsOf(cfg, pre) + LabelActions(Composition.Execute(cfg, pre), ls[|ls| - 1])
  }

  lemma RunMore(cfg: Config, actions: seq<Action>, more: seq<Action>)
    requires |more| <= 1
    ensures Run(cfg, actions + more) == if more == [] then Run(cfg, actions) else Step(cfg, Run(cfg, actions), more[0])
  {
    if more == [] {
      assert actions + more == actions;
    } else {
      assert (actions + more)[..|actions + more| - 1] == actions;
    }
  }

  lemma LabelMoves(cfg: Config, s: System, l: Label)
    ensures var more := LabelActions(s, l);
            && |more| <= 1
            && Composition.Next(cfg, s, l).exchange == if more == [] then s.exchange else Step(cfg, s.exchange, more[0])
  {
  }

  /** In every execution the exchange is exactly the run of the refreshes, the noise orders and
      the commands taken off the ring, in the order they happened, so everything proved of runs
      holds inside the system. */
  lemma {:induction false} ExchangeIsRun(cfg: Config, ls: seq<Label>)
    ensures Composition.Execute(cfg, ls).exchange == Run(cfg, ActionsOf(cfg, ls))
    decreases |ls|
  {
    if ls != [] {
      var n := |ls| - 1;
      ExchangeIsRun(cfg, ls[..n]);
      var s := Composition.Execute(cfg, ls[..n]);
      LabelMoves(cfg, s, ls[n]);
      RunMore(cfg, ActionsOf(cfg, ls[..n]), LabelActions(s, ls[n]));
    }
  }

  // The strategy's own run.

  /** What the strategy does, one thing at a time. */
  datatype Deed =
    | Replayed(event: SeqEvent)
    | Checked(currentLost: nat, snap: BookResync, ts: nat)
    | Decided(pnl: real, var95: real, manual: bool, bidTicks: Price, askTicks: Price)

  function Do(s: Strategy, d: Deed): Strategy {
    match d
    case Replayed(event) => OnEvent(s, event)
    case Checked(currentLost, snap, ts) => PullResync(s, currentLost, snap, ts)
    case Decided(pnl, var95, manual, bidTicks, askTicks) =>
      Decide(s, pnl, var95, manual, bidTicks, askTicks).strategy
  }

  function DoAll(deeds: seq<Deed>): Strategy {
    if deeds == [] then INIT_STRATEGY else Do(DoAll(deeds[..|deeds| - 1]), deeds[|deeds| - 1])
  }

  /** What one label has the strategy do: replay the packet at the front of its ring, check the
      loss count read against the snapshot now published, or decide. */
  function LabelDeeds(s: System, l: Label): seq<Deed> {
    match l
    case PopEvent => if s.events == [] then [] else [Replayed(s.events[0])]
    case Pull(at, ts) =>
      if at > |s.arrived| then [] else [Checked(ObserveAll(s.arrived[..at]).lost, s.published, ts)]
    case Tick(pnl, var95, manual, bidTicks, askTicks, _) => [Decided(pnl, var95, manual, bidTicks, askTicks)]
    case _ => []
  }

  function DeedsOf(cfg: Config, ls: seq<Label>): seq<Deed> {
    if ls == [] then [] else
      var pre := ls[..|ls| - 1];
      DeedsOf(cfg, pre) + LabelDeeds(Composition.Execute(cfg, pre), ls[|ls| - 1])
  }

  /** The packets among what was done, in order. */
  function ReplayedBy(deeds: seq<Deed>): seq<SeqEvent> {
    if deeds == [] then [] else
      var d := deeds[|deeds| - 1];
      ReplayedBy(deeds[..|deeds| - 1]) + if d.Replayed? then [d.event] else []
  }

  lemma DoMore(deeds: seq<Deed>, more: seq<Deed>)
    requires |more| <= 1
    ensures DoAll(deeds + more) == if more == [] then DoAll(deeds) else Do(DoAll(deeds), more[0])
    ensures ReplayedBy(deeds + more) ==
            ReplayedBy(deeds) + if more != [] && more[0].Replayed? then [more[0].event] else []
  {
    if more == [] {
      assert deeds + more == deeds;
    } else {
      assert (deeds + more)[..|deeds + more| - 1] == deeds;
    }
  }

  lemma LabelDoes(cfg: Config, s: System, l: Label)
    ensures var more := LabelDeeds(s, l);
            var s' := Composition.Next(cfg, s, l);
            && |more| <= 1
            && s'.strategy == (if more == [] then s.strategy else Do(s.strategy, more[0]))
            && s'.popped == s.popped + if more != [] && more[0].Replayed? then [more[0].event] else []
  {
    assert s.popped + [] == s.popped;
  }

  /** In every execution the strategy's whole state is that of the packets it took off its ring,
      the checks it made and the decisions it took, in the order they happened, so everything
      proved of those holds inside the system. */
  lemma {:induction false} StrategyIsItsDeeds(cfg: Config, ls: seq<Label>)
    ensures Composition.Execute(cfg, ls).strategy == DoAll(DeedsOf(cfg, ls))
    ensures Composition.Execute(cfg, ls).popped == ReplayedBy(DeedsOf(cfg, ls))
    decreases |ls|
  {
    if ls != [] {
      var n := |ls| - 1;
      StrategyIsItsDeeds(cfg, ls[..n]);
      var s := Composition.Execute(cfg, ls[..n]);
      LabelDoes(cfg, s, ls[n]);
      DoMore(DeedsOf(cfg, ls[..n]), LabelDeeds(s, ls[n]));
    }
  }

  /** No thread touches what belongs to another: each label changes only its own thread's state
      and the ends of the rings it uses. */
  lemma LabelFrame(cfg: Config, s: System, l: Label)
    ensures var s' := Composition.Next(cfg, s, l);
            match l
            case Refresh(_, _, _, _, _, _) => s' == s.(exchange := s'.exchange)
            case NoiseHit(_, _) => s' == s.(exchange := s'.exchange)
            case PopCommand(_) => s' == s.(exchange := s'.exchange, commands := s'.commands, killDone := s'.killDone)
            case Publish => s' == s.(published := s'.published)
            case Receive(_) => s' == s.(health := s'.health, arrived := s'.arrived, pending := s'.pending)
            case Forward(_) => s' == s.(pending := s'.pending, events := s'.events, dropped := s'.dropped)
            case PopEvent =>
              s' == s.(events := s'.events, strategy := s'.strategy, popped := s'.popped, inStep := s'.inStep)
            case Pull(_, _) =>
              s' == s.(strategy := s'.strategy, lossReadAt := s'.lossReadAt, resyncs := s'.resyncs, inStep := s'.inStep)
            case Tick(_, _, _, _, _, _) =>
              s' == s.(strategy := s'.strategy, observed := s'.observed, commands := s'.commands)
  {
  }

  // Packets.

  /** Every packet received has been replayed, waits, is being forwarded, or was dropped. */
  ghost predicate PacketsOk(s: System) {
    && |s.arrived| == |s.popped| + |s.events| + Forwarding(s) + s.dropped
    && s.health.received == |s.arrived|
  }

  lemma NextPackets(cfg: Config, s: System, l: Label)
    requires PacketsOk(s)
    ensures PacketsOk(Composition.Next(cfg, s, l))
  {
  }

  lemma {:induction false} ContinuePackets(cfg: Config, s: System, ls: seq<Label>)
    requires PacketsOk(s)
    ensures PacketsOk(Composition.Continue(cfg, s, ls))
    decreases |ls|
  {
    if ls != [] {
      var k := |ls| - 1;
      ContinuePackets(cfg, s, ls[..k]);
      NextPackets(cfg, Composition.Continue(cfg, s, ls[..k]), ls[k]);
    }
  }

  lemma PacketsConserved(cfg: Config, ls: seq<Label>)
    ensures PacketsOk(Composition.Execute(cfg, ls))
  {
    ContinuePackets(cfg, Composition.InitSystem(cfg), ls);
  }

  // Commands.

  /** What a pass of the strategy puts into a command ring that has room. */
  ghost function Sent(s: System, observed: seq<Risk.Observation>, bidTicks: Price,
                      askTicks: Price): seq<Composition.Tagged> {
    if Breached(observed) then [Composition.Tagged(CancelAll, true)]
    else if s.strategy.haveQuotes && s.strategy.ourBidPrice == bidTicks && s.strategy.ourAskPrice == askTicks then []
    else [Composition.Tagged(Quote(bidTicks, 5, askTicks, 5), false)]
  }

  /** A pass sends cancel-all exactly when something it was ever shown, the present included,
      must stop us; otherwise the wanted quote, unless it is believed to stand already. A full
      ring loses the command, and nothing but the switch and our memory of quotes changes. */
  lemma PassSends(cfg: Config, ls: seq<Label>, l: Label)
    requires l.Tick?
    ensures var s := Composition.Execute(cfg, ls);
            var s' := Composition.Next(cfg, s, l);
            var now := Risk.Observation(s.strategy.inventory, l.pnl, l.var95, l.manual);
            && s'.observed == s.observed + [now]
            && s'.commands == s.commands + (if l.ringFull then [] else Sent(s, s'.observed, l.bidTicks, l.askTicks))
            && s'.strategy == s.strategy.(kill := s'.strategy.kill,
                                          haveQuotes := s.strategy.haveQuotes && !Breached(s'.observed))
            && s' == s.(strategy := s'.strategy, observed := s'.observed, commands := s'.commands)
  {
    var s := Composition.Execute(cfg, ls);
    Composition.ExecutionOk(cfg, ls);
    PassStep(cfg, s, l);
  }

  lemma PassStep(cfg: Config, s: System, l: Label)
    requires l.Tick? && s.strategy.kill == Risk.EvaluateAll(LIMITS, s.observed)
    ensures var s' := Composition.Next(cfg, s, l);
            var now := Risk.Observation(s.strategy.inventory, l.pnl, l.var95, l.manual);
            && s'.observed == s.observed + [now]
            && s'.commands == s.commands + (if l.ringFull then [] else Sent(s, s'.observed, l.bidTicks, l.askTicks))
            && s'.strategy == s.strategy.(kill := s'.strategy.kill,
                                          haveQuotes := s.strategy.haveQuotes && !Breached(s'.observed))
            && s' == s.(strategy := s'.strategy, observed := s'.observed, commands := s'.commands)
  {
    DecideLeaves(s.strategy, s.observed, l.pnl, l.var95, l.manual, l.bidTicks, l.askTicks);
    var now := Risk.Observation(s.strategy.inventory, l.pnl, l.var95, l.manual);
    assert (s.observed + [now])[..|s.observed|] == s.observed;
    LatchedIffBreached(s.observed + [now]);
    assert s.commands + [] == s.commands;
  }

  /** A quote taken off the ring has its whole effect on the exchange: our new orders rest at
      its prices with all they did not trade. */
  lemma QuoteTaken(cfg: Config, ls: seq<Label>, clock: QuoteClock)
      returns (s': System, cancels: seq<MarketEvent>, bought: seq<MarketEvent>, sold: seq<MarketEvent>)
    requires var s := Composition.Execute(cfg, ls);
             s.commands != [] && s.commands[0].cmd.Quote?
    ensures var s := Composition.Execute(cfg, ls);
            && s' == Composition.Next(cfg, s, Composition.PopCommand(clock)) && s'.commands == s.commands[1..]
            && QuoteDone(s.exchange, s'.exchange, s.commands[0].cmd, clock, cancels, bought, sold)
  {
    var s := Composition.Execute(cfg, ls);
    Composition.ExecutionOk(cfg, ls);
    s' := Composition.Next(cfg, s, Composition.PopCommand(clock));
    var x';
    x', cancels, bought, sold := QuoteEffect(s.exchange, s.commands[0].cmd, clock);
  }

  /** A cancel-all taken off the ring leaves nothing of ours, and everybody else's orders. */
  lemma CancelTaken(cfg: Config, ls: seq<Label>, clock: QuoteClock)
    requires var s := Composition.Execute(cfg, ls);
             s.commands != [] && s.commands[0].cmd.CancelAll?
    ensures var s := Composition.Execute(cfg, ls);
            var s' := Composition.Next(cfg, s, Composition.PopCommand(clock));
            && s'.commands == s.commands[1..] && NoneOfOurs(s'.exchange.venue.book)
            && forall k :: Live(s'.Log(), k) <==> Live(s.Log(), k) && !Adds(s.Log())[k].isOurs
  {
    var s := Composition.Execute(cfg, ls);
    Composition.ExecutionOk(cfg, ls);
    var x', cancels := CancelAllEffect(s.exchange, clock);
    ApplyCommandOk(s.exchange, CancelAll, clock);
    UntrackedMeansGone(x');
  }

  // Deliveries.

  /** Packets `from` to `upTo - 1`, each received, forwarded and replayed. */
  function Deliver(from: nat, upTo: nat): seq<Label> {
    if from >= upTo then []
    else ((Deliver(from, upTo - 1) + [Composition.Receive(upTo - 1)]) + [Composition.Forward(false)])
         + [Composition.PopEvent]
  }

  /** Nothing is on its way and the shadow is in step up to `k`. */
  ghost predicate CaughtUpTo(s: System, k: nat) {
    s.pending == None && s.events == [] && s.inStep == Some(k)
  }

  lemma DeliverOne(cfg: Config, s: System, k: nat) returns (s1: System, s2: System, s3: System)
    requires CaughtUpTo(s, k) && k < |s.Log()|
    ensures s1 == Composition.Next(cfg, s, Composition.Receive(k))
    ensures s2 == Composition.Next(cfg, s1, Composition.Forward(false))
    ensures s3 == Composition.Next(cfg, s2, Composition.PopEvent)
    ensures CaughtUpTo(s3, k + 1) && s3.exchange == s.exchange
  {
    s1 := Composition.Next(cfg, s, Composition.Receive(k));
    s2 := Composition.Next(cfg, s1, Composition.Forward(false));
    assert s2.events == [SeqEvent(k, s.Log()[k])];
    s3 := Composition.Next(cfg, s2, Composition.PopEvent);
  }

  lemma OneMore(cfg: Config, s: System, ls: seq<Label>, l: Label)
    ensures Composition.Continue(cfg, s, ls + [l]) == Composition.Next(cfg, Composition.Continue(cfg, s, ls), l)
  {
    assert (ls + [l])[..|ls|] == ls;
  }

  lemma ThreeMore(cfg: Config, s: System, ls: seq<Label>, a: Label, b: Label, c: Label, s1: System, s2: System)
    requires s1 == Composition.Next(cfg, Composition.Continue(cfg, s, ls), a) && s2 == Composition.Next(cfg, s1, b)
    ensures Composition.Continue(cfg, s, ((ls + [a]) + [b]) + [c]) == Composition.Next(cfg, s2, c)
  {
    OneMore(cfg, s, ls, a);
    OneMore(cfg, s, ls + [a], b);
    OneMore(cfg, s, (ls + [a]) + [b], c);
  }

  lemma DeliverNext(cfg: Config, s: System, ls: seq<Label>, k: nat) returns (more: seq<Label>)
    requires CaughtUpTo(Composition.Continue(cfg, s, ls), k) && k < |Composition.Continue(cfg, s, ls).Log()|
    ensures more == ((ls + [Composition.Receive(k)]) + [Composition.Forward(false)]) + [Composition.PopEvent]
    ensures CaughtUpTo(Composition.Continue(cfg, s, more), k + 1)
    ensures Composition.Continue(cfg, s, more).exchange == Composition.Continue(cfg, s, ls).exchange
  {
    more := ((ls + [Composition.Receive(k)]) + [Composition.Forward(false)]) + [Composition.PopEvent];
    var s1, s2, s3 := DeliverOne(cfg, Composition.Continue(cfg, s, ls), k);
    ThreeMore(cfg, s, ls, Composition.Receive(k), Composition.Forward(false), Composition.PopEvent, s1, s2);
  }

  lemma {:induction false} DeliverAll(cfg: Config, s: System, from: nat, upTo: nat) returns (ls: seq<Label>)
    requires CaughtUpTo(s, from) && from <= upTo <= |s.Log()|
    ensures ls == Deliver(from, upTo)
    ensures CaughtUpTo(Composition.Continue(cfg, s, ls), upTo)
    ensures Composition.Continue(cfg, s, ls).exchange == s.exchange
    decreases upTo
  {
    ls := [];
    if from < upTo {
      var pre := DeliverAll(cfg, s, from, upTo - 1);
      ls := DeliverNext(cfg, s, pre, upTo - 1);
    }
  }

  lemma StillInStep(s: System)
    requires Composition.SystemOk(s) && s.inStep == Some(|s.Log()|)
    ensures SameBook(s.strategy.shadow, s.exchange.venue.book)
  {
    assert s.Log()[..|s.Log()|] == s.Log();
    SameLevelsSym(s.exchange.venue.book.bids, Fold(s.Log()).bids);
    SameLevelsSym(s.exchange.venue.book.asks, Fold(s.Log()).asks);
    SameTransitive(s.strategy.shadow, Fold(s.Log()), s.exchange.venue.book);
  }

  /** Catching up: from any reachable state with nothing on its way and the shadow in step up to
      some point, from the start or after a resync, delivering the rest of the feed in order
      ends with the shadow equal to the exchange's own book. */
  lemma DeliveryCatchesUp(cfg: Config, ls: seq<Label>, k: nat) returns (s': System)
    requires CaughtUpTo(Composition.Execute(cfg, ls), k) && k <= |Composition.Execute(cfg, ls).Log()|
    ensures var s := Composition.Execute(cfg, ls);
            && s' == Composition.Continue(cfg, s, Deliver(k, |s.Log()|))
            && s'.exchange == s.exchange && SameBook(s'.strategy.shadow, s.exchange.venue.book)
  {
    var s := Composition.Execute(cfg, ls);
    var rest := DeliverAll(cfg, s, k, |s.Log()|);
    s' := Composition.Continue(cfg, s, rest);
    Composition.ExecutionOk(cfg, ls);
    Composition.ContinueOk(cfg, s, rest);
    StillInStep(s');
  }

  // Repair.

  lemma ExportEmptyIff(side: Side, levels: Levels)
    requires LevelsOk(side, levels)
    ensures |Flatten(Ask, levels)| > 0 <==> levels.Keys != {}
  {
    if levels.Keys != {} {
      var p := Best(Ask, levels.Keys);
      assert QueueOk(side, p, levels[p]);
    }
  }

  /** What is published is the exchange's book at the end of its feed. */
  lemma Published(cfg: Config, s: System) returns (s': System)
    requires Composition.SystemOk(s)
    ensures s' == Composition.Next(cfg, s, Composition.Publish) && Composition.SystemOk(s')
    ensures s' == s.(published := s'.published) && s'.published.seqAtSnapshot == |s.Log()|
    ensures |s'.published.bids| > 0 || |s'.published.asks| > 0 <==>
              s.exchange.venue.book.bids.Keys != {} || s.exchange.venue.book.asks.Keys != {}
  {
    Composition.NextOk(cfg, s, Composition.Publish);
    s' := Composition.Next(cfg, s, Composition.Publish);
    VenueBookOk(s.exchange.venue);
    ExportEmptyIff(Bid, s.exchange.venue.book.bids);
    ExportEmptyIff(Ask, s.exchange.venue.book.asks);
  }

  lemma CheckRepairs(s: System, ts: nat) returns (s': System)
    requires Composition.SystemOk(s) && s.published.seqAtSnapshot == |s.Log()|
    ensures s' == Composition.PullAt(s, |s.arrived|, ts)
    ensures SameBook(s'.strategy.shadow, s.exchange.venue.book) <==>
              || SameBook(s.strategy.shadow, s.exchange.venue.book)
              || (s.health.lost > s.strategy.lastKnownLost && |s.Log()| > s.strategy.highestSeq
                  && (|s.published.bids| > 0 || |s.published.asks| > 0))
  {
    assert s.arrived[..|s.arrived|] == s.arrived;
    s' := Composition.CheckIsSafe(s, |s.arrived|, ts);
    PullTouches(s.strategy, s.health.lost, s.published, ts);
    if s'.resyncs != s.resyncs {
      assert s.Log()[..|s.Log()|] == s.Log();
      SameLevelsSym(s.exchange.venue.book.bids, Fold(s.Log()).bids);
      SameLevelsSym(s.exchange.venue.book.asks, Fold(s.Log()).asks);
      SameTransitive(s'.strategy.shadow, Fold(s.Log()), s.exchange.venue.book);
    }
  }

  /** Repair: in any reachable state, publishing and then checking leaves the shadow equal to
      the exchange's book if and only if it was already, or a loss beyond those acted on has
      been counted, events not yet replayed have been emitted, and the book is not empty. */
  lemma ResyncRepairsIff(cfg: Config, ls: seq<Label>, ts: nat) returns (s: System, s1: System, s': System)
    ensures s == Composition.Execute(cfg, ls)
    ensures s1 == Composition.Next(cfg, s, Composition.Publish)
    ensures s' == Composition.Next(cfg, s1, Composition.Pull(|s.arrived|, ts))
    ensures SameBook(s'.strategy.shadow, s.exchange.venue.book) <==>
              || SameBook(s.strategy.shadow, s.exchange.venue.book)
              || (s.health.lost > s.strategy.lastKnownLost && |s.Log()| > s.strategy.highestSeq
                  && (s.exchange.venue.book.bids.Keys != {} || s.exchange.venue.book.asks.Keys != {}))
  {
    s := Composition.Reached(cfg, ls);
    s1, s' := PublishThenCheck(cfg, s, ts);
  }

  lemma PublishThenCheck(cfg: Config, s: System, ts: nat) returns (s1: System, s': System)
    requires Composition.SystemOk(s)
    ensures s1 == Composition.Next(cfg, s, Composition.Publish)
    ensures s' == Composition.Next(cfg, s1, Composition.Pull(|s.arrived|, ts))
    ensures SameBook(s'.strategy.shadow, s.exchange.venue.book) <==>
              || SameBook(s.strategy.shadow, s.exchange.venue.book)
              || (s.health.lost > s.strategy.lastKnownLost && |s.Log()| > s.strategy.highestSeq
                  && (s.exchange.venue.book.bids.Keys != {} || s.exchange.venue.book.asks.Keys != {}))
  {
    s1 := Published(cfg, s);
    s' := CheckRepairs(s1, ts);
  }
}
