/** The four threads together: exchange, lossy feed and handler, market-data ring, strategy,
    command ring. Every interleaving, loss, duplication, reordering and ring-full drop is a
    sequence of labels; the theorems hold of every such sequence. */
module Composition {
  import opened Types
  import opened Levels
  import opened Feed
  import opened Venues
  import opened Exchanges
  import opened Guarantees
  import opened OrderBooks
  import opened FeedHandlers
  import opened Strategies
  import opened Positions
  import Risk

  /** A command in the ring, marked with whether the kill switch had latched when it was pushed. */
  datatype Tagged = Tagged(cmd: StrategyCommand, afterLatch: bool)

  /** `pending` is a packet counted by the handler and not yet forwarded. The rest of the last
      two lines are histories: numbers received, events replayed, packets dropped at the full
      ring, how many arrivals the last loss count acted on covered, resyncs taken, the feed
      position the shadow has followed without a break, whether a CancelAll pushed after the
      latch has been processed, and everything the kill switch has been shown. */
  datatype System = System(
    exchange: Exchange, published: BookResync,
    health: Health, pending: Option<SeqEvent>, events: seq<SeqEvent>,
    strategy: Strategy, commands: seq<Tagged>,
    arrived: seq<nat>, popped: seq<SeqEvent>, dropped: nat, lossReadAt: nat, resyncs: nat,
    inStep: Option<nat>, killDone: bool, observed: seq<Risk.Observation>)
  {
    function Log(): seq<MarketEvent> { exchange.venue.log }
  }

  function InitSystem(cfg: Config): System {
    System(InitExchange(cfg), BookResync([], [], 0), INIT_HEALTH, None, [], INIT_STRATEGY, [],
           [], [], 0, 0, 0, Some(0), false, [])
  }

  datatype Label =
    | Refresh(side: Side, lvl: nat, midTicks: Price, cancelTs: nat, ts: nat, addTs: nat)
    | NoiseHit(aggressor: Side, ts: nat)
    | PopCommand(clock: QuoteClock)
    | Publish
    | Receive(seqNo: nat)
    | Forward(ringFull: bool)
    | PopEvent
    | Pull(at: nat, ts: nat)
    | Tick(pnl: real, var95: real, manual: bool, bidTicks: Price, askTicks: Price, ringFull: bool)

  function Next(cfg: Config, s: System, l: Label): System {
    match l
    case Refresh(side, lvl, midTicks, cancelTs, ts, addTs) =>
      s.(exchange := Step(cfg, s.exchange, Background(side, lvl, midTicks, cancelTs, ts, addTs)))
    case NoiseHit(aggressor, ts) =>
      s.(exchange := Step(cfg, s.exchange, Noise(aggressor, ts)))
    case PopCommand(clock) =>
      if s.commands == [] then s else
        s.(exchange := ApplyCommand(s.exchange, s.commands[0].cmd, clock),
           commands := s.commands[1..],
           killDone := s.killDone || s.commands[0].afterLatch)
    case Publish =>
      s.(published := Export(s.exchange.venue.book, |s.Log()|))
    case Receive(n) =>
      if s.pending.Some? || n >= |s.Log()| then s else
        s.(health := Observe(s.health, n), arrived := s.arrived + [n], pending := Some(SeqEvent(n, s.Log()[n])))
    case Forward(ringFull) =>
      if s.pending.None? then s
      else if ringFull then s.(pending := None, dropped := s.dropped + 1)
      else s.(pending := None, events := s.events + [s.pending.value])
    case PopEvent =>
      if s.events == [] then s else
        var e := s.events[0];
        s.(events := s.events[1..], strategy := OnEvent(s.strategy, e), popped := s.popped + [e],
           inStep := if s.inStep == Some(e.seqNo) then Some(e.seqNo + 1) else None)
    case Pull(at, ts) =>
      if at > |s.arrived| then s else PullAt(s, at, ts)
    case Tick(pnl, var95, manual, bidTicks, askTicks, ringFull) =>
      var d := Decide(s.strategy, pnl, var95, manual, bidTicks, askTicks);
      s.(strategy := d.strategy,
         observed := s.observed + [Risk.Observation(s.strategy.inventory, pnl, var95, manual)],
         commands := if ringFull || d.command.None? then s.commands
                     else s.commands + [Tagged(d.command.value, d.strategy.kill.triggered.Some?)])
  }

  /** A check that reads the loss count as it stood after `at` arrivals. */
  function PullAt(s: System, at: nat, ts: nat): System
    requires at <= |s.arrived|
  {
    var currentLost := ObserveAll(s.arrived[..at]).lost;
    var fires := ResyncFires(s.strategy, currentLost, s.published);
    s.(strategy := PullResync(s.strategy, currentLost, s.published, ts),
       lossReadAt := if currentLost > s.strategy.lastKnownLost then at else s.lossReadAt,
       resyncs := if fires then s.resyncs + 1 else s.resyncs,
       inStep := if fires then Some(s.published.seqAtSnapshot) else s.inStep)
  }

  /** The labels in order, from any state. */
  function Continue(cfg: Config, s: System, ls: seq<Label>): System {
    if ls == [] then s else Next(cfg, Continue(cfg, s, ls[..|ls| - 1]), ls[|ls| - 1])
  }

  function Execute(cfg: Config, ls: seq<Label>): System {
    Continue(cfg, InitSystem(cfg), ls)
  }

  lemma {:induction false} ContinueAppend(cfg: Config, s: System, ls: seq<Label>, more: seq<Label>)
    ensures Continue(cfg, s, ls + more) == Continue(cfg, Continue(cfg, s, ls), more)
    decreases |more|
  {
    if more == [] {
      assert ls + more == ls;
    } else {
      ContinueAppend(cfg, s, ls, more[..|more| - 1]);
      assert (ls + more)[..|ls + more| - 1] == ls + more[..|more| - 1];
    }
  }

  // The invariant.

  ghost predicate FeedOk(s: System) {
    && SnapshotOk(s.Log(), s.published)
    && AllInLog(s.Log(), s.events) && AllInLog(s.Log(), s.popped)
    && (s.pending.Some? ==> InLog(s.Log(), s.pending.value))
    && s.health == ObserveAll(s.arrived)
  }

  ghost predicate ShadowOk(s: System) {
    && s.strategy.highestSeq <= |s.Log()|
    && (forall i :: 0 <= i < |s.popped| ==> s.popped[i].seqNo <= s.strategy.highestSeq)
    && (s.inStep.Some? ==> s.inStep.value <= |s.Log()| && SameBook(s.strategy.shadow, Fold(s.Log()[..s.inStep.value])))
  }

  ghost predicate KillOk(s: System) {
    && s.strategy.kill == Risk.EvaluateAll(LIMITS, s.observed)
    && (forall i :: 0 <= i < |s.commands| && s.commands[i].afterLatch ==>
          s.strategy.kill.triggered.Some? && s.commands[i].cmd.CancelAll?)
    && (forall i, j :: 0 <= i < j < |s.commands| && s.commands[i].afterLatch ==> s.commands[j].afterLatch)
    && (s.killDone ==>
          && s.strategy.kill.triggered.Some?
          && (forall i :: 0 <= i < |s.commands| ==> s.commands[i].afterLatch)
          && s.exchange.ourBidId == None && s.exchange.ourAskId == None)
  }

  ghost predicate SystemOk(s: System) {
    ExchangeOk(s.exchange) && FeedOk(s) && ShadowOk(s) && KillOk(s)
  }

  lemma InitSystemOk(cfg: Config)
    ensures SystemOk(InitSystem(cfg))
  {
    InitOk(cfg);
  }

  /** What the exchange does next never disturbs what was already published or replayed. */
  lemma ExchangeMoves(s: System, s': System)
    requires FeedOk(s) && ShadowOk(s) && s.Log() <= s'.Log()
    requires s'.published == s.published && s'.pending == s.pending && s'.events == s.events
    requires s'.health == s.health && s'.arrived == s.arrived
    requires s'.strategy == s.strategy && s'.popped == s.popped && s'.inStep == s.inStep
    ensures FeedOk(s') && ShadowOk(s')
  {
    assert s'.Log()[..s.published.seqAtSnapshot] == s.Log()[..s.published.seqAtSnapshot];
    if s.inStep.Some? { assert s'.Log()[..s.inStep.value] == s.Log()[..s.inStep.value]; }
  }

  lemma {:induction false} ExchangeLabelOk(cfg: Config, s: System, l: Label)
    requires SystemOk(s) && (l.Refresh? || l.NoiseHit?)
    ensures SystemOk(Next(cfg, s, l))
  {
    var a := if l.Refresh? then Background(l.side, l.lvl, l.midTicks, l.cancelTs, l.ts, l.addTs)
             else Noise(l.aggressor, l.ts);
    StepOk(cfg, s.exchange, a);
    StepExtends(cfg, s.exchange, a);
    ExchangeMoves(s, Next(cfg, s, l));
  }

  lemma PopCommandOk(cfg: Config, s: System, clock: QuoteClock)
    requires SystemOk(s)
    ensures SystemOk(Next(cfg, s, PopCommand(clock)))
  {
    if s.commands != [] {
      var cmd := s.commands[0].cmd;
      var s' := Next(cfg, s, PopCommand(clock));
      ApplyCommandOk(s.exchange, cmd, clock);
      ApplyCommandExtends(s.exchange, cmd, clock);
      ExchangeMoves(s, s');
      CancelBothOk(s.exchange, clock.cancelBid, clock.cancelAsk);
      forall i | 0 <= i < |s'.commands| ensures s'.commands[i] == s.commands[i + 1] {}
      if s.killDone || s.commands[0].afterLatch {
        forall i | 0 <= i < |s'.commands| ensures s'.commands[i].afterLatch {
          assert s.commands[i + 1].afterLatch;
        }
      }
    }
  }

  lemma PublishOk(cfg: Config, s: System)
    requires SystemOk(s)
    ensures SystemOk(Next(cfg, s, Publish))
  {
    PublishedIsSnapshot(s.exchange.venue, []);
    assert s.Log() + [] == s.Log();
  }

  lemma ReceiveOk(cfg: Config, s: System, n: nat)
    requires SystemOk(s)
    ensures SystemOk(Next(cfg, s, Receive(n)))
  {
    assert (s.arrived + [n])[..|s.arrived|] == s.arrived;
  }

  lemma ForwardOk(cfg: Config, s: System, ringFull: bool)
    requires SystemOk(s)
    ensures SystemOk(Next(cfg, s, Forward(ringFull)))
  {
  }

  lemma OnEventFields(t: Strategy, e: SeqEvent)
    ensures OnEvent(t, e).shadow == Apply(t.shadow, e.event)
    ensures OnEvent(t, e).highestSeq == Max(t.highestSeq, e.seqNo)
    ensures OnEvent(t, e).kill == t.kill
  {
  }

  lemma StepInStep(shadow: Book, log: seq<MarketEvent>, n: nat)
    requires n < |log| && SameBook(shadow, Fold(log[..n]))
    ensures SameBook(Apply(shadow, log[n]), Fold(log[..n + 1]))
  {
    SameApply(shadow, Fold(log[..n]), log[n]);
    assert log[..n + 1][..n] == log[..n];
  }

  /** Taking one packet off the ring. */
  lemma PopFields(cfg: Config, s: System) returns (s': System, e: SeqEvent)
    requires s.events != []
    ensures s' == Next(cfg, s, PopEvent) && e == s.events[0]
    ensures s'.events == s.events[1..] && s'.popped == s.popped + [e]
    ensures s'.strategy.shadow == Apply(s.strategy.shadow, e.event)
    ensures s'.strategy.highestSeq == Max(s.strategy.highestSeq, e.seqNo)
    ensures s'.strategy.kill == s.strategy.kill
    ensures s'.inStep == if s.inStep == Some(e.seqNo) then Some(e.seqNo + 1) else None
    ensures s' == s.(events := s'.events, popped := s'.popped, strategy := s'.strategy, inStep := s'.inStep)
  {
    s', e := Next(cfg, s, PopEvent), s.events[0];
    OnEventFields(s.strategy, e);
  }

  lemma PopEventShadow(s: System, s': System, e: SeqEvent)
    requires ShadowOk(s) && InLog(s.Log(), e) && s'.exchange == s.exchange
    requires s'.popped == s.popped + [e] && s'.strategy.highestSeq == Max(s.strategy.highestSeq, e.seqNo)
    requires s'.strategy.shadow == Apply(s.strategy.shadow, e.event)
    requires s'.inStep == if s.inStep == Some(e.seqNo) then Some(e.seqNo + 1) else None
    ensures ShadowOk(s')
  {
    if s.inStep == Some(e.seqNo) { StepInStep(s.strategy.shadow, s.Log(), e.seqNo); }
  }

  lemma PopEventOk(cfg: Config, s: System)
    requires SystemOk(s)
    ensures SystemOk(Next(cfg, s, PopEvent))
  {
    if s.events != [] {
      var s', e := PopFields(cfg, s);
      PopEventShadow(s, s', e);
      assert FeedOk(s') && KillOk(s');
    }
  }

  lemma PullOk(cfg: Config, s: System, at: nat, ts: nat)
    requires SystemOk(s)
    ensures SystemOk(Next(cfg, s, Pull(at, ts)))
  {
    RebuildIsFold(s.Log(), s.published, ts);
  }

  /** What a pass leaves alone, and the command it may push. */
  lemma TickLeaves(cfg: Config, s: System, l: Label) returns (s': System)
    requires l.Tick?
    ensures s' == Next(cfg, s, l)
    ensures s'.exchange == s.exchange && s'.published == s.published && s'.health == s.health
    ensures s'.pending == s.pending && s'.events == s.events && s'.arrived == s.arrived && s'.popped == s.popped
    ensures s'.inStep == s.inStep && s'.killDone == s.killDone
    ensures s'.strategy.shadow == s.strategy.shadow && s'.strategy.highestSeq == s.strategy.highestSeq
    ensures s'.commands == s.commands || exists c :: IsCommandOf(s', c) && s'.commands == s.commands + [c]
  {
    s' := Next(cfg, s, l);
    if s'.commands != s.commands { assert IsCommandOf(s', s'.commands[|s.commands|]); }
  }

  /** A command pushed in this state: cancel-all exactly when the switch has latched. */
  ghost predicate IsCommandOf(s: System, c: Tagged) {
    c.afterLatch == s.strategy.kill.triggered.Some? && (c.cmd.CancelAll? <==> c.afterLatch)
  }

  lemma TickKillOk(s: System, s': System, now: Risk.Observation)
    requires KillOk(s) && s'.killDone == s.killDone && s'.exchange == s.exchange
    requires s'.observed == s.observed + [now]
    requires s'.strategy.kill == Risk.Evaluate(LIMITS, s.strategy.kill, now)
    requires s'.commands == s.commands || exists c :: IsCommandOf(s', c) && s'.commands == s.commands + [c]
    ensures KillOk(s')
  {
    EvaluateMore(s.observed, now);
  }

  lemma TickOk(cfg: Config, s: System, l: Label)
    requires SystemOk(s) && l.Tick?
    ensures SystemOk(Next(cfg, s, l))
  {
    var s' := TickLeaves(cfg, s, l);
    var _, now := TickFields(cfg, s, l);
    TickKillOk(s, s', now);
  }

  lemma NextOk(cfg: Config, s: System, l: Label)
    requires SystemOk(s)
    ensures SystemOk(Next(cfg, s, l))
  {
    match l
    case PopCommand(clock) => PopCommandOk(cfg, s, clock);
    case Publish => PublishOk(cfg, s);
    case Receive(n) => ReceiveOk(cfg, s, n);
    case Forward(ringFull) => ForwardOk(cfg, s, ringFull);
    case PopEvent => PopEventOk(cfg, s);
    case Pull(at, ts) => PullOk(cfg, s, at, ts);
    case Tick(_, _, _, _, _, _) => TickOk(cfg, s, l);
    case _ => ExchangeLabelOk(cfg, s, l);
  }

  lemma {:induction false} ContinueOk(cfg: Config, s: System, ls: seq<Label>)
    requires SystemOk(s)
    ensures SystemOk(Continue(cfg, s, ls))
    decreases |ls|
  {
    if ls != [] {
      var k := |ls| - 1;
      ContinueOk(cfg, s, ls[..k]);
      NextOk(cfg, Continue(cfg, s, ls[..k]), ls[k]);
    }
  }

  lemma ExecutionOk(cfg: Config, ls: seq<Label>)
    ensures SystemOk(Execute(cfg, ls))
  {
    InitSystemOk(cfg);
    ContinueOk(cfg, InitSystem(cfg), ls);
  }

  // End-to-end theorems.

  lemma NextKeepsDone(cfg: Config, s: System, l: Label)
    ensures s.killDone ==> Next(cfg, s, l).killDone
  {
  }

  lemma {:induction false} DoneForever(cfg: Config, s: System, more: seq<Label>)
    ensures s.killDone ==> Continue(cfg, s, more).killDone
    decreases |more|
  {
    if more != [] {
      var k := |more| - 1;
      DoneForever(cfg, s, more[..k]);
      NextKeepsDone(cfg, Continue(cfg, s, more[..k]), more[k]);
    }
  }

  /** How many commands a continuation takes off the command ring, at most. */
  function Pops(ls: seq<Label>): nat {
    if ls == [] then 0 else Pops(ls[..|ls| - 1]) + if ls[|ls| - 1].PopCommand? then 1 else 0
  }

  /** A cancel-all pushed after the latch is `n` commands from the front, or processed. */
  ghost predicate CancelComing(s: System, n: int) {
    s.killDone || (0 <= n < |s.commands| && s.commands[n].afterLatch)
  }

  /** One label on: `m` commands ahead have become `n`. */
  lemma CancelComesNearer(cfg: Config, s: System, l: Label, m: int, n: int)
    requires CancelComing(s, m) && n == m - if l.PopCommand? then 1 else 0
    ensures CancelComing(Next(cfg, s, l), n)
  {
  }

  lemma {:induction false} CancelArrives(cfg: Config, s: System, more: seq<Label>, ahead: int, n: int)
    requires CancelComing(s, ahead) && n == ahead - Pops(more)
    ensures CancelComing(Continue(cfg, s, more), n)
    decreases |more|
  {
    if more != [] {
      var k := |more| - 1;
      var m := ahead - Pops(more[..k]);
      CancelArrives(cfg, s, more[..k], ahead, m);
      CancelComesNearer(cfg, Continue(cfg, s, more[..k]), more[k], m, n);
    }
  }

  lemma LatchedTick(cfg: Config, s: System, tick: Label)
    requires s.strategy.kill.triggered.Some? && tick.Tick? && !tick.ringFull
    ensures CancelComing(Next(cfg, s, tick), |s.commands|)
  {
  }

  /** The latch takes effect. Once the switch has latched, one pass of the strategy that finds
      room in the command ring is enough: as soon as the exchange has then taken more commands
      than were queued at that pass, nothing of ours rests, and nothing ever will again,
      however the threads interleave and whatever is lost. */
  lemma KillProgress(cfg: Config, ls: seq<Label>, tick: Label, more: seq<Label>)
    requires Execute(cfg, ls).strategy.kill.triggered.Some? && tick.Tick? && !tick.ringFull
    requires Pops(more) > |Execute(cfg, ls).commands|
    ensures var s' := Continue(cfg, Next(cfg, Execute(cfg, ls), tick), more);
            s'.killDone && NoneOfOurs(s'.exchange.venue.book)
  {
    var s := Execute(cfg, ls);
    ExecutionOk(cfg, ls);
    LatchedTick(cfg, s, tick);
    NextOk(cfg, s, tick);
    var s1 := Next(cfg, s, tick);
    CancelArrives(cfg, s1, more, |s.commands|, |s.commands| - Pops(more));
    ContinueOk(cfg, s1, more);
    UntrackedMeansGone(Continue(cfg, s1, more).exchange);
  }

  /** Kill finality. Once the switch has latched and the exchange has processed one CancelAll
      pushed after that, no order of ours rests in the ground-truth book in any later state,
      whatever was still queued, dropped, lost or interleaved. */
  lemma KillFinality(cfg: Config, ls: seq<Label>, more: seq<Label>)
    requires Execute(cfg, ls).killDone
    ensures var s' := Continue(cfg, Execute(cfg, ls), more);
            NoneOfOurs(s'.exchange.venue.book) && s'.strategy.kill.triggered.Some?
  {
    var s := Execute(cfg, ls);
    DoneForever(cfg, s, more);
    ExecutionOk(cfg, ls);
    ContinueOk(cfg, s, more);
    UntrackedMeansGone(Continue(cfg, s, more).exchange);
  }

  /** The quotes among queued commands, oldest first. */
  function Quotes(cs: seq<Tagged>): seq<StrategyCommand> {
    if cs == [] then [] else (if cs[0].cmd.Quote? then [cs[0].cmd] else []) + Quotes(cs[1..])
  }

  predicate IsTail(b: seq<StrategyCommand>, a: seq<StrategyCommand>) {
    |b| <= |a| && b == a[|a| - |b|..]
  }

  lemma {:induction false} CancelAddsNoQuote(cs: seq<Tagged>, afterLatch: bool)
    ensures Quotes(cs + [Tagged(CancelAll, afterLatch)]) == Quotes(cs)
  {
    var more := cs + [Tagged(CancelAll, afterLatch)];
    if cs == [] {
      assert more[1..] == [];
    } else {
      CancelAddsNoQuote(cs[1..], afterLatch);
      assert more[1..] == cs[1..] + [Tagged(CancelAll, afterLatch)];
    }
  }

  lemma LatchedStep(cfg: Config, s: System, l: Label)
    requires s.strategy.kill.triggered.Some?
    ensures Next(cfg, s, l).strategy.kill == s.strategy.kill
    ensures IsTail(Quotes(Next(cfg, s, l).commands), Quotes(s.commands))
  {
    if l.Tick? {
      CancelAddsNoQuote(s.commands, true);
    } else if l.PopEvent? && s.events != [] {
      OnEventFields(s.strategy, s.events[0]);
    }
  }

  /** From the moment of the latch no quote is ever pushed again: the quotes still queued in
      any later state are the last of those queued at the latch, and the reason stands. */
  lemma {:induction false} NoQuoteAfterLatch(cfg: Config, s: System, more: seq<Label>)
    requires s.strategy.kill.triggered.Some?
    ensures IsTail(Quotes(Continue(cfg, s, more).commands), Quotes(s.commands))
    ensures Continue(cfg, s, more).strategy.kill == s.strategy.kill
    decreases |more|
  {
    if more != [] {
      var k := |more| - 1;
      NoQuoteAfterLatch(cfg, s, more[..k]);
      LatchedStep(cfg, Continue(cfg, s, more[..k]), more[k]);
    }
  }

  /** A label that pushes a quote. */
  ghost predicate PushesQuote(s: System, s': System) {
    |s'.commands| > |s.commands| && s'.commands[|s.commands|].cmd.Quote?
  }

  lemma TickFields(cfg: Config, s: System, l: Label) returns (s': System, now: Risk.Observation)
    requires l.Tick?
    ensures s' == Next(cfg, s, l)
    ensures now == Risk.Observation(s.strategy.inventory, l.pnl, l.var95, l.manual)
    ensures s'.observed == s.observed + [now]
    ensures s'.strategy.kill == Risk.Evaluate(LIMITS, s.strategy.kill, now)
    ensures PushesQuote(s, s') ==> s'.strategy.kill.triggered == None
  {
    s' := Next(cfg, s, l);
    now := Risk.Observation(s.strategy.inventory, l.pnl, l.var95, l.manual);
  }

  lemma EvaluateMore(obs: seq<Risk.Observation>, o: Risk.Observation)
    ensures Risk.EvaluateAll(LIMITS, obs + [o]) == Risk.Evaluate(LIMITS, Risk.EvaluateAll(LIMITS, obs), o)
  {
    assert (obs + [o])[..|obs|] == obs;
  }

  lemma QuotePushed(cfg: Config, s: System, l: Label) returns (s': System)
    requires s.strategy.kill == Risk.EvaluateAll(LIMITS, s.observed) && l.Tick?
    ensures s' == Next(cfg, s, l)
    ensures s'.observed == s.observed + [Risk.Observation(s.strategy.inventory, l.pnl, l.var95, l.manual)]
    ensures PushesQuote(s, s') ==> Risk.EvaluateAll(LIMITS, s'.observed).triggered == None
  {
    var now;
    s', now := TickFields(cfg, s, l);
    EvaluateMore(s.observed, now);
  }

  /** A quote is sent only while everything the switch was ever shown, the present included,
      was within every limit; and a latched switch holds the reason of the first breach. */
  lemma QuotesOnlyWithinLimits(cfg: Config, ls: seq<Label>, l: Label, i: nat, j: nat)
    requires l.Tick? && i <= j < |Next(cfg, Execute(cfg, ls), l).observed|
    ensures var s := Execute(cfg, ls);
            var s' := Next(cfg, s, l);
            PushesQuote(s, s') ==>
              && Risk.Abs(s'.observed[j].inventory) <= 60
              && s'.observed[i].pnl - s'.observed[j].pnl <= 8.0
              && s'.observed[j].var95 <= 4.0 && !s'.observed[j].manual
  {
    ExecutionOk(cfg, ls);
    var s' := QuotePushed(cfg, Execute(cfg, ls), l);
    if PushesQuote(Execute(cfg, ls), s') {
      Risk.UnlatchedWithinLimits(LIMITS, s'.observed, i, j);
    }
  }

  lemma LatchedReasonIsFirstBreach(cfg: Config, ls: seq<Label>)
    requires Execute(cfg, ls).strategy.kill.triggered.Some?
    ensures var s := Execute(cfg, ls);
            exists j: nat :: Risk.FirstBreach(Risk.Limits(60, 8.0, 4.0), s.observed, j)
                             && Risk.BreachAt(Risk.Limits(60, 8.0, 4.0), s.observed, j) == s.strategy.kill.triggered
  {
    ExecutionOk(cfg, ls);
    Risk.LatchIsFirstBreach(LIMITS, Execute(cfg, ls).observed);
  }

  /** The shadow is the ground truth of the feed position it has followed without a break,
      counting from the start or from the last resync taken; when that position is the end of
      the feed, the shadow is the exchange's own book, and neither is crossed. */
  lemma ShadowInStep(cfg: Config, ls: seq<Label>)
    requires Execute(cfg, ls).inStep.Some?
    ensures var s := Execute(cfg, ls);
            && s.inStep.value <= |s.Log()|
            && SameBook(s.strategy.shadow, Fold(s.Log()[..s.inStep.value]))
            && Uncrossed(s.strategy.shadow)
            && (s.inStep.value == |s.Log()| ==> SameBook(s.strategy.shadow, s.exchange.venue.book))
  {
    ExecutionOk(cfg, ls);
    var s := Execute(cfg, ls);
    var n := s.inStep.value;
    PrefixOk(s.Log(), n);
    FoldOk(s.Log()[..n]);
    if n == |s.Log()| {
      assert s.Log()[..n] == s.Log();
      SameLevelsSym(s.exchange.venue.book.bids, Fold(s.Log()).bids);
      SameLevelsSym(s.exchange.venue.book.asks, Fold(s.Log()).asks);
      SameTransitive(s.strategy.shadow, Fold(s.Log()), s.exchange.venue.book);
    }
  }

  /** What a check may have done: taken the snapshot safely, or nothing. */
  ghost predicate CheckSafe(s: System, s': System) {
    var n := s.published.seqAtSnapshot;
    && s'.strategy.highestSeq >= s.strategy.highestSeq
    && if s'.resyncs == s.resyncs then
         s'.strategy.shadow == s.strategy.shadow && s'.strategy.highestSeq == s.strategy.highestSeq
       else
         && (forall i :: 0 <= i < |s.popped| ==> s.popped[i].seqNo < n)
         && n <= |s.Log()| && s'.strategy.highestSeq == n
         && SameBook(s'.strategy.shadow, Fold(s.Log()[..n]))
  }

  lemma CheckIsSafe(s: System, at: nat, ts: nat) returns (s': System)
    requires SystemOk(s) && at <= |s.arrived|
    ensures s' == PullAt(s, at, ts) && CheckSafe(s, s')
  {
    s' := PullAt(s, at, ts);
    if ResyncFires(s.strategy, ObserveAll(s.arrived[..at]).lost, s.published) {
      RebuildIsFold(s.Log(), s.published, ts);
    }
  }

  lemma PullIsSafe(cfg: Config, s: System, at: nat, ts: nat) returns (s': System)
    requires SystemOk(s)
    ensures s' == Next(cfg, s, Pull(at, ts)) && CheckSafe(s, s')
  {
    s' := s;
    if at <= |s.arrived| { s' := CheckIsSafe(s, at, ts); }
  }

  lemma Reached(cfg: Config, ls: seq<Label>) returns (s: System)
    ensures s == Execute(cfg, ls) && SystemOk(s)
  {
    s := Execute(cfg, ls);
    ExecutionOk(cfg, ls);
  }

  /** A check either takes the snapshot, when every event replayed so far is inside it, which
      puts the shadow in step with the feed at the snapshot's position; or leaves the shadow
      alone. The highest-sequence mark never falls. */
  lemma ResyncIsSafe(cfg: Config, ls: seq<Label>, at: nat, ts: nat) returns (s: System, s': System)
    ensures s == Execute(cfg, ls) && s' == Next(cfg, s, Pull(at, ts)) && CheckSafe(s, s')
  {
    s := Reached(cfg, ls);
    s' := PullIsSafe(cfg, s, at, ts);
  }

  /** Whatever arrives, in any order, the handler's loss count is the events missing since the
      first packet plus those that came late. */
  lemma {:induction false} LossCountIsAccounted(cfg: Config, ls: seq<Label>)
    requires Execute(cfg, ls).arrived != []
    ensures var s := Execute(cfg, ls);
            s.health.lost == |Missing(s.arrived)| + |LateArrivals(s.arrived)|
  {
    ExecutionOk(cfg, ls);
    LostIsMissingPlusLate(Execute(cfg, ls).arrived);
  }
}
