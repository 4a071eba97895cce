/** The kill switch: a latch over the whole history of observations. */
module Risk {
  import opened Types

  datatype Limits = Limits(maxAbsInventory: int, maxDrawdown: real, maxVar95: real)

  datatype KillReason = InventoryLimit | Drawdown | ValueAtRisk | Manual

  /** What one evaluation looks at. */
  datatype Observation = Observation(inventory: int, pnl: real, var95: real, manual: bool)

  /** `peak` is None before the first evaluation, where the source holds the least float. */
  datatype Switch = Switch(peak: Option<real>, triggered: Option<KillReason>)

  const INIT_SWITCH := Switch(None, None)

  function MaxReal(a: real, b: real): real { if a <= b then b else a }

  function Abs(x: int): int { if x < 0 then -x else x }

  function Evaluate(limits: Limits, s: Switch, o: Observation): Switch {
    if s.triggered.Some? then s else
      var peak := if s.peak.Some? then MaxReal(s.peak.value, o.pnl) else o.pnl;
      Switch(Some(peak),
             if o.manual then Some(Manual)
             else if Abs(o.inventory) > limits.maxAbsInventory then Some(InventoryLimit)
             else if peak - o.pnl > limits.maxDrawdown then Some(Drawdown)
             else if o.var95 > limits.maxVar95 then Some(ValueAtRisk)
             else None)
  }

  function EvaluateAll(limits: Limits, obs: seq<Observation>): Switch {
    if obs == [] then INIT_SWITCH
    else Evaluate(limits, EvaluateAll(limits, obs[..|obs| - 1]), obs[|obs| - 1])
  }

  // The history specification: no running state, only the observations themselves.

  /** P&L has fallen by more than the limit from some earlier or present observation. */
  ghost predicate DrawdownAt(limits: Limits, obs: seq<Observation>, j: nat)
    requires j < |obs|
  {
    exists i :: 0 <= i <= j && obs[i].pnl - obs[j].pnl > limits.maxDrawdown
  }

  /** The breach, if any, that observation `j` shows: manual, then inventory, drawdown, VaR. */
  ghost function BreachAt(limits: Limits, obs: seq<Observation>, j: nat): Option<KillReason>
    requires j < |obs|
  {
    if obs[j].manual then Some(Manual)
    else if Abs(obs[j].inventory) > limits.maxAbsInventory then Some(InventoryLimit)
    else if DrawdownAt(limits, obs, j) then Some(Drawdown)
    else if obs[j].var95 > limits.maxVar95 then Some(ValueAtRisk)
    else None
  }

  ghost predicate FirstBreach(limits: Limits, obs: seq<Observation>, j: nat) {
    && j < |obs| && BreachAt(limits, obs, j).Some?
    && forall i :: 0 <= i < j ==> BreachAt(limits, obs, i) == None
  }

  /** The peak is the running maximum of everything seen, as long as nothing has latched. */
  ghost predicate PeakOk(obs: seq<Observation>, peak: Option<real>) {
    if obs == [] then peak.None? else
      && peak.Some?
      && (forall i :: 0 <= i < |obs| ==> obs[i].pnl <= peak.value)
      && exists i :: 0 <= i < |obs| && obs[i].pnl == peak.value
  }

  lemma BreachPrefix(limits: Limits, obs: seq<Observation>, n: nat, j: nat)
    requires j < n <= |obs|
    ensures BreachAt(limits, obs[..n], j) == BreachAt(limits, obs, j)
  {
    assert forall i :: 0 <= i < n ==> obs[..n][i] == obs[i];
  }

  /** One evaluation of an unlatched switch reports exactly the breach the history shows. */
  lemma EvaluateIsBreach(limits: Limits, obs: seq<Observation>, s: Switch)
    requires obs != [] && s.triggered == None && PeakOk(obs[..|obs| - 1], s.peak)
    ensures Evaluate(limits, s, obs[|obs| - 1]).triggered == BreachAt(limits, obs, |obs| - 1)
    ensures PeakOk(obs, Evaluate(limits, s, obs[|obs| - 1]).peak)
  {
    var n := |obs| - 1;
    var peak := Evaluate(limits, s, obs[n]).peak.value;
    assert forall i :: 0 <= i < n ==> obs[..n][i] == obs[i];
    assert forall i :: 0 <= i <= n ==> obs[i].pnl <= peak;
    var i :| 0 <= i <= n && obs[i].pnl == peak;
    assert peak - obs[n].pnl > limits.maxDrawdown <==> DrawdownAt(limits, obs, n);
  }

  /** The latched reason is that of the first breach in the history, and nothing is latched
      exactly when no observation so far was a breach. */
  lemma {:induction false} LatchIsFirstBreach(limits: Limits, obs: seq<Observation>)
    ensures var s := EvaluateAll(limits, obs);
            && (s.triggered == None <==> forall j :: 0 <= j < |obs| ==> BreachAt(limits, obs, j) == None)
            && (s.triggered.Some? ==>
                  exists j: nat :: FirstBreach(limits, obs, j) && BreachAt(limits, obs, j) == s.triggered)
            && (s.triggered == None ==> PeakOk(obs, s.peak))
    decreases |obs|
  {
    if obs != [] {
      var n := |obs| - 1;
      LatchIsFirstBreach(limits, obs[..n]);
      var s := EvaluateAll(limits, obs[..n]);
      forall j | 0 <= j < n ensures BreachAt(limits, obs[..n], j) == BreachAt(limits, obs, j) {
        BreachPrefix(limits, obs, n, j);
      }
      if s.triggered.Some? {
        var j: nat :| FirstBreach(limits, obs[..n], j) && BreachAt(limits, obs[..n], j) == s.triggered;
        assert FirstBreach(limits, obs, j);
      } else {
        EvaluateIsBreach(limits, obs, s);
        if BreachAt(limits, obs, n).Some? { assert FirstBreach(limits, obs, n); }
      }
    }
  }

  /** While unlatched, every past observation was within every limit, and P&L never fell by
      more than the drawdown limit between any two of them. */
  lemma UnlatchedWithinLimits(limits: Limits, obs: seq<Observation>, i: nat, j: nat)
    requires EvaluateAll(limits, obs).triggered == None && i <= j < |obs|
    ensures !obs[j].manual && Abs(obs[j].inventory) <= limits.maxAbsInventory
    ensures obs[j].var95 <= limits.maxVar95
    ensures obs[i].pnl - obs[j].pnl <= limits.maxDrawdown
  {
    LatchIsFirstBreach(limits, obs);
    assert BreachAt(limits, obs, j) == None;
  }

  /** Once latched, no later observation changes the reason. */
  lemma {:induction false} LatchIsFinal(limits: Limits, obs: seq<Observation>, more: seq<Observation>)
    requires EvaluateAll(limits, obs).triggered.Some?
    ensures EvaluateAll(limits, obs + more) == EvaluateAll(limits, obs)
    decreases |more|
  {
    if more == [] {
      assert obs + more == obs;
    } else {
      LatchIsFinal(limits, obs, more[..|more| - 1]);
      assert (obs + more)[..|obs + more| - 1] == obs + more[..|more| - 1];
    }
  }

  class KillSwitch {
    const limits: Limits
    var peakPnl: Option<real>
    var triggered: Option<KillReason>

    function State(): Switch
      reads this
    {
      Switch(peakPnl, triggered)
    }

    constructor (limits: Limits)
      ensures State() == INIT_SWITCH && this.limits == limits
    {
      this.limits := limits;
      peakPnl, triggered := None, None;
    }

    method EvaluateNow(inventory: int, unrealizedPnl: real, var95: real, manualKill: bool)
        returns (reason: Option<KillReason>)
      modifies this
      ensures State() == Evaluate(limits, old(State()), Observation(inventory, unrealizedPnl, var95, manualKill))
      ensures reason == triggered
    {
      if triggered.Some? {
        return triggered;
      }
      var peak := if peakPnl.Some? then MaxReal(peakPnl.value, unrealizedPnl) else unrealizedPnl;
      peakPnl := Some(peak);
      var drawdown := peak - unrealizedPnl;
      if manualKill {
        reason := Some(Manual);
      } else if Abs(inventory) > limits.maxAbsInventory {
        reason := Some(InventoryLimit);
      } else if drawdown > limits.maxDrawdown {
        reason := Some(Drawdown);
      } else if var95 > limits.maxVar95 {
        reason := Some(ValueAtRisk);
      } else {
        reason := None;
      }
      triggered := reason;
    }

    /** Evaluating again after a reset: the reason latched is that of the first breach since. */
    method EvaluateAfterReset(obs: seq<Observation>) returns (reason: Option<KillReason>)
      modifies this
      ensures State() == EvaluateAll(limits, obs) && reason == triggered
      ensures reason == None <==> forall j :: 0 <= j < |obs| ==> BreachAt(limits, obs, j) == None
      ensures reason.Some? ==>
                exists j: nat :: FirstBreach(limits, obs, j) && BreachAt(limits, obs, j) == reason
    {
      Reset();
      reason := None;
      for i := 0 to |obs|
        invariant State() == EvaluateAll(limits, obs[..i]) && reason == triggered
      {
        assert obs[..i + 1][..i] == obs[..i];
        reason := EvaluateNow(obs[i].inventory, obs[i].pnl, obs[i].var95, obs[i].manual);
      }
      assert obs[..|obs|] == obs;
      LatchIsFirstBreach(limits, obs);
    }

    method Reset()
      modifies this
      ensures State() == INIT_SWITCH
    {
      triggered := None;
      peakPnl := None;
    }
  }
}
