/** The histories of the circuit breaker inside the provider runner: the gate of a scope is what the
    calls that a schedule makes on it lead to, so what holds of every history holds of every schedule. */
module RunnerHistory {
  import opened Options
  import opened SlidingWindow
  import opened ProviderModels
  import opened Circuit
  import opened ProviderRunner
  import opened RunnerSafety
  import History = CircuitHistory

  /** The call that a step makes on a scope. */
  function CallOn(w: World, s: Step, scope: Scope): Option<History.Event> {
    if !s.Do? || s.r !in w.runs || !Touches(w.runs[s.r], s.act, scope) then None
    else if s.act.Consider? then Some(History.Ask(w.now))
    else if s.act.RecordOne? then
      var x := w.runs[s.r].phase.todo[0];
      Some(History.Report(w.now, x.status, x.error))
    else Some(History.Release(w.now))
  }

  function CallsOn(c: Config, steps: seq<Step>, scope: Scope): seq<History.Event>
    requires Feasible(c, steps)
  {
    if steps == [] then []
    else
      var n := |steps| - 1;
      var call := CallOn(Exec(c, steps[..n]), steps[n], scope);
      CallsOn(c, steps[..n], scope) + if call.Some? then [call.value] else []
  }

  lemma StepIsCall(c: Config, w: World, s: Step, scope: Scope)
    requires Enabled(c, w, s)
    ensures var call := CallOn(w, s, scope);
            var gate := TrackedOf(w, scope).gate;
            TrackedOf(Apply(c, w, s), scope).gate
            == if call.Some? then History.Step(c.circuit, gate, call.value) else gate
  {
  }

  ghost predicate UpTo(es: seq<History.Event>, now: nat) {
    History.InOrder(es) && forall e <- es :: e.at <= now
  }

  lemma CallAppends(c: Settings, es: seq<History.Event>, e: History.Event, before: nat, now: nat)
    requires UpTo(es, before) && before <= now && e.at == now
    ensures UpTo(es + [e], now) && History.Run(c, es + [e]) == History.Step(c, History.Run(c, es), e)
  {
    History.RunAppend(c, es, e);
  }

  /** The gate of a scope is the state its calls lead to, and they come in the order of the clock. */
  lemma {:induction false} GateIsHistory(c: Config, steps: seq<Step>, scope: Scope)
    requires c.Valid() && Feasible(c, steps)
    ensures TrackedOf(Exec(c, steps), scope).gate == History.Run(c.circuit, CallsOn(c, steps, scope))
    ensures UpTo(CallsOn(c, steps, scope), Exec(c, steps).now)
  {
    if steps != [] {
      var n := |steps| - 1;
      var w := Exec(c, steps[..n]);
      GateIsHistory(c, steps[..n], scope);
      StepIsCall(c, w, steps[n], scope);
      var before, call := CallsOn(c, steps[..n], scope), CallOn(w, steps[n], scope);
      if call.Some? {
        CallAppends(c.circuit, before, call.value, w.now, w.now);
      } else {
        assert before + [] == before;
      }
    }
  }

  lemma FeasiblePrefix(c: Config, steps: seq<Step>, i: nat)
    requires Feasible(c, steps) && i <= |steps|
    ensures Feasible(c, steps[..i])
    decreases |steps|
  {
    if i < |steps| {
      var n := |steps| - 1;
      FeasiblePrefix(c, steps[..n], i);
      assert steps[..n][..i] == steps[..i];
    } else {
      assert steps[..i] == steps;
    }
  }

  /** A longer schedule only adds calls. */
  lemma {:induction false} CallsGrow(c: Config, steps: seq<Step>, i: nat, scope: Scope)
    requires Feasible(c, steps) && i <= |steps| && Feasible(c, steps[..i])
    ensures CallsOn(c, steps[..i], scope) <= CallsOn(c, steps, scope)
    decreases |steps|
  {
    if i < |steps| {
      var n := |steps| - 1;
      assert steps[..n][..i] == steps[..i];
      CallsGrow(c, steps[..n], i, scope);
    } else {
      assert steps[..i] == steps;
    }
  }

  lemma CallAdded(c: Config, steps: seq<Step>, i: nat, scope: Scope)
    requires Feasible(c, steps) && i < |steps| && Feasible(c, steps[..i])
    requires CallOn(Exec(c, steps[..i]), steps[i], scope).Some?
    ensures CallsOn(c, steps[..i], scope) + [CallOn(Exec(c, steps[..i]), steps[i], scope).value]
            <= CallsOn(c, steps, scope)
  {
    FeasiblePrefix(c, steps, i + 1);
    assert steps[..i + 1][..i] == steps[..i];
    CallsGrow(c, steps, i + 1, scope);
  }

  /** In every schedule: once a run has recorded a rate-limited result on a scope, no run is admitted to
      that scope until the computed delay has passed, whatever all runs do meanwhile. */
  lemma CooldownHoldsInSchedule(
    c: Config, steps: seq<Step>, i: nat, scope: Scope, status: Status, error: ErrorInfo)
    requires c.Valid() && Feasible(c, steps) && i < |steps| && Feasible(c, steps[..i])
    requires error.kind == RateLimited
    requires var w := Exec(c, steps[..i]);
             && CallOn(w, steps[i], scope) == Some(History.Report(w.now, status, Some(error)))
             && Exec(c, steps).now < w.now + CooldownMs(c.circuit, error)
    ensures Permission(c, TrackedOf(Exec(c, steps), scope), Exec(c, steps).now).None?
  {
    var t, now := Exec(c, steps[..i]).now, Exec(c, steps).now;
    var before, all := CallsOn(c, steps[..i], scope), CallsOn(c, steps, scope);
    CallAdded(c, steps, i, scope);
    GateIsHistory(c, steps, scope);
    var limited := before + [History.Report(t, status, Some(error))];
    var after := all[|limited|..];
    assert all == limited + after;
    InOrderNext(all, History.Ask(now));
    History.RateLimitCooldownHolds(c.circuit, before, t, status, error, after, now);
  }

  lemma InOrderNext(es: seq<History.Event>, e: History.Event)
    requires e.at >= 0 && UpTo(es, e.at)
    ensures History.InOrder(es + [e])
  {
  }

  /** Recording opens the gate exactly when the log, with this failure and filtered by the window, reaches
      the threshold, and otherwise keeps that much of the log. */
  predicate OpensAtThreshold(
    c: Settings, gate: Gate, log: seq<int>, now: int, status: Status, error: Option<ErrorInfo>)
  {
    var inWindow := Recent(log + [now], now - c.windowMs);
    Record(c, gate, now, status, error)
    == if |inWindow| >= c.threshold then OpenedGate(gate, now, c.openMs) else gate.(failures := inWindow)
  }

  lemma CountedInHistory(c: Settings, es: seq<History.Event>, now: nat, status: Status, error: Option<ErrorInfo>)
    requires c.Valid() && UpTo(es, now) && Judge(c, History.Run(c, es), now, status, error) == Count
    ensures OpensAtThreshold(c, History.Run(c, es), History.LogRun(c, es).failures, now, status, error)
  {
    var report := History.Report(now, status, error);
    InOrderNext(es, report);
    History.OpensExactlyAtThreshold(c, es, now, status, error);
    History.RunAppend(c, es, report);
  }

  /** In every schedule: a result that counts as a failure opens its scope exactly when the failures that
      any runs recorded on it since it last opened or closed, within the window and with this one, reach
      the threshold. */
  lemma OpensAtThresholdInSchedule(c: Config, steps: seq<Step>, scope: Scope, status: Status, error: Option<ErrorInfo>)
    requires c.Valid() && Feasible(c, steps)
    requires var w := Exec(c, steps); Judge(c.circuit, TrackedOf(w, scope).gate, w.now, status, error) == Count
    ensures var w, log := Exec(c, steps), History.LogRun(c.circuit, CallsOn(c, steps, scope)).failures;
            OpensAtThreshold(c.circuit, TrackedOf(w, scope).gate, log, w.now, status, error)
  {
    GateIsHistory(c, steps, scope);
    CountedInHistory(c.circuit, CallsOn(c, steps, scope), Exec(c, steps).now, status, error);
  }
}
