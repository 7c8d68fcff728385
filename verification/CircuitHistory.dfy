/** Whole histories of the circuit breaker: scopes do not interact, a rate-limit cooldown holds
    whatever arrives during it, and the pruned failure deque counts like a log of every failure. */
module CircuitHistory {
  import opened Options
  import opened ProviderModels
  import opened SlidingWindow
  import opened Circuit

  /** One call on one scope, at one reading of the monotonic clock. */
  datatype Event =
    | Ask(at: int)
    | Report(at: int, status: Status, error: Option<ErrorInfo>)
    | Release(at: int)

  function Step(c: Settings, g: Gate, e: Event): Gate {
    match e
    case Ask(at) => Admit(c, g, at).0
    case Report(at, status, error) => Record(c, g, at, status, error)
    case Release(_) => FreeProbe(g)
  }

  function Run(c: Settings, es: seq<Event>): Gate {
    if es == [] then NEW_GATE else Step(c, Run(c, es[..|es| - 1]), es[|es| - 1])
  }

  ghost predicate InOrder(es: seq<Event>) {
    && (forall i :: 0 <= i < |es| ==> 0 <= es[i].at)
    && (forall i, j :: 0 <= i < j < |es| ==> es[i].at <= es[j].at)
  }

  // ---- scopes do not interact

  type Breaker = map<Scope, Gate>

  function GateIn(b: Breaker, s: Scope): Gate {
    if s in b then b[s] else NEW_GATE
  }

  function RunAll(c: Settings, calls: seq<(Scope, Event)>): Breaker {
    if calls == [] then map[]
    else
      var b := RunAll(c, calls[..|calls| - 1]);
      var (s, e) := calls[|calls| - 1];
      b[s := Step(c, GateIn(b, s), e)]
  }

  /** The calls of one scope, in order. */
  function Project(calls: seq<(Scope, Event)>, s: Scope): seq<Event> {
    if calls == [] then []
    else
      var rest := Project(calls[..|calls| - 1], s);
      if calls[|calls| - 1].0 == s then rest + [calls[|calls| - 1].1] else rest
  }

  /** Whatever happens on other scopes, a scope is in the state its own calls alone lead to. */
  lemma {:induction false} ScopesAreIndependent(c: Settings, calls: seq<(Scope, Event)>, s: Scope)
    ensures GateIn(RunAll(c, calls), s) == Run(c, Project(calls, s))
  {
    if calls != [] {
      ScopesAreIndependent(c, calls[..|calls| - 1], s);
      var rest := Project(calls[..|calls| - 1], s);
      var e := calls[|calls| - 1].1;
      assert (rest + [e])[..|rest|] == rest;
    }
  }

  // ---- the rate-limit cooldown

  ghost predicate Cooling(g: Gate, until: int) {
    && g.openUntil.Some? && until <= g.openUntil.value
    && g.rateLimitUntil.Some? && until <= g.rateLimitUntil.value
  }

  lemma {:induction false} CoolingHolds(c: Settings, before: seq<Event>, after: seq<Event>, until: int)
    requires Cooling(Run(c, before), until)
    requires forall i :: 0 <= i < |after| ==> after[i].at < until
    ensures Cooling(Run(c, before + after), until)
  {
    if after == [] {
      assert before + after == before;
    } else {
      var n := |after| - 1;
      CoolingHolds(c, before, after[..n], until);
      assert (before + after)[..|before + after| - 1] == before + after[..n];
    }
  }

  /** After a rate-limited result at time t with computed delay d, every question asked before
      t + d is refused, whatever results, successes or releases came in between. */
  lemma RateLimitCooldownHolds(
      c: Settings, before: seq<Event>, t: int, status: Status, error: ErrorInfo, after: seq<Event>, u: int)
    requires error.kind == RateLimited
    requires InOrder(before + [Report(t, status, Some(error))] + after + [Ask(u)])
    requires u < t + CooldownMs(c, error)
    ensures !Admit(c, Run(c, before + [Report(t, status, Some(error))] + after), u).1
  {
    var limited := before + [Report(t, status, Some(error))];
    var all := limited + after + [Ask(u)];
    assert limited[..|limited| - 1] == before;
    forall i | 0 <= i < |after| ensures after[i].at <= u {
      assert after[i] == all[|limited| + i];
      assert all[|all| - 1].at == u;
    }
    CoolingHolds(c, limited, after, t + CooldownMs(c, error));
  }

  /** The breaker never stays open longer than the larger of the open duration and 300 s. */
  lemma {:induction false} OpenUntilIsBounded(c: Settings, es: seq<Event>)
    requires c.Valid() && InOrder(es) && es != []
    ensures Run(c, es).openUntil.GetOr(0) <= es[|es| - 1].at + Max(c.openMs, MAX_RATE_LIMIT_BACKOFF_MS)
    ensures Run(c, es).rateLimitUntil.GetOr(0) <= Run(c, es).openUntil.GetOr(0)
  {
    var n := |es| - 1;
    if n > 0 {
      OpenUntilIsBounded(c, es[..n]);
      assert es[..n][n - 1].at <= es[n].at;
    } else {
      assert Run(c, es[..n]) == NEW_GATE;
    }
  }

  // ---- the failure window

  /** The reference breaker: its `failures` is the log of every counted failure since the last
      open or close. Nothing is pruned; the window is applied when the log is read. */
  function LogStep(c: Settings, r: Gate, e: Event): Gate {
    if e.Report? && Judge(c, r, e.at, e.status, e.error) == Count then
      var log := r.failures + [e.at];
      if |Recent(log, e.at - c.windowMs)| >= c.threshold then OpenedGate(r, e.at, c.openMs)
      else r.(failures := log)
    else Step(c, r, e)
  }

  function LogRun(c: Settings, es: seq<Event>): Gate {
    if es == [] then NEW_GATE else LogStep(c, LogRun(c, es[..|es| - 1]), es[|es| - 1])
  }

  /** The log as it reads at its newest entry. */
  function InWindow(c: Settings, log: seq<int>): seq<int> {
    if log == [] then [] else Recent(log, log[|log| - 1] - c.windowMs)
  }

  lemma InWindowOfLonger(c: Settings, log: seq<int>, now: int)
    ensures InWindow(c, log + [now]) == Recent(log + [now], now - c.windowMs)
  {
    var longer := log + [now];
    assert longer[|longer| - 1] == now;
  }

  lemma LogAppend(c: Settings, log: seq<int>, now: int)
    requires c.Valid() && Ascending(log)
    requires log != [] ==> log[|log| - 1] <= now
    ensures DropBefore(InWindow(c, log) + [now], now - c.windowMs) == Recent(log + [now], now - c.windowMs)
  {
    var older := (if log == [] then now else log[|log| - 1]) - c.windowMs;
    assert InWindow(c, log) == Recent(log, older);
    AscendingAppend(log, now);
    PruneRefinesLog(log, InWindow(c, log), older, now, now - c.windowMs);
  }

  ghost predicate Agree(c: Settings, g: Gate, r: Gate) {
    && g == r.(failures := InWindow(c, r.failures))
    && |g.failures| < c.threshold
    && Ascending(r.failures)
  }

  lemma CountAgrees(c: Settings, g: Gate, r: Gate, at: int)
    requires c.Valid() && Agree(c, g, r)
    requires r.failures != [] ==> r.failures[|r.failures| - 1] <= at
    ensures var log := r.failures + [at];
            var inWindow := Recent(log, at - c.windowMs);
            && DropBefore(g.failures + [at], at - c.windowMs) == inWindow
            && Agree(c, Counted(c, g, at, inWindow),
                     if |inWindow| >= c.threshold then OpenedGate(r, at, c.openMs) else r.(failures := log))
  {
    LogAppend(c, r.failures, at);
    InWindowOfLonger(c, r.failures, at);
    AscendingAppend(r.failures, at);
  }

  lemma SettleAgrees(c: Settings, g: Gate, r: Gate, at: int, verdict: Verdict)
    requires c.Valid() && Agree(c, g, r)
    ensures Agree(c, Settle(c, g, at, verdict), Settle(c, r, at, verdict))
    ensures var log := Settle(c, r, at, verdict).failures; log == r.failures || log == []
  {
  }

  lemma ReportAgrees(c: Settings, g: Gate, r: Gate, e: Event)
    requires c.Valid() && Agree(c, g, r) && e.Report?
    requires r.failures != [] ==> r.failures[|r.failures| - 1] <= e.at
    ensures Agree(c, Step(c, g, e), LogStep(c, r, e))
    ensures var log := LogStep(c, r, e).failures;
            log == r.failures || log == [] || log == r.failures + [e.at]
  {
    var verdict := Judge(c, r, e.at, e.status, e.error);
    assert verdict == Judge(c, g, e.at, e.status, e.error);
    if verdict == Count {
      CountAgrees(c, g, r, e.at);
    } else {
      SettleAgrees(c, g, r, e.at, verdict);
    }
  }

  lemma StepAgrees(c: Settings, g: Gate, r: Gate, e: Event)
    requires c.Valid() && Agree(c, g, r)
    requires r.failures != [] ==> r.failures[|r.failures| - 1] <= e.at
    ensures Agree(c, Step(c, g, e), LogStep(c, r, e))
    ensures var log := LogStep(c, r, e).failures;
            log == r.failures || log == [] || log == r.failures + [e.at]
  {
    if e.Report? {
      ReportAgrees(c, g, r, e);
    }
  }

  /** In every history the deque is exactly the filtered log, it is shorter than the threshold,
      and in everything else the two breakers agree, so they answer every question alike. */
  lemma {:induction false} DequeIsFilteredLog(c: Settings, es: seq<Event>)
    requires c.Valid() && InOrder(es)
    ensures Agree(c, Run(c, es), LogRun(c, es))
    ensures var r := LogRun(c, es);
            (r.failures != [] ==> es != [] && r.failures[|r.failures| - 1] <= es[|es| - 1].at)
  {
    if es != [] {
      var n := |es| - 1;
      DequeIsFilteredLog(c, es[..n]);
      if n > 0 {
        assert es[..n][n - 1].at <= es[n].at;
      }
      StepAgrees(c, Run(c, es[..n]), LogRun(c, es[..n]), es[n]);
    }
  }

  /** A counted failure opens the circuit exactly when the failures since the last open or close
      that are no older than the window, this one included, reach the threshold. */
  lemma OpensExactlyAtThreshold(c: Settings, es: seq<Event>, at: int, status: Status, error: Option<ErrorInfo>)
    requires c.Valid() && InOrder(es + [Report(at, status, error)])
    requires Judge(c, Run(c, es), at, status, error) == Count
    ensures var g := Run(c, es);
            var inWindow := Recent(LogRun(c, es).failures + [at], at - c.windowMs);
            Run(c, es + [Report(at, status, error)])
            == if |inWindow| >= c.threshold then OpenedGate(g, at, c.openMs) else g.(failures := inWindow)
  {
    PrunedIsRecentLog(c, es, Report(at, status, error));
    RunAppend(c, es, Report(at, status, error));
    CountedStep(c, Run(c, es), at, status, error);
  }

  lemma CountedStep(c: Settings, g: Gate, at: int, status: Status, error: Option<ErrorInfo>)
    requires Judge(c, g, at, status, error) == Count
    ensures Step(c, g, Report(at, status, error))
            == Counted(c, g, at, DropBefore(g.failures + [at], at - c.windowMs))
  {
  }

  lemma PrunedIsRecentLog(c: Settings, es: seq<Event>, e: Event)
    requires c.Valid() && InOrder(es + [e])
    ensures DropBefore(Run(c, es).failures + [e.at], e.at - c.windowMs)
            == Recent(LogRun(c, es).failures + [e.at], e.at - c.windowMs)
  {
    InOrderPrefix(es, e);
    DequeIsFilteredLog(c, es);
    AgreeingAppend(c, Run(c, es), LogRun(c, es), e.at);
  }

  lemma AgreeingAppend(c: Settings, g: Gate, r: Gate, at: int)
    requires c.Valid() && Agree(c, g, r)
    requires r.failures != [] ==> r.failures[|r.failures| - 1] <= at
    ensures DropBefore(g.failures + [at], at - c.windowMs) == Recent(r.failures + [at], at - c.windowMs)
  {
    LogAppend(c, r.failures, at);
  }

  lemma InOrderPrefix(es: seq<Event>, e: Event)
    requires InOrder(es + [e])
    ensures InOrder(es)
    ensures es != [] ==> es[|es| - 1].at <= e.at
  {
    var all := es + [e];
    assert forall i :: 0 <= i < |es| ==> all[i] == es[i];
    assert all[|es|] == e;
  }

  lemma RunAppend(c: Settings, es: seq<Event>, e: Event)
    ensures Run(c, es + [e]) == Step(c, Run(c, es), e)
  {
    assert (es + [e])[..|es + [e]| - 1] == es;
  }
}
