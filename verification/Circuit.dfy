/** price_api/core/circuit.py: the per-scope circuit breaker. Times are integer milliseconds. */
module Circuit {
  import opened Options
  import opened ProviderModels
  import opened SlidingWindow

  const MAX_RATE_LIMIT_BACKOFF_MS := 300_000

  datatype Scope = Scope(provider: string, chainId: int, operation: Operation)

  datatype Mode = Unset | Closed | Open | HalfOpen

  datatype Settings = Settings(windowMs: int, threshold: int, openMs: int, probeCount: int)
  {
    /** The configuration refuses anything that is not positive. */
    predicate Valid() {
      windowMs > 0 && threshold > 0 && openMs > 0 && probeCount > 0
    }
  }

  /** What the five dictionaries hold for one scope. */
  datatype Gate = Gate(
    failures: seq<int>,
    openUntil: Option<int>,
    rateLimitUntil: Option<int>,
    inflight: int,
    mode: Mode)

  const NEW_GATE := Gate([], None, None, 0, Unset)

  // ---- the specification of the operations, one scope at a time

  predicate IsCircuitFailure(status: Status, error: Option<ErrorInfo>) {
    && !status.BadRequest? && !status.NoRoute?
    && error.Some?
    && (error.value.kind.Timeout? || error.value.kind.UpstreamHttp? || error.value.kind.TransportTimeout?)
  }

  predicate IsRecovery(status: Status) {
    status.StatusOk? || status.NoRoute? || status.BadRequest?
  }

  function ClosedGate(): Gate {
    NEW_GATE.(mode := Closed)
  }

  function OpenedGate(g: Gate, now: int, delay: int): Gate {
    Gate([], Some(Max(g.openUntil.GetOr(0), now + delay)), g.rateLimitUntil, 0, Open)
  }

  function FreeProbe(g: Gate): Gate {
    if g.mode == HalfOpen then g.(inflight := Max(g.inflight - 1, 0)) else g
  }

  /** The gate after `allow`, and the answer. */
  function Admit(c: Settings, g: Gate, now: int): (Gate, bool) {
    if g.openUntil.None? then (g.(mode := Closed), true)
    else if now < g.openUntil.value then (g.(mode := Open), false)
    else if g.inflight >= c.probeCount then (g.(mode := HalfOpen), false)
    else (g.(mode := HalfOpen, inflight := g.inflight + 1), true)
  }

  /** The cooldown a rate-limited result asks for: absent or zero means the open duration. */
  function CooldownMs(c: Settings, error: ErrorInfo): int {
    var asked := if error.retryAfterMs.GetOr(0) != 0 then error.retryAfterMs.value else c.openMs;
    Min(asked, Max(c.openMs, MAX_RATE_LIMIT_BACKOFF_MS))
  }

  /** How `record_result` treats a result. */
  datatype Verdict =
    | Cool(delay: int)  // rate limited: open for that long
    | Ignored           // arrived during a rate-limit cooldown
    | Trip              // a half-open probe period saw a failure
    | Recover           // close
    | Free              // half-open, neither failure nor recovery
    | Count             // a failure that joins the window
    | Neutral

  function Judge(c: Settings, g: Gate, now: int, status: Status, error: Option<ErrorInfo>): Verdict {
    if error.Some? && error.value.kind == RateLimited then Cool(CooldownMs(c, error.value))
    else if now < g.rateLimitUntil.GetOr(0) then Ignored
    else if g.mode == HalfOpen then
      if IsCircuitFailure(status, error) then Trip
      else if IsRecovery(status) then Recover
      else Free
    else if status == StatusOk then Recover
    else if IsCircuitFailure(status, error) then Count
    else Neutral
  }

  /** A counted failure, given the deque as it is after appending and pruning. */
  function Counted(c: Settings, g: Gate, now: int, pruned: seq<int>): Gate {
    if |pruned| >= c.threshold then OpenedGate(g, now, c.openMs) else g.(failures := pruned)
  }

  /** Every verdict but Count leaves a gate that does not depend on the failure deque's content. */
  function Settle(c: Settings, g: Gate, now: int, verdict: Verdict): Gate {
    match verdict
    case Cool(delay) =>
      var after := OpenedGate(g, now, delay);
      after.(rateLimitUntil := after.openUntil)
    case Trip => OpenedGate(g, now, c.openMs)
    case Recover => ClosedGate()
    case Free => FreeProbe(g)
    case _ => g
  }

  function Record(c: Settings, g: Gate, now: int, status: Status, error: Option<ErrorInfo>): Gate {
    var verdict := Judge(c, g, now, status, error);
    if verdict == Count then Counted(c, g, now, DropBefore(g.failures + [now], now - c.windowMs))
    else Settle(c, g, now, verdict)
  }

  // ---- the class

  class CircuitBreaker {
    const settings: Settings
    var failures: map<Scope, seq<int>>
    var openUntil: map<Scope, int>
    var rateLimitUntil: map<Scope, int>
    var halfOpenInflight: map<Scope, int>
    var state: map<Scope, Mode>

    ghost function GateOf(s: Scope): Gate
      reads this
    {
      Gate(
        if s in failures then failures[s] else [],
        if s in openUntil then Some(openUntil[s]) else None,
        if s in rateLimitUntil then Some(rateLimitUntil[s]) else None,
        if s in halfOpenInflight then halfOpenInflight[s] else 0,
        if s in state then state[s] else Unset)
    }

    constructor (settings: Settings)
      requires settings.Valid()
      ensures this.settings == settings
      ensures forall s :: GateOf(s) == NEW_GATE
    {
      this.settings := settings;
      failures, openUntil, rateLimitUntil, halfOpenInflight, state := map[], map[], map[], map[], map[];
    }

    method SetState(scope: Scope, mode: Mode)
      modifies this`state
      ensures GateOf(scope) == old(GateOf(scope)).(mode := mode)
      ensures forall s :: s != scope ==> GateOf(s) == old(GateOf(s))
    {
      state := state[scope := mode];
    }

    method Allow(scope: Scope, now: int) returns (allowed: bool)
      modifies this
      ensures (GateOf(scope), allowed) == Admit(settings, old(GateOf(scope)), now)
      ensures forall s :: s != scope ==> GateOf(s) == old(GateOf(s))
    {
      if scope !in openUntil {
        SetState(scope, Closed);
        return true;
      }
      if now < openUntil[scope] {
        SetState(scope, Open);
        return false;
      }
      SetState(scope, HalfOpen);
      var inflight := if scope in halfOpenInflight then halfOpenInflight[scope] else 0;
      if inflight >= settings.probeCount {
        return false;
      }
      halfOpenInflight := halfOpenInflight[scope := inflight + 1];
      return true;
    }

    method RecordResult(scope: Scope, now: int, status: Status, error: Option<ErrorInfo>)
      modifies this
      ensures GateOf(scope) == Record(settings, old(GateOf(scope)), now, status, error)
      ensures forall s :: s != scope ==> GateOf(s) == old(GateOf(s))
    {
      ghost var verdict := Judge(settings, GateOf(scope), now, status, error);
      if error.Some? && error.value.kind == RateLimited {
        assert verdict == Cool(CooldownMs(settings, error.value));
        CoolDown(scope, now, CooldownMs(settings, error.value));
        return;
      }
      if now < (if scope in rateLimitUntil then rateLimitUntil[scope] else 0) {
        assert verdict == Ignored;
        return;
      }
      var isFailure := IsCircuitFailure(status, error);
      if scope in state && state[scope] == HalfOpen {
        assert verdict == if isFailure then Trip else if IsRecovery(status) then Recover else Free;
        RecordProbe(scope, now, status, isFailure);
      } else {
        assert verdict == if status == StatusOk then Recover else if isFailure then Count else Neutral;
        RecordSteady(scope, now, status, isFailure);
      }
    }

    method CoolDown(scope: Scope, now: int, delay: int)
      modifies this
      ensures GateOf(scope) == var after := OpenedGate(old(GateOf(scope)), now, delay);
                               after.(rateLimitUntil := after.openUntil)
      ensures forall s :: s != scope ==> GateOf(s) == old(GateOf(s))
    {
      OpenCircuit(scope, now, delay);
      rateLimitUntil := rateLimitUntil[scope := openUntil[scope]];
    }

    method RecordProbe(scope: Scope, now: int, status: Status, isFailure: bool)
      requires GateOf(scope).mode == HalfOpen
      modifies this
      ensures GateOf(scope) == var g := old(GateOf(scope));
                               if isFailure then OpenedGate(g, now, settings.openMs)
                               else if IsRecovery(status) then ClosedGate()
                               else FreeProbe(g)
      ensures forall s :: s != scope ==> GateOf(s) == old(GateOf(s))
    {
      ReleaseProbe(scope);
      if isFailure {
        OpenCircuit(scope, now, settings.openMs);
      } else if IsRecovery(status) {
        Close(scope);
      }
    }

    method RecordSteady(scope: Scope, now: int, status: Status, isFailure: bool)
      modifies this
      ensures GateOf(scope) == var g := old(GateOf(scope));
                               if status == StatusOk then ClosedGate()
                               else if isFailure then
                                 Counted(settings, g, now, DropBefore(g.failures + [now], now - settings.windowMs))
                               else g
      ensures forall s :: s != scope ==> GateOf(s) == old(GateOf(s))
    {
      if status == StatusOk {
        Close(scope);
        return;
      }
      if !isFailure {
        return;
      }
      CountFailure(scope, now);
    }

    method CountFailure(scope: Scope, now: int)
      modifies this
      ensures GateOf(scope) == var g := old(GateOf(scope));
                               Counted(settings, g, now, DropBefore(g.failures + [now], now - settings.windowMs))
      ensures forall s :: s != scope ==> GateOf(s) == old(GateOf(s))
    {
      var deque := (if scope in failures then failures[scope] else []) + [now];
      var cutoff := now - settings.windowMs;
      ghost var appended := deque;
      while deque != [] && deque[0] < cutoff
        invariant DropBefore(deque, cutoff) == DropBefore(appended, cutoff)
      {
        deque := deque[1..];
      }
      failures := failures[scope := deque];
      if |deque| >= settings.threshold {
        OpenCircuit(scope, now, settings.openMs);
      }
    }

    method ReleaseProbe(scope: Scope)
      modifies this`halfOpenInflight
      ensures GateOf(scope) == FreeProbe(old(GateOf(scope)))
      ensures forall s :: s != scope ==> GateOf(s) == old(GateOf(s))
    {
      if !(scope in state && state[scope] == HalfOpen) {
        return;
      }
      var inflight := if scope in halfOpenInflight then halfOpenInflight[scope] else 1;
      halfOpenInflight := halfOpenInflight[scope := Max(inflight - 1, 0)];
    }

    method CircuitOpenProviders(now: int, chainId: int, operation: Operation) returns (providers: set<string>)
      ensures forall p :: p in providers <==>
          var until := GateOf(Scope(p, chainId, operation)).openUntil; until.Some? && now < until.value
    {
      providers := set s | s in openUntil && now < openUntil[s] && s.chainId == chainId && s.operation == operation
        :: s.provider;
      forall p ensures p in providers <==> Scope(p, chainId, operation) in openUntil
                                           && now < openUntil[Scope(p, chainId, operation)] {
      }
    }

    method Close(scope: Scope)
      modifies this
      ensures GateOf(scope) == ClosedGate()
      ensures forall s :: s != scope ==> GateOf(s) == old(GateOf(s))
    {
      failures := failures - {scope};
      openUntil := openUntil - {scope};
      rateLimitUntil := rateLimitUntil - {scope};
      halfOpenInflight := halfOpenInflight - {scope};
      SetState(scope, Closed);
    }

    method OpenCircuit(scope: Scope, now: int, delay: int)
      modifies this
      ensures GateOf(scope) == OpenedGate(old(GateOf(scope)), now, delay)
      ensures scope in openUntil
      ensures forall s :: s != scope ==> GateOf(s) == old(GateOf(s))
    {
      failures := failures - {scope};
      halfOpenInflight := halfOpenInflight - {scope};
      var until := now + delay;
      openUntil := openUntil[scope := Max(if scope in openUntil then openUntil[scope] else 0, until)];
      SetState(scope, Open);
    }
  }
}
