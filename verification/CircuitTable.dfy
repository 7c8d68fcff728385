/** What asking and recording do to a scope, field by field, over every state, status and error kind. */
module CircuitTable {
  import opened Options
  import opened ProviderModels
  import opened SlidingWindow
  import opened Circuit

  /** A call is admitted unless the scope is open, or half-open with every place taken; a half-open scope
      with a free place takes it, and nothing else of the scope changes but its mode. */
  lemma WhenAdmitted(c: Settings, g: Gate, now: int)
    ensures var (after, allowed) := Admit(c, g, now);
            && (allowed <==> match g.openUntil
                             case None => true
                             case Some(until) => until <= now && g.inflight < c.probeCount)
            && after.failures == g.failures && after.openUntil == g.openUntil
            && after.rateLimitUntil == g.rateLimitUntil
            && after.inflight == (if allowed && g.openUntil.Some? then g.inflight + 1 else g.inflight)
            && (after.mode == Closed <==> g.openUntil.None?)
            && (after.mode == Open <==> g.openUntil.Some? && now < g.openUntil.value)
            && (after.mode == HalfOpen <==> g.openUntil.Some? && g.openUntil.value <= now)
  {
  }

  /** With a probe count above one, as many probes as it says are admitted one after the other. */
  lemma {:induction false} AllPlacesAreGiven(c: Settings, g: Gate, now: int, n: nat) returns (after: Gate)
    requires g.openUntil.Some? && g.openUntil.value <= now && g.inflight + n <= c.probeCount
    ensures after.inflight == g.inflight + n && after.openUntil == g.openUntil
    ensures if n == 0 then after == g else Admit(c, g, now).1 && after.mode == HalfOpen
    ensures g.inflight + n == c.probeCount ==> !Admit(c, after, now).1
    decreases n
  {
    if n == 0 {
      return g;
    }
    after := AllPlacesAreGiven(c, Admit(c, g, now).0, now, n - 1);
  }

  /** The delay of a rate-limited result: a positive Retry-After up to the cap is kept, a longer one is
      cut, and a missing or zero one means the open duration. The cap is the longer of the open duration
      and five minutes. */
  lemma CooldownIs(c: Settings, error: ErrorInfo)
    requires c.Valid()
    ensures var d, cap := CooldownMs(c, error), if c.openMs < 300_000 then 300_000 else c.openMs;
            match error.retryAfterMs
            case None => d == c.openMs
            case Some(asked) =>
              if asked == 0 then d == c.openMs else if asked <= cap then d == asked else d == cap
  {
  }

  predicate Opened(g: Gate, after: Gate, until: int) {
    && after.failures == [] && after.inflight == 0 && after.mode == Open
    && after.openUntil == Some(if g.openUntil.Some? && until < g.openUntil.value then g.openUntil.value
                               else if g.openUntil.None? && until < 0 then 0 else until)
  }

  predicate Forgotten(after: Gate) {
    after == Gate([], None, None, 0, Closed)
  }

  /** The errors that say a provider is in trouble. */
  predicate Trouble(status: Status, error: Option<ErrorInfo>) {
    match error
    case None => false
    case Some(e) =>
      (match e.kind
       case Timeout => true
       case UpstreamHttp => true
       case TransportTimeout => true
       case RateLimited => false
       case UpstreamParse => false
       case NoRouteFound => false
       case UnsupportedOperation => false
       case UnsupportedChain => false
       case ProviderUnavailable => false
       case DeadlineExceeded => false
       case Internal => false
       case VaultResolutionFailed => false
       case InvalidVaultConversion => false)
      && (match status
          case StatusError => true
          case StatusOk => true
          case NoRoute => false
          case BadRequest => false)
  }

  /** A rate-limited result opens the scope for its delay, whatever the state. */
  lemma RateLimitedOpens(c: Settings, g: Gate, now: int, status: Status, error: ErrorInfo)
    requires error.kind == RateLimited
    ensures var after := Record(c, g, now, status, Some(error));
            Opened(g, after, now + CooldownMs(c, error)) && after.rateLimitUntil == after.openUntil
  {
  }

  /** During a rate-limit cooldown nothing else counts. */
  lemma CooldownIgnores(c: Settings, g: Gate, now: int, status: Status, error: Option<ErrorInfo>)
    requires g.rateLimitUntil.Some? && now < g.rateLimitUntil.value
    ensures !(error.Some? && error.value.kind == RateLimited) ==> Record(c, g, now, status, error) == g
  {
  }

  /** What a result that is not rate limited does in a half-open scope outside a cooldown: trouble opens it
      again, a success, a missing route or a bad request closes it, and the rest frees a place. */
  lemma HalfOpenTable(c: Settings, g: Gate, now: int, status: Status, error: Option<ErrorInfo>)
    requires g.mode == HalfOpen && (g.rateLimitUntil.Some? ==> g.rateLimitUntil.value <= now) && 0 <= now
    requires error.Some? ==> error.value.kind != RateLimited
    ensures var after := Record(c, g, now, status, error);
            if Trouble(status, error) then Opened(g, after, now + c.openMs) && after.rateLimitUntil == g.rateLimitUntil
            else if status != StatusError then Forgotten(after)
            else after == g.(inflight := if g.inflight > 0 then g.inflight - 1 else 0)
  {
  }

  /** The same in a scope that is not half-open: a success closes it, trouble joins the failures of the
      window and opens the scope when they reach the threshold, and nothing else does anything. */
  lemma SteadyTable(c: Settings, g: Gate, now: int, status: Status, error: Option<ErrorInfo>)
    requires c.Valid() && Ascending(g.failures + [now])
    requires g.mode != HalfOpen && (g.rateLimitUntil.Some? ==> g.rateLimitUntil.value <= now) && 0 <= now
    requires error.Some? ==> error.value.kind != RateLimited
    ensures var after, inWindow := Record(c, g, now, status, error), Recent(g.failures + [now], now - c.windowMs);
            if status.StatusOk? then Forgotten(after)
            else if !Trouble(status, error) then after == g
            else if |inWindow| >= c.threshold then
              Opened(g, after, now + c.openMs) && after.rateLimitUntil == g.rateLimitUntil
            else after == g.(failures := inWindow) && inWindow != [] && inWindow[|inWindow| - 1] == now
  {
    if Trouble(status, error) && !status.StatusOk? {
      TroubleCounts(c, g, now, status, error);
    }
  }

  lemma TroubleCounts(c: Settings, g: Gate, now: int, status: Status, error: Option<ErrorInfo>)
    requires c.Valid() && Ascending(g.failures + [now]) && Trouble(status, error) && !status.StatusOk?
    requires g.mode != HalfOpen && (g.rateLimitUntil.Some? ==> g.rateLimitUntil.value <= now) && 0 <= now
    ensures var inWindow := Recent(g.failures + [now], now - c.windowMs);
            && Record(c, g, now, status, error) == Counted(c, g, now, inWindow)
            && inWindow != [] && inWindow[|inWindow| - 1] == now
  {
    DropIsFilter(g.failures + [now], now - c.windowMs);
    LastIsKept(g.failures, now, now - c.windowMs);
    assert Judge(c, g, now, status, error) == Count;
  }

  /** A release frees a place of a half-open scope and does nothing to any other. */
  lemma WhatReleaseDoes(g: Gate)
    ensures FreeProbe(g) == g.(inflight := if g.mode != HalfOpen then g.inflight
                                           else if g.inflight > 0 then g.inflight - 1 else 0)
  {
  }

  /** With a threshold of one, a failed call opens the circuit on the spot exactly if it is trouble. */
  lemma TroubleTripsAtOnce(c: Settings, kind: ErrorType, retryAfterMs: Option<int>)
    requires c.Valid() && c.threshold == 1 && kind != RateLimited
    ensures var asked := Admit(c, NEW_GATE, 0).0;
            var after := Record(c, asked, 0, StatusError, Some(ErrorInfo(kind, retryAfterMs)));
            Admit(c, after, 0).1 <==> kind != Timeout && kind != UpstreamHttp && kind != TransportTimeout
  {
    assert DropBefore([0], -c.windowMs) == [0];
    assert [] + [0] == [0];
  }
}
