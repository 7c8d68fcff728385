/** The half-open counter of one scope against the probes that are really outstanding. A half-open
    period starts whenever the counter is dropped, that is whenever the breaker opens or closes;
    a probe is a permission granted after `open_until` has passed. */
module CircuitProbes {
  import opened Options
  import opened ProviderModels
  import opened SlidingWindow
  import opened Circuit

  /** Does recording this result open or close the breaker? */
  predicate StartsPeriod(c: Settings, g: Gate, now: int, status: Status, error: Option<ErrorInfo>) {
    match Judge(c, g, now, status, error)
    case Cool(_) => true
    case Trip => true
    case Recover => true
    case Count => |DropBefore(g.failures + [now], now - c.windowMs)| >= c.threshold
    case _ => false
  }

  /** `probes` is the number of unsettled probes of the current half-open period. */
  ghost predicate Steady(c: Settings, g: Gate, now: int, probes: int) {
    && 0 <= g.inflight <= probes
    && g.inflight <= c.probeCount
    && g.rateLimitUntil.GetOr(0) <= g.openUntil.GetOr(0)
    && (probes > 0 ==> g.mode == HalfOpen && g.openUntil.Some? && g.openUntil.value <= now)
  }

  lemma NewGateIsSteady(c: Settings)
    requires c.Valid()
    ensures forall now :: Steady(c, NEW_GATE, now, 0)
  {
  }

  lemma TimeKeepsSteady(c: Settings, g: Gate, now: int, later: int, probes: int)
    requires Steady(c, g, now, probes) && now <= later
    ensures Steady(c, g, later, probes)
  {
  }

  lemma AskKeepsSteady(c: Settings, g: Gate, now: int, probes: int)
    requires c.Valid() && Steady(c, g, now, probes)
    ensures var (after, allowed) := Admit(c, g, now);
            Steady(c, after, now, if allowed && g.openUntil.Some? then probes + 1 else probes)
  {
  }

  /** `mine` says that the call whose result arrives is itself a probe of the current period. */
  lemma ReportKeepsSteady(
      c: Settings, g: Gate, now: int, status: Status, error: Option<ErrorInfo>, probes: int, mine: bool)
    requires c.Valid() && 0 <= now && Steady(c, g, now, probes) && (mine ==> probes > 0)
    ensures var after := Record(c, g, now, status, error);
            Steady(c, after, now,
                   if StartsPeriod(c, g, now, status, error) then 0
                   else if mine then probes - 1 else probes)
  {
    var verdict := Judge(c, g, now, status, error);
    if probes > 0 {
      assert !verdict.Ignored? && !verdict.Count? && !verdict.Neutral?;
    }
  }

  lemma ReleaseKeepsSteady(c: Settings, g: Gate, now: int, probes: int, mine: bool)
    requires c.Valid() && Steady(c, g, now, probes) && (mine ==> probes > 0)
    ensures Steady(c, FreeProbe(g), now, if mine then probes - 1 else probes)
  {
  }

  /** With no probe outstanding and the open period over, the breaker admits a call. */
  lemma NeverWedged(c: Settings, g: Gate, now: int)
    requires c.Valid() && Steady(c, g, now, 0)
    requires g.openUntil.GetOr(now) <= now
    ensures Admit(c, g, now).1
  {
  }

  // ---- the counter against the real number of probes

  /** The place that recording a result frees in a half-open period. */
  predicate FreesPlace(c: Settings, g: Gate, now: int, status: Status, error: Option<ErrorInfo>) {
    g.mode == HalfOpen && g.inflight > 0 && Judge(c, g, now, status, error).Free?
  }

  /** A result that starts no new period lowers the counter exactly if it frees a place, and a probe's own
      result always does unless the counter is zero already. */
  lemma ReportMovesCounter(
    c: Settings, g: Gate, now: int, status: Status, error: Option<ErrorInfo>, probes: int, mine: bool)
    requires c.Valid() && 0 <= now && Steady(c, g, now, probes) && (mine ==> probes > 0)
    requires !StartsPeriod(c, g, now, status, error)
    ensures Record(c, g, now, status, error).inflight
            == if FreesPlace(c, g, now, status, error) then g.inflight - 1 else g.inflight
    ensures mine ==> (FreesPlace(c, g, now, status, error) <==> g.inflight > 0)
  {
    var verdict := Judge(c, g, now, status, error);
    if probes > 0 {
      assert !verdict.Ignored? && !verdict.Count? && !verdict.Neutral?;
    }
  }

  /** While the counter is the number of outstanding probes, recording a result that starts no new period
      keeps it so exactly if the result is a probe's own, or frees nothing. */
  lemma ReportIsExactIff(
    c: Settings, g: Gate, now: int, status: Status, error: Option<ErrorInfo>, probes: int, mine: bool)
    requires c.Valid() && 0 <= now && Steady(c, g, now, probes) && (mine ==> probes > 0)
    requires g.inflight == probes && !StartsPeriod(c, g, now, status, error)
    ensures Record(c, g, now, status, error).inflight == (if mine then probes - 1 else probes)
            <==> mine || !FreesPlace(c, g, now, status, error)
  {
    ReportMovesCounter(c, g, now, status, error, probes, mine);
  }

  lemma ReleaseIsExactIff(c: Settings, g: Gate, now: int, probes: int, mine: bool)
    requires c.Valid() && Steady(c, g, now, probes) && (mine ==> probes > 0) && g.inflight == probes
    ensures FreeProbe(g).inflight == (if mine then probes - 1 else probes)
            <==> mine || g.inflight == 0 || g.mode != HalfOpen
  {
  }

  /** With one probe allowed, a late result of a call from before the circuit opened frees the place of
      the probe that is still out, and a second probe is let through. */
  lemma LateResultLetsSecondProbeThrough()
    ensures var c := Settings(1, 1, 1, 1);
            var tripped := Record(c, Admit(c, NEW_GATE, 0).0, 0, StatusError, Some(ErrorInfo(Timeout, None)));
            var (probing, first) := Admit(c, tripped, 1);
            var freed := Record(c, probing, 1, StatusError, Some(ErrorInfo(Internal, None)));
            first && !Admit(c, probing, 1).1 && Admit(c, freed, 1).1
  {
    assert DropBefore([0], -1) == [0];
    assert [] + [0] == [0];
  }
}
