/** The real number of half-open probes in flight. The breaker counts probes and lowers the count for any
    result or release on the scope, so the count is the number of probes as long as only probes are
    settled, and can fall below it otherwise. */
module RunnerProbes {
  import opened Circuit
  import opened CircuitProbes
  import opened ProviderRunner
  import opened RunInvariant
  import opened RunnerSafety
  import opened RunnerTheorems

  /** The step settles a permission of the scope in a half-open period without starting a new one. */
  predicate Settles(w: World, step: Step, s: Scope) {
    step.Do? && step.r in w.runs && Touches(w.runs[step.r], step.act, s) && !step.act.Consider?
  }

  /** The permission that it settles is a probe of the current period. */
  predicate Own(w: World, step: Step, s: Scope)
    requires Settles(w, step, s)
  {
    HoldsProbe(w.runs[step.r], s, TrackedOf(w, s).period)
  }

  /** A step that frees the place of a probe without being the end of one: it settles, in a half-open
      period with a place taken, a permission that is no probe of that period, and the breaker frees a
      place for it. */
  predicate Leaks(c: Config, w: World, step: Step, s: Scope) {
    && Settles(w, step, s) && !Own(w, step, s)
    && var t := TrackedOf(w, s);
       && t.gate.mode == HalfOpen && t.gate.inflight > 0
       && (step.act.RecordOne? ==>
             var x := w.runs[step.r].phase.todo[0]; FreesPlace(c.circuit, t.gate, w.now, x.status, x.error))
  }

  /** A probe ends whose place has been freed before. */
  predicate Repays(w: World, step: Step, s: Scope) {
    Settles(w, step, s) && Own(w, step, s) && TrackedOf(w, s).gate.inflight == 0
  }

  function Drift(c: Config, w: World, step: Step, s: Scope): int {
    if Leaks(c, w, step, s) then 1 else if Repays(w, step, s) then -1 else 0
  }

  /** The probes that are out beyond the counter. */
  ghost function Gap(w: World, s: Scope): int {
    |ProbeHolders(w, s)| - TrackedOf(w, s).gate.inflight
  }

  ghost predicate Exact(w: World, s: Scope) {
    TrackedOf(w, s).gate.inflight == |ProbeHolders(w, s)|
  }

  predicate SamePeriod(c: Config, w: World, step: Step, s: Scope)
    requires Enabled(c, w, step)
  {
    TrackedOf(Apply(c, w, step), s).period == TrackedOf(w, s).period
  }

  lemma ConsiderKeepsGap(c: Config, w: World, r: nat, s: Scope)
    requires c.Valid() && Enabled(c, w, Do(r, Consider)) && RunOk(c, w.runs[r]) && GateOk(c, w, s)
    requires Touches(w.runs[r], Consider, s)
    ensures SamePeriod(c, w, Do(r, Consider), s) && Gap(Apply(c, w, Do(r, Consider)), s) == Gap(w, s)
  {
    ConsiderKeepsGate(c, w, r, s);
  }

  lemma SizeWithout(probes: set<nat>, r: nat)
    ensures |probes - {r}| == if r in probes then |probes| - 1 else |probes|
  {
    if r !in probes {
      assert probes - {r} == probes;
    }
  }

  /** The same on values: the probes that are left against the counter that is left. */
  lemma RecordedGap(c: Config, t: Tracked, now: int, x: ProviderResult, probes: set<nat>, r: nat)
    requires c.Valid() && 0 <= now && Steady(c.circuit, t.gate, now, |probes|)
    ensures var t' := Recorded(c, t, now, x);
            if t'.period == t.period then
              |probes - {r}| - t'.gate.inflight == |probes| - t.gate.inflight
                + if r in probes then (if t.gate.inflight == 0 then -1 else 0)
                  else if FreesPlace(c.circuit, t.gate, now, x.status, x.error) then 1 else 0
            else t'.gate.inflight == 0
  {
    if !StartsPeriod(c.circuit, t.gate, now, x.status, x.error) {
      ReportMovesCounter(c.circuit, t.gate, now, x.status, x.error, |probes|, r in probes);
      SizeWithout(probes, r);
    }
  }

  lemma RecordMovesGap(c: Config, w: World, r: nat, s: Scope)
    requires c.Valid() && Enabled(c, w, Do(r, RecordOne)) && GateOk(c, w, s)
    requires Touches(w.runs[r], RecordOne, s)
    ensures var step := Do(r, RecordOne);
            Gap(Apply(c, w, step), s) == if SamePeriod(c, w, step, s) then Gap(w, s) + Drift(c, w, step, s) else 0
  {
    RecordedProbes(c, w, r, s);
    RecordedGap(c, TrackedOf(w, s), w.now, w.runs[r].phase.todo[0], ProbeHolders(w, s), r);
  }

  lemma SettleMovesGap(c: Config, w: World, r: nat, p: string, s: Scope)
    requires c.Valid() && Enabled(c, w, Do(r, SettleOne(p))) && GateOk(c, w, s)
    requires Touches(w.runs[r], SettleOne(p), s)
    ensures SamePeriod(c, w, Do(r, SettleOne(p)), s)
    ensures Gap(Apply(c, w, Do(r, SettleOne(p))), s) == Gap(w, s) + Drift(c, w, Do(r, SettleOne(p)), s)
  {
    var t, probes := TrackedOf(w, s), ProbeHolders(w, s);
    SettleKeepsGate(c, w, r, p, s);
    assert TrackedOf(Apply(c, w, Do(r, SettleOne(p))), s) == t.(gate := FreeProbe(t.gate));
    SizeWithout(probes, r);
  }

  lemma QuietStep(c: Config, w: World, step: Step, s: Scope)
    requires Enabled(c, w, step) && !step.Do?
    ensures ProbeHolders(Apply(c, w, step), s) == ProbeHolders(w, s)
    ensures TrackedOf(Apply(c, w, step), s) == TrackedOf(w, s)
  {
  }

  lemma UntouchedKeepsGap(c: Config, w: World, r: nat, a: Act, s: Scope)
    requires Enabled(c, w, Do(r, a)) && GateOk(c, w, s) && !Touches(w.runs[r], a, s)
    ensures SamePeriod(c, w, Do(r, a), s) && Gap(Apply(c, w, Do(r, a)), s) == Gap(w, s)
    ensures Drift(c, w, Do(r, a), s) == 0
  {
    UntouchedGateKept(c, w, r, a, s);
  }

  /** A step moves the gap by its drift, and a step that starts a period closes it. */
  lemma StepMovesGap(c: Config, w: World, step: Step, s: Scope)
    requires c.Valid() && Enabled(c, w, step) && RunsOk(c, w) && GateOk(c, w, s)
    ensures Gap(Apply(c, w, step), s) == if SamePeriod(c, w, step, s) then Gap(w, s) + Drift(c, w, step, s) else 0
  {
    if !step.Do? {
      QuietStep(c, w, step, s);
    } else if !Touches(w.runs[step.r], step.act, s) {
      UntouchedKeepsGap(c, w, step.r, step.act, s);
    } else if step.act.Consider? {
      ConsiderKeepsGap(c, w, step.r, s);
    } else if step.act.RecordOne? {
      RecordMovesGap(c, w, step.r, s);
    } else {
      SettleMovesGap(c, w, step.r, step.act.p, s);
    }
  }

  /** While the counter is exact, a step within the period keeps it so exactly if it does not leak. */
  lemma StepExactIff(c: Config, w: World, step: Step, s: Scope)
    requires c.Valid() && Enabled(c, w, step) && RunsOk(c, w) && GateOk(c, w, s) && Exact(w, s)
    ensures if SamePeriod(c, w, step, s) then Exact(Apply(c, w, step), s) <==> !Leaks(c, w, step, s)
            else Exact(Apply(c, w, step), s)
  {
    StepMovesGap(c, w, step, s);
    RepayerIsOut(w, step, s);
  }

  lemma RepayerIsOut(w: World, step: Step, s: Scope)
    ensures Repays(w, step, s) ==> |ProbeHolders(w, s)| > 0
  {
    if Repays(w, step, s) {
      assert step.r in ProbeHolders(w, s);
    }
  }

  // ---- over schedules

  /** The places freed too many in the current period: one for every leak, less one for every probe that
      ended after its place had been freed. */
  function Excess(c: Config, steps: seq<Step>, s: Scope): int
    requires Feasible(c, steps)
  {
    if steps == [] then 0
    else
      var n := |steps| - 1;
      var w := Exec(c, steps[..n]);
      if SamePeriod(c, w, steps[n], s) then Excess(c, steps[..n], s) + Drift(c, w, steps[n], s) else 0
  }

  /** In every schedule the probes that are really out are the counter plus the excess, which is never
      negative. */
  lemma {:induction false} ProbesAreCounterPlusExcess(c: Config, steps: seq<Step>, s: Scope)
    requires c.Valid() && Feasible(c, steps)
    ensures var w := Exec(c, steps);
            |ProbeHolders(w, s)| == TrackedOf(w, s).gate.inflight + Excess(c, steps, s) && Excess(c, steps, s) >= 0
  {
    Reachable(c, steps);
    assert GateOk(c, Exec(c, steps), s);
    if steps == [] {
      assert ProbeHolders(START, s) == {};
    } else {
      var n := |steps| - 1;
      ProbesAreCounterPlusExcess(c, steps[..n], s);
      Reachable(c, steps[..n]);
      StepMovesGap(c, Exec(c, steps[..n]), steps[n], s);
    }
  }

  /** The exact condition: the probes that are really out are within the allowed number if and only if the
      excess fits the places that the counter still has free. */
  lemma ProbesWithinCountIff(c: Config, steps: seq<Step>, s: Scope)
    requires c.Valid() && Feasible(c, steps)
    ensures var w := Exec(c, steps);
            |ProbeHolders(w, s)| <= c.circuit.probeCount
            <==> Excess(c, steps, s) <= c.circuit.probeCount - TrackedOf(w, s).gate.inflight
  {
    ProbesAreCounterPlusExcess(c, steps, s);
  }

  /** Nothing but probes of the period has been settled since the scope's period began. */
  ghost predicate Undisturbed(c: Config, steps: seq<Step>, s: Scope)
    requires Feasible(c, steps)
  {
    steps == [] || (
      var n := |steps| - 1;
      var w := Exec(c, steps[..n]);
      SamePeriod(c, w, steps[n], s) ==> Undisturbed(c, steps[..n], s) && !Leaks(c, w, steps[n], s))
  }

  /** Since the scope's period began the counter has been the number of probes. */
  ghost predicate ExactSoFar(c: Config, steps: seq<Step>, s: Scope)
    requires Feasible(c, steps)
  {
    Exact(Exec(c, steps), s)
    && (steps == [] || (
      var n := |steps| - 1;
      SamePeriod(c, Exec(c, steps[..n]), steps[n], s) ==> ExactSoFar(c, steps[..n], s)))
  }

  /** In every schedule the counter is the real number of probes, throughout a period, exactly if no
      permission but a probe's was settled in it in a way that frees a place. */
  lemma {:induction false} CounterIsExactIff(c: Config, steps: seq<Step>, s: Scope)
    requires c.Valid() && Feasible(c, steps)
    ensures ExactSoFar(c, steps, s) <==> Undisturbed(c, steps, s)
  {
    if steps == [] {
      assert ProbeHolders(START, s) == {};
    } else {
      var n := |steps| - 1;
      var w := Exec(c, steps[..n]);
      CounterIsExactIff(c, steps[..n], s);
      Reachable(c, steps[..n]);
      StepMovesGap(c, w, steps[n], s);
      if SamePeriod(c, w, steps[n], s) && Exact(w, s) {
        StepExactIff(c, w, steps[n], s);
      }
    }
  }

  lemma UndisturbedHasNoExcess(c: Config, steps: seq<Step>, s: Scope)
    requires c.Valid() && Feasible(c, steps) && Undisturbed(c, steps, s)
    ensures Excess(c, steps, s) == 0
  {
    CounterIsExactIff(c, steps, s);
    ProbesAreCounterPlusExcess(c, steps, s);
  }

  /** In particular, while nothing leaks in a period the probes that are out are never too many. */
  lemma ProbesStayWithinCount(c: Config, steps: seq<Step>, s: Scope)
    requires c.Valid() && Feasible(c, steps) && Undisturbed(c, steps, s)
    ensures var w := Exec(c, steps);
            |ProbeHolders(w, s)| == TrackedOf(w, s).gate.inflight <= c.circuit.probeCount
  {
    UndisturbedHasNoExcess(c, steps, s);
    ProbesAreCounterPlusExcess(c, steps, s);
    Reachable(c, steps);
    assert GateOk(c, Exec(c, steps), s);
  }
}
