/** The guarantees of the provider runner, over every feasible schedule of any number of runs. */
module RunnerTheorems {
  import opened Collections
  import opened Circuit
  import opened CircuitProbes
  import opened ProviderRunner
  import opened RunInvariant
  import opened RunnerSafety
  import Limits

  ghost predicate Inv(c: Config, w: World) {
    RunsOk(c, w) && CapacityOk(c, w) && GatesOk(c, w)
  }

  lemma ActKeepsInv(c: Config, w: World, r: nat, a: Act)
    requires c.Valid() && Enabled(c, w, Do(r, a)) && Inv(c, w)
    ensures Inv(c, Apply(c, w, Do(r, a)))
  {
    ActKeepsRuns(c, w, r, a);
    ActKeepsCapacity(c, w, r, a);
    ActKeepsGates(c, w, r, a);
  }

  lemma ActKeepsRuns(c: Config, w: World, r: nat, a: Act)
    requires c.Valid() && Enabled(c, w, Do(r, a)) && RunsOk(c, w)
    ensures RunsOk(c, Apply(c, w, Do(r, a)))
  {
    RunKept(c, w.runs[r], a, Asked(c, w, w.runs[r]));
  }

  lemma ActKeepsCapacity(c: Config, w: World, r: nat, a: Act)
    requires c.Valid() && Enabled(c, w, Do(r, a)) && RunsOk(c, w) && CapacityOk(c, w)
    ensures CapacityOk(c, Apply(c, w, Do(r, a)))
  {
    var w' := Apply(c, w, Do(r, a));
    GlobalCapacityKept(c, w, r, a);
    forall key ensures UsedBy(w', key) == |Holders(w'.runs, key)| <= c.perProviderUnits {
      ProviderCapacityKept(c, w, r, a, key);
    }
  }

  lemma ActKeepsGates(c: Config, w: World, r: nat, a: Act)
    requires c.Valid() && Enabled(c, w, Do(r, a)) && RunsOk(c, w) && GatesOk(c, w)
    ensures GatesOk(c, Apply(c, w, Do(r, a)))
  {
    forall s ensures GateOk(c, Apply(c, w, Do(r, a)), s) {
      GateKept(c, w, r, a, s);
    }
  }

  lemma GateKept(c: Config, w: World, r: nat, a: Act, s: Scope)
    requires c.Valid() && Enabled(c, w, Do(r, a)) && RunOk(c, w.runs[r]) && GateOk(c, w, s)
    ensures GateOk(c, Apply(c, w, Do(r, a)), s)
  {
    if !Touches(w.runs[r], a, s) {
      UntouchedGateKept(c, w, r, a, s);
    } else if a.Consider? {
      ConsiderKeepsGate(c, w, r, s);
    } else if a.RecordOne? {
      RecordKeepsGate(c, w, r, s);
    } else {
      SettleKeepsGate(c, w, r, a.p, s);
    }
  }

  lemma StartKeepsInv(c: Config, w: World, r: nat, req: Request, plugins: seq<Plugin>)
    requires c.Valid() && Enabled(c, w, Start(r, req, plugins)) && Inv(c, w)
    ensures Inv(c, Apply(c, w, Start(r, req, plugins)))
  {
    var w' := Apply(c, w, Start(r, req, plugins));
    var run := NewRun(req, plugins);
    NewRunOk(c, req, plugins);
    GlobalSame(w.runs, r, run);
    forall key ensures UsedBy(w', key) == |Holders(w'.runs, key)| <= c.perProviderUnits {
      HoldersSame(w.runs, r, run, key);
    }
    forall s ensures GateOk(c, w', s) {
      NewRunHoldsNoProbe(c, w, r, run, s);
    }
  }

  lemma NewRunHoldsNoProbe(c: Config, w: World, r: nat, run: Run, s: Scope)
    requires r !in w.runs && run.tickets == map[] && GateOk(c, w, s)
    ensures GateOk(c, w.(runs := w.runs[r := run]), s)
  {
    var w' := w.(runs := w.runs[r := run]);
    assert ProbeHolders(w', s) == ProbeHolders(w, s);
  }

  lemma TickKeepsInv(c: Config, w: World, to: nat)
    requires c.Valid() && Enabled(c, w, Tick(to)) && Inv(c, w)
    ensures Inv(c, Apply(c, w, Tick(to)))
  {
    var w' := Apply(c, w, Tick(to));
    forall s ensures GateOk(c, w', s) {
      assert GateOk(c, w, s) && ProbeHolders(w', s) == ProbeHolders(w, s);
      TimeKeepsSteady(c.circuit, TrackedOf(w, s).gate, w.now, w'.now, |ProbeHolders(w, s)|);
    }
    forall key ensures UsedBy(w', key) == |Holders(w'.runs, key)| <= c.perProviderUnits {
      assert UsedBy(w', key) == UsedBy(w, key);
    }
  }

  lemma StartInv(c: Config)
    requires c.Valid()
    ensures Inv(c, START)
  {
    forall s ensures GateOk(c, START, s) {
      assert ProbeHolders(START, s) == {};
      NewGateIsSteady(c.circuit);
    }
    assert GlobalHolders(START.runs) == {};
    forall key ensures Holders(START.runs, key) == {} {
    }
  }

  lemma {:induction false} Reachable(c: Config, steps: seq<Step>)
    requires c.Valid() && Feasible(c, steps)
    ensures Inv(c, Exec(c, steps))
  {
    if steps == [] {
      StartInv(c);
    } else {
      var n := |steps| - 1;
      Reachable(c, steps[..n]);
      var w := Exec(c, steps[..n]);
      match steps[n]
      case Tick(to) => TickKeepsInv(c, w, to);
      case Start(r, req, plugins) => StartKeepsInv(c, w, r, req, plugins);
      case Do(r, a) => ActKeepsInv(c, w, r, a);
    }
  }

  predicate AllEnded(w: World) {
    forall r <- w.runs :: w.runs[r].phase.Ended?
  }

  // ---- capacity

  /** In every interleaving each limiter's counter is the sum of its unreleased reservations and
      stays within capacity, and the calls in flight stay within the units held for them. */
  lemma CapacityIsRespected(c: Config, steps: seq<Step>, key: string)
    requires c.Valid() && Feasible(c, steps)
    ensures var w := Exec(c, steps);
            && |CallsTo(w, key)| <= UsedBy(w, key) == |Holders(w.runs, key)| <= c.perProviderUnits
            && |Calls(w)| <= w.globalUsed == |GlobalHolders(w.runs)| <= c.globalUnits
            && forall r <- w.runs :: |CallsOf(w.runs[r])| <= c.fanout
  {
    Reachable(c, steps);
    CallsAreCovered(c, Exec(c, steps), key);
  }

  lemma CallsAreCovered(c: Config, w: World, key: string)
    requires Inv(c, w)
    ensures |CallsTo(w, key)| <= |Holders(w.runs, key)| && |Calls(w)| <= |GlobalHolders(w.runs)|
  {
    assert CallsTo(w, key) <= Holders(w.runs, key);
    SubsetSize(CallsTo(w, key), Holders(w.runs, key));
    assert Calls(w) <= GlobalHolders(w.runs);
    SubsetSize(Calls(w), GlobalHolders(w.runs));
  }

  predicate StrandedIn(w: World, r: nat) {
    r in w.runs && w.runs[r].phase.Ended? && w.runs[r].phase.ending.Stranded?
  }

  lemma OnlyStrandedRunsHold(c: Config, w: World, key: string)
    requires RunsOk(c, w) && AllEnded(w)
    ensures forall x <- Holders(w.runs, key) :: StrandedIn(w, x.0)
    ensures forall x <- GlobalHolders(w.runs) :: StrandedIn(w, x.0)
  {
  }

  /** Once every run has ended, whatever is still counted belongs to runs whose release was cancelled, and
      every counter is back at zero if and only if there was no such run. */
  lemma NothingLeaks(c: Config, steps: seq<Step>)
    requires c.Valid() && Feasible(c, steps) && AllEnded(Exec(c, steps))
    ensures var w := Exec(c, steps);
            && (forall key :: UsedBy(w, key) == |Holders(w.runs, key)|) && w.globalUsed == |GlobalHolders(w.runs)|
            && (forall key :: forall x <- Holders(w.runs, key) :: StrandedIn(w, x.0))
            && (forall x <- GlobalHolders(w.runs) :: StrandedIn(w, x.0))
            && ((w.globalUsed == 0 && forall key :: UsedBy(w, key) == 0) <==> forall r :: !StrandedIn(w, r))
  {
    Reachable(c, steps);
    var w := Exec(c, steps);
    forall key ensures forall x <- Holders(w.runs, key) :: StrandedIn(w, x.0) {
      OnlyStrandedRunsHold(c, w, key);
    }
    OnlyStrandedRunsHold(c, w, "");
    forall r | StrandedIn(w, r) ensures w.globalUsed > 0 || exists key :: UsedBy(w, key) > 0 {
      StrandedRunHolds(c, w, r);
    }
    if forall r :: !StrandedIn(w, r) {
      assert GlobalHolders(w.runs) == {};
      forall key ensures UsedBy(w, key) == 0 {
        assert Holders(w.runs, key) == {};
      }
    }
  }

  lemma StrandedRunHolds(c: Config, w: World, r: nat)
    requires RunsOk(c, w) && CapacityOk(c, w) && StrandedIn(w, r)
    ensures w.globalUsed > 0 || exists key :: UsedBy(w, key) > 0
  {
    var run := w.runs[r];
    if run.held != {} {
      var p :| p in run.held;
      assert (r, p) in Holders(w.runs, Limits.LimiterKey(p));
      assert UsedBy(w, Limits.LimiterKey(p)) > 0;
    } else {
      assert run.holdsGlobal && run.runnable[0] in run.runnable;
      assert (r, run.runnable[0]) in GlobalHolders(w.runs);
    }
  }

  // ---- the breaker

  /** The half-open counter of every scope is between 0 and the probe count and never exceeds the
      probes of the current period that are still unsettled, so with none of those outstanding and
      the open period over the breaker admits a call: it cannot wedge. */
  lemma BreakerNeverWedges(c: Config, steps: seq<Step>, s: Scope)
    requires c.Valid() && Feasible(c, steps)
    ensures var w := Exec(c, steps);
            var gate := TrackedOf(w, s).gate;
            && 0 <= gate.inflight <= c.circuit.probeCount
            && gate.inflight <= |ProbeHolders(w, s)|
            && (ProbeHolders(w, s) == {} || AllEnded(w) ==>
                  gate.openUntil.GetOr(0) <= w.now ==> Admit(c.circuit, gate, w.now).1)
  {
    Reachable(c, steps);
    var w := Exec(c, steps);
    assert GateOk(c, w, s);
    if AllEnded(w) {
      assert ProbeHolders(w, s) == {};
    }
    if ProbeHolders(w, s) == {} && TrackedOf(w, s).gate.openUntil.GetOr(0) <= w.now {
      NeverWedged(c.circuit, TrackedOf(w, s).gate, w.now);
    }
  }

  /** Each permission a run obtained has been recorded or released exactly once when it ends, and
      while the run lasts it is either settled or outstanding, never both. */
  lemma PermissionsSettledOnce(c: Config, steps: seq<Step>, r: nat)
    requires c.Valid() && Feasible(c, steps) && r in Exec(c, steps).runs
    ensures var run := Exec(c, steps).runs[r];
            && NoDup(run.permits)
            && multiset(run.permits) == multiset(run.settled) + multiset(run.tickets.Keys)
            && (run.phase.Ended? ==> multiset(run.settled) == multiset(run.permits) && NoDup(run.settled))
  {
    Reachable(c, steps);
    var run := Exec(c, steps).runs[r];
    if run.phase.Ended? {
      assert multiset(run.tickets.Keys) == multiset{};
      Reordered(run.permits, run.settled);
    }
  }

  // ---- results

  /** A run that returns yields exactly one result per plugin, under the plugin's own id, and a
      success describes exactly the request. */
  lemma OneResultPerPlugin(c: Config, steps: seq<Step>, r: nat)
    requires c.Valid() && Feasible(c, steps) && r in Exec(c, steps).runs
    requires var phase := Exec(c, steps).runs[r].phase; phase.Ended? && phase.ending.Returned?
    ensures var run := Exec(c, steps).runs[r];
            var results := run.phase.ending.results;
            && multiset(Ids(results)) == multiset(PluginIds(run.plugins))
            && NoDup(Ids(results))
            && Genuine(run.req, results)
  {
    Reachable(c, steps);
    var run := Exec(c, steps).runs[r];
    Reordered(PluginIds(run.plugins), Ids(run.phase.ending.results));
  }
}
