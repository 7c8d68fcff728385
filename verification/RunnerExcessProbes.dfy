/** A schedule with more half-open probes in flight than the configuration allows. Two runs are admitted
    while the circuit is closed; the first one's timeout opens it. In the half-open period a third run is
    given the one probe, the second run is cancelled and its release frees the place of that probe, and a
    fourth run is given a probe as well. */
module RunnerExcessProbes {
  import opened Options
  import opened Collections
  import opened ProviderModels
  import opened SlidingWindow
  import opened Circuit
  import opened ProviderRunner
  import opened RunnerSafety
  import opened RunnerProbes
  import opened RunnerScenes

  const TIMEOUT := ProviderResult(P, StatusError, PricePayload(None), Some(ErrorInfo(Timeout, None)))

  const ADMITTED := NewRun(REQUEST, PLUGINS).(
    tickets := map[P := Ticket(0, false)], permits := [P], phase := AwaitProvider(0))
  const PROBING := NewRun(REQUEST, PLUGINS).(
    tickets := map[P := Ticket(1, true)], permits := [P], phase := AwaitProvider(0))
  const CLOSED := Tracked(NEW_GATE.(mode := Closed), 0)
  const OPENED := Tracked(Gate([], Some(1), None, 0, Open), 1)
  const HALF_OPEN := Tracked(Gate([], Some(1), None, 1, HalfOpen), 1)
  const FREED := Tracked(Gate([], Some(1), None, 0, HalfOpen), 1)

  predicate OneProbe(c: Config) {
    c.Valid() && c.circuit == Settings(1, 1, 1, 1)
  }

  /** The clock, the scope, and the three runs that come after the first. */
  predicate Scene(w: World, now: nat, t: Tracked, second: Run, third: Run, fourth: Run) {
    && w.now == now && TrackedOf(w, SCOPE) == t
    && 0 in w.runs && 1 in w.runs && 2 in w.runs && 3 in w.runs
    && w.runs[1] == second && w.runs[2] == third && w.runs[3] == fourth
  }

  predicate Idle(w: World) {
    UsedBy(w, P) == 0 && w.globalUsed == 0
  }

  lemma FourStart(c: Config) returns (steps: seq<Step>)
    requires OneProbe(c)
    ensures Feasible(c, steps)
    ensures var w, start := Exec(c, steps), NewRun(REQUEST, PLUGINS);
            Scene(w, 0, Tracked(NEW_GATE, 0), start, start, start) && w.runs[0] == start && Idle(w)
  {
    steps := [];
    steps := Played(c, steps, Start(0, REQUEST, PLUGINS));
    steps := Played(c, steps, Start(1, REQUEST, PLUGINS));
    steps := Played(c, steps, Start(2, REQUEST, PLUGINS));
    steps := Played(c, steps, Start(3, REQUEST, PLUGINS));
  }

  /** The first two are permitted by the closed circuit. */
  lemma TwoAreAdmitted(c: Config, before: seq<Step>) returns (steps: seq<Step>)
    requires OneProbe(c) && Feasible(c, before)
    requires var w, start := Exec(c, before), NewRun(REQUEST, PLUGINS);
             Scene(w, 0, Tracked(NEW_GATE, 0), start, start, start) && w.runs[0] == start && Idle(w)
    ensures Feasible(c, steps)
    ensures var w, start := Exec(c, steps), NewRun(REQUEST, PLUGINS);
            Scene(w, 0, CLOSED, ADMITTED, start, start) && w.runs[0] == ADMITTED && Idle(w)
  {
    steps := Played(c, before, Do(0, Consider));
    steps := Played(c, steps, Do(1, Consider));
  }

  const HELD := ADMITTED.(held := {P}, runnable := [P], phase := Admitting(1))
  const RUNNING := HELD.(holdsGlobal := true, phase := Running, tasks := map[P := Queued])
  const ANSWERED := RUNNING.(tasks := map[P := Done(Completed(Answer(TIMEOUT)))])

  lemma FirstRuns(c: Config, before: seq<Step>) returns (steps: seq<Step>)
    requires OneProbe(c) && Feasible(c, before)
    requires var w, start := Exec(c, before), NewRun(REQUEST, PLUGINS);
             Scene(w, 0, CLOSED, ADMITTED, start, start) && w.runs[0] == ADMITTED && Idle(w)
    ensures Feasible(c, steps)
    ensures var w, start := Exec(c, steps), NewRun(REQUEST, PLUGINS);
            Scene(w, 0, CLOSED, ADMITTED, start, start) && w.runs[0] == RUNNING
  {
    steps := Played(c, before, Do(0, TakeProvider));
    assert Exec(c, steps).runs[0] == HELD;
    steps := Played(c, steps, Do(0, CloseAdmission));
    steps := Played(c, steps, Do(0, TakeGlobal));
  }

  lemma FirstAnswers(c: Config, before: seq<Step>) returns (steps: seq<Step>)
    requires OneProbe(c) && Feasible(c, before)
    requires var w, start := Exec(c, before), NewRun(REQUEST, PLUGINS);
             Scene(w, 0, CLOSED, ADMITTED, start, start) && w.runs[0] == RUNNING
    ensures Feasible(c, steps)
    ensures var w, start := Exec(c, steps), NewRun(REQUEST, PLUGINS);
            Scene(w, 0, CLOSED, ADMITTED, start, start) && w.runs[0] == ANSWERED
  {
    assert CallsOf(RUNNING) == {};
    steps := Played(c, before, Do(0, BeginCall(P)));
    steps := Played(c, steps, Do(0, EndTask(P, Completed(Answer(TIMEOUT)))));
  }

  lemma FirstTimesOut(c: Config, before: seq<Step>) returns (steps: seq<Step>)
    requires OneProbe(c) && Feasible(c, before)
    requires var w, start := Exec(c, before), NewRun(REQUEST, PLUGINS);
             Scene(w, 0, CLOSED, ADMITTED, start, start) && w.runs[0] == ANSWERED
    ensures Feasible(c, steps)
    ensures var w, start := Exec(c, steps), NewRun(REQUEST, PLUGINS);
            Scene(w, 0, CLOSED, ADMITTED, start, start) && w.runs[0] == ANSWERED.(phase := Recording([TIMEOUT]))
  {
    CollectedTimeout();
    steps := Played(c, before, Do(0, Collect([P])));
  }

  lemma CollectedTimeout()
    ensures Ready(ANSWERED, Collect([P]))
    ensures RunStep(ANSWERED, Collect([P]), None) == ANSWERED.(phase := Recording([TIMEOUT]))
  {
    assert Gather(ANSWERED, [P]) == [TIMEOUT];
  }

  lemma TimeoutOpens(c: Config, before: seq<Step>) returns (steps: seq<Step>)
    requires OneProbe(c) && Feasible(c, before)
    requires var w, start := Exec(c, before), NewRun(REQUEST, PLUGINS);
             Scene(w, 0, CLOSED, ADMITTED, start, start) && w.runs[0] == ANSWERED.(phase := Recording([TIMEOUT]))
    ensures Feasible(c, steps)
    ensures var start := NewRun(REQUEST, PLUGINS); Scene(Exec(c, steps), 1, OPENED, ADMITTED, start, start)
  {
    assert DropBefore([0], -1) == [0] && [] + [0] == [0];
    steps := Played(c, before, Do(0, RecordOne));
    assert TrackedOf(Exec(c, steps), SCOPE) == OPENED;
    steps := Played(c, steps, Tick(1));
  }

  predicate Probed(w: World, t: Tracked) {
    w.now == 1 && TrackedOf(w, SCOPE) == t && 2 in w.runs && 3 in w.runs && w.runs[2] == PROBING
  }

  /** The third takes the probe, and the second one's cancellation frees its place. */
  lemma CancellationFreesPlace(c: Config, before: seq<Step>) returns (steps: seq<Step>)
    requires OneProbe(c) && Feasible(c, before)
    requires var start := NewRun(REQUEST, PLUGINS); Scene(Exec(c, before), 1, OPENED, ADMITTED, start, start)
    ensures Feasible(c, steps)
    ensures Probed(Exec(c, steps), FREED) && Exec(c, steps).runs[3] == NewRun(REQUEST, PLUGINS)
  {
    steps := Played(c, before, Do(2, Consider));
    assert TrackedOf(Exec(c, steps), SCOPE) == HALF_OPEN;
    steps := Played(c, steps, Do(1, Cancel));
    steps := Played(c, steps, Do(1, Unwound));
    steps := Played(c, steps, Do(1, SettleOne(P)));
  }

  lemma FourthProbes(c: Config, before: seq<Step>) returns (steps: seq<Step>)
    requires OneProbe(c) && Feasible(c, before)
    requires Probed(Exec(c, before), FREED) && Exec(c, before).runs[3] == NewRun(REQUEST, PLUGINS)
    ensures Feasible(c, steps) && Probed(Exec(c, steps), HALF_OPEN) && Exec(c, steps).runs[3] == PROBING
  {
    steps := Played(c, before, Do(3, Consider));
  }

  /** The bound fails without the condition of ProbesStayWithinCount. */
  lemma MoreProbesThanAllowed(c: Config) returns (steps: seq<Step>)
    requires OneProbe(c)
    ensures Feasible(c, steps)
    ensures |ProbeHolders(Exec(c, steps), SCOPE)| > c.circuit.probeCount && !Undisturbed(c, steps, SCOPE)
  {
    steps := FourStart(c);
    steps := TwoAreAdmitted(c, steps);
    steps := FirstRuns(c, steps);
    steps := FirstAnswers(c, steps);
    steps := FirstTimesOut(c, steps);
    steps := TimeoutOpens(c, steps);
    steps := CancellationFreesPlace(c, steps);
    steps := FourthProbes(c, steps);
    TwoProbes(Exec(c, steps));
    if Undisturbed(c, steps, SCOPE) {
      ProbesStayWithinCount(c, steps, SCOPE);
    }
  }

  lemma TwoProbes(w: World)
    requires Probed(w, HALF_OPEN) && w.runs[3] == PROBING
    ensures |ProbeHolders(w, SCOPE)| >= 2
  {
    assert {2, 3} <= ProbeHolders(w, SCOPE);
    SubsetSize({2, 3}, ProbeHolders(w, SCOPE));
  }
}
