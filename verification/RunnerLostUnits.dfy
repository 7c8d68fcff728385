/** Units that are never given back. A cancellation that reaches a run while a release waits for the lock
    of a limiter ends the run with reservations that are marked released and still counted. */
module RunnerLostUnits {
  import opened Collections
  import opened ProviderRunner
  import opened RunnerSafety
  import opened RunnerTheorems
  import opened RunnerScenes
  import Limits

  /** The provider units that stranded runs hold for ever. */
  ghost function LostUnits(w: World, key: string): set<(nat, string)> {
    set x | x in Holders(w.runs, key) && StrandedIn(w, x.0)
  }

  lemma {:induction false} EndedRunStays(c: Config, steps: seq<Step>, more: seq<Step>, r: nat)
    requires Feasible(c, steps) && Feasible(c, steps + more)
    requires r in Exec(c, steps).runs && Exec(c, steps).runs[r].phase.Ended?
    ensures r in Exec(c, steps + more).runs && Exec(c, steps + more).runs[r] == Exec(c, steps).runs[r]
  {
    if more == [] {
      assert steps + more == steps;
    } else {
      var n := |more| - 1;
      assert (steps + more)[..|steps + more| - 1] == steps + more[..n];
      EndedRunStays(c, steps, more[..n], r);
    }
  }

  /** Lost units stay lost: in every continuation they are still counted against the provider. */
  lemma LostUnitsStayLost(c: Config, steps: seq<Step>, more: seq<Step>, key: string)
    requires c.Valid() && Feasible(c, steps) && Feasible(c, steps + more)
    ensures LostUnits(Exec(c, steps), key) <= LostUnits(Exec(c, steps + more), key)
    ensures |LostUnits(Exec(c, steps), key)| <= UsedBy(Exec(c, steps + more), key)
  {
    var w, w' := Exec(c, steps), Exec(c, steps + more);
    forall x <- LostUnits(w, key) ensures x in LostUnits(w', key) {
      EndedRunStays(c, steps, more, x.0);
    }
    Reachable(c, steps + more);
    SubsetSize(LostUnits(w, key), LostUnits(w', key));
    SubsetSize(LostUnits(w', key), Holders(w'.runs, key));
  }

  /** When as many units of a provider are lost as there are, no call to it is ever admitted again. */
  lemma AllUnitsLostBlocksProvider(c: Config, steps: seq<Step>, more: seq<Step>, r: nat, key: string)
    requires c.Valid() && Feasible(c, steps) && Feasible(c, steps + more)
    requires |LostUnits(Exec(c, steps), key)| >= c.perProviderUnits
    requires r in Exec(c, steps + more).runs && Facing(Exec(c, steps + more).runs[r])
    requires Limits.LimiterKey(NextId(Exec(c, steps + more).runs[r])) == key
    ensures !Enabled(c, Exec(c, steps + more), Do(r, TakeProvider))
  {
    LostUnitsStayLost(c, steps, more, key);
  }

  // ---- an instance

  predicate Alone(w: World, run: Run) {
    w.runs.Keys == {0} && w.runs[0] == run
  }

  const ADMITTED := NewRun(REQUEST, PLUGINS).(
    tickets := map[P := Ticket(0, false)], permits := [P], held := {P}, runnable := [P], phase := Admitting(1))

  lemma OneIsAdmitted(c: Config) returns (steps: seq<Step>)
    requires c.Valid()
    ensures Feasible(c, steps) && Alone(Exec(c, steps), ADMITTED)
  {
    steps := [];
    steps := Played(c, steps, Start(0, REQUEST, PLUGINS));
    assert Exec(c, steps).runs[0] == NewRun(REQUEST, PLUGINS);
    steps := Played(c, steps, Do(0, Consider));
    assert Exec(c, steps).runs[0].permits == [P] && Exec(c, steps).runs[0].tickets == map[P := Ticket(0, false)];
    assert UsedBy(Exec(c, steps), P) == 0;
    steps := Played(c, steps, Do(0, TakeProvider));
  }

  /** A run that the global limiter turns away, and that is cancelled while it releases. */
  lemma CancelledReleaseLosesUnit(c: Config) returns (steps: seq<Step>)
    requires c.Valid()
    ensures Feasible(c, steps) && AllEnded(Exec(c, steps)) && (0, P) in LostUnits(Exec(c, steps), P)
    ensures UsedBy(Exec(c, steps), P) >= 1
  {
    steps := OneIsAdmitted(c);
    steps := Played(c, steps, Do(0, CloseAdmission));
    steps := Played(c, steps, Do(0, RejectGlobal));
    steps := Played(c, steps, Do(0, Unwound));
    steps := ReleaseIsCancelled(c, steps);
    Reachable(c, steps);
    SubsetSize({(0, P)}, Holders(Exec(c, steps).runs, P));
  }

  lemma ReleaseIsCancelled(c: Config, before: seq<Step>) returns (steps: seq<Step>)
    requires c.Valid() && Feasible(c, before)
    requires Alone(Exec(c, before), ADMITTED.(phase := Settling(Rejected)))
    ensures Feasible(c, steps) && AllEnded(Exec(c, steps)) && (0, P) in LostUnits(Exec(c, steps), P)
  {
    steps := Played(c, before, Do(0, SettleOne(P)));
    steps := Played(c, steps, Do(0, BeginRelease));
    steps := Played(c, steps, Do(0, Strand));
  }
}
