/** What holds in every reachable interleaving of any number of runs. */
module RunnerSafety {
  import opened Options
  import opened Collections
  import opened Circuit
  import opened CircuitProbes
  import opened ProviderRunner
  import opened RunInvariant
  import Limits

  // ---- limiter accounting

  /** The unreleased reservations of one provider limiter; each is worth one unit. */
  ghost function Holders(runs: map<nat, Run>, key: string): set<(nat, string)> {
    set r, p | r in runs && p in runs[r].held && Limits.LimiterKey(p) == key :: (r, p)
  }

  /** The unreleased global reservations, one unit per runnable provider of a run that holds one. */
  ghost function GlobalHolders(runs: map<nat, Run>): set<(nat, string)> {
    set r, p | r in runs && runs[r].holdsGlobal && p in runs[r].runnable :: (r, p)
  }

  /** Provider calls in flight. */
  ghost function Calls(w: World): set<(nat, string)> {
    set r, p | r in w.runs && p in CallsOf(w.runs[r]) :: (r, p)
  }

  ghost function CallsTo(w: World, key: string): set<(nat, string)> {
    set r, p | r in w.runs && p in CallsOf(w.runs[r]) && Limits.LimiterKey(p) == key :: (r, p)
  }

  ghost predicate CapacityOk(c: Config, w: World) {
    && (forall key :: UsedBy(w, key) == |Holders(w.runs, key)| <= c.perProviderUnits)
    && w.globalUsed == |GlobalHolders(w.runs)| <= c.globalUnits
  }

  ghost predicate RunsOk(c: Config, w: World) {
    forall r <- w.runs :: RunOk(c, w.runs[r])
  }

  ghost function Pairs(r: nat, s: seq<string>): set<(nat, string)> {
    set p | p in s :: (r, p)
  }

  lemma {:induction false} PairsSize(r: nat, s: seq<string>)
    requires NoDup(s)
    ensures |Pairs(r, s)| == |s|
  {
    if s != [] {
      var n := |s| - 1;
      PairsSize(r, s[..n]);
      assert s == s[..n] + [s[n]];
      assert Pairs(r, s) == Pairs(r, s[..n]) + {(r, s[n])};
      assert s[n] !in s[..n];
    }
  }

  /** A provider unit is taken at admission and given back at release, and at no other step. */
  lemma HeldStep(run: Run, a: Act, answer: Option<Ticket>)
    requires Ready(run, a) && Shape(run) && Holding(run)
    ensures var held := RunStep(run, a, answer).held;
            match a
            case TakeProvider => NextId(run) !in run.held && held == run.held + {NextId(run)}
            case ReleaseProvider(p) => p in run.held && held == run.held - {p}
            case _ => held == run.held
  {
    if a.TakeProvider? {
      assert NextId(run) !in run.runnable by {
        var ids := PluginIds(run.plugins);
        assert ids[run.phase.next] !in ids[..run.phase.next];
      }
    }
  }

  lemma HoldersSame(runs: map<nat, Run>, r: nat, run': Run, key: string)
    requires run'.held == if r in runs then runs[r].held else {}
    ensures Holders(runs[r := run'], key) == Holders(runs, key)
  {
  }

  lemma HoldersPlus(runs: map<nat, Run>, r: nat, run': Run, p: string, key: string)
    requires r in runs && p !in runs[r].held && run'.held == runs[r].held + {p}
    ensures |Holders(runs[r := run'], key)| == |Holders(runs, key)| + if Limits.LimiterKey(p) == key then 1 else 0
  {
    var before, after := Holders(runs, key), Holders(runs[r := run'], key);
    if Limits.LimiterKey(p) == key {
      assert after == before + {(r, p)} && (r, p) !in before;
    } else {
      assert after == before;
    }
  }

  lemma ProviderCapacityKept(c: Config, w: World, r: nat, a: Act, key: string)
    requires Enabled(c, w, Do(r, a)) && RunOk(c, w.runs[r])
    requires UsedBy(w, key) == |Holders(w.runs, key)| <= c.perProviderUnits
    ensures var w' := Apply(c, w, Do(r, a));
            UsedBy(w', key) == |Holders(w'.runs, key)| <= c.perProviderUnits
  {
    var run := w.runs[r];
    var answer := Asked(c, w, run);
    var run' := RunStep(run, a, answer);
    HeldStep(run, a, answer);
    match a
    case TakeProvider => HoldersPlus(w.runs, r, run', NextId(run), key);
    case ReleaseProvider(p) =>
      HoldersPlus(w.runs[r := run'], r, run, p, key);
      assert w.runs[r := run'][r := run] == w.runs;
    case _ => HoldersSame(w.runs, r, run', key);
  }

  lemma GlobalStep(run: Run, a: Act, answer: Option<Ticket>)
    requires Ready(run, a) && Holding(run)
    ensures var run' := RunStep(run, a, answer);
            match a
            case TakeGlobal => !run.holdsGlobal && run'.holdsGlobal && run'.runnable == run.runnable
            case ReleaseGlobal => run.holdsGlobal && !run'.holdsGlobal && run'.runnable == run.runnable
            case _ => run'.holdsGlobal == run.holdsGlobal && (run.holdsGlobal ==> run'.runnable == run.runnable)
  {
  }

  lemma GlobalSame(runs: map<nat, Run>, r: nat, run': Run)
    requires r in runs ==> run'.holdsGlobal == runs[r].holdsGlobal
    requires r in runs && run'.holdsGlobal ==> run'.runnable == runs[r].runnable
    requires r !in runs ==> !run'.holdsGlobal
    ensures GlobalHolders(runs[r := run']) == GlobalHolders(runs)
  {
  }

  lemma GlobalPlus(runs: map<nat, Run>, r: nat, run': Run)
    requires r in runs && !runs[r].holdsGlobal && run'.holdsGlobal && NoDup(run'.runnable)
    ensures |GlobalHolders(runs[r := run'])| == |GlobalHolders(runs)| + |run'.runnable|
  {
    var before, mine := GlobalHolders(runs), Pairs(r, run'.runnable);
    PairsSize(r, run'.runnable);
    assert GlobalHolders(runs[r := run']) == before + mine;
    assert before !! mine;
  }

  lemma GlobalCapacityKept(c: Config, w: World, r: nat, a: Act)
    requires Enabled(c, w, Do(r, a)) && RunOk(c, w.runs[r])
    requires w.globalUsed == |GlobalHolders(w.runs)| <= c.globalUnits
    ensures var w' := Apply(c, w, Do(r, a));
            w'.globalUsed == |GlobalHolders(w'.runs)| <= c.globalUnits
  {
    var run := w.runs[r];
    var answer := Asked(c, w, run);
    var run' := RunStep(run, a, answer);
    GlobalStep(run, a, answer);
    if a.TakeGlobal? {
      GlobalPlus(w.runs, r, run');
    } else if a.ReleaseGlobal? {
      GlobalPlus(w.runs[r := run'], r, run);
      assert w.runs[r := run'][r := run] == w.runs;
    } else {
      GlobalSame(w.runs, r, run');
    }
  }

  // ---- probes

  predicate HoldsProbe(run: Run, s: Scope, period: nat) {
    && run.req.chainId == s.chainId && run.req.Op() == s.operation
    && s.provider in run.tickets && run.tickets[s.provider] == Ticket(period, true)
  }

  /** The runs with an unsettled probe of one half-open period of a scope. */
  ghost function Probers(runs: map<nat, Run>, s: Scope, period: nat): set<nat> {
    set r | r in runs && HoldsProbe(runs[r], s, period)
  }

  /** The runs with an unsettled probe of the scope's current half-open period. */
  ghost function ProbeHolders(w: World, s: Scope): set<nat> {
    Probers(w.runs, s, TrackedOf(w, s).period)
  }

  lemma ProbersAfter(runs: map<nat, Run>, r: nat, run': Run, s: Scope, period: nat)
    requires r in runs
    ensures Probers(runs[r := run'], s, period)
            == Probers(runs, s, period) - {r} + (if HoldsProbe(run', s, period) then {r} else {})
  {
  }

  ghost predicate PeriodsPast(w: World, s: Scope) {
    forall r: nat, period: nat :: r in w.runs && HoldsProbe(w.runs[r], s, period) ==> period <= TrackedOf(w, s).period
  }

  ghost predicate GateOk(c: Config, w: World, s: Scope) {
    Steady(c.circuit, TrackedOf(w, s).gate, w.now, |ProbeHolders(w, s)|) && PeriodsPast(w, s)
  }

  ghost predicate GatesOk(c: Config, w: World) {
    forall s :: GateOk(c, w, s)
  }

  /** The scope a step calls the breaker for. */
  predicate Touches(run: Run, a: Act, s: Scope) {
    match a
    case Consider =>
      && Facing(run) && s == ScopeOf(run, NextId(run))
      && StaticRejection(run.plugins[run.phase.next], run.req).None?
    case RecordOne => run.phase.Recording? && run.phase.todo != [] && s == ScopeOf(run, run.phase.todo[0].provider)
    case SettleOne(p) => s == ScopeOf(run, p)
    case _ => false
  }

  lemma TicketStep(run: Run, a: Act, answer: Option<Ticket>, s: Scope, period: nat)
    requires Ready(run, a)
    ensures var run' := RunStep(run, a, answer);
            !Touches(run, a, s) ==> HoldsProbe(run', s, period) == HoldsProbe(run, s, period)
  {
  }

  lemma UntouchedGateKept(c: Config, w: World, r: nat, a: Act, s: Scope)
    requires Enabled(c, w, Do(r, a)) && GateOk(c, w, s) && !Touches(w.runs[r], a, s)
    ensures GateOk(c, Apply(c, w, Do(r, a)), s)
    ensures ProbeHolders(Apply(c, w, Do(r, a)), s) == ProbeHolders(w, s)
    ensures TrackedOf(Apply(c, w, Do(r, a)), s) == TrackedOf(w, s)
  {
    var w' := Apply(c, w, Do(r, a));
    var run := w.runs[r];
    assert TrackedOf(w', s) == TrackedOf(w, s);
    forall period: nat ensures HoldsProbe(w'.runs[r], s, period) == HoldsProbe(run, s, period) {
      TicketStep(run, a, Asked(c, w, run), s, period);
    }
    assert ProbeHolders(w', s) == ProbeHolders(w, s);
  }

  /** Asking: the permission, if it is a probe, is a new probe of the current period. */
  lemma ConsiderKeepsGate(c: Config, w: World, r: nat, s: Scope)
    requires c.Valid() && Enabled(c, w, Do(r, Consider)) && RunOk(c, w.runs[r]) && GateOk(c, w, s)
    requires Touches(w.runs[r], Consider, s)
    ensures GateOk(c, Apply(c, w, Do(r, Consider)), s)
    ensures var granted := Permission(c, TrackedOf(w, s), w.now);
            ProbeHolders(Apply(c, w, Do(r, Consider)), s)
            == ProbeHolders(w, s) + (if granted.Some? && granted.value.probe then {r} else {})
    ensures r !in ProbeHolders(w, s)
  {
    AskedGateOk(c, w, Apply(c, w, Do(r, Consider)), r, s);
  }

  lemma AskedProbes(c: Config, w: World, w': World, r: nat, s: Scope)
    requires c.Valid() && r in w.runs && Ready(w.runs[r], Consider)
    requires Shape(w.runs[r]) && Ledger(w.runs[r]) && Touches(w.runs[r], Consider, s)
    requires var t := TrackedOf(w, s);
             && w'.now == w.now
             && TrackedOf(w', s) == t.(gate := Admit(c.circuit, t.gate, w.now).0)
             && w'.runs == w.runs[r := Considered(w.runs[r], Permission(c, t, w.now))]
    ensures var granted := Permission(c, TrackedOf(w, s), w.now);
            ProbeHolders(w', s) == ProbeHolders(w, s) + (if granted.Some? && granted.value.probe then {r} else {})
    ensures r !in ProbeHolders(w, s)
  {
    var run, t := w.runs[r], TrackedOf(w, s);
    ConsideredProbe(c, run, t, w.now, s);
    ProbersAfter(w.runs, r, w'.runs[r], s, t.period);
  }

  lemma AskedGateOk(c: Config, w: World, w': World, r: nat, s: Scope)
    requires c.Valid() && r in w.runs && Ready(w.runs[r], Consider)
    requires Shape(w.runs[r]) && Ledger(w.runs[r]) && Touches(w.runs[r], Consider, s)
    requires GateOk(c, w, s)
    requires var t := TrackedOf(w, s);
             && w'.now == w.now
             && TrackedOf(w', s) == t.(gate := Admit(c.circuit, t.gate, w.now).0)
             && w'.runs == w.runs[r := Considered(w.runs[r], Permission(c, t, w.now))]
    ensures GateOk(c, w', s)
    ensures var granted := Permission(c, TrackedOf(w, s), w.now);
            ProbeHolders(w', s) == ProbeHolders(w, s) + (if granted.Some? && granted.value.probe then {r} else {})
    ensures r !in ProbeHolders(w, s)
  {
    var t, probes := TrackedOf(w, s), ProbeHolders(w, s);
    AskedProbes(c, w, w', r, s);
    AskKeepsSteady(c.circuit, t.gate, w.now, |probes|);
    AskedPeriods(c, w, w', r, s);
  }

  lemma AskedPeriods(c: Config, w: World, w': World, r: nat, s: Scope)
    requires c.Valid() && r in w.runs && Ready(w.runs[r], Consider)
    requires Shape(w.runs[r]) && Ledger(w.runs[r]) && Touches(w.runs[r], Consider, s)
    requires PeriodsPast(w, s)
    requires var t := TrackedOf(w, s);
             && w'.now == w.now
             && TrackedOf(w', s) == t.(gate := Admit(c.circuit, t.gate, w.now).0)
             && w'.runs == w.runs[r := Considered(w.runs[r], Permission(c, t, w.now))]
    ensures PeriodsPast(w', s)
  {
    ConsideredProbe(c, w.runs[r], TrackedOf(w, s), w.now, s);
  }

  lemma ConsideredProbe(c: Config, run: Run, t: Tracked, now: int, s: Scope)
    requires Shape(run) && Ledger(run) && Touches(run, Consider, s) && Ready(run, Consider)
    ensures var answer := Permission(c, t, now);
            forall period :: HoldsProbe(Considered(run, answer), s, period)
              <==> period == t.period && answer.Some? && t.gate.openUntil.Some?
    ensures forall period :: !HoldsProbe(run, s, period)
  {
    NoTicketYet(run);
  }

  lemma NoTicketYet(run: Run)
    requires run.phase.Admitting? && Facing(run) && Shape(run) && Ledger(run)
    ensures NextId(run) !in run.tickets
  {
    FreshId(run, NextId(run));
    OnlyPermittedTickets(run);
  }

  lemma RecordedProbes(c: Config, w: World, r: nat, s: Scope)
    requires Enabled(c, w, Do(r, RecordOne)) && PeriodsPast(w, s) && Touches(w.runs[r], RecordOne, s)
    ensures var w' := Apply(c, w, Do(r, RecordOne));
            && TrackedOf(w', s) == Recorded(c, TrackedOf(w, s), w.now, w.runs[r].phase.todo[0])
            && PeriodsPast(w', s)
            && ProbeHolders(w', s)
               == if TrackedOf(w', s).period != TrackedOf(w, s).period then {} else ProbeHolders(w, s) - {r}
  {
    var w' := Apply(c, w, Do(r, RecordOne));
    var t, t' := TrackedOf(w, s), Recorded(c, TrackedOf(w, s), w.now, w.runs[r].phase.todo[0]);
    assert TrackedOf(w', s) == t';
    assert !HoldsProbe(w'.runs[r], s, t'.period);
    ProbersAfter(w.runs, r, w'.runs[r], s, t'.period);
    if t'.period == t.period + 1 {
      assert Probers(w.runs, s, t'.period) == {};
    }
  }

  lemma RecordKeepsGate(c: Config, w: World, r: nat, s: Scope)
    requires c.Valid() && Enabled(c, w, Do(r, RecordOne)) && GateOk(c, w, s)
    requires Touches(w.runs[r], RecordOne, s)
    ensures GateOk(c, Apply(c, w, Do(r, RecordOne)), s)
  {
    var t, probes, x := TrackedOf(w, s), ProbeHolders(w, s), w.runs[r].phase.todo[0];
    RecordedProbes(c, w, r, s);
    ReportKeepsSteady(c.circuit, t.gate, w.now, x.status, x.error, |probes|, r in probes);
  }

  lemma SettleKeepsGate(c: Config, w: World, r: nat, p: string, s: Scope)
    requires c.Valid() && Enabled(c, w, Do(r, SettleOne(p))) && GateOk(c, w, s)
    requires Touches(w.runs[r], SettleOne(p), s)
    ensures GateOk(c, Apply(c, w, Do(r, SettleOne(p))), s)
    ensures ProbeHolders(Apply(c, w, Do(r, SettleOne(p))), s) == ProbeHolders(w, s) - {r}
  {
    var w' := Apply(c, w, Do(r, SettleOne(p)));
    var t, probes := TrackedOf(w, s), ProbeHolders(w, s);
    assert TrackedOf(w', s) == t.(gate := FreeProbe(t.gate));
    assert !HoldsProbe(w'.runs[r], s, t.period);
    ReleaseKeepsSteady(c.circuit, t.gate, w.now, |probes|, r in probes);
    ProbersAfter(w.runs, r, w'.runs[r], s, t.period);
  }
}
