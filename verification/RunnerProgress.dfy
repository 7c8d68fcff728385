/** Runs end: every step of a run uses up some of a finite budget, and a run that has not ended can
    always take a step that needs nothing from the other runs. */
module RunnerProgress {
  import opened Options
  import opened Collections
  import opened ProviderRunner
  import opened RunInvariant
  import opened RunnerTheorems

  ghost function Pending(run: Run): set<string> {
    set p | p in run.tasks && run.tasks[p].Queued?
  }

  /** What a run still owes: permissions, reservations and unfinished tasks. */
  ghost function Owed(run: Run): nat {
    2 * |Pending(run)| + |CallsOf(run)| + |run.tickets| + |run.held| + if run.holdsGlobal then 1 else 0
  }

  ghost function Rank(run: Run): int {
    Owed(run) +
    match run.phase
    case Admitting(next) => 100 + 12 * (|run.plugins| - next) + 5 * |run.runnable|
    case AwaitProvider(next) => 95 + 12 * (|run.plugins| - next) + 5 * |run.runnable|
    case AwaitGlobal => 90 + 5 * |run.runnable|
    case Running => 80 + 2 * |run.runnable|
    case Draining(todo) => 70 + 2 * |todo|
    case Recording(todo) => 60 + 2 * |todo|
    case Unwinding(_) => 50
    case Settling(_) => 40
    case Releasing(_) => 30
    case Ended(_) => 0
  }

  lemma {:induction false} DistinctFit(a: set<string>, s: seq<string>)
    requires forall x <- a :: x in s
    ensures |a| <= |s|
  {
    if s == [] {
      assert a == {};
    } else {
      var n := |s| - 1;
      assert s == s[..n] + [s[n]];
      DistinctFit(a - {s[n]}, s[..n]);
      assert a <= a - {s[n]} + {s[n]};
      SubsetSize(a, a - {s[n]} + {s[n]});
    }
  }

  lemma OrderSize(a: seq<string>, b: seq<string>)
    requires multiset(a) == multiset(b)
    ensures |a| == |b|
  {
    assert |multiset(a)| == |a| && |multiset(b)| == |b|;
  }

  lemma TicketCount(tickets: map<string, Ticket>, p: string, t: Ticket)
    ensures |tickets[p := t]| <= |tickets| + 1
    ensures p in tickets ==> |tickets - {p}| == |tickets| - 1
  {
    assert tickets[p := t].Keys == tickets.Keys + {p};
    assert |tickets[p := t].Keys| == |tickets[p := t]| && |tickets.Keys| == |tickets|;
    if p in tickets {
      assert (tickets - {p}).Keys == tickets.Keys - {p};
      assert |(tickets - {p}).Keys| == |tickets - {p}|;
    }
  }

  lemma TaskStarted(run: Run, p: string)
    requires p in run.tasks && run.tasks[p].Queued?
    ensures Owed(run.(tasks := run.tasks[p := InCall])) < Owed(run)
  {
    var run' := run.(tasks := run.tasks[p := InCall]);
    assert Pending(run') == Pending(run) - {p};
    assert CallsOf(run') == CallsOf(run) + {p};
  }

  lemma EndedTaskLeaves(run: Run, p: string, end: TaskEnd)
    requires p in run.tasks
    ensures var run' := run.(tasks := run.tasks[p := Done(end)]);
            Pending(run') == Pending(run) - {p} && CallsOf(run') == CallsOf(run) - {p}
  {
  }

  lemma TaskEnded(run: Run, p: string, end: TaskEnd)
    requires p in run.tasks && !run.tasks[p].Done?
    ensures Owed(run.(tasks := run.tasks[p := Done(end)])) < Owed(run)
  {
    EndedTaskLeaves(run, p, end);
    var pending, calls := Pending(run), CallsOf(run);
    if run.tasks[p].InCall? {
      assert p in calls && p !in pending;
      assert pending - {p} == pending;
    } else {
      assert p in pending && p !in calls;
      assert calls - {p} == calls;
    }
  }

  lemma TasksCreated(run: Run)
    requires run.phase.AwaitGlobal? && !run.holdsGlobal
    ensures Rank(RunStep(run, TakeGlobal, None)) < Rank(run)
  {
    var run' := RunStep(run, TakeGlobal, None);
    assert CallsOf(run') == {};
    DistinctFit(Pending(run'), run.runnable);
  }

  /** The steps that look at a plugin. */
  lemma AdmissionUsesRank(run: Run, a: Act, answer: Option<Ticket>)
    requires LooksAtPlugin(a) && Ready(run, a)
    ensures Rank(RunStep(run, a, answer)) < Rank(run)
  {
    if a.Consider? && answer.Some? {
      TicketCount(run.tickets, NextId(run), answer.value);
    }
  }

  lemma SameTasks(run: Run, run': Run)
    requires run'.tasks == run.tasks
    ensures Pending(run') == Pending(run) && CallsOf(run') == CallsOf(run)
  {
  }

  lemma TicketSettled(run: Run, p: string, settled: seq<string>)
    requires p in run.tickets
    ensures Owed(run.(tickets := run.tickets - {p}, settled := settled)) == Owed(run) - 1
  {
    SameTasks(run, run.(tickets := run.tickets - {p}, settled := settled));
    TicketCount(run.tickets, p, Ticket(0, false));
  }

  /** Owed looks at nothing else. */
  lemma OwedSame(run: Run, run': Run)
    requires run'.tasks == run.tasks && run'.tickets == run.tickets
    requires run'.held == run.held && run'.holdsGlobal == run.holdsGlobal
    ensures Owed(run') == Owed(run)
  {
    SameTasks(run, run');
  }

  lemma RecordUsesRank(run: Run, answer: Option<Ticket>)
    requires Ready(run, RecordOne) && Ticketed(run)
    ensures Rank(RunStep(run, RecordOne, answer)) < Rank(run)
  {
    var p := run.phase.todo[0].provider;
    assert Ids(run.phase.todo)[0] == p;
    var middle := run.(tickets := run.tickets - {p}, settled := run.settled + [p]);
    TicketSettled(run, p, run.settled + [p]);
    OwedSame(middle, RunStep(run, RecordOne, answer));
  }

  lemma UnitReleased(run: Run, p: string)
    requires p in run.held
    ensures Owed(run.(held := run.held - {p})) == Owed(run) - 1
  {
    SameTasks(run, run.(held := run.held - {p}));
  }

  lemma GlobalReleased(run: Run)
    requires run.holdsGlobal
    ensures Owed(run.(holdsGlobal := false)) == Owed(run) - 1
  {
    SameTasks(run, run.(holdsGlobal := false));
  }

  lemma StrandUsesRank(run: Run, answer: Option<Ticket>)
    requires Ready(run, Strand)
    ensures Rank(RunStep(run, Strand, answer)) < Rank(run)
  {
    OwedSame(run, RunStep(run, Strand, answer));
  }

  /** The steps that only move the run to its next phase. */
  predicate Shifts(a: Act) {
    || a.CloseAdmission? || a.RejectGlobal? || a.Collect? || a.Deadline? || a.Drained?
    || a.FinishRecording? || a.Cancel? || a.Unwound? || a.BeginRelease? || a.Finish?
  }

  /** Those steps leave what the run owes alone. */
  lemma ShiftOwesSame(run: Run, a: Act, answer: Option<Ticket>)
    requires Shifts(a) && Ready(run, a)
    ensures Owed(RunStep(run, a, answer)) == Owed(run)
  {
    var run' := RunStep(run, a, answer);
    assert run'.tasks == run.tasks && run'.tickets == run.tickets;
    assert run'.held == run.held && run'.holdsGlobal == run.holdsGlobal;
    OwedSame(run, run');
  }

  lemma ShiftUsesRank(run: Run, a: Act, answer: Option<Ticket>)
    requires Shifts(a) && Ready(run, a) && Shape(run)
    ensures Rank(RunStep(run, a, answer)) < Rank(run)
  {
    ShiftOwesSame(run, a, answer);
    if a.Collect? || a.Deadline? {
      OrderSize(a.order, run.runnable);
    }
  }

  lemma EveryStepUsesRank(c: Config, run: Run, a: Act, answer: Option<Ticket>)
    requires Ready(run, a) && RunOk(c, run)
    ensures Rank(RunStep(run, a, answer)) < Rank(run)
  {
    if LooksAtPlugin(a) {
      AdmissionUsesRank(run, a, answer);
    } else if Shifts(a) {
      ShiftUsesRank(run, a, answer);
    } else {
      match a
      case TakeGlobal => TasksCreated(run);
      case BeginCall(p) => TaskStarted(run, p);
      case EndTask(p, end) => TaskEnded(run, p, end);
      case RecordOne => RecordUsesRank(run, answer);
      case SettleOne(p) => TicketSettled(run, p, run.settled + [p]);
      case ReleaseProvider(p) => UnitReleased(run, p);
      case ReleaseGlobal => GlobalReleased(run);
      case Strand => StrandUsesRank(run, answer);
    }
  }

  lemma RankIsNatural(run: Run)
    requires Shape(run)
    ensures 0 <= Rank(run)
  {
  }

  /** The step by which a run gets on when nobody else moves: it takes units that are free and gives up
      on those that are not, its deadline passes, and calls that are cancelled end. */
  ghost function WayOut(c: Config, w: World, run: Run): Act
    requires Shape(run) && !run.phase.Ended?
  {
    match run.phase
    case Admitting(next) => if next < |run.plugins| then Consider else CloseAdmission
    case AwaitProvider(_) => if Admissible(c, w, run, TakeProvider) then TakeProvider else MissProvider
    case AwaitGlobal => if Admissible(c, w, run, TakeGlobal) then TakeGlobal else RejectGlobal
    case Running => if AllDone(run) then Collect(run.runnable) else Deadline(run.runnable)
    case Draining(_) => if AllDone(run) then Drained else Abort(run)
    case Recording(todo) => if todo != [] then RecordOne else FinishRecording
    case Unwinding(_) => if AllDone(run) then Unwound else Abort(run)
    case Settling(_) => if run.tickets != map[] then SettleOne(Any(run.tickets.Keys)) else BeginRelease
    case Releasing(_) =>
      if run.held != {} then ReleaseProvider(Any(run.held))
      else if run.holdsGlobal then ReleaseGlobal else Finish
    case Ended(_) => Finish
  }

  ghost function Any(s: set<string>): (p: string)
    requires s != {}
    ensures p in s
  {
    var p :| p in s;
    p
  }

  ghost function Abort(run: Run): (a: Act)
    requires !AllDone(run)
    ensures a.EndTask? && a.p in run.tasks && !run.tasks[a.p].Done? && a.end == TaskCancelled
  {
    var p :| p in run.tasks && !run.tasks[p].Done?;
    EndTask(p, TaskCancelled)
  }

  lemma WayOutIsOpen(c: Config, w: World, r: nat)
    requires r in w.runs && Shape(w.runs[r]) && !w.runs[r].phase.Ended?
    ensures Enabled(c, w, Do(r, WayOut(c, w, w.runs[r])))
  {
  }

  /** A schedule continues with steps of one run only, and that run ends. */
  ghost predicate EndsBy(c: Config, steps: seq<Step>, more: seq<Step>, r: nat) {
    && (forall i :: 0 <= i < |more| ==> more[i].Do? && more[i].r == r)
    && Feasible(c, steps + more)
    && r in Exec(c, steps + more).runs
    && Exec(c, steps + more).runs[r].phase.Ended?
  }

  lemma EndsByAfter(c: Config, steps: seq<Step>, next: Step, rest: seq<Step>, r: nat)
    requires next.Do? && next.r == r && EndsBy(c, steps + [next], rest, r)
    ensures EndsBy(c, steps, [next] + rest, r)
  {
    assert steps + ([next] + rest) == steps + [next] + rest;
  }

  /** No step of a continuation gives up on units that are free. */
  ghost predicate Patient(c: Config, steps: seq<Step>, more: seq<Step>)
    decreases |more|
  {
    more == [] || (
      && Feasible(c, steps)
      && GivesUpOnlyWhenFull(c, Exec(c, steps), more[0])
      && Patient(c, steps + [more[0]], more[1..]))
  }

  predicate GivesUpOnlyWhenFull(c: Config, w: World, s: Step) {
    s.Do? && s.r in w.runs ==>
      && (s.act.MissProvider? ==> !Admissible(c, w, w.runs[s.r], TakeProvider))
      && (s.act.RejectGlobal? ==> !Admissible(c, w, w.runs[s.r], TakeGlobal))
  }

  /** From every reachable state every run can end, by its own steps alone, within its rank, and without
      giving up on any limiter that has room. */
  lemma {:induction false} EveryRunCanEnd(c: Config, steps: seq<Step>, r: nat) returns (more: seq<Step>)
    requires c.Valid() && Feasible(c, steps) && r in Exec(c, steps).runs
    ensures EndsBy(c, steps, more, r) && Patient(c, steps, more) && |more| <= Rank(Exec(c, steps).runs[r])
    decreases Rank(Exec(c, steps).runs[r])
  {
    Reachable(c, steps);
    RankIsNatural(Exec(c, steps).runs[r]);
    if Exec(c, steps).runs[r].phase.Ended? {
      assert steps + [] == steps;
      more := [];
    } else {
      var next := StepOut(c, steps, r);
      var rest := EveryRunCanEnd(c, steps + [next], r);
      EndsByAfter(c, steps, next, rest, r);
      more := [next] + rest;
      assert more[1..] == rest;
    }
  }

  lemma StepOut(c: Config, steps: seq<Step>, r: nat) returns (next: Step)
    requires c.Valid() && Feasible(c, steps) && r in Exec(c, steps).runs
    requires !Exec(c, steps).runs[r].phase.Ended?
    ensures next.Do? && next.r == r && Feasible(c, steps + [next]) && r in Exec(c, steps + [next]).runs
    ensures GivesUpOnlyWhenFull(c, Exec(c, steps), next)
    ensures 0 <= Rank(Exec(c, steps + [next]).runs[r]) < Rank(Exec(c, steps).runs[r])
  {
    Reachable(c, steps);
    var w := Exec(c, steps);
    var run := w.runs[r];
    next := Do(r, WayOut(c, w, run));
    WayOutIsOpen(c, w, r);
    Extend(c, steps, next);
    EveryStepUsesRank(c, run, WayOut(c, w, run), Asked(c, w, run));
    Reachable(c, steps + [next]);
    RankIsNatural(Exec(c, steps + [next]).runs[r]);
  }

  lemma Extend(c: Config, steps: seq<Step>, s: Step)
    requires Feasible(c, steps) && Enabled(c, Exec(c, steps), s)
    ensures Feasible(c, steps + [s]) && Exec(c, steps + [s]) == Apply(c, Exec(c, steps), s)
  {
    assert (steps + [s])[..|steps|] == steps;
  }

  // ---- how long a run takes

  function StepsOf(steps: seq<Step>, r: nat): nat {
    if steps == [] then 0
    else
      var last := steps[|steps| - 1];
      StepsOf(steps[..|steps| - 1], r) + if last.Do? && last.r == r then 1 else 0
  }

  lemma NewRunRank(req: Request, plugins: seq<Plugin>)
    ensures Rank(NewRun(req, plugins)) == 100 + 12 * |plugins|
  {
    var run := NewRun(req, plugins);
    assert Pending(run) == {} && CallsOf(run) == {};
  }

  lemma {:induction false} StepsAndRank(c: Config, steps: seq<Step>, r: nat)
    requires c.Valid() && Feasible(c, steps)
    ensures var w := Exec(c, steps);
            if r in w.runs then StepsOf(steps, r) + Rank(w.runs[r]) <= 100 + 12 * |w.runs[r].plugins|
            else StepsOf(steps, r) == 0
  {
    if steps != [] {
      var n := |steps| - 1;
      var w, last := Exec(c, steps[..n]), steps[n];
      StepsAndRank(c, steps[..n], r);
      Reachable(c, steps[..n]);
      if last.Start? && last.r == r {
        NewRunRank(last.req, last.plugins);
      } else if last.Do? && last.r == r {
        EveryStepUsesRank(c, w.runs[r], last.act, Asked(c, w, w.runs[r]));
        PluginsStay(w.runs[r], last.act, Asked(c, w, w.runs[r]));
      }
    }
  }

  lemma PluginsStay(run: Run, a: Act, answer: Option<Ticket>)
    requires Ready(run, a)
    ensures RunStep(run, a, answer).plugins == run.plugins
  {
  }

  /** No run takes more than 100 + 12 n steps for its n plugins, in any schedule whatever. */
  lemma EveryRunIsShort(c: Config, steps: seq<Step>, r: nat)
    requires c.Valid() && Feasible(c, steps) && r in Exec(c, steps).runs
    ensures StepsOf(steps, r) <= 100 + 12 * |Exec(c, steps).runs[r].plugins|
  {
    StepsAndRank(c, steps, r);
    Reachable(c, steps);
    RankIsNatural(Exec(c, steps).runs[r]);
  }
}
