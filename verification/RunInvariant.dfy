/** What every step keeps about a single run, whatever the other runs do. */
module RunInvariant {
  import opened Options
  import opened Collections
  import opened ProviderRunner

  /** How many plugins have been dealt with. */
  function Looked(run: Run): nat {
    match run.phase
    case Admitting(next) => next
    case AwaitProvider(next) => next
    case _ => |run.plugins|
  }

  predicate InFinally(run: Run) {
    run.phase.Unwinding? || run.phase.Settling? || run.phase.Releasing? || run.phase.Ended?
  }

  predicate Live(run: Run) {
    run.phase.Running? || run.phase.Draining? || run.phase.Unwinding?
  }

  ghost predicate Shape(run: Run) {
    && NoDup(PluginIds(run.plugins))
    && Looked(run) <= |run.plugins|
    && (run.phase.AwaitProvider? ==> run.phase.next < |run.plugins|)
    && NoDup(run.runnable)
    && (forall x <- run.runnable :: x in PluginIds(run.plugins)[..Looked(run)])
  }

  /** Reservations: provider units are held from admission until they are released one by one. */
  ghost predicate Holding(run: Run) {
    && (forall p <- run.held :: p in run.runnable)
    && (!run.phase.Releasing? && !run.phase.Ended? ==> forall p <- run.runnable :: p in run.held)
    && (run.holdsGlobal ==> !run.phase.Admitting? && !run.phase.AwaitProvider? && !run.phase.AwaitGlobal?)
    && (run.phase.Running? || run.phase.Draining? ==> run.holdsGlobal)
    && (run.phase.AwaitGlobal? || run.holdsGlobal ==> run.runnable != [])
    && (run.phase.Ended? ==> (run.held == {} && !run.holdsGlobal <==> !run.phase.ending.Stranded?))
    && (InFinally(run) && run.phase.ending.Stranded? ==> run.phase.Ended?)
  }

  /** Tasks: only a run that holds the global units has tasks that have not ended. */
  ghost predicate Tasked(c: Config, run: Run) {
    && (forall p <- run.tasks :: p in run.runnable)
    && (run.phase.Running? || run.phase.Draining? ==> forall p <- run.runnable :: p in run.tasks)
    && (!AllDone(run) ==> Live(run) && run.holdsGlobal)
    && |CallsOf(run)| <= c.fanout
  }

  /** Permissions: each is granted once, outstanding until it is settled, and settled once. */
  ghost predicate Ledger(run: Run) {
    && NoDup(run.permits)
    && (forall p <- run.permits :: p in PluginIds(run.plugins)[..Permissible(run)])
    && multiset(run.permits) == multiset(run.settled) + multiset(run.tickets.Keys)
    && (run.phase.Releasing? || run.phase.Ended? ==> run.tickets == map[])
  }

  /** Which permissions must still be outstanding. */
  ghost predicate Ticketed(run: Run) {
    && (run.phase.AwaitProvider? && Facing(run) ==> NextId(run) in run.tickets)
    && (!InFinally(run) && !run.phase.Recording? ==> forall p <- run.runnable :: p in run.tickets)
    && (run.phase.Recording? ==>
          && NoDup(Ids(run.phase.todo))
          && forall p <- Ids(run.phase.todo) :: p in run.tickets)
  }

  /** The plugins whose scope the breaker may have been asked about. */
  function Permissible(run: Run): nat {
    if run.phase.AwaitProvider? && run.phase.next < |run.plugins| then run.phase.next + 1
    else Min(Looked(run), |run.plugins|)
  }

  ghost predicate Balanced(run: Run) {
    && Looked(run) <= |run.plugins|
    && multiset(Ids(run.immediate)) + multiset(run.runnable) == multiset(PluginIds(run.plugins)[..Looked(run)])
  }

  /** Results: at every moment each plugin looked at stands for one result, made or to be made. */
  ghost predicate Accounted(run: Run) {
    && (run.phase.Admitting? || run.phase.AwaitProvider? || run.phase.AwaitGlobal? || run.phase.Running?
        ==> run.results == [])
    && (run.phase.Draining? ==> run.results == [] && multiset(Ids(run.phase.todo)) == multiset(run.runnable))
    && (run.phase.Recording? ==>
          multiset(Ids(run.results)) + multiset(Ids(run.phase.todo)) == multiset(run.runnable))
    && (!InFinally(run) ==> Balanced(run))
    && (InFinally(run) && run.phase.ending.Returned? ==>
          multiset(Ids(run.phase.ending.results)) == multiset(PluginIds(run.plugins)))
  }

  predicate Genuine(req: Request, results: seq<ProviderResult>) {
    forall i :: 0 <= i < |results| ==> results[i].status.StatusOk? ==> MatchesRequest(req, results[i].payload)
  }

  /** No result that is reported as a success describes anything but the request. */
  ghost predicate AllGenuine(run: Run) {
    && Genuine(run.req, run.immediate)
    && Genuine(run.req, run.results)
    && (run.phase.Draining? || run.phase.Recording? ==> Genuine(run.req, run.phase.todo))
    && (InFinally(run) && run.phase.ending.Returned? ==> Genuine(run.req, run.phase.ending.results))
  }

  ghost predicate RunOk(c: Config, run: Run) {
    Shape(run) && Holding(run) && Tasked(c, run) && Ledger(run) && Ticketed(run) && Accounted(run) && AllGenuine(run)
  }

  lemma ShapeKept(run: Run, a: Act, answer: Option<Ticket>)
    requires Ready(run, a) && Shape(run)
    ensures Shape(RunStep(run, a, answer))
  {
    var run' := RunStep(run, a, answer);
    var ids := PluginIds(run.plugins);
    if a.TakeProvider? {
      var i := run.phase.next;
      assert ids[..i + 1] == ids[..i] + [ids[i]];
      assert ids[i] !in ids[..i];
    } else {
      assert run'.runnable == run.runnable && run'.plugins == run.plugins;
      forall x <- run.runnable ensures x in ids[..Looked(run')] {
        var k :| 0 <= k < Looked(run) && ids[..Looked(run)][k] == x;
        assert ids[..Looked(run')][k] == x;
      }
    }
  }

  lemma HoldingKept(run: Run, a: Act, answer: Option<Ticket>)
    requires Ready(run, a) && Holding(run)
    ensures Holding(RunStep(run, a, answer))
  {
  }

  lemma TaskedKept(c: Config, run: Run, a: Act, answer: Option<Ticket>)
    requires c.Valid() && Ready(run, a) && Holding(run) && Tasked(c, run)
    requires a.BeginCall? ==> |CallsOf(run)| < c.fanout
    ensures Tasked(c, RunStep(run, a, answer))
  {
    var run' := RunStep(run, a, answer);
    if a.BeginCall? {
      assert CallsOf(run') == CallsOf(run) + {a.p};
    } else if a.EndTask? {
      assert !AllDone(run);
      assert CallsOf(run') == CallsOf(run) - {a.p};
    } else if a.TakeGlobal? {
      assert CallsOf(run') == {};
    } else {
      assert run'.tasks == run.tasks;
      assert CallsOf(run') == CallsOf(run) && AllDone(run') == AllDone(run);
    }
  }

  // ---- permissions

  lemma FreshId(run: Run, p: string)
    requires Shape(run) && Facing(run) && p == NextId(run)
    requires forall x <- run.permits :: x in PluginIds(run.plugins)[..run.phase.next]
    ensures p !in run.permits
    ensures forall x <- run.permits + [p] :: x in PluginIds(run.plugins)[..run.phase.next + 1]
  {
    var ids, i := PluginIds(run.plugins), run.phase.next;
    assert ids[..i + 1] == ids[..i] + [ids[i]];
    assert ids[i] !in ids[..i];
  }

  lemma TicketAdded(tickets: map<string, Ticket>, p: string, t: Ticket)
    requires p !in tickets
    ensures multiset(tickets[p := t].Keys) == multiset(tickets.Keys) + multiset{p}
  {
    assert tickets[p := t].Keys == tickets.Keys + {p};
  }

  lemma TicketRemoved(tickets: map<string, Ticket>, p: string)
    requires p in tickets
    ensures multiset(tickets.Keys) == multiset((tickets - {p}).Keys) + multiset{p}
  {
    assert tickets.Keys == (tickets - {p}).Keys + {p};
  }

  lemma PermitsPrefix(run: Run, n: nat)
    requires Permissible(run) <= n <= |run.plugins|
    requires forall x <- run.permits :: x in PluginIds(run.plugins)[..Permissible(run)]
    ensures forall x <- run.permits :: x in PluginIds(run.plugins)[..n]
  {
    var ids := PluginIds(run.plugins);
    forall x <- run.permits ensures x in ids[..n] {
      var k :| 0 <= k < Permissible(run) && ids[..Permissible(run)][k] == x;
      assert ids[..n][k] == x;
    }
  }

  lemma LedgerKept(run: Run, a: Act, answer: Option<Ticket>)
    requires Ready(run, a) && Shape(run) && Ledger(run) && Ticketed(run)
    ensures Ledger(RunStep(run, a, answer))
  {
    var run' := RunStep(run, a, answer);
    if a.Consider? && run'.phase.AwaitProvider? {
      PermitAdded(run, answer.value);
    } else {
      PermitsPrefix(run, Permissible(run'));
      if a.RecordOne? {
        assert Ids(run.phase.todo)[0] == run.phase.todo[0].provider;
        SettledOne(run, run.phase.todo[0].provider);
      } else if a.SettleOne? {
        SettledOne(run, a.p);
      }
    }
  }

  lemma SettledOne(run: Run, p: string)
    requires p in run.tickets && multiset(run.permits) == multiset(run.settled) + multiset(run.tickets.Keys)
    ensures multiset(run.permits) == multiset(run.settled + [p]) + multiset((run.tickets - {p}).Keys)
  {
    TicketRemoved(run.tickets, p);
  }

  lemma OnlyPermittedTickets(run: Run)
    requires Ledger(run)
    ensures forall p <- run.tickets :: p in run.permits
  {
    forall p <- run.tickets ensures p in run.permits {
      assert p in multiset(run.permits);
    }
  }

  lemma PermitAdded(run: Run, t: Ticket)
    requires run.phase.Admitting? && Facing(run) && Shape(run) && Ledger(run)
    ensures var p := NextId(run);
            Ledger(run.(tickets := run.tickets[p := t], permits := run.permits + [p],
                        phase := AwaitProvider(run.phase.next)))
  {
    var p := NextId(run);
    FreshId(run, p);
    OnlyPermittedTickets(run);
    TicketAdded(run.tickets, p, t);
  }

  lemma GatherIds(run: Run, order: seq<string>)
    ensures Ids(Gather(run, order)) == order
  {
  }

  lemma TicketedKept(run: Run, a: Act, answer: Option<Ticket>)
    requires Ready(run, a) && Shape(run) && Ticketed(run) && Accounted(run)
    ensures Ticketed(RunStep(run, a, answer))
  {
    var run' := RunStep(run, a, answer);
    if a.Collect? {
      GatherIds(run, a.order);
      Reordered(a.order, run.runnable);
    } else if a.Drained? {
      Reordered(Ids(run.phase.todo), run.runnable);
    } else if a.RecordOne? {
      RestTicketed(run.phase.todo, run.tickets);
    }
  }

  lemma RestTicketed(todo: seq<ProviderResult>, tickets: map<string, Ticket>)
    requires todo != [] && NoDup(Ids(todo)) && forall p <- Ids(todo) :: p in tickets
    ensures NoDup(Ids(todo[1..])) && forall p <- Ids(todo[1..]) :: p in tickets - {todo[0].provider}
  {
    var ids := Ids(todo);
    assert Ids(todo[1..]) == ids[1..];
    forall p <- ids[1..] ensures p in tickets - {ids[0]} {
      var k :| 0 <= k < |ids[1..]| && ids[1..][k] == p;
      assert ids[k + 1] == p && ids[0] != p;
    }
  }

  // ---- results

  lemma IdsAppend(a: seq<ProviderResult>, b: seq<ProviderResult>)
    ensures Ids(a + b) == Ids(a) + Ids(b)
  {
  }

  lemma NextAccounted(run: Run)
    requires Shape(run) && Facing(run)
    ensures var ids := PluginIds(run.plugins);
            multiset(ids[..run.phase.next + 1]) == multiset(ids[..run.phase.next]) + multiset{NextId(run)}
  {
    var ids, i := PluginIds(run.plugins), run.phase.next;
    assert ids[..i + 1] == ids[..i] + [ids[i]];
  }

  lemma ImmediateAdded(immediate: seq<ProviderResult>, x: ProviderResult)
    ensures multiset(Ids(immediate + [x])) == multiset(Ids(immediate)) + multiset{x.provider}
  {
    IdsAppend(immediate, [x]);
    assert Ids([x]) == [x.provider];
  }

  lemma ResultAdded(run: Run, x: ProviderResult)
    requires Shape(run) && Facing(run) && Balanced(run) && x.provider == NextId(run)
    ensures Balanced(run.(immediate := run.immediate + [x], phase := Admitting(run.phase.next + 1)))
  {
    NextAccounted(run);
    ImmediateAdded(run.immediate, x);
  }

  lemma RunnableAdded(run: Run, held: set<string>)
    requires Shape(run) && Facing(run) && Balanced(run)
    ensures Balanced(run.(held := held, runnable := run.runnable + [NextId(run)],
                          phase := Admitting(run.phase.next + 1)))
  {
    NextAccounted(run);
    assert multiset(run.runnable + [NextId(run)]) == multiset(run.runnable) + multiset{NextId(run)};
  }

  lemma CollectAccounted(run: Run, order: seq<string>)
    requires run.phase.Running? && Accounted(run) && multiset(order) == multiset(run.runnable)
    ensures Accounted(run.(phase := Recording(Gather(run, order))))
    ensures Accounted(run.(phase := Draining(Gather(run, order))))
  {
    GatherIds(run, order);
    assert multiset(Ids(run.results)) == multiset{};
  }

  lemma ReturnAccounted(run: Run)
    requires run.phase.Recording? && run.phase.todo == [] && Shape(run) && Accounted(run)
    ensures Accounted(run.(phase := Settling(Returned(run.results + run.immediate))))
  {
    IdsAppend(run.results, run.immediate);
    assert Ids(run.phase.todo) == [];
    assert PluginIds(run.plugins)[..|run.plugins|] == PluginIds(run.plugins);
  }

  predicate LooksAtPlugin(a: Act) {
    a.Consider? || a.MissProvider? || a.TakeProvider?
  }

  lemma ConsiderAccounted(run: Run, answer: Option<Ticket>)
    requires Ready(run, Consider) && Shape(run) && Accounted(run)
    ensures Accounted(RunStep(run, Consider, answer))
  {
    var reason := StaticRejection(run.plugins[run.phase.next], run.req);
    ResultAdded(run, StaticResult(run.req, NextId(run), reason.GetOr(CircuitOpen)));
  }

  lemma AdmissionAccounted(run: Run, a: Act, answer: Option<Ticket>)
    requires LooksAtPlugin(a) && Ready(run, a) && Shape(run) && Accounted(run)
    ensures Accounted(RunStep(run, a, answer))
  {
    if a.Consider? {
      ConsiderAccounted(run, answer);
    } else if a.MissProvider? {
      ResultAdded(run, StaticResult(run.req, NextId(run), NoCapacity));
    } else {
      RunnableAdded(run, run.held + {NextId(run)});
    }
  }

  lemma FinallyAccounted(run: Run, a: Act, answer: Option<Ticket>)
    requires InFinally(run) && Ready(run, a) && Accounted(run)
    ensures Accounted(RunStep(run, a, answer))
  {
  }

  lemma AccountedKept(run: Run, a: Act, answer: Option<Ticket>)
    requires Ready(run, a) && Shape(run) && Accounted(run)
    ensures Accounted(RunStep(run, a, answer))
  {
    if InFinally(run) {
      FinallyAccounted(run, a, answer);
    } else if LooksAtPlugin(a) {
      AdmissionAccounted(run, a, answer);
    } else if a.Collect? || a.Deadline? {
      CollectAccounted(run, a.order);
    } else if a.RecordOne? {
      RecordAccounted(run.results, run.phase.todo);
    } else if a.FinishRecording? {
      ReturnAccounted(run);
    } else if a.CloseAdmission? {
      assert Ids([]) == [];
    }
  }

  lemma RecordAccounted(results: seq<ProviderResult>, todo: seq<ProviderResult>)
    requires todo != []
    ensures multiset(Ids(results + [todo[0]])) + multiset(Ids(todo[1..]))
            == multiset(Ids(results)) + multiset(Ids(todo))
  {
    IdsAppend(results, [todo[0]]);
    assert Ids(todo) == Ids([todo[0]]) + Ids(todo[1..]);
  }

  lemma GuardedCallGenuine(req: Request, id: string, end: TaskEnd)
    ensures TaskResult(req, id, end).provider == id
    ensures TaskResult(req, id, end).status.StatusOk? ==>
              && end.Completed? && end.call.Answer? && end.call.result == TaskResult(req, id, end)
              && MatchesRequest(req, end.call.result.payload)
  {
  }

  lemma GenuineKept(run: Run, a: Act, answer: Option<Ticket>)
    requires Ready(run, a) && AllGenuine(run)
    ensures AllGenuine(RunStep(run, a, answer))
  {
    if LooksAtPlugin(a) {
      AdmissionGenuine(run, a, answer);
    }
  }

  lemma AdmissionGenuine(run: Run, a: Act, answer: Option<Ticket>)
    requires LooksAtPlugin(a) && Ready(run, a) && AllGenuine(run)
    ensures AllGenuine(RunStep(run, a, answer))
  {
  }

  lemma RunKept(c: Config, run: Run, a: Act, answer: Option<Ticket>)
    requires c.Valid() && Ready(run, a) && RunOk(c, run)
    requires a.BeginCall? ==> |CallsOf(run)| < c.fanout
    ensures RunOk(c, RunStep(run, a, answer))
  {
    ShapeKept(run, a, answer);
    HoldingKept(run, a, answer);
    TaskedKept(c, run, a, answer);
    LedgerKept(run, a, answer);
    TicketedKept(run, a, answer);
    AccountedKept(run, a, answer);
    GenuineKept(run, a, answer);
  }

  lemma NewRunOk(c: Config, req: Request, plugins: seq<Plugin>)
    requires c.Valid() && NoDup(PluginIds(plugins))
    ensures RunOk(c, NewRun(req, plugins))
  {
    assert CallsOf(NewRun(req, plugins)) == {};
  }
}
