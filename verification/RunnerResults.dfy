/** What a run returns for each of its plugins, from the plugin's own answer to the list that reaches the
    caller: an answer that fits the request is passed on unchanged, everything else becomes a definite
    error, and nothing is changed or dropped between gathering the results and returning them. */
module RunnerResults {
  import opened Options
  import opened Collections
  import opened ProviderModels
  import opened Circuit
  import opened ProviderRunner
  import opened RunInvariant
  import opened RunnerTheorems
  import opened RunnerProgress
  import Limits

  // ---- one plugin

  /** The error that a run makes itself, with the request's own tokens and amount. */
  predicate IsOwnError(req: Request, id: string, x: ProviderResult, status: Status, kind: ErrorType) {
    && x.provider == id && x.status == status && x.error == Some(ErrorInfo(kind, None))
    && match req
       case PriceRequest(_, token) => x.payload == PricePayload(Some(token))
       case QuoteRequest(_, tokenIn, tokenOut, amountIn) =>
         x.payload == QuotePayload(Some(tokenIn), Some(tokenOut), Some(amountIn))
  }

  /** A result of the request's kind, under the plugin's id, that describes the request if it is a success. */
  predicate Fits(req: Request, id: string, x: ProviderResult) {
    x.provider == id &&
    match req
    case PriceRequest(chainId, token) =>
      x.payload.PricePayload? && (x.status.StatusOk? ==> x.payload.token == Some(TokenRef(chainId, token.address)))
    case QuoteRequest(chainId, tokenIn, tokenOut, amountIn) =>
      x.payload.QuotePayload? &&
      (x.status.StatusOk? ==>
         && x.payload.tokenIn == Some(TokenRef(chainId, tokenIn.address))
         && x.payload.tokenOut == Some(TokenRef(chainId, tokenOut.address))
         && x.payload.amountIn == Some(amountIn))
  }

  /** The plugin's answer is the result exactly as given if it fits; an answer that does not fit, an
      exception and a failed task are internal errors, a cancelled task is a missed deadline. */
  lemma AnswerIsPassedOn(req: Request, id: string, end: TaskEnd)
    ensures var x := TaskResult(req, id, end);
            if end.Completed? && end.call.Answer? && Fits(req, id, end.call.result) then x == end.call.result
            else IsOwnError(req, id, x, StatusError, if end.TaskCancelled? then DeadlineExceeded else Internal)
  {
  }

  /** Which plugins are turned away when they are looked at, and with what: in this order, one that is not
      enabled on the chain, one that does not support the operation, one that is unavailable, and one whose
      circuit refuses. All others are permitted, and nothing is added for them. */
  lemma TurnedAway(run: Run, answer: Option<Ticket>)
    requires Ready(run, Consider)
    ensures var plugin, after := run.plugins[run.phase.next], RunStep(run, Consider, answer);
            var supported := if run.req.PriceRequest? then plugin.supportsPrice else plugin.supportsQuote;
            var turned := (status: Status, kind: ErrorType) =>
              && |after.immediate| == |run.immediate| + 1 && after.immediate[..|run.immediate|] == run.immediate
              && IsOwnError(run.req, plugin.id, after.immediate[|run.immediate|], status, kind)
              && after.phase == Admitting(run.phase.next + 1) && after.tickets == run.tickets;
            if run.req.chainId !in plugin.enabledChains then turned(BadRequest, UnsupportedChain)
            else if !supported then turned(BadRequest, UnsupportedOperation)
            else if !plugin.available then turned(BadRequest, ProviderUnavailable)
            else if answer.None? then turned(StatusError, ProviderUnavailable)
            else after.immediate == run.immediate && after.phase == AwaitProvider(run.phase.next)
                 && after.tickets == run.tickets[plugin.id := answer.value]
  {
  }

  /** A plugin for which there is no unit is turned away too. */
  lemma CapacityTurnsAway(run: Run, answer: Option<Ticket>)
    requires Ready(run, MissProvider)
    ensures var plugin, after := run.plugins[run.phase.next], RunStep(run, MissProvider, answer);
            && |after.immediate| == |run.immediate| + 1 && after.immediate[..|run.immediate|] == run.immediate
            && IsOwnError(run.req, plugin.id, after.immediate[|run.immediate|], StatusError, ProviderUnavailable)
  {
  }

  // ---- from gathering to returning

  /** The results gathered are on their way, or, if the run returns, are what it returns. */
  predicate Carries(run: Run, gathered: seq<ProviderResult>, immediate: seq<ProviderResult>) {
    if run.phase.Draining? || run.phase.Recording? then
      run.results + run.phase.todo == gathered && run.immediate == immediate
    else InFinally(run) && (run.phase.ending.Returned? ==> run.phase.ending.results == gathered + immediate)
  }

  lemma CarriesKept(
    run: Run, a: Act, answer: Option<Ticket>, gathered: seq<ProviderResult>, immediate: seq<ProviderResult>)
    requires Ready(run, a) && Carries(run, gathered, immediate)
    ensures Carries(RunStep(run, a, answer), gathered, immediate)
  {
    if a.RecordOne? {
      var todo := run.phase.todo;
      assert run.results + [todo[0]] + todo[1..] == run.results + todo;
    } else if a.FinishRecording? {
      assert run.results + [] == run.results;
    }
  }

  /** The steps at which a run has all its results: its tasks are done, its deadline has passed, or it has
      nobody to call. */
  predicate Gathers(run: Run, a: Act) {
    a.Collect? || a.Deadline? || (a.CloseAdmission? && run.runnable == [])
  }

  function GatheredBy(run: Run, a: Act): seq<ProviderResult> {
    if a.Collect? || a.Deadline? then Gather(run, a.order) else []
  }

  lemma GatheringCarries(run: Run, a: Act, answer: Option<Ticket>)
    requires Gathers(run, a) && Ready(run, a) && run.results == []
    ensures Carries(RunStep(run, a, answer), GatheredBy(run, a), run.immediate)
  {
  }

  /** The results gathered in a step of a run are, with the results it had made itself, what it returns in
      the end, in any continuation. */
  lemma {:induction false} GatheredIsReturned(c: Config, steps: seq<Step>, more: seq<Step>, r: nat, a: Act)
    requires c.Valid() && Feasible(c, steps) && Feasible(c, steps + more) && more != []
    requires r in Exec(c, steps).runs && more[0] == Do(r, a) && Gathers(Exec(c, steps).runs[r], a)
    ensures var run := Exec(c, steps).runs[r];
            && r in Exec(c, steps + more).runs
            && Carries(Exec(c, steps + more).runs[r], GatheredBy(run, a), run.immediate)
  {
    var n := |more| - 1;
    var run := Exec(c, steps).runs[r];
    assert (steps + more)[..|steps + more| - 1] == steps + more[..n];
    if n == 0 {
      assert steps + more[..n] == steps;
      Reachable(c, steps);
      GatheringCarries(run, a, Asked(c, Exec(c, steps), run));
    } else {
      GatheredIsReturned(c, steps, more[..n], r, a);
      var w, last := Exec(c, steps + more[..n]), more[n];
      if last.Do? && last.r == r {
        CarriesKept(w.runs[r], last.act, Asked(c, w, w.runs[r]), GatheredBy(run, a), run.immediate);
      }
    }
  }

  /** In every schedule: what a run returns for a plugin that it called is the plugin's own answer if its
      task was done by the gathering and the answer fits the request, an internal error if the task was
      done otherwise, and a missed deadline if it was cancelled or not done. */
  lemma PluginAnswerReachesCaller(c: Config, steps: seq<Step>, more: seq<Step>, r: nat, a: Act, p: string)
    returns (x: ProviderResult)
    requires c.Valid() && Feasible(c, steps) && Feasible(c, steps + more) && more != []
    requires r in Exec(c, steps).runs && more[0] == Do(r, a) && Gathers(Exec(c, steps).runs[r], a)
    requires p in Exec(c, steps).runs[r].runnable
    requires r in Exec(c, steps + more).runs
    requires var phase := Exec(c, steps + more).runs[r].phase; phase.Ended? && phase.ending.Returned?
    ensures x in Exec(c, steps + more).runs[r].phase.ending.results
    ensures var run := Exec(c, steps).runs[r];
            if p !in run.tasks || !run.tasks[p].Done? then IsOwnError(run.req, p, x, StatusError, DeadlineExceeded)
            else
              var end := run.tasks[p].end;
              if end.Completed? && end.call.Answer? && Fits(run.req, p, end.call.result) then x == end.call.result
              else IsOwnError(run.req, p, x, StatusError, if end.TaskCancelled? then DeadlineExceeded else Internal)
  {
    var run := Exec(c, steps).runs[r];
    GatheredIsReturned(c, steps, more, r, a);
    GatherStep(c, steps, more, r, a);
    assert a.Collect? || a.Deadline?;
    Reordered(a.order, run.runnable);
    var k :| 0 <= k < |a.order| && a.order[k] == p;
    x := Gather(run, a.order)[k];
    assert x == (Gather(run, a.order) + run.immediate)[k];
    if p in run.tasks && run.tasks[p].Done? {
      AnswerIsPassedOn(run.req, p, run.tasks[p].end);
    }
  }

  lemma GatherStep(c: Config, steps: seq<Step>, more: seq<Step>, r: nat, a: Act)
    requires Feasible(c, steps) && Feasible(c, steps + more) && more != [] && more[0] == Do(r, a)
    ensures Enabled(c, Exec(c, steps), Do(r, a))
    decreases |more|
  {
    var n := |more| - 1;
    assert (steps + more)[..|steps + more| - 1] == steps + more[..n];
    if n == 0 {
      assert steps + more[..n] == steps;
    } else {
      GatherStep(c, steps, more[..n], r, a);
    }
  }

  /** The results that a run makes itself before it calls anyone are returned as they are. */
  lemma OwnResultsReachCaller(c: Config, steps: seq<Step>, more: seq<Step>, r: nat, a: Act)
    requires c.Valid() && Feasible(c, steps) && Feasible(c, steps + more) && more != []
    requires r in Exec(c, steps).runs && more[0] == Do(r, a) && Gathers(Exec(c, steps).runs[r], a)
    requires r in Exec(c, steps + more).runs
    requires var phase := Exec(c, steps + more).runs[r].phase; phase.Ended? && phase.ending.Returned?
    ensures forall x <- Exec(c, steps).runs[r].immediate ::
              x in Exec(c, steps + more).runs[r].phase.ending.results
  {
    GatheredIsReturned(c, steps, more, r, a);
  }

  // ---- how a run ends

  predicate Took(steps: seq<Step>, r: nat, a: Act) {
    Do(r, a) in steps
  }

  lemma TookMore(steps: seq<Step>, last: Step, r: nat)
    ensures forall a :: Took(steps + [last], r, a) <==> Took(steps, r, a) || last == Do(r, a)
  {
  }

  /** How a run has come to its `finally` block, and whether it was stranded there. */
  predicate EndsAs(run: Run, returned: bool, rejected: bool, cancelled: bool, stranded: bool) {
    if !InFinally(run) then !returned && !rejected && !cancelled && !stranded
    else if stranded then run.phase.ending.Stranded?
    else
      && !run.phase.ending.Stranded?
      && run.phase.ending.Returned? == returned
      && run.phase.ending.Rejected? == rejected
      && run.phase.ending.Cancelled? == cancelled
  }

  lemma StepEndsAs(
    run: Run, a: Act, answer: Option<Ticket>, returned: bool, rejected: bool, cancelled: bool, stranded: bool)
    requires Ready(run, a) && EndsAs(run, returned, rejected, cancelled, stranded)
    ensures EndsAs(RunStep(run, a, answer), returned || a.FinishRecording?, rejected || a.RejectGlobal?,
                   cancelled || a.Cancel?, stranded || a.Strand?)
  {
  }

  predicate EndsAsTaken(steps: seq<Step>, r: nat, run: Run) {
    EndsAs(run, Took(steps, r, FinishRecording), Took(steps, r, RejectGlobal), Took(steps, r, Cancel),
           Took(steps, r, Strand))
  }

  /** In every schedule a run ends as rejected, cancelled or returned exactly if the global limiter turned it
      away, it was cancelled, or it recorded all its results, unless it was stranded in its release. */
  lemma {:induction false} EndingIsWhatHappened(c: Config, steps: seq<Step>, r: nat)
    requires c.Valid() && Feasible(c, steps)
    ensures if r in Exec(c, steps).runs then EndsAsTaken(steps, r, Exec(c, steps).runs[r])
            else forall a :: !Took(steps, r, a)
  {
    if steps != [] {
      var n := |steps| - 1;
      var init, last := steps[..n], steps[n];
      EndingIsWhatHappened(c, init, r);
      assert steps == init + [last];
      var w := Exec(c, init);
      if last.Do? && last.r == r {
        TookMore(init, last, r);
        StepEndsAs(w.runs[r], last.act, Asked(c, w, w.runs[r]), Took(init, r, FinishRecording),
                   Took(init, r, RejectGlobal), Took(init, r, Cancel), Took(init, r, Strand));
      } else {
        TookMore(init, last, r);
      }
    }
  }
}
