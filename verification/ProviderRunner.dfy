/** price_api/core/provider_runner.py: admission, fan-out, deadline, cancellation and release of any
    number of concurrent runs, as a transition system. A step is at most the code between two
    suspension points; where the code does more without suspending, the model allows other runs in
    between, so it has at least the interleavings of the program. */
module ProviderRunner {
  import opened Options
  import opened Collections
  import opened ProviderModels
  import opened Circuit
  import opened CircuitProbes
  import Limits

  // ---- requests, plugins and results

  datatype TokenRef = TokenRef(chainId: int, address: string)

  datatype Request =
    | PriceRequest(chainId: int, token: TokenRef)
    | QuoteRequest(chainId: int, tokenIn: TokenRef, tokenOut: TokenRef, amountIn: int)
  {
    function Op(): Operation {
      if PriceRequest? then Price else Quote
    }
  }

  datatype Payload =
    | PricePayload(token: Option<TokenRef>)
    | QuotePayload(tokenIn: Option<TokenRef>, tokenOut: Option<TokenRef>, amountIn: Option<int>)

  datatype ProviderResult = ProviderResult(
    provider: string, status: Status, payload: Payload, error: Option<ErrorInfo>)

  datatype Plugin = Plugin(
    id: string, enabledChains: set<int>, supportsPrice: bool, supportsQuote: bool, available: bool)

  /** What awaiting a plugin's `get_price` or `get_quote` ends with. */
  datatype Call = Answer(result: ProviderResult) | Exception

  /** How a provider task ends; TaskFailed is an exception outside the guarded call. */
  datatype TaskEnd = Completed(call: Call) | TaskCancelled | TaskFailed

  datatype Reason = WrongChain | WrongOperation | Unavailable | CircuitOpen | NoCapacity

  function StaticRejection(plugin: Plugin, req: Request): Option<Reason> {
    if req.chainId !in plugin.enabledChains then Some(WrongChain)
    else if req.Op() == Price && !plugin.supportsPrice then Some(WrongOperation)
    else if req.Op() == Quote && !plugin.supportsQuote then Some(WrongOperation)
    else if !plugin.available then Some(Unavailable)
    else None
  }

  /** The request's own identity, which every locally made result carries. */
  function OwnPayload(req: Request): Payload {
    match req
    case PriceRequest(_, token) => PricePayload(Some(token))
    case QuoteRequest(_, tokenIn, tokenOut, amountIn) => QuotePayload(Some(tokenIn), Some(tokenOut), Some(amountIn))
  }

  function LocalError(req: Request, id: string, status: Status, kind: ErrorType): ProviderResult {
    ProviderResult(id, status, OwnPayload(req), Some(ErrorInfo(kind, None)))
  }

  function StaticResult(req: Request, id: string, reason: Reason): ProviderResult {
    match reason
    case WrongChain => LocalError(req, id, BadRequest, UnsupportedChain)
    case WrongOperation => LocalError(req, id, BadRequest, UnsupportedOperation)
    case Unavailable => LocalError(req, id, BadRequest, ProviderUnavailable)
    case CircuitOpen => LocalError(req, id, StatusError, ProviderUnavailable)
    case NoCapacity => LocalError(req, id, StatusError, ProviderUnavailable)
  }

  /** The identity checks of a plugin's answer. */
  predicate IdentityHolds(req: Request, id: string, result: ProviderResult) {
    && result.provider == id
    && (result.status.StatusOk? ==> MatchesRequest(req, result.payload))
  }

  predicate MatchesRequest(req: Request, payload: Payload) {
    if req.PriceRequest? then
      && payload.PricePayload?
      && payload.token.Some? && payload.token.value.chainId == req.chainId
      && payload.token.value.address == req.token.address
    else
      && payload.QuotePayload?
      && payload.tokenIn.Some? && payload.tokenOut.Some?
      && payload.tokenIn.value.chainId == req.chainId && payload.tokenOut.value.chainId == req.chainId
      && payload.tokenIn.value.address == req.tokenIn.address
      && payload.tokenOut.value.address == req.tokenOut.address
      && payload.amountIn == Some(req.amountIn)
  }

  /** `_run_price_plugin` and `_run_quote_plugin`: any exception or failed check becomes an error. */
  function GuardedCall(req: Request, id: string, call: Call): ProviderResult {
    if call.Answer? && call.result.payload.PricePayload? == req.PriceRequest? && IdentityHolds(req, id, call.result)
    then call.result
    else LocalError(req, id, StatusError, Internal)
  }

  function TaskResult(req: Request, id: string, end: TaskEnd): ProviderResult {
    match end
    case Completed(call) => GuardedCall(req, id, call)
    case TaskCancelled => LocalError(req, id, StatusError, DeadlineExceeded)
    case TaskFailed => LocalError(req, id, StatusError, Internal)
  }

  // ---- runs

  /** A permission of the breaker: the period it was granted in, and whether it is a probe. */
  datatype Ticket = Ticket(period: nat, probe: bool)

  datatype Task = Queued | InCall | Done(end: TaskEnd)

  datatype Ending = Returned(results: seq<ProviderResult>) | Rejected | Cancelled | Stranded

  datatype Phase =
    | Admitting(next: nat)                  // about to look at a plugin
    | AwaitProvider(next: nat)              // permitted, waiting for the provider's limiter
    | AwaitGlobal                           // waiting for the global limiter
    | Running                               // waiting for the tasks or the deadline
    | Draining(todo: seq<ProviderResult>)   // deadline passed, waiting for cancelled tasks
    | Recording(todo: seq<ProviderResult>)  // reporting results to the breaker
    | Unwinding(ending: Ending)             // `finally`, waiting for cancelled tasks
    | Settling(ending: Ending)              // `finally`, releasing permissions
    | Releasing(ending: Ending)             // `finally`, releasing reservations
    | Ended(ending: Ending)

  datatype Run = Run(
    req: Request,
    plugins: seq<Plugin>,
    phase: Phase,
    immediate: seq<ProviderResult>,
    runnable: seq<string>,
    tickets: map<string, Ticket>,      // circuit_scopes: permissions neither recorded nor released
    held: set<string>,                 // provider reservations not yet released
    holdsGlobal: bool,
    tasks: map<string, Task>,
    results: seq<ProviderResult>,
    permits: seq<string>,              // history: every permission granted
    settled: seq<string>)              // history: every permission recorded or released

  datatype Tracked = Tracked(gate: Gate, period: nat)

  datatype World = World(
    now: nat,
    providerUsed: map<string, int>,
    globalUsed: int,
    gates: map<Scope, Tracked>,
    runs: map<nat, Run>)

  datatype Config = Config(globalUnits: int, perProviderUnits: int, fanout: int, circuit: Settings)
  {
    predicate Valid() {
      globalUnits > 0 && perProviderUnits > 0 && fanout > 0 && circuit.Valid()
    }
  }

  const START := World(0, map[], 0, map[], map[])

  function UsedBy(w: World, key: string): int {
    if key in w.providerUsed then w.providerUsed[key] else 0
  }

  function TrackedOf(w: World, s: Scope): Tracked {
    if s in w.gates then w.gates[s] else Tracked(NEW_GATE, 0)
  }

  function ScopeOf(run: Run, id: string): Scope {
    Scope(id, run.req.chainId, run.req.Op())
  }

  function PluginIds(plugins: seq<Plugin>): seq<string> {
    seq(|plugins|, i requires 0 <= i < |plugins| => plugins[i].id)
  }

  function Ids(results: seq<ProviderResult>): seq<string> {
    seq(|results|, i requires 0 <= i < |results| => results[i].provider)
  }

  function CallsOf(run: Run): set<string> {
    set p | p in run.tasks && run.tasks[p].InCall?
  }

  predicate AllDone(run: Run) {
    forall p <- run.tasks :: run.tasks[p].Done?
  }

  // ---- steps

  /** What a run does next. Strand is a cancellation that arrives while a release waits for the lock of
      a limiter: what is not released by then never is. */
  datatype Act =
    | Consider
    | TakeProvider
    | MissProvider
    | CloseAdmission
    | TakeGlobal
    | RejectGlobal
    | BeginCall(p: string)
    | EndTask(p: string, end: TaskEnd)
    | Collect(order: seq<string>)
    | Deadline(order: seq<string>)
    | Drained
    | RecordOne
    | FinishRecording
    | Cancel
    | Unwound
    | SettleOne(p: string)
    | BeginRelease
    | ReleaseProvider(p: string)
    | ReleaseGlobal
    | Strand
    | Finish

  datatype Step = Tick(to: nat) | Start(r: nat, req: Request, plugins: seq<Plugin>) | Do(r: nat, act: Act)

  predicate Facing(run: Run) {
    (run.phase.Admitting? || run.phase.AwaitProvider?) && run.phase.next < |run.plugins|
  }

  /** The plugin a run is looking at. */
  function NextId(run: Run): string
    requires Facing(run)
  {
    run.plugins[run.phase.next].id
  }

  /** What the run itself must be ready for. */
  predicate Ready(run: Run, a: Act) {
    match a
    case Consider => run.phase.Admitting? && Facing(run)
    case TakeProvider => run.phase.AwaitProvider? && Facing(run)
    case MissProvider => run.phase.AwaitProvider? && Facing(run)
    case CloseAdmission => run.phase.Admitting? && run.phase.next == |run.plugins|
    case TakeGlobal => run.phase.AwaitGlobal?
    case RejectGlobal => run.phase.AwaitGlobal?
    case BeginCall(p) => run.phase.Running? && p in run.tasks && run.tasks[p].Queued?
    case EndTask(p, end) =>
      && p in run.tasks
      && (run.tasks[p].InCall? || (run.tasks[p].Queued? && !run.phase.Running? && end.TaskCancelled?))
      && (run.phase.Running? || run.phase.Draining? || run.phase.Unwinding?)
    case Collect(order) => run.phase.Running? && AllDone(run) && multiset(order) == multiset(run.runnable)
    case Deadline(order) => run.phase.Running? && !AllDone(run) && multiset(order) == multiset(run.runnable)
    case Drained => run.phase.Draining? && AllDone(run)
    case RecordOne => run.phase.Recording? && run.phase.todo != []
    case FinishRecording => run.phase.Recording? && run.phase.todo == []
    case Cancel =>
      run.phase.AwaitProvider? || run.phase.AwaitGlobal? || run.phase.Running? || run.phase.Draining?
    case Unwound => run.phase.Unwinding? && AllDone(run)
    case SettleOne(p) => run.phase.Settling? && p in run.tickets
    case BeginRelease => run.phase.Settling? && run.tickets == map[]
    case ReleaseProvider(p) => run.phase.Releasing? && p in run.held
    case ReleaseGlobal => run.phase.Releasing? && run.held == {} && run.holdsGlobal
    case Strand => run.phase.Releasing? && (run.held != {} || run.holdsGlobal)
    case Finish => run.phase.Releasing? && run.held == {} && !run.holdsGlobal
  }

  /** What the shared limiters and the fan-out semaphore must allow. */
  predicate Admissible(c: Config, w: World, run: Run, a: Act) {
    match a
    case TakeProvider => Facing(run) && UsedBy(w, Limits.LimiterKey(NextId(run))) + 1 <= c.perProviderUnits
    case TakeGlobal => w.globalUsed + |run.runnable| <= c.globalUnits
    case BeginCall(_) => |CallsOf(run)| < c.fanout
    case _ => true
  }

  predicate Enabled(c: Config, w: World, s: Step) {
    match s
    case Tick(to) => w.now <= to
    case Start(r, _, plugins) => r !in w.runs && NoDup(PluginIds(plugins))
    case Do(r, a) => r in w.runs && Ready(w.runs[r], a) && Admissible(c, w, w.runs[r], a)
  }

  function NewRun(req: Request, plugins: seq<Plugin>): Run {
    Run(req, plugins, Admitting(0), [], [], map[], {}, false, map[], [], [], [])
  }

  /** Tasks that have ended give their own result, the others the deadline result. */
  function Gather(run: Run, order: seq<string>): seq<ProviderResult> {
    seq(|order|, i requires 0 <= i < |order| => ResultOf(run, order[i]))
  }

  function ResultOf(run: Run, p: string): ProviderResult {
    if p in run.tasks && run.tasks[p].Done? then TaskResult(run.req, p, run.tasks[p].end)
    else LocalError(run.req, p, StatusError, DeadlineExceeded)
  }

  /** The breaker's answer when a plugin is considered that is not rejected statically. */
  function Asked(c: Config, w: World, run: Run): Option<Ticket> {
    if !Facing(run) then None
    else Permission(c, TrackedOf(w, ScopeOf(run, NextId(run))), w.now)
  }

  function Permission(c: Config, t: Tracked, now: int): Option<Ticket> {
    if Admit(c.circuit, t.gate, now).1 then Some(Ticket(t.period, t.gate.openUntil.Some?)) else None
  }

  function Considered(run: Run, answer: Option<Ticket>): Run
    requires run.phase.Admitting? && Facing(run)
  {
    var i := run.phase.next;
    var id := NextId(run);
    var reason := StaticRejection(run.plugins[i], run.req);
    if reason.Some? || answer.None? then
      run.(immediate := run.immediate + [StaticResult(run.req, id, reason.GetOr(CircuitOpen))],
           phase := Admitting(i + 1))
    else
      run.(tickets := run.tickets[id := answer.value], permits := run.permits + [id], phase := AwaitProvider(i))
  }

  /** The run after its step. */
  function RunStep(run: Run, a: Act, answer: Option<Ticket>): Run
    requires Ready(run, a)
  {
    match a
    case Consider => Considered(run, answer)
    case TakeProvider =>
      run.(held := run.held + {NextId(run)}, runnable := run.runnable + [NextId(run)],
           phase := Admitting(run.phase.next + 1))
    case MissProvider =>
      run.(immediate := run.immediate + [StaticResult(run.req, NextId(run), NoCapacity)],
           phase := Admitting(run.phase.next + 1))
    case CloseAdmission => run.(phase := if run.runnable == [] then Recording([]) else AwaitGlobal)
    case TakeGlobal =>
      run.(holdsGlobal := true, phase := Running, tasks := map p | p in run.runnable :: Queued)
    case RejectGlobal => run.(phase := Unwinding(Rejected))
    case BeginCall(p) => run.(tasks := run.tasks[p := InCall])
    case EndTask(p, end) => run.(tasks := run.tasks[p := Done(end)])
    case Collect(order) => run.(phase := Recording(Gather(run, order)))
    case Deadline(order) => run.(phase := Draining(Gather(run, order)))
    case Drained => run.(phase := Recording(run.phase.todo))
    case RecordOne =>
      var x := run.phase.todo[0];
      run.(tickets := run.tickets - {x.provider}, settled := run.settled + [x.provider],
           results := run.results + [x], phase := Recording(run.phase.todo[1..]))
    case FinishRecording => run.(phase := Settling(Returned(run.results + run.immediate)))
    case Cancel => run.(phase := Unwinding(Cancelled))
    case Unwound => run.(phase := Settling(run.phase.ending))
    case SettleOne(p) => run.(tickets := run.tickets - {p}, settled := run.settled + [p])
    case BeginRelease => run.(phase := Releasing(run.phase.ending))
    case ReleaseProvider(p) => run.(held := run.held - {p})
    case ReleaseGlobal => run.(holdsGlobal := false)
    case Strand => run.(phase := Ended(Stranded))
    case Finish => run.(phase := Ended(run.phase.ending))
  }

  function ProviderUsedAfter(w: World, run: Run, a: Act): map<string, int>
    requires Ready(run, a)
  {
    match a
    case TakeProvider =>
      var key := Limits.LimiterKey(NextId(run));
      w.providerUsed[key := UsedBy(w, key) + 1]
    case ReleaseProvider(p) =>
      var key := Limits.LimiterKey(p);
      w.providerUsed[key := Max(0, UsedBy(w, key) - 1)]
    case _ => w.providerUsed
  }

  function GlobalUsedAfter(w: World, run: Run, a: Act): int {
    match a
    case TakeGlobal => w.globalUsed + |run.runnable|
    case ReleaseGlobal => Max(0, w.globalUsed - |run.runnable|)
    case _ => w.globalUsed
  }

  /** Which scope a step calls the breaker for, if any, and what that does. */
  function GatesAfter(c: Config, w: World, run: Run, a: Act): map<Scope, Tracked>
    requires Ready(run, a)
  {
    match a
    case Consider =>
      if StaticRejection(run.plugins[run.phase.next], run.req).Some? then w.gates
      else
        var scope := ScopeOf(run, NextId(run));
        var t := TrackedOf(w, scope);
        w.gates[scope := t.(gate := Admit(c.circuit, t.gate, w.now).0)]
    case RecordOne =>
      var x := run.phase.todo[0];
      var scope := ScopeOf(run, x.provider);
      w.gates[scope := Recorded(c, TrackedOf(w, scope), w.now, x)]
    case SettleOne(p) =>
      var scope := ScopeOf(run, p);
      var t := TrackedOf(w, scope);
      w.gates[scope := t.(gate := FreeProbe(t.gate))]
    case _ => w.gates
  }

  function Recorded(c: Config, t: Tracked, now: int, x: ProviderResult): Tracked {
    Tracked(Record(c.circuit, t.gate, now, x.status, x.error),
            if StartsPeriod(c.circuit, t.gate, now, x.status, x.error) then t.period + 1 else t.period)
  }

  function Apply(c: Config, w: World, s: Step): World
    requires Enabled(c, w, s)
  {
    match s
    case Tick(to) => w.(now := to)
    case Start(r, req, plugins) => w.(runs := w.runs[r := NewRun(req, plugins)])
    case Do(r, a) =>
      var run := w.runs[r];
      World(w.now, ProviderUsedAfter(w, run, a), GlobalUsedAfter(w, run, a), GatesAfter(c, w, run, a),
            w.runs[r := RunStep(run, a, Asked(c, w, run))])
  }

  /** Whether every step of a schedule is enabled when it comes, and where the schedule leads. */
  predicate Feasible(c: Config, steps: seq<Step>)
    decreases |steps|, 0
  {
    steps == [] || (
      var n := |steps| - 1;
      Feasible(c, steps[..n]) && Enabled(c, Exec(c, steps[..n]), steps[n]))
  }

  function Exec(c: Config, steps: seq<Step>): World
    requires Feasible(c, steps)
    decreases |steps|, 1
  {
    if steps == [] then START
    else
      var n := |steps| - 1;
      Apply(c, Exec(c, steps[..n]), steps[n])
  }
}
