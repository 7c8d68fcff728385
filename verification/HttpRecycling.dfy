/** Runs of price_api/providers/clients/http.py: requests, pool timeouts, recycling, grace periods and
    the closing of the transport, in any order. */
module HttpRecycling {
  import opened Options
  import opened SlidingWindow
  import opened HttpClients
  import Arithmetic

  /** What a run keeps beside the pool: the requests each client took and the attempts they made, the
      clients closed after their grace and by close(), whom each running close() waits for, and every
      pool timeout since the last recycle that pool timeouts caused. */
  datatype World = World(
    pool: Pool, clock: int, served: seq<nat>, attempted: seq<nat>,
    retired: multiset<nat>, shut: multiset<nat>, closing: multiset<set<nat>>, timeouts: seq<int>)

  datatype Step =
    | Request(now: int, attempts: nat)
    | PoolTimeout(now: int)
    | Recycle(reason: string, now: int)
    | GraceOver(client: nat)
    | CloseBegins
    | CloseEnds(awaited: set<nat>)

  predicate Enabled(c: Transport, w: World, s: Step) {
    match s
    case Request(now, attempts) => w.clock <= now && 1 <= attempts <= c.attempts
    case PoolTimeout(now) => w.clock <= now
    case Recycle(_, now) => w.clock <= now
    case GraceOver(client) => client in w.pool.waiting
    case CloseBegins => true
    case CloseEnds(awaited) => awaited in w.closing && awaited !! w.pool.waiting
  }

  function Started(now: int): World {
    World(Pool(0, 1, now, 0, [], {}, None), now, [0], [0], multiset{}, multiset{}, multiset{}, [])
  }

  /** A counter for every client there is. */
  function Padded(counts: seq<nat>, created: nat): seq<nat> {
    if |counts| < created then counts + [0] else counts
  }

  function Moved(w: World, pool: Pool, now: int): World {
    w.(pool := pool, clock := now, served := Padded(w.served, pool.created),
       attempted := Padded(w.attempted, pool.created))
  }

  function Counted(counts: seq<nat>, client: nat, n: nat): seq<nat> {
    if client < |counts| then counts[client := counts[client] + n] else counts
  }

  predicate Fires(c: Transport, w: World, now: int) {
    |DropBefore(w.pool.events + [now], now - c.windowMs)| >= c.threshold
  }

  function Apply(c: Transport, w: World, s: Step): World {
    match s
    case Request(now, attempts) =>
      var moved := Moved(w, Requested(c, w.pool, now), now);
      moved.(served := Counted(moved.served, moved.pool.client, 1),
             attempted := Counted(moved.attempted, moved.pool.client, attempts))
    case PoolTimeout(now) =>
      Moved(w, TimedOut(c, w.pool, now), now).(timeouts := if Fires(c, w, now) then [] else w.timeouts + [now])
    case Recycle(reason, now) => Moved(w, Replaced(w.pool, Asked(reason), now), now)
    case GraceOver(client) =>
      w.(pool := w.pool.(waiting := w.pool.waiting - {client}), retired := w.retired + multiset{client})
    case CloseBegins => w.(closing := w.closing + multiset{w.pool.waiting})
    case CloseEnds(awaited) =>
      w.(closing := w.closing - multiset{awaited}, shut := w.shut + multiset{w.pool.client})
  }

  function Run(c: Transport, w: World, steps: seq<Step>): World
    decreases |steps|
  {
    if steps == [] then w else Run(c, Apply(c, w, steps[0]), steps[1..])
  }

  ghost predicate Feasible(c: Transport, w: World, steps: seq<Step>)
    decreases |steps|
  {
    steps == [] || (Enabled(c, w, steps[0]) && Feasible(c, Apply(c, w, steps[0]), steps[1..]))
  }

  // ---- the books

  /** Every client is exactly one of current, waiting out its grace, or closed once after it. */
  ghost predicate OnePlaceEach(w: World) {
    && w.pool.created == w.pool.client + 1
    && (forall i <- w.pool.waiting :: i < w.pool.client)
    && (forall i: nat :: w.retired[i] == if i < w.pool.client && i !in w.pool.waiting then 1 else 0)
    && (forall i: nat :: i > w.pool.client ==> w.shut[i] == 0)
  }

  ghost predicate WithinLimits(c: Transport, w: World) {
    && |w.served| == |w.attempted| == w.pool.created == w.pool.client + 1
    && w.pool.requestCount == w.served[w.pool.client]
    && (forall i | 0 <= i < |w.served| :: w.served[i] <= c.maxRequests)
    && (forall i | 0 <= i < |w.served| :: w.served[i] <= w.attempted[i] <= w.served[i] * c.attempts)
  }

  function Since(c: Transport, timeouts: seq<int>): seq<int> {
    if timeouts == [] then [] else Recent(timeouts, timeouts[|timeouts| - 1] - c.windowMs)
  }

  ghost predicate RemembersTimeouts(c: Transport, w: World) {
    && Ascending(w.timeouts)
    && (w.timeouts != [] ==> w.timeouts[|w.timeouts| - 1] <= w.clock)
    && w.pool.events == Since(c, w.timeouts)
    && |w.pool.events| < c.threshold
  }

  ghost predicate Inv(c: Transport, w: World) {
    OnePlaceEach(w) && WithinLimits(c, w) && RemembersTimeouts(c, w)
  }

  lemma PlacesKept(c: Transport, w: World, s: Step)
    requires OnePlaceEach(w) && Enabled(c, w, s)
    ensures OnePlaceEach(Apply(c, w, s))
  {
  }

  lemma LimitsKept(c: Transport, w: World, s: Step)
    requires c.Valid() && WithinLimits(c, w) && Enabled(c, w, s)
    ensures WithinLimits(c, Apply(c, w, s))
  {
    if s.Request? {
      var pool := RecycledIfNeeded(c, w.pool, s.now);
      var served, attempted := Padded(w.served, pool.created), Padded(w.attempted, pool.created);
      assert (served[pool.client] + 1) * c.attempts == served[pool.client] * c.attempts + c.attempts;
    }
  }

  /** One more timeout leaves the deque equal to the whole log filtered by age. */
  lemma TimeoutCounts(c: Transport, w: World, now: int)
    requires c.Valid() && RemembersTimeouts(c, w) && w.clock <= now
    ensures DropBefore(w.pool.events + [now], now - c.windowMs) == Recent(w.timeouts + [now], now - c.windowMs)
    ensures Ascending(w.timeouts + [now])
    ensures Recent(w.timeouts + [now], now - c.windowMs) != []
  {
    AscendingAppend(w.timeouts, now);
    var older := (if w.timeouts == [] then now else w.timeouts[|w.timeouts| - 1]) - c.windowMs;
    PruneRefinesLog(w.timeouts, w.pool.events, older, now, now - c.windowMs);
    LastIsKept(w.timeouts, now, now - c.windowMs);
  }

  lemma TimeoutsKept(c: Transport, w: World, s: Step)
    requires c.Valid() && RemembersTimeouts(c, w) && Enabled(c, w, s)
    ensures RemembersTimeouts(c, Apply(c, w, s))
  {
    if s.PoolTimeout? {
      TimeoutKept(c, w, s.now);
    }
  }

  lemma TimeoutKept(c: Transport, w: World, now: int)
    requires c.Valid() && RemembersTimeouts(c, w) && w.clock <= now
    ensures RemembersTimeouts(c, Apply(c, w, PoolTimeout(now)))
  {
    TimeoutCounts(c, w, now);
    var kept := DropBefore(w.pool.events + [now], now - c.windowMs);
    var after := Apply(c, w, PoolTimeout(now));
    if |kept| >= c.threshold {
      assert after.pool.events == [] && after.timeouts == [];
    } else {
      assert after.pool.events == kept && after.timeouts == w.timeouts + [now];
    }
  }

  lemma {:induction false} InvHolds(c: Transport, w: World, steps: seq<Step>)
    requires c.Valid() && Inv(c, w) && Feasible(c, w, steps)
    ensures Inv(c, Run(c, w, steps))
    decreases |steps|
  {
    if steps != [] {
      PlacesKept(c, w, steps[0]);
      LimitsKept(c, w, steps[0]);
      TimeoutsKept(c, w, steps[0]);
      InvHolds(c, Apply(c, w, steps[0]), steps[1..]);
    }
  }

  ghost predicate Reachable(c: Transport, w: World) {
    exists start, steps :: Feasible(c, Started(start), steps) && Run(c, Started(start), steps) == w
  }

  lemma ReachableInv(c: Transport, w: World)
    requires c.Valid() && Reachable(c, w)
    ensures Inv(c, w)
  {
    var start, steps :| Feasible(c, Started(start), steps) && Run(c, Started(start), steps) == w;
    InvHolds(c, Started(start), steps);
  }

  // ---- theorems

  /** No client ever takes more than its share of requests, nor attempts beyond that share's retries. */
  lemma NoClientServesTooMuch(c: Transport, w: World, client: nat)
    requires c.Valid() && Reachable(c, w) && client < w.pool.created
    ensures client < |w.served| && w.served[client] <= c.maxRequests
    ensures client < |w.attempted| && w.attempted[client] <= c.maxRequests * c.attempts
  {
    ReachableInv(c, w);
    Arithmetic.MulMonotone(w.served[client], c.maxRequests, c.attempts);
  }

  /** A request goes out on the same client unless that client's time is over or its requests are spent;
      then, and only then, a new one takes its place, for that reason. */
  lemma RequestReplacesExactlyWhenDue(c: Transport, w: World, now: int, attempts: nat)
    requires c.Valid() && Reachable(c, w) && Enabled(c, w, Request(now, attempts))
    requires w.pool.client < |w.served|
    ensures var p, q := w.pool, Apply(c, w, Request(now, attempts)).pool;
            var aged, spent := now - p.createdAt >= c.ttlMs, w.served[p.client] == c.maxRequests;
            && (q.client != p.client <==> aged || spent)
            && q.events == p.events
            && (if aged || spent then
                  && q.client == p.created && q.createdAt == now && q.requestCount == 1
                  && q.waiting == p.waiting + {p.client}
                  && q.lastRecycle == Some((if aged then TtlExpired else RequestsSpent, now))
                else
                  && q.createdAt == p.createdAt && q.requestCount == p.requestCount + 1
                  && q.waiting == p.waiting && q.lastRecycle == p.lastRecycle)
  {
    ReachableInv(c, w);
  }

  /** A recycle that pool timeouts or a caller cause replaces the client at once and says why. */
  lemma OtherRecyclesReplace(c: Transport, w: World, now: int, reason: string)
    requires c.Valid() && Reachable(c, w) && w.clock <= now
    ensures var p, q := w.pool, Apply(c, w, Recycle(reason, now)).pool;
            && q == Pool(p.created, p.created + 1, now, 0, p.events, p.waiting + {p.client}, Some((Asked(reason), now)))
    ensures var p, q := w.pool, Apply(c, w, PoolTimeout(now)).pool;
            var inWindow := Recent(w.timeouts + [now], now - c.windowMs);
            q == if |inWindow| >= c.threshold then
                   Pool(p.created, p.created + 1, now, 0, [], p.waiting + {p.client}, Some((PoolTimeouts, now)))
                 else p.(events := inWindow)
  {
    ReachableInv(c, w);
    TimeoutCounts(c, w, now);
  }

  /** No client is lost and none is closed twice by its grace period. */
  lemma EveryClientHasOnePlace(c: Transport, w: World, client: nat)
    requires c.Valid() && Reachable(c, w) && client < w.pool.created
    ensures (if client == w.pool.client then 1 else 0)
            + (if client in w.pool.waiting then 1 else 0) + w.retired[client] == 1
  {
    ReachableInv(c, w);
  }

  /** Pool timeouts recycle exactly when, counted in the whole log, they reach the threshold. */
  lemma RecyclesExactlyAtThreshold(c: Transport, w: World, now: int)
    requires c.Valid() && Reachable(c, w) && w.clock <= now
    ensures (TimedOut(c, w.pool, now).client != w.pool.client)
            <==> |Recent(w.timeouts + [now], now - c.windowMs)| >= c.threshold
    ensures TimedOut(c, w.pool, now).client != w.pool.client <==> Apply(c, w, PoolTimeout(now)).timeouts == []
  {
    ReachableInv(c, w);
    TimeoutCounts(c, w, now);
  }

  /** The health check counts what the whole log would. */
  lemma HealthCountIsLogCount(c: Transport, w: World, now: int)
    requires c.Valid() && Reachable(c, w) && w.clock <= now
    ensures Recent(w.pool.events, now - c.windowMs) == Recent(w.timeouts, now - c.windowMs)
  {
    ReachableInv(c, w);
    if w.timeouts != [] {
      RecentTwice(w.timeouts, w.timeouts[|w.timeouts| - 1] - c.windowMs, now - c.windowMs);
    }
  }

  lemma {:induction false} RecentTwice(log: seq<int>, older: int, newer: int)
    requires older <= newer
    ensures Recent(Recent(log, older), newer) == Recent(log, newer)
  {
    if log != [] {
      RecentTwice(log[1..], older, newer);
      if log[0] >= older {
        assert Recent(log, older)[1..] == Recent(log[1..], older);
      }
    }
  }

  // ---- closing the transport

  predicate ClosedOnce(w: World) {
    forall i: nat :: i < w.pool.created ==> w.retired[i] + w.shut[i] == 1
  }

  /** When no grace period is running, every client has been closed exactly once if and only if close()
      has closed exactly the current one. */
  lemma ClosedOnceIff(c: Transport, w: World)
    requires c.Valid() && Reachable(c, w) && w.pool.waiting == {}
    ensures ClosedOnce(w) <==> w.shut == multiset{w.pool.client}
  {
    ReachableInv(c, w);
    if ClosedOnce(w) {
      forall i: nat ensures w.shut[i] == multiset{w.pool.client}[i] {
      }
    } else {
      var i: nat :| i < w.pool.created && w.retired[i] + w.shut[i] != 1;
    }
  }

  /** No second close ends, and no request, timeout or recycle replaces the client. */
  ghost predicate LeavesClient(c: Transport, w: World, steps: seq<Step>)
    decreases |steps|
  {
    steps == [] || (
      && !steps[0].CloseEnds?
      && Apply(c, w, steps[0]).pool.client == w.pool.client
      && LeavesClient(c, Apply(c, w, steps[0]), steps[1..]))
  }

  lemma {:induction false} ShutSince(c: Transport, w: World, steps: seq<Step>)
    requires OnePlaceEach(w) && Feasible(c, w, steps)
    ensures var end := Run(c, w, steps);
            && w.shut <= end.shut && w.pool.client <= end.pool.client
            && (LeavesClient(c, w, steps) <==> end.shut == w.shut && end.pool.client == w.pool.client)
    decreases |steps|
  {
    if steps != [] {
      var next := Apply(c, w, steps[0]);
      PlacesKept(c, w, steps[0]);
      ShutSince(c, next, steps[1..]);
      assert steps[0].CloseEnds? ==> next.shut[w.pool.client] > w.shut[w.pool.client];
    }
  }

  /** After a first close(), with others running or not, and once no grace period is running, every client
      has been closed exactly once if and only if close() was the last thing that touched the current
      client. */
  lemma ClosedOnceEach(c: Transport, w: World, awaited: set<nat>, steps: seq<Step>)
    requires c.Valid() && Reachable(c, w) && w.shut == multiset{} && Enabled(c, w, CloseEnds(awaited))
    requires Feasible(c, Apply(c, w, CloseEnds(awaited)), steps)
    requires Run(c, Apply(c, w, CloseEnds(awaited)), steps).pool.waiting == {}
    ensures ClosedOnce(Run(c, Apply(c, w, CloseEnds(awaited)), steps))
            <==> LeavesClient(c, Apply(c, w, CloseEnds(awaited)), steps)
  {
    var closed := Apply(c, w, CloseEnds(awaited));
    var end := Run(c, closed, steps);
    ReachableInv(c, w);
    PlacesKept(c, w, CloseEnds(awaited));
    ShutSince(c, closed, steps);
    ReachableThen(c, w, CloseEnds(awaited));
    ReachableRun(c, closed, steps);
    ClosedOnceIff(c, end);
    assert closed.shut == multiset{w.pool.client};
    if end.shut == multiset{end.pool.client} {
      assert end.shut[w.pool.client] > 0;
    }
  }

  lemma ReachableThen(c: Transport, w: World, s: Step)
    requires Reachable(c, w) && Enabled(c, w, s)
    ensures Reachable(c, Apply(c, w, s))
  {
    var start, steps :| Feasible(c, Started(start), steps) && Run(c, Started(start), steps) == w;
    RunAppend(c, Started(start), steps, s);
  }

  lemma {:induction false} RunAppend(c: Transport, w: World, steps: seq<Step>, s: Step)
    requires Feasible(c, w, steps) && Enabled(c, Run(c, w, steps), s)
    ensures Feasible(c, w, steps + [s]) && Run(c, w, steps + [s]) == Apply(c, Run(c, w, steps), s)
    decreases |steps|
  {
    var all := steps + [s];
    if steps == [] {
      assert all[1..] == [] && Run(c, Apply(c, w, s), []) == Apply(c, w, s);
    } else {
      assert all[1..] == steps[1..] + [s];
      RunAppend(c, Apply(c, w, steps[0]), steps[1..], s);
    }
  }

  lemma {:induction false} ReachableRun(c: Transport, w: World, steps: seq<Step>)
    requires Reachable(c, w) && Feasible(c, w, steps)
    ensures Reachable(c, Run(c, w, steps))
    decreases |steps|
  {
    if steps != [] {
      ReachableThen(c, w, steps[0]);
      ReachableRun(c, Apply(c, w, steps[0]), steps[1..]);
    }
  }

  /** A request after close() on a client that is due for replacement gets that client closed again. */
  lemma UseAfterCloseClosesTwice(c: Transport)
    requires c.Valid()
    ensures var steps := [CloseBegins, CloseEnds({}), Request(c.ttlMs, 1), GraceOver(0)];
            Feasible(c, Started(0), steps)
            && var end := Run(c, Started(0), steps); end.retired[0] + end.shut[0] == 2
  {
    var steps := [CloseBegins, CloseEnds({}), Request(c.ttlMs, 1), GraceOver(0)];
    var w1 := Apply(c, Started(0), CloseBegins);
    var w2 := Apply(c, w1, CloseEnds({}));
    var w3 := Apply(c, w2, Request(c.ttlMs, 1));
    var w4 := Apply(c, w3, GraceOver(0));
    assert w3.pool.waiting == {0};
    assert steps[1..][1..][1..][1..] == [];
    assert steps[1..][0] == CloseEnds({}) && steps[1..][1..][0] == Request(c.ttlMs, 1);
    assert steps[1..][1..][1..][0] == GraceOver(0);
    assert Feasible(c, w4, []) && Run(c, w4, []) == w4;
    assert Feasible(c, w3, steps[1..][1..][1..]) && Run(c, w3, steps[1..][1..][1..]) == w4;
    assert Feasible(c, w2, steps[1..][1..]) && Run(c, w2, steps[1..][1..]) == w4;
    assert Feasible(c, w1, steps[1..]) && Run(c, w1, steps[1..]) == w4;
  }
}
