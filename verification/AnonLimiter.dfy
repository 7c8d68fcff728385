/** price_api/security/anon_limiter.py: one request per client and interval, kept in a table of at
    most one window per client that is swept now and then, against a log that never forgets. */
module AnonLimiter {
  import opened Options

  const RETENTION_S := 3
  const CLEANUP_INTERVAL_S := 10

  datatype Answer = Answer(
    allowed: bool, limit: int, remaining: int, resetEpoch: int, retryAfter: int, requestCount: int)

  datatype Entry = Entry(windowStart: int, count: int)

  datatype Table = Table(windows: map<string, Entry>, nextCleanup: int)

  datatype Request = Request(clientId: string, now: int)

  function WindowOf(now: int, interval: int): int
    requires interval > 0
  {
    now / interval * interval
  }

  /** Requests without a client address share one bucket. */
  function Bucket(clientId: string): string {
    if clientId == "" then "unknown" else clientId
  }

  predicate Stale(e: Entry, now: int, interval: int) {
    e.windowStart < now - Max(RETENTION_S, interval * 3)
  }

  function CountIn(t: Table, bucket: string, windowStart: int): int {
    if bucket in t.windows && t.windows[bucket].windowStart == windowStart then t.windows[bucket].count else 0
  }

  function Consumed(t: Table, r: Request, interval: int): Table
    requires interval > 0
  {
    var bucket, start := Bucket(r.clientId), WindowOf(r.now, interval);
    var windows := t.windows[bucket := Entry(start, CountIn(t, bucket, start) + 1)];
    if r.now < t.nextCleanup then Table(windows, t.nextCleanup)
    else Table(map b | b in windows && !Stale(windows[b], r.now, interval) :: windows[b], r.now + CLEANUP_INTERVAL_S)
  }

  class AnonymousRateLimiter {
    var windows: map<string, Entry>
    var nextCleanup: int

    function State(): Table
      reads this
    {
      Table(windows, nextCleanup)
    }

    constructor ()
      ensures State() == Table(map[], 0)
    {
      windows, nextCleanup := map[], 0;
    }

    /** None stands for the ValueError on an interval that is not positive. */
    method Consume(clientId: string, interval: int, now: int) returns (r: Option<Answer>)
      modifies this
      ensures r.None? <==> interval <= 0
      ensures r.None? ==> State() == old(State())
      ensures r.Some? ==> State() == Consumed(old(State()), Request(clientId, now), interval)
      ensures r.Some? ==>
                var count := CountIn(old(State()), Bucket(clientId), WindowOf(now, interval)) + 1;
                && r.value.requestCount == count && r.value.limit == 1
                && r.value.allowed == (count <= 1) && r.value.remaining == Max(1 - count, 0)
                && r.value.resetEpoch == now + r.value.retryAfter
                && 1 <= r.value.retryAfter <= interval
                && WindowOf(r.value.resetEpoch, interval) == r.value.resetEpoch == WindowOf(now, interval) + interval
      ensures r.Some? && now < old(nextCleanup) ==> nextCleanup == old(nextCleanup)
      ensures r.Some? && now >= old(nextCleanup) ==>
                && nextCleanup == now + 10
                && forall b <- windows :: windows[b].windowStart >= now - (if interval > 1 then 3 * interval else 3)
    {
      if interval <= 0 {
        return None;
      }
      var windowStart := now / interval * interval;
      var bucket := if clientId == "" then "unknown" else clientId;
      var count := 1;
      if bucket in windows && windows[bucket].windowStart == windowStart {
        count := windows[bucket].count + 1;
      }
      windows := windows[bucket := Entry(windowStart, count)];
      if now >= nextCleanup {
        Cleanup(now, interval);
        nextCleanup := now + CLEANUP_INTERVAL_S;
      }
      var resetEpoch := windowStart + interval;
      var retryAfter := Max(resetEpoch - now, 0);
      WindowBounds(now, interval);
      NextWindow(now, interval);
      return Some(Answer(count <= 1, 1, Max(1 - count, 0), resetEpoch, retryAfter, count));
    }

    method Cleanup(now: int, interval: int)
      requires interval > 0
      modifies this`windows
      ensures windows == map b | b in old(windows) && !Stale(old(windows)[b], now, interval) :: old(windows)[b]
      ensures forall b :: b in windows <==>
                b in old(windows)
                && old(windows)[b].windowStart >= now - (if interval > 1 then 3 * interval else 3)
      ensures forall b <- windows :: windows[b] == old(windows)[b]
    {
      var staleKeys := set b | b in windows && Stale(windows[b], now, interval);
      ghost var popped := {};
      while staleKeys != {}
        invariant windows == old(windows) - popped
        invariant popped + staleKeys == set b | b in old(windows) && Stale(old(windows)[b], now, interval)
        decreases staleKeys
      {
        var key :| key in staleKeys;
        windows := windows - {key};
        popped := popped + {key};
        staleKeys := staleKeys - {key};
      }
    }
  }

  // ---- windows

  lemma WindowBounds(now: int, interval: int)
    requires interval > 0
    ensures WindowOf(now, interval) <= now < WindowOf(now, interval) + interval
  {
    assert now == now / interval * interval + now % interval;
  }

  lemma MultiplesApart(a: int, b: int, interval: int)
    requires interval > 0
    ensures a < b ==> a * interval + interval <= b * interval
  {
    if a < b {
      var gap := b - a - 1;
      assert gap * interval >= 0;
      assert b == a + 1 + gap;
    }
  }

  lemma MultipleDivides(k: int, interval: int)
    requires interval > 0
    ensures k * interval / interval == k
  {
    var q := k * interval / interval;
    assert k * interval == q * interval + k * interval % interval;
    MultiplesApart(q, k, interval);
    MultiplesApart(k, q, interval);
  }

  lemma NextWindow(now: int, interval: int)
    requires interval > 0
    ensures WindowOf(WindowOf(now, interval) + interval, interval) == WindowOf(now, interval) + interval
  {
    var k := now / interval + 1;
    assert WindowOf(now, interval) + interval == k * interval;
    MultipleDivides(k, interval);
  }

  lemma WindowMonotone(a: int, b: int, interval: int)
    requires interval > 0 && a <= b
    ensures WindowOf(a, interval) <= WindowOf(b, interval)
  {
    WindowBounds(a, interval);
    WindowBounds(b, interval);
    MultiplesApart(b / interval, a / interval, interval);
  }

  // ---- the log

  function Run(log: seq<Request>, interval: int): Table
    requires interval > 0
  {
    if log == [] then Table(map[], 0) else Consumed(Run(log[..|log| - 1], interval), log[|log| - 1], interval)
  }

  predicate InSlot(r: Request, bucket: string, windowStart: int, interval: int)
    requires interval > 0
  {
    Bucket(r.clientId) == bucket && WindowOf(r.now, interval) == windowStart
  }

  function LogCount(log: seq<Request>, bucket: string, windowStart: int, interval: int): nat
    requires interval > 0
  {
    if log == [] then 0
    else LogCount(log[..|log| - 1], bucket, windowStart, interval)
         + if InSlot(log[|log| - 1], bucket, windowStart, interval) then 1 else 0
  }

  /** A request makes the table lose a window of a bucket when it opens another window of the same
      bucket, or sweeps windows that old. */
  predicate Loses(t: Table, r: Request, bucket: string, windowStart: int, interval: int)
    requires interval > 0
  {
    || (Bucket(r.clientId) == bucket && WindowOf(r.now, interval) != windowStart)
    || (r.now >= t.nextCleanup && windowStart < r.now - Max(RETENTION_S, interval * 3))
  }

  function Forgotten(log: seq<Request>, bucket: string, windowStart: int, interval: int): nat
    requires interval > 0
  {
    if log == [] then 0
    else
      var init, last := log[..|log| - 1], log[|log| - 1];
      if Loses(Run(init, interval), last, bucket, windowStart, interval)
      then LogCount(log, bucket, windowStart, interval)
      else Forgotten(init, bucket, windowStart, interval)
  }

  lemma {:induction false} TableIsLogMinusForgotten(log: seq<Request>, bucket: string, windowStart: int, interval: int)
    requires interval > 0
    ensures CountIn(Run(log, interval), bucket, windowStart)
            == LogCount(log, bucket, windowStart, interval) - Forgotten(log, bucket, windowStart, interval)
  {
    if log != [] {
      TableIsLogMinusForgotten(log[..|log| - 1], bucket, windowStart, interval);
    }
  }

  /** The count a request is answered with. */
  function CountGiven(log: seq<Request>, r: Request, interval: int): int
    requires interval > 0
  {
    CountIn(Run(log, interval), Bucket(r.clientId), WindowOf(r.now, interval)) + 1
  }

  /** For any clock: the answer is the log's count exactly when no request of the window was lost. */
  lemma AnswerIsLogCount(log: seq<Request>, r: Request, interval: int)
    requires interval > 0
    ensures var bucket, start := Bucket(r.clientId), WindowOf(r.now, interval);
            CountGiven(log, r, interval) == LogCount(log + [r], bucket, start, interval)
            <==> Forgotten(log, bucket, start, interval) == 0
  {
    TableIsLogMinusForgotten(log, Bucket(r.clientId), WindowOf(r.now, interval), interval);
    assert (log + [r])[..|log|] == log;
  }

  ghost predicate Nondecreasing(log: seq<Request>) {
    forall i, j :: 0 <= i < j < |log| ==> log[i].now <= log[j].now
  }

  lemma {:induction false} CountsOnlyInSlot(log: seq<Request>, bucket: string, windowStart: int, interval: int)
    requires interval > 0
    ensures LogCount(log, bucket, windowStart, interval) == 0
            <==> forall r <- log :: !InSlot(r, bucket, windowStart, interval)
  {
    if log != [] {
      var init, last := log[..|log| - 1], log[|log| - 1];
      CountsOnlyInSlot(init, bucket, windowStart, interval);
      assert log == init + [last];
    }
  }

  /** While time does not run backwards, nothing is lost of a window that can still be asked for. */
  lemma {:induction false} LatestWindowIsKept(log: seq<Request>, bucket: string, windowStart: int, interval: int)
    requires interval > 0 && Nondecreasing(log)
    requires forall r <- log :: WindowOf(r.now, interval) <= windowStart
    ensures Forgotten(log, bucket, windowStart, interval) == 0
  {
    if log != [] {
      var init, last := log[..|log| - 1], log[|log| - 1];
      LatestWindowIsKept(init, bucket, windowStart, interval);
      assert last in log;
      WindowBounds(last.now, interval);
      if Loses(Run(init, interval), last, bucket, windowStart, interval) {
        forall r <- log ensures !InSlot(r, bucket, windowStart, interval) {
          var i :| 0 <= i < |log| && log[i] == r;
          WindowMonotone(r.now, last.now, interval);
        }
        CountsOnlyInSlot(log, bucket, windowStart, interval);
      }
    }
  }

  /** Exactly the first request of a client in an aligned window is allowed, whatever was swept. */
  lemma OnlyFirstIsAllowed(log: seq<Request>, r: Request, interval: int)
    requires interval > 0 && Nondecreasing(log + [r])
    ensures CountGiven(log, r, interval) == LogCount(log + [r], Bucket(r.clientId), WindowOf(r.now, interval), interval)
    ensures CountGiven(log, r, interval) <= 1
            <==> forall q <- log :: !InSlot(q, Bucket(r.clientId), WindowOf(r.now, interval), interval)
  {
    var all, bucket, start := log + [r], Bucket(r.clientId), WindowOf(r.now, interval);
    assert forall i :: 0 <= i < |log| ==> all[i] == log[i];
    forall q <- log ensures WindowOf(q.now, interval) <= start {
      var i :| 0 <= i < |log| && log[i] == q;
      assert all[i] == q && all[|log|] == r;
      WindowMonotone(q.now, r.now, interval);
    }
    LatestWindowIsKept(log, bucket, start, interval);
    AnswerIsLogCount(log, r, interval);
    CountsOnlyInSlot(log, bucket, start, interval);
    assert all[..|log|] == log;
  }

  /** A refused client that comes back `retry_after` seconds later, and was not there in between, is let
      in, whoever else came. */
  lemma RetryAfterIsHonest(log: seq<Request>, refused: Request, others: seq<Request>, retry: Request, interval: int)
    requires interval > 0 && Nondecreasing(log + [refused] + others + [retry])
    requires forall q <- others :: Bucket(q.clientId) != Bucket(retry.clientId)
    requires retry.now >= WindowOf(refused.now, interval) + interval
    ensures CountGiven(log + [refused] + others, retry, interval) == 1
  {
    var early := log + [refused];
    var asked := early + others;
    var all, bucket, start := asked + [retry], Bucket(retry.clientId), WindowOf(retry.now, interval);
    forall q <- asked ensures !InSlot(q, bucket, start, interval) {
      if q !in others {
        var i :| 0 <= i < |early| && early[i] == q;
        assert all[i] == q && all[|log|] == refused;
        WindowMonotone(q.now, refused.now, interval);
        NextWindow(refused.now, interval);
        WindowMonotone(WindowOf(refused.now, interval) + interval, retry.now, interval);
      }
    }
    OnlyFirstIsAllowed(asked, retry, interval);
    CountsOnlyInSlot(asked, bucket, start, interval);
    assert all[..|asked|] == asked;
  }

  /** Clients without an address are counted together, under one name. */
  lemma NamelessClientsShare(log: seq<Request>, now: int, interval: int)
    requires interval > 0
    ensures CountGiven(log, Request("", now), interval) == CountGiven(log, Request("unknown", now), interval)
    ensures Consumed(Run(log, interval), Request("", now), interval)
            == Consumed(Run(log, interval), Request("unknown", now), interval)
    ensures forall c, d :: c != "" && d != "" && Bucket(c) == Bucket(d) ==> c == d
  {
  }

  /** A clock that steps back lets a client in twice: the table keeps one window per client. */
  lemma ClockStepForgets()
    ensures var log := [Request("a", 0), Request("a", 5)];
            CountGiven(log, Request("a", 0), 1) == 1 < LogCount(log + [Request("a", 0)], "a", 0, 1)
  {
    var r, s := Request("a", 0), Request("a", 5);
    assert [r][..0] == [] && [r, s][..1] == [r] && [r, s, r][..2] == [r, s] && [r, s] + [r] == [r, s, r];
    assert LogCount([r], "a", 0, 1) == 1;
    TableIsLogMinusForgotten([r, s], "a", 0, 1);
  }
}
