/** price_api/security/store.py: the per-key fixed-window rate limiter with periodic deletion of old
    windows, against a log of every request that never forgets. Times are whole seconds and may run
    backwards, as a wall clock can. */
module KeyRateLimiter {
  import opened Options

  const WINDOW_S := 60
  const RETENTION_WINDOWS := 120
  const CLEANUP_INTERVAL_S := 30

  datatype RateLimitResult = RateLimitResult(
    allowed: bool, limit: int, remaining: int, resetEpoch: int, retryAfter: int, requestCount: int)

  datatype Slot = Slot(publicId: string, windowStart: int)

  datatype Table = Table(counts: map<Slot, int>, nextCleanup: int)

  datatype Request = Request(publicId: string, now: int)

  function WindowOf(now: int): int {
    now - now % WINDOW_S
  }

  function SlotOf(r: Request): Slot {
    Slot(r.publicId, WindowOf(r.now))
  }

  function CountIn(t: Table, s: Slot): int {
    if s in t.counts then t.counts[s] else 0
  }

  /** Whether a request triggers a cleanup, and which windows the cleanup deletes. */
  predicate Sweeps(t: Table, r: Request, windowStart: int) {
    r.now >= t.nextCleanup && windowStart < WindowOf(r.now) - RETENTION_WINDOWS * WINDOW_S
  }

  function Consumed(t: Table, r: Request): Table {
    var counts := t.counts[SlotOf(r) := CountIn(t, SlotOf(r)) + 1];
    if r.now < t.nextCleanup then Table(counts, t.nextCleanup)
    else
      Table(map s | s in counts && !Sweeps(t, r, s.windowStart) :: counts[s], r.now + CLEANUP_INTERVAL_S)
  }

  class ApiKeyStore {
    var windows: map<Slot, int>
    var nextCleanup: int

    function State(): Table
      reads this
    {
      Table(windows, nextCleanup)
    }

    constructor ()
      ensures State() == Table(map[], 0)
    {
      windows, nextCleanup := map[], 0;
    }

    /** None stands for the ValueError on a limit that is not positive. */
    method ConsumeRateLimit(publicId: string, limit: int, now: int) returns (r: Option<RateLimitResult>)
      modifies this
      ensures r.None? <==> limit <= 0
      ensures State() == if r.None? then old(State()) else Consumed(old(State()), Request(publicId, now))
      ensures r.Some? ==>
                var count := CountIn(old(State()), Slot(publicId, WindowOf(now))) + 1;
                && r.value.requestCount == count && r.value.limit == limit
                && r.value.allowed == (count <= limit) && r.value.remaining == Max(limit - count, 0)
                && r.value.resetEpoch == now + r.value.retryAfter
                && 1 <= r.value.retryAfter <= 60
                && WindowOf(r.value.resetEpoch) == r.value.resetEpoch == WindowOf(now) + 60
                && r.value.resetEpoch % 60 == 0
      ensures r.Some? && now < old(nextCleanup) ==> nextCleanup == old(nextCleanup)
      ensures r.Some? && now >= old(nextCleanup) ==>
                nextCleanup == now + 30 && forall s <- windows :: s.windowStart >= WindowOf(now) - 7200
    {
      if limit <= 0 {
        return None;
      }
      var windowStart := now - now % WINDOW_S;
      var resetEpoch := windowStart + WINDOW_S;
      var retryAfter := Max(resetEpoch - now, 0);
      var slot := Slot(publicId, windowStart);
      var count := (if slot in windows then windows[slot] else 0) + 1;
      windows := windows[slot := count];
      if now >= nextCleanup {
        var cutoff := windowStart - RETENTION_WINDOWS * WINDOW_S;
        windows := map s | s in windows && !(s.windowStart < cutoff) :: windows[s];
        nextCleanup := now + CLEANUP_INTERVAL_S;
      }
      return Some(RateLimitResult(count <= limit, limit, Max(limit - count, 0), resetEpoch, retryAfter, count));
    }
  }

  // ---- the log

  function Run(log: seq<Request>): Table {
    if log == [] then Table(map[], 0) else Consumed(Run(log[..|log| - 1]), log[|log| - 1])
  }

  function LogCount(log: seq<Request>, s: Slot): nat {
    if log == [] then 0
    else LogCount(log[..|log| - 1], s) + if SlotOf(log[|log| - 1]) == s then 1 else 0
  }

  /** How many requests of a slot were logged by the last cleanup that deleted its window. */
  function Forgotten(log: seq<Request>, s: Slot): nat {
    if log == [] then 0
    else
      var init, last := log[..|log| - 1], log[|log| - 1];
      if Sweeps(Run(init), last, s.windowStart) then LogCount(log, s) else Forgotten(init, s)
  }

  /** The table is the log minus exactly what the cleanups deleted. */
  lemma {:induction false} TableIsLogMinusForgotten(log: seq<Request>, s: Slot)
    ensures CountIn(Run(log), s) == LogCount(log, s) - Forgotten(log, s)
    ensures Forgotten(log, s) <= LogCount(log, s)
  {
    if log != [] {
      TableIsLogMinusForgotten(log[..|log| - 1], s);
    }
  }

  /** The count a request is answered with. */
  function Answer(log: seq<Request>, r: Request): int {
    CountIn(Run(log), SlotOf(r)) + 1
  }

  /** The answer is the log's count exactly when nothing of the request's window was deleted, and it
      never counts more than the log does. */
  lemma AnswerIsLogCount(log: seq<Request>, r: Request)
    ensures Answer(log, r) <= LogCount(log + [r], SlotOf(r))
    ensures Answer(log, r) == LogCount(log + [r], SlotOf(r)) <==> Forgotten(log, SlotOf(r)) == 0
  {
    TableIsLogMinusForgotten(log, SlotOf(r));
    assert (log + [r])[..|log|] == log;
  }

  /** A window is deleted only by a request more than 120 windows ahead of it. */
  lemma {:induction false} OnlyOldWindowsAreForgotten(log: seq<Request>, s: Slot)
    requires forall r <- log :: WindowOf(r.now) - 120 * 60 <= s.windowStart
    ensures Forgotten(log, s) == 0
  {
    if log != [] {
      OnlyOldWindowsAreForgotten(log[..|log| - 1], s);
      assert log[|log| - 1] in log;
    }
  }

  /** No request comes more than 120 windows behind the latest seen. */
  ghost predicate Punctual(log: seq<Request>) {
    forall i, j :: 0 <= i < j < |log| ==>
      WindowOf(log[i].now) - 120 * 60 <= WindowOf(log[j].now)
  }

  lemma PunctualAnswer(log: seq<Request>, r: Request)
    requires Punctual(log + [r])
    ensures Answer(log, r) == LogCount(log + [r], SlotOf(r)) && Punctual(log)
  {
    var all := log + [r];
    assert forall i :: 0 <= i < |log| ==> all[i] == log[i];
    forall x <- log ensures WindowOf(x.now) - 120 * 60 <= SlotOf(r).windowStart {
      var i :| 0 <= i < |log| && log[i] == x;
      assert all[i] == x && all[|log|] == r;
    }
    OnlyOldWindowsAreForgotten(log, SlotOf(r));
    AnswerIsLogCount(log, r);
  }

  /** The condition is needed: a request two days behind the clock can be counted afresh. */
  lemma LateRequestIsCountedAfresh()
    ensures var log := [Request("k", 0), Request("k", 172800)];
            Answer(log, Request("k", 0)) == 1 < LogCount(log + [Request("k", 0)], Slot("k", 0))
  {
    var a, b := Request("k", 0), Request("k", 172800);
    assert [a][..0] == [] && [a, b][..1] == [a] && [a, b, a][..2] == [a, b];
    assert Run([a]).nextCleanup == 30;
    TableIsLogMinusForgotten([a, b], Slot("k", 0));
    assert Sweeps(Run([a]), b, 0);
    assert LogCount([a], Slot("k", 0)) == 1;
    assert [a, b] + [a] == [a, b, a];
  }

  // ---- what a key may do

  /** The requests of a slot that were allowed under a constant limit. */
  function AllowedIn(log: seq<Request>, s: Slot, limit: int): nat {
    if log == [] then 0
    else
      var init, last := log[..|log| - 1], log[|log| - 1];
      AllowedIn(init, s, limit) + if SlotOf(last) == s && Answer(init, last) <= limit then 1 else 0
  }

  /** Each aligned window allows exactly min(requests, limit). */
  lemma {:induction false} WindowAllowsExactlyLimit(log: seq<Request>, s: Slot, limit: nat)
    requires Punctual(log)
    ensures AllowedIn(log, s, limit) == Min(LogCount(log, s), limit)
  {
    if log != [] {
      var init, last := log[..|log| - 1], log[|log| - 1];
      assert init + [last] == log;
      PunctualAnswer(init, last);
      WindowAllowsExactlyLimit(init, s, limit);
    }
  }

  /** The allowed requests of a key in the 60 seconds from `start`. */
  function AllowedFrom(log: seq<Request>, publicId: string, start: int, limit: int): nat {
    if log == [] then 0
    else
      var init, last := log[..|log| - 1], log[|log| - 1];
      AllowedFrom(init, publicId, start, limit)
      + if last.publicId == publicId && start <= last.now < start + 60 && Answer(init, last) <= limit
        then 1 else 0
  }

  lemma {:induction false} IntervalSpansTwoWindows(log: seq<Request>, publicId: string, start: int, limit: int)
    ensures AllowedFrom(log, publicId, start, limit)
            <= AllowedIn(log, Slot(publicId, WindowOf(start)), limit)
             + AllowedIn(log, Slot(publicId, WindowOf(start) + WINDOW_S), limit)
  {
    if log != [] {
      IntervalSpansTwoWindows(log[..|log| - 1], publicId, start, limit);
      var now := log[|log| - 1].now;
      if start <= now < start + WINDOW_S {
        WindowNeighbours(start, now);
      }
    }
  }

  lemma WindowNeighbours(start: int, now: int)
    requires start <= now < start + WINDOW_S
    ensures WindowOf(now) == WindowOf(start) || WindowOf(now) == WindowOf(start) + WINDOW_S
  {
  }

  /** Any 60 seconds, aligned or not, allow a key at most twice its limit. */
  lemma AnyMinuteAllowsAtMostTwice(log: seq<Request>, publicId: string, start: int, limit: nat)
    requires Punctual(log)
    ensures AllowedFrom(log, publicId, start, limit) <= 2 * limit
  {
    IntervalSpansTwoWindows(log, publicId, start, limit);
    WindowAllowsExactlyLimit(log, Slot(publicId, WindowOf(start)), limit);
    WindowAllowsExactlyLimit(log, Slot(publicId, WindowOf(start) + WINDOW_S), limit);
  }
}
