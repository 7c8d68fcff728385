/** price_api/token_metadata/logo_service.py: the retry delays, and the acquisition pass as a machine
    over the table. A pass fetches a batch and processes its items in any order, interleaved with
    enrolments and source list changes. A write that the table refuses ends the pass early. */
module LogoScheduler {
  import opened Options
  import opened LogoTable
  import opened LogoCache

  const UNAVAILABLE_RETRY_MS := 172_800_000
  const UNAVAILABLE_SPAN_MS := 17_280_000
  const TRANSIENT_BASE_MS := 300_000
  const TRANSIENT_CAP_MS := 21_600_000
  const RETRY_AFTER_CAP_MS := 86_400_000
  const DUE_BATCH_SIZE := 32

  // ---- retry delays

  function Pow2(n: nat): (p: int)
    ensures p >= 1
  {
    if n == 0 then 1 else 2 * Pow2(n - 1)
  }

  /** The upper end of the random draw after so many consecutive transient failures. */
  function BackoffCap(failureCount: int): int {
    var exponent := Min(Max(failureCount - 1, 0), 31);
    Min(TRANSIENT_BASE_MS * Pow2(exponent), TRANSIENT_CAP_MS)
  }

  function TransientDelay(retryAfterMs: Option<int>, jittered: int): int {
    if retryAfterMs.None? then jittered
    else
      var bounded := Min(Max(retryAfterMs.value, 0), RETRY_AFTER_CAP_MS);
      Min(Max(jittered, bounded), RETRY_AFTER_CAP_MS)
  }

  /** Doubling from 5 minutes, never above 6 hours, and there from the eighth failure on. */
  lemma BackoffDoublesUpToCap(n: nat)
    requires n >= 1
    ensures BackoffCap(n + 1) == Min(2 * BackoffCap(n), TRANSIENT_CAP_MS)
    ensures TRANSIENT_BASE_MS <= BackoffCap(n) <= TRANSIENT_CAP_MS
    ensures n >= 8 ==> BackoffCap(n) == TRANSIENT_CAP_MS
    ensures BackoffCap(1) == 300_000 && TRANSIENT_CAP_MS == 21_600_000
  {
    var e := Min(n - 1, 31);
    if e >= 7 {
      Pow2AtLeast(7, e);
      assert Pow2(7) == 128;
    }
    if n <= 31 {
      assert Pow2(n) == 2 * Pow2(n - 1);
    }
  }

  lemma {:induction false} Pow2AtLeast(m: nat, n: nat)
    requires m <= n
    ensures Pow2(m) <= Pow2(n)
  {
    if m < n {
      Pow2AtLeast(m, n - 1);
    }
  }

  /** A transient retry waits at least what the server asked for, up to the cap of 24 hours, at least
      the draw, and never longer than the larger of the two. */
  lemma TransientDelayBounds(count: int, retryAfterMs: Option<int>, jittered: int)
    requires 0 <= jittered <= BackoffCap(count)
    ensures var d := TransientDelay(retryAfterMs, jittered);
            && jittered <= d <= 86_400_000
            && (retryAfterMs.Some? ==> Min(retryAfterMs.value, 86_400_000) <= d)
            && (d == jittered || (retryAfterMs.Some? && d == Min(retryAfterMs.value, 86_400_000)))
  {
  }

  // ---- the machine

  datatype Acquisition =
    | Acquired(asset: Asset, source: string, httpStatus: Option<int>)
    | TransientFailure(retryAfterMs: Option<int>, httpStatus: Option<int>, code: string)
    | Unobtainable(httpStatus: Option<int>, code: string)

  /** The random draws the two delay functions may make. */
  predicate DrawOk(item: DueLogo, result: Acquisition, draw: int) {
    match result
    case Acquired(_, _, _) => true
    case TransientFailure(_, _, _) => 0 <= draw <= BackoffCap(item.failureCount + 1)
    case Unobtainable(_, _) => -UNAVAILABLE_SPAN_MS <= draw <= UNAVAILABLE_SPAN_MS
  }

  /** `_persist_result`: the row that is written. */
  function Persisted(t: Logos, item: DueLogo, result: Acquisition, at: int, draw: int): Row {
    match result
    case Acquired(asset, source, httpStatus) => AfterSuccess(t, item.key, asset, source, at, httpStatus)
    case TransientFailure(retryAfterMs, httpStatus, code) =>
      AfterFailure(t, item.key, Transient, at, at + TransientDelay(retryAfterMs, draw), item.failureCount + 1,
                   httpStatus, Short(code))
    case Unobtainable(httpStatus, code) =>
      AfterFailure(t, item.key, Unavailable, at, at + UNAVAILABLE_RETRY_MS + draw, 0, httpStatus, Short(code))
  }

  function Short(code: string): string {
    if |code| <= 64 then code else code[..64]
  }

  /** The columns that a result writes. An image and its columns come from an acquisition and are left
      alone by a failure. */
  lemma PersistedColumns(t: Logos, item: DueLogo, result: Acquisition, at: int, draw: int)
    requires item.key in t
    ensures var was, row := t[item.key], Persisted(t, item, result, at, draw);
            && row.lastAttemptAt == Some(at)
            && match result
               case Acquired(asset, source, httpStatus) =>
                 && row.contentHash == Some(asset.contentHash) && row.mimeType == Some(asset.mimeType)
                 && (was.contentHash != row.contentHash ==> row.imageBytes == Some(asset.imageBytes))
                 && (was.contentHash == row.contentHash ==> row.imageBytes == was.imageBytes)
                 && row.source == Some(source) && row.lastSuccessAt == Some(at) && row.nextAttemptAt == None
                 && row.lastOutcome == Some(Success) && row.failureCount == 0
                 && row.lastHttpStatus == httpStatus && row.lastErrorCode == None
               case TransientFailure(retryAfterMs, httpStatus, code) =>
                 && row == was.(lastAttemptAt := Some(at), lastOutcome := Some(Transient), lastHttpStatus := httpStatus,
                                nextAttemptAt := row.nextAttemptAt, failureCount := item.failureCount + 1,
                                lastErrorCode := Some(if |code| > 64 then code[..64] else code))
                 && (retryAfterMs.None? ==> row.nextAttemptAt == Some(at + draw))
               case Unobtainable(httpStatus, code) =>
                 row == was.(lastAttemptAt := Some(at), lastOutcome := Some(Unavailable), lastHttpStatus := httpStatus,
                             nextAttemptAt := Some(at + 172_800_000 + draw), failureCount := 0,
                             lastErrorCode := Some(if |code| > 64 then code[..64] else code))
  {
  }

  /** The table and the items being processed, with the histories the claims are about: the keys
      force-enrolled since their last success, the number of consecutive stored transient failures of
      each key, and whether a batch was ever fetched while items of an earlier one were in work. */
  datatype State = State(
    logos: Logos, inflight: seq<DueLogo>, forced: set<Key>, streak: map<Key, int>, escaped: bool, overlapped: bool)

  const EMPTY := State(map[], [], {}, map[], false, false)

  function StreakOf(s: State, k: Key): int {
    if k in s.streak then s.streak[k] else 0
  }

  datatype Step =
    | Observe(key: Key)
    | Identify(key: Key, force: bool)
    | Redrive(chainId: int)
    | Fetch(now: int, batch: seq<DueLogo>)
    | Process(i: nat, result: Acquisition, at: int, draw: int)
    | Raise(i: nat)

  /** The next batch is fetched when the last one is done, or when an exception has ended its pass
      early: the other items of that pass are still in work then. */
  ghost predicate Enabled(s: State, step: Step) {
    match step
    case Observe(_) => true
    case Identify(key, _) => key.chainId > 0
    case Redrive(_) => true
    case Fetch(now, batch) =>
      && (s.inflight == [] || s.escaped)
      && IsBatch(s.logos, now, DUE_BATCH_SIZE, Keys(batch))
      && (forall d <- batch :: d.key in s.logos && d.failureCount == s.logos[d.key].failureCount)
    case Process(i, result, at, draw) => i < |s.inflight| && DrawOk(s.inflight[i], result, draw)
    case Raise(i) => i < |s.inflight|
  }

  function Apply(s: State, step: Step): State {
    match step
    case Observe(key) => s.(logos := Observed(s.logos, key))
    case Identify(key, force) =>
      s.(logos := Identified(s.logos, key, force), forced := if force then s.forced + {key} else s.forced)
    case Redrive(chainId) => s.(logos := Redriven(s.logos, chainId))
    case Fetch(_, batch) =>
      s.(inflight := s.inflight + batch, overlapped := s.overlapped || s.inflight != [])
    case Process(i, result, at, draw) =>
      if i >= |s.inflight| then s
      else if Stores(s, step) then Processed(s, i, result, at, draw)
      else Dropped(s, i)
    case Raise(i) => if i < |s.inflight| then Dropped(s, i) else s
  }

  /** The table takes the row that an item writes. */
  predicate Stores(s: State, step: Step) {
    && step.Process? && step.i < |s.inflight|
    && Checks(Persisted(s.logos, s.inflight[step.i], step.result, step.at, step.draw))
  }

  function WithoutItem(inflight: seq<DueLogo>, i: nat): seq<DueLogo>
    requires i < |inflight|
  {
    inflight[..i] + inflight[i + 1..]
  }

  function Processed(s: State, i: nat, result: Acquisition, at: int, draw: int): State
    requires i < |s.inflight|
  {
    var item := s.inflight[i];
    var k := item.key;
    s.(logos := s.logos[k := Persisted(s.logos, item, result, at, draw)],
       inflight := WithoutItem(s.inflight, i),
       forced := if result.Acquired? then s.forced - {k} else s.forced,
       streak := s.streak[k := if result.TransientFailure? then StreakOf(s, k) + 1 else 0])
  }

  /** An acquisition that raises writes nothing and a write that breaks a CHECK changes nothing; either
      exception ends the pass. */
  function Dropped(s: State, i: nat): State
    requires i < |s.inflight|
  {
    s.(inflight := WithoutItem(s.inflight, i), escaped := true)
  }

  ghost predicate Feasible(steps: seq<Step>) {
    steps == [] || (
      var n := |steps| - 1;
      Feasible(steps[..n]) && Enabled(Exec(steps[..n]), steps[n]))
  }

  function Exec(steps: seq<Step>): State {
    if steps == [] then EMPTY else Apply(Exec(steps[..|steps| - 1]), steps[|steps| - 1])
  }

  // ---- which results the table takes

  predicate StatusFits(httpStatus: Option<int>) {
    httpStatus.Some? ==> 100 <= httpStatus.value <= 599
  }

  predicate AssetFits(asset: Asset) {
    1 <= |asset.imageBytes| <= 262144 && |asset.contentHash| == 64
  }

  predicate Storable(row: Row, result: Acquisition) {
    match result
    case Acquired(asset, source, httpStatus) =>
      && (row.contentHash == Some(asset.contentHash) || AssetFits(asset))
      && !asset.mimeType.OtherMime?
      && 1 <= |source| <= 64 && StatusFits(httpStatus)
    case TransientFailure(_, httpStatus, code) => StatusFits(httpStatus) && code != ""
    case Unobtainable(httpStatus, code) => StatusFits(httpStatus) && code != ""
  }

  /** On a row that passes its CHECKs, a result is stored exactly if its own values fit the columns:
      above all, if its HTTP status is one of 100 to 599. */
  lemma StoredExactlyIfStorable(t: Logos, item: DueLogo, result: Acquisition, at: int, draw: int)
    requires item.key in t && Checks(t[item.key]) && item.failureCount >= 0
    ensures Checks(Persisted(t, item, result, at, draw)) <==> Storable(t[item.key], result)
  {
  }

  // ---- the row invariant

  /** When a row without an image is tried next. */
  predicate Scheduled(row: Row) {
    && row.nextAttemptAt.Some?
    && (row.nextAttemptAt.value == 0
        || (row.lastAttemptAt.Some?
            && row.lastAttemptAt.value <= row.nextAttemptAt.value <= row.lastAttemptAt.value + 190_080_000))
  }

  /** What holds of a row whatever passes overlap. */
  predicate RowSound(row: Row) {
    Checks(row) && (row.imageBytes.None? ==> Scheduled(row))
  }

  /** What holds besides while passes do not overlap. */
  predicate RowOk(row: Row, forced: bool, streak: int) {
    && RowSound(row)
    && (row.imageBytes.Some? && row.nextAttemptAt.Some? ==> forced)
    && row.failureCount == streak
  }

  ghost predicate TableSound(s: State) {
    && (forall k <- s.logos :: RowSound(s.logos[k]))
    && (forall k <- s.streak :: k in s.logos)
    && (forall d <- s.inflight :: d.key in s.logos && d.failureCount >= 0)
  }

  ghost predicate TableOk(s: State) {
    forall k <- s.logos :: RowOk(s.logos[k], k in s.forced, StreakOf(s, k))
  }

  /** Each item being processed is processed once, and its row has not been attempted meanwhile. */
  ghost predicate InflightOk(s: State) {
    && (forall i :: 0 <= i < |s.inflight| ==> ItemOk(s, s.inflight[i]))
    && (forall i, j :: 0 <= i < j < |s.inflight| ==> s.inflight[i].key != s.inflight[j].key)
  }

  ghost predicate ItemOk(s: State, item: DueLogo) {
    && item.key in s.logos
    && item.failureCount == s.logos[item.key].failureCount
    && (s.logos[item.key].imageBytes.Some? ==> item.key in s.forced)
  }

  ghost predicate Orderly(s: State) {
    TableOk(s) && InflightOk(s)
  }

  // ---- rows in any history

  /** The row that a processed item leaves, if it is stored: it is tried again no earlier than now,
      within 24 h after a transient failure and within 10% of 48 h after an unobtainable image. */
  lemma PersistedSound(t: Logos, item: DueLogo, result: Acquisition, at: int, draw: int)
    requires item.key in t && RowSound(t[item.key]) && DrawOk(item, result, draw)
    requires Checks(Persisted(t, item, result, at, draw))
    ensures var row := Persisted(t, item, result, at, draw);
            && RowSound(row)
            && (row.nextAttemptAt.Some? ==> at <= row.nextAttemptAt.value)
            && (result.TransientFailure? ==> row.nextAttemptAt.value <= at + 86_400_000)
            && (result.Unobtainable? ==>
                  155_520_000 <= row.nextAttemptAt.value - at <= 190_080_000)
            && (result.Acquired? <==> row.nextAttemptAt.None?)
            && (row.imageBytes.Some? <==> result.Acquired? || t[item.key].imageBytes.Some?)
  {
    if result.TransientFailure? {
      TransientDelayBounds(item.failureCount + 1, result.retryAfterMs, draw);
    }
  }

  lemma EnrolKeepsSound(s: State, step: Step)
    requires (step.Observe? || step.Identify? || step.Redrive?) && TableSound(s)
    ensures TableSound(Apply(s, step))
  {
  }

  lemma FetchKeepsSound(s: State, step: Step)
    requires step.Fetch? && Enabled(s, step) && TableSound(s)
    ensures TableSound(Apply(s, step))
  {
    forall d <- step.batch ensures d.failureCount >= 0 {
      assert RowSound(s.logos[d.key]);
    }
  }

  /** The steps by which an item leaves. */
  predicate Ends(step: Step) {
    step.Process? || step.Raise?
  }

  lemma ItemKeepsSound(s: State, step: Step)
    requires Ends(step) && Enabled(s, step) && TableSound(s)
    ensures TableSound(Apply(s, step))
  {
    var item, s' := s.inflight[step.i], Apply(s, step);
    assert item in s.inflight;
    forall d <- s'.inflight ensures d in s.inflight {
    }
    if Stores(s, step) {
      PersistedSound(s.logos, item, step.result, step.at, step.draw);
    }
  }

  /** Over all service, enrolment and source operations, whatever the sources answer, whichever
      acquisitions raise or writes the table refuses, and however passes then overlap: the image columns
      of a row are all present or all absent, and a row without an image always has a next attempt, zero
      or within 48 h + 10% of the last one. */
  lemma {:induction false} RowsStaySound(steps: seq<Step>)
    requires Feasible(steps)
    ensures TableSound(Exec(steps))
  {
    if steps != [] {
      var n := |steps| - 1;
      RowsStaySound(steps[..n]);
      var s, step := Exec(steps[..n]), steps[n];
      match step
      case Fetch(_, _) => FetchKeepsSound(s, step);
      case Process(_, _, _, _) => ItemKeepsSound(s, step);
      case Raise(_) => ItemKeepsSound(s, step);
      case _ => EnrolKeepsSound(s, step);
    }
  }

  // ---- rows while passes do not overlap

  /** A stored result leaves a good row good exactly if the item was fresh: its failure count is still
      the row's, and a failure does not reschedule a row with an image that nobody forced. */
  lemma PersistedOkIff(t: Logos, item: DueLogo, result: Acquisition, at: int, draw: int, forced: bool, streak: int)
    requires item.key in t && RowOk(t[item.key], forced, streak) && DrawOk(item, result, draw)
    requires Checks(Persisted(t, item, result, at, draw))
    ensures RowOk(Persisted(t, item, result, at, draw), !result.Acquired? && forced,
                  if result.TransientFailure? then streak + 1 else 0)
            <==> && (result.TransientFailure? ==> item.failureCount == t[item.key].failureCount)
                 && (!result.Acquired? && t[item.key].imageBytes.Some? ==> forced)
  {
    PersistedSound(t, item, result, at, draw);
  }

  lemma EnrolKeepsOk(s: State, step: Step)
    requires step.Observe? || step.Identify? || step.Redrive?
    requires TableSound(s) && Orderly(s)
    ensures Orderly(Apply(s, step))
  {
    EnrolKeepsTable(s, step);
    forall i | 0 <= i < |s.inflight| ensures ItemOk(Apply(s, step), s.inflight[i]) {
      assert ItemOk(s, s.inflight[i]);
    }
  }

  lemma EnrolKeepsTable(s: State, step: Step)
    requires (step.Observe? || step.Identify? || step.Redrive?) && TableSound(s) && TableOk(s)
    ensures TableOk(Apply(s, step))
  {
    forall k <- Apply(s, step).logos
      ensures RowOk(Apply(s, step).logos[k], k in Apply(s, step).forced, StreakOf(Apply(s, step), k))
    {
      EnrolKeepsRow(s, step, k);
    }
  }

  lemma EnrolKeepsRow(s: State, step: Step, k: Key)
    requires (step.Observe? || step.Identify? || step.Redrive?) && TableSound(s) && k in Apply(s, step).logos
    requires k in s.logos ==> RowOk(s.logos[k], k in s.forced, StreakOf(s, k))
    ensures var s' := Apply(s, step); RowOk(s'.logos[k], k in s'.forced, StreakOf(s', k))
  {
  }

  lemma FetchKeepsOk(s: State, step: Step)
    requires step.Fetch? && Enabled(s, step) && TableOk(s) && s.inflight == []
    ensures Orderly(Apply(s, step))
  {
    var batch, keys := step.batch, Keys(step.batch);
    assert s.inflight + batch == batch;
    forall i | 0 <= i < |batch| ensures ItemOk(Apply(s, step), batch[i]) {
      assert batch[i] in batch && keys[i] == batch[i].key && Due(s.logos, keys[i], step.now);
      assert RowOk(s.logos[keys[i]], keys[i] in s.forced, StreakOf(s, keys[i]));
    }
    forall i, j | 0 <= i < j < |batch| ensures batch[i].key != batch[j].key {
      assert Before(s.logos, keys[i], keys[j]);
    }
  }

  lemma RowReplaced(s: State, k: Key, row: Row, s': State, streak: int)
    requires TableOk(s) && RowOk(row, k in s'.forced, streak)
    requires s'.logos == s.logos[k := row] && s'.streak == s.streak[k := streak]
    requires s'.forced == s.forced || s'.forced == s.forced - {k}
    ensures TableOk(s')
  {
    forall j <- s'.logos ensures RowOk(s'.logos[j], j in s'.forced, StreakOf(s', j)) {
      if j != k {
        assert RowOk(s.logos[j], j in s.forced, StreakOf(s, j));
      }
    }
  }

  lemma ItemRemoved(s: State, s': State, i: nat)
    requires InflightOk(s) && i < |s.inflight| && s'.inflight == WithoutItem(s.inflight, i)
    requires forall k <- s.logos :: k != s.inflight[i].key ==>
               k in s'.logos && s'.logos[k] == s.logos[k] && (k in s.forced ==> k in s'.forced)
    ensures InflightOk(s')
  {
    forall j | 0 <= j < |s'.inflight| ensures ItemOk(s', s'.inflight[j]) {
      var o := if j < i then j else j + 1;
      assert s'.inflight[j] == s.inflight[o] && ItemOk(s, s.inflight[o]);
    }
  }

  lemma ItemKeepsOk(s: State, step: Step)
    requires Ends(step) && Enabled(s, step) && Orderly(s)
    ensures Orderly(Apply(s, step))
  {
    var item, s' := s.inflight[step.i], Apply(s, step);
    assert ItemOk(s, item);
    assert RowOk(s.logos[item.key], item.key in s.forced, StreakOf(s, item.key));
    ItemRemoved(s, s', step.i);
    if Stores(s, step) {
      StoredKeepsTable(s, step);
    }
  }

  lemma StoredKeepsTable(s: State, step: Step)
    requires Enabled(s, step) && TableOk(s) && Stores(s, step) && ItemOk(s, s.inflight[step.i])
    ensures TableOk(Apply(s, step))
  {
    var item := s.inflight[step.i];
    var k := item.key;
    var streak := if step.result.TransientFailure? then StreakOf(s, k) + 1 else 0;
    PersistedOkIff(s.logos, item, step.result, step.at, step.draw, k in s.forced, StreakOf(s, k));
    RowReplaced(s, k, Persisted(s.logos, item, step.result, step.at, step.draw), Apply(s, step), streak);
  }

  /** While no batch is fetched before the last one is done, whatever raises or is refused: a row with an image
      is scheduled only if it was force-enrolled since its last success, and its failure count is the
      number of consecutive stored transient failures. */
  lemma {:induction false} RowsStayOk(steps: seq<Step>)
    requires Feasible(steps) && !Exec(steps).overlapped
    ensures TableSound(Exec(steps)) && Orderly(Exec(steps))
  {
    if steps != [] {
      var n := |steps| - 1;
      RowsStayOk(steps[..n]);
      RowsStaySound(steps);
      var s, step := Exec(steps[..n]), steps[n];
      match step
      case Fetch(_, _) => FetchKeepsOk(s, step);
      case Process(_, _, _, _) => ItemKeepsOk(s, step);
      case Raise(_) => ItemKeepsOk(s, step);
      case _ => EnrolKeepsOk(s, step);
    }
  }

  /** A stored result comes from an item that is still up to date. */
  ghost predicate FreshStep(s: State, step: Step) {
    Stores(s, step) ==>
      var item := s.inflight[step.i];
      && item.key in s.logos
      && (step.result.TransientFailure? ==> item.failureCount == s.logos[item.key].failureCount)
      && (!step.result.Acquired? && s.logos[item.key].imageBytes.Some? ==> item.key in s.forced)
  }

  lemma StoredOkIff(s: State, step: Step)
    requires Enabled(s, step) && TableSound(s) && TableOk(s) && Stores(s, step)
    ensures TableOk(Apply(s, step)) <==> FreshStep(s, step)
  {
    var item, s' := s.inflight[step.i], Apply(s, step);
    var k := item.key;
    assert item in s.inflight;
    var streak := if step.result.TransientFailure? then StreakOf(s, k) + 1 else 0;
    var row := Persisted(s.logos, item, step.result, step.at, step.draw);
    PersistedOkIff(s.logos, item, step.result, step.at, step.draw, k in s.forced, StreakOf(s, k));
    if FreshStep(s, step) {
      RowReplaced(s, k, row, s', streak);
    } else {
      assert s'.logos[k] == row && StreakOf(s', k) == streak;
    }
  }

  lemma StepOkIff(s: State, step: Step)
    requires Enabled(s, step) && TableSound(s) && TableOk(s)
    ensures TableOk(Apply(s, step)) <==> FreshStep(s, step)
  {
    match step
    case Fetch(_, _) =>
    case Process(_, _, _, _) => if Stores(s, step) { StoredOkIff(s, step); }
    case Raise(_) =>
    case _ => EnrolKeepsTable(s, step);
  }

  ghost predicate Fresh(steps: seq<Step>) {
    steps == [] || (
      var n := |steps| - 1;
      Fresh(steps[..n]) && FreshStep(Exec(steps[..n]), steps[n]))
  }

  ghost predicate AlwaysOk(steps: seq<Step>) {
    TableOk(Exec(steps)) && (steps == [] || AlwaysOk(steps[..|steps| - 1]))
  }

  /** The exact condition over any history, overlapping passes included: rows stay good, with a failure
      count that is the number of consecutive stored transient failures and images rescheduled only by
      force, if and only if every stored result came from an item that was still up to date. */
  lemma {:induction false} RowsOkExactlyIfFresh(steps: seq<Step>)
    requires Feasible(steps)
    ensures AlwaysOk(steps) <==> Fresh(steps)
  {
    if steps != [] {
      var n := |steps| - 1;
      RowsOkExactlyIfFresh(steps[..n]);
      RowsStaySound(steps[..n]);
      if AlwaysOk(steps[..n]) {
        assert TableOk(Exec(steps[..n]));
        StepOkIff(Exec(steps[..n]), steps[n]);
      }
    }
  }

  /** A row never disappears and an image, once stored, never goes away. */
  lemma {:induction false} ImagesArePermanent(steps: seq<Step>, more: seq<Step>, k: Key)
    requires Feasible(steps + more) && Feasible(steps) && k in Exec(steps).logos
    ensures k in Exec(steps + more).logos
    ensures Exec(steps).logos[k].imageBytes.Some? ==> Exec(steps + more).logos[k].imageBytes.Some?
  {
    if more == [] {
      assert steps + more == steps;
    } else {
      var n := |more| - 1;
      var all := steps + more;
      assert all[..|all| - 1] == steps + more[..n];
      ImagesArePermanent(steps, more[..n], k);
      RowsStaySound(steps + more[..n]);
      ImageKept(Exec(steps + more[..n]), more[n], k);
    }
  }

  lemma ImageKept(s: State, step: Step, k: Key)
    requires Enabled(s, step) && TableSound(s) && k in s.logos
    ensures k in Apply(s, step).logos
    ensures s.logos[k].imageBytes.Some? ==> Apply(s, step).logos[k].imageBytes.Some?
  {
    if Stores(s, step) {
      var item := s.inflight[step.i];
      assert item in s.inflight;
      PersistedSound(s.logos, item, step.result, step.at, step.draw);
    }
  }

  lemma Extended(steps: seq<Step>, step: Step)
    requires Feasible(steps) && Enabled(Exec(steps), step)
    ensures Feasible(steps + [step]) && Exec(steps + [step]) == Apply(Exec(steps), step)
  {
    assert (steps + [step])[..|steps|] == steps;
  }

  // ---- what overlapping passes do

  const A := Key(1, 0)
  const B := Key(1, 1)
  const BOTH := [DueLogo(A, 0), DueLogo(B, 0)]
  const NO_STATUS_COLUMN := Unobtainable(Some(999), "http_999")
  const NOT_FOUND := Unobtainable(Some(404), "http_404")

  /** The write of B is refused while A is in work, and a new pass fetches both again. */
  const OVERLAP := [Observe(A), Observe(B), Fetch(1, BOTH), Process(1, NO_STATUS_COLUMN, 1, 0), Fetch(1, BOTH)]

  lemma PassesOverlap()
    ensures Feasible(OVERLAP)
    ensures Exec(OVERLAP)
            == State(map[A := NEW_ROW, B := NEW_ROW], [DueLogo(A, 0)] + BOTH, {}, map[], true, true)
  {
    var two := State(map[A := NEW_ROW, B := NEW_ROW], [], {}, map[], false, false);
    assert Exec([]) == EMPTY;
    Extended([], Observe(A));
    Extended([Observe(A)], Observe(B));
    assert Exec([Observe(A)] + [Observe(B)]) == two;
    BothAreDue();
    Extended([Observe(A)] + [Observe(B)], Fetch(1, BOTH));
    var first := [Observe(A)] + [Observe(B)] + [Fetch(1, BOTH)];
    assert Exec(first) == two.(inflight := BOTH);
    Extended(first, Process(1, NO_STATUS_COLUMN, 1, 0));
    var broken := first + [Process(1, NO_STATUS_COLUMN, 1, 0)];
    assert WithoutItem(BOTH, 1) == [DueLogo(A, 0)];
    assert Exec(broken) == two.(inflight := [DueLogo(A, 0)], escaped := true);
    Extended(broken, Fetch(1, BOTH));
    assert broken + [Fetch(1, BOTH)] == OVERLAP;
  }

  lemma BothAreDue()
    ensures IsBatch(map[A := NEW_ROW, B := NEW_ROW], 1, DUE_BATCH_SIZE, Keys(BOTH))
  {
    assert Keys(BOTH) == [A, B];
  }

  /** The condition of RowsStayOk is needed. When both acquisitions of A then end, one with an image
      and one without, the row has an image and is scheduled although nobody forced it. */
  lemma OverlapReschedulesImage(asset: Asset)
    requires AssetFits(asset) && asset.mimeType.Png?
    ensures var steps := OVERLAP + [Process(0, Acquired(asset, "s", Some(200)), 2, 0)] + [Process(0, NOT_FOUND, 3, 0)];
            && Feasible(steps) && A in Exec(steps).logos && A !in Exec(steps).forced
            && Exec(steps).logos[A].imageBytes.Some? && Exec(steps).logos[A].nextAttemptAt.Some?
  {
    PassesOverlap();
    var success := Process(0, Acquired(asset, "s", Some(200)), 2, 0);
    Extended(OVERLAP, success);
    SecondResultCounts(Exec(OVERLAP), success, asset);
    Extended(OVERLAP + [success], Process(0, NOT_FOUND, 3, 0));
  }

  lemma SecondResultCounts(s: State, success: Step, asset: Asset)
    requires AssetFits(asset) && asset.mimeType.Png?
    requires s == State(map[A := NEW_ROW, B := NEW_ROW], [DueLogo(A, 0)] + BOTH, {}, map[], true, true)
    requires success == Process(0, Acquired(asset, "s", Some(200)), 2, 0)
    ensures var done := Apply(Apply(s, success), Process(0, NOT_FOUND, 3, 0));
            && Enabled(Apply(s, success), Process(0, NOT_FOUND, 3, 0))
            && A in done.logos && A !in done.forced
            && done.logos[A].imageBytes.Some? && done.logos[A].nextAttemptAt.Some?
  {
    var row := SuccessRow(asset, "s", 2, Some(200));
    assert s.inflight[0] == DueLogo(A, 0);
    assert Stores(s, success);
    assert WithoutItem(s.inflight, 0) == BOTH;
    var between := Apply(s, success);
    assert between.logos[A] == row && between.inflight == BOTH;
    assert Stores(between, Process(0, NOT_FOUND, 3, 0));
  }
}
