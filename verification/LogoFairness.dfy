/** When a due logo is attempted: while nothing is enrolled and no source list changes, every pass either
    attempts a due row or a full batch of rows ahead of it, and moves behind it those whose results the
    table takes. Rows whose acquisition always raises or whose results it always refuses are lost: they
    stay at the head of the queue. */
module LogoFairness {
  import opened Options
  import opened Collections
  import opened Arithmetic
  import opened LogoTable
  import opened LogoCache
  import opened LogoScheduler

  /** One `run_once`: the batch clock, the batch it fetches, and the processing of its items. */
  datatype Pass = Pass(now: int, batch: seq<DueLogo>, work: seq<Step>)

  ghost predicate WorkOk(s: State, work: seq<Step>, now: int)
    decreases |work|
  {
    work == [] || (
      && Ends(work[0]) && (work[0].Process? ==> now <= work[0].at) && Enabled(s, work[0])
      && WorkOk(Apply(s, work[0]), work[1..], now))
  }

  function Worked(s: State, work: seq<Step>): State
    decreases |work|
  {
    if work == [] then s else Worked(Apply(s, work[0]), work[1..])
  }

  function After(s: State, p: Pass): State {
    Worked(Apply(s, Fetch(p.now, p.batch)), p.work)
  }

  /** A pass that attempts its whole batch before the next one starts. */
  ghost predicate PassOk(s: State, p: Pass) {
    && s.inflight == [] && Enabled(s, Fetch(p.now, p.batch))
    && WorkOk(Apply(s, Fetch(p.now, p.batch)), p.work, p.now)
    && After(s, p).inflight == []
  }

  /** A run of passes, with the state before each and after the last; clocks do not run backwards. */
  ghost predicate PassesOk(states: seq<State>, passes: seq<Pass>) {
    && |states| == |passes| + 1
    && (forall i :: 0 <= i < |passes| ==> PassOk(states[i], passes[i]) && states[i + 1] == After(states[i], passes[i]))
    && (forall i, j :: 0 <= i < j < |passes| ==> passes[i].now <= passes[j].now)
  }

  /** The rows ahead of x in the queue. */
  ghost function Ahead(t: Logos, x: Key): set<Key> {
    set k | k in t && Before(t, k, x)
  }

  /** The keys that may be lost, by an exception of the acquisition or a refused write: the table takes
      the results of all others. */
  ghost predicate WorkStores(s: State, work: seq<Step>, lost: set<Key>)
    decreases |work|
  {
    work == [] || (
      && Ends(work[0]) && work[0].i < |s.inflight|
      && (s.inflight[work[0].i].key !in lost ==> Stores(s, work[0]))
      && WorkStores(Apply(s, work[0]), work[1..], lost))
  }

  /** The keys that are lost in every pass, because the acquisition raises or the write is refused. */
  ghost predicate WorkLoses(s: State, work: seq<Step>, lost: set<Key>)
    decreases |work|
  {
    work == [] || (
      && Ends(work[0]) && work[0].i < |s.inflight|
      && (s.inflight[work[0].i].key in lost ==> !Stores(s, work[0]))
      && WorkLoses(Apply(s, work[0]), work[1..], lost))
  }

  function Fetched(s: State, p: Pass): State {
    Apply(s, Fetch(p.now, p.batch))
  }

  ghost predicate PassesStore(states: seq<State>, passes: seq<Pass>, lost: set<Key>) {
    && |states| == |passes| + 1
    && forall i :: 0 <= i < |passes| ==> WorkStores(Fetched(states[i], passes[i]), passes[i].work, lost)
  }

  ghost predicate PassesLose(states: seq<State>, passes: seq<Pass>, lost: set<Key>) {
    && |states| == |passes| + 1
    && forall i :: 0 <= i < |passes| ==> WorkLoses(Fetched(states[i], passes[i]), passes[i].work, lost)
  }

  predicate MovedBehind(row: Row, now: int) {
    row.nextAttemptAt.Some? ==> now <= row.nextAttemptAt.value
  }

  // ---- what one pass does

  /** Rows without an item are left alone; an item that is not lost is still there or its row has
      moved. */
  ghost predicate Moved(s: State, s': State, now: int, lost: set<Key>) {
    && s'.logos.Keys == s.logos.Keys
    && (forall d <- s'.inflight :: d in s.inflight)
    && (forall k <- s.logos :: s'.logos[k] == s.logos[k]
                               || (MovedBehind(s'.logos[k], now) && exists d <- s.inflight :: d.key == k))
    && (forall d <- s.inflight :: d.key in lost || d in s'.inflight
                                  || (d.key in s'.logos && MovedBehind(s'.logos[d.key], now)))
  }

  lemma StoreMoves(s: State, step: Step, now: int, lost: set<Key>)
    requires TableSound(s) && step.Process? && now <= step.at && Enabled(s, step) && Stores(s, step)
    ensures Moved(s, Apply(s, step), now, lost)
  {
    var item := s.inflight[step.i];
    assert item in s.inflight;
    PersistedSound(s.logos, item, step.result, step.at, step.draw);
  }

  lemma StepMoves(s: State, step: Step, now: int, lost: set<Key>)
    requires TableSound(s) && Ends(step) && (step.Process? ==> now <= step.at) && Enabled(s, step)
    requires s.inflight[step.i].key !in lost ==> Stores(s, step)
    ensures Moved(s, Apply(s, step), now, lost)
  {
    if Stores(s, step) {
      StoreMoves(s, step, now, lost);
    }
  }

  lemma MovedTwice(s: State, s1: State, s2: State, now: int, lost: set<Key>)
    requires Moved(s, s1, now, lost) && Moved(s1, s2, now, lost)
    ensures Moved(s, s2, now, lost)
  {
  }

  lemma {:induction false} WorkMovesRows(s: State, work: seq<Step>, now: int, lost: set<Key>)
    requires TableSound(s) && WorkOk(s, work, now) && WorkStores(s, work, lost)
    ensures TableSound(Worked(s, work)) && Moved(s, Worked(s, work), now, lost)
    decreases |work|
  {
    if work != [] {
      ItemKeepsSound(s, work[0]);
      StepMoves(s, work[0], now, lost);
      WorkMovesRows(Apply(s, work[0]), work[1..], now, lost);
      MovedTwice(s, Apply(s, work[0]), Worked(s, work), now, lost);
    }
  }

  /** A pass leaves rows outside the batch alone and schedules every attempted row whose results are
      taken at or after the batch clock, or not at all. */
  lemma PassMovesRows(s: State, p: Pass, lost: set<Key>)
    requires TableSound(s) && PassOk(s, p) && WorkStores(Fetched(s, p), p.work, lost)
    ensures var s' := After(s, p);
            && TableSound(s')
            && s'.logos.Keys == s.logos.Keys
            && (forall k <- Keys(p.batch) :: k in s'.logos)
            && (forall k <- Keys(p.batch) :: s'.logos[k] == s.logos[k] || MovedBehind(s'.logos[k], p.now))
            && (forall k <- Keys(p.batch) :: k !in lost ==> MovedBehind(s'.logos[k], p.now))
            && (forall k <- s.logos :: k !in Keys(p.batch) ==> s'.logos[k] == s.logos[k])
  {
    assert s.inflight + p.batch == p.batch;
    FetchKeepsSound(s, Fetch(p.now, p.batch));
    WorkMovesRows(Fetched(s, p), p.work, p.now, lost);
    BatchMoves(Fetched(s, p), After(s, p), p.batch, p.now, lost);
  }

  lemma BatchMoves(fetched: State, after: State, batch: seq<DueLogo>, now: int, lost: set<Key>)
    requires Moved(fetched, after, now, lost) && fetched.inflight == batch && after.inflight == []
    requires forall d <- batch :: d.key in fetched.logos
    ensures forall k <- Keys(batch) :: k in after.logos
    ensures forall k <- Keys(batch) :: k !in lost ==> MovedBehind(after.logos[k], now)
    ensures forall k <- fetched.logos :: k !in Keys(batch) ==> after.logos[k] == fetched.logos[k]
  {
    var keys := Keys(batch);
    forall k <- keys ensures k in after.logos && (k !in lost ==> MovedBehind(after.logos[k], now)) {
      var i :| 0 <= i < |keys| && keys[i] == k;
      assert batch[i] in fetched.inflight;
    }
    forall d <- batch ensures d.key in keys {
      var i :| 0 <= i < |batch| && batch[i] == d;
      assert keys[i] == d.key;
    }
  }

  lemma {:induction false} DistinctCount(t: Logos, batch: seq<Key>)
    requires forall i, j :: 0 <= i < j < |batch| ==> Before(t, batch[i], batch[j])
    ensures |set k | k in batch| == |batch|
  {
    if batch != [] {
      var n := |batch| - 1;
      DistinctCount(t, batch[..n]);
      assert batch == batch[..n] + [batch[n]];
      assert (set k | k in batch) == (set k | k in batch[..n]) + {batch[n]};
      assert batch[n] !in batch[..n];
    }
  }

  /** A batch has as many rows as are counted as due, up to its limit. */
  lemma BatchSizeIsDueCount(t: Logos, now: int, limit: nat, batch: seq<Key>)
    requires IsBatch(t, now, limit, batch)
    ensures |batch| == Min(|set k | k in t && Due(t, k, now)|, limit)
  {
    var due, fetched := set k | k in t && Due(t, k, now), set k | k in batch;
    DistinctCount(t, batch);
    SubsetSize(fetched, due);
    if |batch| < limit {
      assert fetched == due;
    }
  }

  /** A pass that does not attempt a due row takes a full batch from the rows ahead of it, and all of
      them except lost ones leave; nothing comes to stand ahead of it. */
  lemma PassShortensQueue(s: State, p: Pass, x: Key, lost: set<Key>)
    requires TableSound(s) && PassOk(s, p) && WorkStores(Fetched(s, p), p.work, lost)
    requires Due(s.logos, x, p.now - 1) && x !in Keys(p.batch)
    ensures var s' := After(s, p);
            var attempted := set k | k in Keys(p.batch);
            && Due(s'.logos, x, p.now - 1)
            && |attempted| == DUE_BATCH_SIZE && attempted <= Ahead(s.logos, x)
            && Ahead(s'.logos, x) <= Ahead(s.logos, x) - (attempted - lost)
  {
    var s', batch := After(s, p), Keys(p.batch);
    PassMovesRows(s, p, lost);
    assert Due(s.logos, x, p.now);
    DistinctCount(s.logos, batch);
    forall k <- Ahead(s'.logos, x) ensures k in Ahead(s.logos, x) && (k in batch ==> k in lost) {
      assert s'.logos[x] == s.logos[x];
      assert Before(s'.logos, k, x);
    }
  }

  lemma FewerRemain(ahead: set<Key>, ahead': set<Key>, attempted: set<Key>, lost: set<Key>)
    requires attempted <= ahead && ahead' <= ahead - (attempted - lost)
    ensures |ahead' - lost| + |attempted| - |ahead * lost| <= |ahead - lost|
    ensures |ahead' * lost| <= |ahead * lost|
  {
    var gone := attempted - lost;
    SubsetSize(attempted * lost, ahead * lost);
    assert attempted == gone + attempted * lost;
    SubsetSize((ahead' - lost) + gone, ahead - lost);
    SubsetSize(ahead' * lost, ahead * lost);
  }

  // ---- rows are attempted

  /** The number of passes that n rows can wait when u places of every batch stay taken. */
  function Rounds(n: nat, u: nat): (r: nat)
    requires u < DUE_BATCH_SIZE
    ensures r == n / (32 - u)
  {
    DivBounds(n, DUE_BATCH_SIZE - u);
    n / (DUE_BATCH_SIZE - u)
  }

  lemma RoundsDrop(n: nat, m: nat, u: nat)
    requires u < DUE_BATCH_SIZE && m + DUE_BATCH_SIZE - u <= n
    ensures Rounds(m, u) + 1 <= Rounds(n, u)
  {
  }

  lemma LaterPasses(states: seq<State>, passes: seq<Pass>)
    requires PassesOk(states, passes) && passes != []
    ensures PassesOk(states[1..], passes[1..]) && states[1] == After(states[0], passes[0])
    ensures forall lost :: PassesStore(states, passes, lost) ==> PassesStore(states[1..], passes[1..], lost)
    ensures forall lost :: PassesLose(states, passes, lost) ==> PassesLose(states[1..], passes[1..], lost)
  {
    assert forall i :: 0 <= i < |passes| - 1 ==> passes[1..][i] == passes[i + 1] && states[1..][i] == states[i + 1];
  }

  /** A row due strictly before the first batch clock, with k rows ahead of it of which at most u < 32 are
      ever lost, is attempted within floor((k - u) / (32 - u)) + 1 passes. */
  lemma {:induction false} DueLogoIsAttempted(
    states: seq<State>, passes: seq<Pass>, x: Key, lost: set<Key>, u: nat) returns (i: nat)
    requires PassesOk(states, passes) && PassesStore(states, passes, lost)
    requires TableSound(states[0]) && |Ahead(states[0].logos, x) * lost| <= u < DUE_BATCH_SIZE
    requires |passes| > Rounds(|Ahead(states[0].logos, x) - lost|, u)
    requires Due(states[0].logos, x, passes[0].now - 1)
    ensures i <= Rounds(|Ahead(states[0].logos, x) - lost|, u) && i < |passes| && x in Keys(passes[i].batch)
    decreases |passes|
  {
    if x in Keys(passes[0].batch) {
      return 0;
    }
    WaitingPass(states[0], passes[0], x, lost, u);
    LaterPasses(states, passes);
    var later := DueLogoIsAttempted(states[1..], passes[1..], x, lost, u);
    i := later + 1;
  }

  lemma WaitingPass(s: State, p: Pass, x: Key, lost: set<Key>, u: nat)
    requires TableSound(s) && PassOk(s, p) && WorkStores(Fetched(s, p), p.work, lost)
    requires |Ahead(s.logos, x) * lost| <= u < DUE_BATCH_SIZE
    requires Due(s.logos, x, p.now - 1) && x !in Keys(p.batch)
    ensures var s' := After(s, p);
            && TableSound(s') && Due(s'.logos, x, p.now - 1)
            && |Ahead(s'.logos, x) * lost| <= u
            && Rounds(|Ahead(s'.logos, x) - lost|, u) + 1 <= Rounds(|Ahead(s.logos, x) - lost|, u)
  {
    var ahead, ahead' := Ahead(s.logos, x), Ahead(After(s, p).logos, x);
    PassMovesRows(s, p, lost);
    PassShortensQueue(s, p, x, lost);
    FewerRemain(ahead, ahead', (set k | k in Keys(p.batch)), lost);
    RoundsDrop(|ahead - lost|, |ahead' - lost|, u);
  }

  /** If nothing is lost, k rows ahead mean at most floor(k / 32) + 1 passes. */
  lemma NoDueLogoIsStarved(states: seq<State>, passes: seq<Pass>, x: Key) returns (i: nat)
    requires PassesOk(states, passes) && PassesStore(states, passes, {})
    requires TableSound(states[0]) && |passes| > |Ahead(states[0].logos, x)| / 32
    requires Due(states[0].logos, x, passes[0].now - 1)
    ensures i <= |Ahead(states[0].logos, x)| / 32 && i < |passes| && x in Keys(passes[i].batch)
  {
    assert Ahead(states[0].logos, x) - {} == Ahead(states[0].logos, x);
    i := DueLogoIsAttempted(states, passes, x, {}, 0);
  }

  // ---- rows are starved

  /** The rows whose results are always lost stand ahead of x and are due. */
  ghost predicate Blocked(t: Logos, x: Key, lost: set<Key>, now: int) {
    Due(t, x, now) && forall k <- lost :: Before(t, k, x)
  }

  lemma {:induction false} WorkKeepsLost(s: State, work: seq<Step>, now: int, lost: set<Key>, x: Key)
    requires TableSound(s) && WorkOk(s, work, now) && WorkLoses(s, work, lost)
    requires forall d <- s.inflight :: d.key != x
    ensures TableSound(Worked(s, work))
    ensures forall k <- s.logos | k in lost || k == x ::
              k in Worked(s, work).logos && Worked(s, work).logos[k] == s.logos[k]
    decreases |work|
  {
    if work != [] {
      ItemKeepsSound(s, work[0]);
      assert s.inflight[work[0].i] in s.inflight;
      WorkKeepsLost(Apply(s, work[0]), work[1..], now, lost, x);
    }
  }

  /** Thirty-two of them fill every batch. */
  lemma BatchIsTaken(s: State, p: Pass, x: Key, lost: set<Key>)
    requires PassOk(s, p) && Blocked(s.logos, x, lost, p.now) && |lost| >= DUE_BATCH_SIZE
    ensures x !in Keys(p.batch)
  {
    var batch := Keys(p.batch);
    if x in batch {
      var at :| 0 <= at < |batch| && batch[at] == x;
      forall k <- lost ensures k in batch {
        assert Before(s.logos, k, x) && Due(s.logos, k, p.now);
        assert k !in batch ==> Before(s.logos, batch[at], k);
      }
      DistinctCount(s.logos, batch);
      assert x !in lost;
      SubsetSize(lost + {x}, set k | k in batch);
    }
  }

  lemma NotInBatch(batch: seq<DueLogo>, x: Key)
    requires x !in Keys(batch)
    ensures forall d <- batch :: d.key != x
  {
    forall d <- batch ensures d.key != x {
      var i :| 0 <= i < |batch| && batch[i] == d;
      assert Keys(batch)[i] == d.key;
    }
  }

  lemma BlockedPass(s: State, p: Pass, x: Key, lost: set<Key>)
    requires TableSound(s) && PassOk(s, p) && WorkLoses(Fetched(s, p), p.work, lost)
    requires Blocked(s.logos, x, lost, p.now) && |lost| >= DUE_BATCH_SIZE
    ensures x !in Keys(p.batch)
    ensures TableSound(After(s, p)) && Blocked(After(s, p).logos, x, lost, p.now)
  {
    BatchIsTaken(s, p, x, lost);
    assert s.inflight + p.batch == p.batch;
    NotInBatch(p.batch, x);
    FetchKeepsSound(s, Fetch(p.now, p.batch));
    WorkKeepsLost(Fetched(s, p), p.work, p.now, lost, x);
  }

  /** With 32 or more rows ahead that are always lost, a row is never attempted. */
  lemma {:induction false} BlockedLogoIsStarved(states: seq<State>, passes: seq<Pass>, x: Key, lost: set<Key>)
    requires PassesOk(states, passes) && PassesLose(states, passes, lost)
    requires TableSound(states[0]) && |lost| >= 32
    requires passes != [] ==> Blocked(states[0].logos, x, lost, passes[0].now)
    ensures forall i :: 0 <= i < |passes| ==> x !in Keys(passes[i].batch)
    decreases |passes|
  {
    if passes != [] {
      BlockedPass(states[0], passes[0], x, lost);
      LaterPasses(states, passes);
      BlockedLogoIsStarved(states[1..], passes[1..], x, lost);
      assert forall i :: 0 < i < |passes| ==> passes[i] == passes[1..][i - 1];
    }
  }

  /** The exact condition. Let the rows that are lost be the same in every pass and stand ahead of a due
      row. In passes enough for the rows that are not, the row is attempted if and only if fewer than 32
      are lost. */
  lemma AttemptedExactlyBelowBatchSize(states: seq<State>, passes: seq<Pass>, x: Key, lost: set<Key>)
    requires PassesOk(states, passes)
    requires PassesStore(states, passes, lost) && PassesLose(states, passes, lost)
    requires TableSound(states[0]) && |passes| > |Ahead(states[0].logos, x) - lost|
    requires Blocked(states[0].logos, x, lost, passes[0].now - 1)
    ensures (exists i :: 0 <= i < |passes| && x in Keys(passes[i].batch)) <==> |lost| < 32
  {
    var ahead := Ahead(states[0].logos, x);
    if |lost| < DUE_BATCH_SIZE {
      SubsetSize(ahead * lost, lost);
      RoundsAtMost(|ahead - lost|, |lost|);
      var i := DueLogoIsAttempted(states, passes, x, lost, |lost|);
    } else {
      BlockedLogoIsStarved(states, passes, x, lost);
    }
  }

  lemma RoundsAtMost(n: nat, u: nat)
    requires u < DUE_BATCH_SIZE
    ensures Rounds(n, u) <= n
  {
    var d := DUE_BATCH_SIZE - u;
    DivBounds(n, d);
    MulMonotone(1, d, n / d);
  }
}
