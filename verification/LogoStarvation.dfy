/** A concrete starved logo: thirty-two addresses whose source answers with status 999, which no write of
    the table can hold, or with a Retry-After header on which the acquisition raises, and a thirty-third
    that is due behind them. */
module LogoStarvation {
  import opened Options
  import opened LogoTable
  import opened LogoCache
  import opened LogoScheduler
  import opened LogoFairness

  const ODD_STATUS := Unobtainable(Some(999), "http_999")
  const WAITING := Key(1, DUE_BATCH_SIZE)

  function Enrolled(n: nat): Logos {
    map i | 0 <= i < n :: Key(1, i) := NEW_ROW
  }

  function Stuck(): (keys: set<Key>)
    ensures |keys| == DUE_BATCH_SIZE
  {
    StuckSize(DUE_BATCH_SIZE);
    set i | 0 <= i < DUE_BATCH_SIZE :: Key(1, i)
  }

  lemma {:induction false} StuckSize(n: nat)
    ensures |set i | 0 <= i < n :: Key(1, i)| == n
  {
    if n > 0 {
      StuckSize(n - 1);
      assert (set i | 0 <= i < n :: Key(1, i)) == (set i | 0 <= i < n - 1 :: Key(1, i)) + {Key(1, n - 1)};
    }
  }

  function Batch(): (batch: seq<DueLogo>)
    ensures |batch| == DUE_BATCH_SIZE
    ensures forall i :: 0 <= i < DUE_BATCH_SIZE ==> batch[i] == DueLogo(Key(1, i), 0)
  {
    seq(DUE_BATCH_SIZE, i => DueLogo(Key(1, i), 0))
  }

  predicate Fails(step: Step) {
    step == Process(0, ODD_STATUS, 1, 0) || step == Raise(0)
  }

  function Answers(n: nat, step: Step): seq<Step> {
    seq(n, _ => step)
  }

  function SamePasses(n: nat, step: Step): seq<Pass> {
    seq(n, _ => FailingPass(step))
  }

  function Enrolments(n: nat): seq<Step> {
    seq(n, i => Observe(Key(1, i)))
  }

  lemma OneMoreEnrolled(n: nat)
    ensures Observed(Enrolled(n), Key(1, n)) == Enrolled(n + 1)
    ensures Enrolments(n) + [Observe(Key(1, n))] == Enrolments(n + 1)
  {
    assert Key(1, n) !in Enrolled(n);
    assert Enrolled(n)[Key(1, n) := NEW_ROW] == Enrolled(n + 1);
  }

  /** The table is reached by enrolling thirty-three addresses. */
  lemma {:induction false} EnrolledIsReached(n: nat)
    ensures Feasible(Enrolments(n)) && Exec(Enrolments(n)) == EMPTY.(logos := Enrolled(n))
  {
    if n == 0 {
      assert Enrolled(0) == map[];
    } else {
      EnrolledIsReached(n - 1);
      OneMoreEnrolled(n - 1);
      Extended(Enrolments(n - 1), Observe(Key(1, n - 1)));
    }
  }

  /** The table as it is before and after every pass. */
  predicate Waits(s: State) {
    s.logos == Enrolled(DUE_BATCH_SIZE + 1) && s.streak == map[]
  }

  lemma {:induction false} AnswersAreLost(s: State, n: nat, step: Step)
    requires Fails(step) && Waits(s) && n <= DUE_BATCH_SIZE && s.inflight == Batch()[DUE_BATCH_SIZE - n..]
    ensures WorkOk(s, Answers(n, step), 1) && WorkLoses(s, Answers(n, step), Stuck())
    ensures Waits(Worked(s, Answers(n, step))) && Worked(s, Answers(n, step)).inflight == []
    decreases n
  {
    if n > 0 {
      assert Answers(n, step)[0] == step && Answers(n, step)[1..] == Answers(n - 1, step);
      assert !Stores(s, step);
      assert WithoutItem(s.inflight, 0) == Batch()[DUE_BATCH_SIZE - (n - 1)..];
      AnswersAreLost(Apply(s, step), n - 1, step);
    }
  }

  lemma BatchIsDue()
    ensures IsBatch(Enrolled(DUE_BATCH_SIZE + 1), 1, DUE_BATCH_SIZE, Keys(Batch()))
  {
    var t, keys := Enrolled(DUE_BATCH_SIZE + 1), Keys(Batch());
    forall i | 0 <= i < DUE_BATCH_SIZE ensures Key(1, i) in keys {
      assert keys[i] == Key(1, i);
    }
    forall k | Due(t, k, 1) && k !in keys ensures k == WAITING {
      assert 0 <= k.address <= DUE_BATCH_SIZE;
    }
  }

  lemma FetchIsEnabled(s: State)
    requires Waits(s) && s.inflight == []
    ensures Enabled(s, Fetch(1, Batch()))
  {
    BatchIsDue();
    forall d <- Batch() ensures d.key in s.logos && s.logos[d.key] == NEW_ROW && d.failureCount == 0 {
      var i :| 0 <= i < DUE_BATCH_SIZE && Batch()[i] == d;
    }
  }

  lemma PassChangesNothing(s: State, p: Pass, step: Step)
    requires Fails(step) && Waits(s) && s.inflight == [] && p == Pass(1, Batch(), Answers(DUE_BATCH_SIZE, step))
    ensures PassOk(s, p) && WorkLoses(Fetched(s, p), p.work, Stuck())
    ensures Waits(After(s, p)) && After(s, p).inflight == []
  {
    FetchIsEnabled(s);
    var fetched := Fetched(s, p);
    assert fetched.inflight == Batch()[0..];
    AnswersAreLost(fetched, DUE_BATCH_SIZE, step);
  }

  function StateAt(s: State, p: Pass, n: nat): State {
    if n == 0 then s else After(StateAt(s, p, n - 1), p)
  }

  function FailingPass(step: Step): Pass {
    Pass(1, Batch(), Answers(DUE_BATCH_SIZE, step))
  }

  predicate Idle(s: State) {
    Waits(s) && s.inflight == []
  }

  /** A pass that every idle table takes, and that leaves it idle. */
  ghost predicate Harmless(p: Pass) {
    forall t :: Idle(t) ==> PassOk(t, p) && WorkLoses(Fetched(t, p), p.work, Stuck()) && Idle(After(t, p))
  }

  lemma StaysIdle(t: State, p: Pass)
    requires Idle(t) && Harmless(p)
    ensures Idle(After(t, p))
  {
  }

  /** Any number of such passes leave the table idle. */
  lemma {:induction false} IdleThroughout(s: State, p: Pass, n: nat)
    requires Idle(s) && Harmless(p)
    ensures Idle(StateAt(s, p, n))
  {
    if n > 0 {
      IdleThroughout(s, p, n - 1);
      StaysIdle(StateAt(s, p, n - 1), p);
    }
  }

  function StatesAlong(s: State, p: Pass, n: nat): (states: seq<State>)
    ensures |states| == n + 1 && forall i :: 0 <= i <= n ==> states[i] == StateAt(s, p, i)
  {
    seq(n + 1, i requires 0 <= i <= n => StateAt(s, p, i))
  }

  lemma AlongIsTaken(s: State, p: Pass, n: nat, i: nat)
    requires Idle(s) && Harmless(p) && i < n
    ensures var states := StatesAlong(s, p, n);
            && PassOk(states[i], p) && WorkLoses(Fetched(states[i], p), p.work, Stuck())
            && states[i + 1] == After(states[i], p)
  {
    IdleThroughout(s, p, i);
  }

  lemma PassesFollow(s: State, p: Pass, passes: seq<Pass>)
    requires Idle(s) && Harmless(p) && forall i :: 0 <= i < |passes| ==> passes[i] == p
    ensures var states := StatesAlong(s, p, |passes|);
            PassesOk(states, passes) && PassesLose(states, passes, Stuck())
  {
    var states := StatesAlong(s, p, |passes|);
    forall i | 0 <= i < |passes|
      ensures PassOk(states[i], p) && WorkLoses(Fetched(states[i], p), p.work, Stuck())
      ensures states[i + 1] == After(states[i], p)
    {
      AlongIsTaken(s, p, |passes|, i);
    }
  }

  lemma PassesRepeat(s: State, n: nat, step: Step) returns (states: seq<State>)
    requires Fails(step) && Idle(s)
    ensures PassesOk(states, SamePasses(n, step)) && PassesLose(states, SamePasses(n, step), Stuck())
    ensures states[0] == s
  {
    FailingPassIsHarmless(step);
    states := StatesAlong(s, FailingPass(step), n);
    PassesFollow(s, FailingPass(step), SamePasses(n, step));
  }

  lemma FailingPassIsHarmless(step: Step)
    requires Fails(step)
    ensures Harmless(FailingPass(step))
  {
    var p := FailingPass(step);
    forall t | Idle(t)
      ensures PassOk(t, p) && WorkLoses(Fetched(t, p), p.work, Stuck()) && Idle(After(t, p))
    {
      PassChangesNothing(t, p, step);
    }
  }

  /** However many passes follow, the due row behind them is in none of their batches. */
  lemma StatusStarvesDueLogo(s: State, n: nat, step: Step) returns (states: seq<State>)
    requires Fails(step) && Idle(s)
    ensures states != [] && states[0] == s && Due(s.logos, WAITING, 0) && PassesOk(states, SamePasses(n, step))
    ensures forall i :: 0 <= i < n ==> WAITING !in Keys(SamePasses(n, step)[i].batch)
  {
    states := PassesRepeat(s, n, step);
    assert forall k <- s.logos :: s.logos[k] == NEW_ROW;
    BlockedLogoIsStarved(states, SamePasses(n, step), WAITING, Stuck());
  }
}
