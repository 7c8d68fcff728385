/** price_api/core/limits.py: weighted admission limiters and their reservations. */
module Limits {
  import opened Options

  /** What a waiting task finds when the condition variable wakes it: the clock, the units that
      other tasks hold by then, and whether the wait timed out instead of being notified. */
  datatype Wake = Notified(now: int, used: nat) | TimedOut(used: nat)

  /** The units a set of reservations stands for. */
  ghost function Units(live: set<LimitReservation>): int {
    if live == {} then 0
    else
      var r :| r in live;
      r.units + Units(live - {r})
  }

  lemma {:induction false} UnitsRemove(live: set<LimitReservation>, x: LimitReservation)
    requires x in live
    ensures Units(live) == x.units + Units(live - {x})
  {
    var r :| r in live && Units(live) == r.units + Units(live - {r});
    if r != x {
      UnitsRemove(live - {r}, x);
      UnitsRemove(live - {x}, r);
      assert live - {r} - {x} == live - {x} - {r};
    }
  }

  lemma {:induction false} UnitsNonNegative(live: set<LimitReservation>)
    requires forall r :: r in live ==> r.units >= 0
    ensures Units(live) >= 0
  {
    if live != {} {
      var r :| r in live && Units(live) == r.units + Units(live - {r});
      UnitsNonNegative(live - {r});
    }
  }

  class WeightedLimiter {
    const capacity: int
    var used: int
    /** The reservations handed out and not yet released. */
    ghost var live: set<LimitReservation>

    ghost predicate Valid()
      reads this, live
    {
      && (forall r :: r in live ==> r.limiter == this && r.units >= 0 && !r.released)
      && used == Units(live)
      && used <= capacity
    }

    constructor (capacity: int)
      requires capacity > 0
      ensures Valid() && this.capacity == capacity && used == 0 && live == {}
    {
      this.capacity := capacity;
      used, live := 0, {};
    }

    /** The critical section of `try_acquire`, entered when the units fit. */
    method Grant(units: int) returns (r: LimitReservation)
      requires Valid() && 0 <= units && used + units <= capacity
      modifies this
      ensures Valid() && fresh(r) && r.units == units && r.limiter == this && !r.released
      ensures live == old(live) + {r} && used == old(used) + units
    {
      r := new LimitReservation(this, units);
      used := used + units;
      live := live + {r};
      UnitsRemove(live, r);
      assert live - {r} == old(live);
    }

    /** `try_acquire` with no time to wait: all or nothing. */
    method TryAcquire(units: int) returns (r: Option<LimitReservation>)
      requires Valid()
      modifies this
      ensures Valid()
      ensures r.Some? <==> units <= 0 || old(used) + units <= capacity
      ensures r.Some? ==> fresh(r.value) && r.value.limiter == this && r.value.units == Max(units, 0)
                          && live == old(live) + {r.value} && used == old(used) + Max(units, 0)
      ensures r.None? ==> live == old(live) && used == old(used)
    {
      if units <= 0 {
        UnitsNonNegative(live);
        var empty := Grant(0);
        return Some(empty);
      }
      if units > capacity {
        UnitsNonNegative(live);
        return None;
      }
      if used + units > capacity {
        return None;
      }
      var reservation := Grant(units);
      return Some(reservation);
    }

    method Release(units: int)
      modifies this`used
      ensures used == if units <= 0 then old(used) else Max(0, old(used) - units)
    {
      if units <= 0 {
        return;
      }
      used := Max(0, used - units);
    }
  }

  /** The wait loop of `try_acquire` as a decision: given the units in use when it starts and what
      each wake-up finds, how many wake-ups pass before the units are granted, and the units in use when
      it answers. It gives up when the wait times out or the deadline has passed; it does so although the
      units would fit exactly if it is the wait that timed out. */
  method AwaitUnits(capacity: int, units: int, timeoutMs: int, start: int, used: nat, wakes: seq<Wake>)
    returns (granted: Option<nat>, inUse: nat)
    requires 0 < units <= capacity
    ensures granted.Some? ==> GrantedAfter(capacity, units, timeoutMs, start, used, wakes, granted.value)
    ensures granted.Some? ==> inUse + units <= capacity
    ensures granted.None? ==> forall k: nat :: !GrantedAfter(capacity, units, timeoutMs, start, used, wakes, k)
    ensures granted.None? && inUse + units <= capacity
            <==> exists k: nat :: TimesOutWithRoom(capacity, units, timeoutMs, start, used, wakes, k)
  {
    var deadline := start + Max(timeoutMs, 0);
    var n, now := 0, start;
    inUse := used;
    while inUse + units > capacity
      invariant n <= |wakes| && UsedAfter(used, wakes, n) == Some(inUse) && now == ClockAfter(start, wakes, n)
      invariant forall k: nat :: k < n ==> MayWait(timeoutMs, start, wakes, k)
      invariant forall k: nat :: k < n ==> !FitsAfter(capacity, units, used, wakes, k)
      decreases |wakes| - n
    {
      if timeoutMs <= 0 || deadline - now <= 0 || n == |wakes| {
        assert !MayWait(timeoutMs, start, wakes, n);
        assert !FitsAfter(capacity, units, used, wakes, n);
        TimesOutOnlyHere(capacity, units, timeoutMs, start, used, wakes, n);
        return None, inUse;
      }
      if wakes[n].TimedOut? {
        assert !MayWait(timeoutMs, start, wakes, n);
        assert !FitsAfter(capacity, units, used, wakes, n);
        inUse := wakes[n].used;
        assert inUse + units <= capacity
          ==> TimesOutWithRoom(capacity, units, timeoutMs, start, used, wakes, n);
        TimesOutOnlyHere(capacity, units, timeoutMs, start, used, wakes, n);
        return None, inUse;
      }
      now, inUse := wakes[n].now, wakes[n].used;
      n := n + 1;
    }
    granted := Some(n);
    assert FitsAfter(capacity, units, used, wakes, n);
    TimesOutOnlyHere(capacity, units, timeoutMs, start, used, wakes, n);
  }

  lemma TimesOutOnlyHere(
      capacity: int, units: int, timeoutMs: int, start: int, used: nat, wakes: seq<Wake>, n: nat)
    requires forall k: nat :: k < n ==> MayWait(timeoutMs, start, wakes, k)
    requires FitsAfter(capacity, units, used, wakes, n) || !MayWait(timeoutMs, start, wakes, n)
    ensures forall k: nat :: TimesOutWithRoom(capacity, units, timeoutMs, start, used, wakes, k) ==> k == n
    ensures FitsAfter(capacity, units, used, wakes, n)
            ==> !TimesOutWithRoom(capacity, units, timeoutMs, start, used, wakes, n)
  {
    forall k: nat | TimesOutWithRoom(capacity, units, timeoutMs, start, used, wakes, k) ensures k == n {
      assert k > n ==> MayWait(timeoutMs, start, wakes, n) && !FitsAfter(capacity, units, used, wakes, n);
      assert k < n ==> MayWait(timeoutMs, start, wakes, k);
    }
  }

  /** The wait times out after k wake-ups, with room for the units by then. */
  ghost predicate TimesOutWithRoom(
      capacity: int, units: int, timeoutMs: int, start: int, used: nat, wakes: seq<Wake>, k: nat) {
    && timeoutMs > 0 && ClockAfter(start, wakes, k) < start + timeoutMs
    && k < |wakes| && wakes[k].TimedOut? && wakes[k].used + units <= capacity
    && (forall j: nat :: j < k ==> MayWait(timeoutMs, start, wakes, j))
    && (forall j: nat :: j <= k ==> !FitsAfter(capacity, units, used, wakes, j))
  }

  /** One unit is taken when the wait starts and free when it times out: it is not taken. */
  lemma TimedOutWaitMissesFreeUnit()
    ensures var wakes := [TimedOut(0)];
            && TimesOutWithRoom(1, 1, 10, 0, 1, wakes, 0)
            && forall k: nat :: !GrantedAfter(1, 1, 10, 0, 1, wakes, k)
  {
    var wakes := [TimedOut(0)];
    assert !FitsAfter(1, 1, 1, wakes, 0);
    assert !MayWait(10, 0, wakes, 0);
    forall k: nat ensures !GrantedAfter(1, 1, 10, 0, 1, wakes, k) {
      assert UsedAfter(1, wakes, k) == if k == 0 then Some(1) else None;
    }
  }

  function UsedAfter(used: nat, wakes: seq<Wake>, k: nat): Option<nat> {
    if k == 0 then Some(used)
    else if k <= |wakes| && wakes[k - 1].Notified? then Some(wakes[k - 1].used)
    else None
  }

  function ClockAfter(start: int, wakes: seq<Wake>, k: nat): int {
    if 0 < k <= |wakes| && wakes[k - 1].Notified? then wakes[k - 1].now else start
  }

  /** The units fit in what is left after k wake-ups. */
  predicate FitsAfter(capacity: int, units: int, used: nat, wakes: seq<Wake>, k: nat) {
    var inUse := UsedAfter(used, wakes, k);
    inUse.Some? && inUse.value + units <= capacity
  }

  /** After k wake-ups there is time left to wait, and the next wake-up is a notification. */
  predicate MayWait(timeoutMs: int, start: int, wakes: seq<Wake>, k: nat) {
    timeoutMs > 0 && ClockAfter(start, wakes, k) < start + timeoutMs && k < |wakes| && wakes[k].Notified?
  }

  /** The k-th wake-up is the first to find room, and the task was still waiting then. */
  ghost predicate GrantedAfter(
      capacity: int, units: int, timeoutMs: int, start: int, used: nat, wakes: seq<Wake>, k: nat) {
    && FitsAfter(capacity, units, used, wakes, k)
    && (forall j: nat :: j < k ==> MayWait(timeoutMs, start, wakes, j))
    && (forall j: nat :: j < k ==> !FitsAfter(capacity, units, used, wakes, j))
  }

  class LimitReservation {
    const limiter: WeightedLimiter
    const units: int
    var released: bool

    constructor (limiter: WeightedLimiter, units: int)
      ensures this.limiter == limiter && this.units == units && !released
    {
      this.limiter, this.units, released := limiter, units, false;
    }

    /** Releasing gives back exactly the units of the reservation, once: the truncation at zero in
        `_release` never bites, and a second release changes nothing. */
    method Release()
      requires limiter.Valid()
      requires !released ==> this in limiter.live
      modifies this, limiter
      ensures limiter.Valid() && released
      ensures limiter.live == old(limiter.live) - {this}
      ensures limiter.used == old(limiter.used) - (if old(released) then 0 else units)
    {
      if released {
        return;
      }
      UnitsRemove(limiter.live, this);
      UnitsNonNegative(limiter.live - {this});
      released := true;
      limiter.Release(units);
      limiter.live := limiter.live - {this};
    }
  }

  class CapacityLimiters {
    const globalLimiter: WeightedLimiter
    const perProviderUnits: int
    var providerLimiters: map<string, WeightedLimiter>

    ghost predicate Valid()
      reads this
    {
      && perProviderUnits > 0
      && (forall k :: k in providerLimiters ==> providerLimiters[k].capacity == perProviderUnits)
      && (forall k, l :: k in providerLimiters && l in providerLimiters && k != l
                         ==> providerLimiters[k] != providerLimiters[l])
    }

    constructor (globalUnits: int, perProviderUnits: int)
      requires globalUnits > 0 && perProviderUnits > 0
      ensures Valid() && providerLimiters == map[] && globalLimiter.capacity == globalUnits
    {
      globalLimiter := new WeightedLimiter(globalUnits);
      this.perProviderUnits := perProviderUnits;
      providerLimiters := map[];
    }

    /** Get or create: one limiter per provider, the same one every time. */
    method ProviderLimiter(providerId: string) returns (limiter: WeightedLimiter)
      requires Valid()
      modifies this
      ensures Valid()
      ensures var key := LimiterKey(providerId);
              providerLimiters == old(providerLimiters)[key := limiter]
              && (key in old(providerLimiters) ==> providerLimiters == old(providerLimiters))
              && (key !in old(providerLimiters) ==> fresh(limiter) && limiter.used == 0)
      ensures var name := if providerId == "" then "unknown" else providerId;
              && name in providerLimiters && providerLimiters[name] == limiter
              && (forall other :: other != name ==>
                    (other in providerLimiters <==> other in old(providerLimiters)))
              && (forall other <- old(providerLimiters) :: other != name ==>
                    other in providerLimiters && providerLimiters[other] == old(providerLimiters)[other])
    {
      var key := LimiterKey(providerId);
      if key in providerLimiters {
        limiter := providerLimiters[key];
      } else {
        limiter := new WeightedLimiter(perProviderUnits);
        providerLimiters := providerLimiters[key := limiter];
      }
    }
  }

  function LimiterKey(providerId: string): string {
    if providerId == "" then "unknown" else providerId
  }
}
