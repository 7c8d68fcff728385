# Proofs about the price aggregator

A Dafny 4.11 model of the stateful and arithmetic cores of the price and quote aggregator, with
proofs over every input, every history or every interleaving. `dafny verify dfyconfig.toml` checks it.

- **Admission, fan-out and circuit breaker.** `Circuit` holds the breaker as a class, each method tied
  to a one-scope specification; `CircuitTable` spells that out field by field for every status and error
  kind, and `CircuitHistory` and `CircuitProbes` prove what holds over histories.
  `Limits` holds the limiters and reservations as classes with the set of live reservations as ghost
  state. `ProviderRunner` is a transition system: any number of runs share the limiters, the breaker
  and a clock, and a step is at most the code between two suspension points. Where the code does more
  without suspending, such as recording all results of a run, the model takes one step per item and
  lets other runs in between; its schedules include those of the program. `RunInvariant` and
  `RunnerSafety` prove what each step keeps, `RunnerTheorems` what follows for every schedule,
  `RunnerResults` that a plugin's answer reaches the caller unchanged,
  `RunnerProgress` that every run can end and how soon, `RunnerHistory` that the breaker's histories are
  those of the schedules, `RunnerProbes` how many half-open probes there really are, with a schedule of
  too many in `RunnerExcessProbes`, and `RunnerLostUnits` what a cancelled release costs (`RunnerScenes` holds
  what their schedules share).
- **Logo acquisition.** `LogoTable` and `LogoCache` hold the table with its CHECK constraints and the
  store as a class; `LogoScheduler` is the machine of enrolments, list changes and passes with its row
  invariant, refused writes and overlapping passes included; `LogoFairness` proves when a due row is
  attempted and when it is starved, `LogoStarvation` gives an instance of the latter; `LogoShortcuts` proves that the two
  skip-if-unchanged paths agree with the plain write.
- **Vault detection and conversion.** `LruTtl` refines an unbounded map by a bounded, expiring,
  least-recently-used one; `VaultCache` applies it to the two detection maps; `VaultMath` bounds the
  rounding; `QuoteResolution` converts quotes in place.
- **Rate limiters.** `KeyRateLimiter` and `AnonLimiter` compare each table with a log that never forgets.
- **If-None-Match.** `IfNoneMatch` is the scanner, and a printer of lists that covers every string.
- **Transport, order, summary, numbers.** `HttpClients` and `HttpRecycling`, `Selection`, `QuoteSummary`
  and `AggregateAnswer` (which joins them to the runs and to quote resolution), `TokenDecimals`, `PositiveInts`.
- **Shared.** `Options`, `ProviderModels`, `Collections`, `Arithmetic`, `Sorting`, and `SlidingWindow`, the pruned
  deque of time stamps that the breaker and the transport both keep.

Times are integers: milliseconds in the runner, the breaker, the logo store, the vault caches and the
transport, seconds in the rate limiters. Python's `//` and `%` have positive divisors throughout, where
they agree with Dafny's.

Results that differ from what one might expect of the code:

- A result or release of a call admitted before the circuit opened also frees a probe of the half-open
  period (`price_api/core/circuit.py:77-78`, `106-112`). `RunnerExcessProbes` has a schedule with two
  probes where one is allowed; `RunnerProbes` has the exact number of probes and the exact condition for
  it to stay within the probe count. What holds in every schedule is the counter's own invariant and
  that it cannot wedge.
- A reservation is marked released before its units are given back (`price_api/core/limits.py:61-65`). A
  first cancellation that arrives while a release waits for a contended lock loses those units and the
  ones after them for good (`RunnerLostUnits`); `NothingLeaks` holds exactly when this does not happen.
- The acquirer passes any HTTP status on and the table refuses those outside 100 to 599
  (`price_api/token_metadata/logo_acquirer.py:172-184`, `price_api/token_metadata/cache.py:649`). It also
  raises on a Retry-After header that `isdigit()` accepts and `int()` does not
  (`price_api/token_metadata/logo_acquirer.py:330-331`). Either way the row keeps its place at the head of
  the queue: 32 of them starve everything behind them, fewer only slow it down. The exception also ends
  its pass early, so that passes can overlap; then a row with an image can be left scheduled, and a
  failure count can be stale.
- `Limits.AwaitUnits`: a timed-out wait returns without looking again, so units that came free at that
  moment are not taken (`price_api/core/limits.py:39-42`); it is the only way to be refused with room.
- The round-trip loss of a conversion is at most ceil((S-1)/A), tighter than ceil(S/A), and attained.
- Both rate limiters count like a log exactly when nothing of the window was deleted. Two lemmas give
  inputs for which it was: a request two days late, and a clock that steps back.
- The If-None-Match scanner reads the quoted tag `"*"` as the wildcard; it departs from the weak
  comparison exactly on lists that have this tag and not the content's.
- `parse_positive_int` accepts one line break after the number, because `$` matches before it.
- The transport closes a client a second time if it is used after `close()` and recycles; every client
  is closed exactly once if and only if nothing replaces the client after a single close.
- Two overlapping detections of one key can leave it in both vault maps; the exact condition is proved.

## Model

| member | source | states |
|---|---|---|
| RunnerTheorems.CapacityIsRespected | price_api/core/provider_runner.py:149-232 | In every feasible schedule of any number of runs, each provider counter equals the unreleased reservations of that limiter and stays within its units, the global counter equals the units of the runs that hold them and stays within capacity, calls in flight never exceed either, and no run has more calls in flight than its fan-out |
| RunnerTheorems.NothingLeaks | price_api/core/provider_runner.py:218-232 | When every run has ended, whatever is still counted belongs to runs that were cancelled while a release waited for a limiter's lock, and all counters are zero if and only if there was no such run |
| RunnerLostUnits.LostUnitsStayLost | price_api/core/limits.py:55-65 | The units of such a run are counted against the provider in every continuation |
| RunnerLostUnits.AllUnitsLostBlocksProvider | price_api/core/limits.py:24-45 | When a provider's units are all lost, no call to it is admitted in any continuation |
| RunnerLostUnits.CancelledReleaseLosesUnit | price_api/core/provider_runner.py:604-608 | A feasible schedule in which every run has ended and a unit stays counted |
| RunnerTheorems.BreakerNeverWedges | price_api/core/provider_runner.py:161-177 | In every reachable state the half-open counter of each scope is between 0 and the probe count and at most the unsettled probes of the current half-open period; with none of those outstanding and `open_until` passed, `allow` answers true |
| RunnerTheorems.PermissionsSettledOnce | price_api/core/provider_runner.py:212-225 | Each permission a run obtained is either outstanding or settled, never both; once the run has ended each has been recorded or released exactly once |
| RunnerTheorems.OneResultPerPlugin | price_api/core/provider_runner.py:234-280 | A run that returns yields exactly one result per plugin under its own id, and every success describes exactly the request that was made |
| RunnerProbes.ProbesAreCounterPlusExcess | price_api/core/circuit.py:48-87 | In every schedule the number of probes that are really out is the half-open counter plus the places freed too many in the period, which are never negative |
| RunnerProbes.ProbesWithinCountIff | price_api/core/circuit.py:48-64 | In every schedule the probes that are really out are within the probe count if and only if the places freed too many fit those the counter still has free |
| RunnerProbes.ProbesStayWithinCount | price_api/core/circuit.py:48-64 | In particular they are while nothing but probes of the period has been settled in it in a way that frees a place |
| RunnerProbes.StepMovesGap | price_api/core/circuit.py:77-87 | A step moves the difference by one for a place freed without a probe ending, by minus one for a probe ending whose place was freed before, and a new period closes it |
| RunnerProgress.EveryRunCanEnd | price_api/core/provider_runner.py:149-232 | From every reachable state each run can end by steps of its own alone, whatever the breaker and other runs do, within its rank and without ever giving up on a limiter that has room |
| RunnerProgress.EveryRunIsShort | price_api/core/provider_runner.py:149-232 | In every schedule a run of n plugins takes at most 100 + 12 n steps |
| RunnerProgress.StepsAndRank | price_api/core/provider_runner.py:149-232 | In every schedule the steps a run has taken plus its rank never exceed 100 + 12 n |
| RunnerProgress.EveryStepUsesRank | price_api/core/provider_runner.py:149-232 | Every step of a run lowers its rank |
| RunnerProbes.CounterIsExactIff | price_api/core/circuit.py:77-87 | In every schedule the counter has been the real number of probes throughout a period if and only if nothing but probes of it was settled in a way that frees a place |
| RunnerProbes.StepExactIff | price_api/core/circuit.py:77-87 | While the counter is exact, a step that starts no period keeps it exact if and only if it is not such a settlement; a step that starts one makes it exact |
| RunnerExcessProbes.MoreProbesThanAllowed | price_api/core/circuit.py:106-112 | A feasible schedule with two probes outstanding where one is allowed: a cancelled run that was admitted before the circuit opened frees the place of a probe |
| RunnerHistory.GateIsHistory | price_api/core/provider_runner.py:161-225 | In every schedule the gate of a scope is what the calls of all runs on it lead to, in the order of the clock, so what holds of every history of the breaker holds here |
| RunnerHistory.CooldownHoldsInSchedule | price_api/core/provider_runner.py:212-215 | In every schedule: after a rate-limited result is recorded, no run is admitted to the scope until the computed delay has passed |
| RunnerHistory.OpensAtThresholdInSchedule | price_api/core/provider_runner.py:212-215 | In every schedule: a counted failure opens its scope exactly when the failures that any runs recorded in the window since it last opened or closed reach the threshold |
| RunInvariant.RunKept | price_api/core/provider_runner.py:149-280 | One step of a run keeps its books: reservations held until released, tasks only under global units, permissions granted once and settled once, one result accounted per plugin looked at |
| RunInvariant.GuardedCallGenuine | price_api/core/provider_runner.py:282-372 | Whatever a plugin call ends with, its result carries the plugin's id, and it is a success only if the plugin itself answered with one that passes the identity checks |
| RunnerResults.AnswerIsPassedOn | price_api/core/provider_runner.py:295-323 | An answer of the request's kind, under the plugin's id, and describing the request if it is a success, is the result unchanged; any other answer, an exception or a failed task is an internal error with the request's own identity, a cancelled task a missed deadline |
| RunnerResults.PluginAnswerReachesCaller | price_api/core/provider_runner.py:257-280 | In every schedule a run that returns has for each plugin it called the plugin's own answer if its task was done when results were gathered and the answer fits, an internal error if it was done otherwise, and a missed deadline if it was cancelled or not done |
| RunnerResults.GatheredIsReturned | price_api/core/provider_runner.py:203-217 | In every schedule the results gathered, in their order, and then those the run made itself are what it returns |
| RunnerResults.OwnResultsReachCaller | price_api/core/provider_runner.py:157-175 | The results a run makes itself before it calls anyone are among those it returns |
| RunnerResults.TurnedAway | price_api/core/provider_runner.py:375-387 | Exactly the plugins not enabled on the chain, not supporting the operation, unavailable or refused by the breaker are turned away, in this order of precedence, each with its own status and error kind |
| RunnerResults.CapacityTurnsAway | price_api/core/provider_runner.py:173-175 | A plugin without a free unit is turned away as unavailable |
| RunnerResults.EndingIsWhatHappened | price_api/core/provider_runner.py:180-232 | In every schedule a run ends as rejected, cancelled or returned exactly if that is what happened to it, unless it was stranded in its release |
| RunnerSafety.ProviderCapacityKept | price_api/core/provider_runner.py:167-176 | One step keeps a provider counter equal to its unreleased reservations and within its units, for every limiter key |
| RunnerSafety.GlobalCapacityKept | price_api/core/provider_runner.py:180-191 | One step keeps the global counter equal to the units of the runs holding the global reservation and within capacity |
| RunnerTheorems.GateKept | price_api/core/provider_runner.py:161-165 | One step of any run keeps the half-open books of every scope, whether or not it calls the breaker for it |
| Circuit.CircuitBreaker.Allow | price_api/core/circuit.py:48-64 | The dictionaries of the scope follow the one-scope specification, which `CircuitTable.WhenAdmitted` spells out; every other scope is unchanged |
| CircuitTable.WhenAdmitted | price_api/core/circuit.py:48-64 | A call is admitted unless the scope is open, or half-open with every place taken; then and only then a place is taken, and nothing but the mode changes besides |
| CircuitTable.AllPlacesAreGiven | price_api/core/circuit.py:57-64 | As many probes as are configured are admitted one after the other, and then no more |
| Circuit.CircuitBreaker.RecordResult | price_api/core/circuit.py:66-104 | The dictionaries of the scope follow the one-scope specification, which the next rows spell out for every status and error kind; every other scope is unchanged |
| CircuitTable.RateLimitedOpens | price_api/core/circuit.py:67-72 | A rate-limited result opens the scope for its delay in any state, forgets failures and places, and starts the cooldown |
| CircuitTable.CooldownIs | price_api/core/circuit.py:68-69 | The delay is a positive Retry-After up to the larger of the open duration and 300 s, that cap if it is longer, and the open duration if it is missing or zero |
| CircuitTable.CooldownIgnores | price_api/core/circuit.py:73-74 | During the cooldown no other result changes anything |
| CircuitTable.HalfOpenTable | price_api/core/circuit.py:77-87 | In a half-open scope a timeout, an upstream HTTP error or a transport timeout opens again, a success, a missing route or a bad request closes, and everything else frees a place |
| CircuitTable.SteadyTable | price_api/core/circuit.py:89-104 | In any other scope a success closes; exactly those three kinds of error, unless the status is a missing route or a bad request, join the failures of the window and open the scope at the threshold; nothing else changes anything |
| CircuitTable.TroubleTripsAtOnce | price_api/core/circuit.py:149-154 | With a threshold of one, an error opens a fresh scope exactly if it is of one of those three kinds |
| CircuitTable.WhatReleaseDoes | price_api/core/circuit.py:106-112 | A release frees a place of a half-open scope and does nothing to any other |
| Circuit.CircuitBreaker.CountFailure | price_api/core/circuit.py:96-104 | The append and popleft loop leaves exactly what dropping old entries from the front leaves, and opens when the threshold is reached |
| Circuit.CircuitBreaker.ReleaseProbe | price_api/core/circuit.py:106-112 | Frees one probe of a half-open scope, never below zero, and touches nothing else |
| Circuit.CircuitBreaker.OpenCircuit | price_api/core/circuit.py:129-134 | Opening clears failures and probes and never shortens `open_until` |
| Circuit.CircuitBreaker.Close | price_api/core/circuit.py:122-127 | Closing forgets failures, deadlines and probes of the scope only |
| Circuit.CircuitBreaker.CircuitOpenProviders | price_api/core/circuit.py:114-120 | Lists exactly the providers of the chain and operation whose `open_until` lies ahead |
| CircuitHistory.ScopesAreIndependent | price_api/core/circuit.py:48-134 | After any history of calls on any scopes, a scope is in the state its own calls alone lead to |
| CircuitHistory.RateLimitCooldownHolds | price_api/core/circuit.py:66-74 | After a rate-limited result at t with computed delay d, every question before t + d is refused whatever results, successes or releases arrive |
| CircuitHistory.OpenUntilIsBounded | price_api/core/circuit.py:129-134 | `open_until` never exceeds the clock of the last call plus the larger of the open duration and 300 s |
| CircuitHistory.DequeIsFilteredLog | price_api/core/circuit.py:89-104 | In every history the failure deque is the never-pruned log since the last open or close filtered by the window, it is shorter than the threshold, and the breaker agrees with a reference that never prunes |
| CircuitHistory.OpensExactlyAtThreshold | price_api/core/circuit.py:96-104 | A counted failure opens the circuit exactly when the logged failures in the window, itself included, reach the threshold |
| SlidingWindow.PruneRefinesLog | price_api/core/circuit.py:98-101 | One append-and-popleft of a deque that is the filter of a log gives the filter of the longer log |
| SlidingWindow.DropIsFilter | price_api/core/circuit.py:100-101 | On a log in time order, dropping old entries from the front is filtering by age |
| CircuitProbes.ReportKeepsSteady | price_api/core/circuit.py:66-94 | Recording any result, of a probe or of a call admitted earlier, keeps the half-open counter at most the unsettled probes of its period and at least 0 |
| CircuitProbes.AskKeepsSteady | price_api/core/circuit.py:48-64 | Asking for permission keeps the same counter facts, one probe more when one is granted |
| CircuitProbes.ReleaseKeepsSteady | price_api/core/circuit.py:106-112 | Releasing a probe keeps them, one probe less when it was of this period |
| CircuitProbes.ReportMovesCounter | price_api/core/circuit.py:76-87 | A result that starts no period lowers the counter exactly if it is neither failure nor recovery in a half-open period with a place taken; a probe's own result always is |
| CircuitProbes.ReportIsExactIff | price_api/core/circuit.py:76-87 | While the counter is the number of probes, a result that starts no period keeps it so if and only if it is a probe's own or frees nothing |
| CircuitProbes.ReleaseIsExactIff | price_api/core/circuit.py:106-112 | The same for a release |
| CircuitProbes.LateResultLetsSecondProbeThrough | price_api/core/circuit.py:77-78 | A concrete late result that lets a second probe through where one is allowed |
| CircuitProbes.NeverWedged | price_api/core/circuit.py:48-64 | With no probe of the period outstanding and `open_until` passed, the breaker admits |
| Limits.WeightedLimiter.TryAcquire | price_api/core/limits.py:24-45 | Without waiting: succeeds exactly if the units are not positive or fit, and then `used` and the set of live reservations grow by exactly the new reservation |
| Limits.LimitReservation.Release | price_api/core/limits.py:55-65 | Gives back exactly the units of the reservation, once; the truncation at zero never bites; a second release changes nothing |
| Limits.AwaitUnits | price_api/core/limits.py:30-45 | The wait loop grants at exactly the first wake-up at which the units fit, provided the task was still allowed to wait until then; it refuses although they would fit if and only if the wait timed out with room |
| Limits.TimedOutWaitMissesFreeUnit | price_api/core/limits.py:39-42 | A concrete wait that times out with room and is refused |
| Limits.CapacityLimiters.ProviderLimiter | price_api/core/limits.py:79-85 | Get or create: one limiter per provider id, the same one every time, a missing id standing for "unknown"; the limiters of all other ids stay |
| LogoScheduler.RowsStaySound | price_api/token_metadata/cache.py:289-403 | Over all enrolment, re-drive, fetch and result steps in any order, whatever the sources answer, whichever acquisitions raise or writes the table refuses, and however passes then overlap: image columns all present or all absent, a row without an image always scheduled at 0 or within 48 h + 10% after its last attempt, table CHECKs kept |
| LogoScheduler.RowsStayOk | price_api/token_metadata/cache.py:289-403 | The same while no batch is fetched before the last one is done, and besides: a row with an image is scheduled only if force-enrolled since its last success, and `failure_count` is the number of consecutive stored transient failures |
| LogoScheduler.RowsOkExactlyIfFresh | price_api/token_metadata/logo_service.py:130-204 | In any history, overlapping passes included, those two facts hold throughout if and only if every stored result came from an item that was still up to date with its row |
| LogoScheduler.PersistedOkIff | price_api/token_metadata/logo_service.py:159-204 | A stored result keeps those two facts of a row if and only if its failure count was read from the row as it still is, and it does not reschedule an unforced row with an image |
| LogoScheduler.OverlapReschedulesImage | price_api/token_metadata/logo_service.py:104-110 | A schedule in which an exception makes passes overlap and an unforced row with an image ends up scheduled: the condition is needed |
| LogoScheduler.StoredExactlyIfStorable | price_api/token_metadata/cache.py:635-650 | On a good row a result is stored if and only if its own values fit the columns, above all an HTTP status of 100 to 599 |
| LogoScheduler.ImagesArePermanent | price_api/token_metadata/cache.py:289-403 | No row ever disappears and an image, once stored, never goes away, exceptions, refused writes and overlaps included |
| LogoScheduler.PersistedSound | price_api/token_metadata/logo_service.py:159-204 | What a stored result writes: next attempt never before the attempt, within 24 h for a transient failure and within 10% of 48 h for an unobtainable image, terminal exactly on success, image present exactly if it was or is now acquired |
| LogoScheduler.TransientDelayBounds | price_api/token_metadata/logo_service.py:225-241 | A transient delay is at least the draw and at least the server's Retry-After up to 24 h, and never longer than the larger of the two |
| LogoScheduler.BackoffDoublesUpToCap | price_api/token_metadata/logo_service.py:225-241 | The upper end of the draw is 5 minutes after the first failure, doubles, is never above 6 hours and stays there from the eighth |
| LogoScheduler.PersistedColumns | price_api/token_metadata/logo_service.py:159-204 | Column by column, what each kind of result writes: an acquisition all of them, a failure all but those of the image |
| LogoFairness.NoDueLogoIsStarved | price_api/token_metadata/logo_service.py:85-112 | If no acquisition raises and the table takes every result, and nothing is enrolled or re-driven, a row due strictly before the first batch clock with k rows ahead is attempted within floor(k / 32) + 1 passes |
| LogoFairness.DueLogoIsAttempted | price_api/token_metadata/logo_service.py:85-112 | With at most u < 32 rows among the k ahead whose acquisition may raise or whose results may be refused, within floor((k - u) / (32 - u)) + 1 passes |
| LogoFairness.BlockedLogoIsStarved | price_api/token_metadata/logo_service.py:85-112 | With 32 or more rows ahead whose acquisition always raises or whose results are always refused, never |
| LogoFairness.AttemptedExactlyBelowBatchSize | price_api/token_metadata/logo_service.py:85-112 | The two together: attempted if and only if fewer than 32 are lost so |
| LogoStarvation.StatusStarvesDueLogo | price_api/token_metadata/logo_acquirer.py:172-184 | Thirty-two addresses answered with status 999, or with an answer on which the acquisition raises, starve a due row behind them for any number of passes |
| LogoStarvation.EnrolledIsReached | price_api/token_metadata/cache.py:176-190 | That table is reached by enrolling thirty-three addresses |
| LogoFairness.PassShortensQueue | price_api/token_metadata/logo_service.py:85-112 | A pass that does not attempt a due row takes a full batch from the rows ahead, all of which leave except those lost, and nothing comes to stand ahead |
| LogoFairness.PassMovesRows | price_api/token_metadata/logo_service.py:130-204 | A pass schedules every attempted row whose result is taken at or after its batch clock, or not at all, and leaves all rows outside the batch as they were |
| LogoFairness.BatchSizeIsDueCount | price_api/token_metadata/cache.py:256-287 | A batch has as many rows as are counted as due, up to its limit |
| LogoShortcuts.SameHashIsPlainUpsert | price_api/token_metadata/cache.py:302-360 | The success path that leaves an image with an unchanged hash alone leaves the row the full upsert would leave |
| LogoShortcuts.TableStaysFaithful | price_api/token_metadata/cache.py:302-360 | The premise of that shortcut, stored hash is hash of stored bytes, holds in every history |
| LogoShortcuts.SyncIsPlainReplace | price_api/token_metadata/cache.py:434-498 | A sync fails exactly when the list gives one address two URLs, changing nothing; otherwise the stored list is the published one, other sources are untouched, and exactly the image-less rows of the chain are due at once if the list is new, every other column and row unchanged |
| LogoShortcuts.StoredListIsLatest | price_api/token_metadata/cache.py:434-498 | Over any history of syncs the stored list of a source is that of its last successful sync |
| LogoCache.TokenMetadataCache.EnrollObserved | price_api/token_metadata/cache.py:176-190 | Exactly the listed unknown addresses are added, as new rows due at once; every known row stays as it was |
| LogoCache.TokenMetadataCache.EnrollIdentities | price_api/token_metadata/cache.py:192-234 | Exactly the listed unknown identities are added as new rows; a listed known row is due at once if forced or without image, with every other column as it was; all others stay; one chain id that is not positive refuses the whole list |
| LogoTable.WhatIsMadeDue | price_api/token_metadata/cache.py:176-234 | The same column by column for single rows, and for the rows of a chain that a new list re-drives |
| LogoCache.TokenMetadataCache.GetDueLogos | price_api/token_metadata/cache.py:256-276 | Returns the first `limit` due rows in order of next attempt, chain and address, none skipped |
| LogoCache.TokenMetadataCache.RecordLogoSuccess | price_api/token_metadata/cache.py:289-360 | Commits every column of the success and keeps the stored image if its hash is the same, or changes nothing if a CHECK fails; no other row changes |
| LogoCache.TokenMetadataCache.RecordLogoFailure | price_api/token_metadata/cache.py:362-403 | Commits every column of the failure without touching those of the image, refuses the outcome "success", and changes nothing if a CHECK fails |
| LogoCache.TokenMetadataCache.ReplaceLogoSourceEntries | price_api/token_metadata/cache.py:434-498 | In one transaction every published address has its URL and there is no other entry of the source and chain, exactly the image-less rows of the chain become due, and the revision is recorded; or all is rolled back |
| LogoCache.InsertList | price_api/token_metadata/cache.py:462-483 | Row-by-row insertion breaks the primary key exactly when an address has two URLs |
| VaultCache.DetectionCacheIsSound | price_api/vault/resolver.py:178-272 | Under any interleaving of detections: a hit is the latest stored unexpired value, neither map outgrows its limit, and an unexpired value can be missing only after at least `cache_max_entries` distinct other keys were stored or hit since its last use, whatever the throttled pruning does |
| VaultCache.CachesRefineMemory | price_api/vault/resolver.py:178-272 | Both maps refine an unbounded timestamped map after every history |
| VaultCache.DisjointExactlyIfHarmless | price_api/vault/resolver.py:178-272 | Under any interleaving of detections, the two maps never hold the same key if and only if every "not a vault" arrives while no vault is stored under its key |
| VaultCache.SequentialDetectionKeepsDisjoint | price_api/vault/resolver.py:178-221 | Histories of one detection after the other meet that condition, so the maps are always disjoint in them |
| VaultCache.RefutedKeepsDisjointIff | price_api/vault/resolver.py:251-254 | Storing "not a vault" keeps disjoint maps disjoint if and only if no vault is stored under the key |
| VaultCache.OverlapPutsKeyInBoth | price_api/vault/resolver.py:178-221 | Two overlapping detections of one key that leave it in both maps |
| VaultCache.VaultResolver.CachedVault | price_api/vault/resolver.py:223-244 | Prunes if due, answers from the positive then the negative map, moves a hit to the end and drops an expired entry |
| VaultCache.VaultResolver.StorePositive | price_api/vault/resolver.py:246-249 | Stores the vault as most recently used, trims, and forgets the key as a non-vault |
| VaultCache.VaultResolver.StoreNegative | price_api/vault/resolver.py:251-254 | Stores the non-vault as most recently used and trims |
| VaultCache.VaultResolver.PruneExpiredIfDue | price_api/vault/resolver.py:256-268 | At most once a second exactly the expired entries of both maps go |
| VaultCache.TrimCache | price_api/vault/resolver.py:270-272 | Pops least recently used entries until the limit holds, no further |
| LruTtl.StoreRefines | price_api/vault/resolver.py:246-272 | Storing and trimming keeps the refinement: only the least recently used entry goes, and only behind `limit` distinct others |
| LruTtl.HitRefines | price_api/vault/resolver.py:230-242 | A hit keeps the refinement and the order of use |
| LruTtl.PruneRefines | price_api/vault/resolver.py:262-268 | Dropping expired entries loses nothing the unbounded map would still answer with |
| VaultMath.ConversionsRoundDown | price_api/vault/resolver.py:328-334 | With positive rate A per share unit S: shares to assets to shares never gains and loses at most ceil((S-1)/A), at most 1 when A >= S; the other way at most ceil((A-1)/S); both monotone, splitting gains nothing, S to A and A to S exact |
| VaultMath.RoundTripLoss | price_api/vault/adapters/erc4626.py:35-36 | There and back through two floor divisions never gains and loses at most ceil((down-1)/up) |
| VaultMath.LossIsAttained | price_api/vault/resolver.py:328-334 | The loss bound is attained for every share unit |
| QuoteResolution.OwnConversionKeepsQuotes | price_api/core/vault_underlying.py:292-343 | With the resolver's own converter an OK quote is marked failed exactly when its output converts to 0 or above 2^256-1; otherwise it keeps 0 <= min <= out <= 2^256-1, the floor of both amounts, the caller's `amount_in` and its context; other results are untouched |
| QuoteResolution.AnyConversionStaysDelivered | price_api/core/vault_underlying.py:412-451 | Whatever a converter answers, the result is a failure exactly when conversion fails, and a success stays within the bounds of a quote |
| QuoteResolution.ApplyQuoteResolution | price_api/core/vault_underlying.py:292-343 | Every result of the list is resolved for itself, whatever the others hold |
| QuoteResolution.QuoteResult.Resolve | price_api/core/vault_underlying.py:305-343 | One result is changed in place to what the specification makes of it |
| QuoteResolution.QuoteContext | price_api/core/vault_underlying.py:454-498 | A quote has a vault context exactly if a side was resolved; each side's underlying and rate are kept under its own name, the vault type is the common one or none, the block that of the input side if there is one |
| KeyRateLimiter.ApiKeyStore.ConsumeRateLimit | price_api/security/store.py:264-298 | One request: count, allowance, remaining and reset of its aligned window; `retry_after` is 1 to 60 s and lands on the next window; the table is the old one with this request counted and old windows swept when due |
| KeyRateLimiter.TableIsLogMinusForgotten | price_api/security/store.py:264-298 | The table is a log that never forgets minus exactly what cleanups deleted |
| KeyRateLimiter.AnswerIsLogCount | price_api/security/store.py:264-298 | For any clock: the answer is the log's count if and only if nothing of the window was deleted |
| KeyRateLimiter.OnlyOldWindowsAreForgotten | price_api/security/store.py:395-406 | A window is deleted only by a request more than 120 windows ahead of it |
| KeyRateLimiter.WindowAllowsExactlyLimit | price_api/security/store.py:264-298 | If no request comes more than 120 windows behind the latest, each aligned window allows exactly min(requests, limit) |
| KeyRateLimiter.AnyMinuteAllowsAtMostTwice | price_api/security/store.py:409-413 | Any 60 seconds, aligned or not, allow a key at most twice its limit |
| KeyRateLimiter.LateRequestIsCountedAfresh | price_api/security/store.py:395-406 | A concrete late request that is counted afresh: the 120-window condition is needed |
| AnonLimiter.AnonymousRateLimiter.Consume | price_api/security/anon_limiter.py:18-56 | One request: count, allowance and reset of its aligned window, `retry_after` in 1..interval landing on the next window; an interval that is not positive is refused |
| AnonLimiter.AnonymousRateLimiter.Cleanup | price_api/security/anon_limiter.py:58-64 | Pops exactly the entries whose window started more than three intervals, at least 3 s, ago |
| AnonLimiter.NamelessClientsShare | price_api/security/anon_limiter.py:30 | Clients without an address are counted together, all others apart |
| AnonLimiter.OnlyFirstIsAllowed | price_api/security/anon_limiter.py:28-56 | For nondecreasing time, exactly the first request of a client in each aligned window is allowed and the count is that of a log that never forgets, whatever was swept |
| AnonLimiter.AnswerIsLogCount | price_api/security/anon_limiter.py:34-45 | For any clock: the answer is the log's count if and only if no request of the window was lost |
| AnonLimiter.RetryAfterIsHonest | price_api/security/anon_limiter.py:47-48 | A refused client that comes back after `retry_after` seconds, and did not come in between, is let in, whoever else came |
| AnonLimiter.ClockStepForgets | price_api/security/anon_limiter.py:34-45 | A concrete clock step backwards that lets a client in twice |
| IfNoneMatch.ScanDecidesList | price_api/api/routes/token_logos.py:93-125 | For every list of members, well-formed or malformed, with any blanks and commas around them: the answer is true exactly when the list holds `*` or a tag, strong or weak, with the content hash |
| IfNoneMatch.EveryHeaderIsAList | price_api/api/routes/token_logos.py:93-125 | Every string is the writing of some such list, so the answer is settled for every header value |
| IfNoneMatch.TagListMatchesByText | price_api/api/routes/token_logos.py:93-104 | For lists of tags alone, none of them `*`: the weak comparison of RFC 9110 section 8.8.3.2 |
| IfNoneMatch.TagListAgreesExactly | price_api/api/routes/token_logos.py:93-104 | For any list of tags: the answer is that of the weak comparison if and only if no tag is the text `*` or the content is listed anyway |
| IfNoneMatch.QuotedAsteriskIsAWildcard | price_api/api/routes/token_logos.py:102-103 | Where the code leaves the RFC: the tag `"*"`, strong or weak, matches everything |
| IfNoneMatch.MemberAdvances | price_api/api/routes/token_logos.py:107-125 | Each member strictly advances the scan, so it terminates |
| IfNoneMatch.IfNoneMatchMatches | price_api/api/routes/token_logos.py:93-104 | The index loop answers what the scan of the remaining text answers; no header means no match |
| IfNoneMatch.ParseEtagMember | price_api/api/routes/token_logos.py:107-125 | Reads one member from an index and never moves backwards; the one body of the source is four methods here (`ParseTagAt`, `ParseQuoted` and `FinishMember` carry its later branches) |
| IfNoneMatch.SkipCharacters | price_api/api/routes/token_logos.py:128-131 | Stops at the first character outside the set |
| IfNoneMatch.SkipToComma | price_api/api/routes/token_logos.py:134-137 | Stops at the first comma |
| HttpRecycling.NoClientServesTooMuch | price_api/providers/clients/http.py:214-260 | No client ever takes more than `client_max_requests` requests, nor more than that many times the attempts |
| HttpRecycling.RequestReplacesExactlyWhenDue | price_api/providers/clients/http.py:250-260 | In every reachable state a request replaces the client if and only if its TTL has passed or it has taken all its requests, with that reason; otherwise the client stays and its count grows by one |
| HttpRecycling.OtherRecyclesReplace | price_api/providers/clients/http.py:143-155 | What a pool timeout and a recycle on demand leave, field by field |
| HttpRecycling.EveryClientHasOnePlace | price_api/providers/clients/http.py:262-272 | Every client ever created is exactly one of current, waiting out its grace, or closed once after it |
| HttpRecycling.RecyclesExactlyAtThreshold | price_api/providers/clients/http.py:143-151 | A pool timeout recycles exactly when the timeouts since the last such recycle that lie in the window reach the threshold, counted in a log that is never pruned |
| HttpRecycling.HealthCountIsLogCount | price_api/providers/clients/http.py:123-126 | The health check counts what that log would |
| HttpRecycling.ClosedOnceIff | price_api/providers/clients/http.py:138-160 | In every reachable state with no grace period running, every client has been closed exactly once if and only if close() has closed exactly the current one |
| HttpRecycling.ClosedOnceEach | price_api/providers/clients/http.py:138-160 | After a first close, with others running or not, and any further steps: once no grace period is running, every client has been closed exactly once if and only if no second close ended and nothing replaced the client |
| HttpRecycling.UseAfterCloseClosesTwice | price_api/providers/clients/http.py:138-141 | A concrete use after closing that closes a client twice |
| HttpClients.HttpClient.TakeClient | price_api/providers/clients/http.py:226-228 | A request goes out on the same client, or on a new one exactly if the old is aged or spent; all fields afterwards |
| HttpClients.HttpClient.RecycleIfNeeded | price_api/providers/clients/http.py:250-260 | Follows the specification that `HttpRecycling.RequestReplacesExactlyWhenDue` spells out |
| HttpClients.HttpClient.ReplaceClient | price_api/providers/clients/http.py:262-272 | A new client with fresh counters, the old one left to its grace |
| HttpClients.HttpClient.RecordPoolTimeout | price_api/providers/clients/http.py:143-151 | Append, prune, and recycle with a cleared deque at the threshold |
| HttpClients.HttpClient.RecentPoolTimeoutCount | price_api/providers/clients/http.py:123-126 | Counts the events in the window without pruning |
| Selection.BuildProviderOrder | price_api/core/selection.py:7-33 | The loops build the order for the requested ids if there are any, and for the default priority otherwise |
| Selection.OrderIsRanked | price_api/core/selection.py:7-33 | For any lists: every available id once, requested or priority ids first in their order, the rest alphabetical |
| Selection.OrderIsSort | price_api/core/selection.py:7-33 | For distinct providers the order is one sort by rank and a permutation of them |
| Selection.SelectResult | price_api/core/selection.py:44-69 | The first success in the order, or none exactly if there is none |
| Selection.IndexFinds | price_api/core/selection.py:36-41 | Indexing results of distinct providers loses none |
| Selection.IndexFindsLast | price_api/core/selection.py:36-41 | Of several results of one provider the last is found |
| Selection.OrderAndSelect | price_api/api/routes/aggregate_utils.py:112-118 | From results to order and selection: the selected result is the best-ranked success, absent exactly if nothing succeeded |
| Selection.SelectionIgnoresArrival | price_api/core/selection.py:7-69 | Order and selection do not depend on the order in which results came in |
| QuoteSummary.CountsAreExact | price_api/core/normalizer.py:85-119 | For price and quote runs alike: the counts are the number of results that are OK and the number of those that are not |
| QuoteSummary.CountsAddUp | price_api/core/normalizer.py:85-98 | So they add up, and none succeeded exactly if no result is OK |
| QuoteSummary.SummaryCounts | price_api/core/normalizer.py:103-123 | Low, median and high of quotes exist exactly when something succeeded |
| QuoteSummary.SortedResults | price_api/core/normalizer.py:60-69 | The list of results has the successes first and within each kind goes by provider |
| QuoteSummary.SummaryBounds | price_api/core/normalizer.py:103-123 | Low and high are amounts of successes that bound all of them, and the median splits the sorted amounts |
| QuoteSummary.MiddleSplits | price_api/core/normalizer.py:108-114 | The middle of a rising list: the first ceil(n/2) are no more, the last ceil(n/2) no less; for an even count the floor of the average of the middle two |
| QuoteSummary.SummaryIgnoresArrival | price_api/core/normalizer.py:64-69 | Summary and sorted list do not depend on the order of arrival |
| AggregateAnswer.AnswerCoversThePlugins | price_api/core/aggregator.py:146-161 | Whatever resolution does to a run's results, the answer lists every plugin of the run once, summarises all of them, and selects a result exactly when the summary counts a success |
| AggregateAnswer.ResolvedQuotesSummarise | price_api/core/aggregator.py:152-161 | Whatever converter resolution is given, every quote stays under its provider, no success loses its amount, successes only get fewer, and low <= median <= high are positive uint256 values |
| Sorting.OrderedIsUnique | price_api/core/normalizer.py:64-69 | Two ordered arrangements of the same elements are one list if ties are equal |
| TokenDecimals.DecodesExactlySafeWords | price_api/vault/adapters/common.py:19-24 | Decoding succeeds exactly on the 32-byte big-endian words of 0 to 77, with the number written |
| TokenDecimals.DecoderAgreesWithValidator | price_api/vault/adapters/common.py:19-30 | Decoder and validator agree on every uint256 |
| TokenDecimals.ToBytesFits | price_api/vault/adapters/erc4626.py:187-189 | Encoding succeeds exactly on the numbers that fit, and decoding undoes it |
| TokenDecimals.ToBytesInverts | price_api/vault/adapters/erc4626.py:187-189 | Encoding undoes decoding for every byte string |
| TokenDecimals.OneShareFitsAWord | price_api/vault/adapters/common.py:8 | 77 is the largest number of decimals for which one share fits the 32-byte argument |
| TokenDecimals.DetectedDecimalsCanBeAsked | price_api/vault/adapters/erc4626.py:180-189 | Whatever decimals a vault reports, either they are refused or the request for one share can be encoded |
| PositiveInts.ReadsExactlyPrintedUints | price_api/core/validator.py:34-49 | Reading yields n exactly for the decimal printing of n in 1..2^256-1, and for that printing with a final line break when both fit 78 characters |
| PositiveInts.RejectsExactlyLargeNumerals | price_api/core/validator.py:45-48 | The over-limit error is given exactly to printed numbers above 2^256-1 of at most 78 characters |
| PositiveInts.UintFitsDigits | price_api/core/validator.py:13 | Every uint256 has at most 78 digits |

## Left out

- Cancellation: one that arrives while the `finally` block waits for cancelled tasks (`price_api/core/provider_runner.py:222-223`), which can only be a second one, is not a step of the model; it would also leave permissions unsettled. One that arrives during release is the step `Strand`.
- Cancelled calls: a plugin call or task that is cancelled is assumed to end; `RunnerProgress.EveryRunCanEnd` relies on it, as the `finally` block does.
- Limits.LimitReservation.Release: one atomic call; a cancellation inside it is modelled in the schedules (`RunnerLostUnits`), not on the object.
- Clock readings: the breaker and the transport read the clock once per call in the model and up to three times in the code.
- Limits.WeightedLimiter.TryAcquire: covers the call that does not wait; the wait loop is `Limits.AwaitUnits`, a decision over given wake-ups. Fairness among waiters is not modelled.
- The transition system keeps the limiters and the breaker as counters and gates with the same functions the classes are proved against; it does not run over the class objects.
- RunnerTheorems.OneResultPerPlugin: for distinct plugin ids, which the request schema (`price_api/api/schemas/requests.py:15-28`) and the registry's dictionary ensure.
- LogoFairness.DueLogoIsAttempted: counts passes that process their whole batch before the next fetch and acquisitions that return. Where an exception ends a pass early, the rows still in work are fetched again, so a bound in passes would depend on how long acquisitions take.
- LogoScheduler.RowsStaySound: once a pass has ended early, the machine allows the next fetch at any time, which is more than the program does. The random factor of the 48 h retry is an integer draw of up to 17,280,000 ms either way.
- Logo images: acquisition, decoding, resizing and hashing are inputs; hashes are injective functions, addresses are integers in their order. SQL text, connections and transactions are modelled as whole-method effects.
- QuoteResolution.ApplyQuoteResolution: for a list of distinct result objects.
- Prices: `Decimal` prices, their median and `deviation_bps` round at 28 digits and are not modelled; the counts of a price summary are the same code as those of a quote summary.
- HttpRecycling.EveryClientHasOnePlace: bookkeeping only. A grace period can end while a long request still uses the client; nothing is claimed about that request.
- Provider HTTP calls, JSON parsing, web3 calls, ABI decoding, routing, authentication, metrics, settings loading, address checksums and the remap table are not modelled; what they deliver is an input.
