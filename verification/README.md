# PingGuard: a verified model

PingGuard stores endpoint monitors in a table, claims the due ones in periodic sweeps, dispatches a task per claimed
monitor through a message broker, and lets workers probe the endpoint and store the result. This project models the
parts where those activities meet, in Dafny 4.11, and proves what holds of them over every input, every run and every
interleaving.

| file | models |
|---|---|
| `Common`, `Monitors` | small vocabulary; the monitor row, its invariant, the two schedules (health, keep-alive) |
| `Urls`, `Schemas`, `Api`, `Db` | URL joining; request validation; create, update and delete; the transaction scope |
| `Claims`, `Sweep` | claiming the earliest due rows; the sweep's loops over a database, a broker and every pattern of publish failure |
| `Fairness` | how long a due monitor can be passed over, on either schedule |
| `Net`, `Worker` | the redirect loop and the bounded body; one probe task and chains of retries |
| `Scheduler`, `Runs` | all of it as one step machine: sweeps, API requests and workers interleave over one table, broker and clock; building runs of it |
| `Safety`, `Dispatch` | the invariants of that machine, step by step |
| `Theorems`, `Arming`, `MonitorCap` | its main results: spacing, live messages, row consistency; the exact guard of a keep-alive update; the exact monitor cap |
| `Alone`, `WholeSweep` | an uninterrupted round, and an uninterrupted sweep, of the machine is a round, and a sweep, of the loops |
| `RateLimit`, `RateLimitRace` | the two fixed-window limiters and their agreement; the Redis one under concurrency |
| `Retention` | the batched pruning loop |

Code that changes state in place is a class with methods (`Db.Database`, `Db.Session`, `Sweep.Broker`, the limiters,
`Retention.ResultStore`) or a method with a loop, proved against a function or predicate; the lemmas are about those.
The step machine describes the same operations as steps on values, because it interleaves them;
`WholeSweep.UninterruptedSweep`, `Alone.UninterruptedRound`, `Api.UpdateMonitor` and `Worker.RunProbeTask` tie its steps to
the methods.

## What is assumed

- A claim, an API request and a recovery are one step each. An API update reads its row without a lock (app/main.py:305),
  so this is an assumption about it; for a claim it is what the row locks give. Rows locked by another transaction are an
  arbitrary set a claim skips.
- A worker's attempt is not one step: it decides on tables it read earlier, which are arbitrary, and its commit is the step
  (`Worker.LateEffect`). The commit writes the status columns of its own row and appends a result, as the ORM's update of
  changed columns does.
- A publish that raises did not deliver. A recovery commits or does not, and either way the half ends.
- A sweep takes no step later than `slack` after its own `now`. `Theorems.SpacedExactlyWhenPrompt` says what that buys:
  spacing holds for every `slack` below 15 s and for none from 15 s on. The configured hard time limit is 15 s by default,
  counted from the start of the Celery job (app/config.py:68, app/worker.py:54); a larger configured limit would not be enough.
- The resolver, the server, the broker, the clock and the soft time limit are inputs, and arbitrary.
- Executions for one monitor may interleave freely; only the statements about a chain of retries speak of the result of one chain.

## Where the code and its documentation differ

The model follows the code.

- A keep-alive task is documented to leave the status alone (app/tasks.py:235). It does exactly when no soft limit interrupts
  it; otherwise it sets DOWN (app/tasks.py:171-172). See `Worker.KeepAliveStatus`.
- Null fields of an update are documented to leave the column unchanged (app/schemas.py:251-276, app/main.py:301). A null
  `mode` raises (app/main.py:324), a null `name`, `check_interval_seconds` or `keep_alive_enabled` fails at the commit
  (app/models.py:41-58), and an accepted null interval or path leaves the column as it was exactly when it held nothing.
  See `Api.UpdateMonitor`, `Api.NullClearsColumn` and, for a real input, `Api.NullPathIsAccepted`.
- Claiming before publishing is documented to prevent duplicates (app/tasks.py:273). It does exactly while sweeps are prompt
  (`Theorems.SpacedExactlyWhenPrompt`); the recovery update is unconditional (app/tasks.py:339, 410) and a late one dispatches
  a due period twice (`Theorems.LateRecoveryDispatchesTwice`), or gives a disabled monitor a keep-alive due time
  (`Theorems.OnlyLateRecoveryRearmsDisabled`: that step, and no other, does).
- An update that gives a monitor a keep-alive due time may break the spacing of its keep-alive publishes
  (`Arming.RearmedMonitorIsDispatchedEarly`). `Arming.SpacedExactlyWhenArmedSafely` gives the exact guard. Enabling for the
  first time always meets it (`Arming.FirstArmingIsSafe`), and the health schedule is never affected.
- The two rate limiters share one interface, but with a limit of zero only one of them denies the first hit
  (`RateLimit.LimitersAgree`). When a Redis command raises the hit is let through, beyond the limit
  (`RateLimitRace.LargestLifetime`).

## Model

| member | source | states |
|---|---|---|
| Schemas.ValidateRelativePath | app/schemas.py:17-25 | accepted are exactly the paths that joining appends as they stand to every monitor URL, and that contain no `://` |
| Schemas.ContainsExactly | app/schemas.py:23 | a text contains another exactly when it is that text with something before and after |
| Urls.JoinAppends | app/urls.py:7-20 | a path is appended as it stands, but for trailing spaces, exactly when it starts with one slash and not with two |
| Urls.JoinInsertsSlash | app/urls.py:18-20 | a path without a leading slash gets one |
| Urls.JoinOfNothing | app/urls.py:16-17 | no path, or one of spaces only, leaves the URL as it is |
| Urls.JoinKeepsAuthority | app/urls.py:7-20 | whatever the path, the joined URL names the host that the monitor's URL names |
| Schemas.ValidateKeepAliveRules | app/schemas.py:28-58 | on fully known values the branches accept exactly the consistent combinations of mode, flag, interval and path; an unknown flag is never contradicted |
| Schemas.ValidateBounds | app/schemas.py:68-118 | accepted are exactly the values in bounds: name length, both intervals in 15..86400, path length and path form |
| Schemas.ValidateTarget | app/schemas.py:120-146 | refused are exactly the URLs that every probe would block, whatever the resolver answered |
| Schemas.ValidateCreate | app/schemas.py:61-161 | a create payload is accepted exactly when its URL is, all values are in bounds, and mode, flag, interval and path agree |
| Schemas.ValidateUpdate | app/schemas.py:239-294 | an update payload is accepted exactly when all supplied values are in bounds and agree with one another; enabling needs an interval in the same payload, disabling must not bring one |
| Db.WithoutMonitor | app/models.py:65-71 | deleting a monitor removes it alone, keeps every other row, and every remaining result refers to a stored monitor |
| Db.ResultsOfOthers | app/models.py:96-100 | the cascade keeps exactly the results of the other monitors |
| Db.OthersInOrder | app/models.py:96-100 | each of them as often as before and in the same order |
| Db.Database.constructor | app/models.py:30-71 | an empty database is valid |
| Db.Session.constructor | app/db.py:86 | a unit of work starts from what is stored |
| Db.Session.Commit | app/db.py:88-89 | all writes of a unit become visible, or none, the latter exactly when a result would refer to no monitor |
| Db.Session.Rollback | app/db.py:90-92 | a rolled back unit leaves no write behind |
| Api.NewRow | app/main.py:225-239 | the row of a valid payload satisfies the row invariant and is due at once |
| Api.NewRowStoresRequest | app/main.py:227-239 | every column of the request is stored as it came; the due times are now, or none while keep-alive is off |
| Api.CreateMonitor | app/main.py:204-243 | accepted exactly for a valid payload below the cap; stores exactly that row under a fresh id; any refusal changes nothing |
| Api.UpdateMonitor | app/main.py:293-355 | accepted exactly when the payload, the nulls and the merged state allow it; then the row becomes the merged row and nothing else changes; otherwise nothing changes at all; and exactly when it is not found, a server error, or unprocessable |
| Api.WithResets | app/main.py:312-321 | disabling clears the dependent columns unless they are supplied, and forces the mode |
| Api.AssignColumns | app/main.py:341-351 | assigning field by field and syncing the due time builds the merged row, or stores a forbidden null exactly when the payload has one |
| Api.AcceptedIsConsistent | app/main.py:323-351 | every accepted update of a valid row leaves a valid row, and a disabled one without keep-alive due time |
| Api.AcceptedChangesOnlySupplied | app/main.py:341-351 | only supplied columns, the reset columns and the keep-alive due time can change |
| Api.SuppliedIsStored | app/main.py:312-351 | column by column: every supplied value is stored, disabling resets what is not supplied, and the keep-alive due time is none while disabled, kept if there is one, otherwise now |
| Api.RepeatedUpdateChangesNothing | app/main.py:312-351 | repeating an accepted update at any later time is accepted and changes nothing |
| Api.PayloadCheckGap | app/schemas.py:285-294 | the payload check refuses a consistently merging update exactly when it enables keep-alive without supplying an interval |
| Api.EnablingAgainIsRefused | app/schemas.py:285-294 | that gap is inhabited: sending only "enabled" to an enabled monitor is refused though it would merge consistently |
| Api.NullClearsColumn | app/main.py:312-345 | an accepted null interval or path leaves the column as it was exactly when it was null already; in the other columns a null is never accepted |
| Api.NullPathIsAccepted | app/main.py:312-345 | a null path clears the path of an enabled monitor |
| Api.DeleteMonitor | app/main.py:386-401 | removes the monitor and, in place, exactly its results, or reports not found and changes nothing |
| Claims.SelectDue | app/tasks.py:300-310 | the batch is min(limit, free) distinct due rows that no one has locked, in due order, none of them due later than a free row left behind, however ties are broken |
| Claims.EarliestByColumn | app/tasks.py:306 | in stored columns: a claimed row comes no later than those claimed after it and the free due rows left behind |
| Claims.DueExactly | app/tasks.py:295-305 | health checks are due for exactly the monitors that are not keep-alive only and have reached `next_check_at`, keep-alive for exactly those that are not monitoring only and have reached `next_keep_alive_at` |
| Claims.ColumnsMoved | app/tasks.py:314-340 | a claim moves the one due time on by the one stored interval in seconds, a recovery sets it to `now`, and no other column changes |
| Claims.DueRowsAreClaimable | app/tasks.py:362-366 | the two keep-alive filters agree on every valid row, and every selected row has an interval in range |
| Claims.AdvanceKeepsTable | app/tasks.py:314-318 | claiming and recovering keep the row invariant |
| Claims.DueAfterAdvance | app/tasks.py:314-318 | a claim takes its rows, and only them, out of the due set |
| Claims.RoundsCompose | app/tasks.py:297-318 | two rounds that query again are one claim of the summed limit, of disjoint rows, with the same final table |
| Claims.ExhaustedClaim | app/tasks.py:311-312 | a round that finds nothing has claimed everything, whatever larger limit is asked |
| Claims.BatchShrinksDue | app/tasks.py:375-388 | every batch lowers the number of due rows by min(limit, due) and skips none, so no row is selected again |
| Sweep.Broker.ApplyAsync | app/tasks.py:324 | a publish delivers one message, or raises and delivers none |
| Sweep.ClaimBatch | app/tasks.py:298-318 | one transaction claims the earliest due rows that are not locked, records the stored intervals, advances exactly those rows, and skips none |
| Sweep.AdvanceRows | app/tasks.py:375-386 | the loop over the selected rows never takes its invalid-configuration branch |
| Sweep.PublishBatch | app/tasks.py:320-334 | messages follow claim order up to the first failure; the rest of the batch is the failed list |
| Sweep.Recover | app/tasks.py:336-350 | every failed row that still exists is due again at `now`, or nothing changes |
| Sweep.SweepRound | app/tasks.py:298-350 | one round splits its claim into published and failed rows, whatever publish fails |
| Sweep.SweepRounds | app/tasks.py:297-350 | the loop stops at a failure, an empty round or the round limit, and everything before was published |
| Sweep.SweepPhase | app/tasks.py:297-350 | a half refines one claim of its whole capacity; the counter equals the messages added; every row is published, failed or untouched |
| Sweep.SweepDueMonitors | app/tasks.py:258-433 | both halves in order, for every pattern of publish and recovery failures: counters, messages and rows agree; and when nothing fails and the capacity suffices, exactly the due monitors of either kind get their message and move on |
| Sweep.SweepDispatchesAllDue | app/tasks.py:295-388 | that last part in stored columns: one message per due monitor, by mode and due time, expiring with its stored interval, and each due time moved on by it |
| Sweep.DueIsPublished | app/tasks.py:297-334 | an undisturbed half publishes exactly the due monitors, once each, with their stored intervals |
| Sweep.MessagesExactly | app/tasks.py:324 | the messages of a half are those of its items, with the recorded interval as expiry |
| Sweep.PhaseRows | app/tasks.py:314-345 | published rows are one recorded interval ahead of `now`; rows neither published nor failed are unchanged |
| Sweep.PhaseClaims | app/tasks.py:297-334 | published and failed rows are distinct and were due; publish order follows the due times; nothing left was due earlier; without failure min(capacity, due) rows are published |
| Sweep.FailedIsDueAgain | app/tasks.py:336-350 | a failed row is due for every later sweep if the recovery committed, and otherwise exactly from one interval later |
| Sweep.ClaimSplits | app/tasks.py:321-334 | the claim is the published part followed by the failed part, each in due order and without duplicates |
| Sweep.StoppedIsDone | app/tasks.py:297-350 | wherever the rounds stop, what was claimed is one claim of the capacity reached |
| Fairness.MissedSweep | app/tasks.py:297-318 | a healthy sweep that passes over a due monitor lowers its rank by the full capacity, on either schedule |
| Fairness.ApiStepKeepsRank | app/main.py:204-401 | creating, updating or deleting other monitors puts nothing ahead of a due monitor |
| Fairness.RankFalls | app/tasks.py:297-318 | over any run, capacity times the sweeps that missed the monitor stays below its initial rank |
| Fairness.DueMonitorIsPublished | app/tasks.py:297-318 | a due monitor of rank r is published within the first ceil(r / capacity) sweeps, on either schedule |
| Net.ResolveAndValidate | app/net.py:181-282 | pins the first address of an answer exactly when every address of it is allowed, with the source's order of refusals |
| Net.ResolveExactly | app/net.py:196-282 | which of the four results every URL and answer gives: an allowed literal itself, the first address of an answer without a forbidden entry, and each failure told apart |
| Net.AllowedNameIsContacted | app/net.py:403-463 | a URL with a plain host name and an answer without a forbidden entry gets a first request, to its first address |
| Net.ReadBody | app/net.py:496-510 | all chunks before the last one read fit the byte limit, and reading stops early only past the limit |
| Net.PrefixSum | app/net.py:498-507 | a body that overflows on a prefix overflows as a whole |
| Net.SumOfParts | app/net.py:498-499 | the size of a body is the sum of its chunks, however it is cut |
| Net.PerformHttpProbe | app/net.py:339-555 | the loop computes the reference walk, ends, makes one lookup per hop, at most max_redirects + 1 of them, and reads a body exactly from a last response that is no redirect; the fallback without status code is dead |
| Net.WalkEnds | app/net.py:407-555 | what is reported for every way a walk can end: target not reached, transport error, time out, body end, missing Location, too many redirects, other scheme |
| Net.StopsOnlyWhenItMust | app/net.py:467-491 | a redirect to an http target that can be contacted is followed, unless max_redirects have been |
| Net.TooManyRedirectsExactly | app/net.py:472-475 | too many redirects are reported if and only if max_redirects + 1 requests were all answered by a redirect |
| Net.ResultHasTwoShapes | app/net.py:467-555 | a result is either status code, URL and classified outcome without error, or an error and UNREACHABLE with neither |
| Net.RequestIsPinned | app/net.py:403-491 | request j goes to the address its own hop's answer resolved to, for the URL response j-1 redirected to; at most max_redirects + 1 requests |
| Net.StatusIsLastResponse | app/net.py:476-528 | a reported status and final URL belong to the last response |
| Net.NoForbiddenAddress | app/net.py:251-282 | no request ever leaves for a forbidden address, whatever the resolver answers at each hop |
| Worker.ProbeBlock | app/tasks.py:89-164 | the block's writes stay in the session, and are the probe's result (with the status for health checks only) when it returns |
| Worker.RunProbeTask | app/tasks.py:69-192 | the stored effect and the outcome of one attempt, for every probe result and every point where the soft limit strikes |
| Worker.CompletedHealthCheck | app/tasks.py:105-121 | a completed health check stores UP for codes 100 to 399, DEGRADED for 400 to 499 and DOWN otherwise, with the time of the probe, and exactly its own result |
| Worker.CompletedKeepAlive | app/tasks.py:105-121 | a completed keep-alive task stores its own result and nothing else |
| Worker.NotProbedExactly | app/tasks.py:90-103 | when each reason for not probing is given, and that nothing is stored then |
| Worker.RetriesExactly | app/tasks.py:34-41 | a task retries if and only if it probed, got one of the six transient errors, has retries left and no soft limit came first |
| Worker.LateEffectIsEffect | app/tasks.py:89-164 | an attempt whose monitor changes meanwhile has the effect it would have had at its commit, if the monitor is still probed then; if it was deleted, nothing is stored |
| Worker.LateResultIsStored | app/tasks.py:89-164 | a monitor disabled while it was probed still gets its result; if it was deleted the commit fails |
| Worker.RecoverFromSoftLimit | app/tasks.py:166-192 | one error result and DOWN in a transaction of its own, which fails as a whole when the monitor is gone |
| Worker.EffectKeepsValid | app/tasks.py:88-192 | an attempt keeps the row invariant and the references, whatever changed between its read and its commit |
| Worker.EffectOnRows | app/tasks.py:109-121 | an attempt changes only the status columns of its own monitor and appends results for it only, whatever changed between its read and its commit |
| Worker.RetryChangesNothing | app/tasks.py:133-153 | a retried attempt leaves the database unchanged and waits 2^retries |
| Worker.SoftLimitBeforeCommit | app/tasks.py:166-192 | a soft limit before the commit leaves exactly the recovery row and DOWN, and reports it |
| Worker.SoftLimitAfterCommit | app/tasks.py:166-192 | a soft limit after the commit adds the recovery row to the attempt's own, and DOWN stays |
| Worker.SoftLimitWithoutMonitor | app/tasks.py:169-182 | without the monitor the recovery stores nothing |
| Worker.KeepAliveStatus | app/tasks.py:166-173 | a keep-alive task leaves every row as it was exactly when the soft limit does not interrupt it (or the row already said DOWN as of that instant) |
| Worker.StatusCodeNeverRetries | app/tasks.py:133 | a probe that got a status code is never retried |
| Worker.ChainEffect | app/tasks.py:133-153 | all attempts of a chain but the last leave no trace; at most max_retries + 1 attempts; the backoffs telescope |
| Worker.DispatchLeavesOneResult | app/tasks.py:88-192 | a dispatched task that completes leaves exactly one result row, two exactly when the soft limit strikes after its commit, none if it does not complete; backoffs of at most 2^max_retries - 1 |
| Safety.StepKeepsStore | app/tasks.py:258-433 | every step of sweeps, requests and workers keeps rows, references, fresh ids and the cap |
| Safety.MessageRunsItsTask | app/tasks.py:201-245 | a health message runs a health check, a keep-alive message a keep-alive check; a retried message waits with one more retry, any other is done |
| Safety.OnDemandIsHealthCheck | app/main.py:467 | an on-demand check is a health check and leaves the scheduled messages alone |
| Safety.CountedIsStored | app/main.py:217-241 | a counted create request stores its row at its commit, due as of its count |
| Dispatch.HeldIsNotDue | app/tasks.py:314-350 | while a prompt sweep holds a claimed monitor (whose due time is the scheduler's), no other sweep can find it due |
| Dispatch.NothingSkipped | app/tasks.py:375-388 | in every reachable state a keep-alive claim advances and publishes every selected row |
| Dispatch.ClaimKeeps | app/tasks.py:298-318 | a claim of one of several concurrent sweeps keeps the dispatch invariant |
| Dispatch.PublishKeeps | app/tasks.py:320-334 | so does each publish, delivered or not |
| Dispatch.RecoverKeeps | app/tasks.py:336-350 | so does an unconditional recovery |
| Dispatch.StepKeepsDispatch | app/tasks.py:258-433 | every step keeps it, and with it the spacing of publishes |
| Dispatch.ReachableOk | app/tasks.py:258-433 | both invariants hold after every run |
| Theorems.SpacedExactlyWhenPrompt | app/tasks.py:297-350 | on all runs, publishes of a monitor consume due times at least the recorded interval after the `now` of every earlier publish, if and only if sweeps finish strictly within 15 s; for keep-alive publishes from the last point on where an update safely gave the due time back, which for a monitor never disabled is the whole run |
| Theorems.LateRecoveryDispatchesTwice | app/tasks.py:336-350 | a recovery 15 s after its sweep's `now` makes a third sweep dispatch the monitor again at the same instant |
| Arming.RearmedMonitorIsDispatchedEarly | app/main.py:347-351 | disabling and enabling keep-alive again dispatches the monitor twice within its interval |
| Arming.SpacedExactlyWhenArmedSafely | app/main.py:347-351 | after an update that gives a monitor a keep-alive due time, its publishes are spaced on every continuation without a further update of it, if and only if no sweep has it in hand and the interval of each of its earlier publishes is over |
| Arming.FirstArmingIsSafe | app/main.py:347-349 | enabling a monitor for the first time always meets that guard, when sweeps are prompt |
| Arming.HeldClaimFails | app/tasks.py:407-414 | if a sweep has it in hand, a dispatch and the recovery of the held claim break the spacing |
| Runs.DispatchNow | app/tasks.py:297-350 | a due monitor can be dispatched at once, by a sweep that finds the other rows locked |
| Theorems.ThirdExpiresFirst | app/tasks.py:315-324 | when a third message of a monitor is published the first has expired |
| Theorems.AtMostTwoLive | app/tasks.py:315-324 | at any instant at most two unexpired scheduled messages of a monitor exist, although intervals are patched between claims; for keep-alive messages with the same restriction as spacing |
| Theorems.TwoLiveExactlyWhenPrompt | app/tasks.py:315-324 | that bound of two is attained, and it holds on all runs if and only if sweeps finish strictly within 15 s |
| Theorems.RowsStayConsistent | app/main.py:312-351 | every row of every reachable state satisfies the row invariant and every result has its monitor |
| Theorems.OnlyLateRecoveryRearmsDisabled | app/tasks.py:407-414 | a step leaves a disabled row with a keep-alive due time if and only if it is a committed keep-alive recovery of a meanwhile disabled monitor |
| Theorems.QuietExactlyWithoutLateRecovery | app/tasks.py:407-414 | a monitor has no due time while disabled, all along a run, if and only if the run has no such step |
| Theorems.LateRecoveryRearmsDisabled | app/tasks.py:407-414 | and a run with that step exists, under every configuration |
| MonitorCap.LargestTable | app/main.py:217-241 | with k create requests between count and commit, the least bound on the table over all runs is max_monitors + k - 1; with k = 1 the cap is exact |
| Alone.PublishMany | app/tasks.py:320-326 | appending delivered publishes of one sweep to a run appends its claims to the history in order and changes no row |
| Alone.UninterruptedRound | app/tasks.py:298-350 | appending exactly the claim, publish and recover steps of one round to a run changes the table as a round of the sweep's loop, for every failure point, and leaves the sweep ready for its next round or half |
| WholeSweep.StepInHalf | app/tasks.py:297-350 | each own step of an undisturbed sweep moves the loop of its half one step on, or ends it with the half's whole contract |
| WholeSweep.UninterruptedSweep | app/tasks.py:258-433 | every undisturbed sweep of the machine changes the table and publishes as the sweep's loops do for some failure pattern, and changes nothing else |
| RateLimit.InMemoryRateLimiter.constructor | app/ratelimit.py:73-75 | a new limiter has counted nothing |
| RateLimit.InMemoryRateLimiter.HitKey | app/ratelimit.py:77-93 | decides and updates the key as the hit function does, touches no other key, and changes nothing when it denies |
| RateLimit.RedisStore.IncrTtl | app/ratelimit.py:50-53 | the transaction counts the hit and reports that count and its TTL |
| RateLimit.RedisStore.Expire | app/ratelimit.py:56-57 | an unexpired key gets a deadline one window away; an expired one stays gone |
| RateLimit.RedisRateLimiter.HitKey | app/ratelimit.py:46-67 | without faults it is the Redis hit function; any fault admits, and one before EXPIRE leaves the counter without TTL; a denial reports the TTL, or the window it just set, and at least one second |
| RateLimit.RedisRetryAfterIsRounded | app/ratelimit.py:60-64 | one second more than the reported wait always suffices for a lone client, the reported wait exactly when the time left is no longer |
| RateLimit.WindowInvariant | app/ratelimit.py:77-93 | on every monotone trace any interval of one window length admits at most 2L-1 hits of a key |
| RateLimit.WindowAdmitsAtMostLimit | app/ratelimit.py:83-90 | each window admits exactly its stored count, at most L |
| RateLimit.BurstIsAdmitted | app/ratelimit.py:77-93 | a burst around a window boundary is admitted in full |
| RateLimit.LargestBurst | app/ratelimit.py:77-93 | a bound on the hits per window length holds over all traces if and only if it is at least 2L-1 |
| RateLimit.RetryAfterIsAFloor | app/ratelimit.py:92-93 | a denied lone client is admitted after retry_after + 1 seconds; after retry_after itself exactly when no fraction was cut off |
| RateLimit.SimulationHolds | app/ratelimit.py:46-93 | on every trace both limiters have equal reset instants, and the memory count is the Redis count cut off at the limit |
| RateLimit.LimitersAgree | app/ratelimit.py:46-93 | the two limiters decide alike on every sequential trace if and only if the limit is at least one |
| RateLimitRace.StepKeepsInv | app/ratelimit.py:48-67 | counts within one lifetime of the key stay distinct and decide admission, under every interleaving of the two round trips, faults, crashes and expiry |
| RateLimitRace.LifetimeAdmitsAtMostLimit | app/ratelimit.py:48-64 | at most L hits per lifetime of the key are admitted by their count (hits let through by a fault are not counted here) |
| RateLimitRace.FailedOpenByFault | app/ratelimit.py:65-67 | only a raising command lets a hit through without deciding on its count |
| RateLimitRace.LargestLifetime | app/ratelimit.py:46-67 | of all hits of a lifetime that are answered "allowed", a bound holds on every run with at most f faulted hits if and only if it is at least L + f; without faults that is L |
| RateLimitRace.CompletedHitLeavesTtl | app/ratelimit.py:55-58 | once a hit of a lifetime has completed the key has a TTL |
| RateLimitRace.WithoutTtlKeyStays | app/ratelimit.py:55-58 | a key without a TTL stays until some client's EXPIRE |
| Retention.ResultStore.constructor | app/models.py:85-110 | the store holds the given rows |
| Retention.SelectExpired | app/tasks.py:452-458 | the batch is the first min(limit, expired) expired rows by id |
| Retention.ExpiredIsOlder | app/tasks.py:454 | a row goes exactly when it is strictly older than the cutoff |
| Retention.ArrivedExactly | app/tasks.py:450-468 | what is inserted between the batches is there afterwards, and nothing else |
| Retention.DeleteBatch | app/tasks.py:459-465 | one committed DELETE removes exactly that batch and reports its size |
| Retention.PrunePingResults | app/tasks.py:437-473 | with rows arriving between batches and a crash after any commit: only expired rows go and arrivals stay; a finished loop equals the one-shot filter, returns the number of expired rows and takes exactly the rounds it must |
| Retention.RoundsIsCeiling | app/tasks.py:451-468 | n expired rows take ceil(n / limit) + 1 rounds |
| Retention.LastRound | app/tasks.py:467-468 | a round that deletes nothing leaves exactly the filtered table |
| Retention.NextRound | app/tasks.py:459-466 | a round that deletes something keeps the loop invariant and lowers the number of expired rows, whatever arrives |
| Retention.RerunEqualsOneRun | app/tasks.py:447-468 | stopping after any batch and pruning again later equals one uninterrupted run at the later cutoff |

## Left out

- Sockets, TLS, HTTP client and DNS internals, URL splitting and joining, header and SNI rewriting: replies arrive as data, URLs parsed.
- Blocked address ranges (app/ssrf.py): an arbitrary predicate on addresses. The test-only `allow_loopback` switch is fixed to off.
- Celery and Redis internals: redelivery after a worker crash, message order, result backend, reconnects.
- A soft limit between the publish of a retry and the exception it raises: the retried task would run besides the recovery row.
- On-demand checks (app/main.py:467) in the bound on live messages: they carry no expiry. They do run as steps of the machine.
- ORM dirty tracking and overlapping transactions on one row, other than the claim's locks.
- A database failure inside a claim: in the machine it is the end of that sweep, in `Sweep` it does not occur.
- Authentication, CORS, logging, health routes, pagination, migrations, latency values, rate-limit key derivation: no invariant of the modelled state depends on them.
- Net.PerformHttpProbe: a redirect target that cannot be split into its parts (app/net.py:482-483) raises past the handled exceptions; redirect targets are taken as split.
- Schemas.ValidateCreate: takes the verdict on the URL with the payload, because URLs are parsed outside the model; `Schemas.ValidateTarget` gives it.
- Urls.JoinKeepsAuthority: takes the authority from the first `://` on, and asks for one that is not empty, as every accepted URL has.
- RateLimit.SimulationHolds: takes Redis to expire a key exactly at its deadline and no command to fail.
- Retention.PrunePingResults: a batch limit of zero deletes nothing and ends after one round; negative limits are not modelled.
