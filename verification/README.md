# Verified models of the back office

Dafny models of the parts of this back office whose correctness is about whole runs or about two
descriptions of one thing that must agree, with proofs. `dafny verify dfyconfig.toml` checks all of it.

| module | what it models |
|---|---|
| `DouglasPeucker`, `Polygons` | the explicit-stack line simplification of the country polygons, over any distance and then over the script's |
| `StaffRoles`, `StaffReconcile` | the staff report that compares the Cognito pool with the staff directory |
| `AlertRecipients` | the reconcile of the alert recipients with their SNS subscriptions, and the recipient list of the ops e-mail |
| `LinkStaff` | the script that links directory rows to staff e-mails |
| `StaffIdentity` | first sign-in binding and the cached staff state, with concurrent calls |
| `JwksCache` | the key set cache (JWK Set as in section 5 of RFC 7517), with concurrent calls |
| `OpsBells`, `OpsEvents` | the bell and e-mail protocol of an ops alert; the buffer of counted log lines |
| `EventThrottle`, `LoginThrottle` | the sliding-window limiter of log events; the login backoff over Redis |
| `CostGuard`, `TenantBudget` | run and day budgets over many runs; the two tenant budget queries |
| `TenantScope` | the tenant scope rule as a test, a set and a generated SQL predicate |
| `SafeHttp` | the redirect loop of the guarded HTTP client |
| `ProviderCredit` | the anchored credit estimate against a full replay |
| `JobQueue` | the job queue: claims, leases, reaper, cancel, release and retry |

Loops and objects that change state are methods and classes, proved against functions on values; each
protocol is a step system in which every locked section or single statement is one step, and its theorems
hold in every state of every run. Clocks, server answers, SQL row order where the source leaves it open,
the column names of the SQL tables, URL checks and rounding of ties are parameters. Money is exact, text is case-folded in ASCII.

## Where the code and its description differ

The model follows the code. In each case a lemma gives an input on which the described property fails, or
the exact condition under which it holds.

- The fallback address of the ops e-mail is described as always included (shared/alert_recipients.py:169-170).
  The list is cut at 50 from the end, so it is included exactly when it is among the first 50 distinct
  confirmed addresses or those are fewer than 50 (`FallbackIncludedIff`).
- A restored item keeps the `last_at` of the item recorded since (shared/ops_checks.py:295-304). That is the
  last line of the check while flushes do not overlap (`LastAtIsExact`), and in general exactly while no flush
  puts a check back into an empty slot after a line of it was counted (`EndsExactIff`); two overlapping flushes
  that fail in the order they started report too early an end (`OverlapLosesLastAt`).
- A deactivation is said to take effect within the cache time of 60 seconds (api/core/staff_identity.py:54-55). A
  call that starts that long after it never resolves to the row (`DeactivationTakesEffect`). A call that has the
  row by then may answer with it at any later time (`LateResolveIff`): one that had read the row before the
  deactivation (`SlowLoadResolvesLate`), or one that hit the cache within the cache time, even after the
  deactivation, and waits for its touch of the login time (`SlowTouchResolvesLate`).
- The job queue says that its state changes are guarded, so that a worker that lost its lease can never overwrite what
  the reaper or another worker did (shared/jobs/queue.py:3-5). Status, lock, attempt and schedule are fenced so
  (`StaleWriteLandsIff`). The cost and progress of a job are not: they are written by id alone
  (shared/jobs/queue.py:139-147), also to a finished row (`LateProgressLands`). Outside the description is the
  worker's own later claim: a late guarded write of the first claim lands exactly when the same worker id holds a
  later one, and one such write lets a job pass its attempts (`ReclaimOverrunsAttempts`).
- The generated tenant predicate is described as the rule of the point test for any plain or table-qualified column
  (api/core/tenant_scope.py:237-246). It is exactly for names that its sub-queries do not take for their own
  (`FormsAgreeIff`): a bare `tenant_id`, which is accepted, selects every row for a staff member with any
  assignment (`BareNameSelectsAll`). The one caller passes `notifications.tenant_id`, which is never captured
  (`BellScopeAgrees`).
- At most 5 log-line events per key are said to pass in 600 seconds (shared/sentry_init.py:84-86). The clock is read
  before the lock is taken, and the bound holds in every run exactly when calls reach the lock in the order of their
  times (`FullWindowsIff`); with calls at most `skew` behind it holds in windows shorter by twice that
  (`RunBound`).
- A release is described as not counting its attempt (shared/jobs/queue.py:216-225). So a job may start more often
  than `max_attempts` without a retry, once more for every release (`StartsBounded`, `ReleasesAllowMoreStarts`).
- The reaper is described as re-queueing while attempts remain (shared/jobs/queue.py:290-312). Its two
  statements read the clock apart, and a job with attempts left fails exactly when its lease ends between
  them (`ReaperFailsEarlyIff`).
- A running job that was asked to cancel is said to be stopped by its worker (shared/jobs/queue.py:315-318).
  If it fails retryably first, it is re-queued with the flag set and no claim takes it again
  (`BecomesStuckIff`, `StuckUntilCancelledAgain`).
- The redirect loop deletes each credential header by name from a case-insensitive multi-dict; two that
  differ only in case make the second deletion fail on the first cross-origin hop (`StripNames`, `Request`).
- `remaining_usd` reports 0 for an overspent run, but `check` refuses even a free call then
  (`CheckAgreesWithRemaining`).

## Model

| member | source | states |
|---|---|---|
| `DouglasPeucker.MarkKept` | scripts/aa847_country_polygons.py:39-61 | the explicit-stack loop ends and marks exactly the indices that the recursive definition keeps, both end points included |
| `DouglasPeucker.ScanSegment` | scripts/aa847_country_polygons.py:48-57 | the inner scan finds the first farthest point strictly between two indices and its distance, or none when they are neighbours |
| `DouglasPeucker.Simplified` | scripts/aa847_country_polygons.py:39-61 | the recursive definition keeps both end points, is no longer than its input, and leaves fewer than two points alone |
| `DouglasPeucker.OutputIsKept` | scripts/aa847_country_polygons.py:61 | the output is the kept points read off in index order, so a subsequence with both ends |
| `DouglasPeucker.ErrorBound` | scripts/aa847_country_polygons.py:46-60 | every dropped point lies within the tolerance of the chord between its two neighbouring kept points |
| `DouglasPeucker.FarthestOfJoin` | scripts/aa847_country_polygons.py:48-60 | a kept split point is still the first farthest point among the points that were kept |
| `DouglasPeucker.Idempotent` | scripts/aa847_country_polygons.py:39-61 | simplifying an output again with the same tolerance returns it unchanged, for every point list |
| `Polygons.Simplify` | scripts/aa847_country_polygons.py:39-61 | the iterative `_dp`, with its distance and tolerance, returns what the recursive definition does, for every tolerance |
| `Polygons.RingStaysRounded` | scripts/aa847_country_polygons.py:64-68 | a simplified ring has only rounded coordinates, so rounding it again changes nothing, for any rounding that is final |
| `Polygons.RingIdempotent` | scripts/aa847_country_polygons.py:64-68 | a ring that is closed once rounded is simplified for good by one pass |
| `Polygons.SecondPassIsFinal` | scripts/aa847_country_polygons.py:64-68 | for every ring, closed or not, the second pass is final |
| `Polygons.OpenRingNeedsTwo` | scripts/aa847_country_polygons.py:64-68 | a ring of two points within the tolerance changes again in its second pass |
| `Polygons.RoundPointOnce` | scripts/aa847_country_polygons.py:65 | rounding to four decimals, half to even, is final |
| `Polygons.ScriptRings` | scripts/aa847_country_polygons.py:39-68 | with the script's rounding, distance and tolerance the second pass is final, and the first when the rounded ring is closed |
| `StaffRoles.ListsMatch` | services/staff_reconcile.py:486-489 | two role lists compare equal exactly when the groups held are those the roles name |
| `StaffRoles.OneGroupHeld` | services/staff_reconcile.py:472-479 | the role test of a row is passed exactly when the role's own group is the one staff group held |
| `StaffReconcile.ParseUsers` | services/staff_reconcile.py:281-303 | each key of the result is the last listed user with it, holding exactly the groups whose members name that user by sub or username |
| `StaffReconcile.Reconcile` | services/staff_reconcile.py:323-459 | the loops over users and rows build the report that the per-user and per-row rules define, in order |
| `StaffReconcile.LocateMeaning` | services/staff_reconcile.py:357-380 | a user has no row exactly when no row has its identity and none its e-mail; else the row found stands for it |
| `StaffReconcile.RowDriftMeaning` | services/staff_reconcile.py:467-500 | a pair has no drift exactly when the user is enabled, holds exactly the CIS, booking and CRM groups that the row's role and grants stand for, and the two e-mails do not differ |
| `StaffReconcile.TallyUsersMeaning` | services/staff_reconcile.py:357-404 | the user part of the report is empty exactly when every user agrees with the directory |
| `StaffReconcile.TallyRowsMeaning` | services/staff_reconcile.py:406-415 | the row part is empty exactly when every active row is known to the pool and complete |
| `StaffReconcile.CleanReportIffAgreement` | services/staff_reconcile.py:323-459 | a report without drift and with a ready directory says exactly that pool and directory agree, person by person and row by row |
| `StaffReconcile.ReconcileListings` | services/staff_reconcile.py:323-459 | from any raw listings, every user under its key once, the report is clean and ready exactly when the parsed pool and the directory agree |
| `StaffReconcile.CleanReportIsBijection` | services/staff_reconcile.py:323-536 | a clean, ready report is a one-to-one match, onto both sides, between the enabled people and the active staff rows, with equal access in every pair |
| `AlertRecipients.BestSubs` | shared/alert_recipients.py:348-357 | the loop keeps for each endpoint what the choice by rank keeps, and nothing for an endpoint with no live subscription |
| `AlertRecipients.BestIsBest` | shared/alert_recipients.py:345-357 | the choice is a live subscription of the endpoint and none of its live ones ranks higher |
| `AlertRecipients.PlanReconcile` | shared/alert_recipients.py:366-423 | the two loops compute the plan that sorts every subscribed address into its place and gives each active row its update |
| `AlertRecipients.PlanIsTotal` | shared/alert_recipients.py:404-418 | a live address without an active row that is not the bootstrap is in exactly one of unsubscribe, leaving and unmanaged; every other address is in none |
| `AlertRecipients.NoBootstrapNoUnsubscribe` | shared/alert_recipients.py:366-423 | without a bootstrap address nothing is ever unsubscribed |
| `AlertRecipients.PlanAndApply` | shared/alert_recipients.py:486-537 | planning on the locked rows and updating row by row by id settles every active row and touches no other |
| `AlertRecipients.ApplyUpdates` | shared/alert_recipients.py:504-510 | the UPDATE loop leaves each row as its own update says, whatever the order of the updates |
| `AlertRecipients.Remaining` | shared/alert_recipients.py:521-529 | exactly the subscriptions whose unsubscribe call went through are gone |
| `AlertRecipients.DroppedIs` | shared/alert_recipients.py:521-529 | an unsubscribe call that goes through drops the best subscription of its address and no other, also when the address has several |
| `AlertRecipients.BootstrapKept` | shared/alert_recipients.py:486-537 | no reconcile removes a subscription of the bootstrap address, however many it has |
| `AlertRecipients.NoRowRevived` | shared/alert_recipients.py:430-446 | a removed row is never changed, and no row changes its id or address |
| `AlertRecipients.Converges` | shared/alert_recipients.py:486-537 | planning again on the new table and topic changes no ARN, unsubscribes again exactly where a call failed or the address has a second confirmed subscription, and moves no status except of an unlisted row whose grace has run out since |
| `AlertRecipients.PassesEnd` | shared/alert_recipients.py:486-537 | over any number of reconciles with every call going through, an address is unsubscribed by exactly as many passes as it had confirmed subscriptions, then by none |
| `AlertRecipients.MergeRecipients` | shared/alert_recipients.py:616-623 | the loop returns the distinct normalised addresses in order, at most 50 |
| `AlertRecipients.DedupedIs` | shared/alert_recipients.py:616-623 | the merged list has no address twice and misses none that normalises |
| `AlertRecipients.FallbackIncludedIff` | shared/alert_recipients.py:616-623 | the fallback is included exactly when it is among the first 50 distinct confirmed addresses or those are fewer than 50 |
| `LinkStaff.CheckMapping` | scripts/link_staff_identity.py:211-222 | a mapping is accepted exactly when no username and no e-mail occurs twice, and then as given |
| `LinkStaff.ComputePlan` | scripts/link_staff_identity.py:277-332 | the loop over the mapping and the owner step give the plan that the per-entry outcomes define, errors included |
| `LinkStaff.KeepsUnique` | scripts/link_staff_identity.py:277-332 | an error-free plan keeps ids, usernames and lower-case e-mails unique |
| `LinkStaff.EveryUpdateKeepsUnique` | scripts/link_staff_identity.py:404-426 | the unique indexes hold after every single UPDATE of an error-free plan, not only at its end |
| `LinkStaff.KeepsBoundAndOwners` | scripts/link_staff_identity.py:277-332 | a row bound to Cognito keeps its lower-case e-mail, no owner is cleared, a new owner is the named active admin, and nothing else moves |
| `LinkStaff.PlanIsIdempotent` | scripts/link_staff_identity.py:277-332 | planning the same mapping on the result gives no change and no error |
| `LinkStaff.ChangesApply` | scripts/link_staff_identity.py:404-426 | running the planned changes in order leaves each row with its entry's values |
| `LinkStaff.Apply` | scripts/link_staff_identity.py:404-426 | an error-free plan is written completely, no UPDATE of it is refused by a unique index and its owner update never raises; with an error nothing is written |
| `StaffIdentity.FirstLink` | api/core/staff_identity.py:239-243 | the first link picks an active, unbound row with that e-mail and only for an identity no row has |
| `StaffIdentity.LinkKeepsBinding` | api/core/staff_identity.py:267-300 | binding a free row to an unused identity keeps one row per identity, and every cached or resolved row stays bound to its identity |
| `StaffIdentity.RunKeepsInv` | api/core/staff_identity.py:267-383 | in every state of every run of concurrent sign-ins, deactivations and edits the binding and expiry invariants hold |
| `StaffIdentity.NeverRebound` | api/core/staff_identity.py:239-243 | from any point of a run on, a bound row keeps its identity |
| `StaffIdentity.OneRowPerIdentity` | api/core/staff_identity.py:235-300 | an identity is bound to at most one row, and no two calls ever resolve one identity to two rows or two identities to one row |
| `StaffIdentity.DeactivationTakesEffect` | api/core/staff_identity.py:303-383 | a call that starts the cache time or more after a deactivation never resolves to the row, even when an older slow load or touch writes the cache late |
| `StaffIdentity.ResolvesIff` | api/core/staff_identity.py:303-326 | a step answers with a row exactly by a live cache entry that names it, by the end of a load that read it, or by the end, good or bad, of the touch of a call that hit it |
| `StaffIdentity.LateResolveIff` | api/core/staff_identity.py:303-326 | from the cache time after a deactivation on, some step can still resolve to the row exactly when a call that has it, from its load or from the cache, is under way |
| `StaffIdentity.HowInactiveResolves` | api/core/staff_identity.py:267-326 | a call resolves to an inactive row only by a cache hit within the cache time, by the end of a touch whose call hit within it, or by a load that began and read the row before the deactivation |
| `StaffIdentity.SlowLoadResolvesLate` | api/core/staff_identity.py:303-326 | a run in which a slow load can answer with a row deactivated 99 seconds before |
| `StaffIdentity.SlowTouchResolvesLate` | api/core/staff_identity.py:311-315 | a run in which a call that began after the deactivation waits for its touch and can answer with the row 99 seconds after it, whether or not the touch works |
| `JwksCache.JwksCache.KeyFast` | api/core/identity_verifier.py:217-231 | before the lock a key is served when the set is fresh, or when it is stale and no refetch is due or one is under way |
| `JwksCache.JwksCache.KeyLocked` | api/core/identity_verifier.py:232-244 | under the lock a fetch starts exactly when the set is stale or lacks the kid and the interval has passed; else the cached answer is given and nothing changes |
| `JwksCache.JwksCache.KeyFetched` | api/core/identity_verifier.py:201-244 | a fetch that failed or was empty leaves the old set; the answer is from the set then held |
| `JwksCache.RunKeepsInv` | api/core/identity_verifier.py:195-244 | lock, spacing, set and answer invariants hold in every state of every interleaving of calls, prefetches and cancellations |
| `JwksCache.CacheIsSafe` | api/core/identity_verifier.py:195-244 | fetches of `key` never overlap, start at least the cold or warm interval apart, and every key returned was in a set fetched before |
| `JwksCache.NeverLostAgain` | api/core/identity_verifier.py:201-244 | after one success the set is never lost or empty and no call is answered as unavailable |
| `OpsBells.BellEvery` | shared/ops_checks.py:223-236 | every check's bell interval is positive and at most a day |
| `OpsBells.TransactKeepsBells` | shared/ops_checks.py:527-535 | the locked transaction writes a bell only more than the interval after every older bell of the check |
| `OpsBells.TransactKeepsDays` | shared/ops_checks.py:527-542 | the locked transaction lets its caller mail only on a day later than that of every older bell of the check |
| `OpsBells.MailsAreOnLaterDays` | shared/ops_checks.py:517-555 | over every interleaving of transactions, publishes, deletes and cancelled callers and whatever the clocks, a publish that succeeds keeps its bell and its caller read a later day than that of every older bell of the check |
| `OpsBells.OneMailPerCheckAndDay` | shared/ops_checks.py:517-555 | at most one publish per check and UTC day succeeds, by the caller's clock or by the bells, unless a bell was dated before the day its caller read |
| `OpsBells.BellsAreSpaced` | shared/ops_checks.py:467-479 | the surviving bells of a check are always more than its interval apart |
| `OpsBells.SourceAlerts` | shared/ops_checks.py:88-236 | with the checks and intervals of the source, on one clock, bells are spaced and mails are on later days |
| `OpsBells.SlowDatabaseClock` | shared/ops_checks.py:517-555 | a bell dated before the day its caller read is enough for two mails on one day |
| `OpsEvents.MatchedIsCheck` | shared/ops_checks.py:323-335 | a counted log line always counts for a check that has an alert |
| `OpsEvents.EventBuffer.Record` | shared/ops_checks.py:280-288 | a line adds one to its check and moves the end of its span |
| `OpsEvents.EventBuffer.Drain` | shared/ops_checks.py:290-293 | a drain hands out everything and leaves nothing |
| `OpsEvents.EventBuffer.Restore` | shared/ops_checks.py:295-304 | putting items back adds the counts and keeps the earlier start; other checks are untouched |
| `OpsEvents.NothingIsLost` | shared/ops_checks.py:273-308 | over every interleaving of logged lines, drain, finished and cancelled flush, each check's recorded count is what was alerted plus what is buffered or in flight, if every matched check has an alert |
| `OpsEvents.SourceLosesNothing` | shared/ops_checks.py:273-335 | with the matching and the checks of the source that balance holds whatever lines are logged |
| `OpsEvents.UnknownCheckIsLost` | shared/ops_checks.py:456-461 | a check the flush has no alert for would be dropped, so the filter must pass every counted check |
| `OpsEvents.LastAtIsExact` | shared/ops_checks.py:295-304 | while flushes do not overlap, a buffered item ends at the last line of its check |
| `OpsEvents.EndsExactIff` | shared/ops_checks.py:295-304 | in a run of lines with increasing times every buffered item ends at the last line of its check, in every state, exactly when no flush puts a check back into an empty slot after a line of it was counted since its drain |
| `OpsEvents.OverlapLosesLastAt` | shared/ops_checks.py:570-584 | two overlapping flushes that fail in order leave an item that ends before its last line |
| `EventThrottle.EventThrottle.Throttled` | shared/sentry_init.py:95-109 | the locked section forgets idle keys, prunes the key's queue, decides by its length and records or counts, for any time the caller has read |
| `EventThrottle.WindowBound` | shared/sentry_init.py:84-109 | admissions each made with fewer than 5 in the length before it are at most 5 in any half-open window of that length, in whatever order they were made |
| `EventThrottle.FoundIsOk` | shared/sentry_init.py:99-104 | forgetting a key or pruning its queue drops only admissions that are a window old up to the skew |
| `EventThrottle.RunBound` | shared/sentry_init.py:95-109 | over every run of calls at most `skew` behind the latest time, every key has at most 5 admissions in any window of 600 s less twice the skew |
| `EventThrottle.FullWindowsIff` | shared/sentry_init.py:95-109 | 5 per full window of 600 s holds in every run exactly when no call reaches the lock behind a later time |
| `EventThrottle.LateCallFillsWindow` | shared/sentry_init.py:97-98 | for any skew, a run with six admissions in one window |
| `EventThrottle.RecentCount` | shared/sentry_init.py:103-105 | without skew the length of a pruned queue is the number of the key's admissions less than a window old |
| `EventThrottle.RefinesSimple` | shared/sentry_init.py:95-109 | without skew the limiter that prunes and forgets has, in every state of every run, admitted what the limiter that keeps every admission for ever has, and counted what it refused |
| `EventThrottle.DecidesAlike` | shared/sentry_init.py:95-109 | without skew both limiters decide every call of every run alike |
| `LoginThrottle.BackoffGrows` | api/core/login_throttle.py:151-153 | every wait lies between 30 and 900 seconds and never shrinks as failures grow |
| `LoginThrottle.RetryAfterSuffices` | api/core/login_throttle.py:163-200 | after the Retry-After seconds the limit that refused no longer does, except the failure count of an IP exactly when its TTL was rounded down |
| `LoginThrottle.LoginThrottle.Check` | api/core/login_throttle.py:163-200 | an attempt is counted in its window and let on exactly when no limit is hit; else the first limit in order sets Retry-After |
| `LoginThrottle.LoginThrottle.RecordFailure` | api/core/login_throttle.py:203-236 | a failure counts for the IP, the pair and the username, only the first of each sets its expiry, and the waits start at their thresholds |
| `LoginThrottle.LoginThrottle.RecordSuccess` | api/core/login_throttle.py:239-250 | a success clears the pair's count and wait and nothing else |
| `LoginThrottle.FailureKeepsPair` | api/core/login_throttle.py:203-236 | a failure after a passed check comes no earlier in the count's window than the waits before it allow |
| `LoginThrottle.CounterCounts` | api/core/login_throttle.py:203-236 | from the failure that opens a window on, the pair's counter is the number of its failures recorded and expires with the window |
| `LoginThrottle.AtMostNineFailures` | api/core/login_throttle.py:151-236 | with sequential attempts and no success at most 9 failures of a pair are recorded in a 900 s failure-count window, over every run of all pairs |
| `CostGuard.RunBudget.Check` | shared/cost_guard.py:155-172 | a call is refused for the first hard limit its estimate would pass |
| `CostGuard.RunBudget.Charge` | shared/cost_guard.py:174-175 | a charge adds to what the run has spent; a missing price adds nothing |
| `CostGuard.RunBudget.Remaining` | shared/cost_guard.py:144-153 | the least room under the hard limits, never negative; none when nothing limits |
| `CostGuard.CheckAgreesWithRemaining` | shared/cost_guard.py:144-172 | a call is admitted exactly when its estimate fits what remains, except a free call of an overspent run |
| `CostGuard.StepKeepsInv` | shared/cost_guard.py:275-311 | whatever rows and day scope a run is loaded with, it holds the provider's hard daily cap on one axis and believes at least what the ledger shows for its day and later |
| `CostGuard.AdmittedHasRoom` | shared/cost_guard.py:144-175 | over every sequence of runs, also across midnight, a call is admitted only if the day's ledger has room for its estimate |
| `CostGuard.OvershootIsOneCall` | shared/cost_guard.py:144-175 | a day passes the cap by at most one call's excess over its estimate, and then admits no call |
| `CostGuard.CapIsNeverPassed` | shared/cost_guard.py:275-311 | while charges stay within estimates no day of any run passes the cap |
| `TenantBudget.PlanIsUnique` | shared/cost_guard.py:586-596 | the plan fallback has at most one row per tenant |
| `TenantBudget.QueriesAgree` | shared/cost_guard.py:598-652 | for all table contents a tenant is listed as budgeted exactly when the budget check returns a budget for it |
| `TenantBudget.ZeroNeedsApprovalIff` | shared/cost_guard.py:665-702 | a resolved amount of 0 needs approval exactly when the threshold is at most 1000 % |
| `TenantBudget.DisabledStops` | shared/cost_guard.py:586-652 | a switched-off override stops the tenant's AI whatever the other tables say |
| `TenantScope.ExistsMeans` | api/core/tenant_scope.py:237-261 | an EXISTS of the generated text is true exactly when some row makes its condition true, never unknown |
| `TenantScope.ParseColumnIs` | api/core/tenant_scope.py:234-246 | exactly the plain and the table-qualified identifiers are accepted as column names |
| `TenantScope.EnterMeans` | api/core/tenant_scope.py:254-260 | inside a sub-query a pasted column name means the sub-query's own column when its alias or its table has it, else what it means outside |
| `TenantScope.PoolRuleMeans` | api/core/tenant_scope.py:82-98 | the pool predicate, with NULL segments, holds exactly of an agency or demo tenant that is in the tech-touch segment or has no owner |
| `TenantScope.BookTenantsMeans` | api/core/tenant_scope.py:82-98 | the book query lists exactly the tenants assigned to the staff member |
| `TenantScope.PoolTenantsMeans` | api/core/tenant_scope.py:82-98 | the pool query lists exactly the tenants in the pool |
| `TenantScope.TestAndSetAgree` | api/core/tenant_scope.py:128-204 | for all tables, scopes, staff ids (missing too) and tenants the point test and the set agree |
| `TenantScope.FormsAgree` | api/core/tenant_scope.py:128-261 | under a column name that no sub-query captures the SQL predicate, under three-valued logic, agrees with the point test for all tables, scopes, staff ids and tenants |
| `TenantScope.FormsAgreeIff` | api/core/tenant_scope.py:237-261 | the SQL predicate agrees with the point test for all tables and tenants exactly when no sub-query captures the column name, whatever columns the two tables have |
| `TenantScope.BareNameSelectsAll` | api/core/tenant_scope.py:234-261 | a bare `tenant_id` is accepted and selects every row, even one without a tenant, for a staff member with any assignment |
| `TenantScope.BellScopeAgrees` | api/routers/admin.py:1960-1962 | the column of the one caller is never captured, so its predicate is the rule |
| `TenantScope.NullColumn` | api/core/tenant_scope.py:237-261 | under a name that is not captured a row without a tenant is shown only to a scope that reaches every tenant |
| `SafeHttp.StripNames` | shared/safe_http.py:280-282 | deleting the credential names one by one fails exactly when two differ only in case; else exactly the credentials are gone and the rest keeps its order |
| `SafeHttp.Request` | shared/safe_http.py:230-288 | for every server at most `max_redirects + 1` requests are sent, each where the answer before it points after validation; headers, login, method and body of each follow from the caller's; and the last answer fixes the outcome |
| `SafeHttp.CredentialsExtend` | shared/safe_http.py:279-283 | a hop keeps the caller's headers and login exactly while every URL so far has the first origin |
| `SafeHttp.BodyExtends` | shared/safe_http.py:284-287 | a hop keeps method and body until one drops them, and from then on they stay GET or HEAD and none |
| `SafeHttp.SafeExchange` | shared/safe_http.py:249-288 | in a whole exchange a request after a dropped body has none and is a GET or HEAD, and one that carries any credential follows only requests of the first origin |
| `ProviderCredit.AnchorIsNewestOpening` | shared/provider_credit.py:99-105 | the anchor is the newest opening balance, or the first entry when there are only top-ups |
| `ProviderCredit.ReplayIsBalance` | shared/provider_credit.py:108-117 | replaying an ordered history gives the recorded amount less the spend since the anchor |
| `ProviderCredit.SpentAgrees` | shared/provider_credit.py:55-59 | the spend query gives the cost of the timeline's calls since the anchor, in any row order |
| `ProviderCredit.EstimateIsReplay` | shared/provider_credit.py:99-117 | the anchored estimate equals the replay of every timeline of the ledger and the connection's calls |
| `ProviderCredit.ShortcutIsExact` | shared/provider_credit.py:99-117 | every ledger in (effective_at, id) order and every call log have such a timeline, and the estimate is its replay |
| `ProviderCredit.CheckForgetsThePast` | shared/provider_credit.py:9-18 | recording a balance read drops every entry before it from the estimate |
| `ProviderCredit.ShownIsClose` | shared/provider_credit.py:108-117 | the rounded figure is within 0.0001005 of the replayed balance, however ties round |
| `JobQueue.StepKeepsCap` | shared/jobs/queue.py:90-123 | only a claim adds a running job, and only below the cap of its kind |
| `JobQueue.CapHolds` | shared/jobs/queue.py:90-123 | over every run whose claims use caps of at most n, never more than n jobs of the kind run |
| `JobQueue.RunKeepsInv` | shared/jobs/queue.py:90-366 | in every state a running row is locked by the worker of its latest claim, with the attempt that claim returned |
| `JobQueue.StaleWriteLandsIff` | shared/jobs/queue.py:126-263 | a guarded write reaches a claim other than its own exactly when the same worker id holds a later one, and changes nothing when the job is not running under its worker id; a progress write always changes the cost and progress of the row, and nothing else |
| `JobQueue.FencedWithoutReclaim` | shared/jobs/queue.py:126-263 | a worker id that claimed a job once makes guarded writes only to its own claim |
| `JobQueue.WriteKeepsAttemptsIff` | shared/jobs/queue.py:183-201 | a write leaves the attempts in bounds exactly when it does not re-queue a row that has none left |
| `JobQueue.AttemptsBounded` | shared/jobs/queue.py:90-366 | in every run whose writes land on their own claim the attempt column never passes the attempts allowed |
| `JobQueue.StartsAreCounted` | shared/jobs/queue.py:90-263 | in every run the starts since the last retry are the attempt column plus the attempts that releases gave back |
| `JobQueue.StartsBounded` | shared/jobs/queue.py:90-366 | in every run whose writes land on their own claim a job starts between retries at most as often as it has attempts and releases |
| `JobQueue.ReleasesAllowMoreStarts` | shared/jobs/queue.py:216-263 | a run without retry or late write in which two uncounted releases let a job of two attempts start a third time |
| `JobQueue.ReclaimOverrunsAttempts` | shared/jobs/queue.py:183-201 | a run of one job and one worker that starts a third attempt of two |
| `JobQueue.LateProgressLands` | shared/jobs/queue.py:139-147 | a run in which the progress of a worker that lost its lease changes the cost of a row another worker has finished |
| `JobQueue.TerminalRow` | shared/jobs/queue.py:315-366 | a finished row changes only by a retry, or by a cancel when its budget stopped it; its cost and progress also by a progress write |
| `JobQueue.SuccessIsFinal` | shared/jobs/queue.py:150-180 | after a success no later statement of any run changes the row but for its cost and progress |
| `JobQueue.BecomesStuckIff` | shared/jobs/queue.py:183-201 | a row is left queued and flagged exactly by a retryable failure, with attempts left, of a flagged job |
| `JobQueue.StuckUntilCancelledAgain` | shared/jobs/queue.py:315-352 | such a row stays as it is, but for its cost and progress, in every run until it is cancelled again or its kind is retired |
| `JobQueue.CancelIsLost` | shared/jobs/queue.py:315-331 | a run in which a requested cancel ends with the job queued and flagged |
| `JobQueue.ReaperFailsEarlyIff` | shared/jobs/queue.py:290-312 | the reaper fails a job with attempts left exactly when its lease ends between its two statements |
| `JobQueue.ReleasesEnd` | shared/jobs/queue.py:204-263 | counted releases re-queue a job at most twice over its life, retries included |

## Left out

- Text of reports, alerts, logs and e-mails, and the order of the entries within a report.
- `build`, `_polygons`, `feature_codes` and `bbox` of the polygon script: they select features and collect simplified rings, and decide nothing about a ring.
- Floating point: distances, coordinates and times are exact; squared distances stand for distances.
- Case folding and trimming of text outside ASCII.
- `is_public_ip`, `validate_url` and name resolution of the HTTP client: `validate` is a parameter of `Request`; the size cap, time limit and encoding of the body are not modelled.
- Token signatures, claims and the preview and end-to-end roles of `resolve_staff`.
- `client_ip`, `username_key` and the switch-off of the login throttle when Redis fails (it then lets every login through).
- LoginThrottle.AtMostNineFailures: for sequential attempts on one pair; concurrent attempts of one pair may pass the check together.
- `ConnectionBudget`, central budgets and the alerts of the spend guard; runs that overlap, whose budgets do not see each other's spend.
- OpsBells.BellsAreSpaced: for one clock shared by the callers and the database, as the interval is measured from the caller's time to the database's.
- The sampling of state and spend findings, and the sample fields of a counted line.
- Idempotency keys, result and error columns of a job, the progress fields that claim and release write themselves (a handler's fields are taken to be others), the claim order by due time, and statements of other services on the job table.
- `shared/provider_circuit.py`, the LLM gateway and the worker's task handling.
