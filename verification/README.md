# CRM back end: a verified model

A Dafny model of the decision-making core of a Django CRM: who owns a lead and
for how long, which writes happen once, who may do what, which budget is
approved, and the text formats around them. `dafny verify dfyconfig.toml`
checks the whole project.

Each area has the same three layers. Values and specification functions say
what one step does to the tables (`datatype`s of sequences and maps). Where the
program changes rows, caches or counters in place, a class or a loop does the
same step by step and its `ensures` ties the new state to the specification.
Lemmas then state what the program promises, mostly as invariants over every
run or every interleaving of steps.

| file | what it models |
|---|---|
| `Text.dfy` | decimal numerals, as index strings and as typed numbers |
| `Tenants.dfy` | slug validation, database names, shared-cache scopes, `/t/<slug>/` routing |
| `Idempotency.dfy`, `ExactlyOnce.dfy` | the replay middleware, the browser's retry loop, and the two joined by a lossy network |
| `Permissions.dfy`, `Overrides.dfy`, `Authorization.dfy` | the permission cache, the override rewriting, and the services and signals that change both |
| `WebhookIntake.dfy`, `WebhookProcessing.dfy` | concurrent deduplication; import with capped retries |
| `Crm.dfy`, `Strategies.dfy`, `Distribution.dfy` | the lead tables, the load queries, the two built-in strategies, assignment and distribution |
| `Escalation.dfy`, `Unscoped.dfy`, `Endless.dfy` | termination of retry and escalation within teams; one expiry, and runs of them, without that confinement |
| `SlaExpiry.dfy`, `Lifecycle.dfy`, `CrmServices.dfy` | SLA expiry and lead history over all runs, and the services that change the tables |
| `Finance.dfy`, `Approvals.dfy`, `BudgetLines.dfy` | budget line keys and subtotals; the approved budget; lines by their place in the campaign |
| `Csv.dfy`, `Numbers.dfy` | the CSV printer against an independent reader; digit grouping and the caret |
| `Chat.dfy`, `ChatOpening.dfy` | conversations, messages and the two unread counts; users opening conversations at once |

## What turned out not to hold

Each point is proved, with the exact condition where there is one.

- A save reaches only the new owner of its row. When it moves a role, role
  permission or override row, the cache stays coherent if and only if nobody it
  does not signal has a live entry that rested on that row alone
  (`SaveCoherentIff`, over runs `RunCoherentIff`). The admin form can move a user
  role to another user; `MovedUserRoleGoesStale` is that instance. Rows saved under their owner, inserted or deleted are always
  covered (`KeepingOwnersIsSafe`). Deactivating a user's roles with a bulk
  update keeps the cache coherent if and only if the user has no live entry or
  overrides decide all their role codes (`SilentDemotionCoherentIff`).
- `update_user_overrides` gives exactly the requested set if and only if the
  rows are `Ready` for it (`RewriteExactIffReady`): an expired row that the
  rewriting reuses, or a default role that is not actively assigned, breaks it
  (`ExpiredRowHidesSubmitted`, `UnassignedDefaultHidesSubmitted`).
- Stored webhook events are unique if and only if the database has both
  conditional constraints or no two receivers race (`UniqueIffEnforcedOrNoRace`;
  two deliveries of one new payload do race, `EqualPayloadsRace`). The base
  settings and every tenant configure MySQL or MariaDB
  (config/settings/base.py:99, apps/tenants/models.py:52), for which Django
  creates no conditional unique constraint, although
  apps/integrations/models.py:82-94 declares them; the development default is
  sqlite (config/settings/development.py:11-18), which gets them.
- A pair of users has one conversation after every interleaving of openings if
  and only if no two openers race (`UniqueIffNoRace`); two users who open a chat
  with each other for the first time do (`FirstContactRaces`).
- A lead is handed back to the salesman it is taken from, though others are
  eligible, for some choice from the pool if and only if the caller's copy names
  another salesman than the row and both the stored salesman and somebody else
  are eligible (`ReturnsToStoredIff`; `StaleCopyReturnsLead` is an instance with
  the built-in rotation). The pool is filtered by the copy, the history row is
  written from the locked row.
- The retry and escalation policy is described as moving on team by team, but
  it ends only when distribution is confined to a team. With the scope "all
  salesmen" one escalation settles under every strategy if and only if nobody it
  can reach sits in a team that is not higher (`UnscopedProgressIff`). A lead is
  then reassigned for ever, whatever is chosen, if and only if a retry that is
  due finds an eligible member of its team, and its team and every team it can be
  moved to has one above it (`AlwaysGoesOnIff`, `TrapExists`); and for some choices if and only if
  a due retry finds an eligible member of the lead's team, its team has one above, and there is a
  ping-pong to enter (`CanGoOnIff`).
- Attempt numbers start over at 1 for a lead without a team, so an expiry keeps
  the numbering if and only if the lead has a team, no retry is due, or the
  first team it would land in has no attempt yet (`ExpiryKeepsNumbering`, over
  runs `RunKeepsNumberingIff`; `TeamlessRetryRepeatsNumber` is an instance).
- `process_instance` describes itself as handling one instance idempotently,
  but it trusts the copy it is given: two copies that were both read as active
  breach the row twice (`StaleCopyBreachesTwice`). Runs of
  `expire_sla_instance` as atomic steps are safe (`HandledAtMostOnce`).
- Bulk reactivation, merging a duplicate, and the admin form
  (apps/leads/admin.py:37-43) write a lead's owner without a history row. In any
  run, a lead's history always replays to its owner if and only if none of them
  writes an owner other than the stored one (`HistoryReplaysIff`). Merging an
  active lead clears it (`MergeLosesHistory`); merging an inactive one saves the
  owner as it was read without a lock, and so can put an old owner back
  (`StaleMergeLosesHistory`). A later assignment breaks the chain for good
  (`BrokenForGood`).
- A semi-approved budget can be negative, and does become so for some set of
  rejected lines if and only if money is spent on social media
  (`NeverNegativeIffNoSocialSpend`): a social ad's own line repeats the sum of
  its platform lines. For given rejected lines it is negative if and only if what
  is deducted twice exceeds the money kept (`ApprovedIsKeptLessOverlap`).
- A validated slug may have up to 63 characters, but the database name fits its
  column only up to 58 (`DbNameFitsColumn`).
- The CSV text has no final line break, so a reader that takes a final line
  break as optional loses a last row that consists of one empty cell
  (`RoundTripEnded`).
- A write's view succeeds at most once in a run if and only if no delivery that
  would succeed comes a lifetime after a success (`AtMostOnceIff`).
- A write whose form carries a key runs unprotected if and only if its header is
  present, not empty, and blank (`BlankHeaderHidesFormKey`). A no-break space is
  such a header, and reaches the program (`NoBreakSpaceRunsTwice`).

## Model

| member | source | states |
|---|---|---|
| `Tenants.ValidatedSlugIsClean` | apps/tenants/services.py:18-35 | a slug that validation accepts matches the whole pattern, with no line break let through by `$`, and is new |
| `Tenants.SlugAcceptedIff` | apps/tenants/services.py:18-35 | a text is accepted exactly if, without its padding and in lower case, it has 1 to 63 letters, digits and inner hyphens and is new; that text comes back |
| `Tenants.StripIsPadding` | apps/core/middleware.py:28 | stripping leaves exactly the core that blanks surround |
| `Tenants.DbNameInjective` | apps/tenants/services.py:72 | different validated slugs get different database names, although hyphens become underscores |
| `Tenants.DbNameFitsColumn` | apps/tenants/models.py:11-18 | the database name fits its 64-character column exactly for slugs of at most 58 characters, fewer than the pattern admits |
| `Tenants.ScopesSeparateTenants` | apps/tenants/db.py:32-38 | no two tenants, nor a tenant and the control plane, share a scope |
| `Tenants.ScopeHasNoColon` | apps/tenants/db.py:32-38 | scopes that occur contain no colon, so the separator in a shared key is unambiguous |
| `Tenants.ScopedKeyInjective` | apps/core/middleware.py:45-49 | equal cache keys come from equal scopes and equal client keys, whatever the client sends |
| `Tenants.KeyFamiliesDisjoint` | apps/authorization/services.py:31-37 | no idempotency key can land on a cached permission set |
| `Tenants.NamesSpelled` | apps/tenants/services.py:70-73 | how database names, aliases, scopes and shared keys read |
| `Tenants.RoutersAgree` | apps/tenants/asgi.py:23-28 | on every tenant path the HTTP stripper and the WebSocket splitter find the same slug and the same rest, and both refuse an empty slug |
| `Tenants.RemountRestoresPath` | apps/tenants/middleware.py:44-60 | joining prefix, slug and stripped path gives back the path, or the path with a final slash exactly when nothing followed the slug |
| `Tenants.MountedUrlRoutesBack` | apps/tenants/middleware.py:55-60 | a URL built under a valid slug's mount is routed back to that slug and path by both routers |
| `Tenants.TenantRouting.Call` | apps/tenants/middleware.py:29-64 | which of not found, suspended, redirected or served (and with which alias and path) each request gets; no tenant alias outlives its request |
| `Middleware.ReplayKeepsMeaning` | apps/core/middleware.py:62-81 | a replay of a success is a success with the same status and content, or a redirect to the same location |
| `Middleware.SecondDeliveryReruns` | apps/core/middleware.py:37-60 | after an answer from 200 to 399, a second delivery runs the view again exactly when the request is unprotected or twelve minutes have passed, and is otherwise answered with the replay |
| `Middleware.FreshDeliveryRunsView` | apps/core/middleware.py:41-60 | unless its key is live, a request runs the view under that key and gets its answer |
| `Middleware.ErrorsStayRetryable` | apps/core/middleware.py:56-60 | after any other answer nothing is cached and a second delivery runs the view |
| `Middleware.BlankHeaderHidesFormKey` | apps/core/middleware.py:23-28 | a write whose form carries a key is unprotected exactly if its header is present, not empty, and consists of blanks |
| `Middleware.NoBreakSpaceRunsTwice` | apps/core/middleware.py:23-43 | with a no-break space as header, two deliveries at the same moment both run the view, whatever the form key |
| `Middleware.ExtractedKeyIsSent` | apps/core/middleware.py:23-28 | the key taken is exactly the one sent: the core of a header that is not empty, whatever the form says, or of a write's form field if the header is absent or empty |
| `Middleware.ProtectedIff` | apps/core/middleware.py:20-43 | exactly the POST, PUT and PATCH requests that send a key are protected |
| `Middleware.SharedEntryIff` | apps/core/middleware.py:45-49 | two writes share a cache entry exactly if they come from one scope and send one key |
| `Middleware.OtherKeyRunsView` | apps/core/middleware.py:49-60 | a write under a new key runs its view, whatever write went before |
| `Middleware.IdempotencyMiddleware.Call` | apps/core/middleware.py:37-60 | the in-place middleware does to cache and view runs what the protocol step `Handle` says |
| `RetryClient.BackoffClosedForm` | static/base/crm_utils.js:104-118 | k failed attempts sleep baseDelay times (2^k - 1) in all |
| `RetryClient.AfterProfile` | static/base/crm_utils.js:104-118 | however replies arrive, the client goes on only after transient ones, never past its last attempt, and its sleep is the backoff of the attempts it retried |
| `RetryClient.FetchWithRetry` | static/base/crm_utils.js:102-120 | the loop returns a final or last answer, throws only if the last attempt was dropped, sends nothing if `retries` is negative, and agrees with the reply-by-reply client |
| `RetryClient.FirstReplyDecides` | static/base/crm_utils.js:105-117 | a reply is retried, after the base delay, exactly if it is dropped or a status from 500 and an attempt is left; any other is returned |
| `ExactlyOnce.OthersAreForeign` | apps/core/middleware.py:45-49 | a request is protected by this write's cache entry exactly if it is a write of the same scope that sends the same key |
| `ExactlyOnce.NextSafe` | apps/core/middleware.py:37-81 | every send, delivery that is not late, loss, answer, timeout, tick and foreign request keeps the protocol invariant |
| `ExactlyOnce.ExactlyOnceWrite` | static/base/crm_utils.js:87-129 | in every run over the lossy network without a late delivery the view succeeds at most once, a client that sees success sees that response or its replay, and attempts and backoff are bounded |
| `ExactlyOnce.AtMostOnceIff` | apps/core/middleware.py:49-60 | in any run the view succeeds at most once exactly if no delivery that would succeed comes 720 s or more after a success |
| `ExactlyOnce.LateDeliveryRunsTwice` | apps/core/middleware.py:18-19 | two deliveries a full lifetime apart both succeed, so the assumption on delivery times is needed |
| `Permissions.StepCoherentIff` | apps/authorization/services.py:39-49 | a signalled write, read or clock tick keeps every live cache entry equal to a computation on the current tables exactly if it leaves no live entry that rested on a moved row |
| `Permissions.KeepingOwnersIsSafe` | apps/authorization/signals.py:12-25 | inserting, deleting, or saving a row under its owner leaves nothing stale |
| `Permissions.RunCoherentIff` | apps/authorization/signals.py:12-25 | a run of signalled writes, reads and ticks is coherent throughout exactly if none of its saves leaves a live entry stale |
| `Permissions.GetCodesCoherent` | apps/authorization/services.py:39-71 | in every run whose saves leave no live entry stale, `get_codes` equals a computation on the current tables at a time less than 300 s ago |
| `Permissions.GetCodesBounded` | apps/authorization/services.py:21-49 | even with rows changed without a signal, `get_codes` is what the tables gave at some state less than 300 s ago |
| `Permissions.EntryHasOrigin` | apps/authorization/services.py:39-49 | every cache entry was stored by a computation at an earlier state of the run |
| `Permissions.InvalidationExact` | apps/authorization/signals.py:12-25 | a save drops exactly the entries of the row's user, or of the active holders of the row's role |
| `Permissions.ReadIsCached` | apps/authorization/services.py:39-49 | a set handed out is handed out again until 300 s after it was computed, and reading touches nobody else's entry |
| `Permissions.UnsignalledChangesIff` | apps/authorization/signals.py:12-25 | a write changes what an unsignalled user may do exactly if it moves away a row that alone gave them its role's codes, its code, or its denial |
| `Permissions.SaveCoherentIff` | apps/authorization/signals.py:12-25 | a signalled save keeps the cache coherent exactly if no unsignalled user has a live entry that rested on the moved row alone |
| `Permissions.MovedUserRoleGoesStale` | apps/authorization/signals.py:12-15 | an instance: a user role saved under another user leaves its former user a code that the current tables give at no clock |
| `Overrides.SettleOwn` | apps/authorization/services.py:239-256 | after one permission's turn the user has the target override row alone, with its old expiry if it existed, or none |
| `Overrides.RewriteRows` | apps/authorization/services.py:224-256 | the loop settles each active permission once, leaves all other users' and inactive permissions' rows, and keeps rows unique |
| `Overrides.EffectiveAfter` | apps/authorization/services.py:199-258 | exactly which codes are effective after the rewriting, expired rows included |
| `Overrides.RewriteExactIffReady` | apps/authorization/services.py:199-258 | the effective active codes are the submitted ones plus those other roles grant, if and only if the rows are ready |
| `Overrides.ExpiredRowHidesSubmitted` | apps/authorization/services.py:125-128 | an instance: the expired ALLOW row that is reused keeps its expiry, and the submitted code is not effective |
| `Overrides.UnassignedDefaultHidesSubmitted` | apps/authorization/services.py:228-237 | an instance: a submitted code left to a default role that is not assigned is not effective |
| `Overrides.AssignedDefaultIsReady` | apps/authorization/services.py:212-222 | rows are ready when the default role is actively assigned and no override of the user has expired |
| `Overrides.NewUserGetsSubmitted` | apps/accounts/services.py:31-46 | a new user's effective codes are exactly the submitted active ones |
| `Overrides.SecondCallIsSilent` | apps/authorization/services.py:206-278 | a second call with the same codes changes no effect, no effective set and not the audit view, so it logs nothing |
| `Overrides.AuditViewIgnoresReason` | apps/authorization/services.py:206-210 | what the audit compares does not depend on reasons |
| `Overrides.AuditViewExact` | apps/authorization/services.py:206-210 | the snapshot holds exactly the codes the user has a row for, with the effect of the last such row |
| `Authorization.AuthorizationStore.InvalidateRole` | apps/authorization/signals.py:18-25 | the loop drops exactly the cache entries of the role's active holders |
| `Authorization.AuthorizationStore.SaveUserRole` | apps/authorization/signals.py:12-15 | saving or deleting a user role is the coherent step of the model |
| `Authorization.AuthorizationStore.SaveRolePermission` | apps/authorization/signals.py:18-25 | saving or deleting a role permission is the coherent step of the model |
| `Authorization.AuthorizationStore.SaveOverride` | apps/authorization/signals.py:12-15 | saving or deleting an override is the coherent step of the model |
| `Authorization.AuthorizationStore.ReadCodes` | apps/authorization/services.py:39-49 | reading through the cache is the read step of the model; anonymous users get nothing and touch nothing |
| `Authorization.AuthorizationStore.AssignRole` | apps/authorization/services.py:157-173 | adds the role to the user's active ones whether or not a row existed, changes nobody else's, and drops the cache entry |
| `Authorization.AuthorizationStore.SetUserOverride` | apps/authorization/services.py:110-129 | updates or inserts the row of that effect and drops the cache entry |
| `Authorization.AuthorizationStore.UpdateUserOverrides` | apps/authorization/services.py:199-278 | the loop over active permissions produces the rewritten rows, empties the cache entry, and logs once exactly if the effects changed and auditing is on |
| `Authorization.AuthorizationStore.CreateUser` | apps/accounts/services.py:19-46 | a created user's computed codes are exactly the submitted active ones, and nobody else's cache entry is touched |
| `Authorization.AuthorizationStore.UpdateUser` | apps/accounts/services.py:74-116 | refused, with nothing changed, exactly if somebody else changes the superuser; otherwise, without expired overrides, the computed active codes are the requested ones, and with neither role nor codes the cache is left as it was |
| `Authorization.SilentDemotionCoherentIff` | apps/accounts/services.py:105-106 | the bulk deactivation, which fires no signal, keeps the cache coherent exactly if the user has no live entry or overrides decide all codes their roles gave |
| `WebhookIntake.NextSafe` | apps/integrations/services.py:31-63 | with both constraints, check, insert, conflict, re-query, commit and rollback keep the intake invariant |
| `WebhookIntake.InterleavingsSafe` | apps/integrations/services.py:31-63 | with both constraints, in every interleaving stored events of an endpoint share no hash and no non-empty external id, and every receiver that returns, returns a stored matching event |
| `WebhookIntake.StoredEventsDiffer` | apps/integrations/models.py:82-94 | the same from the stored values: no shared hash, no shared non-empty external id, and a returned event has the receiver's hash or id |
| `WebhookIntake.SamePayloadSameEvent` | apps/integrations/models.py:82-94 | with both constraints, two deliveries of one payload without an external id return one event |
| `WebhookIntake.UniqueIffEnforcedOrNoRace` | apps/integrations/models.py:82-94 | every interleaving from a state keeps stored events unique exactly if the constraints are enforced or no two receivers, nor a receiver and an uncommitted row, race |
| `WebhookIntake.EqualPayloadsRace` | apps/integrations/services.py:35-49 | two deliveries of one payload that is not stored yet race |
| `WebhookIntake.NeverNull` | apps/integrations/services.py:41-63 | with or without the constraints, no receiver returns null |
| `WebhookProcessing.ProcessSafe` | apps/integrations/services.py:122-146 | importing keeps "processed exactly if it carries its lead" and leaves processed events alone |
| `WebhookProcessing.ImportOutcome` | apps/integrations/services.py:116-146 | an unprocessed event whose creation succeeds becomes processed with exactly one new lead naming it and no error; one that is refused becomes failed with the message cut to 1000 characters; no other event changes |
| `WebhookProcessing.RetryOutcome` | apps/integrations/tasks.py:26-38 | below the cap a turn adds one row with the next number, runs the import, and the row tells how it ended; at the cap it does nothing |
| `WebhookProcessing.BatchExact` | apps/integrations/tasks.py:23 | a batch holds failed events only, each once, and all of them unless it is full |
| `WebhookProcessing.BatchOutcome` | apps/integrations/tasks.py:25-38 | each event of a batch below the cap gets one retry and ends processed exactly if its creation succeeds |
| `WebhookProcessing.RetryOneSafe` | apps/integrations/tasks.py:25-38 | one turn of the retry loop keeps the numbering 1..k and the cap |
| `WebhookProcessing.RunSafe` | apps/integrations/tasks.py:17-39 | over every run events stay distinct, an event is processed exactly if it carries its lead, only failed events carry an error, its retries are numbered 1..k with k at most the cap, and a retry that says processed belongs to a processed event |
| `WebhookProcessing.AtMostOneLead` | apps/integrations/services.py:122-140 | no event ever creates two leads |
| `WebhookProcessing.LeadsCountProcessed` | apps/integrations/services.py:122-140 | in every state of a run there are as many leads as processed events |
| `WebhookProcessing.ProcessedIsForGood` | apps/integrations/services.py:122-124 | a processed event never changes again |
| `WebhookProcessing.WebhookStore.ReceiveEvent` | apps/integrations/services.py:31-63 | an undisturbed post stores a new event or returns the first match |
| `WebhookProcessing.WebhookStore.ProcessEvent` | apps/integrations/services.py:113-146 | the in-place import does what the model's step does, and raises only when the error handling fails as well |
| `WebhookProcessing.WebhookStore.RetryFailed` | apps/integrations/tasks.py:17-39 | the loop is the model's batch, and its counter is the number of retry rows written |
| `Selectors.PoolExact` | apps/distribution/selectors.py:12-24 | the pool holds exactly the eligible members of the scope, ordered by user |
| `Selectors.PoolMeans` | apps/distribution/selectors.py:14-21 | who is in the pool, told from the rows of members, teams and users |
| `Selectors.PoolTimes` | apps/distribution/selectors.py:12-24 | the pool holds an eligible membership as often as the table does, and no other |
| `Selectors.LoadExact` | apps/distribution/selectors.py:42-55 | a user's load is the number of their active leads and the latest of their receipts, missing exactly if there is none |
| `Selectors.GroupCountsExact` | apps/distribution/selectors.py:67-76 | the grouped count of a listed user is that user's own count |
| `Selectors.GroupLatestExact` | apps/distribution/selectors.py:77-84 | the grouped latest time of a listed user is that user's own latest |
| `Selectors.BatchRefinesSingle` | apps/distribution/selectors.py:42-88 | the batch query gives exactly `candidate_load` for exactly the listed users, duplicates allowed |
| `Selectors.BatchCountsSum` | apps/distribution/selectors.py:58-88 | the counts add up to the active leads the listed users hold |
| `Selectors.NextTeam` | apps/distribution/services.py:309-316 | the next team is the active one with the least order above the given order, and is missing only if there is none |
| `Strategies.SelectsFromPool` | apps/distribution/services.py:161-168 | a strategy returns a pool member with that member's team, or nobody; the built-in ones never nobody on a non-empty pool |
| `Strategies.LeastLoaded` | apps/distribution/strategies/round_robin.py:25-34 | the first member none of the others comes before |
| `Strategies.RoundRobinPicksLeastLoaded` | apps/distribution/strategies/round_robin.py:17-40 | no member of the pool has fewer leads, or as many and an earlier last receipt, than the chosen one |
| `Strategies.CursorAdvances` | apps/distribution/strategies/by_turn.py:26-33 | k turns move the cursor k places round the pool from wherever it stood |
| `Strategies.EveryMemberGetsATurn` | apps/distribution/strategies/by_turn.py:14-37 | over an unchanged pool every member is chosen within as many turns as the pool has members |
| `Distribution.PreferKeeps` | apps/distribution/services.py:145-150 | a member stays in the pool exactly if it is not the copy's salesman or everybody in the pool is |
| `Distribution.RecordedCandidatesExplain` | apps/distribution/services.py:213-227 | one row per pool member with that member's load, unrejected exactly for the chosen user |
| `Distribution.DecidedOutcome` | apps/distribution/services.py:133-175 | opening, choosing and recording add one pending run, touch no owner, and choose from the preferred pool or nobody |
| `Distribution.DistributeOutcome` | apps/distribution/services.py:114-211 | every call adds one run closed as DONE or NO_CANDIDATE; DONE adds one history row from the stored owner and sets the selected team and salesman (none under TEAM_HEAD_DECIDES); NO_CANDIDATE changes neither |
| `Distribution.DecidingStrategiesAssign` | apps/distribution/services.py:152-211 | a strategy that decides, as the built-in ones do, ends DONE on a non-empty pool |
| `Distribution.DistributeFrame` | apps/distribution/services.py:114-211 | no other lead changes, of this lead only the owner, and no roster, attempt or breach row |
| `Distribution.DistributeEffects` | apps/distribution/services.py:40-69 | an assigning run restarts the lead's SLA, dates the history row, names the strategy unless the head decides, and notifies exactly the salesman or the team head; a run without candidate touches no SLA |
| `Distribution.OwnerChangesIfPossible` | apps/distribution/services.py:145-150 | a lead goes back to the salesman of the caller's copy only if nobody else was eligible, and to its stored salesman only if nobody else was or the copy names another |
| `Distribution.ReturnsToStoredIff` | apps/distribution/services.py:145-150 | some choice from the pool returns the lead to its stored salesman without need exactly if the copy names another and both the stored one and somebody else are eligible |
| `Distribution.StaleCopyReturnsLead` | apps/distribution/services.py:40-57 | an instance under BY_TURN: the history row has the same salesman on both sides |
| `Distribution.DistributeExplains` | apps/distribution/services.py:213-227 | the candidate rows of a run without a rejection reason are exactly the chosen user's |
| `Distribution.DistributeFollowsTables` | apps/distribution/services.py:137-183 | a run assigns only an available member of company, language and team, and a deciding strategy assigns exactly if there is one |
| `Distribution.RoundRobinRun` | apps/distribution/strategies/round_robin.py:17-40 | a round-robin run is given to the first pool member with the fewest active leads and then the longest wait, and moves no cursor |
| `Distribution.ByTurnRun` | apps/distribution/strategies/by_turn.py:14-37 | a by-turn run is given to the member at the cursor of company, scope and language, and moves that cursor one place round the pool |
| `Distribution.EveryMemberGetsARun` | apps/distribution/strategies/by_turn.py:14-37 | as many by-turn runs over an unchanged pool as it has members give every member one |
| `Distribution.HandAssignment` | apps/distribution/services.py:72-82 | by hand a salesman comes with the team given or keeps the lead's, under a MANUAL row |
| `Distribution.TeamAssignment` | apps/distribution/services.py:84-100 | by hand a team takes the lead without a salesman and its head is told |
| `Escalation.NextTeamShrinks` | apps/distribution/services.py:309-316 | the next team leaves strictly fewer order values above it |
| `Escalation.RetryProgresses` | apps/distribution/services.py:272-295 | a retry uses up one attempt in the lead's team, or leaves the lead to the distributors |
| `Escalation.EscalationProgresses` | apps/distribution/services.py:297-324 | a team-scoped escalation moves the lead up, or leaves it to the distributors |
| `Escalation.ExpiryProgresses` | apps/distribution/services.py:254-270 | each expiry leaves the owner and notifies, or lowers (teams left, retries left) lexicographically |
| `Escalation.RetryBranch` | apps/distribution/services.py:263-295 | with retries left an expiry adds one attempt numbered count + 1 and hands the lead to that member, or, exactly if nobody is available in the team, only notifies |
| `Escalation.EscalationBranch` | apps/distribution/services.py:297-324 | past its retries a lead is left to the distributors exactly if it is a broker's, no active team is above, nobody is available there, or the strategy declines; otherwise it is handed over, to the least team above when distribution is confined |
| `Escalation.TeamlessAbove` | apps/distribution/services.py:309-313 | a lead without a team can go to every active team of the company whose order is not negative |
| `Escalation.RetryRotates` | apps/distribution/services.py:278-284 | retry k of an unchanged pool goes to its k-th member, starting over after the last |
| `Escalation.RunBound` | apps/distribution/services.py:254-324 | over any run, with rosters and availability changing, reassignments plus what is left never grow |
| `Escalation.ReassignmentsBounded` | apps/distribution/services.py:254-324 | with k order values above and n retries, at most k + n(k + 1) reassignments happen |
| `Escalation.ExpiryKeepsNumbering` | apps/distribution/services.py:263-295 | attempts of a lead and team stay numbered 1..count exactly if the copy has a team, no retry is due, or the first team of the retry pool has no attempt of the lead |
| `Escalation.RunKeepsNumberingIff` | apps/distribution/services.py:254-295 | the numbering holds in every state of a run, whatever the scopes, exactly if each of its expiries numbers on |
| `Escalation.TeamlessRetryRepeatsNumber` | apps/distribution/services.py:263-290 | an instance: a lead without a team gets a second attempt number 1 in the team it lands in |
| `Escalation.RetryOutcome` | apps/distribution/services.py:272-295 | a retry hands the lead to an eligible member of its team and records that attempt; it goes to the copy's salesman only if nobody else was eligible, and to the stored one only then or if the copy names another |
| `Unscoped.UnscopedProgressIff` | apps/distribution/services.py:297-324 | with all salesmen in scope, an expiry is left to the distributors or progresses under every strategy exactly if nobody reachable sits in a team that is not higher |
| `Unscoped.EscalationMoves` | apps/distribution/services.py:297-324 | an unscoped escalation notifies, or gives the lead to an eligible member other than its salesman unless there is no other |
| `Endless.AlwaysGoesOnIff` | apps/distribution/services.py:254-324 | a lead is reassigned at every expiry for ever, retries included and whatever strategies decide, exactly if a due retry finds an eligible member of the lead's team and its team and every team it can reach have one above |
| `Endless.CanGoOnIff` | apps/distribution/services.py:254-324 | it can be reassigned any number of times, from its retries and three up, exactly if a due retry finds an eligible member of the lead's team, its team has one above, and two salesmen, or one who is everybody, sit under teams that do |
| `Endless.TrapExists` | apps/distribution/services.py:307-320 | tables with two salesmen under the lower two of three teams are such a trap |
| `SlaExpiry.ResetIsContained` | apps/leads/services/sla_service.py:130-143 | reopening completes the lead's active instances, opens one exactly if there is a deadline, and leaves every other instance |
| `SlaExpiry.CancelIsContained` | apps/leads/services/lead_admin_service.py:110-112 | cancelling closes the same instances and opens none |
| `SlaExpiry.StaleCopyBreachesTwice` | apps/distribution/services.py:354-374 | handling an active copy keeps events and instances in step exactly if the row is not yet breached |
| `SlaExpiry.ExpiryOutcome` | apps/leads/tasks.py:39-59 | the Celery job acts exactly on an active instance, then breaches it with one event that names lead and action; otherwise, exceptions included, the tables are as before |
| `SlaExpiry.ActionMatchesEvent` | apps/distribution/services.py:367-392 | the new breach event names the company's method, MANUAL for brokers, and that is what happened: one run among all teams by the company's strategy or by BY_TURN, one retry, run or notice, or a notice alone |
| `SlaExpiry.BrokerLeadsStayPut` | apps/distribution/services.py:367-369 | expiry never reassigns a broker's lead |
| `SlaExpiry.MethodMovesOn` | apps/distribution/services.py:383-392 | no expiry action adds a breach or reopens a closed instance |
| `SlaExpiry.MovedOnIsContained` | apps/leads/services/lead_stage_service.py:58-71 | resetting or cancelling leaves closed instances, breaches none, and keeps one active instance a lead |
| `Lifecycle.StepRecorded` | apps/distribution/services.py:33-69 | every assigning step, on whatever stale copy it was decided, changes the owner only with a history row from the stored owner to the new one |
| `Lifecycle.StepTraces` | apps/distribution/services.py:40-57 | a step keeps a lead's replay exactly if it does not write another owner without a row; a broken chain stays broken, and reassigning a lead whose replay does not hold breaks it |
| `Lifecycle.HistoryReplaysIff` | apps/distribution/services.py:33-69 | in a run, a lead's rows chain and fold to its owner in every state exactly if no merge, bulk reactivation or admin edit writes another owner than the stored one |
| `Lifecycle.BrokenForGood` | apps/distribution/services.py:40-57 | once a lead is reassigned while its history does not replay, no later write makes it replay again |
| `Lifecycle.RunInvariant` | apps/leads/tasks.py:26-59 | in every reachable state, stage changes, closing and reactivation included, a lead has one active instance at most and one breach event exists per breached instance |
| `Lifecycle.ClosedForGood` | apps/leads/tasks.py:39-46 | an instance that is no longer active never changes |
| `Lifecycle.HandledAtMostOnce` | apps/leads/tasks.py:26-59 | over any duplicate, late or failing runs the expiry action of an instance happens at most once |
| `Lifecycle.MergeLosesHistory` | apps/leads/services/lead_creation_service.py:240-247 | an active lead created for somebody and merged is such a run |
| `Lifecycle.StaleMergeLosesHistory` | apps/leads/services/lead_creation_service.py:240-247 | an inactive lead handed on between the unlocked read and the full save is put back, and its next assignment breaks the chain |
| `CrmServices.Store.OpenInstance` | apps/leads/services/sla_service.py:115-143 | the row updates are the model's reset |
| `CrmServices.Store.Assign` | apps/distribution/services.py:33-69 | the shared routine changes the tables as the model's assignment does |
| `CrmServices.Store.AssignToSalesman` | apps/distribution/services.py:72-82 | assigning by hand keeps the current team when none is given |
| `CrmServices.Store.AssignToTeam` | apps/distribution/services.py:84-100 | assigning to a team clears the salesman and asks its head to pick |
| `CrmServices.Store.LeastLoadedMember` | apps/distribution/strategies/round_robin.py:21-36 | the scan with a running best finds the least loaded member |
| `CrmServices.Store.SelectCandidate` | apps/distribution/strategies/by_turn.py:24-33 | choosing moves only the rotation pointer, as the model says |
| `CrmServices.Store.RecordCandidates` | apps/distribution/services.py:213-227 | the loop writes the model's candidate rows |
| `CrmServices.Store.Distribute` | apps/distribution/services.py:114-211 | the workflow ends in the model's state, every table included |
| `CrmServices.Store.CountAttempts` | apps/distribution/services.py:263-265 | the attempts of the lead in its team |
| `CrmServices.Store.HandleExpiry` | apps/distribution/services.py:254-270 | retrying or escalating ends in the model's state |
| `CrmServices.Store.RetryWithinTeam` | apps/distribution/services.py:272-295 | a retry ends in the model's state |
| `CrmServices.Store.EscalateNextTeam` | apps/distribution/services.py:297-324 | an escalation ends in the model's state |
| `CrmServices.Store.ProcessInstance` | apps/distribution/services.py:354-393 | handling raises exactly if a fault strikes an active copy, midway through the action included, and otherwise ends in the model's state |
| `CrmServices.Store.ExpireSlaInstance` | apps/leads/tasks.py:26-59 | wherever the fault strikes, and whatever the action had already written, the tables are those before it and one job-log entry is added |
| `Finance.TagUnique` | apps/finance/services.py:146-211 | a key under a section belongs to one index only, although numerals can be prefixes of each other |
| `Finance.IndexedNoDup` | apps/finance/services.py:146-211 | groups with distinct keys under distinct indices have distinct keys together |
| `Finance.SectionKeys` | apps/finance/services.py:141-219 | within each section all keys are distinct and carry the section's root |
| `Finance.KeysDistinct` | apps/finance/services.py:141-221 | all keys the nested loops produce are pairwise distinct, for any campaign |
| `Finance.SectionSum` | apps/finance/services.py:141-219 | a section's items add up to its subtotal, and to twice it for social media |
| `Finance.SubtotalsMatch` | apps/finance/services.py:144-146 | the same holds of every section that is listed |
| `Approvals.NoLineLost` | apps/finance/services.py:113-116 | the amount dictionary has one entry per line, with that line's amount |
| `BudgetLines.LineInSection` | apps/finance/services.py:141-221 | every budget line, named by its place in the campaign, stands in its section with its own caption, amount and key |
| `BudgetLines.LineInBreakdown` | apps/finance/services.py:144-221 | every line is shown in the breakdown under its heading |
| `BudgetLines.LookupFindsAmount` | apps/finance/services.py:113-117 | looking up a line's key in the dictionary finds that line's amount |
| `BudgetLines.KeysAreLines` | apps/finance/services.py:113-116 | the dictionary's keys are exactly the keys of the campaign's lines |
| `BudgetLines.RejectingCostsTheLine` | apps/finance/services.py:102-119 | rejecting one more line lowers the approved budget by exactly that line's amount |
| `Approvals.StatusDecides` | apps/finance/services.py:102-119 | an approved campaign has its total whatever is rejected, a pending or refused one nothing, and a semi-approved one with no known line rejected its total |
| `Approvals.NeverMoreThanTotal` | apps/finance/services.py:102-119 | in every status at most the total is approved |
| `Approvals.ApprovalAntitone` | apps/finance/services.py:102-118 | rejecting more lines never raises the approved budget |
| `Approvals.UnknownKeysHaveNoEffect` | apps/finance/services.py:117 | keys that name no line change nothing |
| `Approvals.ApprovalBounds` | apps/finance/services.py:102-118 | the approved budget lies between minus the doubly rejected social amounts and the total |
| `Approvals.ApprovalWithinTotal` | apps/finance/services.py:102-118 | it lies in [0, total] if no social ad has both its own line and a platform line rejected |
| `Approvals.ApprovedIsKeptLessOverlap` | apps/finance/services.py:102-118 | a semi-approved budget is the money kept, each amount once, less what is deducted twice, and negative exactly if that is more |
| `Approvals.RejectingEverythingGoesNegative` | apps/finance/services.py:188-195 | rejecting every line gives minus the social media subtotal |
| `Approvals.NeverNegativeIffNoSocialSpend` | apps/finance/services.py:102-118 | no set of rejected lines makes it negative if and only if nothing is spent on social media |
| `Approvals.RejectOneLess` | apps/finance/services.py:117-118 | taking one key out of the rejected set takes exactly its line's amount off |
| `Approvals.Breakdown` | apps/finance/services.py:141-221 | the nested loops with running totals produce the specified sections and subtotals |
| `Approvals.AppendOccasion` | apps/finance/services.py:149-165 | one event's or exhibition's lines and amount, through its four nested loops |
| `Approvals.StreetRows` | apps/finance/services.py:176-186 | the three nested loops over street ads |
| `Approvals.SocialRows` | apps/finance/services.py:188-195 | the loop over social ads, whose own lines count once in the subtotal |
| `Approvals.FillAmounts` | apps/finance/services.py:113-116 | the dictionary built over all sections is that of all lines |
| `Approvals.ComputeApprovedBudget` | apps/finance/services.py:102-119 | through dictionary and scan, total minus the sum over rejected lines; the total when approved or nothing is rejected; 0 otherwise |
| `Csv.ReadFieldInverts` | static/leads/lead_create.js:587-590 | a conforming reader reads a printed cell back whatever follows it, null as the empty string |
| `Csv.ReadRow` | static/leads/lead_create.js:587-590 | and a printed row as its cells |
| `Csv.RoundTrip` | static/leads/lead_create.js:585-591 | reading what `_csv` prints for non-empty rows gives the same rows |
| `Csv.RoundTripEnded` | static/leads/lead_create.js:585-591 | a reader that allows a final line break gets them back exactly unless the last of several rows is one empty cell |
| `Csv.PlainCellUnchanged` | static/leads/lead_create.js:589 | a cell is printed as it is exactly if it holds no quote, comma or line feed |
| `Numbers.CleanFormatted` | static/base/crm_utils.js:204-211 | grouping changes no digit of the number typed, leading zeros and later points aside |
| `Numbers.CommaPlaces` | static/base/crm_utils.js:208 | commas stand at every fourth place from the right and nowhere else |
| `Numbers.TypedWhole` | static/base/crm_utils.js:206-208 | without a point, the integer part is the digits typed less leading zeros, and there is no fraction |
| `Numbers.TypedFraction` | static/base/crm_utils.js:206-209 | with a point, the fraction is the digits between the first point and the second, and the rest is dropped |
| `Numbers.NegativeIff` | static/base/crm_utils.js:205 | a number is negative exactly if its first character that is no blank is a minus |
| `Numbers.GroupDigitsIdempotent` | static/base/crm_utils.js:204-211 | grouping a grouped text again changes nothing, for any input whose integer part is below 2^53 |
| `Numbers.ParseOfFormatted` | static/base/crm_utils.js:200-211 | parsing a grouped whole number gives the typed value with its sign |
| `Numbers.FormatParseRoundTrip` | static/base/crm_utils.js:200-211 | every integer strictly between -2^53 and 2^53 survives grouping and parsing |
| `Numbers.ParseNullIff` | static/base/crm_utils.js:200-203 | a text is no number at all exactly if nothing but blanks is left without its commas |
| `Numbers.RestoreCaret` | static/base/crm_utils.js:221-226 | the caret stops right after digit number `digitsLeft`, at the end if there are fewer digits |
| `Numbers.OnInput` | static/base/crm_utils.js:212-228 | after formatting the caret has as many digits before it as it had, whenever the result has that many |
| `Chat.OpenSafe` | apps/chat/services.py:44-60 | opening keeps two distinct people per conversation and one conversation per pair, succeeds exactly for another user of the company, and adds at most that conversation |
| `Chat.RunSafe` | apps/chat/services.py:44-87 | these hold in every reachable state |
| `ChatOpening.UniqueIffNoRace` | apps/chat/services.py:49-60 | every interleaving of openings leaves each pair one conversation exactly if no two openers, nor an opener and an uncommitted conversation, race |
| `ChatOpening.FirstContactRaces` | apps/chat/services.py:51-60 | two users opening a chat with each other for the first time race |
| `Chat.UnreadAgreement` | apps/chat/services.py:72-76 | the unread total is the sum of `unread` over the listed conversations, in any state, although unused ones are hidden |
| `Chat.ListExact` | apps/chat/services.py:244-272 | listed, once each, are exactly the user's conversations that hold a message, with the number of unread messages of the other |
| `Chat.ReadLowersOnlyReader` | apps/chat/services.py:188-195 | marking read lowers the reader's total by exactly its result and nobody else's |
| `Chat.SendRaisesOnlyOther` | apps/chat/services.py:79-87 | a message raises the other participant's total by one and nobody else's |
| `Chat.NothingLeftUnread` | apps/chat/services.py:188-195 | after marking read, nothing in that conversation is unread for the reader |
| `Chat.ChatService.GetOrCreateDirect` | apps/chat/services.py:44-60 | the in-place lookup or creation is the model's step |
| `Chat.ChatService.SendMessage` | apps/chat/services.py:79-87 | appends one unread message of a participant |
| `Chat.ChatService.MarkConversationRead` | apps/chat/services.py:188-195 | the update loop is the model's step and counts the rows it changed |
| `Text.ValueOfDecimal` | static/base/crm_utils.js:204-211 | a number's decimal text denotes that number |
| `Text.DecimalOfValue` | static/base/crm_utils.js:206-208 | a numeral without leading zeros is the decimal text of its value |
| `Text.DecimalInjective` | apps/finance/services.py:149-219 | distinct indices print as distinct texts |

## Left out

- Tables are sequences whose positions stand for identifiers, caches are maps
  with expiry times, and each service call or task is one atomic step except
  where interleaving is the point (webhook intake, opening chats, the write
  protocol).
- Row deletions that null foreign keys (users, teams, leads); only permission
  rows are deleted in the model.
- Permission cache: the gap between computing and storing inside `get_codes`,
  and signals that fire before their transaction commits.
- `Permissions.GetCodesCoherent`: excludes runs with a save that leaves a live
  entry stale, because the claim is false after some of them;
  `Permissions.RunCoherentIff` says which saves these are, and
  `Permissions.GetCodesBounded` covers every run.
- `Authorization.AuthorizationStore.UpdateUser`: leaves out languages, and the
  audit and the values of profile fields.
- Exactly-once writes: requests with one key that overlap at the server, cache
  eviction before expiry, DELETE (not among the server's write methods), and
  the browser following a redirect by itself.
- `ExactlyOnce.ExactlyOnceWrite`: about runs without a late delivery;
  `ExactlyOnce.AtMostOnceIff` shows that the others do fail.
- `RetryClient.FetchWithRetry`: takes whole, non-negative base delays, and
  leaves out CSRF headers and the overlay.
- `WebhookIntake.InterleavingsSafe`: assumes both conditional constraints, which
  MySQL and MariaDB do not get; `WebhookIntake.UniqueIffEnforcedOrNoRace`
  says what that costs. The re-query is assumed to see rows committed by others,
  and payloads with equal digests to be equal events; `last_used_at`, the audit
  entry and field mappings are left out.
- `WebhookProcessing.RunSafe`: takes posts one after the other, so its events are
  distinct without the constraints.
- Creating a lead from an event is an outcome (one lead, refused, or failed
  together with its error handling), because merging into an existing
  lead belongs to the lead services; retries being exhausted while occupying
  the batch is not addressed.
- Distribution: a strategy code nobody registered, which raises and rolls the
  run back; a registered strategy of another kind is represented by its
  choice of a pool member or nobody; a policy's values arrive resolved; actors,
  reasons and stage history are omitted.
- `Escalation.RetryProgresses`: says nothing about which members a rotation
  visits, since the index is taken modulo a pool without the current owner.
- `Endless.AlwaysGoesOnIff`: with the roster and the policy as they stand.
- `Permissions.RunCoherentIff`: exact for entries that are right at the clock they
  were stored at; a read may also be right at another clock of the window only.
- `Selectors.PoolExact`: the order among rows of one user is the table's, where
  the query leaves it open.
- Lead creation, beyond giving a lead its first owner, and stage, freeze and
  meeting handling.
- Finance amounts are whole cents, not binary floating point.
- `Numbers.GroupDigitsIdempotent`: integer parts of 2^53 and more, where the
  program rounds, and other locales.
- `Tenants.ValidatedSlugIsClean`: ASCII letters only; lower-casing of other
  alphabets is not part of the model.
- `Tenants.TenantRouting.Call`: the checks Django makes on a redirect's scheme
  and on cookies; provisioning and migrations.
- `Chat.UnreadAgreement`: the order of the conversation list, attachments and
  message bodies.
- `Chat.RunSafe`: takes openings one after the other;
  `ChatOpening.UniqueIffNoRace` says what racing ones do.
- Notifications other than the ones distribution writes, calendars, policies'
  forms, pages, and administration.
