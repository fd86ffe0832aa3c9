# Verified models of the platform's hardest rules

Dafny 4.11 models of the parts of this repository where a small slip in ordering, timing or string handling would
do real harm, with proofs of what those parts promise. `dafny verify dfyconfig.toml` checks everything.

## What is modelled

**The Graph account-task outbox** (`GraphTask`, `GraphOutbox`, `GraphOutboxSafety`, `GraphOutboxTiming`,
`GraphOutboxCalm`, `GraphOutboxOrder`, `GraphOutboxSteps`, `GraphOutboxRuns`, `GraphOutboxTheorems`, `GraphQueue`,
`GraphHeartbeat`).
The API writes an account task in the transaction that changes an employee's status. Worker replicas claim rows
under a lease, read the status as it is when they run, call an external directory under a deadline, and finish under
a fence. `GraphOutbox` is the protocol as a state machine: one step is one statement or transaction, one call started,
one call taking effect, or time passing. Any number of replicas run at once, and one that stalls or dies takes no
further step. A call on the wire is on its own: given up on without an answer, it may still take effect until its
deadline.

What a run is held to is a parameter, `Bounds`, with five parts, none of which the source sees to:

- `pause`: the longest wait between reading the lease left and starting the call that reading allows;
- `dead` and `retry`: the shortest time from sending a call that stays unanswered to dead-lettering its row, or to
  handing it back (both 0 in the source);
- `ordered`: the tasks of one person commit in `seq` order;
- `current`: every update of a status had read the status it then found.

The main theorems say for which bounds every run is good, and each is an if-and-only-if with a failing run for every
bound that is missed (M is the 10 s mutation safety margin, D the 30 s deadline of a call):

- a task that knows of the employee's last change and is marked sent has the account right, and nothing undoes it:
  pause <= M, dead >= D, and ordered or retry >= D (`ConvergenceIsExact`);
- whoever is offboarded and has the last task sent is locked out: pause <= M, dead >= D, ordered (`LockoutIsExact`);
- whoever has the last task sent has the account that the status calls for: pause <= M, dead >= D, ordered, current
  (`LastTaskSentIsExact`);
- no two calls for one person are in flight together: pause <= M, dead >= D, ordered (`OverlapIsExact`).

The fence, the finality of a finished row and the queueing of a task hold whatever the bounds. `GraphQueue` is the API's
side, with the pending-only unique index; `GraphHeartbeat` is how the API knows that a worker is up.

**The deadline over one Graph request** (`GraphHttp`). A race between the token, redirects, the request, the
caller's abort and the deadline, in every interleaving; the handler itself as a class that follows it; and the
middleware chain.

**The MCP call token and its bridge** (`McpCallToken`, `McpBridge`). A map with a time to live, a sweep, a peek and
a consuming exchange, proved against what the history of calls alone promises; then the query hook and the guard,
over any number of requests.

**First-writer-wins binding of an Access `sub`** (`AccessBinding`). The conditional update under a unique index, by
any number of callers working from stale snapshots.

**Strings in the database scripts** (`Text`, `Redaction`, `DatabaseUrl`, `PgSsl`, `Privileges`). Redaction of every
password, percent-encoding of credentials, the TLS decision over a composed URL, and the two-way privilege check.

**Bounded batches, seeds and permission checks** (`Retention`, `RbacSeed`, `Permissions`, `Authorization`). The
nightly backfill and purge, the rebuild of the system roles, the wildcard rule for permission codes, and the check
that a request must pass next to the query that lists whom it would let through.

Code that changes things step by step is a class with methods or a method with a loop, proved against functions on
values; code made of expressions is functions; what many processes do together is a state machine whose runs are
sequences of steps. `Wrappers` holds `Option`.

## What was found

These are places where the code does not do what its comments or a natural reading promise. The model follows the
code, and the stated condition is exact or a run shows the failure.

- A stale enable can stick after all, when a call breaks on its last attempt. A transport error stays retryable
  (`graph-errors.ts:39-55`), and with its attempts spent the row is dead-lettered at once
  (`abstract-outbox-relay.ts:663-680`), while the call may still take effect for up to 30 s. The next task is claimed,
  disables the account and is sent, and then the old enable lands: `EarlyDeadLetterLetsItStick`. It cannot happen if no
  row is dead-lettered within 30 s of a call of it that has no answer. A row that is retried is safe by its backoff,
  which is no shorter than the deadline (`BackoffOutlastsACall`), unless a task with a smaller `seq` commits late:
  `EarlyRetryLetsItStick`.
- Two tasks for one person can overlap (`graph-task.ts:46-49` says they never do). The early dead letter above is one
  way, a pause beyond the margin another. The third is the order of commits: `seq` is drawn before commit, and renewing
  a lease does not ask whether it had lapsed (`abstract-outbox-relay.ts:419-430`), so if an earlier `seq` commits after
  a later row was claimed and that claim's lease lapses, both rows can have a call in flight: `LateCommitsOverlap`.
  Within the margins it is the only way (`OverlapNeedsALateCommit`), and there is no fourth (`OverlapIsExact`).
- `EmployeeService.updateStatus` reads the status outside its transaction (`employee.service.ts:169-174`). An update
  that read `active` before an offboarding committed can take the status away from `offboarded` and queue no task,
  so the account stays disabled: `OutdatedSnapshotLosesAnEnable`; `CrossingQueuesATask` is the exact condition. The
  other direction does not depend on it: `LockoutIsExact`.
- The comment on `reconcile` says an attempt is refunded when too little lease is left
  (`entra-account.service.ts:75-78`); the code counts it, as the comment on `assertTimeToMutate` says. The model
  counts it.
- The TLS decision matches a pattern anywhere in the URL, so the mode does not alone decide it. A composed URL asks for
  TLS if and only if its mode starts with `require` or `verify`, or its host, port, name or mode holds the text
  `sslmode=require` or `sslmode=verify`; user and password never matter (`TlsIsAskedForExactly`). Where those four hold
  no `=` the mode alone decides (`ModeAloneDecides`).
- Redaction of secrets without brackets is complete if and only if none of them is part of the word `REDACTED`. The
  24-character minimum is what rules that out.
- A wildcard below a module, such as `workforce.leave.*`, grants nothing but its own text
  (`NestedWildcardGrantsNothingElse`).

## Assumptions

- Lease tokens and call tokens are new values; the clock does not go back.
- One SQL statement or transaction is one atomic step on tables with their unique indexes.
- A directory call takes effect strictly before 30 s after its start or never, and not once the directory has answered
  it. An answer that leaves the outcome open, such as a gateway's 504, counts as none. `GraphHttp` shows why the client
  side keeps to the deadline.
- The clock of the database and the timers of the replicas run at the same rate.
- Timers fire on time in `GraphHttp`: the clock does not pass an armed deadline that has not fired.
- Employees are not deleted, and each has one directory object or none for the whole run. A failed identity check or
  a stored id that is no GUID is the step `Throw`.
- The rest of the system leaves `terminal_at` of an outbox row that has it, and deletes no outbox row. The model of
  a night uses one `now` for all of its statements.
- Strings are sequences of characters; credentials are sequences of bytes, so that UTF-8 is taken as injective.

## Model

| member | source | states |
|---|---|---|
| GraphTask.KeysSeparateTasks | libs/modules/graph/src/graph-task.ts:37-52 | two tasks share a dedupe key only if they are the same request, and an ordering key only if they are about the same person; exactly the account tasks are ordered and never merged |
| GraphTask.LeaseArithmeticIsExact | libs/modules/graph/src/graph-task.ts:81-109 | for any number of declared calls: every run of that many calls starts each with enough lease left to change something and ends within the lease, if and only if its overhead may not exceed the lease margin less the safety margin |
| GraphTask.FitsWhenOverheadIsSmall | libs/modules/graph/src/graph-task.ts:96-109 | a run whose overhead stays within that budget is never refused a change and its last call has returned before the lease lapses |
| GraphTask.LeasesByKind | libs/modules/graph/src/graph-task.ts:84-109 | an account task is held for 150 s, a scan for 3060 s, a posture sync for 120 s, and any other kind for 150 s |
| GraphTask.BatchHoldCoversTheWait | libs/platform/src/outbox/abstract-outbox-relay.ts:522-534 | held for the sum of its leases, every row of a batch is still held when its turn comes, provided that each earlier row took no longer than its own lease |
| GraphOutboxSafety.StepKeeps | libs/platform/src/outbox/abstract-outbox-relay.ts:346-430 | whatever the bounds, every step keeps the invariant, what rows and runs say of each other: decisions are read after their row committed and are right unless outdated, a row claimed after an earlier one committed finds it finished, later rows carry later versions |
| GraphOutboxSafety.Holding | libs/platform/src/outbox/abstract-outbox-relay.ts:492-612 | so every run from a start without tasks keeps it, with any number of replicas, pauses, lapses, retries and broken calls |
| GraphOutboxTiming.BackoffOutlastsACall | libs/platform/src/outbox/abstract-outbox-relay.ts:298-308 | every retry waits at least as long as a call that was given up on can still take effect |
| GraphOutboxTiming.OnTime | libs/modules/graph/src/graph-task.ts:68-79 | over every run within the margins, what a run has on the wire is over when its lease is, or, its row handed back, before that row can be claimed again |
| GraphOutboxCalm.NothingOutlivesAClaim | libs/modules/graph/src/application/graph-task-relay.service.ts:131-154 | when a task is claimed, no other run for its person has a call that can still take effect |
| GraphOutboxCalm.LandsRight | libs/modules/graph/src/application/entra-account.service.ts:113-128 | a call that takes effect after a current task was claimed does what the status calls for |
| GraphOutboxCalm.RunKeeps | libs/modules/graph/src/application/entra-account.service.ts:79-152 | over every run within the bounds, once a current task was claimed every run that decided on an outdated status has outlived its lease, and a current task marked sent has done its work |
| GraphOutboxTheorems.StaleEnableNeverSticks | libs/modules/graph/src/graph-task.ts:6-25 | in every state of a run within the bounds, if a task committed since the employee last entered or left offboarded is marked sent, the account is enabled exactly when the employee is not offboarded, and an offboarded one has no session |
| GraphOutboxTheorems.ConvergenceIsExact | libs/modules/graph/src/graph-task.ts:68-103 | that holds for every run if and only if the pause is within the margin, no row is dead-lettered within 30 s of an unanswered call of it, and none is handed back so early unless tasks commit in order |
| GraphOutboxTheorems.LockoutIsExact | libs/modules/graph/src/graph-task.ts:6-11 | in every state of every run whoever is offboarded and has the last task sent is locked out, if and only if pause and dead-lettering keep to the margins and tasks commit in order |
| GraphOutboxTheorems.LastTaskSentIsExact | libs/modules/graph/src/graph-task.ts:6-25 | in every state of every run whoever has the highest `seq` sent has the account that the status calls for, if and only if besides that every update had read the current status |
| GraphOutboxTheorems.OverlapIsExact | libs/modules/graph/src/graph-task.ts:46-52 | no run ever has two calls for one person in flight, under whichever leases, if and only if pause and dead-lettering keep to the margins and tasks commit in order |
| GraphOutboxTheorems.LongPauseLetsItStick | libs/modules/graph/src/graph-task.ts:68-79 | for any pause beyond the margin, a run in which a late enable lands on an offboarding already marked sent |
| GraphOutboxTheorems.EarlyDeadLetterLetsItStick | libs/platform/src/outbox/abstract-outbox-relay.ts:663-680 | a run, in order and without a pause, in which an enable breaks on the last attempt, its row is dead-lettered, and it lands on the offboarding sent after it |
| GraphOutboxTheorems.EarlyRetryLetsItStick | libs/platform/src/outbox/abstract-outbox-relay.ts:663-680 | a run in which a row is handed back with its call unanswered and an offboarding with a smaller `seq` commits late |
| GraphOutboxTheorems.LateCommitIsMissed | db/schema/messaging.ts:41-42 | a run in which the task with the highest `seq` is sent and an offboarding with a smaller one commits after it |
| GraphOutboxTheorems.LateCommitsOverlap | libs/platform/src/outbox/abstract-outbox-relay.ts:415-430 | a run in which two calls overlap because a lapsed lease is renewed |
| GraphOutboxTheorems.OutdatedSnapshotLosesAnEnable | libs/modules/identity/src/application/employee.service.ts:169-198 | a run in which an outdated read leaves an employee disabled though no longer offboarded, with every task sent |
| GraphOutboxRuns.OffboardingCanBeDelivered | libs/modules/graph/src/application/entra-account.service.ts:104-111 | from any state in which an offboarded employee's task can be claimed, legal steps disable the account, end its sessions and mark the task sent |
| GraphOutboxRuns.CallCanBeGivenUp | libs/modules/graph/src/graph-errors.ts:39-55 | on any attempt, legal steps lead to a call that broke without an answer, its failure recorded as soon as the bounds allow |
| GraphOutboxOrder.OnlyTheHolderChangesARow | db/schema/messaging.ts:41-46 | a row changes only while pending, and only by the run whose token is on it, or by a claim or the reaper once no lease on it is live |
| GraphOutboxOrder.SupersededWritesNothing | libs/platform/src/outbox/abstract-outbox-relay.ts:404-413 | a run that has lost its row never gets it back: nothing it does in any continuation changes any row |
| GraphOutboxOrder.FinishedIsFinal | libs/platform/src/outbox/abstract-outbox-relay.ts:614-631 | a row leaves pending at most once: sent or dead-lettered, it is never touched again |
| GraphOutboxOrder.OneClaimablePerKey | libs/modules/graph/src/application/graph-task-relay.service.ts:131-154 | of the rows of one person at most one can be claimed at any moment |
| GraphOutboxOrder.FinishedRowsFormAPrefix | db/schema/messaging.ts:216-221 | whatever the bounds, a pending row earlier than a finished one of its person committed after that one's last claim; so in order the finished rows are the first ones |
| GraphOutboxOrder.OverlapNeedsALateCommit | libs/modules/graph/src/graph-task.ts:46-49 | within the margins, two calls for one person in flight together belong to different rows, the earlier of which committed after the later was claimed |
| GraphOutboxOrder.CallsNeverOverlap | libs/modules/graph/src/graph-task.ts:46-52 | within the margins and in order, two calls for one person never overlap, answered, given up on or left behind |
| GraphOutboxOrder.CrossingQueuesATask | libs/modules/identity/src/application/employee.service.ts:168-219 | a change that enters or leaves offboarded leaves a task behind in the same transaction, except exactly when an update that had read another status takes it away from offboarded |
| GraphOutboxOrder.RunQueues | libs/modules/workforce/src/application/offboarding.type-def.ts:131-250 | over any run: after a crossing a task committed since is there, always for an offboarded employee, and for the others if every update had read the current status |
| GraphOutboxOrder.LastIsCurrent | libs/modules/graph/src/graph-task.ts:46-52 | in order, the task with the highest `seq` knows of the last crossing if any task does |
| GraphOutboxOrder.OffboardedIsLockedOut | libs/modules/graph/src/application/entra-account.service.ts:104-111 | within the margins and in order, whoever is offboarded and has the highest `seq` sent has a disabled account and no session, however earlier tasks ended and the statuses were written |
| GraphOutboxOrder.LastSentMeansSettled | libs/modules/graph/src/application/entra-account.service.ts:104-129 | if besides that every update had read the current status, whoever has the highest `seq` sent has an account that matches the status either way |
| GraphOutboxOrder.AllSentMeansSettled | libs/modules/graph/src/application/entra-account.service.ts:104-129 | in any order of commits within the bounds, whoever has all tasks sent after a crossing has an account that matches, always when offboarded and else if every update had read the current status |
| GraphOutboxSteps.FailureIsRecorded | libs/platform/src/outbox/abstract-outbox-relay.ts:663-690 | recording a failure dead-letters the row if and only if retrying cannot help or this was the fifth attempt; otherwise it waits pending and without a lease, for the doubled time or as long as the directory asked up to an hour; no other row changes |
| GraphOutboxSteps.BackoffDoubles | libs/platform/src/outbox/abstract-outbox-relay.ts:298-308 | the wait after the n-th attempt is 30 s doubled n - 1 times, at most half an hour |
| GraphOutboxSteps.DoneIsSent | libs/platform/src/outbox/abstract-outbox-relay.ts:597-631 | a task done is marked sent by the run that holds its row; a run that has lost it changes no row |
| GraphOutboxSteps.AbandonedIsFailed | libs/platform/src/outbox/abstract-outbox-relay.ts:346-369 | a row abandoned with its last attempt spent is dead-lettered, and blocks nothing any more |
| GraphOutboxSteps.AClaimTakesItsRows | libs/platform/src/outbox/abstract-outbox-relay.ts:522-541 | at most three rows, one new token, one attempt and one waiting run for each, held for the sum of their leases; nothing else changes |
| GraphOutboxSteps.ARenewalIsAFullLease | libs/platform/src/outbox/abstract-outbox-relay.ts:415-430 | a run starts on its row with a full lease from then, or leaves it if another has it |
| GraphOutboxSteps.TheFirstPendingIsClaimable | libs/modules/graph/src/application/graph-task-relay.service.ts:131-154 | of the pending tasks of a person, none leased, the first can be claimed exactly when it is due with an attempt left, and no other can |
| GraphOutboxSteps.AnUpdateQueues | libs/modules/identity/src/application/employee.service.ts:168-198 | an update queues one new task if and only if it offboards, again or for the first time, or takes the person out of offboarded; it writes the status unless it had read that one, and nothing else |
| GraphOutboxSteps.AnApprovalQueues | libs/modules/workforce/src/application/offboarding.type-def.ts:131-250 | an approved offboarding offboards and queues one new task; an approved onboarding queues one and leaves every status alone |
| GraphOutboxSteps.WhatARunFindsOut | libs/modules/graph/src/application/entra-account.service.ts:79-125 | without a directory object nothing is to be done; an offboarded person is to be disabled; and nothing is enabled of one who was offboarded by the second read |
| GraphOutboxSteps.WhatARunMayStart | libs/modules/graph/src/application/entra-account.service.ts:104-152 | a change is cleared only with 40 s of lease left: disable, then revoke, or enable |
| GraphOutboxSteps.WhatFailureLeaves | libs/modules/graph/src/graph-errors.ts:29-55 | an error answer ends a call; a broken connection leaves it able to take effect, and is retryable |
| GraphOutboxSteps.WhatACallDoes | libs/modules/graph/src/application/entra-account.service.ts:197-222 | each call changes its one flag of its one account, once |
| GraphOutboxSteps.AttemptsAreClaims | libs/platform/src/outbox/abstract-outbox-relay.ts:371-402 | over any run the attempts of a row are the claims that took it, never more than five |
| GraphOutboxSteps.HeldWhileItWaits | libs/platform/src/outbox/abstract-outbox-relay.ts:522-534 | over any continuation, a row that waits in its batch is taken by nobody until the sum of the leases has passed |
| GraphOutboxSteps.TheTurnComes | libs/platform/src/outbox/abstract-outbox-relay.ts:522-534 | so the k-th row of a batch is still held when its turn comes, if the rows before it took no longer than their leases |
| GraphOutboxSteps.NoRunIsStuck | libs/platform/src/outbox/abstract-outbox-relay.ts:575-612 | in every phase of a run its next statement can run |
| GraphOutboxSteps.AnythingMayBreak | libs/modules/graph/src/graph-errors.ts:29-55 | a call on the wire may be refused or lost, and other work may throw, retryable or not |
| GraphOutboxSteps.TheWorldGoesOn | libs/modules/graph/src/application/graph-task-relay.service.ts:118-155 | time passes, statuses change, up to three claimable rows are claimed at once, and what is abandoned is reaped, in any state |
| GraphQueue.ConflictMeansCovered | db/schema/messaging.ts:222-241 | the pending-only index refuses a task exactly when an equal one is waiting |
| GraphQueue.FinishingFrees | db/schema/messaging.ts:239-241 | finishing a pending row takes one from the count of its key and nothing from any other |
| GraphQueue.GraphTaskQueue.Enqueue | libs/modules/graph/src/graph-task.queue.ts:35-50 | adds exactly one row and wakes its relay, or changes nothing and answers false exactly when an equal scan is pending; an account task is always added; at most one pending row per key is kept |
| GraphQueue.GraphTaskQueue.Finish | db/schema/messaging.ts:239-241 | after a scan's row finishes no equal scan is pending, so it can be queued again; nothing else changes |
| GraphHeartbeat.SyncTable.Heartbeat | libs/modules/graph/src/application/graph-sync.cron.ts:34-64 | a beat writes the replica's own row, drops exactly the rows of replicas silent for over a day, and leaves every other row as it was |
| GraphHeartbeat.RowsAreLatestBeats | libs/modules/graph/src/application/graph-sync.cron.ts:44-50 | a row with the prefix is the latest that some replica has said |
| GraphHeartbeat.LatestBeatsAreThere | libs/modules/graph/src/application/graph-sync.cron.ts:51-58 | the latest that a replica has said is there for a day, whatever the others drop |
| GraphHeartbeat.AvailableExactly | libs/modules/graph/src/graph-task.queue.ts:52-65 | for every history of beats: Graph is available if and only if the latest that some replica has said is that it can do the work, less than three minutes ago |
| GraphHttp.EveryInterleaving | libs/modules/graph/src/graph-http.ts:40-68 | in every order of events the race keeps its invariant: one outcome, by the deadline, and the listener registered exactly until then |
| GraphHttp.SettlesByTheDeadline | libs/modules/graph/src/graph-http.ts:40-68 | settled by the deadline, with the inner outcome if that came first and the deadline error otherwise; every request that went out went out by the deadline |
| GraphHttp.TheFirstEndDecides | libs/modules/graph/src/graph-http.ts:49-67 | told from the events alone, in any order: the outcome is that of the first event to end the call, at that moment: success if and only if it is a response, to a request that had gone out; the deadline error if it is the deadline; an inner error if it is a failed token, a break or a request that may not go out |
| GraphHttp.NothingEndsNothingSettles | libs/modules/graph/src/graph-http.ts:40-68 | a call is open exactly while no event has ended it, and requests went out at exactly the tokens and redirects before the deadline and the caller's abort |
| GraphHttp.TheDeadlineFires | libs/modules/graph/src/graph-http.ts:41-58 | until it fires, time can pass up to the deadline and not beyond it, and there it can fire; `AnythingMayCome` says the same of every other event |
| GraphHttp.SettlesOnce | libs/modules/graph/src/graph-http.ts:59-67 | whatever the losing branch does later, the outcome stands |
| GraphHttp.NothingIsSentAfterAbort | libs/modules/graph/src/graph-http.ts:41-46 | once the deadline has fired or the caller has aborted no request goes out, for a late token or a redirect |
| GraphHttp.FirstInTheChainIsNeeded | libs/modules/graph/src/graph-http.ts:84-99 | the bound holds for every interleaving if and only if the handler stands above token acquisition |
| GraphHttp.TimeoutCall.Execute | libs/modules/graph/src/graph-http.ts:40-59 | the call as it starts: clock running, listener registered, nothing sent |
| GraphHttp.TimeoutCall.Deliver | libs/modules/graph/src/graph-http.ts:40-68 | each event changes the handler's fields exactly as the race on values says |
| GraphHttp.BuildGraphMiddleware | libs/modules/graph/src/graph-http.ts:76-99 | five distinct handlers in the declared order, each linked to the next and the last to none: the deadline first, no retry |
| McpCallToken.TokenStore.SweepExpired | libs/platform/src/mcp-call-token.ts:77-86 | the loop drops exactly the entries whose time has passed |
| McpCallToken.TokenStore.Mint | libs/platform/src/mcp-call-token.ts:88-98 | what is left after the sweep, and the new token with its principal, query and five seconds |
| McpCallToken.TokenStore.Consume | libs/platform/src/mcp-call-token.ts:100-114 | the principal of the live token that the header presents, as its one value or the first of several, and nothing otherwise; the token is gone either way and every other stays |
| McpCallToken.TokenStore.Peek | libs/platform/src/mcp-call-token.ts:116-131 | the entry of a live token, which stays; everything kept was unexpired at the sweep |
| McpCallToken.StoreRefinesHistory | libs/platform/src/mcp-call-token.ts:71-131 | for every history: a header yields an entry exactly when it presents a token that was minted with that entry, was presented to no consume, and is under five seconds old |
| McpCallToken.SpentIsSpent | libs/platform/src/mcp-call-token.ts:100-104 | a token presented to be consumed, live or not, never yields anything again |
| McpCallToken.PeeksAreUnobservable | libs/platform/src/mcp-call-token.ts:116-131 | any later call sees what it would see had no peek, and no sweep inside one, ever run |
| McpCallToken.MintsAndPeeksClean | libs/platform/src/mcp-call-token.ts:77-81 | after a mint or a peek every entry in the map outlives that call's sweep |
| McpBridge.Bridge.Mint | libs/platform/src/mcp-call-token.ts:88-98 | minting a new token keeps every earlier exchange and hook as it was |
| McpBridge.Bridge.RestoreQuery | apps/api/src/mcp/query-bridge.ts:16-24 | a live token puts the query it was minted with over the request's own; it is not spent and nobody is authenticated |
| McpBridge.Bridge.CanActivate | apps/api/src/mcp/principal.guard.ts:53-108 | never refuses; on a non-public HTTP route a live token becomes the principal it was minted with, the marker, and the end of the header; otherwise the request is untouched |
| McpBridge.Bridge.OneTokenOneRequest | libs/platform/src/mcp-call-token.ts:133-149 | every bridged request was bridged by exactly one token, which bridged no other, runs as the principal minted with it, and if the hook ran it saw that same token |
| AccessBinding.FactsLast | db/schema/identity.ts:26-32 | a binding lasts, and a pair that is taken can never be bound later, whatever else changes |
| AccessBinding.IsUniqueViolation | apps/api/src/mcp/access-jwt.adapter.ts:109-125 | the loop finds the code at any depth of causes, and only if it is there |
| AccessBinding.EmployeeTable.UpdateSub | apps/api/src/mcp/access-jwt.adapter.ts:142-148 | writes the one row that has no `sub` unless the index objects; an outage writes nothing |
| AccessBinding.EmployeeTable.BindAccessSub | apps/api/src/mcp/access-jwt.adapter.ts:133-161 | with anyone else's changes between its statements: bound means the pair is bound, denied means it never can be, unavailable means an outage; the early return on a stale snapshot included |
| AccessBinding.StepKeeps | apps/api/src/mcp/access-jwt.adapter.ts:79-104 | each statement of any caller keeps every caller's knowledge and answer true |
| AccessBinding.BindingsLast | db/schema/identity.ts:46-49 | over any run a bound `sub` never changes and stays with one employee, and every answer given stands |
| AccessBinding.FirstWriterWins | apps/api/src/mcp/access-jwt.adapter.ts:127-161 | of racing callers, those that succeed agree one to one on employee and `sub`, for good; a refused pair is never bound |
| AccessBinding.LookupIsExact | apps/api/src/mcp/access-jwt.adapter.ts:79-104 | a call is refused for no address, or for no active employee, exactly when it has none or there is none; and otherwise it finds the one who has the address, with the `sub` bound at that moment |
| AccessBinding.AnswersAreExact | apps/api/src/mcp/access-jwt.adapter.ts:133-161 | every later statement answers yes exactly when it finds the pair bound or both free and binds it, writing that and nothing else |
| AccessBinding.AnsweredYesMeansBound | apps/api/src/mcp/access-jwt.adapter.ts:127-161 | over any run, a call that found an employee and is through was answered yes if and only if its pair is bound |
| AccessBinding.TheFirstFreeWriterWins | apps/api/src/mcp/access-jwt.adapter.ts:127-148 | of callers that found an employee without a `sub`, the first whose own is free when it writes is bound for good, and no other ever succeeds for that employee or that `sub` |
| AccessBinding.NoCallIsStuck | apps/api/src/mcp/access-jwt.adapter.ts:79-161 | whatever a call has been told, its next statement can run |
| Redaction.SplitJoinsBack | db/enable-least-privilege-roles.ts:88-93 | splitting at a separator and joining with it gives the text back |
| Redaction.PiecesAreClean | db/enable-least-privilege-roles.ts:88-93 | no piece of a split holds the separator |
| Redaction.SecretIsGone | db/enable-least-privilege-roles.ts:88-93 | a secret that shares no bracket with the placeholder and is no part of its word is gone, whatever is redacted before or after it |
| Redaction.RedactionIsComplete | db/enable-least-privilege-roles.ts:299-313 | for every message and every list of accepted passwords, none of them occurs anywhere in the output |
| Redaction.AcceptedExactly | db/enable-least-privilege-roles.ts:299-313 | a password is accepted if and only if it has at least 24 characters, each a letter, a digit, an underscore or a hyphen |
| Redaction.OnlyTheSecretGoes | db/enable-least-privilege-roles.ts:88-93 | taking out one secret turns its occurrences into placeholders and keeps the text between them |
| Redaction.NoSecretNoChange | db/enable-least-privilege-roles.ts:88-93 | a message that holds none of the secrets is not touched |
| Redaction.RedactionIsExact | db/enable-least-privilege-roles.ts:88-93 | for secrets without brackets every message comes out clean if and only if no secret is part of the word |
| DatabaseUrl.DecodeUndoesEncode | db/database-url.ts:79 | percent-decoding an encoded credential gives back its bytes |
| DatabaseUrl.EncodedHasNoDelimiter | db/database-url.ts:61-68 | no character that is structural in a URL is left in an encoded credential |
| DatabaseUrl.EncodingIsExact | db/database-url.ts:79 | letters, digits and nine marks stand for themselves, any other byte is a percent sign and its two digits in base sixteen |
| DatabaseUrl.ResolutionIsExact | db/database-url.ts:40-80 | a whole URL is taken as it is; otherwise the first variable unset or empty is named, and only without one is a URL composed, with mode `require` by default |
| DatabaseUrl.ComposedUrlRoundTrips | db/database-url.ts:69-80 | taking the composed URL apart at its first delimiters gives back exactly the credentials, host, port, name and mode |
| DatabaseUrl.DistinctCredentialsDistinctUrls | db/database-url.ts:69-80 | environments that compose the same URL agree in every part |
| PgSsl.WhereTheOptionStands | db/database-url.ts:69-80 | for either word, the option stands in a composed URL exactly where the mode begins or whole in host, port, name or mode |
| PgSsl.TlsIsAskedForExactly | db/pg-ssl.ts:45-46 | any composed URL asks for TLS if and only if its mode starts with `require` or `verify`, or its host, port, name or mode spells the option out; user and password never matter |
| PgSsl.ModeAloneDecides | db/pg-ssl.ts:45-46 | where host, port, name and mode hold no `=`, it asks for TLS exactly when its mode starts with `require` or `verify` |
| PgSsl.StrippedComposedUrl | db/pg-ssl.ts:65-73 | without its mode a composed URL with one parameter is what stands before its query |
| PgSsl.OnlyTheModeIsStripped | db/pg-ssl.ts:65-73 | for any base and query: the base stays, and of the parameters all that do not set the mode, in their order; without any, no query |
| PgSsl.TlsOfAComposedUrl | db/pg-ssl.ts:37-63 | the whole decision: no TLS and the URL untouched, or TLS at the level the input allows with the mode gone, or, in production without a CA, no connection |
| PgSsl.ProductionNeverSkipsVerification | db/pg-ssl.ts:50-63 | for any URL that asks for TLS, production verifies against a CA or refuses |
| Privileges.OffencesAreTheOffenders | db/enable-least-privilege-roles.ts:235-242 | a privilege is reported for a table exactly when the database gave that answer and the declaration says the opposite |
| Privileges.DeniedIsDeclared | db/enable-least-privilege-roles.ts:230-237 | a privilege counts as denied exactly when the last entry for the table lists it |
| Privileges.AssertPrivilegesAreExactlyAsDeclared | db/enable-least-privilege-roles.ts:216-285 | passes if and only if on every table each privilege is held exactly when the last entry for the table does not list it and every declared table exists; the reports hold precisely the pairs that disagree and the missing tables |
| Retention.BatchesAddUp | apps/worker/src/cron/retention-cleanup.cron.ts:222-243 | the oldest batch and then the oldest batch of the rest are one larger oldest batch |
| Retention.AShortBatchIsAll | apps/worker/src/cron/retention-cleanup.cron.ts:240 | a batch that came out short took every matching row |
| Retention.OutboxTable.SelectOldest | apps/worker/src/cron/retention-cleanup.cron.ts:226-234 | the limit's number of matching rows, none newer than a matching row left out |
| Retention.OutboxTable.DeleteOldest | apps/worker/src/cron/retention-cleanup.cron.ts:226-238 | removes such a batch and nothing else, and returns its size |
| Retention.OutboxTable.PurgeRule | apps/worker/src/cron/retention-cleanup.cron.ts:222-243 | removes exactly the smaller of all matching rows and 100 000, the oldest ones, leaves all else as it was, and returns the number |
| Retention.OutboxTable.CountRule | apps/worker/src/cron/retention-cleanup.cron.ts:214-220 | the number of matching rows |
| Retention.WhatAnOutboxGivesUp | apps/worker/src/cron/retention-cleanup.cron.ts:53-80 | due is exactly what was sent, delivered or failed and has been terminal for over 30 days |
| Retention.OldTerminalRowsGo | apps/worker/src/cron/retention-cleanup.cron.ts:160-181 | and a real night on a table of up to 100 000 rows deletes all of that |
| Retention.WhatANightStamps | apps/worker/src/cron/retention-cleanup.cron.ts:110-128 | a row that gets a stamp is terminal and had none, and gets the first known of its times, or the night |
| Retention.OutboxTable.StampBatch | apps/worker/src/cron/retention-cleanup.cron.ts:189-199 | stamps up to the limit of terminal rows without a stamp, each with its best known time, and no other row |
| Retention.OutboxTable.BackfillTerminalAt | apps/worker/src/cron/retention-cleanup.cron.ts:183-213 | stamps exactly the smaller of all historical rows and 100 000; pending rows and existing stamps stay |
| Retention.OutboxTable.Purge | apps/worker/src/cron/retention-cleanup.cron.ts:149-181 | a night stamps and then counts or purges, and is one of the nights the run lemmas speak of |
| Retention.NightsDrainTheBacklog | apps/worker/src/cron/retention-cleanup.cron.ts:12-13 | without arrivals N matching rows are gone after exactly ceil(N / 100 000) nights, and not before |
| Retention.DryRunCountsTheUncappedPurge | apps/worker/src/cron/retention-cleanup.cron.ts:214-220 | a purge without caps would remove exactly the rows the dry run counts |
| Retention.OnlyOldTerminalRowsGo | apps/worker/src/cron/retention-cleanup.cron.ts:53-80 | a night deletes only rows that are neither pending nor delivery evidence and were terminal for over 30 days, and none in a dry run |
| Retention.StampStays | apps/worker/src/cron/retention-cleanup.cron.ts:110-128 | through any event an existing stamp stays, and its row unless a night finds it over 30 days old |
| Retention.EveryRowGetsItsWindow | apps/worker/src/cron/retention-cleanup.cron.ts:110-128 | over any run of nights with anything in between, a stamped row survives until a night comes more than 30 days after its stamp |
| Retention.UndatedRowsStartTonight | apps/worker/src/cron/retention-cleanup.cron.ts:114-115 | a historical row with no time of its own survives the night that finds it and gets that night as its stamp, or none yet |
| Retention.EvidenceIsKept | apps/worker/src/cron/retention-cleanup.cron.ts:65 | over any run, a row that stays pending, bounced or complained is never deleted |
| Permissions.GrantsCodeByCode | db/permissions.catalog.ts:474-478 | held together, codes grant what one of them grants alone and nothing more |
| Permissions.GrantsExactly | db/permissions.catalog.ts:460-478 | `*` grants everything, a code itself, a module's wildcard its module, and nothing else grants anything; who holds nothing is granted nothing |
| Permissions.OnlyTheSetMatters | db/permissions.catalog.ts:474-478 | order and repetition of the held codes make no difference |
| Permissions.ModuleIsTheFirstSegment | db/permissions.catalog.ts:443-453 | the module of a code is the text before its first dot, and all of it when there is none |
| Permissions.ModuleWildcardIsExact | db/permissions.catalog.ts:460-478 | a module's wildcard grants the bare module code and every code under it, however deep, and nothing of any other module |
| Permissions.NestedWildcardGrantsNothingElse | db/permissions.catalog.ts:460-478 | a wildcard below a module grants only the very code it is |
| Authorization.Resolve | libs/platform/src/auth/authz.service.ts:43-78 | every code of the rows with all its scopes in the order of the rows; nothing when the query failed |
| Authorization.Check | libs/platform/src/auth/authz.service.ts:166-200 | lets through exactly when some held code covers the permission in a scope that is global, or that a given resource and user match |
| Authorization.CheckIsExact | libs/platform/src/auth/authz.service.ts:147-200 | resolution and check together let a user through if and only if a live assignment gives a role a covering code in a satisfied scope |
| Authorization.WhatAScopeTakesIn | libs/platform/src/auth/scope-evaluator.ts:13-27 | a global scope takes in everything, one on oneself what the user owns, and one on a team, department or region what has the very id it names; with no id, nothing |
| Authorization.ExpiredMeansDenied | libs/platform/src/auth/authz.service.ts:57-66 | somebody whose assignments have all expired may do nothing |
| Authorization.EntitledMeansAllowed | libs/platform/src/auth/authz.service.ts:166-200 | somebody with a live assignment, in a scope that takes the resource in, to a role with the code or `*`, may do it |
| Authorization.GlobalHoldersOf | libs/platform/src/auth/authz.service.ts:104-142 | exactly the users of the rows whose code covers the permission; nobody when the query failed |
| Authorization.HoldersAreWhomTheCheckLetsThrough | libs/platform/src/auth/authz.service.ts:80-103 | the holders are exactly the users whom the check lets through when no resource is given |
| RbacSeed.SeedDb.UpsertPermissions | db/seed.ts:211-218 | catalogue keys are there with the catalogue's descriptions; every other permission is as it was |
| RbacSeed.SeedDb.UpsertRoles | db/seed.ts:220-227 | system roles are there with their names; a role that was there keeps its id, and other roles are as they were |
| RbacSeed.SeedDb.RebuildRole | db/seed.ts:244-250 | one role's stored codes become its bundle, whatever they were; every other role's stay |
| RbacSeed.SeedDb.Seed | db/seed.ts:209-252 | from any sound tables: each system role has exactly its bundle, every other role's rows are unchanged, and the tables stay sound |
| RbacSeed.SeedAgainChangesNothing | db/seed.ts:204-208 | a second seed changes nothing, whatever ids it would have given |
| RbacSeed.StoredCodesGrantTheBundle | db/permissions.catalog.ts:474-478 | read back in any order, the stored codes of a system role grant exactly what its bundle grants |
| RbacSeed.AccessAfterASeed | db/seed.ts:239-251 | after a seed a user passes the check if and only if a live assignment in a satisfied scope is to a system role whose bundle grants the permission, or to another role that granted it before |

## Left out

- GraphTask.BatchHoldCoversTheWait: nothing in the relay keeps a row to its own lease; a row whose hold lapses while it waits is claimed by another replica, as `GraphOutbox` allows in any run.
- GraphOutbox: the scan relay's own rows, deferral and exclusive job locks; scans change no account. Waking by NOTIFY, metrics and the pass loop.
- GraphOutbox: a change of an employee's directory id or address while a task runs, and deletion of employees.
- GraphHttp.TimeoutCall.Deliver: the token provider, the redirect handler and `fetch` are events; that `fetch` refuses an aborted signal is taken from its standard.
- McpBridge.Bridge.CanActivate: writing the request context and the pre-authentication mark, which never change the answer.
- AccessBinding.EmployeeTable.BindAccessSub: its contract does not say which other columns stay, because `others` may change them between its statements; `UpdateSub` gives the one write exactly.
- AccessBinding.IsUniqueViolation: a chain of causes that comes back to itself, on which the source would not stop.
- AccessBinding: JWT verification and key sets before the lookup; lower-casing and trimming of the address.
- PgSsl.StrippedComposedUrl: everything else the URL class does to a URL it parses and prints again; the model deletes the one parameter.
- DatabaseUrl.ComposedUrlRoundTrips: UTF-8 itself; a lone surrogate, on which the source throws. `resolveMigrationUrl`, which chooses between two URLs and returns an empty one as it is.
- Privileges.AssertPrivilegesAreExactlyAsDeclared: the catalogue query, which is assumed to answer for every table and truthfully; the words of the error; creating and enabling the roles.
- Retention.OutboxTable.Purge: the loop over the tables that logs one table's failure and goes on, the cross-pod lock, and rows arriving between two batches of one night.
- RbacSeed.SeedDb.Seed: `updated_at`, the Annex A catalogue and the demo employees; a permission or a system role that a later catalogue drops stays in its table, in the model as in the source.
- Authorization.CheckIsExact: the five-minute cache of resolved permissions, during which an expired or edited grant still counts.
- Documents, incidents, leave, contracts and the user interface are not part of this model.
