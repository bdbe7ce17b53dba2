# The bounded execution window and the delivery lifecycle, verified

Relay delivers webhooks. Postgres keeps every delivery; Redis holds a window of fixed size with the
deliveries that may run now, and workers take them from it. A delivery row moves from one status to the
next by short conditional updates, the window by three atomic scripts and one list move, and no
transaction covers both stores. The question throughout is what the two stores still agree on when
schedulers, workers, crashes and the clock interleave freely. Four smaller parts are modelled beside it:
the signature header, idempotent publish, refresh-token rotation and cursor paging.

Check everything with `dafny verify dfyconfig.toml`.

## How it is laid out

| files | what they hold |
|---|---|
| `Window.dfy`, `Deliveries.dfy`, `Backoff.dfy` | the meaning of each script, each update and the retry arithmetic, as functions |
| `RedisWindowQueue.dfy`, `DeliveryRepository.dfy`, `Scheduler.dfy`, `Worker.dfy` | the code in its own imperative form: loops and methods of several statements are proved to compute those functions, a method of one statement only transcribes it |
| `Protocol.dfy`, `Paths.dfy` | the step machine: any number of schedulers and workers, one commit, script or feeding read a step |
| `Ownership.dfy`, `Accounting.dfy`, `Recovery.dfy` | the invariants over its runs |
| `TickRuns.dfy` | a whole scheduler tick as a run of the step machine |
| `Guarantees.dfy` | the main results, stated over whole runs |
| `Batches.dfy` | unpublished batches of any number of schedulers |
| `Limits.dfy` | runs that show which assumptions cannot be dropped, and what the code does not do |
| `Signature.dfy`, `Publishing.dfy`, `Sessions.dfy`, `Paging.dfy`, `Text.dfy` | the four smaller parts |

The results come at two strengths.

* **Unconditional.** Any number of schedulers and workers, any crash at any step, late or repeated
  completions and releases: the window never exceeds its capacity, holds no mark without a resident id,
  and hands ids out in the order in which it accepted them. Batches awaiting publication stay disjoint
  exactly as long as no step takes one of their rows out of QUEUED.
* **Ownership.** One scheduler, any number of workers, and a live worker records and completes within
  `holdMs` of its `lockedAt`, with `holdMs <= leaseMs`: marks are exact, at most one worker sends a
  delivery, attempts add up, a row is finished exactly when its last outcome says so, backoff is never
  jumped, and a delivery is lost exactly when an actor stops at one of three named points. Both
  assumptions are necessary: exclusive sending, exact marks and row shape each hold in every run if and
  only if both do (`Limits.ExclusionIff`, `Limits.ExactMarksIff`, `Limits.RowShapesIff`).

What a crash can cost is in `Recovery.Strands`: a worker that stops after BLMOVE and before its
conditional update, a worker that stops after recording (or after deciding not to send) and before
`complete` takes effect, and a scheduler that stops between reclaiming rows and releasing their slots.
Every other crash, and every exception in a live worker whose `complete` succeeds, loses nothing.
The two list lengths behind the occupancy are read separately, so the step machine lets a tick measure
any room up to the capacity.

## Where the code and its documentation disagree

The model follows the code.

* `docker-compose.yml:92-95` says that SKIP LOCKED makes scheduler replicas safe. The row locks end with
  the claim's commit, and neither the reaper's read-then-update nor the release after it is covered by
  them. With two schedulers a ready id can lose its mark (`Limits.SecondSchedulerBreaksMarks`), one
  delivery can be in two batches awaiting publication (`Limits.StalledPublishIsClaimedTwice`), and two
  workers can send one delivery at once however short their holds
  (`Limits.SecondSchedulerBreaksExclusion`). `Batches.StepKeepsBatchesIff` says which steps intrude on a
  batch.
* `src/repositories/delivery.repository.ts:155-161` says that a delivery which kills its worker
  eventually reaches FAILED. The reaper counts the attempt but does not compare it with the limit, so
  the delivery is reclaimed and sent past any number of attempts (`Limits.ReclaimedWithoutEnd`). A row
  becomes FAILED exactly when an outcome is recorded that is a failure and cannot be retried or used the
  last attempt (`Guarantees.FinishedIff`).
* `src/config/env.ts:173` compares the lease with DELIVERY_TIMEOUT_MS alone, while
  `src/workers/deliver.ts:85-86` applies that limit to the headers and to the body separately. The bound
  `holdMs` is therefore an assumption here and not derived from the configuration.
* `src/repositories/delivery.repository.ts:15-31` and `:194-195` describe publishing inside the
  transaction; the code commits first and publishes afterwards.
* `src/repositories/refresh-token.repository.ts:39-43` calls rotation one transaction; `replacedById` is
  set by a statement after it, and the transaction does not look at `revokedAt` again
  (`Sessions.RotationKeepsCountIff`, `Sessions.OverlappingRefreshesFork`).
* A cursor whose row does not match the filter makes `skip: 1` drop a matching row
  (`Paging.CursorSkipsNothingIff`).

The service takes an empty idempotency key for none (`src/services/event.service.ts:43`) while the
repository would store it. The route trims the header and refuses an empty one
(`src/validators/event.schema.ts:42-47`, `src/routes/v1/event.routes.ts:67`), so no such key arrives, and
with that guard no publish ever fails (`Publishing.NoCallFails`).

## Model

| member | source | states |
|---|---|---|
| WindowSpec.FreshKeepsOfferedOrder | src/queue/scripts.ts:51-66 | accepted ids keep the order in which the offered list first mentions them |
| WindowSpec.FirstMentionedFitFirst | src/queue/scripts.ts:47-66 | when the new ids do not all fit, those mentioned first are accepted, and one is left out only when the window is full |
| WindowSpec.EnqueueKeepsExact | src/queue/scripts.ts:39-69 | enqueueing keeps every mark one resident id and every id resident once, for any offered list |
| WindowSpec.ReleaseKeepsExactIff | src/queue/scripts.ts:109-125 | a release keeps the marks exact if and only if no released id is in the ready list |
| WindowSpec.CompleteFreesOneSlot | src/queue/scripts.ts:89-98 | completing an in-flight id frees exactly one slot and exactly its mark |
| WindowSpec.CompleteTwice | src/queue/scripts.ts:74-98 | completing twice is completing once |
| WindowSpec.AbsenceIsAnsweredIff | src/queue/RedisWindowQueue.ts:128-145 | asking the dedupe set who is absent is answered rightly for every list if and only if it is exactly the residents |
| WindowSpec.WindowIsAlwaysSound | src/queue/scripts.ts:39-125 | after any operations whatsoever: cap, no mark without a resident id, and claim log followed by ready list equals accept log |
| WindowSpec.AbsentIdIsNeverRefused | src/queue/scripts.ts:74-83 | after any operations, an id in neither list is accepted as soon as there is room |
| RedisQueue.RedisWindowQueue.Enqueue | src/queue/scripts.ts:39-69 | the loop accepts exactly the first free-slots-many new ids, in order, and appends and marks exactly those |
| RedisQueue.RedisWindowQueue.Claim | src/queue/RedisWindowQueue.ts:83-95 | the oldest ready id moves to the in-flight list; nothing moves when none is ready |
| RedisQueue.RedisWindowQueue.Release | src/queue/scripts.ts:109-125 | the loop evicts all given ids at once and counts the distinct ones that were in flight |
| Deliveries.SelectionSize | src/repositories/delivery.repository.ts:89-97 | an answer to the claim query has min(limit, eligible) rows, whatever the order of ties |
| Deliveries.SelectionIsInOrder | src/repositories/delivery.repository.ts:89-97 | the claim's answers are exactly those that take due rows in line by the columns: never retried first, then the earlier retry time, then the older row |
| Deliveries.SelectionsCompose | src/scheduler/scheduler.ts:100-118 | two claims in a row select and mark what one larger claim would |
| Deliveries.ResetUndoesClaim | src/repositories/delivery.repository.ts:127-139 | resetting a claimed batch gives every row back, touching no other row |
| Deliveries.LockIsTakenOnce | src/repositories/delivery-execution.repository.ts:31-45 | of several conditional updates of one row only the first takes it, and a locked row is not reset |
| Deliveries.LateUpdateChangesNothing | src/repositories/delivery.repository.ts:175-222 | a record made since the reaper's read and a lock made since the sweep's read both stand: the late updates change nothing |
| Deliveries.LateRecordOverwrites | src/repositories/delivery-execution.repository.ts:54-126 | a record takes no notice of the row it finds; a failure after a success leaves a delivery time on a row that is not delivered |
| Deliveries.ReplayStartsAfresh | src/repositories/event-query.repository.ts:117-139 | exactly a finished row is replayed; it becomes a new row but for its creation time, and cannot be replayed again at once |
| Deliveries.ReplayedIff | src/repositories/event-query.repository.ts:121-136 | DELIVERED and FAILED rows and no others are replayed, to PENDING with attempt 0 and every outcome column empty |
| Backoff.JitterInRange | src/workers/backoff.ts:60-62 | a delay is below the ceiling, and 0 for a ceiling of 0 |
| Backoff.JitterReachesAll | src/workers/backoff.ts:34-62 | full jitter: every whole delay below the ceiling is reached by some draw |
| Backoff.CapIsInvisibleIff | src/workers/backoff.ts:57-60 | the exponent cap only lowers the delay, and changes it exactly when the curve has not met the maximum by then |
| Backoff.CeilingGrows | src/workers/backoff.ts:53-60 | later attempts wait no less, and none longer than the maximum, before jitter |
| Backoff.BudgetIsAtMost | src/workers/backoff.ts:48-63 | n retries wait in all at most n times the maximum, and at most base times 2^n - 1 |
| Backoff.HighestPower | src/workers/backoff.ts:57-59 | the powers used are those of two; the highest is 2^30 |
| Repository.DeliveryTable.ClaimEligibleDeliveries | src/repositories/delivery.repository.ts:39-142 | run alone, claims the first due rows in line by retry time (nulls first) and age; accepted ones end QUEUED and in the window, rejected ones (all, if publishing throws) PENDING, other rows untouched |
| Repository.DeliveryTable.SelectEligible | src/repositories/delivery.repository.ts:89-97 | up to `limit` due rows, none overtaken by one left out, by the columns |
| Repository.DeliveryTable.ReclaimExpiredLeases | src/repositories/delivery.repository.ts:163-189 | exactly the PROCESSING rows with a lease older than the cutoff are given back to waiting, due now, one attempt counted |
| Repository.DeliveryTable.FindOrphanedQueued | src/repositories/delivery.repository.ts:205-214 | exactly the QUEUED rows not updated since the grace cutoff |
| Scheduling.BatchIsAcceptedIff | src/scheduler/scheduler.ts:104-114 | a batch that fits is taken whole iff nothing in it is marked, and ends the refill iff all of it is |
| Scheduling.RefillOneMore | src/scheduler/scheduler.ts:103-118 | one turn of the refill loop extends a one-shot claim by one batch |
| Scheduling.RecoveryKeepsConsistent | src/scheduler/scheduler.ts:83-84 | recovery leaves abandoned rows eligible and unmarked, and marks nothing that can be claimed |
| Scheduling.RecoveredRow | src/scheduler/scheduler.ts:41-84 | what recovery does to each row by its columns: a lease past its age is due now with an attempt more, a queued row is reset iff untouched for over 30 s and unmarked, any other row is left |
| Scheduling.Scheduler.ReclaimAbandoned | src/scheduler/scheduler.ts:175-188 | expired rows are reclaimed and exactly their ids leave the window |
| Scheduling.Scheduler.RecoverOrphans | src/scheduler/scheduler.ts:149-164 | exactly the stale QUEUED rows without a mark become PENDING, and are counted |
| Scheduling.Scheduler.Refill | src/scheduler/scheduler.ts:100-118 | the loop is a sequence of claims, each answering what is left of the room, the last one refused, exhausting or undone by a throwing publish |
| Scheduling.RefillIsOneClaim | src/scheduler/scheduler.ts:100-118 | from a consistent table the batches together are the answer of one claim of all the room |
| Scheduling.RefillFills | src/scheduler/scheduler.ts:100-118 | from any table what the batches took is queued and appended, and whatever else they touched is pending, also when a publish throws |
| Scheduling.Scheduler.Tick | src/scheduler/scheduler.ts:82-134 | recovery, then from a consistent table exactly the first min(free slots, eligible) rows, in line by the columns; every reported number; a tick throws exactly when a publish does, with that claim undone |
| TickRuns.TickIsRun | src/scheduler/scheduler.ts:82-134 | every tick alone, with any answers and any throwing publish, is a run of the step machine |
| TickRuns.RecoveryIsRun | src/scheduler/scheduler.ts:82-84 | left to itself the recovery half of a tick always comes to the refill |
| Workers.OutcomeMeans | src/workers/worker.ts:91-149 | which answers end DELIVERED, WAITING and FAILED, when, with which attempt number and retry range; no other row changes |
| Workers.CallLeaves | src/workers/worker.ts:70-149 | every column of the row and of the audit entry after a call, for each answer and each exception; after an exception past the lock, PROCESSING with the lease stamped and nothing logged |
| Workers.EveryDelayIsDrawn | src/workers/backoff.ts:48-72 | a retryable failure can get every whole delay below min(base * 2^min(n-1, 30), max) on its row |
| Workers.LargerDrawIsNotEarlier | src/workers/backoff.ts:48-72 | a larger random draw never gives the row an earlier retry time |
| Workers.WorkerPool.ProcessOne | src/workers/worker.ts:70-168 | the durable effect of a call under any answer or exception, column by column, and the slot released on every path unless the release fails |
| Workers.WorkerPool.Loop | src/workers/worker.ts:184-206 | a loop over any sequence of answers and exceptions, in the claim or in the call, has the effect of its turns one after another |
| Workers.ShiftGivesSlotsBack | src/workers/worker.ts:150-206 | a worker alone takes ready ids in order and gives every slot back, leaving other in-flight ids alone |
| Workers.ShiftTouchesOnlyReady | src/workers/worker.ts:184-206 | a loop changes only rows whose ids it took from the ready list, one logged attempt each at most |
| Workers.CallIsRun | src/workers/worker.ts:70-168 | a call of processOne, over any time within the hold, is a run of the step machine with the same rows, audit entries and window |
| Ownership.StepKeepsOwn | src/repositories/delivery-execution.repository.ts:34-39 | every step keeps exact marks, queued ready ids, and holders that are apart and inside their lease |
| Ownership.RunKeepsOwn | src/workers/worker.ts:70-168 | that invariant holds in every reachable state |
| Ownership.HeldIsNotExpired | src/repositories/delivery.repository.ts:164-186 | the row of a live holder is never one that the reaper may read as expired |
| Ownership.OwnIsExclusive | src/repositories/delivery-execution.repository.ts:34-39 | one sender per delivery, each lease is the one in the row, and the reaper holds no live worker's row |
| Accounting.EpochIsShort | src/workers/worker.ts:118-126 | no epoch records more than maxAttempts outcomes, however often the row was reclaimed |
| Accounting.LedgerFinishedIff | src/workers/worker.ts:91-135 | delivered, failed and finished, each exactly as the last outcome logged says |
| Accounting.EpochDelayBounded | src/workers/backoff.ts:48-81 | the delays of an epoch sum to at most the capped curve over attempts 1 to maxAttempts - 1 |
| Accounting.StepKeepsAccounts | src/repositories/delivery-execution.repository.ts:54-126 | every step keeps counter, audit log, row shape and retry times in agreement |
| Accounting.RunKeepsAccounts | src/repositories/delivery-execution.repository.ts:54-126 | they agree in every reachable state |
| Recovery.StepLosesIff | src/workers/worker.ts:150-167 | a step loses a delivery if and only if it is one of the stranding steps |
| Recovery.LostForever | src/queue/scripts.ts:78-83 | a lost delivery stays lost under every further step |
| Recovery.RunLosesNothingIff | src/scheduler/scheduler.ts:149-188 | a run loses nothing if and only if none of its steps was a stranding one |
| Recovery.ServedIffNotLost | src/scheduler/scheduler.ts:136-188 | a row is where something serves it if and only if it is not lost |
| Recovery.TickRecoversAbandoned | src/scheduler/scheduler.ts:82-84 | whatever runs meanwhile, a row abandoned past the lease or grace age is eligible and unmarked when the tick reaches its refill |
| Guarantees.WindowSoundInEveryRun | src/queue/scripts.ts:39-125 | in every run, with any number of actors and any crashes: cap, no ghost marks, first in first out |
| Guarantees.EachHolderOwnsOneSlot | src/workers/worker.ts:150-167 | a live worker's id is in flight and its own, and its completion frees exactly its slot |
| Guarantees.AttemptsAddUp | src/workers/worker.ts:85-135 | a row's counter is outcomes recorded plus leases reclaimed since the last replay; logged numbers rise |
| Guarantees.FinishedIff | src/repositories/delivery.repository.ts:155-161 | in every reachable state a row is FAILED iff its last outcome was a failure not retryable or at the attempt limit, DELIVERED iff a success |
| Guarantees.EveryEpochIsBounded | src/workers/backoff.ts:48-81 | every epoch, past or present, records at most maxAttempts outcomes and waits in all within the curve's sum, (maxAttempts - 1) * max and base * (2^(maxAttempts - 1) - 1) |
| Guarantees.BackoffIsNeverJumped | src/repositories/delivery.repository.ts:92-93 | whoever holds a row locked it no earlier than every retry time its epoch was given |
| Guarantees.RowsStayShaped | src/repositories/delivery.repository.ts:175-186 | PROCESSING iff lockedAt, WAITING implies nextRetryAt, DELIVERED iff deliveredAt, in every reachable state |
| Guarantees.EveryRowIsServedIff | src/scheduler/scheduler.ts:149-188 | all rows are where something serves them if and only if no step of the run was a stranding one |
| Guarantees.NothingStaysAbandoned | src/scheduler/scheduler.ts:82-84 | without stranding steps, a row nobody will finish is eligible and unmarked at the refill of the first tick past its age, whatever runs meanwhile, and that tick can get there |
| Guarantees.ThrownCallIsRecovered | src/workers/worker.ts:85-89 | a row left locked by an exception is untouched within its lease and then given back by recovery, due at once, an attempt counted, out of the window |
| Limits.ExclusionIff | src/config/env.ts:171-180 | exclusive sending in every run if and only if there is one scheduler and a worker may not hold a row longer than the lease |
| Limits.LongHoldBreaksExclusion | src/repositories/delivery.repository.ts:163-189 | the run in which two workers send one delivery |
| Limits.LongHoldBreaksMarks | src/queue/scripts.ts:94-95 | the run in which a slow worker's completion takes the mark of a ready id |
| Limits.SecondSchedulerBreaksExclusion | src/repositories/delivery.repository.ts:166-186 | the run in which a second scheduler reclaims a lease that has just begun, and two workers send |
| Limits.ExactMarksIff | docker-compose.yml:92-95 | marks stay exact in every run if and only if there is one scheduler and a worker may not hold a row longer than the lease |
| Limits.RowShapesIff | src/repositories/delivery-execution.repository.ts:54-126 | every status keeps its timestamps in every run under the same condition |
| Limits.SecondSchedulerBreaksMarks | src/repositories/delivery.repository.ts:166-188 | the run in which a second scheduler takes the mark of a ready id |
| Batches.StepKeepsBatchesIff | src/repositories/delivery.repository.ts:88-139 | with any number of schedulers, a step keeps unpublished batches disjoint and their rows QUEUED iff it does not take one of these rows out of QUEUED |
| Batches.BatchesStaySoundIff | src/repositories/delivery.repository.ts:33-37 | throughout a run of any number of schedulers, batches stay disjoint and queued if and only if no step intrudes |
| Batches.OwnedRunsDoNotIntrude | src/scheduler/scheduler.ts:100-118 | one scheduler, and workers inside their lease, never intrude |
| Batches.DisjointBatchesIff | docker-compose.yml:92-95 | no run at all shares a batch if and only if there is one scheduler: with two, nothing in the code prevents it |
| Limits.StalledPublishIsClaimedTwice | src/scheduler/scheduler.ts:33-41 | the run in which a slow publish is swept and claimed by another scheduler |
| Limits.ReclaimedWithoutEnd | src/repositories/delivery.repository.ts:155-186 | for every n, a run in which one delivery is sent for the (n+1)-th time with nothing recorded |
| Signature.VerifyPrintedIff | src/workers/signature.ts:52-115 | a printed header verifies for another body or secret iff it is fresh and the two hashes agree |
| Signature.HeaderIs | src/workers/signature.ts:52-115 | the header's text, and that any hex digest is accepted iff fresh and the keyed hash of digits, a dot and the body |
| Signature.DecimalDenotes | src/workers/signature.ts:57-66 | the digits printed denote the timestamp, with no leading zero |
| Signature.VerifyAcceptsOwnHeader | src/workers/signature.ts:52-115 | a message's own fresh header verifies |
| Signature.VerifyIgnoresOtherFields | src/workers/signature.ts:84-92 | fields of other names after any header change nothing |
| Signature.VerifyIgnoresField | src/workers/signature.ts:84-92 | one more key=value field with a key other than t and v1 changes nothing |
| Signature.SignedStringInjective | src/workers/signature.ts:48-57 | the signed string determines timestamp and body |
| Publishing.RunKeepsSound | src/services/event.service.ts:36-125 | under every interleaving: one event per project and key, one creator each, every call knows a real event |
| Publishing.PublishIsIdempotent | src/services/event.service.ts:43-124 | all finished calls for a key return the one event, exactly one created it, its deliveries are what that call listed |
| Publishing.SameEventIff | src/services/event.service.ts:43-124 | two calls answer with one event iff they are one project's and their headers are present and differ only in blanks around them |
| Publishing.NoCallFails | src/services/event.service.ts:93-124 | no call ever fails, whatever the interleaving: a violation is always resolved |
| Publishing.EveryCallCanFinish | src/services/event.service.ts:36-125 | from every reachable state every call can be run to its answer, alone |
| Publishing.KeyIsHeaderBetweenBlanks | src/validators/event.schema.ts:42-47 | the key is the whole header but for surrounding blanks, admitted iff it has 1 to 255 characters; no header is no key |
| Text.TrimIff | src/validators/event.schema.ts:42-44 | trimming leaves exactly the text between the blanks at both ends |
| Text.BlankCharacters | src/workers/signature.ts:87 | which characters are blanks, by code point |
| Sessions.SessionService.RefreshSession | src/services/session.service.ts:72-122 | answers with the user exactly for a live, unexpired token of an existing user; then that token is revoked and linked, the new one lasts until now + ttl, and no other changes |
| Sessions.IssueOpensOneSession | src/services/session.service.ts:45-52 | an issued token is one live token more for its user, exchangeable exactly until its expiry |
| Sessions.RefreshRenews | src/services/session.service.ts:105-114 | after a refresh the new token is accepted exactly until now + ttl, whatever the old one had left, and the old one never |
| Sessions.SessionInUseStaysAlive | src/services/session.service.ts:60-71 | a session refreshed at least every ttl never ends |
| Sessions.SignOutEndsOneSession | src/services/session.service.ts:131-137 | signing out ends the presented session and no other, and again or with an unknown token changes nothing |
| Sessions.RefreshAfterSignOut | src/services/session.service.ts:79-99 | a signed-out token presented again ends every session of its user and of nobody else |
| Sessions.ReuseSignsOut | src/services/session.service.ts:79-99 | a revoked token presented leaves its user no live token and other users unchanged |
| Sessions.RunKeepsSound | src/repositories/refresh-token.repository.ts:45-63 | over every run: successors are younger, of the same user and of one predecessor only |
| Sessions.LineagesAreLinear | src/services/session.service.ts:60-71 | no token is exchanged twice, no chain returns to itself, only its last token can be live |
| Sessions.RotationKeepsCountIff | src/repositories/refresh-token.repository.ts:45-55 | a rotation keeps the number of live tokens iff the presented one is still live as it runs |
| Sessions.OverlappingRefreshesFork | src/repositories/refresh-token.repository.ts:45-63 | two refreshes past the checks of one token leave one live token more |
| Paging.CursorSkipsNothingIff | src/repositories/event-query.repository.ts:34-43 | a cursor query answers with the rows after the cursor iff the cursor row matches the filter or nothing follows |
| Paging.PageOfRest | src/services/event-query.service.ts:43-56 | a page is the first rows still to come, with a cursor iff more follow |
| Paging.PageShowsNewest | src/services/event-query.service.ts:43-56 | a page is the newest events still to come, newest first by time then id, at most limit of them, with a cursor iff some are left |
| Paging.RestAfterPage | src/services/event-query.service.ts:50-55 | what follows the next cursor is the list without the page |
| Paging.WalkCoversExactlyOnce | src/services/event-query.service.ts:31-57 | following cursors ends and yields every event of the project and kind newest first, once each, also while rows arrive in front |

## Left out

- HTTP sending (`src/workers/deliver.ts`): a send is an arbitrary answer or exception; that it ends within `holdMs` is assumed.
- Redis, Postgres and Prisma internals: each script, BLMOVE, statement and transaction is one step; SKIP LOCKED may omit any eligible rows from a claim.
- Publishing whose reply is lost after the script took effect: covered by the arbitrary operations of `WindowSpec.WindowIsAlwaysSound` only; in the step machine a publish that throws took no effect.
- Rows deleted by a cascade from projects, webhooks or events.
- Tenancy checks and project ownership in replay, publish and paging; payloads and webhook rows.
- HMAC, SHA-256, random bytes and JavaScript's number conversions: parameters with the laws relied on; token hashing is injective.
- Floating point: random draws are reals in [0, 1), times are integer milliseconds, and signature timestamps go up to MAX_SAFE_INTEGER.
- Several clocks: all actors read one clock, though a stamp may be older than the step that writes it.
- Scheduling.Scheduler.Tick: a tick alone at one instant; a tick interleaved with anything else, and one that is cut short by another exception than a publish's, is the step machine's own scheduler.
- Workers.CallIsRun: nobody else writes during the call; a call interleaved with others is the step machine's own worker.
- Workers.WorkerPool.Loop: a claim that throws has taken nothing; one that took an id and lost the reply is the step machine's worker that stops after its pop.
- Sessions.LineagesAreLinear: takes each refresh as one step; of overlapping refreshes only the rotations are modelled, not a machine of all interleavings.
- Start and stop of the loops, sleeping, `stats`, `clear`, `countByStatus`, logging.
- A publish whose process dies between commit and reply, and faults other than the unique violation.
- Eventual delivery: receivers may fail forever, so recoverability and bounds are proved, not delivery.
- URL safety, request schemas other than the idempotency key, project, webhook and API-key management, routes, authentication middleware, configuration loading and the web interface: none of them touches the two stores' agreement or the four smaller parts.
