# Constat: a verified model of the collection, scan, cost and insight cores

Constat collects AWS inventory and FOCUS cost exports, keeps a proof of what each scan covered, and
turns both into findings that an operator can acknowledge. This project models the parts of it that
make a promise about every run, and proves those promises.

**Collection protocol.** `CollectQueue` is the bounded in-process queue, as functions on its state
and as a class that computes them in place. `QueueHistory` adds a ledger of everything that was
sent, delivered, deferred and acked, and an invariant over every run. `QueueEffects` says in plain
terms what each call does to the items. `CollectWorker` has the per-account limiter and one drain
pass. `CollectProtocol` interleaves any number of workers with requests, foreign scans, job
deletions and time, one atomic step per lock-protected call or database call, and proves the
evaluation, receipt, limiter and status promises for every reachable state. `EvaluationClaim`,
`SomeSchedule` and `LostBatches` say exactly when a job is complete, which requests can be
evaluated and what a raising lookup costs; `LoneWorker` shows that the protocol's moves compose to
the drain pass. `WorkerFates` is what becomes of each item in every reachable state, and why an
acked item is gone; `ProtocolEffects` does the same for the tables.

**Scan proof.** `ScanProof` is the history of runs, sightings and sweeps under one clock, with the
soundness and exactness of retirement. `ScanTables` holds the tables and the region job that drives
them. `ScanEffects` is what each call changes and what it leaves alone. `RegionBreaker` is the loop
over the regions with its circuit breaker.

**Rule runs.** `RuleRuns` is the delete-and-replace of a rule's rows and the append-only event log.
`AckCarryOver` proves that acknowledgments behave as on a table that is never wiped.
`InsightRunner` is the run itself, on tables, and the promise of no finding without a fresh proof.
`RunOutcomes` is what a run leaves about each resource, and `RuleRunEffects` what it leaves in the
tables.

**Costs.** `Focus` has charges and exact sums; `FocusAggregator` the storage buckets;
`FocusStorage` and `FocusStorageLaws` the upsert and its keys; `FocusReadback` the two
reconstructions, the round trip and the period report; `Chargeback` and `ChargebackLaws` the
groupings and their conservation; `FocusPipeline` the tag report of a whole file.
`AggregateFields`, `StoredFields` and `TagShares` say, from the input rows alone, what every column
of an aggregate and of a stored row holds and what each tag value is shown with.

**Two small cores.** `FocusCoverage` finds month gaps; `IdempotencyCache` is the TTL cache.

## How it is modelled

- Code that changes state is a class or a loop, proved against a specification function; the
  promises are lemmas about those functions and about runs of them.
- Each lock-protected call and each repository call is one atomic step. Reading a job row and
  then its source runs in the completion check is one step too; the number it compares with
  never changes after the row is written.
- Clocks are monotone real numbers, read once per call. Receipts, row ids and job ids are numbers
  from a counter where the program draws uuids; fingerprints and stable ids are values of a
  datatype where the program hashes or joins strings.
- Money is `real`: sums and the fallback weights are exact.
- What scans yield, what a rule says about a resource and what fails are inputs, arbitrary in
  every theorem. A rule is assumed to emit insights under its own name and at most one about each
  resource; a rule may also emit insights about accounts.
- Each resource type has one source, and each AWS account id one account row.

## Promises the code keeps only under a condition

Each of these is proved as it stands in the code, with the exact condition and an input that
breaks it.

- The cost of a stored bucket survives grouping by tag exactly when none of its input rows is
  tagged or its untagged rows cost nothing (`FocusReadback.StoredAttribution`,
  `FocusPipeline.FileToTagReport`, `FocusReadback.MixedBucketLosesItsUntaggedRows`). The
  comments of the loader and the resolver give the untagged rows their cost; the table has no row
  for them.
- The row-count fallback books under the native service, so it keeps a charge in its own bucket
  exactly when that is the service key or the charge costs nothing
  (`ChargebackLaws.SplitAddsUpExactlyWhen`, `ChargebackLaws.FallbackMissesCanonicalBucket`).
- An upsert keeps one row per key unless it takes away the canonical name of a row whose native
  name is the key of another row (`FocusStorageLaws.UpsertKeepsKeysExactlyWhen`,
  `FocusStorageLaws.NativeNamedLikeCanonicalCollides`).
- A second ingest of a file is idle exactly when each of its aggregates inserts, has a canonical
  name, or has the native name of the row it updates
  (`FocusStorageLaws.SecondIngestIsIdleExactlyWhen`).
- A job becomes complete exactly when its runs are done and cover its scopes, and these were
  pairwise distinct (`EvaluationClaim.CompleteExactlyWhen`); so a request can be evaluated at all
  exactly when it lists something and nothing twice
  (`SomeSchedule.EvaluatedOnSomeScheduleExactlyWhen`, `EvaluationClaim.TargetListedTwice`).
- A received item is acked or given back exactly as long as no job lookup raises; one that raises
  loses the rest of its batch for good (`LostBatches.LostExactlyByRaises`,
  `LostBatches.RaiseLosesTheBatch`).
- Cache scopes are separate exactly when none, followed by a colon, starts another
  (`IdempotencyCache.ScopesCollideExactlyWhen`, `IdempotencyCache.ColonInScopeCollides`).
- Storing in the cache fails when the cap is below one (`IdempotencyCache.Cache.Put`).

## Where the code and its comments differ

The model follows the code.

- The loaders' comments say that rows stored before per-row costs existed go to the row-count
  fallback. Their zero costs are read as real costs, so they do not
  (`FocusReadback.ReadBackNeverFallsBack`).
- The cache's comment mentions a deque and eviction by insertion order. There is only the dict,
  and storing under a key that is there keeps its old place.
- Retirement is documented as two consecutive scans. The code looks at the two newest successful
  ones, so failed scans between them do not count.
- A failed run is not final: a scan that ends after it was aborted or cleaned up overwrites the
  status.

## Model

| member | source | states |
|---|---|---|
| CollectQueue.InProcessQueue.constructor | apps/api/src/constat_api/collect_queue.py:145-150 | A new queue is empty and keeps the capacity it was given. |
| CollectQueue.InProcessQueue.Send | apps/api/src/constat_api/collect_queue.py:156-168 | Accepts the whole batch, in order and with fresh receipts, exactly when it fits beside what is ready, delayed and in flight (an empty batch always does); otherwise the queue is as before. |
| CollectQueue.InProcessQueue.PromoteDue | apps/api/src/constat_api/collect_queue.py:211-219 | Popping the prefix of the sorted delayed list moves exactly the due entries, wherever they stand, behind the ready ones, and leaves exactly the others. |
| CollectQueue.InProcessQueue.ReceiveNow | apps/api/src/constat_api/collect_queue.py:173-184 | One pass of receive under the lock: promote what is due, then move up to `max_items` of the oldest ready items into flight with one more attempt each. |
| CollectQueue.InProcessQueue.Ack | apps/api/src/constat_api/collect_queue.py:192-196 | Removes exactly the given receipt from flight and says whether it was there; an unknown receipt changes nothing. |
| CollectQueue.InProcessQueue.Nack | apps/api/src/constat_api/collect_queue.py:198-209 | Takes the receipt out of flight and parks its item, attempts unchanged, until now plus the delay (a negative delay counts as zero); the list is sorted again; an unknown receipt changes nothing. |
| CollectQueue.StableSortSorts | apps/api/src/constat_api/collect_queue.py:207 | The sort orders the delayed list by not-before time and keeps exactly its entries. |
| CollectQueue.NackOnlyInserts | apps/api/src/constat_api/collect_queue.py:205-207 | On the list the queue keeps, sorting after the append is one insertion: no other entry changes place relative to the rest. |
| CollectQueue.HeadDecides | apps/api/src/constat_api/collect_queue.py:217 | On a sorted list, a head that is not due means that nothing is due, so the loop stops at the right place. |
| CollectQueue.DueMembers | apps/api/src/constat_api/collect_queue.py:217-219 | An entry is promoted exactly when some delayed item carries it with a not-before time that has passed. |
| CollectQueue.DeliverIsFifo | apps/api/src/constat_api/collect_queue.py:176-180 | A receive hands over exactly the first min(`max_items`, ready) items in order, each with one more attempt, and leaves the rest of the ready list and the delayed list as they are. |
| CollectQueue.EmptyReceiveIsInvisible | apps/api/src/constat_api/collect_queue.py:181-190 | A pass that asks for at least one item and hands over nothing leaves the queue exactly as it was, so the passes of a waiting receive cannot be observed. |
| QueueHistory.StepKeeps | apps/api/src/constat_api/collect_queue.py:156-219 | Every send, receive, ack, nack and passing of time keeps the history invariant and the clock never goes back. |
| QueueHistory.RunKeeps | apps/api/src/constat_api/collect_queue.py:152-219 | In every run from an empty queue: each accepted item is in exactly one of ready, delayed, in flight and acked; receipts are distinct; pending items never exceed the capacity; the delayed list is sorted; attempts equal the deliveries made; nothing is ready or in flight before its not-before time. |
| QueueHistory.OnlyAckRemoves | apps/api/src/constat_api/collect_queue.py:160-163 | Only the ack of a receipt in flight takes an item away, and takes that one; only an accepted send adds, and only its own new receipts; a refused send changes nothing. |
| QueueHistory.DeliveredOnTime | apps/api/src/constat_api/collect_queue.py:176-180 | What a receive hands over is never early, is the item accepted under that receipt, and carries an attempt number one past the deliveries so far. |
| QueueHistory.NackConserves | apps/api/src/constat_api/collect_queue.py:198-209 | A nack keeps every receipt in exactly one place. |
| QueueEffects.SendAppends | apps/api/src/constat_api/collect_queue.py:156-168 | An accepted send puts its items, in order, with consecutive fresh receipts and no attempt yet, behind everything that was ready. |
| QueueEffects.PromotionCuts | apps/api/src/constat_api/collect_queue.py:211-219 | On the sorted list the due entries are a prefix, in the order of the list, and what stays is the rest of it. |
| QueueEffects.AckForgets | apps/api/src/constat_api/collect_queue.py:192-196 | After the ack of an item in flight its receipt is nowhere and nothing else has moved. |
| QueueEffects.NackAddsOne | apps/api/src/constat_api/collect_queue.py:198-209 | A nack adds exactly one entry to the delayed list: the same item and attempts, due now plus the delay, or now when the delay is negative. |
| QueueEffects.NackParks | apps/api/src/constat_api/collect_queue.py:198-209 | So the item is parked once, its receipt is nowhere else, and nothing else has moved. |
| QueueEffects.DeliveryFlies | apps/api/src/constat_api/collect_queue.py:176-180 | Everything handed over is in flight with its item and attempts, and nothing else entered or left flight. |
| QueueEffects.ReceivedFliesOnly | apps/api/src/constat_api/collect_queue.py:173-184 | What a receive hands over is in flight and nowhere else, each under its own receipt. |
| QueueEffects.ReceiveIsExact | apps/api/src/constat_api/collect_queue.py:173-184 | A receive hands over the ready items and behind them those whose time has come, as many as it may, each with one more attempt; the others wait in that order, and what is not due stays. |
| CollectWorker.BackoffSeconds | apps/api/src/constat_api/worker.py:147-149 | Thirty seconds for each delivery up to the tenth, 300 from then on, and never less than 30. |
| CollectWorker.ReleaseUndoesAcquire | apps/api/src/constat_api/worker.py:123-139 | After a successful acquire the counts are still within the cap, and releasing gives back the very same map, so no zero count is ever left behind. |
| CollectWorker.PerAccountLimiter.TryAcquire | apps/api/src/constat_api/worker.py:123-130 | Takes a slot exactly when the account is below the cap, changes no other account, and keeps every stored count between one and the cap. |
| CollectWorker.PerAccountLimiter.Release | apps/api/src/constat_api/worker.py:132-139 | Gives one slot back, removes the entry when it was the last one, and changes no other account. |
| CollectWorker.FailedIsParked | apps/api/src/constat_api/worker.py:328-333 | After a failed scan the delayed list has exactly one entry with the receipt: same item, same attempts, due thirty seconds per delivery from now, at most three hundred; the receipt is nowhere else. |
| CollectWorker.DeferredIsParked | apps/api/src/constat_api/worker.py:314-319 | After a deferral likewise, due five seconds from now. |
| CollectWorker.SettledMeetsItsFate | apps/api/src/constat_api/worker.py:300-344 | Whatever the status of an item in flight: forgotten after a clean scan or without its job row, parked five seconds when its account is busy, parked with backoff after a failed scan. |
| CollectWorker.DrainedMeetFates | apps/api/src/constat_api/worker.py:297-354 | Every item of a pass meets that fate whatever becomes of the others. |
| CollectWorker.SettleOne | apps/api/src/constat_api/worker.py:300-344 | One item: dropped exactly without a job row, deferred exactly at the cap, a success exactly after a clean scan, otherwise failed; the queue is settled as the status says, the receipt leaves flight in every case and the limiter ends where it began. |
| CollectWorker.DrainOnce | apps/api/src/constat_api/worker.py:297-354 | One outcome per received item, in order: dropped exactly without a job row, deferred exactly at the cap, a success exactly after a clean scan; each item then meets the fate its outcome calls for, and the limiter ends where it began. |
| CollectProtocol.PlanMatchesTotal | apps/api/src/constat_api/routers/aws.py:239-264 | The job row announces exactly as many items as are built from the targets, and every item carries that job. |
| CollectProtocol.ApplyKeeps | apps/api/src/constat_api/worker.py:297-354 | One step of any actor (worker, request, clock, foreign scan, job deletion) keeps all invariants of the pool. |
| CollectProtocol.ReachableOk | apps/api/src/constat_api/worker.py:297-354 | Every state any schedule leads to, for any capacity, pool size and cap, has them all. |
| CollectProtocol.EvaluationIsSafe | apps/api/src/constat_api/worker.py:184-206 | In every reachable state a job whose evaluation status is set has exactly one winning claim, a non-empty plan, a source run for every enqueued (account, region) scope and for no other, and pairwise distinct scopes. |
| CollectProtocol.CoveredExactlyWhen | apps/api/src/constat_api/repositories/collect_jobs.py:96-97 | The pigeonhole: as many scopes with a run as items announced means all enqueued scopes, no others, and no scope enqueued twice, and conversely. |
| EvaluationClaim.CompleteExactlyWhen | apps/api/src/constat_api/repositories/collect_jobs.py:93-97 | In every reachable state a job is complete exactly when none of its runs is running, the scopes of its runs are the enqueued ones, and those were pairwise distinct. |
| EvaluationClaim.EvaluationStartsExactlyWhen | apps/api/src/constat_api/worker.py:187-195 | A worker that checks and claims with nothing in between starts the evaluation exactly when the job exists, was not claimed, and is complete in that sense. |
| EvaluationClaim.EvaluatorOwnsTheClaim | apps/api/src/constat_api/worker.py:190-206 | In every reachable state a worker that evaluates a job won its only claim, finds the status still running, and is the only one evaluating it, so nobody else can write the outcome. |
| EvaluationClaim.DuplicateIsNeverEvaluated | apps/api/src/constat_api/repositories/collect_jobs.py:93-97 | A job whose scopes are not pairwise distinct keeps its status at NULL on every schedule. |
| EvaluationClaim.TargetListedTwice | apps/api/src/constat_api/routers/aws.py:239-264 | The input: one target listed twice announces two items for one scope, and that job is never evaluated, whatever happens next. |
| SomeSchedule.EvaluatedOnSomeScheduleExactlyWhen | apps/api/src/constat_api/routers/aws.py:239-269 | A request can be evaluated, on some schedule for some queue and pool, exactly when it has a target and its (account, region) scopes are pairwise distinct. |
| LostBatches.RaiseLosesTheBatch | apps/api/src/constat_api/worker.py:297-303 | A job lookup that raises loses the receipt it looked up and every later one of its batch, none of which was lost before. |
| LostBatches.LostExactlyByRaises | apps/api/src/constat_api/worker.py:297-303 | Over any stretch of any schedule something is lost exactly when some lookup raised in its turn. |
| LostBatches.LostTakesCapacityForGood | apps/api/src/constat_api/collect_queue.py:152-163 | What is lost stays in flight on every later schedule, unacked and held by no worker, so it takes queue capacity for good. |
| LoneWorker.ItemIsSettled | apps/api/src/constat_api/worker.py:300-344 | The moves of a worker on its next item, with source runs and time passing while it scans, settle that item in the queue as its status says, give back the slot and touch no other worker, whatever the evaluation chain does. |
| LoneWorker.ItemMeetsItsFate | apps/api/src/constat_api/worker.py:300-344 | In a reachable state these moves forget the item when its job row is missing or its scan is clean, and otherwise park it once with its attempts: five seconds at the cap, after a failed scan thirty per delivery, at most three hundred. |
| LoneWorker.LonePassIsADrain | apps/api/src/constat_api/worker.py:297-354 | A receive and all its items by one worker, nobody else moving, leave queue and limiter exactly as the drain pass does. |
| WorkerFates.HistoryIsUnique | apps/api/src/constat_api/collect_queue.py:145-219 | In every state of every run no receipt is in two places. |
| WorkerFates.HeldFliesOnly | apps/api/src/constat_api/worker.py:297-344 | In every reachable state the item in a worker's hands is in flight, with the attempts the worker sees, and nowhere else. |
| WorkerFates.FailedScanIsParked | apps/api/src/constat_api/worker.py:328-333 | In every reachable state, settling a failed scan parks the item once with its attempts, for thirty seconds per delivery, at most three hundred. |
| WorkerFates.BusyIsParked | apps/api/src/constat_api/worker.py:314-319 | And deferring at the cap parks it for five seconds. |
| WorkerFates.CleanScanIsForgotten | apps/api/src/constat_api/worker.py:322-327 | And settling a clean scan leaves its receipt nowhere. |
| WorkerFates.OrphanIsForgotten | apps/api/src/constat_api/worker.py:300-313 | And so does dropping an item without a job row. |
| WorkerFates.OnlyCleanOrOrphanIsAcked | apps/api/src/constat_api/worker.py:297-344 | On every schedule a receipt is acked only if its own scan ended ok or its own job row was found missing. |
| ProtocolEffects.PlanIsExact | apps/api/src/constat_api/routers/aws.py:250-264 | The items are exactly the (account, region) pairs the targets ask for, all for this job; a target without regions asks for the seven default ones. |
| ProtocolEffects.PlanGrowsInOrder | apps/api/src/constat_api/routers/aws.py:250-264 | They come target by target and region by region. |
| ProtocolEffects.CommitAddsARow | apps/api/src/constat_api/routers/aws.py:239-267 | A commit adds one unevaluated job row with the number of items and enqueues nothing yet. |
| ProtocolEffects.SendAllOrMark | apps/api/src/constat_api/routers/aws.py:266-273 | A send that does not fit leaves the queue as it was and marks the row, which stays; one that fits appends every item and marks nothing. |
| ProtocolEffects.EndedRunIsOver | apps/api/src/constat_api/repositories/source_runs.py:99-114 | An ended run is not running any more, keeps its job, scope and type, and no other run changes. |
| ProtocolEffects.ScanBeginsOneRun | apps/api/src/constat_api/repositories/source_runs.py:26-68 | A scan begins one run, for the item's job and scope, unless one of that scope and type is running. |
| ProtocolEffects.OneScanEachAlways | apps/api/src/constat_api/orm.py:519-528 | On every schedule at most one scan of a scope and type is running. |
| ProtocolEffects.OutcomeIsRecorded | apps/api/src/constat_api/repositories/collect_jobs.py:161-168 | The evaluator records the outcome it had, and no other row changes. |
| CollectProtocol.StatusStep | apps/api/src/constat_api/repositories/collect_jobs.py:144-168 | One step moves a surviving job's evaluation status at most one place forward along NULL, running, success or failed, never back and never from one outcome to the other. |
| CollectProtocol.RowStep | apps/api/src/constat_api/repositories/collect_jobs.py:38-56 | A job row that was not there before a step is the one the step committed, and its status is NULL. |
| CollectProtocol.StatusOnlyMovesForward | apps/api/src/constat_api/repositories/collect_jobs.py:144-168 | The same over any stretch of any schedule. |
| CollectProtocol.ClaimWon | apps/api/src/constat_api/repositories/collect_jobs.py:153-158 | The conditional update wins only when the job has no claim yet, so claims stay one per job. |
| CollectProtocol.ReceiptsAreHeldOnce | apps/api/src/constat_api/worker.py:297-344 | In every reachable state, a receipt a worker holds is in flight, is held once by it, and by no other worker. |
| CollectProtocol.LimiterCountsWorkers | apps/api/src/constat_api/worker.py:314-344 | In every reachable state, the count of an account equals the number of workers between acquire and release for it, never exceeds the cap and is never stored as zero. |
| CollectProtocol.QuiescentPoolHoldsNothing | apps/api/src/constat_api/worker.py:297-354 | When all workers are idle the limiter is empty, and the only receipts in flight are those of batches that a raising job lookup cut short. |
| CollectProtocol.AckedIsNotInFlight | apps/api/src/constat_api/worker.py:332-333 | The nack after an exception in the evaluation chain finds its receipt already acked, and so does nothing. |
| ScanTables.Tables.AbortActiveRun | apps/api/src/constat_api/repositories/source_runs.py:71-96 | Fails exactly the running runs of the scope and source. |
| ScanTables.Tables.StartRun | apps/api/src/constat_api/repositories/source_runs.py:26-68 | Returns nothing, and changes nothing, exactly when a run of the scope is active and not forced; otherwise adds one running run, after failing the active one when forced. |
| ScanTables.Tables.FinishRun | apps/api/src/constat_api/repositories/source_runs.py:99-114 | Closes one run with the given status, whatever its status became meanwhile, and leaves every other run alone. |
| ScanTables.Tables.CleanupStuckRuns | apps/api/src/constat_api/repositories/source_runs.py:117-145 | Fails exactly the running runs that started before the cutoff, and returns how many there were. |
| ScanTables.Tables.UpsertResource | apps/api/src/constat_api/repositories/resources.py:29-76 | Inserts the resource, or bumps its sighting time and brings it back if it was retired; the first sighting time is kept. |
| ScanTables.Tables.RetireStaleResources | apps/api/src/constat_api/repositories/resources.py:122-184 | Retires, now, exactly the stale active resources of the scope and returns how many. |
| ScanTables.Tables.RunRegionJob | apps/api/src/constat_api/collectors/aws.py:345-476 | Refused and without effect when a scan of the scope is active and not forced; otherwise starts a run, sees every item, closes the run as a success only if the scan ran to completion, and sweeps only then and not in a dry run. |
| ScanTables.IncompleteScanRetiresNothing | apps/api/src/constat_api/collectors/aws.py:451-466 | After a scan that failed, raised or was a dry run, every retired resource was retired before. |
| ScanTables.CompletedScanProves | apps/api/src/constat_api/collectors/aws.py:374-466 | A completed scan leaves a finished success for its scope, and every item it yielded is active and seen no earlier than the run started, its own sweep included. |
| ScanProof.ByStartMembers | apps/api/src/constat_api/repositories/resources.py:107-119 | The query for recent runs finds the successful runs of the scope and no others. |
| ScanProof.ByStartIsOrdered | apps/api/src/constat_api/repositories/resources.py:116 | It lists each once, newest start first. |
| ScanProof.SweepIsExact | apps/api/src/constat_api/repositories/resources.py:147-177 | A sweep retires an active resource of its scope exactly when two different successful runs of that scope and source started after its last sighting. |
| ScanProof.StepKeeps | apps/api/src/constat_api/repositories/source_runs.py:26-145 | Every start, sighting, finish, sweep, cleanup and passing of time keeps the scan invariants. |
| ScanProof.RetiredWasMissedTwice | apps/api/src/constat_api/repositories/resources.py:147-184 | In every reachable state a retired resource has two different successful runs of its scope that both started after every sighting of it, so neither saw it; failed, forced, late and resurrecting scans included. |
| ScanProof.SecondSweepIsIdle | apps/api/src/constat_api/repositories/resources.py:144-145 | A sweep straight after a sweep, at any later time, retires nothing. |
| ScanProof.OneScanPerScope | apps/api/src/constat_api/orm.py:519-528 | In every reachable state at most one run per scope and source is running. |
| ScanProof.LatestIsFreshIffSomeIs | apps/api/src/constat_api/repositories/source_runs.py:180-197 | The latest successful run is within the freshness window exactly when some successful run is. |
| ScanProof.ReachableSuccessesAreFinished | apps/api/src/constat_api/repositories/source_runs.py:108-109 | In every reachable state each successful run has a finish time. |
| ScanEffects.StartSparesOthers | apps/api/src/constat_api/repositories/source_runs.py:71-96 | A start leaves every run that was there as it was, except that a forced one fails, now, those running under exactly its scope and source, keeping their start, scope and source. |
| ScanEffects.StartAddsOne | apps/api/src/constat_api/repositories/source_runs.py:26-68 | It adds one running run started now, unless one of its scope and source is running and it is not forced; then nothing changes. |
| ScanEffects.FinishTouchesOne | apps/api/src/constat_api/repositories/source_runs.py:99-114 | A finish writes status and finish time of its own run and touches no other and no resource. |
| ScanEffects.CleanupIsExact | apps/api/src/constat_api/repositories/source_runs.py:117-145 | A cleanup fails, now, exactly the runs running since before the cutoff. |
| ScanEffects.StuckCountIsExact | apps/api/src/constat_api/repositories/source_runs.py:117-145 | The count it returns is the number of those runs. |
| ScanEffects.SeeTouchesOne | apps/api/src/constat_api/repositories/resources.py:29-76 | A sighting makes its resource active and seen now, keeps the first sighting, and touches no other. |
| ScanEffects.SweepStampsOnlyMissed | apps/api/src/constat_api/repositories/resources.py:122-184 | A sweep stamps, now, exactly the active resources of its scope that two successful runs of its scope and source started after, and changes nothing else about anything. |
| ScanEffects.JobLeavesItsOutcome | apps/api/src/constat_api/collectors/aws.py:345-476 | The run of a job ends as a success exactly when its scan ran to completion, with the number of items; after any other scan, and after a dry run, the resources it did not yield are as before. |
| ScanEffects.CompletedJobSweeps | apps/api/src/constat_api/collectors/aws.py:451-466 | After a completed scan that was not a dry run, of the resources it did not yield exactly the active ones of its scope that two successful runs, its own included, started after are retired. |
| RegionBreaker.StreakDecides | apps/api/src/constat_api/collectors/aws.py:539 | The error counter reaches the threshold exactly when the last regions, as many as the threshold, all failed. |
| RegionBreaker.RunJobs | apps/api/src/constat_api/collectors/aws.py:561-579 | Every job of a region runs whatever the others reported, with one error per failing job, in order, unless one raises past its handlers, which ends the region. |
| RegionBreaker.CollectRegions | apps/api/src/constat_api/collectors/aws.py:536-605 | An exception past the handlers ends the target exactly when a region it happens in is reached before the breaker trips. Otherwise the skipped regions are exactly the suffix from the first point at which the last N regions all failed (none if that never happens); the errors are those of the scanned regions, in order, then one per skipped region. |
| RegionBreaker.ErrorsNameWhatHappened | apps/api/src/constat_api/collectors/aws.py:536-605 | An error is there exactly when it names a region and job that failed there, or a skipped region. |
| RegionBreaker.OneErrorPerFailure | apps/api/src/constat_api/collectors/aws.py:561-579 | A region has as many errors as jobs that failed in it. |
| RuleRuns.KeysArePresence | apps/api/src/constat_api/repositories/insight_events.py:37-44 | A snapshot of a rule contains a fingerprint exactly when some row of the rule has it. |
| RuleRuns.DiffAmounts | apps/api/src/constat_api/repositories/insight_events.py:78-112 | Each event of a run is about a fingerprint of the rule whose presence changed, with the fresh amount when it appeared and the old amount when it was resolved. |
| RuleRuns.DiffFlips | apps/api/src/constat_api/repositories/insight_events.py:78-112 | A run records each fingerprint at most once, and each record flips its state. |
| RuleRuns.DiffMentions | apps/api/src/constat_api/repositories/insight_events.py:78-112 | Every fingerprint of the rule whose presence changed is recorded. |
| RuleRuns.OtherRulesStay | apps/api/src/constat_api/repositories/insights.py:107-109 | A run of one rule leaves the presence of every other rule's fingerprints as it was. |
| RuleRuns.LogStep | apps/api/src/constat_api/insights/runner.py:509-577 | Every run and every patch keeps the log consistent with the table. |
| RuleRuns.LogReplaysToThePresent | apps/api/src/constat_api/repositories/insight_events.py:52-116 | From an empty table, after any runs of any rules and any patches, the events of each fingerprint alternate appeared, resolved, starting with appeared, and it is present now exactly when its last event is an appearance. |
| RuleRunEffects.SameGapExactlyWhen | apps/api/src/constat_api/repositories/insights.py:201-230 | Two insights are one gap exactly when they are about the same resource under the same rule, or about no resource and agree in account, service, period label and tag. |
| RuleRunEffects.SameFingerprintExactlyWhen | apps/api/src/constat_api/repositories/insight_events.py:26-34 | They are one line of the log exactly when rule, resource and title agree. |
| RuleRunEffects.LastRowDecides | apps/api/src/constat_api/repositories/insight_events.py:37-44 | The amount in an event is that of the last row with the fingerprint. |
| RuleRunEffects.LastAckIsCarried | apps/api/src/constat_api/repositories/insights.py:242-263 | The ack carried for a gap is that of the rule's last acked row about it. |
| RuleRunEffects.RunReplacesItsOwnRows | apps/api/src/constat_api/repositories/insights.py:76-109 | A run leaves the rows of the other rules as they were, acks and ids included, and its own rows are its findings, in order, with fresh ids. |
| RuleRunEffects.RunReplacesItsOwnUnknowns | apps/api/src/constat_api/insights/runner.py:519-551 | It leaves the inconclusives of the other rules, and its own are exactly the run's. |
| RuleRunEffects.AppearancesComeFirst | apps/api/src/constat_api/repositories/insight_events.py:78-112 | The events a run appends are stamped with it, and its appearances come before its resolutions. |
| RuleRunEffects.LogOnlyGrows | apps/api/src/constat_api/repositories/insight_events.py:52-116 | Nothing is ever taken out of the log or rewritten, and each run has its own number. |
| RuleRunEffects.PatchIsExact | apps/api/src/constat_api/repositories/insights.py:127-162 | A patch with one of the four statuses sets the ack of the rows with its id and nothing else; any other status changes nothing. |
| AckCarryOver.SnapshotIsFaithful | apps/api/src/constat_api/repositories/insights.py:254-263 | With one row per gap, the snapshot holds exactly the acks the table holds. |
| AckCarryOver.RunOnGap | apps/api/src/constat_api/insights/runner.py:509-573 | After a run, on a table that may hold account rows, a resource gap of the rule is there as often as the run emitted it, with the ack it had before, and resource gaps of other rules are as they were. |
| AckCarryOver.AckedExactlyWhenItsGapWas | apps/api/src/constat_api/repositories/insights.py:254-305 | A fresh row of any kind is acked after a run exactly when some row of its gap under the rule was acked before; account rows that share a stable id share the ack. |
| AckCarryOver.AccountRunIsOneEach | apps/api/src/constat_api/insights/runner.py:664-815 | A run that emits nothing about resources meets the assumption of the history results. |
| AckCarryOver.StepSimulates | apps/api/src/constat_api/insights/runner.py:509-573 | One run of any rule or one patch of any row on the wiped and rebuilt table is, for the resource gaps, the same run or patch on a table keyed by gap that was never wiped. |
| AckCarryOver.HistoriesSimulate | apps/api/src/constat_api/insights/runner.py:509-573 | So is any sequence of runs and patches, account rules and account rows included. |
| AckCarryOver.PatchHasOneTarget | apps/api/src/constat_api/repositories/insights.py:154-160 | A patch never reaches two gaps. |
| AckCarryOver.NoAckFromNowhere | apps/api/src/constat_api/repositories/insights.py:285-305 | A resource gap without an ack never gets one from runs, nor from patches of other rows. |
| AckCarryOver.AckLivesExactlyWhileEmitted | apps/api/src/constat_api/repositories/insights.py:201-305 | An ack of a resource gap that no later patch touches is still there after any history exactly when every run of its rule emitted the gap; once one run omits the gap it is gone for good. |
| InsightRunner.InsightStore.ApplyAcksToRule | apps/api/src/constat_api/repositories/insights.py:266-305 | Exactly the rule's rows without an ack whose gap is in the snapshot get that ack, and the number returned is how many there are. |
| InsightRunner.InsightStore.DiffAndRecordEvents | apps/api/src/constat_api/repositories/insight_events.py:52-116 | Appends exactly the difference between the two snapshots to the log, and returns how many of the new events are appearances and how many are resolutions. |
| InsightRunner.InsightStore.UpdateAck | apps/api/src/constat_api/repositories/insights.py:127-162 | Refuses an unknown status and then changes nothing; otherwise sets the ack of the row with that id and reports whether there is one. |
| InsightRunner.InsightStore.RunResourceRule | apps/api/src/constat_api/insights/runner.py:488-589 | Refuses an unknown rule before touching anything; otherwise the tables after snapshot, delete, evaluation of every resource, carry-over and diff are one step of the abstract run, and the counts reported are those of what was emitted. |
| InsightRunner.UnprovenIsInconclusive | apps/api/src/constat_api/insights/runner.py:182-211 | A resource without a fresh proof emits nothing but one inconclusive: stale when some scan ever succeeded, not proven when none did. |
| InsightRunner.FindingsHaveProof | apps/api/src/constat_api/insights/runner.py:259-294 | Every finding of the loop is the rule's own and about a resource with a fresh proof. |
| InsightRunner.NoFindingWithoutFreshProof | apps/api/src/constat_api/insights/runner.py:532-554 | After a run every insight of the rule is about a resource whose scope some successful run of the rule's source proved within the window. |
| InsightRunner.UnprovenResourceIsInconclusive | apps/api/src/constat_api/insights/runner.py:532-554 | After a run a resource without such a proof has no insight of the rule and exactly one inconclusive, with the right reason. |
| InsightRunner.RunIsAResourceRun | apps/api/src/constat_api/insights/runner.py:532-551 | What the loop emits meets the assumption of the ack and log results: findings of its own rule, all about resources, at most one each. |
| RunOutcomes.AnsweredResource | apps/api/src/constat_api/insights/runner.py:280-294 | A proven resource with facts whose rule answers: after the run the rule's insights about it are exactly the answer's findings, and it has one inconclusive, with the answer's reasons, exactly when there are any. |
| RunOutcomes.FactlessResource | apps/api/src/constat_api/insights/runner.py:259-278 | A proven resource without facts has no insight and one inconclusive that says so. |
| RunOutcomes.RaisingResource | apps/api/src/constat_api/insights/runner.py:532-554 | A proven resource whose rule raises has neither. |
| RunOutcomes.ErrorsAreRaises | apps/api/src/constat_api/insights/runner.py:532-554 | The errors counted are exactly the proven resources with facts on which the rule raises. |
| RunOutcomes.CarriedCountIsExact | apps/api/src/constat_api/repositories/insights.py:266-305 | The acks counted as carried over are exactly the rule's rows without one whose gap had one. |
| RunOutcomes.RulesRestOnScans | apps/api/src/constat_api/insights/runner.py:121-129 | Seven rules are known, three resting on the RDS scan and four on the EC2 scan. |
| Focus.Loaded | packages/connectors/focus/src/constat_focus/loader.py:239-273 | A loaded charge has parallel lists of tags and per-row costs, and the costs add up to the charge. |
| FocusAggregator.GroupByBucket | packages/connectors/focus/src/constat_focus/aggregator.py:150-157 | The buckets, in order of first appearance, each with exactly its charges in input order. |
| FocusAggregator.Flatten | packages/connectors/focus/src/constat_focus/aggregator.py:167-176 | Fails exactly when some charge's lists differ in length; otherwise both flattened lists have the same length. |
| FocusAggregator.UniqueDicts | packages/connectors/focus/src/constat_focus/aggregator.py:95-120 | The non-empty tag dicts, each once, in order of first appearance. |
| FocusAggregator.ModeIsCommonest | packages/connectors/focus/src/constat_focus/aggregator.py:86-92 | If some value is there and not empty, the mode is a non-empty value among those given and none occurs more often. |
| FocusAggregator.AggregateForStorage | packages/connectors/focus/src/constat_focus/aggregator.py:123-225 | Refused exactly when some charge's lists are unpaired or two charges of one bucket differ in currency, and the bucket named in a currency error mixes currencies; otherwise one aggregate per bucket, in order, with the cost sums, the modes of the names and label columns, and the flattened lists. |
| FocusAggregator.FitsByBucket | packages/connectors/focus/src/constat_focus/aggregator.py:191-205 | Checking bucket by bucket is the same as comparing all pairs of charges. |
| FocusAggregator.AggregateKeepsItsKey | packages/connectors/focus/src/constat_focus/aggregator.py:178-189 | The storage key of an aggregate, recomputed from the modes of its names, is the key its bucket was built on, whatever native and canonical names its rows mix. |
| FocusAggregator.AggregatesHaveDistinctKeys | packages/connectors/focus/src/constat_focus/aggregator.py:150-225 | Two aggregates of one file never share a storage key. |
| AggregateFields.GroupsAreExact | packages/connectors/focus/src/constat_focus/aggregator.py:150-157 | Each group is exactly the charges of its service, start and end, in order, and no two groups share them. |
| AggregateFields.EveryChargeIsGrouped | packages/connectors/focus/src/constat_focus/aggregator.py:150-157 | Every charge is in some group. |
| AggregateFields.AggregateIsExact | packages/connectors/focus/src/constat_focus/aggregator.py:178-225 | An aggregate has the period, currency, cost sums and number of its charges, and its native name is theirs, by majority. |
| AggregateFields.LabelsAreCommonest | packages/connectors/focus/src/constat_focus/aggregator.py:207-225 | Each label is the commonest non-empty value of its own column. |
| AggregateFields.AggregateColumns | packages/connectors/focus/src/constat_focus/aggregator.py:207-225 | An aggregate has the commonest labels of its charges, their non-empty dicts, and, for one-row charges, their tags and costs row by row. |
| AggregateFields.TieGoesToTheFirst | packages/connectors/focus/src/constat_focus/aggregator.py:86-92 | On a tie the value given first wins. |
| AggregateFields.FlatIsRowByRow | packages/connectors/focus/src/constat_focus/aggregator.py:167-176 | For a file of one-row charges the flattened lists are the rows' tags and costs, one by one. |
| AggregateFields.UniqueTagsAreExact | packages/connectors/focus/src/constat_focus/aggregator.py:95-120 | The unique tags are exactly the non-empty dicts, each once. |
| FocusStorage.FocusStore.WritePerRowTags | apps/api/src/constat_api/repositories/focus_charges.py:125-181 | Replaces the charge's tag rows by one row per input row and key, with that input row's cost, and touches no other charge's rows; an empty list changes nothing. |
| FocusStorage.FocusStore.Lookup | apps/api/src/constat_api/repositories/focus_charges.py:63-71 | Finds the row with the coalesced key; raises exactly when two rows have it. |
| FocusStorage.FocusStore.UpsertRow | apps/api/src/constat_api/repositories/focus_charges.py:63-119 | Overwrites the row with the key, all but its native name, or inserts one; says which; changes nothing when the lookup raises. |
| FocusStorage.FocusStore.UpsertAggregated | apps/api/src/constat_api/repositories/focus_charges.py:52-122 | Succeeds exactly when no lookup of the ingest raises; then every aggregate was upserted in turn and the two counts are right. |
| FocusStorageLaws.UpdateKeepsKeyExactlyWhen | apps/api/src/constat_api/repositories/focus_charges.py:73-83 | An update keeps the row's key exactly when the aggregate has a canonical name or the row's native name. |
| FocusStorageLaws.UpsertKeepsKeysExactlyWhen | apps/api/src/constat_api/repositories/focus_charges.py:63-119 | One upsert keeps all keys distinct exactly when it inserts, or the aggregate has a canonical name or the native name of the row it updates, or nothing is stored under that native name. |
| FocusStorageLaws.NativeNamedLikeCanonicalCollides | apps/api/src/constat_api/repositories/focus_charges.py:62-83 | The input that breaks it: a native service named like a canonical one leaves two rows with one key, and the next lookup raises. |
| FocusStorageLaws.IngestKeepsOneRowPerKey | apps/api/src/constat_api/repositories/focus_charges.py:58-122 | With no native name equal to a canonical one, any ingest keeps one row per (account, coalesced service, period) and none of its lookups raises. |
| FocusStorageLaws.SecondIngestIsIdle | apps/api/src/constat_api/repositories/focus_charges.py:58-122 | A second ingest of the same aggregates, with pairwise distinct keys, inserts nothing and leaves charges and tag rows as they are, when each aggregate inserts, has a canonical name or has the native name of the row it updates. |
| FocusStorageLaws.SecondIngestIsIdleExactlyWhen | apps/api/src/constat_api/repositories/focus_charges.py:58-122 | For an ingest whose lookups never raise, on a store with one row per key, the second one changes nothing exactly then. |
| FocusStorageLaws.UpsertTwiceIsOnceExactlyWhen | apps/api/src/constat_api/repositories/focus_charges.py:63-119 | Likewise for a single upsert: done twice it is done once exactly then; otherwise the row has left its key and the second time inserts another. |
| FocusStorageLaws.NamedKeepTheirKeys | apps/api/src/constat_api/repositories/focus_charges.py:62-83 | With no native name equal to a canonical one, that condition holds for every aggregate of every ingest. |
| FocusStorageLaws.AggregatorOutputIsDistinct | packages/connectors/focus/src/constat_focus/aggregator.py:150-225 | The aggregator's output always meets the distinctness this needs. |
| FocusStorageLaws.OtherKeysAreUntouched | apps/api/src/constat_api/repositories/focus_charges.py:58-122 | Rows with other keys, and their tag rows, are untouched by an ingest. |
| StoredFields.IngestWritesEveryColumn | apps/api/src/constat_api/repositories/focus_charges.py:58-122 | After an ingest of aggregates with distinct keys that keep their keys, each has a row under its key, and that row's cost, count, tags, currency, labels, canonical name, period and tag rows are the aggregate's, inserted or updated. |
| StoredFields.RowsKeepTheirIdentity | apps/api/src/constat_api/repositories/focus_charges.py:73-83 | A row that was there keeps its account, period and native name through any ingest. |
| StoredFields.InsertedAreNew | apps/api/src/constat_api/repositories/focus_charges.py:92-119 | The insertions counted are the rows that were not there before. |
| StoredFields.ReadBackSaysTheAggregate | apps/api/src/constat_api/insights/runner.py:735-748 | What is read back for an ingested aggregate has its account, canonical name, period, cost, currency and labels. |
| FocusReadback.LoadPerRowTags | apps/api/src/constat_api/insights/runner.py:382-400 | For all charges at once and whatever order the rows come in: one dict per input row up to the largest index, each with exactly the keys of that row. |
| FocusReadback.LoadPerRowCosts | apps/api/src/constat_api/insights/runner.py:431-448 | Likewise for the costs: one per input row, taken from one of its rows, zero for an index without rows. |
| FocusReadback.LoadersAgreeOnLength | apps/api/src/constat_api/insights/runner.py:385-448 | For any table contents the two reconstructions have the same length. |
| FocusReadback.ReadBackNeverFallsBack | apps/api/src/constat_api/insights/runner.py:330-353 | So the strict zip never fails on what was read back and the row-count fallback is never reached. |
| FocusReadback.RoundTrip | apps/api/src/constat_api/repositories/focus_charges.py:159-180 | Write then read gives the original tag dicts without the empty ones at the end, and their costs with zero for the empty ones in between, in any fetch order. |
| FocusReadback.FullyTaggedIsIdentity | apps/api/src/constat_api/repositories/focus_charges.py:159-180 | With every input row tagged that is the identity. |
| FocusReadback.StoredAttribution | packages/insights/chargeback/src/constat_chargeback/resolver.py:253-309 | What chargeback by any tag attributes to a stored bucket is the cost of its tagged rows, or all of it when none is tagged; and it is all of it exactly when none is tagged or the untagged rows cost nothing. |
| FocusReadback.MixedBucketLosesItsUntaggedRows | apps/api/src/constat_api/repositories/focus_charges.py:169-180 | The input that breaks conservation: a tagged row of 3 and an untagged row of 97 are stored as 100 and attributed as 3. |
| FocusReadback.StoreThenGroup | packages/insights/chargeback/src/constat_chargeback/resolver.py:156-189 | Storing a file under one account in an empty table and grouping by period gives one aggregate per (service key, period), in order, whose amounts are the direct sums over the raw charges. |
| StoredFields.ReingestShowsTheNewFile | apps/api/src/constat_api/repositories/focus_charges.py:58-122 | A changed file over a stored one: for each bucket of the new file the period report shows the new file's direct sums, and there is still one aggregate per row. |
| StoredFields.ReingestKeepsOtherBuckets | apps/api/src/constat_api/repositories/focus_charges.py:58-122 | The buckets the new file does not have are shown with the amounts they had. |
| FocusPipeline.FileToTagReport | packages/insights/chargeback/src/constat_chargeback/resolver.py:192-341 | From file to tag report, for any file, tag key and fetch order: grouping does not fail; a bucket's tag values together get the cost of its tagged input rows, or all of it when none is tagged; and that is what the period report shows exactly when none is tagged or the untagged rows cost nothing. |
| FocusPipeline.FileToTagValue | packages/insights/chargeback/src/constat_chargeback/resolver.py:192-341 | And value by value: in every bucket each tag value is shown with the cost of the tagged input rows that carry it, the untagged value with that of the tagged rows that do not carry the key, or with all of it when no row is tagged. |
| FocusPipeline.ReadAll | apps/api/src/constat_api/insights/runner.py:735-747 | Every stored row is read back with its loaded tags and costs. |
| FocusPipeline.AccountReport | apps/api/src/constat_api/insights/runner.py:723-751 | The report of an account's rows is the grouping by tag when a key is given and by period otherwise, and it does not fail whatever the tag table holds. |
| FocusPipeline.FreshTagRows | apps/api/src/constat_api/repositories/focus_charges.py:110-118 | After an ingest into an empty table each row has exactly the tag rows of its own aggregate. |
| Chargeback.AggregateByPeriod | packages/insights/chargeback/src/constat_chargeback/resolver.py:144-189 | The buckets' running sums are, key by key and in order of first appearance, what the charges book under their period key. |
| Chargeback.AggregateByTag | packages/insights/chargeback/src/constat_chargeback/resolver.py:192-341 | Fails exactly on an empty tag key or on a charge whose lists do not pair up; otherwise the running sums are what the three attribution branches book. |
| Chargeback.PostRowCounts | packages/insights/chargeback/src/constat_chargeback/resolver.py:344-398 | The row-count fallback, loop by loop: counts per value, their total, and one weighted amount per value under the native service. |
| Chargeback.OccurrencesAddUp | packages/insights/chargeback/src/constat_chargeback/resolver.py:388 | The counts of the distinct values add up to the number of rows that carry the tag. |
| ChargebackLaws.GroupingConserves | packages/insights/chargeback/src/constat_chargeback/resolver.py:167-189 | The aggregates of a bucket add up to what was booked in it, billed and amortized. |
| ChargebackLaws.PeriodAggregatesAreExact | packages/insights/chargeback/src/constat_chargeback/resolver.py:156-189 | Each period aggregate and its drift is the direct sum over its charges, its count is their number, and no other aggregate has its key. |
| ChargebackLaws.KeysAreBooked | packages/insights/chargeback/src/constat_chargeback/resolver.py:156-189 | A key is in a report exactly when something was booked under it. |
| ChargebackLaws.KeysComeInOrder | packages/insights/chargeback/src/constat_chargeback/resolver.py:156-189 | And the keys come in the order in which they were first booked. |
| ChargebackLaws.CountsAmount | packages/insights/chargeback/src/constat_chargeback/resolver.py:388-397 | The weights of the fallback add up, value by value, to the share of rows covered, and to one over all values. |
| ChargebackLaws.SplitAddsUpExactlyWhen | packages/insights/chargeback/src/constat_chargeback/resolver.py:253-309 | A charge's split over tag values adds up to its cost in its own bucket exactly when its per-row costs do, or, without per-row costs, when it has no tags, or its service key is its native name, or it costs nothing. |
| ChargebackLaws.FallbackMissesCanonicalBucket | packages/insights/chargeback/src/constat_chargeback/resolver.py:363-398 | The input that breaks it: a charge with a canonical service, tags and no per-row costs leaves its own bucket empty in the tag view. |
| ChargebackLaws.TagRefinesPeriod | packages/insights/chargeback/src/constat_chargeback/resolver.py:241-309 | For any tag key and any (account, service key, period, currency): summing the tag aggregates over all tag values gives the period aggregate, when each charge meets that condition. |
| TagShares.TagReportIsExact | packages/insights/chargeback/src/constat_chargeback/resolver.py:192-341 | For every bucket and tag value the report shows the sum and number of what the input rows contribute to that value: with per-row costs the rows whose dict has the key with this value, the others counting as untagged; without, the charge's cost by the share of its rows that carry the value among those that carry the key, under its native name; untagged when there is nothing to go by. |
| TagShares.ChargeShare | packages/insights/chargeback/src/constat_chargeback/resolver.py:253-309 | The same for each single charge. |
| TagShares.FallbackShare | packages/insights/chargeback/src/constat_chargeback/resolver.py:344-398 | The fallback's weight of a value is its number of rows over the number of rows that carry the key. |
| TagShares.TagAggregatesAreTagged | packages/insights/chargeback/src/constat_chargeback/resolver.py:241-251 | Every aggregate of a tag report carries a tag value, and no two have the same key. |
| FocusCoverage.MonthLabels | apps/api/src/constat_api/repositories/focus_coverage.py:51-61 | The loop ends and lists every month from the first to the last, one after the other, as many as the range has. |
| FocusCoverage.AbsentCount | apps/api/src/constat_api/repositories/focus_coverage.py:96 | Missing labels and covered ones in the range are together as many as the labels. |
| FocusCoverage.AccountCoverage | apps/api/src/constat_api/repositories/focus_coverage.py:91-106 | Covered and missing months partition the range from the first to the last start month: none is both, every month of it is one of them, and their number is twelve per year of difference plus the difference in months plus one. The gaps come in order. |
| IdempotencyCache.Cache.Get | apps/api/src/constat_api/idempotency.py:63-74 | A hit is the body last put under the key and is no older than the TTL; a stored fresh entry is always a hit; an expired one is dropped and nothing else changes. |
| IdempotencyCache.Cache.Put | apps/api/src/constat_api/idempotency.py:76-90 | Drops what expired, evicts the oldest until there is room and stores; the cap holds afterwards; with a cap below one the eviction empties the cache and the call fails. |
| IdempotencyCache.Cache.Clear | apps/api/src/constat_api/idempotency.py:92-95 | Empties the cache. |
| IdempotencyCache.PutThenGet | apps/api/src/constat_api/idempotency.py:63-90 | A put makes a get of the key a hit with that body for as long as the TTL. |
| IdempotencyCache.EvictedFits | apps/api/src/constat_api/idempotency.py:87-89 | The eviction loop leaves room for one entry when the cap is at least one, and nothing otherwise, and what it leaves is still the latest put of its key. |
| IdempotencyCache.LiveIsSubsequence | apps/api/src/constat_api/idempotency.py:81-83 | What the expiry keeps was there before, is within the TTL, and is still the latest put of its key. |
| IdempotencyCache.ScopesDoNotCollide | apps/api/src/constat_api/idempotency.py:107-114 | For scopes without a colon, two cache keys are equal exactly when scope and key both are. |
| IdempotencyCache.LiveIsExact | apps/api/src/constat_api/idempotency.py:81-83 | The expiry keeps exactly the entries within the TTL. |
| IdempotencyCache.EvictionDropsTheOldest | apps/api/src/constat_api/idempotency.py:87-89 | The eviction drops the first entries, and no more than it takes to leave room for one. |
| IdempotencyCache.PutKeepsTheFresh | apps/api/src/constat_api/idempotency.py:76-90 | With room for one more, after a put the cache holds the new entry and every other key's entry within the TTL, and nothing else. |
| IdempotencyCache.StoringKeepsThePlace | apps/api/src/constat_api/idempotency.py:90 | A key that is there keeps its place in the order of eviction, a new one goes last, and every other entry stays. |
| IdempotencyCache.ScopesCollideExactlyWhen | apps/api/src/constat_api/idempotency.py:107-114 | Two scopes share a cache key exactly when they are equal or one followed by a colon starts the other. |
| IdempotencyCache.ColonInScopeCollides | apps/api/src/constat_api/idempotency.py:107-114 | A concrete pair of scopes and keys that share an entry. |

## Left out

Contracts that say less than the member they model does:

- CollectQueue.InProcessQueue.ReceiveNow: one pass of the waiting loop. The deadline and the
  wakeups are not modelled; empty passes are shown to be invisible.
- CollectWorker.SettleOne: without the evaluation chain after the ack and the raising job lookup.
  The interleaved protocol has both, and its moves are shown to compose to this step.
- CollectWorker.DrainOnce: likewise, with job table, limiter and scan results fixed for the pass,
  as for a single worker.
- CollectProtocol.EvaluationIsSafe: safety only. A complete job need not be evaluated, since
  evaluation is tried only after a successful ack; that it can be is shown separately.
- CollectProtocol.ApplyKeeps: a scan's own steps are beginning runs and ending with any result;
  any run may be ended by anyone at any time, which includes forced starts and cleanups.
- ScanTables.Tables.StartRun: the conflict path's rollback of the whole session is not modelled,
  so nothing is claimed about earlier work of that session.
- ScanTables.Tables.RunRegionJob: observations, facts, error texts and the correlation pass are
  not modelled. An exception between sighting an item and counting it makes the program's count
  one lower than the model's.
- InsightRunner.InsightStore.RunResourceRule: the payload context added by the reconciliation with
  FOCUS, metrics, and a failing insert in the middle of one resource's rows are not modelled.
- AckCarryOver.AckLivesExactlyWhileEmitted: the life of an ack is stated for resource gaps. For
  account gaps only one run is (`AckCarryOver.AckedExactlyWhenItsGapWas`): their stable id has no
  period but the label and joins its parts with colons, so several rows can share it.
- FocusStorage.FocusStore.UpsertRow: tenants and the ids of tag rows are not modelled, nor is
  rounding to the columns' six decimals.
- FocusStorage.FocusStore.UpsertAggregated: likewise.
- Chargeback.AggregateByPeriod: display fields (tag lists, account names, native-name mode,
  canonical stamp) are not modelled.
- Chargeback.AggregateByTag: likewise, and neither is the skipping of charges without a period,
  which stored rows always have.
- FocusCoverage.AccountCoverage: one account; grouping by account, the text of a label and the
  staleness flag are not modelled.
- IdempotencyCache.Cache.Put: bodies are opaque strings; the JSON wrappers are not modelled.

Not in the model at all:

- The SQS queue, the AWS API, role assumption, pagination, CSV and Parquet reading: input and
  output.
- HTTP routers other than the construction and sending of a collect job, authentication, audit,
  metrics, PII labels, settings, the web application and the infrastructure.
- The role, external id, name, resource types and force and dry-run flags of a work item, which
  travel with it unread by the queue.
- The rule evaluators and the price, exchange-rate and service catalogs: case splits over
  constants.
- The rest of `run_chargeback` (its rows, acks and events go through the same calls as a resource
  rule's), `aggregate` over all periods and `build_insights`.
- SQL sessions, row-level security and isolation, clock skew, retention deletes, and insights
  inserted by hand.
