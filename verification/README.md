# File ingestion: a verified model

Several instances watch folders, claim the files they find in a shared `processed_files` table,
transform their rows and load them into monthly tables. This project models the parts of that
system that hold state (the claim protocol, the load path, the worker pool, the cache, the
watchers, the configuration and the reconciler of running tasks) and proves what they keep
over every input, every run and every interleaving.

`dafny verify dfyconfig.toml` verifies all of it.

## How it is built

Every object that the program updates in place is a class with the same fields, and each of its
methods is proved against a step function on plain values (`Step`, `Upsert`, `InsertAll`, ...).
Whole runs are sequences of events folded with that step function, and the main results are
lemmas over all such sequences. Clocks, file system answers, driver errors and the outcome of
the sandboxed transformer are parameters. Each statement that the program commits on its own is
one atomic step.

| file | content |
|---|---|
| `ProcessedFiles`, `ClaimProtocol`, `FileProcessor` | the shared row, its statements, the protocol over it, a worker's path through it |
| `Records`, `Loader`, `ExactlyOnce` | rows, INSERT IGNORE in chunks with and without unique keys, repeated and interleaved loads |
| `TableRouter`, `Extractor`, `Pipeline`, `TableCreation` | grouping by month, batching, the batch loop, creation of monthly tables by concurrent threads |
| `Delivery` | the claim protocol and the loads of a file, among loads of other files, in one run |
| `CircuitBreakers`, `SlidingWindow`, `WorkerPool` | admission, probing, rate limits, restarts, backlog counters |
| `Cache` | the TTL and LRU cache |
| `PollingScanner`, `EventHandler` | incremental scans, stability detection |
| `Redelivery` | how often scans and events let a file be started |
| `TaskUpdate`, `RuntimeTask` | merging form updates into a stored task, and what that does to the task once loaded |
| `ConfigStore`, `TaskManager` | saving and reloading, reconciling the running tasks |

## What the model found

These are behaviours of the code as written, each proved with its exact condition or a concrete run.

- **A retried FAILED row is stranded.** MySQL evaluates the SET list left to right, so after
  `status` has become CLAIMED the remaining three conditions no longer hold
  (`src/infrastructure/processed_file_repo.py:41-61`). The claim keeps the old owner and a NULL
  lease. From then on only the old owner can start the row (`OnlyOwnerStartsLeaseless`), and no
  claim ever finds an expired lease again (`NoLeaseForGood`), whatever workers that are still active
  write (also `TakeoverUnderEitherOrder`, `RetryStartsOnlyOnOldOwner`, `RetryLeavesNoLease`).
- **The manual retry endpoint answers "queued", but no run ever starts the file again**, not even
  when a late failure makes the row claimable (`RequeuedFileIsNeverStarted`).
- **SUCCESS is final iff no worker is still active on the row** (`FinalIff`), since the final marks
  check neither owner nor status; `LateFailureUndoesSuccess` is a run that undoes it.
- **Loading is idempotent only for rows with a unique key.** The loader relies on a unique index of
  the table template (`src/etl/loader.py:4-7`), and the two templates in the repository
  (`sql_templates/cfd_data.sql`, `sql_templates/smoke_test.sql`) have none besides the counter `id`.
  Every row without a key is stored once more by every load that runs again (`CommitAgainIff`,
  `RunAgain`, `KeylessRowIsStoredTwice`), and a file processed by any number of attempts, with
  other files loaded in between, counts once iff no such row is committed again (`ExactlyOnceEffect`).
- **An undated row is stored once per month in which its file is processed**, because of the
  fallback to the current month (`UndatedRowIsStoredTwice`, `FilePlanIgnoresMonthIff`).
- **A JSON file that breaks off is SKIPPED after its full batches have been loaded**; the tables are
  unchanged iff all those rows were stored before (`ProcessFile`).
- **`error_count` and the error rows disagree** exactly when the transformer returns rows beyond the
  batch (`ErrorCountIsErrorRowsIff`).
- **Renaming a task can change how it runs.** The form builder writes its own defaults into the file,
  and for five fields the loader has different ones (`RenamingIsHarmlessIff`), although the merge is
  documented to preserve what was not submitted (`src/web/api/config_api.py:390`). Three of them
  are acted upon: a task without a poll interval starts to be polled (`RenamingStartsPolling`), one
  without a retention starts to have its monthly tables aged, and one with an archive directory and
  no mode stops moving its files there (`ArchivingIsKeptIff`, `BehaviourIsKeptIff`).
- **The scanner loses a file that the pool refuses**: it ignores the answer and moves its watermark
  on all the same (`LostIff`).
- **A file moved in with an old mtime is never submitted by the scanner** once a scan has overtaken
  it (`OvertakenFileIsLost`); only the watcher can still pick it up.
- **A fast worker leaves a backlog of one for an empty pool**, and from then on the counter is at
  least one too high whenever no submitter of the task is between its put and its count
  (`FastWorkerLeavesPhantom`, `PhantomIsForGood`).
- **A file to be retried waits for its next submission, and few come.** Nothing but a scan or a
  watcher event puts it back into the queue, and an unchanged file passes at most two completed
  scans of a scanner, whatever max_retries allows (`StartsAreLimitedByScans`).
- **A start that fails during a reload leaves the tasks behind it in their old definition**, exactly
  those (`StaleAfterReloadIff`), and later reloads do not touch them (`FailedStartLeavesStaleTask`,
  `StaleTaskStaysStale`).

## Model

| member | source | states |
|---|---|---|
| ProcessedFiles.ProcessedFileRepository.TryClaim | src/infrastructure/processed_file_repo.py:25-67 | One upsert, evaluated left to right, on this row and no other. A free or expired row is CLAIMED by this instance from now until now plus the claim timeout, a failed one within its budget only becomes CLAIMED, any other stays; true whenever the row changed, and also when it did not if the connection counts found rows |
| ProcessedFiles.LeaseLastsForTimeout | src/infrastructure/processed_file_repo.py:29-61 | A claim made at some time holds, started or not, against every claim by any instance up to that time plus the claim timeout, and falls to any later one |
| ProcessedFiles.ProcessedFileRepository.MarkProcessing | src/infrastructure/processed_file_repo.py:69-80 | The real guard: it starts the row iff this instance owns it and it is CLAIMED, and otherwise changes nothing |
| ProcessedFiles.ProcessedFileRepository.MarkSuccess | src/infrastructure/processed_file_repo.py:82-98 | Whatever the row's owner and status are, an existing row becomes SUCCESS |
| ProcessedFiles.ProcessedFileRepository.MarkFailed | src/infrastructure/processed_file_repo.py:100-123 | An existing row becomes FAILED with one more retry and no lease; the answer is its new retry count, or 1 if there is no row |
| ProcessedFiles.ProcessedFileRepository.MarkSkipped | src/infrastructure/processed_file_repo.py:125-135 | Whatever the row's owner and status are, an existing row becomes SKIPPED |
| ProcessedFiles.RetryFile | src/web/api/files.py:141-162 | Only a FAILED row is changed, to PENDING with no retries, no owner and no lease, and the three answers tell missing, not FAILED and requeued rows apart |
| ClaimProtocol.ActiveWorkersBounded | src/infrastructure/processed_file_repo.py:33-80 | In every run, with spurious claims, crashes and late writers: active workers never outnumber the takeovers of a live worker's row by more than one |
| ClaimProtocol.LeaseExclusion | src/infrastructure/processed_file_repo.py:33-80 | In every run in which no live worker's lease is claimed away: at most one active worker, and the row is PROCESSING under its instance |
| ClaimProtocol.RowFrozenWhileActive | src/core/file_processor.py:39-54 | In such a run nobody else changes the row between a worker's start and its final mark |
| ClaimProtocol.DoneIsFinal | src/infrastructure/processed_file_repo.py:41-61 | In such a run a SUCCESS or SKIPPED row is never changed again |
| ClaimProtocol.FinalIff | src/infrastructure/processed_file_repo.py:82-135 | For every world with a SUCCESS or SKIPPED row: no continuation changes the row iff no worker is active |
| ClaimProtocol.LateFailureUndoesSuccess | src/infrastructure/processed_file_repo.py:103-111 | For any two instances, a run from the empty table in which a late failure turns SUCCESS into FAILED |
| ClaimProtocol.CrashIsRecovered | src/infrastructure/processed_file_repo.py:41-80 | Once the lease of a crashed worker has expired, any instance takes its row over and starts the file, under either evaluation order, and nobody is overrun |
| ClaimProtocol.RetryBudget | src/infrastructure/processed_file_repo.py:41-61 | Under a fixed max_retries, pipeline starts are at most max(1, max_retries) plus the expired PROCESSING leases, however late stale workers write: in every run of the deployed statements, manual retries included, and under either evaluation order without them |
| ClaimProtocol.RetryBudgetIsTight | src/infrastructure/processed_file_repo.py:103-123 | For every n up to max_retries there is a run with n starts, no expired lease and every lease respected |
| ClaimProtocol.DeadLetterOnce | src/core/file_processor.py:80-92 | With retryable failures and respected leases the file is dead-lettered at most once, and it has been iff the row is FAILED and no claim at any time can take it |
| ClaimProtocol.FailedRowsHaveNoLease | src/infrastructure/processed_file_repo.py:104-108 | In every reachable world a FAILED row has a NULL lease |
| ClaimProtocol.TakeoverUnderEitherOrder | src/infrastructure/processed_file_repo.py:41-61 | On every reachable row left-to-right and simultaneous evaluation agree iff the row is not FAILED within its budget; there the first changes the status alone |
| ClaimProtocol.RetryStartsOnlyOnOldOwner | src/infrastructure/processed_file_repo.py:41-80 | After a claim of a failed file the claimer can start it iff it already was the owner; with simultaneous evaluation it always could |
| ClaimProtocol.ClaimThenStartIff | src/infrastructure/processed_file_repo.py:25-80 | On every reachable row, claim and mark lead to a start iff there is no row, its lease has expired, the claimer already holds it unstarted, or it failed within its budget under the claimer itself |
| ClaimProtocol.RetryLeavesNoLease | src/infrastructure/processed_file_repo.py:57-61 | From every reachable FAILED row within its budget, workers still active or not, a retry claim leaves a row in flight without a lease; with simultaneous evaluation it would not |
| ClaimProtocol.NoLeaseForGood | src/infrastructure/processed_file_repo.py:41-61 | In every run of the deployed statements a NULL lease stays NULL, and no claim takes the row over as expired |
| ClaimProtocol.OnlyOwnerStartsLeaseless | src/infrastructure/processed_file_repo.py:41-80 | From any row without a lease, whatever active workers and the operator do: as long as its recorded owner does not try, nobody starts it, and nobody else becomes the owner |
| ClaimProtocol.StrandedUntilOwnerReturns | src/infrastructure/processed_file_repo.py:42-61 | With nobody active such a row in flight is never changed by anyone but its recorded owner's start, and never at all if it is PROCESSING |
| ClaimProtocol.RequeuedFileIsNeverStarted | src/web/api/files.py:147-162 | From a row without owner and lease no run of the deployed statements ever starts the file, whatever active workers write; with none active a PENDING row never changes |
| FileProcessor.Processor.Call | src/core/file_processor.py:31-107 | A whole call performs exactly the protocol events it lists and changes no other row. If it got to start: the status is SUCCESS, SKIPPED or FAILED by the outcome, only a failure counts as a retry, only success, failure and escaped exceptions reach the breaker, and the file is given up iff it failed or has no retry left |
| FileProcessor.Processor.Conclude | src/core/file_processor.py:50-104 | The same for the end of a call, on the fields of row and breaker |
| CircuitBreakers.CircuitBreaker.TryAllow | src/infrastructure/worker_pool.py:62-81 | The decision and the new state agree with the step function of the breaker |
| CircuitBreakers.CircuitBreaker.RecordSuccess | src/infrastructure/worker_pool.py:83-87 | The failures are forgotten, the breaker closes, a probe is over, and the timestamps stay |
| CircuitBreakers.CircuitBreaker.RecordFailure | src/infrastructure/worker_pool.py:89-98 | One more failure; it opens iff it was half open or reached the threshold |
| CircuitBreakers.BreakerRefinesHistory | src/infrastructure/worker_pool.py:62-98 | After any calls: CLOSED iff the failures since the last success are below the threshold, HALF_OPEN only with a probe in progress, and every decision can be read off the history alone |
| CircuitBreakers.HalfOpenTestIsRedundant | src/infrastructure/worker_pool.py:93-94 | The HALF_OPEN disjunct of record_failure never decides |
| CircuitBreakers.NeverWedged | src/infrastructure/worker_pool.py:73-81 | From any state, with whatever probes left unresolved: refused calls change nothing, and any call later than both timestamps plus the timeout is granted |
| CircuitBreakers.ReachableIsTripped | src/infrastructure/worker_pool.py:62-98 | Every run that reaches the threshold leads to a breaker to which the two results on probes apply |
| CircuitBreakers.ProbesAreSpaced | src/infrastructure/worker_pool.py:66-81 | Without a success, grants i and j of a tripped breaker are more than (j - i) timeouts apart, late failures and reopened probes included |
| CircuitBreakers.ProbesPerWindow | src/infrastructure/worker_pool.py:66-81 | So a window of a given length holds at most floor(length / timeout) + 1 of them |
| WorkerPool.Workers.Submit | src/infrastructure/worker_pool.py:148-166 | The answer for every combination of standby, paused, tripped and full; only QUEUED changes queue and counter, and a full queue still spends the breaker's grant |
| WorkerPool.Workers.PutNowait | src/infrastructure/worker_pool.py:160 | Puts one file iff the queue is unbounded or below its maxsize |
| WorkerPool.Workers.CountUp | src/infrastructure/worker_pool.py:161-163 | The counter of this kind of file, and of no other, goes up by one |
| WorkerPool.Workers.TakeOne | src/infrastructure/worker_pool.py:236 | A queued file of the task is in flight instead |
| WorkerPool.Workers.WorkOne | src/infrastructure/worker_pool.py:233-252 | One round of the worker loop: whatever processing comes to, the file is taken and uncounted; only an exception that is not a skip reaches the breaker |
| WorkerPool.Workers.CountDown | src/infrastructure/worker_pool.py:247-252 | The counter goes down by one, or the decrement is lost at zero |
| WorkerPool.BacklogAccounting | src/infrastructure/worker_pool.py:159-252 | Under every interleaving, for every task: counter plus uncounted puts equals queued plus in flight plus lost decrements |
| WorkerPool.QuiescentBacklog | src/infrastructure/worker_pool.py:159-252 | With no submitter between its two steps a counter never under-reports, and is exact iff no worker of the run was done with a file of that task while the counter stood at zero |
| WorkerPool.LossNeedsOverlap | src/infrastructure/worker_pool.py:249-252 | A decrement can be lost only while a submitter of the same task is between its two steps |
| WorkerPool.FastWorkerLeavesPhantom | src/infrastructure/worker_pool.py:160-164 | The interleaving put, take, done, count leaves a backlog of one for an empty pool |
| WorkerPool.PhantomStays | src/infrastructure/worker_pool.py:249-252 | From any accounted state, in every continuation: at quiescence the counter exceeds queued and running files by at least the decrements lost before, exactly so iff none is lost afterwards |
| WorkerPool.PhantomIsForGood | src/infrastructure/worker_pool.py:160-164 | After that interleaving every continuation leaves the counter at least one too high at quiescence |
| WorkerPool.QueueIsBounded | src/infrastructure/worker_pool.py:122-123 | A bounded queue never exceeds its maxsize |
| SlidingWindow.LoginLimiter.CheckLoginRate | src/web/api/system.py:20-31 | Allowed iff fewer than five recent attempts remain in the address's log, which then gets this one; no other address is affected |
| SlidingWindow.Supervisor.Pass | src/infrastructure/worker_pool.py:254-282 | One pass over all workers: exactly the dead, enabled workers with fewer than three recent restarts are restarted, which is noted with its time, the other dead ones are disabled, the rest untouched |
| SlidingWindow.PrunedLogIsExact | src/web/api/system.py:25-31 | The pruned log gives the same decision as the ideal limiter on the whole history of admissions |
| SlidingWindow.CountDecides | src/web/api/system.py:25-27 | Counting recent entries of a sorted history is the same as looking at the entry max places back |
| SlidingWindow.AdmissionsAreSpaced | src/web/api/system.py:25-31 | The admission max places after another comes at least a window later |
| SlidingWindow.DisabledIffCrashLoop | src/infrastructure/worker_pool.py:261-281 | A worker is disabled iff some four deaths in a row lay within less than 300 seconds, whatever its pruned log has forgotten |
| Loader.BatchLoader.PrepareRows | src/etl/loader.py:64-80 | The columns in first-seen order, and one tuple per row that holds the row's value or None for each of them |
| Loader.BatchLoader.ExecuteBatch | src/etl/loader.py:82-99 | All chunks or none: on success every entry that was there keeps its value, the first row of each new key stands under it as it is, nothing else gets a key, every row without one is added, and the count is the net growth; a failing chunk leaves the tables as they were |
| Loader.InsertAllIs | src/etl/loader.py:94-97 | Inserting the rows one by one does exactly that |
| Loader.BatchLoader.LoadBatch | src/etl/loader.py:35-59 | The same for dict rows, of which exactly their tuples over the union of columns are stored; an empty batch never fails |
| Loader.ColumnsAreUnion | src/etl/loader.py:73-78 | The columns are exactly the keys of all rows, each once |
| Loader.CellsAreRecoverable | src/etl/loader.py:67-80 | Nothing is truncated: every cell can be read back from the stored row, and what a row does not have is stored as NULL |
| Loader.InsertInTwo | src/etl/loader.py:94-97 | Chunking does not matter: inserting two parts one after the other is inserting them at once |
| ExactlyOnce.CommitAgain | src/etl/loader.py:47-51 | A load that a run has already committed adds its keyless rows once more and changes nothing else |
| ExactlyOnce.CommitAgainIff | src/etl/loader.py:36-39 | Loading again changes nothing iff every row of the load has its unique key |
| ExactlyOnce.RunChangesNothingIff | src/etl/loader.py:47-51 | A whole run changes nothing iff every row it loads has a key that is already taken |
| ExactlyOnce.RunAgain | src/etl/loader.py:4-7 | Processing a file again adds exactly its keyless rows once more |
| ExactlyOnce.KeylessRowIsStoredTwice | sql_templates/smoke_test.sql:1-11 | A row without a unique key is there at least twice after two runs |
| ExactlyOnce.EntriesComeFromRows | src/etl/loader.py:47-51 | After any run every entry was there before or is a row as some load brought it |
| ExactlyOnce.FirstComeIsStored | src/etl/loader.py:47-51 | The first row to come with a key stands under it as it is after the whole run |
| ExactlyOnce.CellsAreInTables | src/etl/loader.py:79-97 | So every cell of it can be read back from the tables |
| ExactlyOnce.AttemptsAreSerial | src/etl/loader.py:47-51 | Under every interleaving of any number of attempts with each other and with loads of other files, for any rows: the tables are at each moment those of a serial run in which each load of the file comes once and in order among the foreign ones, plus the keyless rows of every load committed again |
| ExactlyOnce.ExactlyOnceEffect | src/core/pipeline.py:110-114 | Once one attempt is complete the tables are those of a serial run with the whole file in it once iff no keyless row of it was committed again, hence whenever its rows are keyed; with no other file in between that is the clean run of the file |
| ExactlyOnce.MergeHasOwn | src/core/pipeline.py:110-114 | A serial run made up of a file's loads and foreign ones contains every load of the file |
| ExactlyOnce.RunHasRow | src/etl/loader.py:47-51 | Every row of every load of a serial run is in the tables, or under its key a row that was there before or that a load of the run brought |
| TableRouter.GroupByTable | src/etl/table_router.py:42-52 | The groups, with their keys in first-met order, for any clock read once per row |
| TableRouter.BatchLoadsConserveRows | src/etl/table_router.py:48-52 | Grouping neither loses nor duplicates a row and makes no empty group |
| TableRouter.GroupKeepsOrder | src/etl/table_router.py:48-52 | The rows of a group are the rows of the batch for that table in their original order |
| TableRouter.RowGoesToItsMonth | src/etl/table_router.py:91-109 | A row with a parseable cell in the partition field is in the group of that month's table, any other one in that of the current month's |
| TableRouter.DatedRowsIgnoreClock | src/etl/table_router.py:91-109 | Rows that name their own month are routed alike under any two clocks |
| TableRouter.UndatedRowsMove | src/etl/table_router.py:93-109 | In another month the current month's table receives at most as many of the rows, and strictly fewer iff some row is undated |
| TableRouter.PlanIgnoresMonthIff | src/etl/table_router.py:91-109 | The loads of a batch are the same in two different months iff every row names its own month |
| Extractor.BatchedIsExact | src/etl/extractor.py:104-112 | Batching loses, repeats and reorders nothing; every batch is full and the rest is smaller than one |
| Extractor.StreamIsExact | src/etl/extractor.py:105-140 | A parser that reaches the end yields all rows; one that gives up yields full batches only and loses fewer rows than one batch |
| Extractor.StreamRows | src/etl/extractor.py:100-140 | The loop of CSV and JSON yields exactly the stream those results are about |
| Extractor.StreamExcel | src/etl/extractor.py:164-178 | The loop over a sheet yields the stream of the rows below the header row, zipped with its names |
| Extractor.HeadersAreDistinct | src/etl/extractor.py:168-171 | A named column keeps its name, and no two unnamed ones get the same |
| Extractor.ZipDictIsWellFormed | src/etl/extractor.py:168-173 | A zipped row is a dict whose keys are among the header names |
| Extractor.ZipDictCell | src/etl/extractor.py:173 | No cell of a zipped row is lost unless a later one has the same name |
| Extractor.ZipDictCells | src/etl/extractor.py:173 | Every column of a zipped row has the last cell of the row under its name |
| Extractor.Extract | src/etl/extractor.py:38-60 | For all formats exact batches of what could be read; missing, empty, unsupported and unopenable files and broken JSON end in a skip, other parser errors do not, and a file that breaks off yields full batches only |
| Pipeline.ETLPipeline.Split | src/core/pipeline.py:90-97 | The zip loop: the kept rows are the outputs that are rows, the dropped ones the inputs whose output is None or missing |
| Pipeline.ValidIsKept | src/core/pipeline.py:90-93 | The rows that go on are outputs as they are and in their order |
| Pipeline.NoRowIsMissed | src/core/pipeline.py:90-93 | Exactly the outputs that are not None are among them |
| Pipeline.ErrorsAreDropped | src/core/pipeline.py:94-97 | The error rows are rows of the batch as they are and in their order |
| Pipeline.NoErrorIsMissed | src/core/pipeline.py:94-97 | Exactly the rows whose output is None or missing are among them |
| Pipeline.ETLPipeline.LoadGroups | src/core/pipeline.py:110-114 | The groups are committed in order up to the first fault, which is what is raised |
| Pipeline.ETLPipeline.LoadGroup | src/core/pipeline.py:112-161 | One group: what creating the table raises is raised; a transient error at a chunk the load has is raised as retryable, any other as fatal; and an exception leaves the tables as they were |
| Pipeline.ETLPipeline.ProcessBatch | src/core/pipeline.py:68-114 | One round: exact counters (a raising transformer counts raw rows only), exact exception, and a prefix of the batch's plan in the tables |
| Pipeline.ETLPipeline.RunBatches | src/core/pipeline.py:68-114 | The loop ends with the first fault of the whole run; counters and tables are exact on every exit |
| Pipeline.ETLPipeline.Execute | src/core/pipeline.py:62-136 | On every exit the tables hold exactly the prefix of the plan that the counters say and the unrounded score lies in [40, 100]; the status is SUCCESS iff nothing was raised, and else SKIPPED, RETRY or FAILED iff the exception that ended the run says so |
| Pipeline.CountersAreExact | src/core/pipeline.py:69-100 | On every exit raw_count is valid_count plus error_count plus the batch on which the transformer raised, and error rows never exceed raw_count; without an exception all counters are those of the whole file |
| Pipeline.ETLPipeline.ProcessFile | src/core/pipeline.py:62-161 | From file to tables: SUCCESS iff nothing was raised, and then no row was lost on the way; broken JSON ends SKIPPED with its full batches loaded; a file whose only fault is a transient error of one load ends RETRY, a permanent one FAILED, with the loads before it committed; on every exit the tables are unchanged iff every committed row had a key that was taken |
| Pipeline.OnlyFaultEndsRun | src/core/pipeline.py:110-114 | A single driver error in any load ends the run there, as what it stands for |
| Pipeline.ScoreRange | src/monitoring/quality_reporter.py:75-80 | The unrounded score is 40 iff every row is an error, 100 iff none is, and max(0, ...) never decides |
| Pipeline.PlanConservesRows | src/core/pipeline.py:88-114 | Over all tables the insert receives exactly the rows the transformer let through, as multisets |
| Pipeline.ErrorCountIsErrorRowsIff | src/core/pipeline.py:88-100 | error_count is the number of error rows iff no output beyond the batch is a row, and otherwise lower by their number |
| Pipeline.DatedFileHasOnePlan | src/etl/table_router.py:91-109 | A file whose rows all name their month leads to the same loads whenever it is processed |
| Pipeline.ReprocessingIsHarmless | src/core/pipeline.py:110-114 | Any interleaved, repeated and interrupted attempts on a dated file, each under its own clock and among loads of other files: once one completes, the tables are those of a serial run with the file in it once iff no keyless row of it was committed again |
| Pipeline.FilePlanIgnoresMonthIff | src/etl/table_router.py:91-109 | A whole file leads to the same loads in two different months iff every loaded row names its own month |
| Pipeline.UndatedRowIsStoredTwice | src/etl/table_router.py:91-109 | A row of any batch of a file without its own month ends up in two monthly tables when the file is processed in two months |
| Delivery.RowFollowsProtocol | src/core/file_processor.py:39-60 | The row of protocol and loads together goes through a run of the claim protocol, so its results apply |
| Delivery.RunKeepsInv | src/core/file_processor.py:39-60 | Every event keeps it that the tables are those of a serial run with the file's loads as far as its furthest attempt |
| Delivery.SuccessMeansLoaded | src/core/file_processor.py:47-59 | In every run of claims, starts, loads, marks and crashes, whatever other files load meanwhile: a SUCCESS row means that every row of the file is in the tables, and that they are those of a serial run with the whole file in it once if its rows are keyed |
| Delivery.SuccessfulFileIsLoadedOnce | src/core/file_processor.py:47-59 | For a dated and keyed file, with attempts at any times: a SUCCESS row means the tables of a serial run with the file in it once, and of its clean run if no other file was loaded |
| Delivery.DeliveryHappens | src/core/file_processor.py:39-60 | For any loads there is a run that ends in SUCCESS |
| TableCreation.MutualExclusion | src/etl/table_router.py:61-63 | No two threads are inside the critical section of the same table |
| TableCreation.StepKeepsLockInv | src/etl/table_router.py:84-89 | Every step keeps it that a table has one lock object and whoever is inside holds it |
| TableCreation.StepKeepsBuildInv | src/etl/table_router.py:54-80 | Every step keeps it that a table was built once iff it is recorded or about to be |
| TableCreation.CreatedAtMostOnce | src/etl/table_router.py:54-89 | Under every interleaving, with bodies that fail and are repeated: at most one completed body per table, and every normal return finds it created, recorded and committed |
| TableCreation.RaisedIffBodyFailed | src/etl/table_router.py:63-80 | In every run a call raises only if its own body raised, and returns normally only if it did not |
| TableCreation.HeldIffInside | src/etl/table_router.py:61-63 | In every run a lock is held iff some thread is inside with it |
| TableCreation.WaitingEntersIff | src/etl/table_router.py:63 | A waiting thread enters at its next turn iff nobody is inside |
| TableCreation.InsideReturns | src/etl/table_router.py:63-80 | Whatever the other threads do, a thread that is inside has returned normally after four turns of its own that do not fail |
| TableCreation.AloneReturns | src/etl/table_router.py:54-80 | From every reachable world a call that finds nobody inside and whose body does not raise returns within seven turns, with the table created, recorded and committed |
| Cache.CacheManager.Create | src/infrastructure/cache.py:10-18 | A cache is made iff the size is at least one and the time to live is positive |
| Cache.CacheManager.Put | src/infrastructure/cache.py:20-26 | After a set nothing is expired, the new item is the last unless it is expired itself, all others were there before under other keys, and keys stay distinct |
| Cache.CacheManager.EvictOldest | src/infrastructure/cache.py:25-26 | What remains is the newest maxsize items |
| Cache.CacheManager.Fetch | src/infrastructure/cache.py:28-38 | The value iff it is there and not expired; a hit moves it to the end, an expired item goes |
| Cache.CacheManager.Remove | src/infrastructure/cache.py:40-42 | A delete follows the step function of the cache |
| Cache.CacheManager.Length | src/infrastructure/cache.py:44-47 | Exactly the unexpired items are left and counted |
| Cache.CacheManager.EvictExpired | src/infrastructure/cache.py:49-53 | Popping the expired keys one by one leaves exactly the unexpired items in their order |
| Cache.ChainDrop | src/infrastructure/cache.py:25-26 | Every item left after an eviction was used after every item evicted |
| Cache.CacheFollowsHistory | src/infrastructure/cache.py:20-53 | In every run under a forward clock: the items are the last values written, in order of last use, every absence is explained, and the size stays within maxsize |
| Cache.HitsAndMissesAreRight | src/infrastructure/cache.py:20-53 | A hit is the last value set, not deleted and not expired; a miss on such a value means that at least maxsize other keys were set or hit since its last use |
| PollingScanner.Scanner.ScanImpl | src/watcher/polling_scanner.py:57-97 | Submits the wanted files in walk order up to the first error, and moves the watermark, forward only, iff the scan completes |
| PollingScanner.SubmittedIff | src/watcher/polling_scanner.py:70-88 | An entry is submitted iff it matches, can be stat'ed, is newer than the watermark if the scan is incremental, not SUCCESS and readable, and nothing before it ended the scan |
| PollingScanner.PassIsSubmission | src/watcher/polling_scanner.py:61-94 | A readable entry that is not done and that the scan reaches is submitted iff its file passes the filter in the sense of the results below |
| PollingScanner.Coverage | src/watcher/polling_scanner.py:53-94 | In how many completed scans a file passes: none iff unseen, overtaken or with an mtime at or before the epoch; two iff written during a scan that sees it and scanned again; else one |
| PollingScanner.VisibleFileIsCovered | src/watcher/polling_scanner.py:61-94 | A file visible from its mtime on passes once or twice as soon as a completed scan sees it |
| PollingScanner.NeverOvertaken | src/watcher/polling_scanner.py:61-94 | Such a file is never overtaken |
| PollingScanner.OvertakenFileIsLost | src/watcher/polling_scanner.py:78-94 | A file that appears with an old mtime after a scan started past it never passes, in any continuation |
| PollingScanner.LostIff | src/watcher/polling_scanner.py:87-94 | No later scan can ever queue the file iff the watermark has passed its mtime and the pool refused it in every scan that submitted it |
| PollingScanner.AbortedScansLoseNothing | src/watcher/polling_scanner.py:91-94 | Taking the aborted scans out of a history changes neither the watermark nor what passes |
| Redelivery.StartsNeedSubmissions | src/watcher/polling_scanner.py:78-89 | Pipeline starts and waiting items together never exceed the passes of the file through completed scans, aborted scans and watcher events |
| Redelivery.StartsAreLimitedByScans | src/core/file_processor.py:80-96 | Whatever max_retries allows: an unchanged file is started at most twice per scanner, once per aborted scan and once per watcher event |
| Redelivery.TwoStartsHappen | src/watcher/polling_scanner.py:78-94 | The bound is attained: a run of one scanner with two scans and two starts, after which the watermark is past the file |
| EventHandler.StabilityChecker.Record | src/watcher/event_handler.py:66-75 | Counts equal observations in a row for this path alone |
| EventHandler.StabilityChecker.Forget | src/watcher/event_handler.py:59-63 | This path is as if never seen, the others are untouched |
| EventHandler.StabilityChecker.CheckStability | src/watcher/event_handler.py:53-92 | An undisturbed check emits iff its observation completes the required run, and then forgets the path |
| EventHandler.RunKeepsInv | src/watcher/event_handler.py:66-83 | Under any overlap of checks the counter is the length of the trailing run of equal observations |
| EventHandler.EmissionsAreStable | src/watcher/event_handler.py:53-92 | Under any overlap an emission is preceded by at least stability_check_count consecutive observations equal to the emitted one, with no reset in between |
| EventHandler.CheckEmitsIff | src/watcher/event_handler.py:66-92 | Under any overlap a check emits its own observation, once, and the path is forgotten, iff that observation completed such a run; otherwise nothing is emitted or forgotten |
| EventHandler.VanishForgets | src/watcher/event_handler.py:56-64 | After the file has vanished the next observation counts as the first |
| TaskUpdate.MergeWithItself | src/web/api/config_api.py:338-346 | Merging any nested dict with itself gives it back |
| TaskUpdate.MergeTakesUpdates | src/web/api/config_api.py:338-346 | However deep, every value of the updates stands at its path in the result |
| TaskUpdate.MergeKeepsRest | src/web/api/config_api.py:338-346 | However deep, what the updates do not have a key for stays as it was |
| TaskUpdate.MergeIsUpdate | src/web/api/config_api.py:389-409 | The whole effect of a flat update: known fields take the submitted value or keep theirs, everything else stays, six sections exist, the id stays |
| TaskUpdate.UpdatesCompose | src/web/api/config_api.py:338-457 | One flat update after another is the same as both at once, the later winning |
| TaskUpdate.UpdateIsIdempotent | src/web/api/config_api.py:389-409 | Sending the same form twice changes nothing the second time |
| TaskUpdate.UnsubmittedSurvives | src/web/api/config_api.py:389-409 | Fields not submitted keep their value, unknown keys of sections and of the top level survive, and task_id never changes |
| TaskUpdate.BuildFlattenBuild | src/web/api/config_api.py:349-457 | Flattening a built task and building it again gives it back |
| TaskUpdate.SubmittedIsBuilt | src/web/api/config_api.py:412-457 | In a task made from a form every submitted field is in its section with its value, and so are the four top-level keys |
| TaskUpdate.OldStyleFieldIsReadIff | src/web/api/config_api.py:358-385 | A field that its section lacks is read from the top level of an old-style task iff it is one of eight |
| RuntimeTask.LoadedAfterUpdate | src/web/api/config_api.py:400-404 | After a flat update every known field is spelled out, with the submitted value or the flattened old one, and this is what the loader takes |
| RuntimeTask.MeaningIsKeptIff | src/core/config.py:211-249 | A field that was not submitted keeps its loaded value iff its section held it or the loader's default is what the builder fills in |
| RuntimeTask.DefaultsDifferOn | src/core/config.py:222-248 | Loader and form builder disagree on the default of exactly five of the fields a task may lack |
| RuntimeTask.RenamingIsHarmlessIff | src/web/api/config_api.py:389-457 | For a loadable task in nested form: an update that touches no section field leaves the loaded task alone iff those five fields are spelled out |
| RuntimeTask.FileGoesWhere | src/infrastructure/file_archiver.py:30-47 | A processed file is deleted, or moved to which directory, exactly under these modes and directories |
| RuntimeTask.ArchivingIsKeptIff | src/infrastructure/file_archiver.py:27-47 | Such an update changes what happens to processed files exactly in a task with an archive directory and no mode, whose files were moved and then stay |
| RuntimeTask.BehaviourIsKeptIff | src/infrastructure/file_archiver.py:27-47 | For a loadable nested task: archiving, polling and ageing of tables stay as they were iff poll interval and retention are spelled out, and the mode is or there is no directory |
| RuntimeTask.RenamingStartsPolling | src/core/config.py:247 | Any nested task without a schedule section: renaming it turns the poll interval from 0 to 60 |
| ConfigStore.LookupFindsTask | src/core/config.py:73-114 | With unique ids a lookup in the index finds a task iff it is in the list |
| ConfigStore.CrashKeepsWholeFile | src/web/api/config_api.py:212-218 | Whenever the process dies during a write, the file is the whole old one, or the whole new one after the last step |
| ConfigStore.SyncIsNeeded | src/web/api/config_api.py:214-218 | Without the fsync a crash after the replacement may leave a torn file |
| ConfigStore.ConfigManager.WriteConfig | src/web/api/config_api.py:207-224 | The new file is in place iff no step raised, else the old one is; a temporary file is left only if it cannot be removed |
| ConfigStore.ConfigManager.Reload | src/core/config.py:77-103 | Succeeds iff the file can be read and built; configuration and index change together or not at all |
| ConfigStore.ConfigManager.SaveAndReload | src/web/api/config_api.py:233-248 | From agreement of file and configuration: which of the five exits is taken for which faults; the new content exactly on normal return, the old configuration on every other exit, and file and configuration part only if the old content cannot be written back |
| TaskManager.Manager.StartTask | src/core/task_manager.py:66-108 | Raises iff the folder or the watcher fails; a missing folder leaves the old instance running, a failing watcher leaves nothing, watchers and scanners stay paired |
| TaskManager.Manager.StopTask | src/core/task_manager.py:110-121 | Stops this one and keeps the others up to date |
| TaskManager.Manager.OnConfigChanged | src/core/task_manager.py:36-58 | In whatever order the tasks are met: raises iff one of the starts fails, and leaves running exactly what the starts up to that one make of it |
| TaskManager.Manager.Restart | src/core/task_manager.py:53-55 | Stops and starts in order, ending at the first failure, whose old instance is gone by then |
| TaskManager.Manager.StartNew | src/core/task_manager.py:56-58 | Starts in order tasks that do not run, ending at the first failure |
| TaskManager.Manager.Reload | src/core/task_manager.py:36-58 | From tasks that are up to date: exactly the enabled tasks run, each in its new definition, iff no start fails |
| TaskManager.ReconciledIsEnabledIff | src/core/task_manager.py:36-58 | From any running tasks: the result is exactly the enabled tasks iff no enabled task with an unchanged definition was running in another one |
| TaskManager.AllStarted | src/core/task_manager.py:36-58 | If no start fails, every order leads to the same reconciled tasks |
| TaskManager.StaleAfterReloadIff | src/core/task_manager.py:50-58 | From tasks that are up to date: a reload leaves exactly those changed tasks in an old definition that stand behind a failing restart, and nothing removed or disabled runs |
| TaskManager.MissingAfterReloadIff | src/core/task_manager.py:50-58 | An aborted reload leaves exactly these enabled tasks without a running instance: the one whose start fails and the new ones behind it |
| TaskManager.ReloadCompletesIff | src/core/task_manager.py:50-58 | From tasks that are up to date, in every order: a reload ends with exactly the enabled tasks iff no start fails |
| TaskManager.ReloadsConverge | src/core/task_manager.py:36-121 | After any manual starts and stops, failing or not, and reloads whose starts succeed, every reload ends with exactly the enabled tasks |
| TaskManager.FailedStartLeavesStaleTask | src/core/task_manager.py:53-55 | Two changed running tasks, the new folder of the first one missing: it is stopped, and the other one runs in its old definition then and after all later reloads that keep its new one |
| TaskManager.StaleTaskStaysStale | src/core/task_manager.py:42-58 | A task running in an old definition stays so through all reloads that keep its new one, complete or not |

## Left out

- MySQL, SQLAlchemy and pooling: a committed statement is one atomic step, timestamps are exact, and a monthly table is a map from unique keys to rows beside a multiset of the rows without one.
- An error raised by the commit itself, and the non-duplicate errors that INSERT IGNORE swallows.
- Interruptions inside one `FileProcessor` call, and exceptions of marks or of the archiver there; the interleavings and crashes of the protocol itself are in `ClaimProtocol`.
- The moving of archived files itself, `mark_archived`, the compress and cleanup jobs, which nothing calls, the dead letter move in the file system, alerts, audit and log lines.
- `processed_files` columns outside the protocol: error texts, sizes, hashes, counters, ids.
- `state_tracker.py`, which only delegates.
- The sandbox and cleaner processes and `validate_syntax`: the transformer is an arbitrary function of the batch.
- Parsing of CSV, JSON and Excel files and encoding detection; missing parser libraries count as unopenable files.
- Cells are texts or NULL: a JSON number 0 or false, which counts as an empty partition field, is not told apart.
- Date parsing: an arbitrary partial function from the cell to the month.
- Encryption: the pipeline is built without it (`src/main.py:70`).
- Table name validation, the CREATE TABLE template beyond its unique key, and the ageing of tables itself.
- Which columns form the unique key: an arbitrary partial function of table and stored row.
- The null rate, the rounding and the storage of the quality report; the unrounded streaming score is modelled.
- The priority order of the queue: a worker may take any queued file, which covers every order.
- Pausing and resuming, removal of breakers, and the shutdown of the pool.
- Timers and the extension filter of `_schedule`: checks may run at any time and overlap in any way, which covers every timing.
- `_on_file_detected` and the trigger endpoint, which pass work on.
- Section-shaped task updates, which the code rebuilds from flat fields, and tasks whose section is not a dict, on which the code raises.
- Key order of dicts in the configuration file, and environment substitution, which is part of the arbitrary partial function from file to configuration.
- The web routes, authentication, the dashboard, pydantic range checks and the user interface.
- The validator's checks of values; what is modelled of it is which fields it requires.
- Loading of the top-level keys of a task (id, name, enabled, priority) and of `retry_backoff`; updates treat the latter as an unknown key, which survives.
- Clocks are assumed not to run backwards where a lemma says so; a file's mtime is read from the same clock as the scans.
