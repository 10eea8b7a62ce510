# Verified model of the support operations services

The repository holds the same small transactional system twice, in Python and in .NET. Events enter, rules decide, a
cooldown suppresses duplicates, incidents and actions are created, and a durable queue retries actions until they end.
This project models both and proves what every run of them keeps.

- **Tables and classes.** A table is a sequence (or, for idempotency records, a map by key); a row is named by its
  position. Services that change rows step by step are classes (`EventProcessor`, `ActionWorker`, `CheckService`,
  `HealthSweep`, `OpsStore`, `ActionProcessor`, `EventIngestionService`) whose methods are proved against functions on
  the tables; the laws are lemmas about those functions and about whole runs built from them.
- **Clocks** are parameters, one per reading the code takes; nothing is assumed of them beyond what a lemma says.
  Python instants are microseconds, .NET instants ticks of 100 nanoseconds.
- **Queries with an incomplete order** (the due queries) may return any answer their filter, order and limit allow;
  everything is proved for all of them.
- **Concurrency** is interleaving: Python callers by reserve, complete, poll and die; .NET clients by single
  statements under one writer lock. Both are proved equal to a serial run in commit order.
- **The shared workload** is run through both engines for every length and seed and compared with the counters the
  benchmark predicts.

Three results limit what the code does rather than confirm it, each with its exact condition and an input that fails:

- Python's default backlog limit lets the prediction be met up to 66,663 events and no further
  (`PyWorkload.DefaultLimit`). The driver's defaults stay within; `--fixture-count` and `--equivalence-count` of 66,664
  do not (`PyWorkload.TooMany`).
- Ten rounds of 10,000 let the .NET benchmark meet it up to 500,000 events and no further, provided the clock does not
  step back and its first round reads a later clock than ingestion did (`NetWorkload.BenchmarkMeetsPrediction`,
  `NetWorkload.TooLong`). While the clock stands still the order of ties matters, and exactly the runs of up to 450,003
  events are safe (`NetWorkload.StillClockDecides`). A clock that steps back can defeat a single event
  (`NetWorkload.SteppingBack`).
- A pass of `process_due_actions` commits exactly when no selected row's transport raises (`PyQueue.PassCommits`). The
  worker of the service, with the default transport, always commits (`PyQueue.DefaultWorkerCommits`); a caller with a
  transport of its own can have one row starve all others (`PyQueue.BrokenRowStarvesSoundRow`).

`specification/behavior-contract.md` gives other thresholds and retry rules than the code; the model follows the code.

| files | content |
|---|---|
| `Util`, `Text`, `Scheduler` | sums over tables, text rendering, the queue discipline both engines share |
| `PyTables`, `PyRules`, `PyProcessor`, `PyActions`, `PyChecks`, `PyJobs` | the Python services, one module per source file |
| `PyQueue`, `PyRuns`, `PyLedger`, `PyIdempotency`, `PyConcurrency` | laws of the Python system: draining, runs, audit, keys, interleavings |
| `NetStore`, `NetIngestion`, `NetQueue` | the .NET store and services |
| `NetConcurrency`, `NetCooldown`, `NetDrain`, `Timestamps`, `NetText` | laws of the .NET system: interleavings, cooldown, draining, stored instants and the queries on them |
| `Workload`, `PyWorkload`, `NetWorkload`, `Equivalence` | the shared workload, end to end |

`dafny verify dfyconfig.toml` checks everything.

## Model

| member | source | states |
|---|---|---|
| `Equivalence.EnginesMatch` | benchmarks/run_python_vs_dotnet.py:67-73 | The driver's equivalence check (Python counters = .NET counters = prediction) passes for n events, any seed and any clocks if and only if no second critical event reads the clock too late in either engine, n <= 66,663 (the most that fits Python's default backlog of 10,000 actions), and the .NET rounds have ended every action. When the .NET clock does not step back, the last condition always holds and the first two decide. |
| `PyWorkload.MeetsPrediction` | benchmarks/run_python_vs_dotnet.py:196-246 | For every n, seed, clock and backlog limit, the whole Python run (events, then the retry loop on each queued action) ends with the predicted counters iff every position-1 event is checked within five minutes of its position-0 incident and the predicted actions fit the limit. |
| `PyWorkload.DefaultLimit` | src/support_operations_intelligence_platform/core/settings.py:13 | With the default limit of 10,000 the size condition is exactly n <= 66,663. |
| `PyWorkload.TooMany` | benchmarks/run_python_vs_dotnet.py:47-51 | An input beyond it: 66,664 events, as an equivalence count and fixture count of that size ask for, with distinct seeded assets and not one late event, miss the prediction. |
| `PyWorkload.SeedingSeeds` | benchmarks/run_python_vs_dotnet.py:499-507 | Seeding one asset per name gives every event its asset and names no asset twice, so the theorems' assumption about assets is met. |
| `PyWorkload.IngestTracks` | benchmarks/run_python_vs_dotnet.py:217-224 | Ingesting any prefix of the workload raises no error; suppressions plus late second events are the predicted suppressions, and without late ones incidents and actions per mode are as predicted, actions cut off at the limit. |
| `PyWorkload.CooldownFor` | src/support_operations_intelligence_platform/services/processor.py:192-202 | Over the tables the workload has built, an event is in cooldown iff it is the second of its cycle and within five minutes of the first. |
| `PyWorkload.ModeEnds` | src/support_operations_intelligence_platform/services/actions.py:26-58 | With the default transport and three attempts an action of mode success succeeds at attempt 1, transient_then_success at attempt 2, and permanent_failure fails at attempt 1 with a detail that says permanent. |
| `PyWorkload.RetryQueuedCounts` | benchmarks/run_python_vs_dotnet.py:226-229 | After the retry loop, succeeded, failed, retried and permanent counts are the numbers of actions created in the matching modes. |
| `PyWorkload.RunEngine` | benchmarks/run_python_vs_dotnet.py:215-231 | The driver's two loops, run through the methods of the processor and the worker, return the counters of the specification; with seeded assets they equal the prediction under exactly the conditions of MeetsPrediction. |
| `NetWorkload.MeetsPrediction` | dotnet/benchmarks/OpsIntelligence.Benchmark/Program.cs:57-77 | Ingestion and then rounds of any positive limits until one processes nothing, under any clock, end with the predicted counters iff no second critical event reads the clock more than the cooldown after the first and the last round finds due whatever is still open; when the clock does not step back, iff no second event is late. |
| `NetWorkload.PredictedIffEnded` | dotnet/benchmarks/OpsIntelligence.Benchmark/Program.cs:57-81 | For any legal rounds and any clock the run ends with the predicted counters iff no second critical event is late and every action has ended. |
| `NetWorkload.BenchmarkMeetsPrediction` | dotnet/benchmarks/OpsIntelligence.Benchmark/Program.cs:57-81 | The program as written, at most ten rounds of at most 10,000 actions, under any clock: it meets the prediction iff no event is late and every action has ended, for which n <= 500,000 is necessary. When the clock does not step back from ingestion to rounds or between rounds, n <= 450,003 without late events suffices; when moreover the first round reads a later clock than ingestion did and the clock does not step back within a round, it meets it iff no event is late and n <= 500,000. |
| `NetWorkload.TooLong` | dotnet/benchmarks/OpsIntelligence.Benchmark/Program.cs:69-77 | An input beyond it: 500,001 events with no late one, and ten legal rounds, the clock in order and moved on, that miss the prediction. |
| `NetWorkload.TenRoundsSuffice` | dotnet/benchmarks/OpsIntelligence.Benchmark/Program.cs:69-77 | With the clock in order, moved on before the first round and not stepping back within a round, ten rounds leave no open action when n <= 500,000 and no event is late, for every batch the due query may return. |
| `NetWorkload.TenRoundsAtMost` | dotnet/benchmarks/OpsIntelligence.Benchmark/Program.cs:69-77 | Without late events at most ten rounds of 10,000 can leave no open action only when n <= 500,000, whatever the clock reads. |
| `NetWorkload.TenRoundsAnyway` | dotnet/benchmarks/OpsIntelligence.Benchmark/Program.cs:69-77 | When the clock does not step back from ingestion to rounds or between rounds, and no event is late, ten rounds leave no open action when n <= 450,003, however ties are broken. |
| `NetWorkload.StillStarves` | dotnet/src/OpsIntelligence.Api/Persistence/SqliteOpsStore.cs:312-319 | For every n >= 450,004 and a clock that stands still, a legal run of ten full rounds that passes one transient action over nine times and leaves it open. |
| `NetWorkload.StillClockDecides` | dotnet/benchmarks/OpsIntelligence.Benchmark/Program.cs:57-81 | While every event reads the same clock, all legal runs of ten rounds whose clock does not step back meet the prediction if and only if n <= 450,003; so that number cannot be raised unless the clock moves on. |
| `NetWorkload.SteppingBack` | dotnet/benchmarks/OpsIntelligence.Benchmark/Program.cs:69-77 | Why the order of the clock is asked for: one event read at 5 and a legal first round that reads 3 finds nothing due, stops the loop, and misses the prediction without a late event. |
| `NetWorkload.TenRoundsExist` | dotnet/benchmarks/OpsIntelligence.Benchmark/Program.cs:69-77 | A legal run of at most ten rounds, with the clock in order and moved on, exists after every ingestion, so the theorems above speak of something. |
| `NetWorkload.IngestTracks` | dotnet/benchmarks/OpsIntelligence.Benchmark/Program.cs:57-67 | Ingesting any prefix throws nothing and builds the predicted incidents, actions per mode and suppressions, one suppression less for each late event. |
| `NetWorkload.StoredAsGenerated` | dotnet/src/OpsIntelligence.Api/Services/EventIngestionService.cs:55-99 | Every generated event, for any seed, is already in normal form: what is stored is what was generated. |
| `NetWorkload.RunEngine` | dotnet/benchmarks/OpsIntelligence.Benchmark/Program.cs:57-81 | The program's loops, run through the methods of the service, the processor and the store, return the counters of the specification, and these meet the prediction under exactly the conditions of BenchmarkMeetsPrediction. |
| `NetWorkload.RunRounds` | dotnet/benchmarks/OpsIntelligence.Benchmark/Program.cs:69-77 | The loop of rounds leaves the store as draining it with all its rounds does; leaving at the first empty round loses nothing. |
| `Workload.ExpectedCounters` | benchmarks/workload.py:106-138 | The counting loop returns, per counter, the number of indices below count at the positions of the cycle that counter stands for. |
| `Workload.AtClosed` | benchmarks/workload.py:106-138 | Closed form of every counter: whole cycles, plus one when the last cycle has got past the position. |
| `Workload.SharedAsset` | benchmarks/workload.py:34-99 | Two events of the workload share an asset if and only if they are positions 0 and 1 of the same cycle, for every seed and index, through the rendered asset names. |
| `Workload.WorkloadIsCyclic` | benchmarks/workload.py:34-103 | For every seed and index the generated event has the category, severity and mode of its position, and shares its asset with an earlier event exactly as its cycle says; all that either engine depends on. |
| `Workload.PredictedIsExpected` | benchmarks/workload.py:106-138 | Adding up what each event contributes gives the counts of positions. |
| `PyConcurrency.EveryInterleavingIsSerial` | src/support_operations_intelligence_platform/services/processor.py:56-92 | However callers interleave, with reserve and complete as separate visible steps and owners dying anywhere, the tables without reservations are those of the committed callers served one at a time, with the same answers. |
| `PyConcurrency.OneResultPerKey` | src/support_operations_intelligence_platform/services/processor.py:56-92 | From any tables with complete records: at most one original answer per key commits, none when the key had a result before, every caller that commits gets the stored outcome, hits grows by the committed replays, and a key without a result has no committed caller. |
| `PyConcurrency.ConcurrentRepeatsDoNotCount` | src/support_operations_intelligence_platform/services/processor.py:56-92 | Concurrent callers leave what serving the first commit of each key alone would leave, up to hits and their audit rows. |
| `PyConcurrency.ResultsAreFinal` | src/support_operations_intelligence_platform/services/processor.py:75-81 | Once a record names an event, no continuation of the interleaving by anybody changes its result, and hits never falls. |
| `PyConcurrency.ReservationsAreOwned` | src/support_operations_intelligence_platform/services/processor.py:63-73 | In every reachable state a reserved but incomplete key belongs to a live caller. |
| `PyConcurrency.CompletionIsFresh` | src/support_operations_intelligence_platform/services/processor.py:74-81 | Completing a reservation does what processing an unused key does, and its rollback restores what others saw. |
| `PyIdempotency.RepeatsDoNotCount` | src/support_operations_intelligence_platform/services/processor.py:38-92 | Any request sequence leaves the same tables as the sequence without the later repeats of each accepted key; only hits, the records' update times and idempotency_hit rows differ. |
| `PyIdempotency.KeyHistory` | src/support_operations_intelligence_platform/services/processor.py:148-173 | Serially, from any tables with complete records: one original answer per new key and none per old one, all answers of a key equal, hits counts the replays on top of what it was. |
| `PyProcessor.EventProcessor.ProcessNewEvent` | src/support_operations_intelligence_platform/services/processor.py:94-146 | The event row, the asset status, the rule match, the cooldown, the incident, backpressure and the action, in the code's order, give the tables and outcome of the specification; an unknown asset changes nothing. |
| `PyProcessor.EventProcessor.ReplayRecord` | src/support_operations_intelligence_platform/services/processor.py:148-173 | A replay adds one hit and one audit row and answers with the stored rows. |
| `PyProcessor.EventProcessor.WaitForResult` | src/support_operations_intelligence_platform/services/processor.py:175-190 | Polling replays the first view in which the key is completed, and times out when there is none. |
| `PyProcessor.EventProcessor.ProcessWithIdempotency` | src/support_operations_intelligence_platform/services/processor.py:56-92 | Completed key: replay. Unused key: reserve, process, complete. Reserved key: wait. |
| `PyProcessor.EventProcessor.Ingest` | src/support_operations_intelligence_platform/services/processor.py:38-54 | A request commits the specification's tables or, on any error, leaves them as they were; a caller that finds its key taken gets the first result its polls see, or times out, and keeps what others have committed meanwhile. |
| `PyProcessor.WaitingAlone` | src/support_operations_intelligence_platform/services/processor.py:175-190 | A waiting caller that nobody else serves times out and changes nothing, which is what the serial specification says of a reserved key. |
| `PyProcessor.FramesRecords` | src/support_operations_intelligence_platform/services/processor.py:66-75 | Reserving a key has no influence on how its event is processed. |
| `PyProcessor.FirstResult` | src/support_operations_intelligence_platform/services/processor.py:182-190 | The first poll that sees a result, all earlier ones having seen none. |
| `PyRules.Match` | src/support_operations_intelligence_platform/services/rules.py:11-19 | A matching rule exists iff some enabled rule of the category has a threshold not above the severity, and the one returned has the highest such threshold. |
| `PyRuns.RunKeepsRefs` | src/support_operations_intelligence_platform/services/processor.py:120-143 | In every run of ingestion, workers, the direct retry loop, sweeps, checks, new assets and rules, and resets: actions name incidents, incidents name events of the same asset and existing rules, records name existing rows that belong together. |
| `PyRuns.ReplaysNeverDangle` | src/support_operations_intelligence_platform/services/processor.py:158-162 | In no reachable state can a request fail with a missing event or a timeout; the only error left is an unknown asset. |
| `PyRuns.RunKeepsLives` | src/support_operations_intelligence_platform/services/actions.py:71-113 | Queued means no attempts, retry means 1 <= attempts < max, ended means 1 <= attempts <= max, and nothing is left leased. |
| `PyRuns.ActionsEvolve` | src/support_operations_intelligence_platform/services/actions.py:71-113 | Over any stretch without a reset an ended action is frozen, an active one keeps its detail, attempts never fall, and no action becomes queued again. |
| `PyRuns.RunKeepsCooldown` | src/support_operations_intelligence_platform/services/processor.py:111-128 | With rules added at any time: an incident opened under a cooldown c > 0 is more than c after every earlier one on its asset, and every suppressed event has an earlier unresolved incident on its asset within the cooldown of the very rule that matched it among the rules there were. |
| `PyRuns.BackpressureHolds` | src/support_operations_intelligence_platform/services/processor.py:131-143 | Queued or retrying actions that ingestion created never exceed the backlog limit. |
| `PyRuns.BacklogBounded` | src/support_operations_intelligence_platform/services/jobs.py:10-25 | The whole backlog never exceeds the limit plus the active sweep follow-ups. |
| `PyRuns.IngestEffect` | src/support_operations_intelligence_platform/services/processor.py:94-146 | A request either replays, or is refused, or adds exactly one event and one audit row, at most one incident and one action, and at most one record. |
| `PyLedger.AuditConservation` | src/support_operations_intelligence_platform/services/processor.py:207-215 | In every reachable state audit rows = events + attempts + hits + checks created + transitions made since the last reset, each action has exactly its attempts of executed rows, each incident exactly one opening row, each record its hits, each check the transitions its state allows. |
| `PyLedger.RunLogsMoves` | src/support_operations_intelligence_platform/services/checks.py:60-102 | The audit rows about check transitions are as many as the transitions made: one per accepted request and one per check that expired. |
| `PyLedger.RunKeepsLedger` | src/support_operations_intelligence_platform/api/app.py:253-257 | Every step, reset included, keeps the audit log balanced row by row and in total. |
| `PyActions.ActionWorker.ExecuteActionOnce` | src/support_operations_intelligence_platform/services/actions.py:61-113 | One attempt changes this row only, as specified, and leaves one audit row; a raising transport leaves the attempt count raised and nothing else, a bad maximum leaves all as it was. |
| `PyActions.ActionWorker.ExecuteActionWithRetry` | src/support_operations_intelligence_platform/services/actions.py:37-58 | The loop ends, with the row the recursive specification gives, changes no other row and audits once per attempt. |
| `PyActions.RetryAtIsLoop` | src/support_operations_intelligence_platform/services/actions.py:37-58 | Within the tables, the loop rewrites one row as the row-level loop does and leaves one audit row per attempt. |
| `PyActions.ActionWorker.ProcessDueActions` | src/support_operations_intelligence_platform/services/actions.py:116-166 | For every answer the due query may give, the loop over leased rows leaves the specification's tables and counters; leases leave no trace on success. |
| `PyActions.ActionWorker.RunOnceCommitted` | src/support_operations_intelligence_platform/services/actions.py:177-195 | A pass commits, or raises and leaves the tables unchanged. |
| `PyActions.AttemptProgress` | src/support_operations_intelligence_platform/services/actions.py:76-100 | An attempt on an active row ends it, or leaves it waiting with its detail intact and strictly less work; either way unleased. |
| `PyActions.DueSelectionExists` | src/support_operations_intelligence_platform/services/actions.py:127-137 | Whatever the table, clock and limit, some answer meets the due query's filter, order and limit. |
| `PyActions.LeaseIsInvisible` | src/support_operations_intelligence_platform/services/actions.py:144-156 | Leasing a row just before its attempt does not change what the attempt leaves. |
| `PyQueue.DrainIsRetryLoops` | src/support_operations_intelligence_platform/services/actions.py:116-166 | Draining by passes with advancing time, any limits >= 1 and any delay gives every action the final state, attempts and detail that the service's retry loop, which has no delay, gives it alone, for any transport that sees type, detail, attempts and timeout and never raises. |
| `PyQueue.PassesExist` | src/support_operations_intelligence_platform/services/actions.py:116-137 | Any number of advancing passes can be made from any tables. |
| `PyQueue.EndedAsRetryLoop` | src/support_operations_intelligence_platform/services/actions.py:37-58 | Whatever passes were made, with any delay, rollbacks, raising transports and any clock: an action that has ended has ended as the retry loop without delay would have ended it. |
| `PyQueue.DrainEnds` | src/support_operations_intelligence_platform/services/actions.py:140-166 | The queue is empty after at most as many passes as the remaining attempts add up to. |
| `PyQueue.PassAccounting` | src/support_operations_intelligence_platform/services/actions.py:140-166 | processed = succeeded + failed + retried = min(due, limit); the backlog falls by exactly succeeded + failed; the remaining work falls by at least processed. |
| `PyQueue.PassCommits` | src/support_operations_intelligence_platform/services/actions.py:177-195 | A pass commits if and only if no selected row's transport raises; otherwise all tables are as before. |
| `PyQueue.DefaultWorkerCommits` | src/support_operations_intelligence_platform/services/actions.py:26-34 | The default transport never raises past the attempt, so the worker, which has no other, always commits when at least one attempt is allowed. |
| `PyQueue.RaisingRowBlocksBatch` | src/support_operations_intelligence_platform/services/actions.py:116-166 | One selected row whose transport raises undoes the whole pass, the other rows' attempts included. |
| `PyQueue.BrokenRowStarvesSoundRow` | src/support_operations_intelligence_platform/services/actions.py:116-166 | An input for callers with a transport of their own: beside one action whose transport raises, a sound one is never executed by any pass that can take both, although its own retry loop succeeds at once. |
| `PyQueue.ExecutedInTime` | src/support_operations_intelligence_platform/services/actions.py:127-160 | An unleased action due at t with r actions before or tied with it is executed by the time the limits of the committed passes, which read the clock from t on and put retries off to after t, add up to more than r + s; with one limit that is within floor((r + s) / limit) + 1 passes. s counts the actions arriving meanwhile with no due time, as sweep follow-ups have none, or with one not after t. |
| `Scheduler.ServedInTime` | src/support_operations_intelligence_platform/services/actions.py:127-137 | The same bound for any queue ordered by (next attempt, creation) that puts what it serves off to after t; limits and arrivals are arbitrary, and arrivals with no due time or one not after t are counted. |
| `Scheduler.SelectionSize` | src/support_operations_intelligence_platform/services/actions.py:127-137 | A batch has as many rows as the limit and the number of due rows allow. |
| `PyChecks.LifeOfACheck` | src/support_operations_intelligence_platform/services/checks.py:13-34 | Under any requests a check makes at most three transitions, as many as its state tells; ended states refuse everything; a due time is set only while waiting for confirmation. |
| `PyChecks.ExpiryIsTotal` | src/support_operations_intelligence_platform/services/checks.py:92-102 | Expiry never raises, times out exactly the overdue waiting checks and leaves none overdue. |
| `PyChecks.ExpiringTwice` | src/support_operations_intelligence_platform/services/checks.py:92-102 | Expiring at t1 and then at t2 >= t1 leaves the checks as expiring once at t2, up to when rows were touched. |
| `PyChecks.CheckService.TransitionCheck` | src/support_operations_intelligence_platform/services/checks.py:60-89 | An allowed transition rewrites this check and leaves one audit row; a refused one changes nothing. |
| `PyChecks.CheckService.ExpireWaitingChecks` | src/support_operations_intelligence_platform/services/checks.py:92-102 | The loop returns the number of overdue checks and leaves the specification's tables. |
| `PyChecks.CheckService.CreateCheck` | src/support_operations_intelligence_platform/services/checks.py:37-57 | A new pending check and one audit row. |
| `PyJobs.HealthSweep.Run` | src/support_operations_intelligence_platform/services/jobs.py:10-36 | One follow-up per open incident at or beyond the threshold, none for others, whatever the backlog, and one job run that tells how many. |
| `NetStore.OpsStore.RecordIngestionDecision` | dotnet/src/OpsIntelligence.Api/Persistence/SqliteOpsStore.cs:99-187 | The statements between BEGIN IMMEDIATE and commit leave the specification's tables and result; a failure anywhere leaves the tables as they were. |
| `NetStore.RecentOpenIncident` | dotnet/src/OpsIntelligence.Api/Persistence/SqliteOpsStore.cs:227-252 | A recent open incident of the key is found iff there is one, and it is a latest one. |
| `NetStore.Evaluate` | dotnet/src/OpsIntelligence.Api/Services/RuleEvaluator.cs:7-20 | The three-way decision, each side as an if-and-only-if on severity and category. |
| `NetStore.OpsStore.UpdateAction` | dotnet/src/OpsIntelligence.Api/Persistence/SqliteOpsStore.cs:336-356 | Writing back a row stores its progress, never touches what the action is about, and leaves every other row alone; a row that was read from its place is stored exactly. |
| `NetConcurrency.EveryInterleavingIsSerial` | dotnet/src/OpsIntelligence.Api/Persistence/SqliteOpsStore.cs:109-187 | Every interleaving of clients, statement by statement under one writer lock, with the clock read before the lock, death between any statements, and worker writes, commits the tables and answers of the committed transactions one at a time in commit order. |
| `NetCooldown.FreshKeyCollapses` | dotnet/src/OpsIntelligence.Api/Persistence/SqliteOpsStore.cs:109-187 | Among any other traffic, deaths and worker writes: when a key's committed arrivals read the clock within one cooldown, exactly the first opens an incident and all others are answered as suppressed. |
| `NetCooldown.ConcurrentDuplicatesCollapse` | dotnet/tests/OpsIntelligence.Tests/OpsWorkflowTests.cs:276-288 | The case the test runs, all clients of one key and all committed: exactly one incident, one action and N - 1 suppressed answers. |
| `NetCooldown.StoreIsGreedy` | dotnet/src/OpsIntelligence.Api/Persistence/SqliteOpsStore.cs:125-154 | The creation times of a key's incidents are what the greedy rule keeps of its arrivals in commit order, in order of the clock or not. |
| `NetCooldown.IncidentsSpread` | dotnet/src/OpsIntelligence.Api/Persistence/SqliteOpsStore.cs:125-154 | Even with clock readings out of commit order, a key's incidents are strictly later and later and more than the cooldown apart. |
| `NetCooldown.SuppressionsNameIncidents` | dotnet/src/OpsIntelligence.Api/Persistence/SqliteOpsStore.cs:127-135 | Every suppressed answer names an open incident of its key no older than now minus cooldown, still in the table. |
| `NetCooldown.GreedyStaysAhead` | dotnet/src/OpsIntelligence.Api/Persistence/SqliteOpsStore.cs:235-243 | With arrivals in order no choice of arrivals pairwise more than the cooldown apart is longer than the greedy one. |
| `NetCooldown.IncidentCountIsOptimal` | dotnet/src/OpsIntelligence.Api/Persistence/SqliteOpsStore.cs:125-154 | With ordered readings the incidents of a key are such a choice, and a longest one. |
| `NetCooldown.IncidentRateBound` | dotnet/src/OpsIntelligence.Api/Persistence/SqliteOpsStore.cs:125-154 | The k incidents of a key that fall between ticks a and b, anywhere in its history, satisfy (k - 1)(cooldown + 1) <= b - a. |
| `NetCooldown.WindowOf` | dotnet/src/OpsIntelligence.Api/Persistence/SqliteOpsStore.cs:125-154 | A window of incident times holds exactly those between its ends and keeps them spread. |
| `NetCooldown.IncidentsNeedTime` | dotnet/src/OpsIntelligence.Api/Persistence/SqliteOpsStore.cs:125-154 | From the i-th to the j-th incident of a key at least (j - i)(cooldown + 1) ticks pass. |
| `NetCooldown.ArrivalsSplit` | dotnet/src/OpsIntelligence.Api/Persistence/SqliteOpsStore.cs:125-154 | Each incident-worthy arrival of a key either opened an incident or was answered as suppressed. |
| `NetIngestion.EventIngestionService.IngestAsync` | dotnet/src/OpsIntelligence.Api/Services/EventIngestionService.cs:29-53 | A blank asset or a failing store leaves the tables unchanged; otherwise they are those of the write decision on the normalized event at the clock reading, also when signalling the queued action fails after the commit and the caller is told of an error. |
| `NetIngestion.NormalizeProjects` | dotnet/src/OpsIntelligence.Api/Services/EventIngestionService.cs:55-99 | Normalization leaves an event as it is iff the event is canonical (trimmed, non-blank, lower-case category, clamped severity, known mode). |
| `NetIngestion.NormalizeIsCanonical` | dotnet/src/OpsIntelligence.Api/Services/EventIngestionService.cs:55-99 | Normalization fails iff the asset is blank, and otherwise yields a canonical event. |
| `NetQueue.ActionProcessor.ProcessPending` | dotnet/src/OpsIntelligence.Api/Services/ActionProcessor.cs:26-91 | For every answer of the due query and any clock readings, ordered or not, the loop leaves the specification's tables and counters. |
| `NetQueue.ActionProcessor.AttemptOne` | dotnet/src/OpsIntelligence.Api/Services/ActionProcessor.cs:36-88 | One attempt: the row's new state and its audit row, per outcome of the executor. |
| `NetQueue.AttemptAllRows` | dotnet/src/OpsIntelligence.Api/Services/ActionProcessor.cs:36-88 | A round gives each selected row exactly one attempt and leaves all others alone. |
| `NetQueue.TallyMeaning` | dotnet/src/OpsIntelligence.Api/Services/ActionProcessor.cs:32-90 | The batch counters are the rows that moved to succeeded, to failed, and back to retry; open rows fall by exactly the ended ones. |
| `NetQueue.AuditConservation` | dotnet/src/OpsIntelligence.Api/Services/ActionProcessor.cs:36-88 | In every run of ingestion, rounds and resets, audit rows = 2 * events + actions + attempts. |
| `NetQueue.AttemptedInTime` | dotnet/src/OpsIntelligence.Api/Persistence/SqliteOpsStore.cs:312-319 | Fairness: an action due at t with r before or tied, and e ingestions yet to commit that ask for an action and have read the clock by t, is attempted by the time the limits of the rounds, which read the clock from t on and put retries off to after t, add up to more than r + e; with one limit that is within floor((r + e) / limit) + 1 rounds. Anything else may be ingested meanwhile, short of a reset. |
| `NetQueue.EarlyReadingOvertakes` | dotnet/src/OpsIntelligence.Api/Services/EventIngestionService.cs:33-45 | Why such readings count: nothing is ahead of an action due at 10, and yet a round of one at 11 attempts the action of an event that read 5 and committed later. |
| `NetQueue.RoundExists` | dotnet/src/OpsIntelligence.Api/Persistence/SqliteOpsStore.cs:305-334 | Whatever the table, clock and limit, a round can go ahead. |
| `NetDrain.AttemptKeepsDestiny` | dotnet/src/OpsIntelligence.Api/Services/SyntheticActionExecutor.cs:7-15 | An attempt uses up one of the attempts an action has left and does not change how it will end, for every mode and maximum. |
| `NetDrain.DrainKeeps` | dotnet/src/OpsIntelligence.Api/Services/ActionProcessor.cs:57-87 | Whatever the rounds, an action that ends has the status and attempts its mode, attempts and maximum determined at the start. |
| `NetDrain.EnoughRoundsEnd` | dotnet/src/OpsIntelligence.Api/Services/ActionProcessor.cs:26-91 | Rounds that each find due whatever is open leave nothing open at the latest after as many rounds as attempts were left. |
| `NetDrain.EmptyRoundEnds` | dotnet/benchmarks/OpsIntelligence.Benchmark/Program.cs:69-77 | When every round finds due whatever is open, a last round that processes nothing means nothing is left to do. |
| `NetDrain.EmptyRoundDecides` | dotnet/benchmarks/OpsIntelligence.Benchmark/Program.cs:69-77 | Under any clock: after legal rounds the last of which processes nothing, nothing is left to do if and only if that round found due whatever is still open. |
| `NetDrain.OrderedClockIsDue` | dotnet/src/OpsIntelligence.Api/Services/ActionProcessor.cs:57-87 | A clock that does not step back from one round's last delay to the next round makes every round find due whatever is open. |
| `NetDrain.FirstAttempts` | dotnet/src/OpsIntelligence.Api/Persistence/SqliteOpsStore.cs:312-319 | First attempts come before retries: a round that leaves an action unattempted has made a full batch of first attempts. |
| `NetDrain.ReachIsDrained` | dotnet/src/OpsIntelligence.Api/Persistence/SqliteOpsStore.cs:312-319 | When retries queue strictly behind first attempts and every round finds due whatever is open, m rounds of a limit, with no step back within a round, finish everything if the attempts left fit m batches and the first attempts fit m - 1. |
| `NetDrain.DrainedAnyway` | dotnet/src/OpsIntelligence.Api/Persistence/SqliteOpsStore.cs:312-319 | When every round finds due whatever is open, m rounds of a limit finish everything if all but one of the attempts left fit m - 1 of them, in whatever order ties are broken. |
| `NetDrain.TiesCanDefeat` | dotnet/src/OpsIntelligence.Api/Persistence/SqliteOpsStore.cs:312-319 | The strictness is needed: three transient actions, three rounds of two, a clock that stands still, and a legal run that leaves one action open. |
| `NetDrain.Starve` | dotnet/src/OpsIntelligence.Api/Persistence/SqliteOpsStore.cs:312-319 | In general: while the clock stands still, an action with two attempts left can be passed over by k full rounds and left open by one more, when there are k * limit + 2 attempts left and limit + 1 actions open. |
| `Timestamps.FormatOrder` | dotnet/src/OpsIntelligence.Api/Persistence/SqliteOpsStore.cs:602-605 | For all UTC instants of years 1 to 9999, text order of the stored timestamps is order of the instants, and equal texts are equal instants. |
| `Timestamps.ParseFormat` | dotnet/src/OpsIntelligence.Api/Persistence/SqliteOpsStore.cs:602-605 | Reading back what was written gives the same instant, calendar and tick fraction included. |
| `NetText.RecentAnswersQuery` | dotnet/src/OpsIntelligence.Api/Persistence/SqliteOpsStore.cs:227-252 | For timestamps in range the recent incident the model finds is an answer of the query on the stored texts. |
| `NetText.SelectionAnswersQuery` | dotnet/src/OpsIntelligence.Api/Persistence/SqliteOpsStore.cs:305-334 | For timestamps in range the batches of the model are exactly the answers of the due query on the stored texts: filter, order and limit. |

## Left out

- PyQueue.ExecutedInTime: is about passes that commit and a row no other worker leases; a pass that a raising transport undoes is `PyQueue.PassCommits`.
- NetQueue.AttemptedInTime: says nothing of rounds whose clock steps back so far that a retry is set for t or earlier, which can put it in front again.
- PyQueue.DrainIsRetryLoops: transports that read a clock, keep state or change the row are outside the model; a transport is a function of type, detail, attempts and timeout.
- PyRules.Match: rules of equal threshold are unordered in the query; the model takes the earliest.
- PyChecks.ExpiringTwice: equality is up to `updated_at`, which records when a check was really expired.
- PyRuns.RunKeepsCooldown: incidents are never acknowledged or resolved by the modelled services, so the state test of the cooldown is modelled but only open incidents are reachable.
- NetIngestion.NormalizeProjects: lower-casing, here and in `NetIngestion.NormalizeIsCanonical`, covers ASCII letters only; white space is the full set of the platform.
- NetQueue.AuditConservation: a crash between an action's update and its audit row, two separate commits, is not modelled there; `NetConcurrency` has them as separate steps. A reset is one step, though the code deletes its four tables one after another.
- Timestamps.ParseFormat: parsing is modelled for the layout that formatting writes; other layouts and offsets are not stored.
- NetConcurrency.EveryInterleavingIsSerial: one writer at a time is SQLite's guarantee and is assumed; PostgreSQL isolation is not modelled.
- Overlapping workers: Python sets and clears a lease inside one transaction and .NET takes no lease, so attempt bounds are claims about one worker at a time.
- PyActions.RetryAtIsLoop: excludes a skipped action, on which the loop would not end; no run reaches that state (`PyRuns.RunKeepsLives`).
- Row ids, GUIDs and lease ids beyond identity; messages, summaries, correlation ids and timestamps of audit rows; when a job run started, and that a reset deletes job runs; unknown check targets (one value stands for all of them).
- DateTimeOffset underflow in now minus cooldown and timestamps beyond year 9999 in the generated workload; the model's instants are unbounded integers.
- Routing, request validation, JSON, logging, connection pragmas, demo data, migrations and settings loading, which would add only easy members.
- The action signal queue, whose signals are hints: the worker reads persisted rows anyway.
- `contract.py`, benchmark statistics, load generators, process sampling and the stored results.
