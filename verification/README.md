# RDS metric collector: a verified model

A Dafny model of the RDS metric collector and proofs about it. The centre is the scheduler: a main
loop that keeps one worker goroutine per registered driver and service instance, learns of finished
workers through a channel of capacity one, counts them in a WaitGroup, and drains them on shutdown.
Around it are the SQL collector, the pq-timeouts connection driver and the broker's identifier mapping.

How the files fit together:

- `Types.dfy`: the values that pass between the parts.
- `WorkerLog.dfy`: the life of one worker as a log of events, and what every possible log looks like.
- `Desired.dfy`: which workers a listing of instances calls for.
- `Protocol.dfy`: main loop, workers, channel, WaitGroup and contexts as one labelled transition
  system. A run is a sequence of labels, so every interleaving of any number of workers is a run. A
  `select` may pick any ready arm; a cancelled worker may still take its timer arm, and a cancelled
  main loop may still take one more refresh.
- `Invariant.dfy`, `Guarantees.dfy`: what every step keeps, and the guarantees of every reachable state.
- `Drain.dfy`, `Stop.dfy`, `Refresh.dfy`, `Convergence.dfy`, `Fairness.dfy`: shutdown, the meaning of
  `Stop`, what a refresh does, how refreshes can settle, and that under fair scheduling they must.
- `Scheduler.dfy`, `Worker.dfy`, `Backoff.dfy`: the scheduler and the worker as classes with their
  loops. The scheduler's methods are shown to take exactly the main loop's protocol steps, and the
  worker's methods exactly the protocol's steps of that worker, each with arbitrary steps of all the
  other goroutines in between.
- `SqlTables.dfy`, `SqlMeaning.dfy`, `SqlCollector.dfy`: query results as metrics, specified, read off the
  cells of the answer, and computed.
- `Strings.dfy`, `ConnectionSettings.dfy`, `TimeoutConn.dfy`: the pq-timeouts driver, connection and dialer.
- `BrokerInfo.dfy`, `Wiring.dfy`: identifiers, listings, and how main puts the parts together.

What the outside world decides is a parameter or part of a label: what the broker lists, whether a
collector can be created, what a collection returns, which select arm is taken, which key a map
iteration visits next, the cells of a query result, the clock, lower-casing, and lib/pq's URL parsing.
Timers are events that may be ready at any time.

Some promises one might expect of the code do not hold in general, and the model says exactly when
they do:

- `Stop` waits for the WaitGroup only, so it can return while the main loop goes on to start workers
  (`Stop.StopMeansIdleIffDraining`).
- A refresh compares names only, so a worker keeps the instance it was started with when the listing
  gives its GUID another type (`Refresh.HoldsWantedIff`, `Convergence.KeepsFirstInstance`).
- Filtering a connection string twice is not always the same as filtering it once, because white space
  can hide a URL from the first pass (`ConnectionSettings.ReopeningIsStableIff`).
- A timeout is as long as written only if its nanoseconds fit 64 bits
  (`ConnectionSettings.TimeoutAsWritten`), and multiples of 2^58 milliseconds become no timeout at all
  (`ConnectionSettings.TimeoutVanishesIff`).
- Two different database identifiers map to one GUID exactly if one of them lacks the prefix and the
  other is the prefix followed by it (`BrokerInfo.SameGuidExactly`), so listed GUIDs are distinct, and
  every database gets two workers, exactly if no two supported databases clash
  (`BrokerInfo.ListedGuidsDistinctIff`, `Wiring.FirstRefreshStartsTwoEach`).

## Model

| member | source | states |
|---|---|---|
| Desired.DesiredIsLastWanting | pkg/scheduler/scheduler.go:135-143 | a worker is desired iff some listed instance has its GUID and a type its driver supports, and then for the last such instance |
| Invariant.StepKeepsInv | pkg/scheduler/scheduler.go:101-190 | every step of every participant keeps the whole invariant: keys, live workers, reports, the counter, the drain's cancelled root, and each worker's phase being what its own log replays to |
| Invariant.ReachableInv | pkg/scheduler/scheduler.go:92-120 | the invariant holds after every run from the start, for any number of workers and any interleaving |
| Guarantees.OneTokenPerKey | pkg/scheduler/scheduler.go:145-190 | counting workers that have not exited, ids in the channel and an id being deleted, every key of the map has exactly one token and nothing else has any |
| Guarantees.CollectorsNeverCoexist | pkg/scheduler/scheduler.go:145-149 | two collectors for the same driver and instance never exist at the same time, judged by the creations and closes in the trace |
| Guarantees.WaitGroupCountsKeys | pkg/scheduler/scheduler.go:182-189 | the counter is the number of keys, less one in the middle of startWorker and deleteWorker; never negative; positive before Done; and deleteWorker's key is present |
| Guarantees.WorkerSemantics | pkg/scheduler/scheduler.go:240-296 | in every run, for every worker: error count, giving up, emitted envelopes and use of the collector are as the lemmas on its log say |
| Guarantees.QuiescentWhenRunReturns | pkg/scheduler/scheduler.go:92-120 | when Run returns there are no keys, no live or blocked goroutine, an empty channel and a zero WaitGroup; every created collector was closed once and not used after; everything collected was emitted; and no step is possible any more |
| Guarantees.EverythingIsSourced | pkg/scheduler/scheduler.go:169-184 | every worker ever started has the registered driver of its name, which supports its instance's type, and an instance with the GUID in its name that was listed; every emitted envelope carries a GUID from an earlier listing |
| Drain.DrainNeverBlocks | pkg/scheduler/scheduler.go:107-120 | in a drain every worker's context is done, and whatever the drivers' calls return, some step that needs no timer is enabled iff Run has not returned, despite the channel's capacity of one |
| Drain.MainLoopNeverStuck | pkg/scheduler/scheduler.go:122-190 | outside its selects the main loop always has a step of its own |
| Drain.DrainStepDescends | pkg/scheduler/scheduler.go:107-120 | every drain step except a successful collection strictly decreases a measure of retries left, worker phases, reports under way and the one-shot log timer |
| Drain.DrainIsBounded | pkg/scheduler/scheduler.go:107-120 | the length of a drain is at most its starting measure plus what its successful collections add |
| Drain.WorkerIsBounded | pkg/scheduler/scheduler.go:240-296 | in any run, drain or not, a worker takes at most as many steps as its phase weighs plus what its own successful collections add |
| Drain.EndlessDrainCollectsForever | pkg/scheduler/scheduler.go:107-120 | a drain that never ends contains infinitely many successful collections |
| Drain.PromptDrainIsBounded | pkg/scheduler/scheduler.go:107-120 | whatever the drivers' calls return, every drain without timers is no longer than a measure of what the workers and the channel still hold |
| Drain.TimerFreeDrainIsBounded | pkg/scheduler/scheduler.go:107-120 | every drain in which no timer fires obeys the first answers it contains, one per worker and call, and is bounded by them |
| Drain.DrainCanFinish | pkg/scheduler/scheduler.go:107-120 | whatever the drivers' calls return, from every drain state Run can return within that measure and without any timer |
| Stop.StopMeansIdleIffDraining | pkg/scheduler/scheduler.go:193-196 | when Stop can return, no worker goroutine runs ever after iff the main loop is in its drain already or no registered driver supports any type |
| Stop.StopCanReturnTooEarly | pkg/scheduler/scheduler.go:193-196 | a concrete run in which Stop returns and a worker can still start |
| Refresh.RefreshRefinesSets | pkg/scheduler/scheduler.go:135-155 | under every interleaving and map order a refresh makes the keys old + wanted, starts exactly wanted - old, each once and for its wanted instance, and cancels exactly old - wanted |
| Refresh.RefreshesConverge | pkg/scheduler/scheduler.go:135-157 | once the workers cancelled by a refresh are gone, a second refresh wanting the same leaves exactly the wanted keys, none cancelled, also for ids cancelled before and wanted again |
| Refresh.HoldsWantedIff | pkg/scheduler/scheduler.go:145-149 | after a refresh a wanted key's worker holds the listed instance iff the refresh started it or it held that instance already |
| Convergence.CancelledCanLeave | pkg/scheduler/scheduler.go:151-159 | whatever the drivers' calls return, from every state at the select the workers of all cancelled keys can leave the map within the measure, with no timer and no listing |
| Convergence.ConvergenceIsReachable | pkg/scheduler/scheduler.go:135-159 | after every refresh such a run leads to a state in which all keys are wanted and from which every refresh wanting the same leaves exactly the wanted keys, none cancelled |
| Convergence.RefreshCanComplete | pkg/scheduler/scheduler.go:135-155 | from anywhere inside a refresh, for any wanted map, the main loop can complete it |
| Convergence.KeepsFirstInstance | pkg/scheduler/scheduler.go:145-149 | if one refresh starts a worker and the next wants it with another instance, the worker holds the outdated one, under every interleaving |
| Convergence.InstanceCanBeOutdated | pkg/scheduler/scheduler.go:145-149 | for any two listings that want some worker with different instances there are refreshes in which this happens |
| Fairness.ReportGoesThrough | pkg/scheduler/scheduler.go:217 | under weak fairness the deferred send goes through, however often other workers take the one slot first |
| Fairness.LeavesOrCollectsForever | pkg/scheduler/scheduler.go:216-297 | in every infinite run without listings that is weakly fair to the main loop's deletions and to a worker whose context is done, the worker leaves the map for good or collects successfully infinitely often |
| Fairness.RefreshesMustConverge | pkg/scheduler/scheduler.go:135-159 | after every refresh, in every such run in which no cancelled worker collects for ever, there comes a time from which all keys are wanted, none is cancelled, and every refresh wanting the same leaves exactly the wanted keys |
| SchedulerProcess.SliceContainsString | pkg/utils/utils.go:9-17 | the loop decides membership |
| SchedulerProcess.RegisteredByName | pkg/scheduler/scheduler.go:83-90 | drivers are registered under their own name, the last of a name wins, and others stay |
| SchedulerProcess.Scheduler.constructor | pkg/scheduler/scheduler.go:46-80 | no drivers, no workers, an empty channel; a retry interval of 1000 ms, three retries and a timeout of 15000 ms unless configured |
| SchedulerProcess.Scheduler.WithDriver | pkg/scheduler/scheduler.go:83-90 | the loop computes the registry |
| SchedulerProcess.Scheduler.StartWorker | pkg/scheduler/scheduler.go:169-185 | adds the key, one worker object with its registered driver, and one to the counter, by the protocol's insert, add and go steps with others interleaving |
| SchedulerProcess.Scheduler.DeleteWorker | pkg/scheduler/scheduler.go:187-190 | takes one from the counter, which stays non-negative, and removes a key that is present |
| SchedulerProcess.Scheduler.AddDesired | pkg/scheduler/scheduler.go:137-142 | the loop over the drivers adds exactly the workers one instance calls for, in any order |
| SchedulerProcess.Scheduler.DesiredWorkerIDs | pkg/scheduler/scheduler.go:135-143 | the nested loops compute the desired map |
| SchedulerProcess.Scheduler.RefreshInstances | pkg/scheduler/scheduler.go:135-155 | the refresh arm meets the set specification on the fields: keys, counter, and exactly which worker objects are cancelled |
| SchedulerProcess.RefreshListsOnce | pkg/scheduler/scheduler.go:124-155 | a refresh makes exactly its one listing, under every interleaving, and takes nothing from the channel |
| SchedulerProcess.Scheduler.SelectOnce | pkg/scheduler/scheduler.go:123-165 | one select: a listing is refreshed with, a report that is there is received and its key deleted, and the loop is left iff there is a signal or the done arm finds the context done |
| SchedulerProcess.Scheduler.SelectLoop | pkg/scheduler/scheduler.go:122-166 | of the arms it goes through, the listings are exactly those of the timer arms in order; a report that was there is received by the first arm for it; a signal always leaves the loop, a done arm does once the context is done, and nothing else does; then the root context is cancelled |
| SchedulerProcess.Scheduler.DrainLoop | pkg/scheduler/scheduler.go:107-120 | the drain ends iff no key is left, before that goes through all arms, receives a report that was there at the first arm for it, and lists nothing |
| SchedulerProcess.Scheduler.Run | pkg/scheduler/scheduler.go:92-120 | what it lists are the listings of the arms it goes through; if it returns, the fields are empty, every worker has exited with a clean log, and nothing can happen any more |
| WorkerLog.ErrorCountIsFailingSuffix | pkg/scheduler/scheduler.go:256-258 | at the select the error count is the number of collections that failed since the last success, and below the limit |
| WorkerLog.GivesUpExactly | pkg/scheduler/scheduler.go:256-278 | a worker with a collector has left its loop iff it saw cancellation or the failing suffix reached maxRetries + 1 |
| WorkerLog.EmitsWhatItCollects | pkg/scheduler/scheduler.go:285-289 | the emitted envelopes are those of all successful collections in order, short of what is still being emitted |
| WorkerLog.ClosesOnce | pkg/scheduler/scheduler.go:216-233 | a collector is closed at most once, used only between creation and close, and closed before the report; an exited worker closed what it created |
| WorkerProcess.OwnIsLogged | pkg/scheduler/scheduler.go:285-289 | however the workers interleave at the shared emitter, what it got from each is what that worker's log says |
| WorkerProcess.OthersKeepWorker | pkg/scheduler/scheduler.go:216-297 | no run of the main loop and the other workers moves a running worker or writes to its log |
| WorkerProcess.CollectorWorker.BackOff | pkg/scheduler/scheduler.go:256-278 | a failure counts up and either sets the timer as the history calls for or gives up, the latter iff the count exceeds maxRetries; nothing is emitted |
| WorkerProcess.CollectorWorker.EmitAll | pkg/scheduler/scheduler.go:279-292 | a success emits all metrics in order under the worker's GUID, with other workers emitting in between, resets the count and sets the timer |
| WorkerProcess.CollectorWorker.Iterate | pkg/scheduler/scheduler.go:243-295 | one turn of the select loop: it stops iff it takes the arm of a context that is done or fails once too often; the outcome it adds, what it emits, and where it leaves the worker |
| WorkerProcess.CollectorWorker.Loop | pkg/scheduler/scheduler.go:242-296 | of the arms it goes through, it collects once per timer arm with that outcome and emits all metrics these return in order; it goes through all arms unless it stops, and a done arm stops it if the context is done |
| WorkerProcess.CollectorWorker.Report | pkg/scheduler/scheduler.go:217 | the deferred send uses a channel that has room at once, and otherwise leaves the worker waiting |
| WorkerProcess.CollectorWorker.Run | pkg/scheduler/scheduler.go:216-297 | the goroutine takes the protocol's steps of this worker under any interleaving; it collects and emits what the arms it goes through call for; its collector is open exactly while the log holds it; and it reports its own id |
| Backoff.BurstWaits | pkg/scheduler/scheduler.go:258-268 | the waits of a failing burst are retryInterval * 4^k for k = 1..n |
| Backoff.BurstTotal | pkg/scheduler/scheduler.go:258-268 | they add up to retryInterval * (4^(n+1) - 4) / 3 |
| Backoff.SuccessWait | pkg/scheduler/scheduler.go:290-291 | after a success the wait is the collect interval in seconds |
| Backoff.FailureWait | pkg/scheduler/scheduler.go:256-278 | after n + 1 failures in a row the wait is retryInterval * 4^(n+1) milliseconds, or none if that is more than maxRetries |
| Backoff.WaitsFitInt64 | pkg/config/config.go:37-40 | within the configured ranges every wait in nanoseconds fits a signed 64-bit integer, after any history |
| SqlTables.FillIsLastWins | pkg/collector/sql_collector.go:283-288 | a map filled from columns has exactly their names, each with its last datum |
| SqlTables.TagsMeaning | pkg/collector/sql_collector.go:218-222 | the tags are the given columns with their last text, and source is always sql |
| SqlTables.ColumnErrorIffSomeRow | pkg/collector/sql_collector.go:144-164 | a column query fails iff some row lacks its column names, columns, conversions or a key |
| SqlTables.ColumnRowLookup | pkg/collector/sql_collector.go:151-163 | a metric has the number of the last value column of its name, and the other columns as tags |
| SqlTables.ColumnMetricsRowMajor | pkg/collector/sql_collector.go:143-166 | on success the output has rows times metrics entries in row-major order, all with source sql |
| SqlTables.EveryValueReportedOnce | pkg/collector/sql_collector.go:136-167 | if the metric keys are distinct, success forces the value columns to be a duplicate-free permutation of the keys, and every value read is reported under its own column's name |
| SqlTables.ReadingsAreLookups | pkg/collector/sql_collector.go:224-227 | a key has a reading iff it is the lower-cased name of some row, and it is that of the last such row |
| SqlTables.RowMetricsAreLookups | pkg/collector/sql_collector.go:230-242 | a metric has the value and the tags of the last row of its lower-cased name |
| SqlTables.RowOrderDoesNotMatter | pkg/collector/sql_collector.go:185-245 | when all rows can be read and lower-cased names are distinct, permuting the rows changes neither the metrics nor the error of a row query |
| SqlMeaning.ColumnRowFitsIff | pkg/collector/sql_collector.go:144-164 | a row of a column query can be translated iff its columns can be named, there are enough of them, the first cells are numbers and the others texts, and every key is one of the first columns |
| SqlMeaning.RowFitsIff | pkg/collector/sql_collector.go:192-222 | a row of a row query can be read iff its columns can be named, there are two at least, and its cells are a text, a number and texts |
| SqlMeaning.ColumnMetricsMeaning | pkg/collector/sql_collector.go:136-167 | entry i * metrics + j of a column query has key and unit of metric j, time 0, the number of row i in the last value column of that name, and the texts of the other columns as tags |
| SqlMeaning.RowMetricsMeaning | pkg/collector/sql_collector.go:230-244 | entry j of a row query has key and unit of metric j, time 0, and the number and tag texts of the last row whose lower-cased name is that key |
| SqlCollector.Scan | pkg/collector/sql_collector.go:267-281 | a scan succeeds iff every cell converts, and then the buffers hold the row |
| SqlCollector.GetRowDataAsMaps | pkg/collector/sql_collector.go:254-291 | which error, if any, and otherwise the value and tag maps |
| SqlCollector.ColumnGetMetrics | pkg/collector/sql_collector.go:136-167 | the metrics of all rows, or the first error and no metrics |
| SqlCollector.RowGetMetrics | pkg/collector/sql_collector.go:185-245 | the first read error, or the metrics up to the first missing key with an error, or all metrics in the order requested |
| SqlCollector.RowQueryFindsAll | pkg/collector/sql_collector.go:230-234 | no key is missing iff every key is the lower-cased name of some row |
| SqlCollector.RowQueryOrderDoesNotMatter | pkg/collector/sql_collector.go:185-245 | under the same conditions permuting the rows changes neither whether the query succeeds nor what it returns |
| SqlCollector.SucceedsIffFits | pkg/collector/sql_collector.go:91-97 | a query succeeds iff it is answered, all its rows fit and all its keys are there |
| SqlCollector.GetMetrics | pkg/collector/sql_collector.go:91-97 | a query of either kind succeeds iff it fits, and then its metrics are those that the cells of its answer say, each in its place |
| SqlCollector.Collect | pkg/collector/sql_collector.go:84-101 | all or nothing: iff the ping works and every query fits, the result is the answers of all queries, each at the sum of the lengths before it; otherwise an error and no metrics |
| Strings.FieldsAtSpace | fork/pq-timeouts/driver.go:38 | a string is split at each of its white-space characters |
| Strings.SpacesAre | fork/pq-timeouts/driver.go:38 | blanks, tabs and line ends are white space, printable ASCII characters are not |
| Strings.JoinSnoc | fork/pq-timeouts/driver.go:59 | tokens are joined with single spaces |
| Strings.SplitRest | fork/pq-timeouts/driver.go:39 | a setting is split at each of its equals signs |
| Strings.TrimMeaning | fork/pq-timeouts/driver.go:41 | quotes are taken away at both ends, all of them and nothing else |
| Strings.AtoiOfSigned | fork/pq-timeouts/driver.go:42 | a number with a sign is read as such if it fits 64 bits |
| Strings.AtoiRejects | fork/pq-timeouts/driver.go:42-45 | any other character than digits and a leading sign is an error |
| Strings.FieldsOfJoin | fork/pq-timeouts/driver.go:38-59 | splitting on white space undoes joining tokens with spaces |
| ConnectionSettings.TimeoutsAre | fork/pq-timeouts/driver.go:39-48 | a setting is a timeout iff its name up to the first equals sign is read_timeout or write_timeout, and its value is missing iff there is no such sign |
| ConnectionSettings.TimeoutAsWritten | fork/pq-timeouts/driver.go:39-53 | a whole number of milliseconds, quoted or not, is read as its 64-bit duration, which is as long as written iff the nanoseconds fit |
| ConnectionSettings.TimeoutTooLarge | fork/pq-timeouts/driver.go:41-44 | a number from 2^63 on is an error |
| ConnectionSettings.TimeoutVanishesIff | fork/pq-timeouts/driver.go:45 | a duration is zero, and so no timeout, iff the milliseconds are a multiple of 2^58 |
| ConnectionSettings.ProcessMeaning | fork/pq-timeouts/driver.go:38-57 | the settings parse iff every timeout value is readable; then exactly the other tokens are kept in order and each timeout is its last occurrence or zero |
| ConnectionSettings.PanicExactly | fork/pq-timeouts/driver.go:39-48 | the loop panics iff the first unreadable timeout has no equals sign |
| ConnectionSettings.ProcessIsIdempotent | fork/pq-timeouts/driver.go:38-57 | processing what was kept keeps all of it and finds no timeout |
| ConnectionSettings.PassedOnAsTokens | fork/pq-timeouts/driver.go:54-59 | the tokens of the string passed on are exactly the tokens kept |
| ConnectionSettings.OpenPassesOnTheRest | fork/pq-timeouts/driver.go:23-68 | what Open passes on is what it kept of the resolved settings |
| ConnectionSettings.ReopeningIsStableIff | fork/pq-timeouts/driver.go:23-68 | opening the output again changes nothing and finds no timeout, for every treatment of URLs, iff its first token does not look like a URL |
| ConnectionSettings.HiddenUrl | fork/pq-timeouts/driver.go:31-36 | every URL with a space before it is a case where that fails |
| ConnectionSettings.ProcessSettings | fork/pq-timeouts/driver.go:26-57 | the loop computes the kept tokens, the timeouts, the value errors and the panic |
| ConnectionSettings.UrlsAreParsed | fork/pq-timeouts/driver.go:31-36 | a string that begins with postgres:// or postgresql:// is parsed as a URL first, and an error of that is the result |
| ConnectionSettings.OthersAreNotParsed | fork/pq-timeouts/driver.go:31-38 | any other string is taken as it is |
| ConnectionSettings.OpenMeaning | fork/pq-timeouts/driver.go:23-68 | in terms of the settings that a string stands for: Open dials iff every timeout is readable, passing on the other tokens joined and each timeout's last value |
| ConnectionSettings.OpenPanicsIff | fork/pq-timeouts/driver.go:39-48 | Open panics iff the first unreadable timeout has no equals sign |
| ConnectionSettings.Open | fork/pq-timeouts/driver.go:23-68 | the code computes the result that these lemmas describe |
| TimeoutConn.Conn.Read | fork/pq-timeouts/conn.go:22-36 | the calls a read makes on the inner connection, and the error when it is gone |
| TimeoutConn.Conn.Write | fork/pq-timeouts/conn.go:38-52 | likewise for a write |
| TimeoutConn.Conn.CloseConn | fork/pq-timeouts/conn.go:54-64 | only a successful close drops the connection |
| TimeoutConn.Conn.PassOn | fork/pq-timeouts/conn.go:66-99 | address queries and deadline setters are passed on while there is a connection |
| TimeoutConn.Conn.ServeAll | fork/pq-timeouts/conn.go:22-99 | what the inner connection sees over any sequence of calls, and when the connection is gone |
| TimeoutConn.EveryRequestGetsThrough | fork/pq-timeouts/conn.go:22-99 | for all timeouts, every transfer, close, address query and common deadline that is asked for before the first successful close gets through, once, in order and as asked |
| TimeoutConn.DeadlinesAsAsked | fork/pq-timeouts/conn.go:22-99 | the deadline calls of one direction are exactly those asked for and two around each timed transfer |
| TimeoutConn.EveryTransferIsTimed | fork/pq-timeouts/conn.go:24-32 | with a timeout, every transfer of any call sequence comes between the call that sets its own deadline and the one that clears it; each takes effect iff it succeeds, and otherwise what was in force stays |
| TimeoutConn.OwnDeadline | fork/pq-timeouts/conn.go:24-32 | so if no setter fails every transfer runs under its own deadline and leaves none behind |
| TimeoutConn.WithoutTimeoutUntouched | fork/pq-timeouts/conn.go:24-32 | with no timeout, the deadline in force after any call sequence is the one the client last set with success |
| TimeoutConn.NothingAfterClose | fork/pq-timeouts/conn.go:54-64 | after the first successful close the inner connection is never touched again |
| TimeoutConn.Dial | fork/pq-timeouts/dialer.go:15-43 | a connection is wrapped iff it is good and some timeout is set; everything else is handed on as dialled |
| BrokerInfo.GuidRoundTrip | pkg/brokerinfo/rdsbrokerinfo.go:118-124 | GUID to identifier and back is the identity iff the GUID has no underscore |
| BrokerInfo.IdentifierRoundTrip | pkg/brokerinfo/rdsbrokerinfo.go:118-124 | identifier to GUID and back is the identity iff it has the normalised prefix and no underscore after it |
| BrokerInfo.IdentifierSpelled | pkg/brokerinfo/rdsbrokerinfo.go:118-120 | an identifier is, character by character, the prefix, a hyphen and the GUID, with hyphens for underscores |
| BrokerInfo.GuidSpelled | pkg/brokerinfo/rdsbrokerinfo.go:122-124 | the GUID is what follows the prefix and the hyphen, or else the whole identifier |
| BrokerInfo.SameGuidExactly | pkg/brokerinfo/rdsbrokerinfo.go:122-124 | two identifiers have the same GUID iff they are equal or one is unprefixed and the other is the prefix followed by it |
| BrokerInfo.UnprefixedCollision | pkg/brokerinfo/rdsbrokerinfo.go:122-124 | an identifier without the prefix shares its GUID with a prefixed one |
| BrokerInfo.ListInstances | pkg/brokerinfo/rdsbrokerinfo.go:37-58 | the loop lists the databases of supported engines in order; an error comes with an empty list |
| BrokerInfo.ListedOneByOne | pkg/brokerinfo/rdsbrokerinfo.go:46-56 | a described database adds its GUID and engine to the end of the list iff the engine is postgres or mysql |
| BrokerInfo.ListedComesFrom | pkg/brokerinfo/rdsbrokerinfo.go:46-56 | every listed instance is a described database of a supported engine |
| BrokerInfo.SupportedIsListed | pkg/brokerinfo/rdsbrokerinfo.go:46-56 | every described database of a supported engine is listed |
| BrokerInfo.ListedGuidsDistinctIff | pkg/brokerinfo/rdsbrokerinfo.go:46-56 | the listed GUIDs are distinct iff no two supported databases have equal identifiers, or one of two is unprefixed and the other is the prefix followed by it |
| BrokerInfo.TwoWorkersPerInstance | main.go:135-137 | with main's drivers n database instances call for at most 2n workers, exactly 2n iff their GUIDs are distinct: a CloudWatch one and the engine's SQL one each, and no others |
| BrokerInfo.TwoWorkersPerDatabase | pkg/brokerinfo/rdsbrokerinfo.go:46-56 | whatever the broker describes, there are two workers per supported database iff no two of these clash |
| Wiring.MainRegisters | main.go:135-137 | registering main's three drivers, with their names and types, one by one gives that registry |
| Wiring.FirstRefreshStartsTwoEach | pkg/scheduler/scheduler.go:135-155 | a first refresh under any interleaving leaves two workers per supported database iff no two of these clash; the counter is the number of workers in any case |
| Wiring.EngineChangeIsMissed | pkg/scheduler/scheduler.go:145-149 | with main's drivers a database that is listed under another engine can keep a CloudWatch worker that holds the first listing's instance |
| Wiring.UnwrappedIff | fork/pq-timeouts/pq-timeouts.go:32-34 | what the network dials is handed on as it is iff it is no good connection or, for each timeout, the last setting is zero if there is one |
| Wiring.NoTimeoutsNoWrapper | fork/pq-timeouts/pq-timeouts.go:32-34 | without timeout settings all tokens are passed on and the network's connection is handed on unwrapped |
| Wiring.TimeoutReachesEveryTransfer | fork/pq-timeouts/pq-timeouts.go:28-34 | if the last setting of a timeout, in a URL of either scheme or a plain string, is a positive number of milliseconds whose nanoseconds fit 64 bits, every good connection is wrapped and every transfer in that direction, over any call sequence, is timed by exactly that long |

## Left out

- Memory-model effects below the granularity of the protocol's labels, each of which is one atomic action.
- SchedulerProcess.Scheduler.SelectLoop: runs for any finite choice of select arms, so a loop that never ends is covered by its finite prefixes; the same holds of DrainLoop, Run and the worker's Run.
- SchedulerProcess.Scheduler.OthersRun: stands for preemption; its body does nothing and callers rely on its contract alone. The same holds of WorkerProcess.Shared.OthersRun.
- WorkerProcess.CollectorWorker.Report: waits for a finite number of turns of the other goroutines; a worker that waits longer is left waiting.
- WorkerProcess.CollectorWorker.Iterate: a select that would take the arm of a context that is not done waits for one turn of the other goroutines instead.
- Drain.DrainNeverBlocks: takes it that calls to NewCollector, Collect and Close return; a call that hangs is not modelled.
- Convergence.ConvergenceIsReachable: says that the cancelled workers can leave, without assuming anything about scheduling; that they do leave under fair scheduling is Fairness.RefreshesMustConverge.
- Fairness.RefreshesMustConverge: a select may prefer a ready timer to a context that is done again and again, so a cancelled worker whose collections succeed for ever is possible and is the exception named in the contract; how unlikely Go's random choice makes it is not modelled.
- Backoff.BurstWaits: powers of four are exact integers; the floating-point power of the code is exact for the exponents the configuration admits.
- SqlTables.WellFormed: every delivered row has as many cells as there are columns, as database/sql guarantees; an error after the last delivered row is not consulted by the code and not modelled.
- SqlTables.Cell: values are mathematical reals, not float64.
- TimeoutConn.Conn.Serve: calls are made one at a time; concurrent reads and writes on one connection are not modelled.
- CloudWatchCollector.Collect: API calls around a library sort. What matters to the scheduler is that neither it nor NewCollector returns an error; the drain and convergence results hold for every choice of what the calls return, this one included.
- GetInstanceConnectionDetails, connection-string builders and the master password: plumbing around foreign libraries.
- ListIntanceGUIDs: only used for a log message.
- utils.WithTimeout and RandomString: not called by the program.
- Loading and validating the configuration, except for the ranges in `Backoff.InConfigRanges`.
- Logging, the loggregator emitter, the lock runner and the process group of main.
- Calling Stop before Run, or registering drivers during Run.
