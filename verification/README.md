# A verified model of the telemetry pipeline

The pipeline has three processes' worth of logic. A generator publishes a CSV document of
switch telemetry. A polling client fetches it, skips what it has already ingested, parses
it, registers the switches it names and hands the records to a service. The service keeps
them in a hybrid store: a cache with the last record of every switch, and an append-only
database behind it. Reads go to the cache, directly or through a bounded request queue
with workers. The configuration is a nested YAML map flattened to dotted keys.

`dafny verify dfyconfig.toml` checks everything.

## How the model is laid out

| file | what it holds |
|---|---|
| `Models.dfy`, `Decimal.dfy`, `Csv.dfy` | records, number printing and parsing, the CSV document and its reader |
| `Generator.dfy` | the generator object: drawing, printing and the two steps of publishing |
| `Reads.dfy` | direct reads over whole histories: which record is read, and how the three kinds of read agree |
| `Cache.dfy` | the cache object, its operations as functions, and laws of whole histories |
| `Batches.dfy`, `WritePath.dfy` | the write path as a step machine, and the invariant of every run |
| `WriteLaws.dfy`, `WriteCounters.dfy` | conservation, order, retries and counters |
| `Shutdown.dfy`, `GracefulStop.dfy` | what a stop of the store can lose, and exactly when it loses nothing |
| `LastWritten.dfy` | the last record of a switch in the database log, and who can still write one behind it |
| `CacheAndLog.dfy`, `CachedLast.dfy` | callers that update the cache and only then the channel or, in bulk, the database: when cache, channel and database agree |
| `HybridStore.dfy`, `WriteRefinement.dfy` | the store object, and why its writer is a run of the machine |
| `Service.dfy`, `Client.dfy` | direct service calls and the polling client, as objects |
| `EndToEnd.dfy`, `Pipeline.dfy` | generator, client and write path interleaved in one machine; documents from draw to database |
| `RequestQueue.dfy`, `QueueLaws.dfy` | the request queue as a step machine, and what holds in every run |
| `QueueTimes.dfy` | queued answers placed in time by the steps of a run; a full buffer and none |
| `QueueStop.dfy` | which requests a stop of the queue answers for certain, and which calls panic |
| `QueuedReads.dfy`, `QueuedService.dfy`, `QueueRefinement.dfy` | queued reads against direct reads; the queue and its service as objects; why a call of the objects is a run of the machine |
| `SysConfig.dfy` | flattening and the configuration object |

Concurrency is modelled by step machines. One step is one lock region, one channel
operation, one repository call or one unlocked field write; a run is any interleaving of
steps. `Enabled` says when a step is possible, `Next` what it does, and a state is
`Reachable` if some run leads to it. Fields that the program does not have (who took a
batch, how often a reply was sent, which state of the store a reply was computed from) are
kept as history, so that statements about whole runs can be made about one state. The same
code is also modelled as classes whose methods loop and assign as the source does; what
happens around such a method (which store calls succeed, when a context ends, how far the
workers come and how the store changes during a wait, in which order a map is visited) is a
parameter of it. For the retrying
writer and for a queued call the two views are connected: each call of the object is a run
of the machine.

## Assumptions

- The repository is atomic and truthful: a store call either appends all records, in
  order, and reports success, or appends nothing and reports failure. A record whose
  switch is not registered makes the call fail. "Latest" is a record of the switch with
  the greatest timestamp.
- Instants are integers (nanoseconds), with the program's zero instant as 0. How an
  instant is written is a parameter, `TimeCodec`. `GoodCodec` asks of it that printable
  instants are read back unchanged and contain no comma, quote or line end
  (section 2 of RFC 4180, section 5.6 of RFC 3339); `Csv.DecimalCodecIsGood` shows
  that the requirement can be met.
- In `EndToEnd`, publishing times strictly increase and are not zero. Everything else
  there is unrestricted: the documents' text, when polls fetch, which fetches and store
  calls fail.
- Metrics in transit are the fixed-point numbers that the generator prints, as exact reals.

## Claims that do not hold

Each of these reads like a promise of the code or of its comments. What holds instead is
proved.

- *A graceful stop completes the remaining processing*
  (`internal/telemetry/storage/hybrid.go:170`). After the context is cancelled the main
  select may still take a batch, and the writer then gives up at once.
  `GracefulStop.StopWritesAcceptedIff` gives the exact condition on the state in which Stop
  is called: the channel is empty, and every batch taken from it has been written or lost
  already. A store call under way is not enough: Stop itself cancels its context
  (`internal/telemetry/storage/hybrid.go:171`). `GracefulStop.StopWritesAllIff` gives the
  exact runs: those in which every writer under way at the stop commits and the main select
  takes nothing after it.
- *The generator updates its cache atomically* (`cmd/generator/main.go:170`). The
  generation ID changes before the data. `EndToEnd.WrongSkipIffStampedEarly` says
  exactly which document this can lose, `EndToEnd.WrongSkipHappens` that it can.
- *`pendingFlushItems` counts pending items*
  (`internal/telemetry/storage/hybrid.go:111`). `WriteCounters.CountersAtRest` gives its
  value, `WriteCounters.PendingMayBeNegative` a run that makes it negative.
- *The cache holds the latest telemetry data*
  (`internal/telemetry/storage/cache.go:15`). It holds the last to arrive:
  `Cache.EntryIsLastWrite`. `Cache.LiveStaysNewest` says after which calls that is a newest
  record: those whose last record of the switch is not older than any before it.
  `Cache.RecoveryIsNewer` compares it with the reloaded record, and
  `Pipeline.DocumentGoesBackwards` shows that the generator can make it an older one.
- *The cached record is the last one of its switch in the database.* Two callers can pass
  each other between cache and channel: `CachedLast.TwoCallersDisagree`. With one caller at
  a time for each switch, `CacheAndLog.AgreeIffLastSent` says exactly when the last call is
  also the last accepted one. Once that call is written, nothing of the switch stands behind
  it if it went through the channel (`CachedLast.ChannelLastIsLast`). A bulk call overtakes
  the channel: `CachedLast.StaysLastIff` gives the exact condition under which a last call of
  either kind stays last.
- *A call after the queue has stopped gets an error.* In every run a call panics exactly if
  the channel was closed before it: `QueueStop.PanicsIffClosedBefore`.
- *Stopping the queue answers what it accepted.* It does in every run exactly if the
  buffer is empty when Stop is called: `QueueStop.StopAnswersAllIff`, and for each request
  `QueueStop.StopAnswersIffTaken`.
- *A queued read of a metric is a direct read.* An entry evicted in between leaves the
  arrival time zero: `QueuedReads.QueuedMetricAgreesIff`, `QueuedReads.EvictedBetweenReads`.
- *Integers in the configuration file override defaults.* They read as zero:
  `SysConfig.IntegersReadAsZero`.
- *Flattening does not depend on the order in which a map is visited.* It does as soon as
  two leaves share a dotted key: `SysConfig.OrderMattersIffClash`.

## Model

| member | source | states |
|---|---|---|
| `WritePath.StepKeepsInvariant` | internal/telemetry/storage/hybrid.go:211-570 | no step of producers, flush worker, manual flushes, bulk writers or shutdown breaks the link between accepted batches, the jobs that hold them, the database log and the counters |
| `WritePath.RunKeepsInvariant` | internal/telemetry/storage/hybrid.go:115-133 | starting from an empty store, the invariant holds after every interleaving of any length |
| `WriteLaws.Conservation` | internal/telemetry/storage/hybrid.go:219-228 | at every moment each accepted batch is in exactly one of: channel, in flight, written, lost |
| `WriteLaws.WrittenOnce` | internal/telemetry/storage/hybrid.go:525-548 | a batch is in the database log at most once, inside the one chunk of the one writer that took it |
| `WriteLaws.CommitsOnce` | internal/telemetry/storage/hybrid.go:540-548 | a writer call commits at most one chunk and reports success on a non-empty payload exactly if it committed |
| `WriteLaws.WrittenInOrder` | internal/telemetry/storage/hybrid.go:437-475 | while only the flush worker drains the channel, batches appear in the database in acceptance order |
| `WriteLaws.RetriesBounded` | internal/telemetry/storage/hybrid.go:525-563 | in no interleaving does a call make more than max(0, MaxRetries) store calls; a cancelled call has made fewer, a failed one exactly as many, a successful one at least one |
| `WriteLaws.FirstHundredAccepted` | internal/telemetry/storage/hybrid.go:130 | while nobody takes anything, exactly the first hundred batches enter the channel and the others are dropped |
| `WriteCounters.CounterLaw` | internal/telemetry/storage/hybrid.go:221-224 | in every run, pending items plus written items equal the items counted when their batches were enqueued |
| `WriteCounters.CountersAtRest` | internal/telemetry/storage/hybrid.go:540-545 | at rest the write counter is the number of database rows, and the pending counter is queued plus dropped minus bulk-written items |
| `WriteCounters.PendingMayBeNegative` | internal/telemetry/storage/hybrid.go:283 | one bulk call drives the pending counter below zero |
| `WriteCounters.ErrorsCounted` | internal/telemetry/storage/hybrid.go:565-567 | in every run the error counter is the number of writers that ran out of attempts; cancelled ones are not counted |
| `Shutdown.CommitDecided` | internal/telemetry/storage/hybrid.go:525-531 | a writer at the head of its loop can still commit exactly if an attempt is left and its context is alive |
| `Shutdown.TakenAfterStopIsLost` | internal/telemetry/storage/hybrid.go:471-472 | some continuation writes a batch taken in the main select exactly if an attempt is allowed and the store has not been stopped; taken after the stop, none does |
| `Shutdown.DrainedInTime` | internal/telemetry/storage/hybrid.go:443-469 | some continuation writes a batch taken by the shutdown drain exactly if an attempt is allowed and the drain's timeout has not fired |
| `Shutdown.StopMayLoseABatch` | internal/telemetry/storage/hybrid.go:163-207 | an accepted batch that can be written when taken before the stop cannot when the main select takes it after |
| `Shutdown.DrainMayLeaveABatch` | internal/telemetry/storage/hybrid.go:458-462 | some run ends with the worker gone after its timeout and an accepted batch still in the channel |
| `Shutdown.DrainMayTakeTooLate` | internal/telemetry/storage/hybrid.go:450-458 | in some run the drain takes a batch after its timeout and loses it |
| `GracefulStop.StopWritesAcceptedIff` | internal/telemetry/storage/hybrid.go:163-207 | everything accepted before Stop and not yet lost is written by the worker's return, in every run in which nothing but the stop goes wrong, exactly if at the call the channel is empty and each batch taken from it is written or lost already |
| `GracefulStop.StopWritesAllIff` | internal/telemetry/storage/hybrid.go:441-475 | in such a run everything accepted until the worker returns is written exactly if each writer under way at the stop commits and the main select takes nothing after it, whatever failed or was flushed before |
| `HybridStore.HybridStore.WriteToDatabase` | internal/telemetry/storage/hybrid.go:519-570 | the payload is committed once or not at all, and the counters follow; the number of store calls and the seconds of backoff are exact for each result; a database in which every record names a registered switch stays so |
| `HybridStore.WriteOutcome` | internal/telemetry/storage/hybrid.go:525-563 | success exactly if every record names a registered switch and the first accepted attempt is within MaxRetries and begins before the context ends; else cancellation exactly if the context ends by the last check; a context that ended before the first attempt always cancels |
| `HybridStore.BackoffsTotal` | internal/telemetry/storage/hybrid.go:551-560 | after n failed attempts n(n+1)/2 seconds of backoff have been asked for |
| `HybridStore.HybridStore.UpdateMetrics` | internal/telemetry/storage/hybrid.go:212-232 | the cache always takes the record; it is queued, and counted, exactly if the channel has room |
| `HybridStore.HybridStore.UpdateBatch` | internal/telemetry/storage/hybrid.go:235-263 | one listing of the keyed records, in some order, is queued as one batch if there is room, and counted record by record |
| `HybridStore.HybridStore.StoreMetricsBulk` | internal/telemetry/storage/hybrid.go:266-284 | the cache ends as if updated record by record in list order; the database gets all records, in order, or none; all counters follow |
| `HybridStore.HybridStore.FlushToDatabase` | internal/telemetry/storage/hybrid.go:342-369 | empties the channel and writes everything in acceptance order with one call, or loses it all; each counter changes by exactly what was written or failed |
| `HybridStore.HybridStore.LoadFromDatabase` | internal/telemetry/storage/hybrid.go:372-400 | every switch that was read and is in the log ends with a latest record of it, every other entry stays as it was, whichever reads fail |
| `HybridStore.Repository.StoreMetrics` | internal/telemetry/storage/repository.go:283-349 | appends all records in order or nothing, and says which |
| `HybridStore.Repository.GetLatestMetrics` | internal/telemetry/storage/repository.go:170-201 | a record of the switch with the greatest timestamp, if the switch has one |
| `WriteRefinement.SequentialCallIsARun` | internal/telemetry/storage/hybrid.go:519-570 | for every kind of caller, every pattern of failures and every moment of cancellation the machine has a run of the call alone with the result, log and counters of the sequential writer |
| `Cache.InMemoryCache.UpdateMetrics` | internal/telemetry/storage/cache.go:30-49 | files a copy under the given ID, fills in a missing timestamp, refuses an empty ID, leaves other entries alone |
| `Cache.InMemoryCache.UpdateBatch` | internal/telemetry/storage/cache.go:52-78 | the whole batch is filed with one clock reading, the empty ID skipped, whatever the visiting order |
| `Cache.InMemoryCache.GetMetric` | internal/telemetry/storage/cache.go:81-96 | reads one metric of the filed record; a hit is counted exactly if the switch is known |
| `Cache.InMemoryCache.GetAllMetrics` | internal/telemetry/storage/cache.go:99-115 | returns the filed record or not-found, and changes no entry |
| `Cache.InMemoryCache.ListAllSwitches` | internal/telemetry/storage/cache.go:118-136 | a copy of the whole table, whatever the visiting order |
| `Cache.InMemoryCache.GetLastUpdate` | internal/telemetry/storage/cache.go:147-155 | the arrival time, or the zero instant for an unknown switch |
| `Cache.InMemoryCache.CleanupStale` | internal/telemetry/storage/cache.go:158-174 | removes exactly the entries that arrived before the cutoff, counts them, and leaves all others unchanged |
| `Cache.BulkIsSequential` | internal/telemetry/storage/hybrid.go:271-280 | keeping only the last record of each switch and filing the batch equals filing every record in list order |
| `Cache.ReplayConsistent` | internal/telemetry/storage/cache.go:45-46 | after any history both maps have the same keys and every record's ID is its key |
| `Cache.EntryIsLastWrite` | internal/telemetry/storage/cache.go:30-78 | after any history an entry exists exactly if a write survives, and it is the last record for the switch since its last eviction |
| `Reads.ReadsLastWrite` | internal/telemetry/storage/cache.go:81-115 | after any history every read of a switch, of one metric or of all, returns the last record written since its last removal, with its arrival time or the current one; without such a record, not found |
| `Reads.ReadYourWrite` | internal/telemetry/storage/cache.go:30-49 | a record is read back as it was written, metric by metric, with its own timestamp or the one filled in, and no other switch reads differently |
| `Reads.MetricIsMapEntry` | internal/telemetry/service.go:121-155 | reading one metric gives the entry of that name of the switch's response map, and fails exactly if it is none of the five |
| `Reads.SwitchReadIsReportEntry` | internal/telemetry/service.go:158-202 | reading one switch gives exactly its entry of the report on all switches, which has one entry for each |
| `Reads.CallIsServed` | internal/telemetry/storage/hybrid.go:266-284 | after a bulk call every switch it names reads as its last record in the call |
| `CacheAndLog.FilingIsUpdate` | internal/telemetry/storage/cache.go:30-49 | what a one-record call files in this machine is what the cache's update files |
| `CacheAndLog.FilingIsBatch` | internal/telemetry/storage/hybrid.go:271-280 | what any other call files is what the cache's batch update files of the last records per switch |
| `CacheAndLog.CachedIsLastFiled` | internal/telemetry/storage/hybrid.go:211-284 | in every run of callers and evictions, bulk calls included, a cached record is the last one of its switch in the call that last named the switch, whatever has become of that call since |
| `CacheAndLog.AgreeIffLastSent` | internal/telemetry/storage/hybrid.go:212-284 | with one caller at a time per switch the last call for a switch is the last accepted one exactly if its send has succeeded: not if it is due, was dropped, or is a bulk call |
| `CachedLast.ChannelLastIsLast` | internal/telemetry/storage/hybrid.go:471-472 | and then, while only the flush worker drains, once it is written its chunk is exactly its records and no record of the switch, from a batch or a bulk call, stands behind it in the database |
| `CachedLast.StaysLastIff` | internal/telemetry/storage/hybrid.go:271-283 | a last call of either kind, written with nothing of the switch behind it, stays last in every run without a new call for the switch exactly if no record of the switch is in the channel or with a writer that can still commit |
| `CachedLast.TwoCallersDisagree` | internal/telemetry/storage/hybrid.go:214-221 | two callers for one switch can leave the second record in the cache and the first accepted last |
| `Cache.StalenessBound` | internal/telemetry/storage/hybrid.go:498-516 | with a cleanup every TTL and a clock that does not go back, no entry is ever 2*TTL old |
| `Cache.RecoveryIsExact` | internal/telemetry/storage/hybrid.go:372-400 | if timestamps increase per switch, reloading the database rebuilds exactly the records of the live cache |
| `Cache.RecoveryIsNewer` | internal/telemetry/storage/repository.go:176-177 | in any order of arrival, a reloaded record is at least as new as the live one, which is the last to arrive, and equally new exactly if no record of the switch that arrived before that one is newer |
| `Cache.LiveStaysNewest` | internal/telemetry/storage/hybrid.go:271-283 | after a bulk call the live record of a switch is a newest one exactly if the call's last record of the switch is not older than any before it in the call or the database; a call without one changes nothing |
| `Cache.LaterArrivalMayBeOlder` | internal/telemetry/storage/hybrid.go:271-275 | of two records of a switch that arrive newest first, the cache keeps the older one |
| `Csv.SplitJoin` | internal/telemetry/client/generator_client.go:516-522 | splitting at a separator undoes joining parts that do not contain it |
| `Csv.CsvRoundTrip` | internal/telemetry/client/generator_client.go:373-402 | parsing a printed document returns exactly its rows, in order; a document without rows is refused |
| `Csv.ParseDocument` | internal/telemetry/client/generator_client.go:373-402 | the loop keeps every row that parses, in order, and skips short or malformed ones |
| `Csv.ReadableIff` | internal/telemetry/client/generator_client.go:374-379 | a text is readable exactly if it has no quote and all its lines that are not blank have the same number of fields; then there is one record for each of them |
| `Csv.LineEndsDoNotMatter` | internal/telemetry/client/generator_client.go:374-379 | carriage returns at line ends and blank lines between lines change nothing |
| `Csv.RowsKeptInOrder` | internal/telemetry/client/generator_client.go:385-400 | each row that parses is kept in its place and every other one passed over |
| `Csv.FirstTimestamp` | internal/telemetry/client/generator_client.go:515-534 | the timestamp found by plain splitting is the one of the first row that the CSV reader finds |
| `Decimal.FixedRoundTrip` | internal/telemetry/client/generator_client.go:445-453 | a number printed with a fixed number of decimals is read back exactly, whatever its sign |
| `Decimal.FixedText` | cmd/generator/main.go:157-163 | a fixed-point number is printed as a sign if negative, digits, a point and exactly as many digits as it has places |
| `Decimal.PrintedExamples` | cmd/generator/main.go:126-163 | what the formats print, for concrete numbers |
| `Decimal.ParseFloatIff` | internal/telemetry/client/generator_client.go:445-448 | exactly the texts with an optional sign, digits and at most one point are read, as the number they show |
| `Decimal.SignsRead` | internal/telemetry/client/generator_client.go:445-463 | a plus sign changes nothing, a minus sign negates |
| `Decimal.ParseIntIff` | internal/telemetry/client/generator_client.go:455-458 | exactly the digits, after an optional sign, that fit 64 bits are read as integers |
| `Decimal.IntRoundTrip` | internal/telemetry/client/generator_client.go:455-458 | a printed integer is read back exactly if and only if it fits 64 bits |
| `Generator.SwitchNameInjective` | cmd/generator/main.go:126 | different switch numbers never print the same ID, and no ID is empty |
| `Generator.SwitchNameText` | cmd/generator/main.go:126 | a switch ID is `switch-` and the number with at least three digits |
| `Generator.GenerationNameInjective` | cmd/generator/main.go:201 | different generations never print the same ID, and none is empty |
| `Generator.GenerationNameText` | cmd/generator/main.go:201 | a generation ID is `gen_` and the number, which is read back if it fits 64 bits |
| `Generator.DrawsSuffice` | cmd/generator/main.go:118-154 | for any message counts of 1 to 100 all six draws of every message are in bounds |
| `Generator.DataGenerator.AppendSwitch` | cmd/generator/main.go:129-166 | the inner loop prints one row per message, advances the index by six for each, and never reaches the refill branch |
| `Generator.DataGenerator.DrawDocument` | cmd/generator/main.go:111-168 | the two loops print the header and every message of every switch in order, each from its own draws |
| `Generator.DocumentFollowsDraws` | cmd/generator/main.go:118-163 | row r of a document, message j of switch i, carries its ID, its stagger and its five metrics as its own six draws from 6r on decide them: rounded metrics within half a unit of the last printed place, errors and stagger cut to whole numbers |
| `Generator.RoundIsNearest` | cmd/generator/main.go:157 | printed metrics are rounded to the nearest number, ties to the even one |
| `Generator.DataGenerator.GenerateData` | cmd/generator/main.go:103-178 | afterwards generation ID, cache time and document all belong to the same instant |
| `Generator.DataGenerator.StampGeneration` | cmd/generator/main.go:108-109 | the first step of publishing changes the generation ID and leaves the served document alone |
| `Generator.DataGenerator.HandleCounters` | cmd/generator/main.go:185-208 | serves the published document with the current generation ID, or nothing before the first one |
| `Generator.FirstRowAtNow` | cmd/generator/main.go:139-141 | the first row of a document carries the publishing time itself |
| `Generator.DocumentGood` | cmd/generator/main.go:125-166 | every row of a document can be printed and read back, and none is earlier than the publishing time |
| `Generator.MetricsInRange` | cmd/generator/main.go:144-153 | every drawn metric, as printed, lies in the range the source comments give for it |
| `Generator.TimestampInRange` | cmd/generator/main.go:139-141 | message `j` of switch `i` is late by `100(i-1)` ms plus 10 to 49 ms per earlier message |
| `Pipeline.TimestampWithAndWithoutHeader` | internal/telemetry/client/generator_client.go:227-233 | a document's time is found with the header, and without it exactly if the document has a switch |
| `Pipeline.TimestampFallbackAgrees` | internal/telemetry/client/generator_client.go:227-241 | with the timestamp header, without it or with an unreadable one, the client decides the same in every state |
| `Pipeline.NoSwitchesNoFallback` | internal/telemetry/client/generator_client.go:230-233 | a generator without switches is the exception: some client state skips with the header and not without |
| `Pipeline.DocumentSwitches` | internal/telemetry/client/generator_client.go:405-435 | a generated document registers exactly the generator's switches, once each, in order |
| `Pipeline.DocumentArrives` | internal/telemetry/client/generator_client.go:243-257 | every row that was drawn reaches the database call unchanged and in order |
| `Pipeline.ColumnsAreServed` | internal/telemetry/client/generator_client.go:437-480 | the columns named in the header are the entries of the response map, and each serves under its name what was printed below that name |
| `Pipeline.DocumentIsServed` | internal/telemetry/client/generator_client.go:215-273 | once a document is ingested, every read of a switch returns its last message in the document, which follows its own draws |
| `Pipeline.DocumentGoesBackwards` | cmd/generator/main.go:139-141 | for concrete draws a generated document goes backwards in time within a switch and leaves the older record in the live cache |
| `Client.DistinctIdsOrder` | internal/telemetry/client/generator_client.go:407-418 | registration names every non-empty switch ID of a batch exactly once, in order of first appearance |
| `Client.RegistrationCovers` | scripts/migrations/001_create_telemetry_tables.sql:16 | the registered switches are exactly those that the ingested records reference |
| `Client.GeneratorClient.RegisterSwitches` | internal/telemetry/client/generator_client.go:405-435 | if all registrations succeed, every record that will be ingested meets the foreign key |
| `Client.GeneratorClient.PollAndIngest` | internal/telemetry/client/generator_client.go:204-212 | a poll ends in exactly one counted outcome; it succeeds, given the registrations, exactly if there is nothing to write or the store commits, and the database then holds exactly the document's valid records in addition; the cache takes them whether the store commits or not, and nothing otherwise |
| `Client.GeneratorClient.FetchAndProcessData` | internal/telemetry/client/generator_client.go:215-273 | a failed, skipped or refused poll leaves the remembered generation and timestamp; a success replaces both by the reply's |
| `Client.PollsBalance` | internal/telemetry/client/generator_client.go:204-273 | after any sequence of polls each counter is the number of polls that ended its way, and the total is their sum |
| `Client.ConsecutiveSuccesses` | internal/telemetry/client/generator_client.go:482-497 | in every run of polls, whatever was fetched, the later of two consecutively ingested replies carried no timestamp or a strictly newer one, and not the same generation |
| `Client.SkippedIffSeen` | internal/telemetry/client/generator_client.go:482-497 | in every run a reply is skipped exactly if it repeats the generation of the last ingested reply or carries a timestamp that is not newer |
| `Client.EndsAsFetched` | internal/telemetry/client/generator_client.go:218-264 | in every run a poll without a reply is an error; an unskipped reply is an error if its document is unreadable, has no rows or names no switch, and a success if none of its rows parses |
| `EndToEnd.StepKeepsInvariant` | internal/telemetry/client/generator_client.go:215-273 | no step of generator, client or store breaks the link between published documents, polls, bulk calls and the database log |
| `EndToEnd.AtMostOnce` | internal/telemetry/client/generator_client.go:235-271 | over any interleaving, with torn publishing, a document's valid records are in the database log at most once, and unchanged |
| `EndToEnd.ExactlyOnceIffSucceeded` | internal/telemetry/client/generator_client.go:256-270 | unless a call carrying it is in progress, a document has a chunk in the log exactly if it has valid records and some poll of it succeeded |
| `EndToEnd.DocumentsInOrder` | internal/telemetry/client/generator_client.go:235-271 | over any interleaving, of two documents in the database log the one published first stands first |
| `EndToEnd.ChunkIsBlock` | internal/telemetry/storage/repository.go:331-346 | the records of one store call are one contiguous block of the database |
| `EndToEnd.WrongSkipIffStampedEarly` | internal/telemetry/client/generator_client.go:482-497 | a document newer than the last ingested is skipped exactly if the previous document was ingested under its generation ID |
| `EndToEnd.NoWrongSkip` | cmd/generator/main.go:108-109 | if the last success was fetched outside the publishing window, nothing newer is skipped |
| `EndToEnd.WrongSkipHappens` | cmd/generator/main.go:171-178 | for any two documents some run publishes both, ingests the first and is about to skip the second although it is newer |
| `EndToEnd.PollsAccounted` | internal/telemetry/client/generator_client.go:204-273 | in every run each counter is the number of polls that ended its way, each as its reply and the polls before it allow; successes are as many as the documents ingested; polls begun are those ended plus the one in progress |
| `EndToEnd.CallsAreNotCancelled` | internal/telemetry/service.go:109-112 | a call of the client that has returned has committed or used up its attempts |
| `Service.TelemetryService.IngestMetrics` | internal/telemetry/service.go:59-87 | an empty ID is refused without effect; otherwise the cache takes the record and it is queued if there is room |
| `Service.TelemetryService.IngestBatch` | internal/telemetry/service.go:90-118 | the named records go to the database together and in order, or not at all, and to the cache in either case; a batch without one is refused |
| `Service.TelemetryService.GetMetric` | internal/telemetry/service.go:121-155 | value and arrival time of the switch, the current time standing in for a missing arrival time |
| `Service.TelemetryService.GetSwitchMetrics` | internal/telemetry/service.go:158-175 | the response map of the cached record, or the error of the branch that failed |
| `Service.TelemetryService.GetAllMetrics` | internal/telemetry/service.go:178-202 | one response per cached switch, each once, whatever the visiting order |
| `Service.TelemetryService.RegisterSwitch` | internal/telemetry/service.go:205-219 | a named switch is registered if the repository agrees, and stays registered |
| `Service.ValidRecordsKept` | internal/telemetry/service.go:95-103 | the filter keeps exactly the records that name a switch, and keeps all if all do |
| `Service.ValidRecordsInOrder` | internal/telemetry/service.go:97-103 | each kept record stands at the position that counts the named records before it, so order and multiplicity are kept |
| `Models.MetricViewsAgree` | internal/telemetry/models/models.go:42-70 | a metric is readable on its own exactly if it is one of the five metric keys of the response map, with the same value |
| `RequestQueue.StepKeepsInvariant` | internal/telemetry/queue/request_queue.go:118-263 | no step of callers, workers, store or shutdown breaks the link between accepted requests, buffer, workers, reply channels and counters |
| `QueueLaws.EachRequestInOnePlace` | internal/telemetry/queue/request_queue.go:199-221 | the buffer never exceeds its capacity and is emptied in order; every accepted request is buffered, held by exactly one worker, or answered exactly once |
| `QueueLaws.RepliesAreAlwaysSent` | internal/telemetry/queue/request_queue.go:224-263 | the reply channel is empty whenever a worker sends: the give-up branch is unreachable and the send after a panic never blocks |
| `QueueLaws.CallersGetTheirOwnAnswer` | internal/telemetry/queue/request_queue.go:155-162 | a caller receives only the answer to its own request, computed from a store state between call and return, or the substitute for a panic |
| `QueueTimes.AnsweredInTime` | internal/telemetry/queue/request_queue.go:155-196 | told by the steps of any run: the answer received in step j to a request submitted in step i is the handler's to this request from the store as some number of changes has left it, no fewer than before i and no more than before j; only while stopping is a caller turned away by the shutdown |
| `QueueTimes.BufferFillsUp` | internal/telemetry/queue/request_queue.go:145-153 | while no worker takes anything, exactly the first requests that fit are accepted and all others refused |
| `QueueTimes.UnbufferedIsServed` | internal/telemetry/queue/request_queue.go:92 | with a buffer of size zero a request still reaches a waiting worker and is answered |
| `QueueLaws.AfterStop` | internal/telemetry/queue/request_queue.go:118-129 | once Stop has returned no worker holds a request, and accepted equals answered plus left in the buffer for good |
| `QueueLaws.StopMayStrandARequest` | internal/telemetry/queue/request_queue.go:216-218 | some run leaves an accepted request in the buffer |
| `QueueStop.StopAnswersIffTaken` | internal/telemetry/queue/request_queue.go:118-129 | when Stop is called, a request is answered in every run in which Stop returns exactly if a worker has taken it already |
| `QueueStop.StopAnswersAllIff` | internal/telemetry/queue/request_queue.go:118-129 | every such run answers everything accepted before exactly if the buffer is empty when Stop is called |
| `QueueStop.PanicsIffClosedBefore` | internal/telemetry/queue/request_queue.go:145-153 | in every run a submission panics exactly if Stop has closed the channel before it |
| `QueueLaws.ClosedForGood` | internal/telemetry/queue/request_queue.go:122 | after Stop closes the channel every further submission of every run panics |
| `QueueLaws.StopTerminates` | internal/telemetry/queue/request_queue.go:118-129 | after the close the workers make a bounded number of moves, and until Stop can return one of them can move |
| `QueueLaws.CountersAreExact` | internal/telemetry/queue/request_queue.go:311-330 | the counters lag behind the requests by exactly the updates that are due |
| `QueuedReads.RebuildUndoesToMap` | internal/telemetry/service_with_queue.go:142-164 | a record rebuilt from its response map is the record |
| `QueuedReads.SwitchReadUnchanged` | internal/telemetry/service_with_queue.go:105-124 | the detour through map, record and map does not change a direct read |
| `QueuedReads.QueuedReadRefinesDirect` | internal/telemetry/service_with_queue.go:105-124 | in every run a queued read of a switch is one of the queue's own errors, or exactly the direct read in a store state between call and return |
| `QueuedReads.QueuedListingRefinesDirect` | internal/telemetry/service_with_queue.go:167-201 | a queued listing is the cache's table in a state between call and return |
| `QueuedReads.QueuedMetricRefinesDirect` | internal/telemetry/service_with_queue.go:82-102 | likewise for one metric, as long as the arrival time is found |
| `QueuedReads.QueuedMetricAgreesIff` | internal/telemetry/service_with_queue.go:92-97 | a queued read of a metric equals the direct read exactly if it fails, the arrival time is found, or the clock reads zero |
| `QueuedReads.EvictedBetweenReads` | internal/telemetry/service_with_queue.go:96 | an eviction between the two reads makes them differ |
| `QueuedService.Handlers.HandleGetMetric` | internal/telemetry/service_with_queue.go:127-133 | the value a direct read gives, without its arrival time |
| `QueuedService.Handlers.HandleGetAllMetrics` | internal/telemetry/service_with_queue.go:135-165 | the record rebuilt from the direct read's map, or its error |
| `QueuedService.Handlers.HandleListAllSwitches` | internal/telemetry/service_with_queue.go:167-201 | rebuilding every entry of the report gives the cache's own table |
| `QueuedService.RequestQueue.Send` | internal/telemetry/queue/request_queue.go:145-153 | the request is appended and counted if there is room, and counted as dropped otherwise |
| `QueuedService.RequestQueue.ProcessRequest` | internal/telemetry/queue/request_queue.go:224-263 | exactly one reply is put into the empty reply channel: the handler's, or an internal error if it panicked |
| `QueuedService.RequestQueue.Serve` | internal/telemetry/queue/request_queue.go:199-221 | while the store changes, the oldest requests are answered in order, each its own answer from the store as it is in its turn, and the others are untouched |
| `QueuedService.RequestQueue.QueueAndWait` | internal/telemetry/queue/request_queue.go:166-196 | refused if full; answered, from the store as it is in its turn, exactly if the workers get past the requests ahead; else timed out or shut down |
| `QueuedService.RequestQueue.Stop` | internal/telemetry/queue/request_queue.go:118-129 | the oldest requests are still answered, in order, each its own answer from the store as it is in its turn; the rest stay in the buffer without a reply |
| `QueuedService.QueuedTelemetryService.GetSwitchMetrics` | internal/telemetry/service_with_queue.go:105-124 | without the queue the direct read; when answered by it exactly the direct read of the store as it is in the request's turn |
| `QueuedService.QueuedTelemetryService.GetMetric` | internal/telemetry/service_with_queue.go:82-102 | the direct read with the value from the request's turn and the arrival time from the end of the wait, except that a missing arrival time stays zero |
| `QueueRefinement.QueuedCallIsARun` | internal/telemetry/queue/request_queue.go:166-221 | whatever a call of the queue object returns, a run of the machine with the same requests ahead and the same changes of the store returns as well, and leaves the same store |
| `SysConfig.FlattenMap` | internal/sysconfig/sysconfig.go:163-186 | the recursive loop computes the overlay of the entries' contributions in visiting order |
| `SysConfig.FlattenFlattens` | internal/sysconfig/sysconfig.go:163-186 | in any order, every leaf's dotted key is there and every entry is the leaf of a path with that key |
| `SysConfig.FlattenExample` | internal/sysconfig/sysconfig.go:161-162 | the nested key `level` below `logging` is flattened to `logging.level`, in any order |
| `SysConfig.OrderMattersIffClash` | internal/sysconfig/sysconfig.go:166-183 | the result is the same for every visiting order exactly if no two different leaves share a dotted key |
| `SysConfig.PlainFlattening` | internal/sysconfig/sysconfig.go:161-186 | with keys that are not empty and have no dot: one entry per leaf path, found under its dotted key, no other entry, no collision |
| `SysConfig.PlainNeverClashes` | internal/sysconfig/sysconfig.go:166-183 | with such keys the visiting order never matters |
| `SysConfig.DottedAndEmptyKeysClash` | internal/sysconfig/sysconfig.go:167-172 | a dot in a key, or an empty key, makes two leaves collide |
| `SysConfig.Config.LoadFromFile` | internal/sysconfig/sysconfig.go:130-159 | a missing file changes nothing and is no error; an unreadable or malformed one changes nothing and is; otherwise the file overlays what was there |
| `SysConfig.Config.ReloadConfig` | internal/sysconfig/sysconfig.go:259-274 | listeners are called after a successful load only, with the new values |
| `SysConfig.LastFileWins` | internal/sysconfig/sysconfig.go:259-274 | after any reloads each key has the value of the last file that set it, else its default; removing a key takes nothing back |
| `SysConfig.IntegersReadAsZero` | internal/sysconfig/sysconfig.go:122-127 | an integer whose dotted key no other leaf shares hides the default, reads as zero, and is read back exactly if it is zero |
| `SysConfig.ValuesReadBack` | internal/sysconfig/sysconfig.go:106-127 | a text is read back as itself, a number as its integer part, every other value as nothing |

## Left out

- Csv.ReadAll: quoted fields are not modelled; a line with a quote is refused. The generator never prints one.
- Decimal.ParseFloat: exponents, hexadecimal, infinities and underscores are not modelled; the generator prints plain decimals.
- Generator.DrawRow: metrics are drawn and rounded as exact reals; binary floating-point rounding is not modelled.
- TimeCodec: calendar arithmetic and time zones; only reading back what was written is required.
- HybridStore.Repository: PostgreSQL itself, DECIMAL rounding, row IDs, `created_at`, missing timestamps filled in by the repository, and a commit that succeeds but is reported as failed.
- QueuedService.RequestQueue: the handing over of a request directly to a waiting worker, which matters for a buffer of size zero only; the machine in `RequestQueue.dfy` has it.
- The loops of the flush worker, the cleanup worker and the poll worker are steps of machines over values, not methods, because they run until they are stopped.
- A second Stop of the request queue, which would close a closed channel, and the queue depth and utilisation gauges.
- A manual flush whose own five-second limit fires is covered by the flush ending its collection at any time.
- Registration inside `EndToEnd` is abstracted: a failed registration shows as a store call that fails.
- The store's counters of reads and its performance report, cache snapshots, switch counts, health texts, Prometheus metrics, logs and traces.
- Lost updates of the cache's hit and request counters, which are changed under a read lock; the counters are modelled for serialised calls.
- Restarting the client after a stop that timed out, which can leave two poll workers.
- Aliasing of cached records: records are values, so that the copies the cache makes are automatic.
- HTTP, routing, file watching, YAML decoding, deployment files.
