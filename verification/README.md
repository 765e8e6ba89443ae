# TemporalRCA: verified models

TemporalRCA collects telemetry with agents on hosts and stores it on a server for root-cause analysis.
This project models the parts of both programs that carry state over time, and proves what they promise.
`dafny verify dfyconfig.toml` checks all of it.

Names follow the source: a class for each object that the source updates in place, a method with a loop
where the source loops, proved against functions on values; the theorems are about these functions and
about state machines whose steps are the transactions of the source.

| files | part of the system |
|---|---|
| `Contracts` | the telemetry envelope and the batch response |
| `Spool` | the agent's durable queue: append, eviction, batches, quarantine, state |
| `Ingestion` | the server's idempotent ingestion of one agent's batches, with races |
| `Transport`, `Runtime` | request and response handling, the sender loop, `emit` |
| `Delivery`, `Drain` | the protocol of all of these as a state machine; safety over every run; bounded drain |
| `LogReader`, `LogCollector` | the incremental log reader and its crash-safe cursor |
| `SeriesResolution` | bulk resolution of metric series against the per-event form, with concurrent writers |
| `Aggregates`, `Maintenance`, `MaintenanceWorker` | rollups, retention, partitions |
| `Slots`, `Query` | `query_metrics`: slot widths, the splice of rollups and raw tail, both branches |
| `Paging` | keyset pagination of logs and events |
| `ProcessIdentity` | boot, pid and start ticks, and their text |
| `Inventory` | inventory leases, process identity and retirement, service links |
| `Discovery` | association records and their replay |

## What the proofs found

Each of these is a property that one would expect and that the code does not have on all inputs. The code
is modelled as it is; the member states when the property holds, and that it fails otherwise.

- No silent loss: an eviction commits its deletion before its list is returned (`spool.py:90-93`), so a crash
  or a cancellation in between loses events that nothing reports. `Delivery.NoSilentLoss` says that this is
  the only way, `Delivery.CrashCutsOff` has a run for every cap.
- The spool's byte cap: the eviction walk also subtracts rows that were already selected as expired
  (`spool.py:89`), so live rows can stay over the cap. `Spool.ByteCap` has the exact condition on the table,
  `Spool.CapCanBeExceeded` an example, `Spool.SecondPassMeetsCap` the repair by a second pass.
- The loss report: what the append of the loss event evicts is reported nowhere (`runtime.py:77`). The
  comment there calls the event compact enough to be admitted; `Runtime.LossReportIsComplete` says when that
  is so, `Runtime.ReportEvictsAgain` shows two ordinary appends after which it is not. The statement of no
  silent loss therefore counts the lists that `append` returns.
- The log reader with a line cap of zero, which the configuration does not rule out, drops the partial line
  and stays where it is (`LogReader.ZeroCapLosesPartial`).
- The log cursor: an error after the durable append repeats lines (`LogCollector.StaleCursorRepeats`,
  `LogCollector.RepeatHappens`), a file that is missing after a failed append makes the stale cursor durable
  without its lines (`LogCollector.StalePendingSkips`, `LogCollector.SkipHappens`), and a file that is
  replaced under its inode and has grown past the cursor is taken for the old one
  (`LogCollector.ReplacedUnnoticed`, `LogCollector.UnnoticedHappens`). Crashes do none of it.
- Rollups converge on all runs exactly if the lateness is a multiple of five minutes, or so long that the
  bucket it cuts in two has outlived the rollup retention (`Maintenance.ConvergesIff`); the configuration
  accepts any number of minutes. Where they converge, rows miss exactly the samples that came later than the
  lateness (`Maintenance.RollupsConverge`).
- The `auto` query trusts every rollup row before the current five minutes less the lateness, the `5m` query
  every row. Until a pass has closed the range they can leave out samples that came on time
  (`Query.LagLosesSamples`, `Query.RollupsAreExact`). It drops a partial first bucket, and takes a partial last
  bucket whole when no raw tail follows (`Query.From`, `Query.Until`).
- The inventory keeps retired processes under their old identity, so a process that is reported again under
  its former id after another one took that id is refused by the identity constraint, with the whole
  inventory (`Inventory.ReturnConflicts`); so are three new processes under one id in one inventory
  (`Inventory.TripleConflicts`). `Inventory.AcceptedIff` decides every case. Ids made by discovery never get
  there (`Inventory.DiscoveryNeverConflicts`).
- A scan of discovery that lists one process twice can log records that do not fit together
  (`Discovery.ListedTwice`); `Discovery.LogReplays` has the exact condition.
- A link to a service that a still-reported dependency no longer lists stays active (`Inventory.ReportedKeepsLink`).

## Conventions

Integers are unbounded; times are microseconds since 1970 in the metric parts, seconds in the inventory.
Values of samples are reals. SHA-256, UUIDv5 (section 5.5 of RFC 9562), canonical JSON and the base64
cursor are injective and so replaced by what they encode. Uniqueness constraints of the databases are part of
the tables; a statement or a transaction is atomic. The clock, the network, other database writers and the
file system are parameters or steps that may do anything.

A query result in the order of its ORDER BY is modelled by the table kept in that order; the WHERE clause is
a function on it. `Query.Lists` relates the two listings of a query to the tables of `Maintenance`.

## Model

| member | source | states |
|---|---|---|
| Delivery.NoSilentLoss | agent/src/temporalrca_agent/runtime.py:67-78 | Over every run of appends, evictions, fetches, lost, delayed and repeated messages, retries, cancellations and crashes: an event ever appended is queued, stored in the table of its kind, in quarantine, in a list that `append` returned or is about to return, or was deleted by an eviction whose return a crash cut off; there are events of the last kind exactly if a crash or a cancellation struck between such a deletion and its return; and every id is stored exactly as often as it has a receipt (0 or 1) |
| Delivery.CutOffIff | agent/src/temporalrca_agent/spool.py:90-93 | From any world where none has been: no deletion is cut off exactly if no crash or cancellation comes between the commit of an eviction and its return |
| Delivery.CrashCutsOff | agent/src/temporalrca_agent/spool.py:90-93 | Under every cap a run of an append, an eviction and a crash after which the event is nowhere and was reported nowhere |
| Delivery.InjectiveExists | agent/src/temporalrca_agent/transport.py:72-85 | A batch id that is as good as the content exists, for every cap: the hypothesis of the delivery theorems can be met |
| Delivery.AcknowledgedIsStored | agent/src/temporalrca_agent/runtime.py:259-264 | Over every run, a row that acknowledging deletes belongs to an event that the server has stored |
| Delivery.SentBatchIsCommitted | agent/src/temporalrca_agent/transport.py:72-85 | Over every run, whatever batch an agent has put on the wire, the server commits it whenever it arrives: never 409, 422, 413 by the number of events, nor the integrity error of two equal ids; the 413 exactly if its compressed form is over 2 MiB, and then no table changes |
| Delivery.RetryIsDeterministic | server/temporalrca_server/ingestion.py:162-169 | After a batch is committed, and after any further steps, crashes and inventory changes, delivering it again changes no table and returns the first response marked as a duplicate |
| Delivery.DeliverySettles | server/temporalrca_server/ingestion.py:197-249 | A sent batch gets a response whose acknowledged and rejected ids are exactly its ids, with a receipt for each acknowledged one |
| Delivery.StepKeeps | agent/src/temporalrca_agent/runtime.py:224-278 | Each step of the protocol keeps the invariant that ties spool, wire, responses, receipts and stored events together |
| Delivery.Reachable | agent/src/temporalrca_agent/runtime.py:224-278 | The invariant holds in every state that any run reaches |
| Delivery.AppendKeeps | agent/src/temporalrca_agent/spool.py:68-74 | Appending fresh events keeps the invariant, and each of them is queued afterwards |
| Delivery.EvictKeeps | agent/src/temporalrca_agent/spool.py:76-93 | Evicting keeps the invariant, and each deleted row is among those to report |
| Delivery.AcknowledgeKeeps | agent/src/temporalrca_agent/spool.py:114-117 | Acknowledging keeps the invariant, and every row it deletes has a receipt |
| Delivery.QuarantineKeeps | agent/src/temporalrca_agent/spool.py:123-130 | Quarantining rejected events keeps the invariant |
| Delivery.RefuseKeeps | agent/src/temporalrca_agent/runtime.py:267-269 | Quarantining a whole refused batch keeps the invariant |
| Drain.BoundedDrain | agent/src/temporalrca_agent/runtime.py:225-269 | From any reachable state between two iterations, a row with k older ones has left the spool once 2(k+1) iterations have completed without crash or retry, under any concurrent appends, evictions and network behaviour |
| Drain.StepPays | agent/src/temporalrca_agent/runtime.py:225-269 | As long as a row stays queued, each completed iteration is paid for by a potential that no other step increases |
| Drain.OldestFetched | agent/src/temporalrca_agent/runtime.py:236-239 | An iteration that does not read from the newest end takes the oldest row |
| Drain.NewestNeverTwice | agent/src/temporalrca_agent/runtime.py:236-239 | After an iteration that reads from the newest end, whatever other steps follow, the next fetch reads from the oldest end |
| Drain.RestartReadsNewest | agent/src/temporalrca_agent/runtime.py:224-239 | After a crash with more than 500 queued events the first fetch reads the newest end of the tables that were left |
| Runtime.IterationIsARun | agent/src/temporalrca_agent/runtime.py:227-266 | The body of the sender loop against the server is a run of the state machine with the same outcome, and removes exactly the fetched batch |
| Runtime.FetchedIsSettled | agent/src/temporalrca_agent/runtime.py:232-266 | Whatever is fetched from a non-empty spool is committed and settled |
| Runtime.SettledBatchLeaves | agent/src/temporalrca_agent/runtime.py:259-264 | Acknowledging and quarantining a settled batch removes exactly its rows |
| Runtime.IterationByStatus | agent/src/temporalrca_agent/runtime.py:246-269 | For any state and any answer: 401, 403, 408, 429, 5xx and no status leave every table alone; a success removes exactly the acknowledged, duplicate and rejected rows, or all that was fetched when it lists no ids; another refusal moves exactly the batch to the quarantine under its status; the end to read from changes exactly above 500 events |
| Runtime.LossReportIsComplete | agent/src/temporalrca_agent/runtime.py:70-77 | The second append of `emit` evicts nothing exactly if by then no row and not the loss event itself has expired, and the loss event fits under the cap together with all that is queued |
| Runtime.AppendIsARun | agent/src/temporalrca_agent/spool.py:68-74 | An append is a run of the state machine: events and cursors become durable in one step, then the limits are enforced and the list returned; the cursors are the old ones with the updates |
| Runtime.ReportEvictsAgain | agent/src/temporalrca_agent/runtime.py:70-77 | For every cap two appends that fill it: the second evicts the first, which is reported, and the report evicts the second, which is not |
| Runtime.Agent.Emit | agent/src/temporalrca_agent/runtime.py:67-78 | Events and cursors are appended together, evictions are reported by one more append with its own reading of the clock, the sequence is stored last; an empty call does nothing |
| Runtime.Agent.Sender | agent/src/temporalrca_agent/runtime.py:224-278 | The loop computes the iterated sender step, for any answers of the network: retry, settle, or refuse |
| Transport.FetchedBatchIsAdmissible | agent/src/temporalrca_agent/transport.py:72-85 | A batch fetched from a non-empty spool is non-empty, has distinct ids, and its body passes both event limits and the sequence rule |
| Transport.FetchedBatchIs | agent/src/temporalrca_agent/runtime.py:232-237 | Above 500 queued events up to 2,000, from the newest end when it is its turn, else up to 500 of the oldest; at most 1 MiB or one record; and as many as these allow |
| Transport.BodyIs | agent/src/temporalrca_agent/transport.py:72-78 | The request asks for the backfill limit exactly above 500 events and names the least and the greatest sequence |
| Transport.RejectsAreNamed | agent/src/temporalrca_agent/runtime.py:251-258 | When rejections carry ids, exactly these ids are quarantined |
| Transport.RejectsAre | agent/src/temporalrca_agent/runtime.py:251-258 | A rejection with an id quarantines that id, one without it the record at its index if there is one, and nothing else |
| Transport.MinSequence | agent/src/temporalrca_agent/transport.py:75-78 | `first_sequence` is the least sequence of the batch |
| Transport.MaxSequence | agent/src/temporalrca_agent/transport.py:75-78 | `last_sequence` is the greatest sequence of the batch |
| Spool.InsertAllStays | agent/src/temporalrca_agent/spool.py:68-72 | After an insert every offered id is in the table, old rows stay in front untouched, and new rows carry offered events under greater keys |
| Spool.InsertedRows | agent/src/temporalrca_agent/spool.py:68-72 | The new rows are, in the order of the batch, exactly the first offers of each id that was not there, each with its event and time under the next key |
| Spool.EvictionConserves | agent/src/temporalrca_agent/spool.py:76-93 | The returned list and the remaining rows are together the table, row for row |
| Spool.ReportIsComplete | agent/src/temporalrca_agent/spool.py:93 | Every deleted row is reported once, with its id and size, and nothing else is |
| Spool.EvictionExact | agent/src/temporalrca_agent/spool.py:76-93 | A row is evicted exactly when it has expired or lies before the point where the walk stops |
| Spool.EvictionOnlyOverCap | agent/src/temporalrca_agent/spool.py:79-89 | No live row is evicted unless the live rows from it onwards exceed the cap |
| Spool.KeptIsLiveSuffix | agent/src/temporalrca_agent/spool.py:76-93 | What remains is a suffix of the live rows |
| Spool.ByteCap | agent/src/temporalrca_agent/spool.py:79-89 | What remains exceeds the cap by at most the expired bytes walked over; it meets the cap exactly if, at every prefix of the table whose live bytes are less than the live excess, all bytes of the prefix are less than it too |
| Spool.NothingExpiredMeetsCap | agent/src/temporalrca_agent/spool.py:79-89 | With nothing expired the cap holds |
| Spool.CapCanBeExceeded | agent/src/temporalrca_agent/spool.py:89 | A table of two rows whose remaining bytes exceed the cap |
| Spool.SecondPassMeetsCap | agent/src/temporalrca_agent/spool.py:76-93 | A second pass with the same cutoff always meets the cap |
| Spool.BatchShape | agent/src/temporalrca_agent/spool.py:100-112 | A batch is a contiguous end segment in ascending order, empty only if the table is, within both limits or a single record, and maximal |
| Spool.AcknowledgeRule | agent/src/temporalrca_agent/spool.py:114-117 | Acknowledging removes exactly the named rows |
| Spool.QuarantineRule | agent/src/temporalrca_agent/spool.py:123-130 | Quarantining removes exactly the named rows and keeps the payload of each; entries that were there stay |
| Spool.QuarantinedEntries | agent/src/temporalrca_agent/spool.py:123-130 | The new quarantine entries are, in order, one for each row that leaves, with its payload and the reason that named it |
| Spool.ChooseEvictions | agent/src/temporalrca_agent/spool.py:77-89 | The loop selects the expired rows and then the walked live rows, each once |
| Spool.SQLiteSpool.AppendSync | agent/src/temporalrca_agent/spool.py:68-74 | One transaction of inserts and state updates, then the limits; the evictions are returned |
| Spool.SQLiteSpool.InsertMany | agent/src/temporalrca_agent/spool.py:70-71 | INSERT OR IGNORE of each event in turn; keys stay ascending and event ids unique |
| Spool.SQLiteSpool.EnforceLimitsSync | agent/src/temporalrca_agent/spool.py:76-93 | Deletes and reports the evicted rows |
| Spool.SQLiteSpool.BatchSync | agent/src/temporalrca_agent/spool.py:100-112 | Reads the batch that BatchShape describes |
| Spool.SQLiteSpool.Acknowledge | agent/src/temporalrca_agent/spool.py:114-117 | Deletes the rows of the given ids |
| Spool.SQLiteSpool.QuarantineSync | agent/src/temporalrca_agent/spool.py:123-130 | Moves the named rows one by one |
| Spool.StateIsKept | agent/src/temporalrca_agent/spool.py:68-74 | The state updates of an append win over older values and are what is read back, whatever the limits, acknowledging and quarantining do afterwards |
| Ingestion.IngestKeepsOnce | server/temporalrca_server/ingestion.py:153-249 | Every ingestion, whatever its outcome, keeps: each receipted id is stored exactly once over the three tables, and nothing else is stored |
| Ingestion.RoutingPartitions | server/temporalrca_server/ingestion.py:209-239 | The three tables receive each accepted event once |
| Ingestion.RoutedBySignal | server/temporalrca_server/ingestion.py:220-239 | Metrics, logs and all other signals each go to their table |
| Ingestion.OutcomesPartition | server/temporalrca_server/ingestion.py:178-249 | Accepted, duplicate and rejected ids partition the ids of a batch; duplicates are old receipts, accepted ids are new |
| Ingestion.RejectedAre | server/temporalrca_server/ingestion.py:180-195 | Rejections name exactly the unacceptable events, each by its index |
| Ingestion.RejectedIff | server/temporalrca_server/ingestion.py:180-190 | An event is rejected, by its index, exactly if it is malformed, claims another host, or refers to a service, process, container or dependency that is not of the agent |
| Ingestion.AcceptedAre | server/temporalrca_server/ingestion.py:197-201 | The accepted events are exactly the acceptable ones without a receipt |
| Ingestion.IngestStores | server/temporalrca_server/ingestion.py:209-249 | An accepted event is stored in the table of its kind, receipts grow by exactly the accepted ids, and what was stored stays |
| Ingestion.RedeliveryReplays | server/temporalrca_server/ingestion.py:163-169 | A committed batch is replayed from its receipt without touching a table |
| Ingestion.OtherPayloadConflicts | server/temporalrca_server/ingestion.py:163-166 | After a commit any other payload under the same batch id gets 409 and changes nothing |
| Ingestion.RefusalsAre | server/temporalrca_server/api.py:294-306 | When the answer is 413, 422, 409 or an integrity error: each exactly in the stated case of size, schema, event count, saved receipt and colliding ids; a refusal changes no table |
| Ingestion.ReceiptsAreKept | server/temporalrca_server/ingestion.py:245-249 | No ingestion alters a batch receipt |
| Ingestion.RacesSerialise | server/temporalrca_server/ingestion.py:203-259 | With any deliveries committed between its reads and its commit, an ingestion has the effect and the reply that it would have after them, or fails and changes nothing; it replays the receipt if one of them was the same payload; each receipted id stays stored exactly once |
| Ingestion.UndisturbedIsIngest | server/temporalrca_server/ingestion.py:203-259 | Without deliveries in between, the commit violates no key that the batch does not violate by itself |
| Ingestion.Server.TelemetryBatch | server/temporalrca_server/api.py:289-309 | The endpoint: the size of the compressed body, parsing, then the ingestion, with any deliveries committed in between |
| Ingestion.Server.IngestBatch | server/temporalrca_server/ingestion.py:153-259 | From the event limits over receipt lookup, classification and insertion to the commit, or to the rollback and the replay of the receipt of the winner |
| Ingestion.Server.InsertAccepted | server/temporalrca_server/ingestion.py:209-239 | After the insertion loop every accepted event has a receipt and one row, in order, in the table of its kind |
| Ingestion.Classify | server/temporalrca_server/ingestion.py:178-195 | The loop that splits a batch into valid events and rejections |
| SeriesResolution.BulkIsPerEvent | server/temporalrca_server/ingestion.py:77-150 | Without other writers the bulk form leaves the same tables as getting or creating definition and series of each event in turn: same units, same rows, same ids in the same order |
| SeriesResolution.BulkIsEnsure | server/temporalrca_server/ingestion.py:99-114 | For either table: inserting the missing first-seen entries is get-or-create of all entries |
| SeriesResolution.DefinitionPhaseKeeps | server/temporalrca_server/ingestion.py:104-121 | Whatever other writers commit in between: names stay unique, rows are only appended, and every name is known afterwards |
| SeriesResolution.SeriesPhaseKeeps | server/temporalrca_server/ingestion.py:123-150 | Whatever other writers commit in between: fingerprints stay unique, every series belongs to the definition of its own name, and every fingerprint is found |
| SeriesResolution.InterfereKeeps | server/temporalrca_server/ingestion.py:40-74 | Other writers who ignore conflicts keep both tables valid |
| SeriesResolution.InsertAllKeeps | server/temporalrca_server/ingestion.py:40-74 | Inserting with conflicts ignored keeps keys unique and ids ascending, and only appends |
| SeriesResolution.PerEventSplits | server/temporalrca_server/ingestion.py:82-92 | The per-event form, table by table |
| SeriesResolution.Database.MetricSeriesBatch | server/temporalrca_server/ingestion.py:77-150 | With arbitrary commits of others between all statements every event finds its series row in valid tables; undisturbed it is the per-event form |
| SeriesResolution.SharedSeriesIff | server/temporalrca_server/ingestion.py:29-37 | Two events of a batch share a series row exactly if name, service, process, container, dependency, source and attributes agree; events of two hosts never do |
| SeriesResolution.FirstUnitWins | server/temporalrca_server/ingestion.py:97-113 | A new metric gets the unit of its first event, a known one keeps its row |
| SeriesResolution.Database.ResolveDefinitions | server/temporalrca_server/ingestion.py:104-121 | Select, insert missing, select again if anything was missing |
| SeriesResolution.Database.ResolveSeries | server/temporalrca_server/ingestion.py:123-150 | The same for series, against the definitions that were read |
| SeriesResolution.Database.InsertDefinitions | server/temporalrca_server/ingestion.py:40-74 | Each row is appended under the next id unless its name is there; a conflict only uses up an id |
| SeriesResolution.Database.InsertSeries | server/temporalrca_server/ingestion.py:40-74 | The same by fingerprint |
| SeriesResolution.InsertedIds | server/temporalrca_server/ingestion.py:40-66 | Every row of a statement uses up one id, also a row that loses a conflict; an inserted row has the id of its place |
| SeriesResolution.FirstEntries | server/temporalrca_server/ingestion.py:97-102 | The ordered dictionaries keep the first entry of each key |
| SeriesResolution.MissingEntries | server/temporalrca_server/ingestion.py:109-113 | The list of entries that the select did not find |
| SeriesResolution.SeriesRows | server/temporalrca_server/ingestion.py:128-143 | The rows to insert refer to the definitions by id |
| Aggregates.MergeDescribes | server/temporalrca_server/api.py:471-480 | Merging summaries of disjoint sample sets summarises their union |
| Aggregates.DescribesOnce | server/temporalrca_server/maintenance.py:52-58 | A summary fixes count, sum, extremes and last timestamp, and also `last` unless samples tie on the last timestamp |
| Aggregates.AverageBounds | server/temporalrca_server/api.py:505-510 | min <= average <= max and min <= last <= max |
| Aggregates.SumRemove | server/temporalrca_server/maintenance.py:53 | The sum of a set does not depend on the order |
| Maintenance.RollupsConverge | server/temporalrca_server/maintenance.py:38-77 | Over every run, for a lateness that is a multiple of five minutes or that exceeds the rollup retention: after every pass each retained row summarises all samples of its bucket that came on time, dropped or not; it equals the aggregation of everything ever ingested if and only if the bucket never got a late sample; and a row is missing only if its bucket has none or has outlived the retention |
| Maintenance.ConvergesIff | server/temporalrca_server/maintenance.py:38-77 | The rollups converge on all runs exactly for these configurations |
| Maintenance.DroppedStaysOutside | server/temporalrca_server/maintenance.py:98-114 | Over every run: a sample whose raw partition is gone ends before the window of every later pass, or its row expires with that pass; so no pass replaces a row that stays by one without its samples |
| Maintenance.RawIsRecent | server/temporalrca_server/maintenance.py:85-114 | Over every run and for any configuration: after a pass the raw table is exactly the samples whose hour ends after the retention less the lateness, or after the last five-minute boundary; and every sample not older than the retention at the last pass is in it |
| Maintenance.RawStays | server/temporalrca_server/maintenance.py:107-114 | One pass keeps a raw sample exactly in these cases |
| Maintenance.RowsStay | server/temporalrca_server/maintenance.py:88-114 | Over every run a rollup row stays until its day has ended longer than the rollup retention ago |
| Maintenance.RowsGo | server/temporalrca_server/maintenance.py:88-114 | And after a pass there is none whose day has |
| Maintenance.ExpiredBeforeWindow | server/temporalrca_server/maintenance.py:107-114 | A raw partition is dropped only if it ends at or before the last boundary less the lateness, for every retention |
| Maintenance.PassIsExact | server/temporalrca_server/maintenance.py:38-77 | A pass makes all rows below its end exact |
| Maintenance.RowsStand | server/temporalrca_server/maintenance.py:42-63 | In every state of every run, with any lateness and between passes, each row summarises some samples of its bucket and series |
| Maintenance.PassKeeps | server/temporalrca_server/maintenance.py:19-114 | A pass with its retention keeps the invariant |
| Maintenance.ArriveKeeps | server/temporalrca_server/ingestion.py:220-226 | An arriving sample keeps the invariant, early or late |
| Maintenance.PassWindow | server/temporalrca_server/maintenance.py:38-41 | What a pass recomputes is, per bucket, all samples that came on time |
| Maintenance.UnalignedLatenessBreaks | server/temporalrca_server/maintenance.py:41 | For every other configuration: a run with two punctual samples after which a row has forgotten one of them |
| MaintenanceWorker.Worker.RollupOnce | server/temporalrca_server/maintenance.py:19-82 | A pass with the lock is the pass of the Maintenance module; without it nothing changes |
| MaintenanceWorker.Worker.Upsert | server/temporalrca_server/maintenance.py:42-63 | Partitions for all days of the window, and recomputed rows where the window has samples |
| MaintenanceWorker.Worker.ApplyRetention | server/temporalrca_server/maintenance.py:85-114 | Raw samples stay exactly while their hour ends after now less retention and lateness, or after the rolled-up time; rollup rows exactly while their day ends after now less their retention |
| MaintenanceWorker.Worker.DropRaw | server/temporalrca_server/maintenance.py:98-114 | The loop over the hourly partitions removes exactly the samples of the hours that ended before both times, and keeps a partition for every sample left |
| MaintenanceWorker.Worker.DropRollups | server/temporalrca_server/maintenance.py:98-114 | The loop over the daily partitions removes exactly the rows of the days that ended before the retention |
| MaintenanceWorker.Worker.Ingest | server/temporalrca_server/partitions.py:17-31 | A sample is stored, with its hourly partition |
| MaintenanceWorker.GroupSamples | server/temporalrca_server/maintenance.py:52-58 | Grouping the window by bucket and series summarises each group |
| MaintenanceWorker.OldestOf | server/temporalrca_server/maintenance.py:32-35 | The start of the first window |
| MaintenanceWorker.DaysOf | server/temporalrca_server/maintenance.py:42-46 | The days of the window cover every time in it |
| MaintenanceWorker.BucketInDay | server/temporalrca_server/partitions.py:7-14 | A bucket never straddles a daily partition |
| Aggregates.BucketOf | server/temporalrca_server/maintenance.py:24 | The five-minute floor: a boundary at most five minutes before |
| Aggregates.HourOf | server/temporalrca_server/partitions.py:7-9 | The hour floor |
| Aggregates.DayOf | server/temporalrca_server/partitions.py:12-14 | The day floor |
| Slots.WidthIsLeast | server/temporalrca_server/api.py:421-426 | The slot width is the least of the list that spans the range with the asked number of points, a day when none does; from 300 s on it is a multiple of 300 s |
| Slots.SlotOfBucket | server/temporalrca_server/api.py:469 | A slot of a multiple of five minutes never splits a bucket, so a row can stand for its samples |
| Slots.SlotMonotone | server/temporalrca_server/api.py:488 | Slots follow the order of timestamps |
| Slots.ChartsMore | server/temporalrca_server/api.py:470-480 | Adding a row that summarises new samples of one slot keeps the dictionary the direct grouping of all samples added |
| Slots.OrderIncreases | server/temporalrca_server/api.py:501-511 | Rows in slot order give a dictionary whose keys appear once and in slot order |
| Query.RollupsAreExact | server/temporalrca_server/api.py:450-512 | Over every run: while the rows of the range are behind the lateness of the last pass, an answer of the rollup branch, `auto` or `5m`, has for each slot of the visible on-time history one point with the count, average, extremes and a last value of exactly its samples, dropped raw partitions included |
| Query.VisibleIsRange | server/temporalrca_server/api.py:463-486 | With aligned ends, and a start inside the rollup retention, that history is every on-time sample of the asked series in [start, end) |
| Query.LagLosesSamples | server/temporalrca_server/api.py:459-466 | The condition is exact, for `auto` and `5m`: for every clock of the last pass and every query that violates it there is a run that ends so and an on-time sample that the answer leaves out |
| Query.FiveMinutesTakesAll | server/temporalrca_server/api.py:458-480 | In every reachable state a `5m` answer takes every rollup row of [start, end): its points have the numbers of the samples that these rows stand for |
| Query.RollupsServe | server/temporalrca_server/api.py:449-451 | `raw` never uses rollups, `5m` always, `auto` exactly when the range exceeds two minutes a point; then the width is a multiple of 300 s, and otherwise the least one that fits |
| Query.PointIs | server/temporalrca_server/api.py:505-510 | The point of a summary has the count of its samples, their average, their least and greatest value, and the value of a latest one |
| Query.SlotHolds | server/temporalrca_server/api.py:488 | The slot of a timestamp is the one multiple of the width with the timestamp in the `width` seconds from it |
| Query.SpliceCharts | server/temporalrca_server/api.py:467-499 | For any history that the selected rows summarise: rows and tail together are its direct grouping, each sample in exactly one slot |
| Query.RowsChart | server/temporalrca_server/api.py:468-480 | After the rollup loop the dictionary is the direct grouping of the samples behind the selected rows, if the rows are current |
| Query.SamplesChart | server/temporalrca_server/api.py:487-499 | The tail loop extends any such grouping by exactly the selected raw samples |
| Query.Splits | server/temporalrca_server/api.py:463-486 | Which timestamps rows serve, which the tail serves, and that none is served by both |
| Query.RollupEndBounds | server/temporalrca_server/api.py:458-462 | The splice point is aligned and not before the last window; it is safe whenever a pass has closed the current five minutes |
| Query.TailIsHistory | server/temporalrca_server/api.py:481-486 | In the tail the raw table holds every on-time sample and no other |
| Query.SplicedShape | server/temporalrca_server/api.py:500-511 | Every answer of the rollup branch, `5m` or `auto`, in every reachable state, for any configuration and however far maintenance lags: timestamps are multiples of the width and strictly increasing, at most max_points + 1 when a day is wide enough; every point has samples, min <= average <= max and min <= last <= max |
| Query.DirectShape | server/temporalrca_server/api.py:519-527 | The same for every answer of the raw branch |
| Query.SplicedCount | server/temporalrca_server/api.py:500-511 | Aligned, increasing timestamps and their number for a splice of any sorted tables, reachable or not |
| Query.QueryMetrics | server/temporalrca_server/api.py:430-528 | The endpoint: 422 exactly for an empty range, the branch and the width; a raw answer has for each slot the count, average, extremes and a last value of the raw samples of the series in it |
| Query.QueryRollups | server/temporalrca_server/api.py:451-512 | The rollup branch computes the splice |
| Query.QueryRaw | server/temporalrca_server/api.py:513-528 | The raw branch answers with the numbers of the raw samples of the range, slot by slot |
| Query.Summarise | server/temporalrca_server/api.py:524-526 | min, max, sum, len and the latest of the samples of a slot |
| Query.GroupRaw | server/temporalrca_server/api.py:515-518 | Lists of samples per slot, keys in slot order |
| Query.Add | server/temporalrca_server/api.py:470-480 | `setdefault` and update of one entry is one merge |
| Paging.SessionExactlyOnce | server/temporalrca_server/api.py:556-561 | However the table changes between requests: once `next_cursor` is None, every matching row present throughout was returned exactly once, and nothing twice or out of order |
| Paging.FollowIsTable | server/temporalrca_server/api.py:556-561 | Over a fixed table following `next_cursor` ends after the least number of full pages and returns the sorted, filtered table |
| Paging.FollowReturnsAll | server/temporalrca_server/api.py:556-561 | From the start, over a fixed table: each matching row once, by timestamp and event id, in the least number of requests |
| Paging.PageIs | server/temporalrca_server/api.py:582-587 | A page holds exactly the matching rows after the cursor and up to the next one; there is a next one only after a full page |
| Paging.AfterNext | server/temporalrca_server/api.py:556-560 | The rows after the cursor of a page are those that the page left |
| Paging.SessionCovers | server/temporalrca_server/api.py:556-561 | After n requests the client has every matching row up to its cursor that was there each time |
| Inventory.ProcessesKeepTheirIdentity | server/temporalrca_server/api.py:186-204 | Over every run of inventories and sweeps: a row keeps its boot, pid and start ticks and its first sighting, both unique constraints hold, what has retired stays retired and inactive |
| Inventory.ReportedRow | server/temporalrca_server/api.py:186-203 | What an accepted inventory with distinct ids does to a row under a reported id: the same process gets name, references, sighting and lease; another one retires it with all that was known, and ends its lease |
| Inventory.AcceptedIff | server/temporalrca_server/api.py:186-204 | For any inventory, also with repeated ids: it is refused by a unique constraint exactly if, item by item, its ids and identities break a ledger of who holds each id and what was ever seen; an accepted one is recorded, the last item of each id with its references and its lease |
| Inventory.AcceptedIffEver | server/temporalrca_server/api.py:186-204 | So it is for every inventory in every state that inventories and sweeps reach |
| Inventory.DistinctAcceptedIff | server/temporalrca_server/api.py:186-204 | With distinct ids: it is refused exactly if it shows a known process, or one process twice, under another id |
| Inventory.ReturnConflicts | server/temporalrca_server/api.py:189-194 | Three inventories under one id, a process, another one, and the first again: two are accepted, the third is refused |
| Inventory.TripleConflicts | server/temporalrca_server/api.py:191 | An inventory of three new processes under one id is refused, because two rows retire without a primary key |
| Inventory.DiscoveryNeverConflicts | server/temporalrca_server/api.py:186-204 | With ids of the form boot:pid:ticks no run ever retires a row or hits a conflict |
| ProcessIdentity.KeyIsInjective | agent/src/temporalrca_agent/discovery.py:11-19 | Two processes with one key have the same boot, pid and start ticks, whatever the boot id looks like |
| ProcessIdentity.KeyText | agent/src/temporalrca_agent/discovery.py:18-19 | The key of boot 3f2a, pid 42 and start ticks 1007 is 3f2a:42:1007 |
| Inventory.ActiveHasLease | server/temporalrca_server/api.py:236-245 | Right after an accepted inventory every active row has a lease that still runs |
| Inventory.ActiveUntilFound | server/temporalrca_server/maintenance.py:74-75 | Over every run that does not report it, a resource stays as it is, and active until the first step that finds its lease over (an inventory at its end, a sweep after it) |
| Inventory.LinksAre | server/temporalrca_server/api.py:206-234 | After an accepted inventory there is a link exactly if there was one or a reported dependency lists the service; a reported one is active, seen now, and first seen as before or now; any other keeps both times and stays active exactly while the lease of its dependency runs |
| Inventory.ReportedKeepsLink | server/temporalrca_server/api.py:227-234 | A dependency that is reported without the service keeps an active link active |
| Inventory.NoLinkDangles | server/temporalrca_server/api.py:206-225 | Over every run both ends of every link are known |
| Inventory.UnknownServiceIff | server/temporalrca_server/api.py:214-219 | An inventory without a conflict is refused exactly if some dependency lists a service that is neither known nor reported; a refused one changes nothing |
| Inventory.UpsertIs | server/temporalrca_server/api.py:161-185 | Services, containers and dependencies: reported rows get the new lease, keep their first sighting and have the name that the report gives last; others stay |
| Inventory.HostInventory.ReconcileInventory | server/temporalrca_server/api.py:148-263 | One transaction: upserts, retirement, links, lapses; rolled back on a conflict or an unknown service |
| Inventory.HostInventory.SweepLeases | server/temporalrca_server/maintenance.py:74-75 | In all four tables, active rows whose lease is over become inactive and nothing else changes |
| Inventory.TouchLinks | server/temporalrca_server/api.py:206-225 | The loop over dependencies and their services: stops at an unknown service, else there is a link exactly where there was one or a dependency lists the service |
| Inventory.ReconcileProcess | server/temporalrca_server/api.py:187-203 | One process item: a row with the id and the identity is touched, one with another identity is retired and a new row created, else a row is created |
| Discovery.LogReplays | agent/src/temporalrca_agent/discovery.py:64-79 | Over every run of scans: after each scan the records alone reconstruct the associations and each record fits those before it, exactly if in every scan only the last entry of an identity says anything new |
| Discovery.ReplaysLegally | agent/src/temporalrca_agent/discovery.py:64-79 | One scan, from any associations: its records replay to the new ones and fit in order exactly if it is of that kind |
| Discovery.DistinctIsClean | agent/src/temporalrca_agent/discovery.py:64-79 | Scans that list no process twice are of that kind |
| Discovery.ListedTwice | agent/src/temporalrca_agent/discovery.py:65-74 | A first scan that lists a process twice breaks the log |
| Discovery.ReplayIsCurrent | agent/src/temporalrca_agent/discovery.py:64-79 | For any scan, also with repeated processes: its records replay to the new associations exactly if no process is seen changed and then as before |
| Discovery.RecordsCycle | agent/src/temporalrca_agent/discovery.py:67-77 | Over every such run the records of one identity are cycles of started, any number of changes, stopped, each from the service the last one left |
| Discovery.PidReuse | agent/src/temporalrca_agent/discovery.py:67-77 | A pid that comes back with other start ticks stops the old process and starts a new one |
| Discovery.PidReused | agent/src/temporalrca_agent/discovery.py:64-79 | Over two scans of processes of one boot: a pid that comes back with other start ticks gives a stopped record of the old identity with its service and a started record of the new one with its own |
| Discovery.OneKeyIff | agent/src/temporalrca_agent/discovery.py:11-19 | Two listed processes have one key exactly if pid and start ticks agree |
| Discovery.RecordsInOrder | agent/src/temporalrca_agent/discovery.py:64-79 | The records of stopped processes come last, in the order of first sight, the others in the order of the scan |
| Discovery.FirstSightOrder | agent/src/temporalrca_agent/discovery.py:65-74 | The dictionary keeps its keys in the order of first sight |
| Discovery.FirstMatchWins | agent/src/temporalrca_agent/discovery.py:45-49 | The first matching rule decides, none gives no service |
| Discovery.AssignService | agent/src/temporalrca_agent/discovery.py:45-49 | The loop finds the first matching rule |
| Discovery.DiscoveryState.Reconcile | agent/src/temporalrca_agent/discovery.py:64-79 | One scan: the records and the new associations |
| Discovery.Scan | agent/src/temporalrca_agent/discovery.py:65-74 | The loop over the processes gives the new associations in order of first sight, and the records of what appeared or changed |
| Discovery.Gone | agent/src/temporalrca_agent/discovery.py:75-77 | The loop over the old associations gives a stopped record for each that is gone |
| LogReader.ReaderIsExact | agent/src/temporalrca_agent/collectors/logs.py:39-65 | For an append-only file, any number of reads at any growth points and any positive line cap: the emitted entries are the complete lines of the consumed prefix, each cut to the maximum and marked truncated exactly if longer; partial line and flag describe the rest |
| LogReader.ReadStep | agent/src/temporalrca_agent/collectors/logs.py:39-65 | One read is exact and, if anything is unread, advances |
| LogReader.ReadPart | agent/src/temporalrca_agent/collectors/logs.py:39-65 | From any cursor with a partial line of no newline: a read emits the lines of the partial line followed by the bytes it advances over |
| LogReader.ReadStarts | agent/src/temporalrca_agent/collectors/logs.py:44-51 | A file with another device or inode than the cursor, or shorter than its offset, is read like a new one from its first byte, whatever its content; any other goes on at the offset behind the partial line |
| LogReader.ReadReaches | agent/src/temporalrca_agent/collectors/logs.py:50-63 | A read takes at most max_lines lines and max_line_bytes * max_lines + 1 bytes, and gets to one of these limits or to the end of the file |
| LogReader.CutIs | agent/src/temporalrca_agent/collectors/logs.py:88-90 | A cut line is the longest beginning that fits, marked as truncated exactly if it is not the whole line |
| LogReader.ReadsToTheEnd | agent/src/temporalrca_agent/collectors/logs.py:39-65 | A file that stops growing is read completely, after at most as many reads as it has bytes |
| LogReader.ReadBeyondCap | agent/src/temporalrca_agent/collectors/logs.py:58-63 | Beyond the line cap the offset is rewound to the end of the last line taken |
| LogReader.ReadWithinCap | agent/src/temporalrca_agent/collectors/logs.py:54-65 | Within the cap the trailing bytes become the partial line |
| LogReader.ZeroCapLosesPartial | agent/src/temporalrca_agent/collectors/logs.py:52-63 | With a cap of zero a read is exact only while no newline comes into sight |
| LogReader.SplitIsExact | agent/src/temporalrca_agent/collectors/logs.py:54-56 | Splitting at newlines loses nothing and leaves no newline in a piece |
| LogCollector.CrashSafety | agent/src/temporalrca_agent/runtime.py:287-302 | With crashes and restores between any two steps, failed appends, and files that grow, are rotated to any length, truncated in place to less than the cursor, vanish and come back: what is durable is exactly the cut complete lines of the consumed portions, at most one portion of each generation of the file, the last one up to the durable cursor |
| LogCollector.ReplacedUnnoticed | agent/src/temporalrca_agent/collectors/logs.py:46-49 | For a file that was truncated and has grown past the cursor, or a new one under the old inode: the next round is exact exactly if none of its lines lies before the offset and its first line comes out of the seam of the old partial line and the bytes at the offset |
| LogCollector.UnnoticedHappens | agent/src/temporalrca_agent/collectors/logs.py:46-49 | A run from the start with such a file whose line is never read |
| LogCollector.StalePendingSkips | agent/src/temporalrca_agent/collectors/logs.py:67-81 | After a failed append and a missing file the stale cursor is stored; nothing is skipped exactly if the failed round had no entries |
| LogCollector.SkipHappens | agent/src/temporalrca_agent/collectors/logs.py:67-81 | A run from the start that skips a line this way |
| LogCollector.StaleCursorRepeats | agent/src/temporalrca_agent/runtime.py:300-302 | After an error between the append and the commit the lines are appended again, exactly if there were any |
| LogCollector.RepeatHappens | agent/src/temporalrca_agent/runtime.py:300-302 | A run from the start that appends a line twice this way |
| LogCollector.StepKeeps | agent/src/temporalrca_agent/runtime.py:287-302 | Each other step keeps the invariant of memory, durable cursor and durable entries |
| LogCollector.FileLogCollector.Collect | agent/src/temporalrca_agent/collectors/logs.py:67-76 | One read; a missing file gives nothing and leaves a pending cursor |
| LogCollector.FileLogCollector.Restore | agent/src/temporalrca_agent/collectors/logs.py:32-37 | The stored cursor is taken over |
| LogCollector.FileLogCollector.CommitStateUpdate | agent/src/temporalrca_agent/collectors/logs.py:83-86 | The pending cursor becomes the cursor |

## Left out

- Spool.ByteCap: the timestamps of `created` are given; the real-time clock and its float are not modelled.
- Runtime.Agent.Sender: waiting, back-off delays, cancellation and the stop event are not modelled; each iteration gets one answer, and an exception counts as a retry. `backoff_delay` overflows its float at attempt 1024; progress is stated for completed iterations.
- Delivery.NoSilentLoss: the reason of a rejection is one constant text, and quarantine timestamps are not modelled. The sequence number can repeat after a crash because it is stored last; nothing rests on it. A power failure that takes a committed transaction with it is not a step.
- Ingestion.Server.IngestBatch: authentication, decompression and the schema itself are not modelled; `wellFormed` stands for schema validation of an event and `parsed` for that of the body. A conflicting delivery without a saved receipt ends in ServerError.
- Delivery.SentBatchIsCommitted: the compressed size of a request is a parameter; in the state machine the 413 for it is a refusal that may come at any time.
- SeriesResolution.Database.MetricSeriesBatch: an event carries its references as text; isolation is that each statement sees all earlier commits.
- Maintenance.RollupsConverge: passes have a clock that does not go back, and are atomic; samples have timestamps from 1970 on. The log rollups are the same statement over another table.
- Aggregates.MergeDescribes: rounding of floats is not modelled. `last` is the value of some sample with the greatest timestamp, because the rollup statement, the splice and the raw branch break ties in different ways.
- Slots.WidthIsLeast: the division of seconds as floats is exact here.
- Query.RollupsAreExact: stated for a lateness that is a multiple of five minutes; with another one the rows or the raw samples of the bucket that the splice starts in may be incomplete.
- Query.QueryMetrics: the choice of series ids by name and entity is a parameter, with container incarnations; timestamps before 1970 would be truncated towards zero by `int`.
- LogReader.ReaderIsExact: decoding with replacement, JSON parsing and severity are functions of the cut line and are not modelled.
- LogCollector.CrashSafety: a rotation abandons what was unread of the old file, as in the code.
- Paging.SessionExactlyOnce: the text of the cursor and its 422 are not modelled.
- Inventory.ProcessesKeepTheirIdentity: the cut of a retired id to 255 characters is not modelled, and reported ids do not start with `retired:`. The watermark, the snapshot row and the response map are left out.
- Inventory.HostInventory.ReconcileInventory: attributes, images and commands are carried by the name alone; a service listed twice for one dependency touches its link twice.
- Discovery.AssignService: what makes a rule match (regular expressions, pid files, cgroup text) is a parameter.
- The dashboard, charts, live updates, exports, credentials, registration and the experiment tools.
- The Docker, process, PostgreSQL, Redis and OpenMetrics collectors and the journal collector: input and output, with clamped differences of counters.
- HTTP, compression, asyncio scheduling and threads: replaced by steps in any order.
