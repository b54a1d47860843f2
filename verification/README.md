# Verification of the agent platform's stores, queries and streams

Dafny models of the parts of the platform that hold state or do arithmetic, with
proofs about every input, every run or every interleaving. `dafny verify
dfyconfig.toml` checks the whole project.

**Log queries.** `SqlModel` gives SQL statements with numbered parameters a
meaning on tables. `SqlBuilder`, `EventQuerySql` and `RawLogStore` build the
statements with the running index, and show that evaluating them is filtering,
sorting and taking. `Cursors`, `EventPages` and `RawLogPages` are the keyset
walks; the raw-log walk is proved with inserts and expiry between any two store
queries.

**Log ingest.** `IngestStore` is the write-once store, `IngestBatch` the
partial-success batch, `IngestValidation` the normalisation, shown to be a
retraction.

**Agent threads.** `ThreadModel` has the two tables and one step per
transaction. `ThreadInvariants` and `ThreadDelivery` are about every run,
`ThreadService` adds what the service asks of the store, and `ThreadStore` is
the class whose methods carry out the steps.

**Streams and fan-out.** `SseStream` (event streams as in sections 9.2.5 and
9.2.6 of the WHATWG HTML Living Standard), `McpTransport` (both framings),
`DockerLogs` (multiplexed frames), `RelayFanout` (drop-oldest queues).

**Smaller machines.** `ManifestParsing`, `ManifestParser`, `ManifestMeaning`,
`ManifestMigration` (legacy manifests) and `ManifestPayload` (manifests answered
and read again), `SchedulerRuns` (run bookkeeping under
interleaving), `UpdatePolling` (long polling across crashes), `AgentRegistry`
(two maps).

`PyText`, `JsonModel`, `Bytes` and `Wrappers` hold text, decoded JSON, bytes and
the option and result types.

## Assumptions and parameters

- A timestamp is an integer. Its text form is a parameter that parses back, is
  trimmed, not empty and has no `|` (`Cursors.Faithful`; met by
  `Cursors.DecimalClockIsFaithful`).
- JSON text is a parameter of the message framing: it parses back, starts with
  `{`, ends with a character that is no blank and holds no raw newline
  (section 7 of RFC 8259; met by `McpTransport.TextCodec`). Elsewhere payloads are
  compared as values.
- What `str()` prints between the brackets of a list or a dict, dict iteration
  order, `shlex.split`, byte and JSON sizes, and the configured limits are
  parameters.
- A transaction, and any single store call, is one atomic step that reads the
  clock once. The keys are those of the three `schema.sql` files: primary keys,
  the partial unique indexes on open threads, one value per label key, the
  foreign key of raw logs, serial log ids that are never reused, cascading
  deletion of runs.
- In a raw-log walk the table seen by the k-th store query is an arbitrary
  element of a history of inserts and expiries.
- The Telegram server returns ascending update ids at or above the offset.
- The database compares text by code point, as Python does.

## Where a promise fails

Each of these is stated with the exact condition under which the code keeps it.

- A raw log may name an event other than its own. When that event is unknown, the
  insert fails after the event is stored, and the retry is answered as a
  duplicate: the log is lost (`IngestStore.RawLogsStoredIff`,
  `IngestStore.UnknownEventLosesLogs`).
- A batch with such a log stops there. Sent again, it carries on with the events
  that were left out, so the tables change and it may fail again. It changes
  nothing if and only if none was left out, which can be told from ids before
  sending (`IngestBatch.BatchReplay`, `IngestBatch.GoesThroughIff`,
  `IngestBatch.StoppedBatchExists`).
- Counters are written by job name. A job deleted and recreated under the same
  name while a run is between reading and writing gets the other job's count
  (`SchedulerRuns.AddJobSafeIffCareful`, `SchedulerRuns.RecreatedJobMiscounts`).
- A URL with a blank before its final slashes is stored under a key that looking
  up that key does not find; the lookup may even find another agent's entry
  (`AgentRegistry.ReportedUrlFoundIff`, `AgentRegistry.OtherAgentsEntry`).
- A log stream cut inside a frame header shows the header bytes as text
  (`DockerLogs.CutKeepsPrefix`, `DockerLogs.HeaderByteShown`).
- Migrating a manifest whose backend is not a known one yields a manifest that
  does not parse, because the runtime and its image are dropped
  (`ManifestMigration.MigrationPreservesMeaning`,
  `ManifestMigration.CustomBackendBreaks`).
- A request object built in process, not from the wire, may carry blank ids or ids
  with outer blanks; raw logs that inherit them change on a second validation
  (`IngestValidation.RequestFixedIff`, `IngestValidation.BlankIdDoesNotSettle`).
- A command given as one text may hold a quoted word with blanks around it. It is
  parsed as it is, but lost when the manifest is answered as a payload and read
  again (`ManifestPayload.ReadBackIff`, `ManifestPayload.QuotedBlankIsLost`).

## Model

| member | source | states |
|---|---|---|
| PyText.Find | src/core/telegram_events/_sse_stream.py:37-38 | `Find` returns the first occurrence of a separator and nothing when there is none, as `in` and `split(sep, 1)` do |
| PyText.StripMeaning | src/core/agent_log_analysis/validation_scalars.py:10-23 | stripping removes the blanks at both ends and nothing else |
| PyText.TextLessTotal | src/core/orchestra_thread/common.py:36-40 | exactly one of a < b, b < a, a = b holds for texts |
| PyText.TextLessTransitive | src/core/orchestra_thread/common.py:36-40 | the text order is transitive |
| PyText.TextLessMeaning | src/core/orchestra_thread/common.py:36-40 | a text is less than another exactly when it is a proper prefix of it or has the smaller character at the first difference |
| PyText.SplitJoin | src/core/telegram_events/_sse_parser.py:12-23 | splitting a joined list gives the list back when no part holds the separator's first character |
| PyText.JoinSplit | src/core/telegram_events/_sse_parser.py:12-23 | joining a split text gives the text back, always |
| PyText.IntRoundTrip | src/core/agent_log_analysis/validation_query_cursors.py:21-32 | a printed non-negative number parses back to itself |
| PyText.NegativeRoundTrip | src/core/agent_log_analysis/validation_query_cursors.py:21-32 | so does a printed negative number |
| SqlModel.BelowTotal | src/core/agent_log_analysis/store_query_sql.py:70-80 | (time, id) keys are totally ordered under the cursor comparison |
| SqlModel.BelowTransitive | src/core/agent_log_analysis/store_query_sql.py:70-80 | the cursor comparison is transitive |
| SqlModel.SortIsListing | src/core/agent_log_analysis/store_query_sql.py:53-67 | ORDER BY lists exactly the rows of a table with a primary key, strictly descending |
| SqlModel.ListingUnique | src/core/agent_log_analysis/store_query_sql.py:53-67 | a strictly descending listing is determined by the rows in it, so ORDER BY has one answer |
| SqlModel.ListingMeaning | src/core/agent_log_analysis/store_query_sql.py:53-67 | WHERE then ORDER BY keeps exactly the matching rows, in order |
| SqlModel.ListingBelow | src/core/agent_log_analysis/store_query_sql.py:70-80 | restricting a listing to keys below its n-th row drops exactly its first n rows: the reason keyset paging works |
| SqlModel.FilterTwice | src/core/agent_log_analysis/store_query_sql.py:41-51 | filtering in two passes is filtering by the conjunction |
| SqlBuilder.AllHoldAppend | src/core/agent_log_analysis/store_query_sql.py:83-94 | an appended clause narrows the statement by exactly that clause |
| SqlBuilder.AllHoldStable | src/core/agent_log_analysis/store_query_sql.py:41-51 | appending parameters never changes what an already bound clause means |
| SqlBuilder.StatementBuilder.constructor | src/core/agent_log_analysis/store_query_sql.py:41-51 | a builder starts from the given clauses and values |
| SqlBuilder.StatementBuilder.AppendCursor | src/core/agent_log_analysis/store_query_sql.py:70-80 | the cursor clause is numbered right and keeps exactly the rows below the cursor; without a cursor nothing changes |
| SqlBuilder.StatementBuilder.AppendColumn | src/core/agent_log_analysis/store_query_sql.py:83-94 | one more column filter is numbered right and keeps exactly the rows with that value |
| SqlBuilder.StatementBuilder.AppendLimit | src/core/agent_log_analysis/store_query_sql.py:53-67 | the limit becomes the last parameter and is referred to by its position |
| SqlBuilder.ScopeClauses | src/core/agent_log_analysis/store_query_sql.py:41-51 | the three fixed clauses select the agent and the time window, both ends included |
| EventQuerySql.JoinAllStable | src/core/agent_log_analysis/store_query_sql.py:97-114 | later parameters leave earlier label joins alone |
| EventQuerySql.LabelCountIsMembership | src/core/agent_log_analysis/schema.sql:24-28 | with one value per label key, an event joins a label at most once |
| EventQuerySql.JoinIsFilter | src/core/agent_log_analysis/store_query_sql.py:97-114 | joining on a label is filtering by it, because (event_id, label_key) is unique |
| EventQuerySql.JoinStep | src/core/agent_log_analysis/store_query_sql.py:97-114 | each further join narrows the rows by exactly one more label |
| EventQuerySql.AppendColumnFilters | src/core/agent_log_analysis/store_query_sql.py:83-94 | any number of column filters: every placeholder is bound, and a row is kept exactly when every filter on one of the eleven named columns equals its column |
| EventQuerySql.FiltersMeaning | src/core/agent_log_analysis/store_query_sql.py:24-38 | the filters hold of a row exactly when every filter on one of eleven named columns does; a filter on any other column says nothing |
| EventQuerySql.SelectorMeaning | src/core/agent_log_analysis/store_query_sql.py:41-51 | which events a query matches: agent, both ends of the window, the eleven filter columns, every wanted label, and the position strictly below the cursor, each written out on the columns |
| EventQuerySql.ListingIsPage | src/core/agent_log_analysis/store_query_sql.py:53-67 | the first rows of the sorted, filtered table are a page: at most limit rows, newest first, all matching, and a matching event is left out only below a full page |
| EventQuerySql.ApplyLabels | src/core/agent_log_analysis/store_query_sql.py:97-114 | any number of label filters: aliases are distinct, placeholders bound, and the joins equal the direct label filter on every table |
| EventQuerySql.BuildEventQuery | src/core/agent_log_analysis/store_query_sql.py:41-67 | for every query the compiled statement is accepted and, on every event and label table, returns a page: at most limit rows, newest first, all matching agent, window, the eleven filter columns, labels and cursor, and none missing but below a full page |
| EventQuerySql.WhereAfterJoin | src/core/agent_log_analysis/store_query_sql.py:53-67 | joins, clauses, order and limit compose to the page the query asks for |
| EventQuerySql.PageHasNoDuplicates | src/core/agent_log_analysis/store_query_sql.py:53-67 | a page holds every event at most once and only matching ones |
| Cursors.SeparatorFound | src/core/agent_log_analysis/validation_query_cursors.py:11-18 | the first separator of a cursor is the one it was built with, even if the id holds more of them |
| Cursors.EventCursorRoundTrip | src/core/agent_log_analysis/validation_query_cursors.py:11-18 | an event cursor parses back to its time and id if and only if the id is non-empty and has no outer blanks |
| Cursors.EventCursorMeaning | src/core/agent_log_analysis/validation_query_cursors.py:11-18 | for any cursor text: without a | it is refused; else it is accepted exactly when a time stands before the first | and something not blank behind it, and yields that time and that text, stripped |
| Cursors.RawLogCursorText | src/core/agent_log_analysis/validation_query_cursors.py:21-32 | a raw-log cursor parses back whenever its id text parses as a number |
| Cursors.RawLogCursorRoundTrip | src/core/agent_log_analysis/validation_query_cursors.py:21-32 | a raw-log cursor parses back to its time and log id |
| Cursors.RawLogCursorMeaning | src/core/agent_log_analysis/validation_query_cursors.py:21-32 | for any raw-log cursor text: without a | it is refused; else it is accepted exactly when a time stands before the first | and a number behind it, and yields these |
| EventPages.QueryAgentEvents | src/core/agent_log_analysis/event_query_service.py:33-42 | one page is the head of the sorted, filtered table, with a cursor exactly when it is full |
| EventPages.CursorSelects | src/core/agent_log_analysis/store_query_sql.py:70-80 | the query at a row's cursor selects what the query selects below that row |
| EventPages.AdvanceCursor | src/core/agent_log_analysis/event_query_service_support.py:22-29 | the query continued from the last row of a full page lists exactly the rest |
| EventPages.FullPage | src/core/agent_log_analysis/event_query_service_support.py:22-29 | a full page leaves strictly less to list, all of it below its last row |
| EventPages.NextPage | src/core/agent_log_analysis/event_query_service_support.py:22-29 | the emitted cursor parses back and continues the walk; no cursor means the walk is complete |
| EventPages.WalkEvents | src/core/agent_log_analysis/event_query_service_support.py:22-29 | feeding every next_cursor back until there is none yields the whole filtered list in order, nothing missing, nothing twice; the walk ends |
| EventPages.WholeListing | src/core/agent_log_analysis/event_query_service_support.py:22-29 | the whole filtered list is every matching event once, newest first |
| RawLogStore.EvolvesTransitive | src/core/agent_log_analysis/store_raw_logs.py:45-85 | inserts and expiry compose |
| RawLogStore.AppendOptional | src/core/agent_log_analysis/store_raw_logs.py:116-138 | each present optional filter adds one bound clause, absent ones none |
| RawLogStore.BuildRawLogQuery | src/core/agent_log_analysis/store_raw_logs.py:87-114 | the compiled raw-log statement returns, on every table, the page its parameters describe |
| RawLogStore.OptionalFiltersMeaning | src/core/agent_log_analysis/store_raw_logs.py:129-138 | the optional filters test run, thread and correlation id |
| RawLogStore.SelectorMeaning | src/core/agent_log_analysis/store_raw_logs.py:87-138 | which rows a raw-log query matches: agent, window, run, thread, correlation id and the position strictly below the cursor, written out on the columns |
| RawLogStore.RawLogTable.constructor | src/core/agent_log_analysis/schema.sql:31-33 | a new table is empty and numbers from 1 |
| RawLogStore.RawLogTable.InsertRawLog | src/core/agent_log_analysis/store_raw_logs.py:45-66 | an insert appends one row under an id no row ever had |
| RawLogStore.RawLogTable.DeleteExpiredRawLogs | src/core/agent_log_analysis/store_raw_logs.py:79-85 | expiry removes exactly the rows older than the cutoff and counts them |
| RawLogStore.RawLogTable.QueryRawLogs | src/core/agent_log_analysis/store_raw_logs.py:68-77 | a query returns the head of the sorted, filtered table |
| RawLogPages.HistoryEvolves | src/core/agent_log_analysis/store_raw_logs.py:45-85 | any two tables of a history are related by inserts and expiry |
| RawLogPages.WriteOnce | src/core/agent_log_analysis/schema.sql:31-33 | a log id names the same row whenever it is seen |
| RawLogPages.NarrowMeaning | src/core/agent_log_analysis/raw_log_service.py:57-69 | one service-side filter keeps the matching rows in order |
| RawLogPages.ApplyFiltersMeaning | src/core/agent_log_analysis/raw_log_service.py:57-69 | the service-side filters keep exactly the rows with the wanted source and level |
| RawLogPages.WantedMeaning | src/core/agent_log_analysis/raw_log_service.py:29-69 | a row is wanted by a request exactly when its agent, time, run, thread, correlation id, source and level are the ones asked for |
| RawLogPages.PageMeaning | src/core/agent_log_analysis/store_raw_logs.py:87-101 | a store page holds matching rows only, and every matching row outside it lies below a full page |
| RawLogPages.AdvanceScan | src/core/agent_log_analysis/raw_log_service.py:29-55 | moving the cursor to a page's last row continues the same query strictly below it |
| RawLogPages.FoldPage | src/core/agent_log_analysis/raw_log_service.py:29-55 | one filtered store page folded into the result keeps it sound and leaves nothing above the scan position behind |
| RawLogPages.Round | src/core/agent_log_analysis/raw_log_service.py:29-55 | one turn of the refetch loop either finishes the answer or continues below the last page |
| RawLogPages.GetAgentRawLogs | src/core/agent_log_analysis/raw_log_service.py:29-55 | with inserts and expiry between any two store queries the page is sorted, within limit, holds only rows seen, and misses no row present throughout except below a full page; the loop terminates |
| RawLogPages.StaticPage | src/core/agent_log_analysis/raw_log_service.py:29-55 | on an unchanging table one call equals the first limit rows of the sorted, filtered table |
| RawLogPages.CollectPage | src/core/agent_log_analysis/raw_log_service.py:71-91 | a page read at the cursor extends what was collected before it, without overlap or gap |
| RawLogPages.NextScan | src/core/agent_log_analysis/raw_log_service.py:71-91 | the cursor text of a full page parses back to the position below its last row |
| RawLogPages.WalkRawLogs | src/core/agent_log_analysis/raw_log_service.py:29-91 | following next_cursor while others insert and expire rows: no row twice, every row returned matched and was in the table, every matching row present throughout is returned; the walk terminates |
| RawLogPages.WalkedIdsUnique | src/core/agent_log_analysis/raw_log_service.py:29-91 | a walk never returns a log id twice |
| ThreadModel.ParticipantsUnordered | src/core/orchestra_thread/common.py:36-40 | the participant pair is the same from either side and ordered |
| ThreadModel.OpenMeaning | src/core/orchestra_thread/store_thread_creation.py:148-176 | a thread is open exactly when its status is neither done nor closed |
| ThreadModel.RunExtend | src/core/orchestra_thread/store_thread_events.py:52-78 | one more transaction is one more step of the run |
| ThreadModel.RunSplit | src/core/orchestra_thread/store_thread_events.py:52-78 | a run can be cut anywhere |
| ThreadInvariants.TerminalIsNormal | src/core/orchestra_thread/common.py:10-33 | the terminal statuses are their own normal form |
| ThreadInvariants.AppendKeepsNumbering | src/core/orchestra_thread/store_thread_events.py:101-168 | an append gives the next number and keeps numbers gapless and distinct |
| ThreadInvariants.OtherStepsKeepNumbers | src/core/orchestra_thread/store_delivery.py:55-127 | no other transaction touches an event number |
| ThreadInvariants.NewPairIsNormal | src/core/orchestra_thread/common.py:36-40 | a normalised pair normalises to itself |
| ThreadInvariants.NormalPairsAgree | src/core/orchestra_thread/common.py:36-40 | an unordered pair has one normal pair of columns |
| ThreadInvariants.StepKeepsPairsNormal | src/core/orchestra_thread/store_thread_creation.py:55-146 | every transaction keeps the participant columns in normal order |
| ThreadInvariants.CreateKeepsOneOpen | src/core/orchestra_thread/schema.sql:37-43 | a thread is created only where no open thread of the same two agents is, in either order |
| ThreadInvariants.OtherStepsReopenNone | src/core/orchestra_thread/store_notifications.py:14-36 | no other transaction moves or reopens a thread |
| ThreadInvariants.StepKeepsOneOpen | src/core/orchestra_thread/store_thread_creation.py:55-176 | every transaction keeps at most one open thread per parent and unordered pair |
| ThreadInvariants.StepKeepsKeyed | src/core/orchestra_thread/schema.sql:20-73 | every transaction keeps both tables keyed and events tied to their thread |
| ThreadInvariants.ReachableInvariant | src/core/orchestra_thread/store_thread_events.py:52-168 | in every reachable state event numbers of a thread are exactly 1..last_sequence_no, and at most one open root exists per unordered pair and one open child per (parent, pair) |
| ThreadInvariants.TerminalStepFrozen | src/core/orchestra_thread/store_notifications.py:14-36 | one transaction cannot change a terminal thread's status, numbering, terminal time or events |
| ThreadInvariants.TerminalForever | src/core/orchestra_thread/store_notifications.py:14-36 | a done or closed thread never changes status, event count or terminal time and never gains an event, in any continuation |
| ThreadInvariants.QuietForever | src/core/orchestra_thread/store_delivery.py:113-127 | a terminal thread with nothing waiting stays that way |
| ThreadInvariants.CancelledForever | src/core/orchestra_thread/store_delivery.py:113-127 | after cancelling, no event of a terminal thread ever waits again |
| ThreadInvariants.GetOrCreateYieldsOne | src/core/orchestra_thread/store_thread_creation.py:55-146 | afterwards the pair has exactly one open thread, unless it had none and the insert was refused |
| ThreadInvariants.GetOrCreateIdempotent | src/core/orchestra_thread/store_thread_creation.py:55-146 | asking again from the other side changes nothing |
| ThreadInvariants.CreateOpens | src/core/orchestra_thread/store_thread_creation.py:55-146 | the exact condition under which the pair ends up with an open thread |
| ThreadDelivery.RowsAgree | src/core/orchestra_thread/store_delivery.py:55-127 | an event row always agrees with the steps that concerned it since it was appended |
| ThreadDelivery.StoredWasBorn | src/core/orchestra_thread/store_thread_events.py:101-168 | every stored event was appended at some step |
| ThreadDelivery.DueRefinesHistory | src/core/orchestra_thread/store_delivery.py:26-53 | an event is due at t exactly when it was appended as interrupting, not delivered or cancelled since, its thread is open, and t is past creation or last failure plus the delay for its failure count |
| ThreadDelivery.PendingNeverReturns | src/core/orchestra_thread/store_delivery.py:55-127 | delivery that is off stays off |
| ThreadDelivery.RetryDelayBounds | src/core/orchestra_thread/store_delivery.py:129-138 | with max >= base >= 1 the delay never decreases with more failures, lies between base and min(max, 1024 * base), and is that maximum from 11 failures on |
| ThreadDelivery.RetryDelayDoubles | src/core/orchestra_thread/store_delivery.py:129-138 | with max >= base >= 1 the first delay is the base; each of the next ten is twice the one before, up to max; after that it stays |
| ThreadDelivery.NoticesAreSpaced | src/core/orchestra_thread/store_notifications.py:38-77 | two inactivity notices on one thread, each following its own listing, are at least the timeout apart |
| ThreadDelivery.NoticeTimeKept | src/core/orchestra_thread/store_notifications.py:67-77 | the stored notice time is that of the last notice |
| ThreadService.ContextFlags | src/core/orchestra_thread/service_notification_requests.py:35-74 | a notification is delivered exactly when it is not terminal, and terminal exactly for done and closed |
| ThreadService.NotificationAcceptedIff | src/core/orchestra_thread/service_notification_requests.py:35-60 | a notification is accepted exactly when participants, thread and text are not blank and its status, stripped and in lower case, is in_progress, review, done or closed |
| ThreadService.NotificationBuilt | src/core/orchestra_thread/service_notification_requests.py:63-74 | what an accepted notification carries, field by field; delivered for in_progress and review, terminal for done and closed |
| ThreadService.MessageStored | src/core/orchestra_thread/service/flows/message_flow.py:95-125 | a message is stored from its sender to its receiver, waits for delivery, asks for an answer and reopens the thread |
| ThreadService.NotificationStored | src/core/orchestra_thread/service/flows/notification_flow.py:98-126 | a notification is stored with its status, which the thread takes; it waits exactly when it is not terminal, and ends the thread when it is |
| ThreadService.InactivityStored | src/core/orchestra_thread/store_notifications.py:38-77 | an inactivity notice is stored from the service to its recipient, waits for delivery, and leaves status, activity and last sender of the thread alone |
| ThreadService.ServiceRequestShape | src/core/orchestra_thread/service/flows/message_flow.py:95-125 | every request the service makes sets a known status, and the terminal flag exactly with a terminal one |
| ThreadService.ServiceKeepsStatuses | src/core/orchestra_thread/service_notification_requests.py:63-74 | over any run of service requests only known statuses are stored, a thread has a terminal time exactly when terminal, and no terminal event waits |
| ThreadService.TerminalTestsAgree | src/core/orchestra_thread/common.py:31-33 | the normalised test in Python and the exact test in SQL agree on every stored status |
| ThreadService.TerminalNotificationSettles | src/core/orchestra_thread/service/flows/notification_flow.py:98-126 | a terminal notification and the cancel it triggers settle the thread for good |
| ThreadStore.Store.constructor | src/core/orchestra_thread/schema.sql:20-73 | the empty store has an empty history |
| ThreadStore.Store.GetOrCreate | src/core/orchestra_thread/store_thread_creation.py:55-146 | returns the pair's open thread and says whether it was created; a created row is given column by column; a refused insert leaves the tables alone and names the reason |
| ThreadStore.Store.AppendThreadEvent | src/core/orchestra_thread/store_thread_events.py:52-168 | succeeds exactly for a new event id on an open thread; every column of the event is the request's, its number the next; every column of the thread follows from the request and the old row; a failure changes nothing and names the reason |
| ThreadStore.Store.MarkEventDelivered | src/core/orchestra_thread/store_delivery.py:55-68 | the event is no longer pending, has the time of delivery, no next attempt and no error; nothing else changes |
| ThreadStore.Store.MarkEventFailed | src/core/orchestra_thread/store_delivery.py:70-111 | attempts goes up by one, the next attempt is now plus the delay for that count, the error is kept to 4000 characters; nothing else changes |
| ThreadStore.Store.CancelPendingEvents | src/core/orchestra_thread/store_delivery.py:113-127 | nothing of the thread waits afterwards, cancelled events keep their first error, others are untouched, and the count is that of the events that waited |
| ThreadStore.Store.UpdateThreadTerminalStatus | src/core/orchestra_thread/store_notifications.py:14-36 | an open thread takes the status and, unless it has one, the time; an ended one is left alone; the row is returned |
| ThreadStore.Store.MarkInactivitySent | src/core/orchestra_thread/store_notifications.py:67-77 | the thread's notice time is now; nothing else changes but its update time |
| ThreadStore.Store.DuePendingEvents | src/core/orchestra_thread/store_delivery.py:26-53 | at most max(1, limit) due events in delivery order; a due event is left out only below a full page |
| ThreadStore.Store.InactivityCandidates | src/core/orchestra_thread/store_notifications.py:38-65 | at most max(1, limit) threads, longest quiet first: open, with a last sender, without activity and without notice for the timeout; one is left out only below a full page |
| ThreadStore.EarliestFirst | src/core/orchestra_thread/store_delivery.py:47-49 | the first n rows under the ORDER BY: distinct, ordered, none left out that belongs before one returned |
| ThreadStore.Earliest | src/core/orchestra_thread/store_delivery.py:47-49 | a row no other comes before |
| IngestStore.KnownPrefix | src/core/agent_log_analysis/ingest_service_support.py:61-68 | raw logs go in up to the first that names an unknown event |
| IngestStore.PersistKeeps | src/core/agent_log_analysis/store_ingest.py:89-129 | one ingest leaves every stored event, its labels and its raw logs as they are |
| IngestStore.WriteOnce | src/core/agent_log_analysis/store_ingest.py:89-129 | over any run each event id keeps its first accepted payload and labels, the events stored are those before and those sent, and the raw logs added are, in order, the kept ones of exactly those calls whose event id was new |
| IngestStore.PersistGains | src/core/agent_log_analysis/ingest_service.py:47-62 | what one call adds: its event, and its kept raw logs if the event is new |
| IngestStore.OutcomeMeaning | src/core/agent_log_analysis/ingest_service.py:47-62 | over a run, an ingest is new, stored or refused, exactly when its id was neither stored before nor sent earlier, and a duplicate exactly when it is not new and the payload kept under its id equals its own |
| IngestStore.RawLogsStoredIff | src/core/agent_log_analysis/ingest_service.py:47-62 | a first accepted event's raw logs are all stored, once and in order, if and only if each names a stored event; otherwise the call fails with the event already in |
| IngestStore.UnknownEventLosesLogs | src/core/agent_log_analysis/ingest_service.py:47-62 | a concrete request whose raw log is never stored: the first call fails, the retry is a duplicate |
| IngestStore.ReplayOne | src/core/agent_log_analysis/store_ingest.py:124-129 | an ingest repeated later changes nothing; an acceptance becomes a duplicate, a conflict stays a conflict |
| IngestStore.ReplayAt | src/core/agent_log_analysis/store_ingest.py:124-129 | the same for any call of a run repeated after the whole run |
| IngestStore.SettledRun | src/core/agent_log_analysis/store_ingest.py:89-129 | calls whose events are stored change nothing and are judged one by one |
| IngestStore.ReplayChangesNothing | src/core/agent_log_analysis/store_ingest.py:132-153 | re-running a whole run leaves the tables unchanged, turns acceptances into duplicates and keeps conflicts |
| IngestStore.Store.constructor | src/core/agent_log_analysis/schema.sql:1-33 | the tables start empty |
| IngestStore.Store.InsertEvent | src/core/agent_log_analysis/store_ingest.py:89-129 | inserts a new id with its labels; a known id is a duplicate or a conflict by payload and changes nothing |
| IngestStore.Store.InsertRawLog | src/core/agent_log_analysis/store_raw_logs.py:45-66 | the foreign key refuses a log of an unknown event |
| IngestStore.Store.InsertRawLogs | src/core/agent_log_analysis/ingest_service_support.py:61-68 | succeeds exactly when every log names a stored event, else stops there |
| IngestStore.Store.PersistEvent | src/core/agent_log_analysis/ingest_service.py:47-62 | the outcome and the new tables of one ingest, in all four cases |
| IngestBatch.ValidateBatch | src/core/agent_log_analysis/validation_ingest.py:41-61 | every item is validated once and lands in exactly one of the two lists, with its index |
| IngestBatch.SplitShape | src/core/agent_log_analysis/validation_ingest.py:41-61 | the lists share out the items, and every event's index is within the list it will be inserted into |
| IngestBatch.InsertBefore | src/core/agent_log_analysis/ingest_service.py:64-72 | inserting before a last element leaves it last |
| IngestBatch.OrderRestored | src/core/agent_log_analysis/ingest_service.py:64-72 | error results first, then each event result inserted at its own index, gives one result per input in input order |
| IngestBatch.PositionBelongs | src/core/agent_log_analysis/ingest_service.py:64-72 | position i belongs to input i: an invalid item's error, or the result of the event of the same rank |
| IngestBatch.PersistBatchResults | src/core/agent_log_analysis/ingest_service_support.py:30-43 | the head/tail recursion runs the events in order and stops at a refused raw log with what was stored so far; else an event is answered as new exactly when its id was neither stored nor sent before, as a duplicate exactly when the payload first accepted equals its own, as EVENT_ID_CONFLICT otherwise, always under its own id |
| IngestBatch.NothingAbortedRunsAll | src/core/agent_log_analysis/ingest_service_support.py:30-43 | without a refusal the whole batch is run |
| IngestBatch.FirstCall | src/core/agent_log_analysis/ingest_service_support.py:30-43 | a batch is its first event followed by the rest |
| IngestBatch.PersistBatch | src/core/agent_log_analysis/ingest_service.py:64-72 | the answer has one result per input in its place: an invalid item's error, and for a valid one, by the payload first accepted under its id, new, duplicate or EVENT_ID_CONFLICT under its own event id; the tables are those of the run |
| IngestBatch.GoesThroughIff | src/core/agent_log_analysis/ingest_service_support.py:30-43 | no event of a batch is refused if and only if every new event has raw logs only of events stored or sent by then: told from ids before sending |
| IngestBatch.BatchAnswers | src/core/agent_log_analysis/ingest_service_support.py:30-43 | in a batch that goes through, each event is answered by what was stored or sent before it: new, duplicate or conflict |
| IngestBatch.EventsBefore | src/core/agent_log_analysis/store_ingest.py:89-129 | the events that run before a batch item are those of the valid items before it in the input |
| IngestBatch.ReachedIsStored | src/core/agent_log_analysis/ingest_service_support.py:30-43 | a batch leaves stored, beside what was, exactly the events up to and including the first refused one |
| IngestBatch.ReplayStableIff | src/core/agent_log_analysis/ingest_service.py:41-72 | sending a batch again changes nothing if and only if the first send left none of its events out |
| IngestBatch.ReplayOutcomes | src/core/agent_log_analysis/ingest_service.py:41-72 | in that case the second send is answered in full, acceptances as duplicates and conflicts as conflicts |
| IngestBatch.BatchReplay | src/core/agent_log_analysis/ingest_service.py:41-72 | what a batch sent again does, from the tables the first send really left: unchanged if and only if nothing was left out, refused by the same rule as any batch, and answered with duplicates and the same conflicts when nothing was left out |
| IngestBatch.GoneThroughIsComplete | src/core/agent_log_analysis/ingest_service.py:64-72 | a batch that goes through leaves no event out |
| IngestBatch.StoppedBatchMovesOn | src/core/agent_log_analysis/ingest_service.py:64-72 | two refused events: the second send fails again and changes the tables |
| IngestBatch.StoppedBatchExists | src/core/agent_log_analysis/ingest_service.py:64-72 | a concrete batch for which that happens |
| IngestValidation.RequiredText | src/core/agent_log_analysis/validation_scalars.py:10-15 | accepted text is trimmed and non-empty, and such text is returned as it is |
| IngestValidation.OptionalText | src/core/agent_log_analysis/validation_scalars.py:18-23 | the same for optional text; null gives none |
| IngestValidation.NormalizeLabels | src/core/agent_log_analysis/validation_ingest_labels.py:15-41 | the label loop computes the specified result, or the first error |
| IngestValidation.LaterErrors | src/core/agent_log_analysis/validation_ingest_labels.py:23-28 | an error at one label decides the whole |
| IngestValidation.PutKeepsClean | src/core/agent_log_analysis/validation_ingest_labels.py:23-28 | assigning a clean label keeps keys distinct and labels clean |
| IngestValidation.LabelIsClean | src/core/agent_log_analysis/validation_ingest_labels.py:31-41 | an accepted label is clean, and a clean label is accepted unchanged |
| IngestValidation.NormalizedAreClean | src/core/agent_log_analysis/validation_ingest_labels.py:15-41 | accepted labels have trimmed, distinct keys and trimmed values within the limits |
| IngestValidation.CleanAreFixed | src/core/agent_log_analysis/validation_ingest_labels.py:15-41 | clean labels normalise to themselves, in the same order |
| IngestValidation.LabelsAreFixed | src/core/agent_log_analysis/validation_ingest_labels.py:15-41 | normalising accepted labels again changes nothing |
| IngestValidation.ItemsMeaning | src/core/agent_log_analysis/validation_ingest_labels.py:15-41 | labels are accepted exactly when every stripped key and value is there and at most 64 and 256 characters long |
| IngestValidation.StoredLabels | src/core/agent_log_analysis/validation_ingest_labels.py:23-28 | the stored labels are exactly the pairs given last under their stripped key, each key once |
| IngestValidation.FieldIsFixed | src/core/agent_log_analysis/validation_ingest_records.py:137-176 | every normalised record field normalises to itself |
| IngestValidation.RecordIsFixed | src/core/agent_log_analysis/validation_ingest_records.py:29-98 | normalised inference and action records are fixed points |
| IngestValidation.InferenceFields | src/core/agent_log_analysis/validation_ingest_records.py:29-63 | the eight fields of an inference record, and what each is normalised as, its choices written out |
| IngestValidation.ActionFields | src/core/agent_log_analysis/validation_ingest_records.py:66-98 | the six fields of an action record, likewise |
| IngestValidation.RecordMeaning | src/core/agent_log_analysis/validation_ingest_records.py:29-98 | an accepted record keeps its own fields and no other, each in its normal form |
| IngestValidation.EnumFieldMeaning | src/core/agent_log_analysis/validation_ingest_records.py:150-159 | a choice is accepted exactly when it is absent or its stripped text is one of the members |
| IngestValidation.ErrorFieldMeaning | src/core/agent_log_analysis/validation_ingest_records.py:137-147 | an error text is accepted exactly when it is absent or not blank and within its byte limit |
| IngestValidation.RawFields | src/core/agent_log_analysis/validation_ingest_records.py:101-134 | the ten fields of a raw log, and what each is normalised as |
| IngestValidation.RawLogMeaning | src/core/agent_log_analysis/validation_ingest_records.py:101-134 | an accepted raw log has these ten fields and no other, each in its normal form |
| IngestValidation.InheritedMeaning | src/core/agent_log_analysis/validation_ingest_records.py:112-122 | an id of a raw log is its own text, stripped, or else the one inherited |
| IngestValidation.LevelMeaning | src/core/agent_log_analysis/validation_ingest_records.py:101-134 | a level is accepted exactly when its stripped text is one of the five |
| IngestValidation.EachMeaning | src/core/agent_log_analysis/validation_ingest.py:119-127 | raw logs are accepted exactly when each is; they stay in order, each normalised for itself |
| IngestValidation.AcceptedIdentity | src/core/agent_log_analysis/validation_ingest.py:83-116 | identity, type, time and ids of an accepted request, each from the part given |
| IngestValidation.AcceptedParts | src/core/agent_log_analysis/validation_ingest.py:83-116 | its labels, metadata, raw payload and records, each from the part given, within their byte limits |
| IngestValidation.AcceptedShape | src/core/agent_log_analysis/validation_ingest.py:63-80 | an inference event carries the inference record and no action, an action event the reverse |
| IngestValidation.AcceptedRawLogs | src/core/agent_log_analysis/validation_ingest.py:119-127 | its raw logs, normalised with its own ids as what they inherit |
| IngestValidation.WireKeys | src/core/agent_log_analysis/validation_ingest_parsers.py:13-39 | which key of a wire payload fills which text, id and record of the request |
| IngestValidation.WireContainers | src/core/agent_log_analysis/validation_ingest_parsers.py:13-39 | and which fills the metadata, labels and raw logs, in order |
| IngestValidation.InheritedSettlesIff | src/core/agent_log_analysis/validation_ingest_records.py:112-122 | an inherited raw-log field survives a second pass, whose default is the cleaned id, if and only if the log has its own value or the id is clean |
| IngestValidation.FieldSettlesIff | src/core/agent_log_analysis/validation_ingest_records.py:101-134 | any raw-log field survives a second pass if and only if it is not inherited, or settles as above |
| IngestValidation.RawLogFixedIff | src/core/agent_log_analysis/validation_ingest_records.py:101-134 | a raw log survives a second pass if and only if its run, thread and correlation id are each its own or inherited from a clean id |
| IngestValidation.RawLogsFixedIff | src/core/agent_log_analysis/validation_ingest.py:119-127 | the same for a list of raw logs |
| IngestValidation.CoercedIdsAreClean | src/core/agent_log_analysis/validation_ingest_parsers.py:13-39 | ids coerced from the wire are absent or trimmed and non-empty |
| IngestValidation.ContextIsFixed | src/core/agent_log_analysis/validation_ingest_support.py:40-47 | identity, type and time of an accepted event are accepted again unchanged |
| IngestValidation.PartsAreFixed | src/core/agent_log_analysis/validation_ingest_support.py:50-77 | so are its labels, metadata and payloads |
| IngestValidation.RequestFixedIff | src/core/agent_log_analysis/validation_ingest.py:63-127 | validating an accepted request again returns it unchanged if and only if every raw log has its own run, thread and correlation id or inherits a clean one |
| IngestValidation.Retraction | src/core/agent_log_analysis/validation_ingest.py:63-127 | so for every accepted request with clean ids |
| IngestValidation.BlankIdDoesNotSettle | src/core/agent_log_analysis/validation_ingest.py:119-127 | a concrete request with a blank run id, built in process, that a second validation changes |
| IngestValidation.WireRetraction | src/core/agent_log_analysis/validation_ingest.py:36-39 | the same for the request made from any accepted wire payload |
| IngestValidation.AcceptedEventCursor | src/core/agent_log_analysis/event_query_service_support.py:22-29 | the cursor of any accepted event comes back intact |
| SseStream.FindStable | src/core/telegram_events/_sse_stream.py:37-38 | a block boundary found early stays the first when more text follows |
| SseStream.ConsumeAppend | src/core/telegram_events/_sse_stream.py:32-44 | reading text in two parts is reading it at once |
| SseStream.BlockStep | src/core/telegram_events/_sse_stream.py:37-43 | one turn of the loop handles one block |
| SseStream.ProcessBuffer | src/core/telegram_events/_sse_stream.py:32-44 | fires the complete blocks in order and returns the remainder |
| SseStream.StreamStep | src/core/telegram_events/_sse_stream.py:28-29 | one more chunk extends what one pass would have done |
| SseStream.ProcessStream | src/core/telegram_events/_sse_stream.py:18-29 | however the text is cut into chunks and wherever it is stopped, the same events fire in order and the same remainder is kept as in one pass |
| SseStream.FailureIsFinal | src/core/telegram_events/_sse_stream.py:18-44 | nothing received after a failure could have changed it |
| SseStream.BlockOfPayload | src/core/telegram_events/_sse_parser.py:12-23 | a written payload parses back from its block |
| SseStream.BlockMeaning | src/core/telegram_events/_sse_parser.py:12-23 | a block decodes to what its data lines, stripped and joined, decode to; without a data line it is no event |
| SseStream.DataOfLine | src/core/telegram_events/_sse_parser.py:12-15 | a line adds its text to the data exactly when it starts with data: |
| SseStream.BlockEndsAtBlankLine | src/core/telegram_events/relay_compat_http_support.py:19-20 | a written payload ends at its own blank line and nowhere earlier |
| SseStream.WriteReadRoundTrip | src/core/telegram_events/relay_compat_http_support.py:8-20 | parsing what the relay wrote yields exactly the payloads, and nothing is left over |
| DockerLogs.ReadFrame | src/core/docker_mcp/log_decode.py:52-58 | one frame: the bytes of its payload that are there, and the cursor after it |
| DockerLogs.DecodeRawStream | src/core/docker_mcp/log_decode.py:42-49 | the cursor strictly advances and the chunks are the demultiplexed bytes |
| DockerLogs.DecodeLogsOutput | src/core/docker_mcp/log_decode.py:27-32 | only recognised streams are demultiplexed |
| DockerLogs.FramesThenRest | src/core/docker_mcp/log_decode.py:42-58 | frames followed by anything decode to their payloads and then the rest |
| DockerLogs.StreamRoundTrip | src/core/docker_mcp/log_decode.py:35-58 | a non-empty list of frames is recognised as a stream and decodes to its payloads |
| DockerLogs.CutStream | src/core/docker_mcp/log_decode.py:42-58 | a stream cut inside a payload yields the prefix up to the cut; one cut inside a header yields the header bytes |
| DockerLogs.CutKeepsPrefix | src/core/docker_mcp/log_decode.py:42-58 | the decoder returns only logged bytes if and only if the cut is not inside a header (or the header bytes happen to be logged) |
| DockerLogs.HeaderByteShown | src/core/docker_mcp/log_decode.py:47-48 | a concrete stream, cut one byte into a header, that shows the header byte |
| McpTransport.AsciiRoundTrip | src/core/orchestra_thread/mcp_transport.py:58-62 | ASCII text survives encoding and decoding |
| McpTransport.Reader.constructor | src/core/orchestra_thread/mcp_transport.py:8-11 | a reader holds the bytes not yet read |
| McpTransport.Reader.Read | src/core/orchestra_thread/mcp_transport.py:8-9 | read takes a prefix of the stream |
| McpTransport.Reader.ReadLine | src/core/orchestra_thread/mcp_transport.py:11-11 | readline takes the stream up to and including the next newline |
| McpTransport.LineEnd | src/core/orchestra_thread/mcp_transport.py:11-11 | where a line ends: after the first newline, or at the end |
| McpTransport.ReadNewlineMessage | src/core/orchestra_thread/mcp_transport.py:47-55 | the newline reader computes the specified reading and leaves the specified rest |
| McpTransport.ReadContentLengthMessage | src/core/orchestra_thread/mcp_transport.py:65-80 | so does the length-prefixed reader, whose header loop stops at the first blank line |
| McpTransport.ReadMessage | src/core/orchestra_thread/mcp_transport.py:29-44 | so does the reader that detects the framing |
| McpTransport.MessageConsumes | src/core/orchestra_thread/mcp_transport.py:29-44 | a message always takes at least one byte |
| McpTransport.ReadStream | src/core/orchestra_thread/mcp_transport.py:29-44 | repeated reading with the carried hint ends and yields the specified list |
| McpTransport.HeaderRestIs | src/core/orchestra_thread/mcp_transport.py:65-75 | the header ends at the first blank line, not later |
| McpTransport.BlankLineOnce | src/core/orchestra_thread/mcp_transport.py:65-75 | a written header contains the blank line at its end only |
| McpTransport.LengthParsed | src/core/orchestra_thread/mcp_transport.py:58-62 | the printed length is parsed back from the header |
| McpTransport.LengthLineDecides | src/core/orchestra_thread/mcp_transport.py:58-62 | the first header line named content-length, in any case, gives the length; lines before it are skipped |
| McpTransport.NoLength | src/core/orchestra_thread/mcp_transport.py:58-62 | without such a line the message is refused |
| McpTransport.LineRoundTrip | src/core/orchestra_thread/mcp_transport.py:47-55 | a line message reads back, its first byte possibly taken already |
| McpTransport.LengthRoundTrip | src/core/orchestra_thread/mcp_transport.py:65-80 | so does a length-prefixed message |
| McpTransport.MessageRoundTrip | src/core/orchestra_thread/mcp_transport.py:14-44 | one encoded message in front of anything reads back and leaves the rest, with the framing as next hint |
| McpTransport.StreamRoundTrip | src/core/orchestra_thread/mcp_transport.py:14-80 | for either framing, reading an encoded list from no hint yields exactly the list and then the end |
| RelayFanout.LastOf | src/core/telegram_events/relay_compat_service.py:80-85 | the last n items, all of them when there are fewer |
| RelayFanout.TrackPublish | src/core/telegram_events/relay_compat_lifecycle.py:31-35 | offering an item keeps the queue a suffix of the history and drops only what is 100 items old |
| RelayFanout.TrackTake | src/core/telegram_events/relay_compat_http_support.py:12-16 | taking an item yields the next in order |
| RelayFanout.NothingLostEarly | src/core/telegram_events/relay_compat_lifecycle.py:31-35 | a subscriber never more than 100 items behind its first has received everything up to its queue, none twice |
| RelayFanout.Subscriber.Enqueue | src/core/telegram_events/relay_compat_lifecycle.py:31-35 | a full queue loses its oldest item, then the new one is last |
| RelayFanout.Subscriber.Take | src/core/telegram_events/relay_compat_http_support.py:12-16 | the writer receives published items in order |
| RelayFanout.RelayService.constructor | src/core/telegram_events/relay_compat_service.py:32-53 | nobody listens and nothing is published |
| RelayFanout.RelayService.Subscribe | src/core/telegram_events/relay_compat_service.py:80-85 | a new subscriber starts at the last min(50, n) items; others are untouched |
| RelayFanout.RelayService.Unsubscribe | src/core/telegram_events/relay_compat_service.py:87-88 | removes the subscriber and nothing else |
| RelayFanout.RelayService.Broadcast | src/core/telegram_events/relay_compat_lifecycle.py:38-43 | every subscriber is offered the payload exactly once |
| RelayFanout.RelayService.Publish | src/core/telegram_events/relay_compat_service.py:93-96 | the history grows by the payload and every queue stays a suffix of it of length at most 100 |
| RelayFanout.NextPayload | src/core/telegram_events/relay_compat_http_support.py:8-16 | one turn of the writer delivers the oldest waiting item |
| RelayFanout.LastOfAppend | src/core/telegram_events/relay_compat_service.py:93-96 | the bounded buffer of recent events is the end of the history |
| AgentRegistry.DropSlashes | src/core/telegram_events/agent_registry_support.py:16-20 | exactly the trailing slashes are dropped |
| AgentRegistry.EventsUrlMeaning | src/core/telegram_events/agent_registry_support.py:16-20 | the suffix /mcp gives way to /events/telegram, which is otherwise appended |
| AgentRegistry.StepKeepsInverse | src/core/telegram_events/agent_registry.py:55-81 | a registration keeps the maps mutual inverses and event URLs matching |
| AgentRegistry.AlwaysInverse | src/core/telegram_events/agent_registry.py:55-81 | after any sequence of registrations slug owns url exactly when url maps to slug |
| AgentRegistry.OwnersUnique | src/core/telegram_events/agent_registry.py:55-81 | no url has two owners |
| AgentRegistry.OwnershipMoves | src/core/telegram_events/agent_registry.py:55-81 | a url leaves its owner only by that owner's own remap; a conflict leaves both maps unchanged; other slugs keep their rows |
| AgentRegistry.Registry.constructor | src/core/telegram_events/agent_registry.py:51-53 | both maps start empty |
| AgentRegistry.Registry.Register | src/core/telegram_events/agent_registry.py:55-81 | the status, the reported conflict or previous url, and the new maps in every case |
| AgentRegistry.Registry.EventsUrlForMcpUrl | src/core/telegram_events/agent_registry.py:87-92 | the lookup through both maps never misses and returns the url's event URL |
| AgentRegistry.SlashesLeaveBlank | src/core/telegram_events/agent_registry_support.py:16-20 | the stored url has an outer blank exactly when the given one, stripped, has a blank directly before its final slashes |
| AgentRegistry.NormalizeUrlIdempotent | src/core/telegram_events/agent_registry_support.py:16-20 | normalising a stored url again gives the same key if and only if no blank stands directly before the final slashes of the given url |
| AgentRegistry.ReportedUrlFoundIff | src/core/telegram_events/agent_registry.py:55-92 | asking for the url a registration reported yields the events URL it reported under exactly that condition; otherwise nothing, or another url's entry |
| AgentRegistry.BlankBeforeSlash | src/core/telegram_events/agent_registry_support.py:16-20 | a url for which it does not |
| AgentRegistry.OtherAgentsEntry | src/core/telegram_events/agent_registry.py:87-92 | two registrations after which asking for the second agent's stored url finds the first agent's entry |
| UpdatePolling.StateStore.constructor | src/core/telegram_bot_listener/state_store.py:278-281 | a new process starts at zero, whatever the file says |
| UpdatePolling.StateStore.Start | src/core/telegram_bot_listener/state_store.py:227-238 | the file decides if there is one, else the new state is written; memory and file agree with the run |
| UpdatePolling.StateStore.SetLastUpdateId | src/core/telegram_bot_listener/state_store.py:244-248 | the maximum, in memory and on disk |
| UpdatePolling.StateStore.MarkProcessedUpdate | src/core/telegram_bot_listener/update_state_interactions.py:9-12 | recording an id takes memory and file through the run's marking step |
| UpdatePolling.Restart | src/core/telegram_bot_listener/state_store.py:227-238 | a process started after a crash at any point stands where the run stands after the crash |
| UpdatePolling.ProcessUpdates | src/core/telegram_bot_listener/update_polling.py:29-34 | a batch is handled in order, and the store goes through the run's steps, one marking and one handling per update |
| UpdatePolling.PollOnce | src/core/telegram_bot_listener/update_polling.py:17-26 | one round asks for the id after the recorded one and handles the whole answer |
| UpdatePolling.FromMeaning | src/core/telegram_bot_listener/update_polling.py:25-26 | what the server returns for an offset |
| UpdatePolling.MarkKeepsInv | src/core/telegram_bot_listener/update_processor_runtime.py:37-38 | marking keeps the bookkeeping and moves forward |
| UpdatePolling.HandleKeepsInv | src/core/telegram_bot_listener/update_processor_runtime.py:39-55 | handling keeps the bookkeeping |
| UpdatePolling.CrashKeepsInv | src/core/telegram_bot_listener/state_store.py:227-238 | so does a crash at any step |
| UpdatePolling.RunKeepsInv | src/core/telegram_bot_listener/update_polling.py:10-34 | so does any run |
| UpdatePolling.AtMostOnce | src/core/telegram_bot_listener/update_polling.py:10-34 | handled ids strictly increase, every crash loses at most one update, and every id up to the recorded one was handled, lost to a crash, or is in hand |
| UpdatePolling.NoCrashNoLoss | src/core/telegram_bot_listener/update_polling.py:10-34 | without a crash every update up to the recorded id was handled exactly once |
| UpdatePolling.LastNeverDecreases | src/core/telegram_bot_listener/state_store.py:244-248 | the recorded id never goes back |
| SchedulerRuns.AddJobKeeps | src/core/scheduler_cron/store_jobs.py:9-18 | adding a job under a free name no coroutine is about to write to keeps the books |
| SchedulerRuns.DeleteKeeps | src/core/scheduler_cron/store_jobs.py:63-67 | so does deleting a job with its runs |
| SchedulerRuns.StartKeeps | src/core/scheduler_cron/scheduler_engine_runtime.py:89-97 | so does starting a run while none of the same job is active |
| SchedulerRuns.CreateKeeps | src/core/scheduler_cron/scheduler_engine_runtime.py:96-97 | so does creating the run row |
| SchedulerRuns.ExecuteKeeps | src/core/scheduler_cron/scheduler_engine_runtime.py:99-104 | so does the executor's return or failure |
| SchedulerRuns.CompleteKeeps | src/core/scheduler_cron/scheduler_engine_runtime.py:116-121 | so does completing the run row: the run is now finished and uncounted |
| SchedulerRuns.ReadKeeps | src/core/scheduler_cron/scheduler_engine_runtime.py:122-124 | so does reading the job |
| SchedulerRuns.UpdateKeeps | src/core/scheduler_cron/scheduler_engine_runtime.py:125-129 | so does writing the counter: the run is now counted |
| SchedulerRuns.DeletingKeeps | src/core/scheduler_cron/scheduler_engine_runtime.py:130-133 | so does auto-deletion |
| SchedulerRuns.AdvanceKeeps | src/core/scheduler_cron/scheduler_engine_runtime.py:89-155 | so does every step of a coroutine |
| SchedulerRuns.BookkeepingHolds | src/core/scheduler_cron/scheduler_engine_runtime.py:89-155 | in every state reached with non-overlapping runs per job, run_count and failure_count equal the successful and failed runs up to the one being counted, and every running row has a coroutine that will complete it |
| SchedulerRuns.QuiescentCountsExact | src/core/scheduler_cron/scheduler_engine_runtime.py:89-155 | once all coroutines have finished the counters are exact and no run is left running |
| SchedulerRuns.RowsShowOutcomes | src/core/scheduler_cron/scheduler_engine_runtime.py:99-121 | in every reachable state a run's row is Running until its executor ends and then Success exactly if it returned, Failed if it raised |
| SchedulerRuns.OutcomeIsCounted | src/core/scheduler_cron/scheduler_engine_runtime.py:125-129 | writing the counter of an undeleted job adds one to run_count if the executor returned, else to failure_count, and changes no other; the job is then deleted exactly if it returned and asks for that |
| SchedulerRuns.AutoDeleted | src/core/scheduler_cron/scheduler_engine_runtime.py:130-133 | that deletion is of a job whose executor returned, with its runs, and of no other job |
| SchedulerRuns.AddJobSafeIffCareful | src/core/scheduler_cron/store_jobs.py:54-61 | a job may be added under a free name without a counter going wrong at the next step if and only if no coroutine is about to write to that name |
| SchedulerRuns.CarelessAddMiscounts | src/core/scheduler_cron/store_jobs.py:54-61 | because the update goes by name, a job recreated in between gets another job's count |
| SchedulerRuns.JobReplaced | src/core/scheduler_cron/store_jobs.py:54-67 | the three steps of such a replacement, from a state a run reaches |
| SchedulerRuns.RecreatedJobMiscounts | src/core/scheduler_cron/store_jobs.py:54-67 | a whole run of nine steps after which every coroutine has finished and a job claims a run it never had |
| ManifestParsing.Combine | src/core/orchestra_agents/_manifest_parsing.py:172-195 | a manifest has no problems exactly when none of its fields has |
| ManifestParser.Parser.constructor | src/core/orchestra_agents/_manifest_parsing.py:164-170 | a parser starts without errors |
| ManifestParser.Parser.CollectItems | src/core/orchestra_agents/_manifest_field_parsing.py:64-90 | list items are stripped in order, and every blank one reported at its index |
| ManifestParser.Parser.CollectMounts | src/core/orchestra_agents/_manifest_field_parsing.py:187-195 | mounts are parsed in order and their problems appended in order |
| ManifestParser.Parser.ReadMounts | src/core/orchestra_agents/_manifest_field_parsing.py:187-195 | a blank section is no mounts, another non-list is one problem |
| ManifestParser.Parser.ReadEnv | src/core/orchestra_agents/_manifest_field_parsing.py:106-116 | variables by stripped key, later entries winning, blank keys dropped |
| ManifestParser.Parser.ReadPeers | src/core/orchestra_agents/_manifest_field_parsing.py:76-90 | peers and their problems |
| ManifestParser.Parser.ReadCommand | src/core/orchestra_agents/_manifest_field_parsing.py:58-74 | the command and its problems |
| ManifestParser.Parser.ReadPassthrough | src/core/orchestra_agents/_manifest_field_parsing.py:118-129 | passed-through names, blank ones dropped silently |
| ManifestParser.StringMeaning | src/core/orchestra_agents/_manifest_field_parsing.py:41-56 | a string field is trimmed text, is reported exactly when it is required and blank, and reads clean text as it is |
| ManifestParser.Parser.ReadAgentFields | src/core/orchestra_agents/_manifest_parsing.py:197-219 | the agent section's values and problems, in the parser's order |
| ManifestParser.Parser.ReadRuntimeFields | src/core/orchestra_agents/_manifest_parsing.py:221-231 | the runtime section's values and problems, in the parser's order |
| ManifestParser.Parser.CheckEntries | src/core/orchestra_agents/_backend_validation.py:154-156 | server entries are checked in order and their problems appended in order |
| ManifestParser.Parser.ReadBackend | src/core/orchestra_agents/_manifest_parsing.py:233-252 | the backend section's values and problems, in the parser's order |
| ManifestParser.Parser.ReadFields | src/core/orchestra_agents/_manifest_parsing.py:172-195 | all fields of a manifest, their problems appended to one list in the order in which the parser visits them |
| ManifestParser.Parser.Parse | src/core/orchestra_agents/_manifest_parsing.py:172-195 | parsing step by step with one error list yields the manifest, or all its problems in order, as specified |
| ManifestParser.StatusAcceptedIff | src/core/orchestra_agents/_manifest_parsing.py:26-35 | a status is accepted if and only if its text, stripped and in lower case, is active or inactive |
| ManifestParser.DriverAcceptedIff | src/core/orchestra_agents/_manifest_field_parsing.py:166-173 | a driver is accepted if and only if its text, stripped and in lower case, is docker |
| ManifestParser.NonEmptyHasNoBlank | src/core/orchestra_agents/_manifest_field_parsing.py:62-63 | no empty word of a command line stays, and words without empty ones are kept as they are |
| ManifestParser.EmptyWordDropped | src/core/orchestra_agents/_manifest_field_parsing.py:62-63 | an empty word may as well not be there: every other word stays, in order |
| ManifestParser.StrippedItemsAreClean | src/core/orchestra_agents/_manifest_field_parsing.py:64-90 | every item is either kept clean or reported |
| ManifestParser.MountsAreValid | src/core/orchestra_agents/_manifest_field_parsing.py:132-163 | mounts without problems have a known type and mode and a source and target |
| ManifestParser.KindsAgree | src/core/orchestra_agents/_manifest_parsing.py:258-263 | the two readings of the backend type agree on being known |
| ManifestParser.AcceptedAgent | src/core/orchestra_agents/_manifest_parsing.py:197-219 | an accepted agent section is valid |
| ManifestParser.AcceptedRuntime | src/core/orchestra_agents/_manifest_parsing.py:221-231 | an accepted runtime section is valid |
| ManifestParser.AcceptedBackend | src/core/orchestra_agents/_backend_validation.py:113-137 | an accepted known backend has every required key |
| ManifestParser.AcceptedIsValid | src/core/orchestra_agents/_manifest_parsing.py:172-195 | whatever the parser accepts satisfies every constraint on manifests |
| ManifestMigration.AssembledSections | src/core/orchestra_agents/_migration_manifest.py:15-21 | what the parser finds in a migrated payload |
| ManifestMigration.OtherKeysStay | src/core/orchestra_agents/_migration_manifest.py:14-75 | every root key that is neither a section nor a legacy key stays as it is |
| ManifestMigration.CleanAgentFields | src/core/orchestra_agents/_migration_manifest.py:29-54 | which agent fields migration keeps, with which values |
| ManifestMigration.ListedPeersStay | src/core/orchestra_agents/_migration_manifest.py:51-53 | kept peers are a non-empty list |
| ManifestMigration.CleanIsFixed | src/core/orchestra_agents/_migration_manifest.py:29-54 | cleaning a clean agent block changes nothing |
| ManifestMigration.MigrateIdempotent | src/core/orchestra_agents/_migration_manifest.py:14-75 | migrating a migrated manifest changes nothing |
| ManifestMigration.CleanAgentParsesAlike | src/core/orchestra_agents/_migration_manifest.py:29-54 | the clean agent block parses like the block it was made from |
| ManifestMigration.EmptyRuntimeParses | src/core/orchestra_agents/_manifest_parsing.py:221-231 | without a runtime everything defaults and only the image is missed, when it is required |
| ManifestMigration.MigratedSections | src/core/orchestra_agents/_manifest_parsing.py:96-112 | the sections the parser reads of a migrated manifest |
| ManifestMigration.SectionsParseAlike | src/core/orchestra_agents/_manifest_parsing.py:172-195 | identity, agent and backend parse alike before and after |
| ManifestMigration.MigrationPreservesMeaning | src/core/orchestra_agents/_migration_manifest.py:14-75 | a manifest that parses, its sections objects or blank, migrates; the result parses if and only if the backend is known, and then agrees on slug, display name, status, auto_start, agent and backend |
| ManifestMigration.UnknownBackendBreaks | src/core/orchestra_agents/_migration_manifest.py:14-21 | a manifest with an image and a backend that is not known parses, and migrated does not |
| ManifestMigration.CustomBackendBreaks | src/core/orchestra_agents/_migration_manifest.py:14-21 | a concrete one |
| ManifestMigration.UnifiedSections | src/core/orchestra_agents/_manifest_parsing.py:96-112 | the unified rewriting has the same sections |
| ManifestMigration.LegacyParsesLikeUnified | src/core/orchestra_agents/_manifest_parsing.py:96-160 | a legacy manifest parses exactly like its unified rewriting: the same manifest or the same problems |
| JsonModel.NothingToSay | src/core/agent_log_analysis/validation_scalars.py:10-15 | str(value or "") is empty exactly for null, false, zero, and empty text, list and object |
| ManifestPayload.ReadBackIff | src/core/orchestra_agents/manifest.py:116-162 | an accepted manifest, answered by to_dict and read by from_dict, is the same manifest if and only if no word of its command is blank or has blanks around it |
| ManifestPayload.ListedCommandComesBack | src/core/orchestra_agents/_manifest_field_parsing.py:58-74 | so every manifest whose command is not one text comes back exactly |
| ManifestPayload.QuotedBlankIsLost | src/core/orchestra_agents/_manifest_field_parsing.py:58-74 | a concrete manifest, with a quoted blank in its command, that does not |
| ManifestPayload.AcceptedIsStable | src/core/orchestra_agents/_manifest_parsing.py:172-195 | every text an accepted manifest holds is trimmed, choices are known ones, and its backend config is complete |
| ManifestPayload.WrittenReads | src/core/orchestra_agents/_manifest_parsing.py:172-195 | a manifest written with its command as any value is read with the words of that value and all else as it was |
| ManifestPayload.MountReadsBack | src/core/orchestra_agents/_manifest_field_parsing.py:132-163 | a mount written is read as the same mount |
| ManifestPayload.EnvReadsBack | src/core/orchestra_agents/_manifest_field_parsing.py:106-116 | variables written are read as the same variables |
| ManifestMeaning.MountMeaning | src/core/orchestra_agents/_manifest_field_parsing.py:132-163 | a mount takes source and target from their keys, its type from its key or else bind for a path and volume otherwise, its mode from its key or else rw; it is reported exactly when one is blank or not a known choice |
| ManifestMeaning.VolumeMeaning | src/core/orchestra_agents/_manifest_parsing.py:144-160 | a legacy volume becomes a mount of the same source and target, ro exactly when read_only is set |
| ManifestMeaning.VolumesInOrder | src/core/orchestra_agents/_manifest_parsing.py:144-160 | volumes are converted in order |
| ManifestMeaning.LegacyAgentMeaning | src/core/orchestra_agents/_manifest_parsing.py:114-118 | exactly the three root keys fill the gaps of the agent section |
| ManifestMeaning.LegacyBackendMeaning | src/core/orchestra_agents/_manifest_parsing.py:120-123 | backend_type fills a missing backend type and nothing else |
| ManifestMeaning.LegacyRuntimeMeaning | src/core/orchestra_agents/_manifest_parsing.py:125-142 | a legacy container fills the gaps of the runtime section: image, entrypoint, command, env from extra_env, env_passthrough, and mounts from volumes |
| ManifestMeaning.StatusDefault | src/core/orchestra_agents/_manifest_parsing.py:26-35 | without a status a manifest is active |
| ManifestMeaning.WorkingDirDefault | src/core/orchestra_agents/_manifest_parsing.py:207-211 | without a working directory it is /workspace |
| ManifestMeaning.EntriesMeaning | src/core/orchestra_agents/_manifest_field_parsing.py:106-116 | a variable is there exactly when a key strips to its non-empty name, with the text of the last such key |
| ManifestMeaning.KnownBackends | src/core/orchestra_agents/_backend_validation.py:38-96 | the three known backends |
| ManifestMeaning.SgrMeaning | src/core/orchestra_agents/_backend_validation.py:40-66 | what sgr_minimax asks of its config and of each server, local or over HTTP, its keys written out |
| ManifestMeaning.MuxMeaning | src/core/orchestra_agents/_backend_validation.py:67-95 | what agent_mux asks |
| ManifestMeaning.OpencodeMeaning | src/core/orchestra_agents/_backend_validation.py:38-110 | what opencode_omo asks |

## Left out

- PersistBatchResults: the error that a refused raw log raises is not modelled as a response, only the tables it leaves behind.
- Combine: problems are values naming a field; message texts are not modelled, and the messages for several missing or unsupported keys of one object are one problem holding the set of keys.
- WireRetraction: the request that accepted wire payloads produce is compared as a value, so the order of metadata and payload keys is not captured; labels keep theirs.
- AtMostOnce: a state file write is one step, so a file torn by a crash in the middle of writing is not modelled.
- Event rows, log rows, thread rows, manifests and requests are values; the stores, builders, readers, queues and registries that update in place are classes.
- The scheduler's `run_job` coroutines are a state machine over their awaits rather than methods, because their steps interleave. The polling loop is methods that go through the steps of such a machine; a crash is a step of the machine between them.
- The record and raw-log normalisers fill a dict field by field; they are modelled as maps from field to normal form, and which of several errors is reported first is not captured.
- The manifest parser's legacy normaliser and the readers of single mounts and server entries are functions; `parse`, the section readers and the list loops are methods on the shared error list.
- Two `shlex` and `dict()` failures, which the parser lets escape as other exceptions, are both the problem `Unreadable`.
- Manifest keys that are not strings, and dates in YAML.
- Floats in JSON values, underscores in `int()` text, and `lower()` and `strip()` on bytes beyond ASCII.
- Calendar arithmetic and the ISO-8601 syntax of timestamps.
- Per-chunk UTF-8 decoding in the event stream and log readers: chunks are text there, which is exact for what the relay writes, since `json.dumps` escapes to ASCII.
- Cancellation of coroutines, database errors other than the named key violations, and lost connections.
- Shutdown of the relay: the end marker is not put into a full queue.
- Deletion of expired events; cascade closing of child threads beyond the store step it takes.
- Idempotent replay of client requests in the thread service, callback delivery over HTTP, text clean-up of control characters, agent tables.
- Survey sessions, selections and history of the Telegram bot; forwarding of messages.
- HTTP servers and clients, configuration loaders, connection pools, Docker and Compose commands, tool catalogues, scaffolding, memory and task stores: plumbing, or claims of one branch.
