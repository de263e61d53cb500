# A verified model of the EDS change-data-capture pipeline

EDS consumes a log of database change events, batches them into a destination database, bulk-imports
whole tables with retries, and can keep an audit history instead of overwriting rows. This project
models the parts where its guarantees are hardest to keep and proves them for every input, every run
and every fault pattern.

| file | what it models |
|---|---|
| `Consumer.dfy` | the batch processor, the drain loop and the SQL driver's streaming buffer, with an adversary behind every collaborator |
| `EffectivelyOnce.dfy`, `MySql.dfy` | any number of consumer sessions ended by crashes, and the meaning of REPLACE and DELETE |
| `Rendering.dfy` | the same event rendered under two recorded versions |
| `Importer.dfy` | one import attempt: recreate tables, replay files table by table through a byte-batched executor, write markers |
| `Recovery.dfy` | the retry loop over export, poll, download and import, and resuming after a restart |
| `Audit.dfy` | history rows, and the window-function meaning of the `_current` and `_timeline` views |
| `Collapse.dfy` | merging a Snowflake batch's records in front of the timestamp-gated MERGE, on values and in place |
| `Migration.dfy` | process lifetimes of seeding versions, reconciling and streaming, and the buffered statements that must stay valid across migrations |
| `Registry.dfy`, `Tracker.dfy` | version and schema lookup through a cache with deadlines over a tracker whose writes may fail, and prefix deletion as a range delete |
| `GoUrl.dfy`, `UrlObject.dfy`, `UrlValues.dfy` | percent-encoding, URL parsing and printing, and query multimaps |
| `UrlReading.dfy` | what escaping, UTF-8 and each URL field are in terms of the text |
| `JsonText.dfy`, `GoJson.dfy`, `JsonReader.dfy`, `JsonEncoder.dfy` | raw-JSON compaction, marshalling, a reference reader, and the appending encoder |
| `Wrappers.dfy`, `Order.dfy` | shared result types and lexicographic order |

Where the source mutates state, the model does: classes with `modifies` clauses and loops with
invariants, each tied by its `ensures` to a function of the inputs or of the old state, or to a run of
a state machine. The main theorems are about those functions and about every run.

## How faults are modelled

Every call into something that can fail carries its reply as data: a message travels with its metadata,
what the skip test sees of its event and of the cutoffs, and the replies of the validator, the registry,
the database and each ack; an import attempt carries the number of fallible actions after which it
breaks, if it does, how it breaks, and how much of a torn batch lands; a recovery run carries every
stage's reply in every attempt; a registry operation carries whether its tracker write goes through; a
streaming process carries how many of its actions go well. A contract that holds for all such data holds
for every one of these fault patterns, including the process dying between a commit and an ack.

## What the proofs found

- A table that one process marked and that the next one's job reports outside the candidate list
  (`--only` with a job that exported more) is dropped by the next process, and its stale marker then
  makes a retryable error count it as imported without loading it again: `StaleMarkerRun` is such a
  pair of processes for any two tables, the second one succeeding with the table empty. Marked tables
  are left alone in every run exactly when it is a dry run or each marked table that a job may report, and
  that the schema has, is counted as completed (`RunsKeepMarkedIff`); without a filter that always holds
  (`FullImportIsSafe`). A reported table that the schema lacks is never dropped: recreation stops there.
- A dry run writes progress markers while loading nothing, and the run id does not depend on the flag:
  `DryRunMarker` is a dry process that breaks and a real one that succeeds without ever loading a table.
  Markers mean a complete load in every run exactly when it is not a dry run or all the schema's tables
  that its jobs may report are marked already (`RunsMarkLoadedIff`).
- A job that is polled again and no longer names a table loses it without a trace: `ForgottenTable` is
  a full import that succeeds without it. Every table learned ends in one of the two lists exactly when
  the last job that answered named all that was learned before and not imported by then (`RunAccountsIff`).
- Between sessions the destination can go back in time: a committed but unacked batch is executed again
  from its start, and dying halfway leaves older rows, exactly when some key does not end in the
  repeated part as it ends in the whole (`RedeliveryRegressesIff`). What every crash keeps is that
  replaying the unacked messages repairs it, so the destination is right once everything is acked.
- A redelivered message is rendered with the columns recorded by then; the result is the one-pass result
  exactly when, for the last event of each row, the two versions coerce their common columns alike and
  the event and the defaults give nothing to a column that only one of them has (`VersionsAgreeIff`). A
  later version may lack a column, and that shows even when the columns it adds get no value
  (`LackedColumnShows`).
- `should_skip` runs outside every handler. The drain task ends by an escaping exception, with the batch
  neither acked nor nak'd, exactly when a decodable message in sequence meets loaded cutoffs with a
  table that is no dictionary key, a cutoff without a zone or a time no datetime can hold, or is
  rejected by the validator and cannot be printed (`RunEscapesIff`).
- A version write that fails in the tracker still reaches the cache. After any operations a lookup answers
  what the tracker holds exactly when the last write to that table is absent, went through, is older than
  24 hours, or wrote just that (`LookupAgreesIff`).
- A process that records the latest versions and breaks before creating a table loses that table if the
  next latest schema no longer has it: `WithdrawnTable` ends with an event buffered for a table that does
  not exist. A process streams with exactly those tables uncovered that were uncovered before and are
  not in its latest schema (`RunProcess`); from an empty destination none is ever uncovered, whatever
  breaks, exactly for latest schemas that withdraw no table (`RunProcesses`, `LoseWithdrawn`).
- The timeline never selects a row whose change stamp is NULL, so it agrees with `_current` at the end
  of time exactly when the key is shown by neither or has a stamped row (`CurrentIsTimelineAtTheEnd`).
- The audit builder leaves an absent column NULL where the upsert builder writes an empty array or object
  literal; the two rows agree exactly when no absent column has such a default (`RowsAgreeIff`).
- `_current` is a function of the set of events exactly when equally new newest events of each key agree
  (`ViewIsASetFunctionIff`).
- Folding two UPDATEs is sound exactly when the later one is strictly newer and covers the earlier
  one's columns, or is equally dated and adds nothing (`FoldIsSoundIff`). Merging a batch is safe on a
  set of rows exactly when table and id run together tell them apart (`MergingIsSafeIff`).
- Version and schema cache keys collide exactly for table names with a dash (`KeysCollideIff`), and two
  schema keys exactly when a dash can be read as part of either name (`SchemaKeysCollideIff`); the second
  schema read under a shared key is the first one's (`ReadTwoSchemas`).
- The range delete is exact except for a prefix that ends in the maximal code point after a smaller one
  (`RangeIsPrefixIff`); a prefix that ends in U+D7FF has a bound that cannot be encoded and raises.
- A raw JSON fragment that leaves a string open breaks byte stability of what follows it, and only such
  a fragment does (`RawIsSafeIff`). Compaction changes the meaning of a text exactly when an
  HTML character stands outside its strings (`CompactKeepsMeaningIff`).

## Model

| member | source | states |
|---|---|---|
| `Consumer.BatchMax` | eds/consumer/config.py:46-73 | the batch size is positive, never above a positive configured limit or a positive driver limit, and is one of those or the default |
| `Consumer.SqlDriver.Process` | eds/drivers/sql_base.py:210-231 | buffers the statement at the end, counts it, and never asks for a flush |
| `Consumer.SqlDriver.Flush` | eds/drivers/sql_base.py:233-243 | a flush that returns committed the whole buffer in order and emptied it; every failure keeps the buffer, and nothing but the whole buffer is ever committed |
| `Consumer.BatchProcessor.constructor` | eds/consumer/batch_processor.py:58-89 | a fresh processor is in the fresh state, which satisfies the between-calls invariant |
| `Consumer.BatchProcessor.NackEverything` | eds/consumer/batch_processor.py:298-306 | every pending message has had ack or nak called and the batch and its clock are cleared |
| `Consumer.BatchProcessor.HandleError` | eds/consumer/batch_processor.py:308-311 | every error path settles the pending messages and surfaces as fatal |
| `Consumer.BatchProcessor.AckPending` | eds/consumer/batch_processor.py:201-218 | acks go out in order up to the first failure, which settles the rest and stops; the server knows of those before it and of that one if it was registered |
| `Consumer.BatchProcessor.Flush` | eds/consumer/batch_processor.py:190-218 | the new state is the flush of the old one: one transaction for the whole buffer, then the acks |
| `Consumer.BatchProcessor.ProcessMessage` | eds/consumer/batch_processor.py:99-178 | the new state is that of the order check, the skip decision, the migration, the buffering and the flush rule on the old one, on every error path too |
| `Consumer.BatchProcessor.SkipOrApply` | eds/consumer/batch_processor.py:123-128 | a skipped message is acked on its own, a kept one applied, and whatever should_skip raises escapes |
| `Consumer.BatchProcessor.FlushIfDue` | eds/consumer/batch_processor.py:152-178 | the two-stage flush test with its backlog bypass is one rule, the second size test never firing |
| `Consumer.BatchProcessor.OnIdle` | eds/consumer/batch_processor.py:180-188 | the new state is that of the idle rule on the old one |
| `Consumer.FlushKeeps` | eds/consumer/batch_processor.py:190-218 | however the transaction and the acks fail, acked messages are committed and, unless the process dies, nothing stays pending or unsettled; a normal end restores the between-calls invariant |
| `Consumer.FlushEndsAs` | eds/consumer/batch_processor.py:190-199 | a stopped driver ends in a clean stop and a failed transaction in a fatal error, both without an ack; a committed one empties the buffer and goes on to the acks |
| `Consumer.AcksAreExact` | eds/consumer/batch_processor.py:201-218 | given the first ack that does not go well, the server knows of those before it and of it exactly if it was registered, and a failed ack is a clean stop |
| `Consumer.MessageKeeps` | eds/consumer/batch_processor.py:99-178 | a message keeps the between-calls invariant (buffer matching pending, contiguous sequences, pending below the limit, batch clock set exactly when pending, gauge balanced) or ends the run with everything durable and, short of dying or escaping, settled |
| `Consumer.MessageIsOrdered` | eds/consumer/batch_processor.py:110-114 | out of sequence is fatal, and every message in sequence is accepted |
| `Consumer.MessageFlushesWhenDue` | eds/consumer/batch_processor.py:123-178 | a skip leaves batch and clock alone; a kept message leaves an empty batch exactly when a flush is due |
| `Consumer.KeptMessageIsFlushed` | eds/consumer/batch_processor.py:152-178 | a kept message is flushed at once after a migration or in a full batch, otherwise from the maximum latency on, unless a backlog larger than a batch waits and twice that latency has not passed; the batch clock is that of its first message |
| `Consumer.MessageIsKeptOrSkipped` | eds/consumer/batch_processor.py:123-128 | a message that does not end the run is buffered exactly when it is not stamped before its loaded cutoff and not rejected, and otherwise settled on its own |
| `Consumer.MessageIsFatal` | eds/consumer/batch_processor.py:99-150 | unreadable metadata, an undecodable message, a failing migration, an upsert without a schema and a driver that refuses are fatal, with nothing buffered and the batch settled |
| `Consumer.MessageEscapesIff` | eds/consumer/batch_processor.py:220-247 | an exception escapes exactly for a decodable message in sequence whose cutoff test raises (unusable table, zoneless cutoff, time outside the datetime range) or which is rejected and cannot be printed; the batch and the message stay pending and nothing is acked or nak'd |
| `Consumer.IdleKeeps` | eds/consumer/batch_processor.py:180-188 | an idle tick flushes a partial batch exactly when it reached the minimum latency, and keeps the invariant |
| `Consumer.Bufferer.Handle` | eds/consumer/bufferer.py:77-96 | one queue entry extends the run by one step, the last flush swallowing what it raises; only a fatal error is surfaced |
| `Consumer.Bufferer.Drain` | eds/consumer/bufferer.py:40-49 | entries are handed over in order, up to the one that leaves the loop |
| `Consumer.Bufferer.Tick` | eds/consumer/bufferer.py:51-66 | cancel is checked before the idle flush and naks the residue |
| `Consumer.Bufferer.Loop` | eds/consumer/bufferer.py:39-75 | the loop makes the run of its turns |
| `Consumer.RunIsSound` | eds/consumer/bufferer.py:39-96 | over any turns and replies: acked implies committed, the committed SQL is the in-order SQL of a prefix of the kept messages, sequences are contiguous, and when the loop has returned nothing is pending and every dequeued message with readable metadata has had ack or nak called |
| `Consumer.RunEscapesIff` | eds/consumer/bufferer.py:39-90 | the loop ends by an escaping exception exactly when the last message dequeued was in sequence and decodable and should_skip raises on it; that message is then still pending |
| `Consumer.RunKeepsWanted` | eds/consumer/batch_processor.py:123-128 | while the loop runs, the buffered messages are exactly the dequeued ones not before their cutoff and not rejected, in order, and every other one is settled |
| `Consumer.CancelledRun` | eds/consumer/bufferer.py:51-55 | a cancel naks what is pending and commits and acks nothing more |
| `Consumer.DrainedRun` | eds/consumer/bufferer.py:79-96 | the sentinel's last flush, if it goes well, commits and acks everything pending |
| `MySql.LastDecides` | eds/drivers/mysql/sql.py:112-139 | a run of statements leaves under each key what its last statement for the key says |
| `MySql.OverlapIsAbsorbed` | eds/drivers/mysql/sql.py:112-139 | what was executed past the acks does not show once it is executed again, in whatever rendering |
| `MySql.SameOutcomeIff` | eds/drivers/mysql/sql.py:112-139 | two runs over the same keys leave the same database exactly when they end every key alike |
| `MySql.RegressesIff` | eds/drivers/mysql/sql.py:112-139 | repeating the beginning of a stretch leaves what the stretch left exactly when each key ends in the beginning as in the whole |
| `EffectivelyOnce.SessionExecutesAStretch` | eds/consumer/bufferer.py:39-96 | a session over the redelivered messages executes exactly the SQL of the next stretch of the stream and acks no more than it executed |
| `EffectivelyOnce.RunSession` | eds/consumer/bufferer.py:39-96 | fresh objects over a session's turns make that session's run |
| `EffectivelyOnce.SessionKeepsRecoverable` | eds/consumer/batch_processor.py:190-218 | after a session that commits any stretch and acks any part of it, replaying the unacked messages in any rendering gives the one-pass destination |
| `EffectivelyOnce.AllAckedIsOnePass` | eds/consumer/batch_processor.py:201-218 | with nothing left to redeliver, recoverable means equal to one pass |
| `EffectivelyOnce.RunSessions` | eds/consumer/batch_processor.py:190-218 | effectively-once delivery: after any number of sessions, each ended by anything at all and rendering with its own recorded versions, an acked stream means the destination equals applying each kept event once in order, as the session that acked it rendered it |
| `EffectivelyOnce.DyingSessionCommits` | eds/consumer/batch_processor.py:190-218 | for every list of messages there is a session that commits them all and acks none |
| `EffectivelyOnce.RedeliveryRegressesIff` | eds/consumer/batch_processor.py:190-218 | two such sessions in a row leave the destination as the first left it exactly when each key ends in the second stretch as in the first |
| `Rendering.RenderingsAgreeIff` | eds/drivers/sql_base.py:210-231 | an event rendered under any two versions that give it the same key names the same row, and writes the same exactly when every column of either is coerced alike or, if only one has it, gets nothing |
| `Rendering.VersionsAgreeIff` | eds/drivers/sql_base.py:210-231 | messages last executed with other versions leave the one-pass destination exactly when, for the last event of each row, the two versions' columns agree |
| `Rendering.LackedColumnShows` | eds/consumer/batch_processor.py:270-285 | a later version that lacks an array column and adds an empty one writes another row, though what it adds gets no value |
| `Importer.SqlImporter.Execute` | eds/drivers/sql_base.py:340-349 | a batch is applied whole and recorded, or fails as a ValueError with only a prefix of it landed; a dry run never fails and writes nothing |
| `Importer.SqlImporter.CreateTable` | eds/drivers/sql_base.py:300-310 | a recreated table is empty and no other table changes |
| `Importer.SqlImporter.CreateDatasource` | eds/drivers/sql_base.py:300-310 | all configured tables are emptied up to one the schema lacks, which stops it untouched; others are untouched, and a failure is retried only when a missing table's name reads like a transport failure |
| `Importer.SqlImporter.FlushImport` | eds/drivers/sql_base.py:340-349 | executed batches plus the buffer remain exactly the upserts so far; batches of one table touch only that table |
| `Importer.SqlImporter.ImportEvent` | eds/drivers/sql_base.py:312-321 | the record's upsert is appended exactly once; the batch is run exactly in single mode or from five million bytes on |
| `Importer.SqlImporter.ProcessFile` | eds/importer/__init__.py:64-143 | a file contributes its accepted records' upserts in order; a table missing from the schema fails, retryably if its name reads like a transport failure |
| `Importer.SqlImporter.FlushImported` | eds/drivers/sql_base.py:334-338 | after the table-boundary flush nothing is buffered and the destination holds every upsert so far |
| `Importer.SqlImporter.ImportCompleted` | eds/drivers/sql_base.py:323-332 | the final flush completes the destination, and does nothing after a grouped replay |
| `Importer.SqlImporter.RunSinglePass` | eds/importer/__init__.py:145-157 | the executed batches concatenate to the files' upserts in directory order, exactly once, and the destination is their application |
| `Importer.SqlImporter.ImportTable` | eds/importer/__init__.py:192-212 | a table's marker is written only after its whole load is in the destination |
| `Importer.GroupFiles` | eds/importer/__init__.py:182-196 | each table gets its own files in directory order, and every configured table appears exactly once |
| `Importer.SqlImporter.ReplayTables` | eds/importer/__init__.py:198-217 | at every break, marked tables are complete, no batch mixed two tables and tables not reached are untouched |
| `Importer.SqlImporter.RunRecovery` | eds/importer/__init__.py:170-225 | a grouped replay that ends loaded and marked every configured table; a broken one leaves markers only on complete tables |
| `Importer.SqlImporter.RunImport` | eds/drivers/sql_base.py:361-378 | however an attempt ends, a marker it wrote means the table holds exactly its base content plus the complete files, other tables and tables the schema lacks are untouched, a normal end marks every given table, a dry run changes no table; without a fault it ends normally, and a break after the recreation leaves its tables empty and unmarked; what a marked or completed table holds is also stated key by key, by the files' last accepted records |
| `Importer.GroupedEqualsSinglePass` | eds/importer/__init__.py:145-157 | replaying table by table, in any order of tables, leaves every table as one pass over the directory does |
| `Importer.GroupedLoadsAll` | eds/importer/__init__.py:198-218 | a complete grouped replay completes every table |
| `Importer.LoadHoldsRecords` | eds/drivers/sql_base.py:312-321 | a load holds, under every key, the row of the last accepted record of that key in the table's files, or what was there before if there is none |
| `Recovery.BackoffLadder` | eds/cmd/import_cmd.py:129-132 | one delay per allowed retry, and the first k of them sum to 30(2^k-1) seconds |
| `Recovery.PollAndLoad` | eds/cmd/import_cmd.py:238-253 | the stages after the POST get as far as their replies let them, and an exception leaves the state reached |
| `Recovery.RunAttempt` | eds/cmd/import_cmd.py:232-284 | an attempt is a turn of the state machine: its next state, world, ending, reported tables and load are what the stages' replies and the import make them |
| `Recovery.RunWithRecovery` | eds/cmd/import_cmd.py:201-310 | the loop makes runs of the state machine, sleeping the ladder's delays and no others |
| `Recovery.TurnKeepsInv` | eds/cmd/import_cmd.py:232-284 | the imported list stays distinct, marked and apart from what is outstanding; markers and imported tables only grow, and no imported table is loaded again |
| `Recovery.TurnRecall` | eds/cmd/import_cmd.py:254-284 | the next attempt POSTs exactly after a failed POST, failed exports or expired URLs |
| `Recovery.StopIsRetriedOrRaised` | eds/cmd/import_cmd.py:90-126 | a network error, a failed download and the statuses 408, 429, 500, 502, 503 and 504 are retried, other and local errors as their texts and errno say, and every other failure is raised unchanged |
| `Recovery.LeftoverFailed` | eds/cmd/import_cmd.py:239-258 | a table left over after the ready ones were imported is one the job reports failed |
| `Recovery.TurnLosesNothing` | eds/cmd/import_cmd.py:232-284 | with honest jobs, every table ever learned stays imported, outstanding, or owed by the job that will be polled |
| `Recovery.GivenUp` | eds/cmd/import_cmd.py:295-300 | giving up with the set unknown or non-empty never reports an empty failure list |
| `Recovery.RunIsBounded` | eds/cmd/import_cmd.py:232-293 | at most retries plus one attempts, and the ladder index is always in range |
| `Recovery.RunRetries` | eds/cmd/import_cmd.py:232-293 | while a retry is left, nobody cancels and something is outstanding, another attempt follows; without one the run reports a failure, and a raised error ends it |
| `Recovery.RunMeetsError` | eds/cmd/import_cmd.py:90-293 | a run that meets a transient failure with a retry left goes on, and one that meets any other status, a usage, schema, value or permission error ends with exactly that |
| `Recovery.RunRecall` | eds/cmd/import_cmd.py:232-293 | over a run, the recall rule, and each POST names the outstanding tables or the original request |
| `Recovery.ImportedOnce` | eds/cmd/import_cmd.py:238-253 | a table once imported never reaches the import stage again |
| `Recovery.RunAccounts` | eds/cmd/import_cmd.py:285-310 | a run that returns imported each table once, all marked; an empty failure list means the outstanding set was known and became empty; with jobs that keep reporting what they owe every learned table is in exactly one list |
| `Recovery.RunAccountsIff` | eds/cmd/import_cmd.py:232-310 | every learned table ends in exactly one of the two lists exactly when the last job that answered named all that was learned before and not imported by then |
| `Recovery.ForgottenTable` | eds/cmd/import_cmd.py:238-253 | a full import whose job stops naming a table after a failed download succeeds without it |
| `Recovery.PathKeepsExact` | eds/cmd/import_cmd.py:232-293 | with harmless jobs no marked table changes and every newly marked one holds what one attempt loaded: the complete files of one download, into an empty table unless deletes are off |
| `Recovery.AttemptKeepsMarkedIff` | eds/drivers/sql_base.py:300-378 | an attempt leaves marked tables alone, whatever it downloads and however it breaks, exactly when it is a dry run or given none of them |
| `Recovery.AttemptMarksLoadedIff` | eds/drivers/sql_base.py:300-378 | a marker that an attempt writes means a complete load exactly when it is not a dry run or all its tables are marked already |
| `Recovery.RunsKeepMarkedIff` | eds/cmd/import_cmd.py:232-293 | every run with jobs reporting only given tables leaves marked tables alone exactly when it is a dry run or each of those that is marked, and that the schema has, is completed |
| `Recovery.RunsMarkLoadedIff` | eds/cmd/import_cmd.py:232-293 | every attempt of every such run marks only what it loaded exactly when it is not a dry run or each of those tables that the schema has is marked already |
| `Recovery.Completed` | eds/cmd/import_cmd.py:574-578 | the resumed set is exactly the marked candidates, each once |
| `Recovery.SetupIsProper` | eds/cmd/import_cmd.py:574-588 | a process starts its run with the completed tables distinct, marked and apart from its request |
| `Recovery.CommandIsSafeIff` | eds/cmd/import_cmd.py:574-694 | a command's runs leave marked tables alone and mark only what they load exactly when its jobs report only tables outside the schema or, for a dry run, marked ones and, for a real one, candidates and unmarked ones |
| `Recovery.DoImport` | eds/cmd/import_cmd.py:555-694 | a process, dry or real, with deletes on or off, has nothing to resume or makes a run, and clears the markers exactly on whole-run success |
| `Recovery.ProcessIsExact` | eds/cmd/import_cmd.py:555-694 | a process whose jobs are harmless touches no marked table, and every table marked after it or reported as imported holds exactly what one attempt loaded |
| `Recovery.SuccessMeansAllImported` | eds/cmd/import_cmd.py:574-694 | a process that succeeds had every candidate marked or imported every table its jobs reported and did not forget; one that fails keeps its markers |
| `Recovery.FullImportIsSafe` | eds/cmd/import_cmd.py:574-588 | without a filter every job of a real import is harmless |
| `Recovery.ImportWithRestarts` | eds/cmd/import_cmd.py:555-694 | over any number of restarts that share their markers, each with its own latest schema, flags and job id, real and unfiltered or with harmless jobs, every imported and every marked table holds exactly what one attempt of one process loaded, which is, key by key, the row of the last accepted record |
| `Recovery.StaleMarkerRun` | eds/cmd/import_cmd.py:259-284 | two processes given a filter and a job that exported more: the second drops a table the first marked, counts it as imported by its stale marker, and succeeds with rows that are no attempt's load |
| `Recovery.DryRunMarker` | eds/cmd/import_cmd.py:574-623 | a dry process marks a table and breaks, and a real one counts it as completed and succeeds without loading it |
| `Audit.UpsertValues` | eds/drivers/mysql/sql.py:112-127 | the value list, read against the column list, is the row with coerced defaults for absent columns |
| `Audit.AppendValues` | eds/drivers/mysql/sql.py:214-233 | the value list is the snapshot with NULL for absent columns, or the key-only tombstone, and building fails exactly when a tombstone's key is too short |
| `Audit.CoerceIsIdempotent` | eds/util/sql.py:46-64 | coercing a coerced literal changes nothing, and only a NULL without a literal default stays NULL |
| `Audit.CoercedEmpty` | eds/util/sql.py:46-57 | an empty value becomes an empty array in an array column and an empty object in a not-null object column, and stays elsewhere |
| `Audit.CoercedScalar` | eds/util/sql.py:59-64 | in an object column numbers and booleans are quoted, and quoted text stays |
| `Audit.AppendedColumns` | eds/drivers/mysql/sql.py:212-242 | a tombstone holds the key values in key order and NULL elsewhere, a snapshot its coerced values and NULL where it has none |
| `Audit.RowsAgreeIff` | eds/drivers/mysql/sql.py:112-242 | both builders give the same row exactly when every absent column's upsert default is NULL |
| `Audit.SelectedIsLastVisible` | eds/drivers/mysql/sql.py:302-320 | a row satisfies the point-in-time condition exactly when it is the last of its key's rows stamped at or before T, ties and NULLs included |
| `Audit.TimelineIsExact` | README.md:134-143 | the query returns exactly one row when the key has a row stamped at or before T and none otherwise |
| `Audit.TimeTravelEqualsReplay` | README.md:134-143 | the point-in-time state of every key is what upserting the history up to T in change order leaves, a DELETE meaning absent |
| `Audit.RowNumberOneIsLast` | eds/drivers/mysql/sql.py:278-299 | row number one is the last row of the partition in ascending order |
| `Audit.CurrentIsLastOutcome` | eds/drivers/mysql/sql.py:278-299 | the view shows the outcome of each key's last row, nothing for a tombstone or an unknown key |
| `Audit.CurrentEqualsReplay` | eds/drivers/mysql/sql.py:278-299 | the view is the replay of the whole history in change order |
| `Audit.CurrentIsTimelineAtTheEnd` | eds/drivers/mysql/sql.py:278-320 | past every stamp, timeline minus deletes and current agree exactly when the key is shown by neither or has a stamped row |
| `Audit.CurrentIsMaximum` | eds/drivers/mysql/sql.py:278-299 | a row is in the current view exactly when it is no DELETE and no row of its key has a later stamp, timestamp or arrival |
| `Audit.SelectedIsMaximum` | eds/drivers/mysql/sql.py:302-320 | a row is selected at T exactly when it is stamped at or before T and no such row of its key is later by stamp, timestamp or arrival |
| `Audit.EarlierTimestampIsHidden` | eds/drivers/mysql/sql.py:278-320 | of two rows of a key with one change stamp, the one with the earlier timestamp is never shown or selected |
| `Audit.ViewsReportTheirRow` | eds/drivers/mysql/sql.py:278-320 | each view reports its row's columns, a selected DELETE counting as absent |
| `Audit.CurrentDependsOnTheSet` | eds/drivers/mysql/sql.py:214-299 | reordering and redelivery do not show where the newest events of each key agree |
| `Audit.ViewIsASetFunctionIff` | eds/drivers/mysql/sql.py:214-299 | that condition is also necessary |
| `Audit.DistinctStampsAgree` | eds/drivers/mysql/sql.py:214-299 | distinct stamps per key satisfy it |
| `Audit.UpsertStatement` | eds/drivers/mysql/sql.py:112-139 | the upsert statement of an event targets its key and leaves its outcome |
| `Audit.CurrentEqualsUpsertTable` | eds/drivers/mysql/sql.py:112-299 | with complete snapshots arriving in stamp order per key, the view shows exactly the upsert table |
| `Collapse.CollapsedShape` | eds/util/optimize.py:45-78 | a key's output has a DELETE only in front, no two adjacent UPDATEs, and ends in the operation its input ends in |
| `Collapse.MergedDiff` | eds/util/optimize.py:55-63 | the diff left on a row's last UPDATE names exactly the columns that the run of UPDATEs it stands for names |
| `Collapse.GroupsInFirstSeenOrder` | eds/util/optimize.py:32-42 | groups come out in the order in which their first records came in |
| `Collapse.RecordActs` | eds/drivers/snowflake/sql.py:84-141 | a DELETE removes the row, a repeated INSERT or a missing row starts from the defaults, and an existing row is overwritten only by a strictly later event |
| `Collapse.FoldIsSoundIff` | eds/drivers/snowflake/sql.py:92-119 | for two dated UPDATEs, the folded MERGE equals the two MERGEs from every row exactly when the later supersedes the earlier or is equally dated and adds nothing |
| `Collapse.GroupKeepsMeaning` | eds/util/optimize.py:45-68 | collapsing one row's records leaves that row as the uncollapsed statements do |
| `Collapse.BatchActsByRow` | eds/drivers/snowflake/sql.py:84-132 | a batch acts on each row through that row's records alone |
| `Collapse.CombineByRow` | eds/util/optimize.py:27-42 | without ambiguous keys, what is left for a row is the collapse of its records |
| `Collapse.CombineKeepsMeaning` | eds/util/optimize.py:27-78 | from any tables, the merged batch leaves what the batch leaves, when keys are unambiguous and neighbouring UPDATEs supersede each other |
| `Collapse.MergingIsSafeIff` | eds/util/optimize.py:27-42 | merging keeps the meaning of every batch over a set of rows exactly when table and id run together tell the rows apart |
| `Collapse.AmbiguityLosesARow` | eds/util/optimize.py:33-37 | two concrete rows on which it does not |
| `Collapse.SortIsStable` | eds/util/optimize.py:11-24 | the sort is ascending, a permutation, and keeps the order of equal stamps |
| `Collapse.FlushKeepsMeaning` | eds/drivers/snowflake/snowflake.py:250-272 | sort, merge and execute leaves what sort and execute leaves |
| `Collapse.Record.FoldIn` | eds/util/optimize.py:55-64 | folding in place gives the union of diffs, the merged object and the later event |
| `Collapse.CollapseInPlace` | eds/util/optimize.py:45-68 | the in-place loop over one group computes the collapse of the records as they were |
| `Collapse.GroupRecords` | eds/util/optimize.py:31-38 | the dictionary holds each key's records in order and the keys in first-seen order |
| `Collapse.CombineInPlace` | eds/util/optimize.py:27-42 | the whole rewrite on mutable records computes the merged batch, one group's changes never reaching another's |
| `Migration.Stream.MigrateNewTable` | eds/drivers/sql_base.py:262-270 | the table ends with the schema's columns, is dropped first exactly when it existed, and no other table changes |
| `Migration.Stream.MigrateNewColumns` | eds/drivers/sql_base.py:288-292 | columns are only added, on success all requested ones, and a missing table makes it fail |
| `Migration.Stream.SetTableVersion` | eds/registry/__init__.py:92-98 | what lookups answer changes even when the tracker write fails |
| `Migration.Stream.HandlePossibleMigration` | eds/consumer/batch_processor.py:253-296 | coverage and buffered statements stay valid through every failure; a flush is forced exactly for a new table or when the event's version has a column that the recorded one lacks, and the destination then has every column of the event's version |
| `Migration.Stream.Process` | eds/drivers/sql_base.py:210-231 | the statement buffered uses the version's columns and is valid unless its table was lost |
| `Migration.Stream.Flush` | eds/drivers/sql_base.py:233-243 | every statement executed is valid against the destination at that moment unless its table was lost |
| `Migration.Stream.HandleEvent` | eds/consumer/batch_processor.py:130-158 | an accepted event adds exactly its statement to what is executed or buffered, and its table has all columns of its version; whichever step fails, tables with a version, their columns and the buffered statements stay valid |
| `Migration.Stream.RunStream` | eds/consumer/batch_processor.py:99-296 | over any order of older and newer model versions, each accepted event is handled once in order, destination columns cover the recorded schemas and the events' versions, no table with a version is dropped, and none is newly lost |
| `Migration.Stream.Seed` | eds/registry/__init__.py:198-207 | the latest versions are recorded one after the other, other tables' versions stay, and a failed write stops it |
| `Migration.Stream.ReconcileTable` | eds/consumer/consumer.py:60-74 | one table is created or extended to cover its version, never dropped |
| `Migration.Stream.UpdateDestinationSchema` | eds/consumer/consumer.py:51-74 | after the reconcile every latest table covers its version, the other tables are untouched and nothing was dropped; with enough actions going well it succeeds |
| `Migration.Stream.StartUp` | eds/consumer/consumer.py:51-74 | a start that succeeds leaves exactly those tables lost that were lost before and that the latest schema lacks; one that fails loses at most latest tables |
| `Migration.RunProcess` | eds/consumer/batch_processor.py:99-296 | a process streams with exactly those tables uncovered, and the stream loses no more |
| `Migration.RunProcesses` | eds/consumer/batch_processor.py:99-296 | over any number of processes, while no table is withdrawn from the latest schema, every process that starts has all recorded tables covered and keeps them so |
| `Migration.LoseWithdrawn` | eds/registry/__init__.py:198-207 | for every list of latest schemas of which a later one lacks a table of an earlier one there are processes, from an empty destination, of which the last starts and streams with that table lost |
| `Migration.WithdrawnTable` | eds/registry/__init__.py:198-207 | recorded by a process that breaks, withdrawn from the next latest schema: the table does not exist and its events are buffered all the same |
| `Registry.KeysCollideIff` | eds/registry/__init__.py:32-37 | a version key is also a schema key exactly when the table name has a dash |
| `Registry.SchemaKeysCollideIff` | eds/registry/__init__.py:32-37 | two schema keys are the same exactly for the same schema, or when the names differ by a part that a dash lets move from table to version |
| `Registry.InMemoryCache.Get` | eds/util/cache.py:37-46 | a live entry is returned, an expired one evicted, nothing else changes |
| `Registry.InMemoryCache.Sweep` | eds/util/cache.py:58-65 | exactly the expired entries are removed |
| `Registry.ApiRegistry.GetTableVersion` | eds/registry/__init__.py:79-90 | the answer is what the tracker holds, or the value of a failed write that is still live |
| `Registry.ApiRegistry.SetTableVersion` | eds/registry/__init__.py:92-98 | a write that goes through reaches both; one that fails in the tracker reaches the cache until its deadline |
| `Registry.ApiRegistry.GetSchemaFor` | eds/registry/__init__.py:100-152 | a stored schema wins over the API and is never replaced, and raises if it does not decode; a fetched one is written through in canonical form, or reaches only the cache when the tracker write fails; no other slot changes |
| `Registry.RunOps` | eds/registry/__init__.py:79-152 | every interleaving of lookups, writes that may fail, clock advances and sweeps answers like a registry without a cache that only remembers its failed writes, versions by table and schemas by table and version, provided no two of these share a key |
| `Registry.ReadTwoSchemas` | eds/registry/__init__.py:100-131 | of two schemas read one after the other, the second is the first one's exactly when they share a key |
| `Registry.DashFreeKeysApart` | eds/registry/__init__.py:32-37 | tables without a dash in their names share no keys |
| `Registry.LookupAgreesIff` | eds/registry/__init__.py:79-98 | after any operations, a version lookup answers what the tracker holds exactly when the last write to that table is absent, went through, is older than the cache keeps entries, or wrote just that |
| `Registry.FailedWriteShows` | eds/registry/__init__.py:92-98 | a failed write shows in every lookup until its deadline and in none after it |
| `Registry.NoFailuresNoTrace` | eds/registry/__init__.py:79-131 | without a failed write, the answers are those of one plain table of versions and schemas |
| `Tracker.RangeIsPrefixIff` | eds/tracker/__init__.py:30-38 | the half-open range is exactly the prefix's keys for the empty prefix, a last code point below the maximum, or a run of maximal ones, and for no other prefix |
| `Tracker.Store.DeleteKeysWithPrefix` | eds/tracker/__init__.py:94-103 | all and only the keys with the prefix go, the count is the number removed, and an unencodable bound raises before anything is deleted |
| `Tracker.Store.GetKey` | eds/tracker/__init__.py:56-67 | found exactly when stored and not expired, with its value; evicting an expired key cannot be told by any later lookup |
| `Tracker.Store.SetKey` | eds/tracker/__init__.py:69-76 | one key is written with its deadline and the others stay, or the write fails and nothing changes |
| `Tracker.MarkersOfOneRun` | eds/cmd/import_cmd.py:686-689 | a marker lies under a run's prefix exactly when it is that run's |
| `GoUrl.EscapeLoop` | eds/util/gourl.py:68-77 | the loop computes the escaping of every byte in order |
| `GoUrl.UnescapeLoop` | eds/util/gourl.py:80-102 | the loop decodes, or reports the malformed escape or the bytes that are not UTF-8 |
| `GoUrl.UnescapeEscape` | eds/util/gourl.py:42-102 | unescaping undoes escaping in every mode, in host mode exactly for host text |
| `UrlReading.EscapesAllBut` | eds/util/gourl.py:42-65 | each mode leaves exactly the letters, digits, - _ . ~ and its own listed characters as they are |
| `UrlReading.UnescapesIff` | eds/util/gourl.py:80-102 | a text is malformed exactly when a percent sign is not followed by two hex digits, or in a host escapes another ASCII byte, or a host holds a byte that is not allowed |
| `UrlReading.Utf8Iff` | eds/util/gourl.py:80-102 | decoded bytes are accepted exactly when they are the UTF-8 forms of some Unicode scalar values |
| `GoUrl.EscapedBytes` | eds/util/gourl.py:42-77 | escaped text holds only percent signs, upper-case hex digits, bytes its mode keeps, and '+' for a space |
| `GoUrl.DecodedHostText` | eds/util/gourl.py:310-322 | every host the parser can return is host text |
| `GoUrl.HostStable` | eds/util/gourl.py:310-322 | a parsed host printed again parses to itself, brackets and ports included |
| `GoUrl.UserStable` | eds/util/gourl.py:296-307 | parsed userinfo printed again parses to itself, with or without a password |
| `GoUrl.AuthorityStable` | eds/util/gourl.py:296-307 | a parsed authority printed again parses to itself |
| `GoUrl.PathStable` | eds/util/gourl.py:244-247 | a parsed path prints as it was written |
| `GoUrl.BodyStable` | eds/util/gourl.py:337-362 | opaque, authority and plain bodies printed again parse to themselves |
| `GoUrl.RestStable` | eds/util/gourl.py:337-362 | everything but the fragment, forced and raw queries included, printed again parses to itself |
| `GoUrl.UrlStable` | eds/util/gourl.py:254-362 | for every accepted string, parsing the printed URL gives the same URL in every field |
| `UrlReading.FieldsAreRead` | eds/util/gourl.py:325-362 | the fragment is what follows the first hash sign, and scheme, query and body are read from the rest |
| `UrlReading.SchemeIsRead` | eds/util/gourl.py:280-293 | the scheme is what precedes a colon, letter by letter in lower case |
| `UrlReading.HasSchemeIff` | eds/util/gourl.py:280-293 | a text has a scheme exactly when it starts with a letter, further scheme characters and a colon, and only a leading colon is an error |
| `UrlReading.HostShapeIff` | eds/util/gourl.py:169-174 | a host's shape is right exactly when its bracket is closed with at most a port after it, or only digits follow its last colon |
| `UrlReading.ControlIsRefused` | eds/util/gourl.py:325-334 | a text with a control byte is refused, and no other before it is taken apart |
| `UrlReading.QueryIsRead` | eds/util/gourl.py:337-345 | the query is what follows the first question mark, a lone trailing one being remembered |
| `UrlReading.AuthorityIsRead` | eds/util/gourl.py:296-307 | the host follows the last at-sign, and a password the first colon before it |
| `UrlReading.BodyWithoutSlash` | eds/util/gourl.py:346-351 | text without a leading slash is opaque after a scheme, and otherwise a path whose first segment has no colon |
| `UrlReading.BodyWithSlash` | eds/util/gourl.py:352-361 | two slashes, without a scheme not three, are followed by the authority up to the next slash, and everything else is path |
| `UrlObject.SchemeLoop` | eds/util/gourl.py:280-293 | the scan returns the lower-cased scheme and the rest, no scheme, or the missing-scheme error |
| `UrlObject.Url.TakeBody` | eds/util/gourl.py:346-361 | filling the fields gives what parsing the body gives, and raises exactly when it fails |
| `UrlObject.Url.TakeRest` | eds/util/gourl.py:337-362 | filling the fields gives what parsing everything but the fragment gives |
| `UrlObject.Url.ToText` | eds/util/gourl.py:254-277 | the buffer ends as the printed URL |
| `UrlObject.ParseUrl` | eds/util/gourl.py:325-334 | the fresh object is the parsed URL, and printing it parses to the same fields; it raises exactly when parsing fails |
| `UrlValues.EncodeIsCanonical` | eds/util/gourl.py:158-166 | the order in which keys were inserted does not show |
| `UrlValues.EncodesAscending` | eds/util/gourl.py:158-166 | the encoded pairs come key by key, the keys in ascending byte order |
| `UrlValues.SegmentIsRead` | eds/util/gourl.py:225-242 | a segment that is empty, has a semicolon or a malformed escape is skipped, bytes that are not UTF-8 raise, and otherwise it is the pair around its first equals sign |
| `UrlValues.QueryOfEncode` | eds/util/gourl.py:158-242 | reading an encoded multimap gives the same keys with the same value lists in order |
| `UrlValues.EncodingAReadQuery` | eds/util/gourl.py:158-242 | encoding what any raw query reads as changes nothing in its reading |
| `UrlValues.Values.Set` | eds/util/gourl.py:143-144 | the key's list becomes that one value and other keys stay |
| `UrlValues.Values.AddValue` | eds/util/gourl.py:146-147 | the value goes to the end of the key's list and other keys stay |
| `UrlValues.Values.EncodeAll` | eds/util/gourl.py:158-166 | the nested loops compute the encoding |
| `UrlValues.QueryLoop` | eds/util/gourl.py:225-242 | the loop reads the multimap, and raises exactly when a segment decodes to bytes that are not UTF-8 |
| `JsonText.CompactRaw` | eds/util/gojson.py:29-69 | the two-flag loop computes compaction |
| `JsonText.CompactIsIdempotent` | eds/util/gojson.py:29-69 | compacting twice is compacting once, on every string |
| `JsonText.CompactKeepsBalance` | eds/util/gojson.py:29-69 | compaction neither opens nor closes a string |
| `JsonText.CompactKeepsMeaningIff` | eds/util/gojson.py:29-69 | decoded strings and the characters between them survive exactly when no HTML character stands outside strings |
| `JsonText.CompactDropsSpace` | eds/util/gojson.py:29-69 | compacted text has none of the four spaces outside its strings |
| `JsonText.HtmlEscapes` | eds/util/gojson.py:58-68 | the five characters become their escapes and no other character changes |
| `GoJson.MarshalIsStable` | eds/util/gojson.py:82-164 | compaction leaves marshalled text alone, sorted or not, when raw fragments close their strings |
| `GoJson.RawFieldIsStable` | eds/dbchange.py:139-145 | a field rebuilt as raw text from its own marshalling is written back byte for byte |
| `GoJson.RawIsSafeIff` | eds/util/gojson.py:94-98 | a raw fragment may precede any value exactly when it closes the strings it opens |
| `GoJson.EscapedAs` | eds/util/gojson.py:135-164 | the five short escapes, lower-case hex for the other controls and the HTML characters, and anything else as it is |
| `GoJson.EncodedIsSafe` | eds/util/gojson.py:135-164 | an encoded string holds no control and none of the five HTML characters |
| `GoJson.KeysAscend` | eds/util/gojson.py:118-129 | a dictionary's keys are marshalled in ascending code point order |
| `JsonReader.ReadEscaped` | eds/util/gojson.py:135-164 | an encoded string reads back as itself |
| `JsonReader.MarshalRoundTrip` | eds/util/gojson.py:82-132 | marshalled text reads back as the tree with its keys in order |
| `JsonReader.InsertionOrderRoundTrip` | eds/util/gojson.py:82-132 | without sorting it reads back as the tree itself |
| `JsonReader.SortedTextIsCanonical` | eds/util/gojson.py:118-129 | two values have the same sorted text exactly when they are equal up to the order of dictionary entries |
| `JsonEncoder.Encoder.EncodeString` | eds/util/gojson.py:135-164 | appends the quoted and escaped string to the shared output |
| `JsonEncoder.Encoder.Encode` | eds/util/gojson.py:94-132 | appends exactly the value's text in normal form, and raises exactly when something inside cannot be encoded |
| `JsonEncoder.MarshalLoop` | eds/util/gojson.py:82-91 | the appending encoder marshals, and its output is stable under compaction |

## Left out

- NATS and JetStream, asyncio scheduling, threads, HTTP and real SQL engines: each call is one atomic step with a reply; the queue is first in first out.
- Kafka, S3, EventHub and file drivers: they are mostly I/O, and Kafka's flush clears its buffer after a timed wait, so acked does not imply delivered there.
- PostgreSQL and SQL Server builders: partial updates by diff need assumptions about the diffs; MySQL's full REPLACE is the reference.
- SQL text: quoting, escaping and date formats are not modelled; a value is the literal it is rendered to, and a statement is its effect.
- Audit-mode DDL: creating the history table, its index and its views, and recreating the views around a new column.
- The update-noise skip of the Snowflake flush plan: it drops updates on purpose, so the collapse theorem is about the statements before it.
- Collapsing assumes that the record id is the row's `id` column, and that the MERGE compares dates; a record's stamp is not updated by a merge, which nothing reads after the sort.
- Job polling without end, HTTP retries on status codes, and the contents of the table export information.
- The substring matching of the retry classifier: an error carries whether its text reads like a transport failure, and so does each table's name.
- Cleanup of temporary directories, recording versions after an import, and the record of failed tables.
- Logging is taken not to fail once its arguments are there, and cancelling the drain task after the ten-second stop timeout is not modelled.
- Event times are compared with cutoffs exactly; the division to seconds rounds by microseconds after the year 2242.
- Versions that change a table's key columns or how a key value is coerced: every rendering of a message is taken to name the same row.
- A registry without a tracker, and a consumer paused and resumed within one process.
- Registry.ApiRegistry.GetSchemaFor: takes a decoded schema to be its canonical text, and canonical text to decode to itself; a schema with a number that is not finite, which is stored as an empty text, is not modelled.
- Numbers in JSON are taken as written: float formatting and integer printing are not modelled, and a struct value is the text of its own encoder.
- JsonEncoder.Encoder.Encode: takes dictionary keys to be strings; a dictionary with other keys is sorted by those keys before they are turned into strings.
- Strings with lone surrogates: URLs are modelled as UTF-8 bytes and JSON as Unicode scalar values; sorting by UTF-8 bytes is taken to be sorting by code point.
- Printing a URL object whose raw path was altered by hand into a malformed escape, splitting host from port, and reading from or deleting from a multimap.
- Registry.RunOps: asks that no two slots of the run share a key; `ReadTwoSchemas` says what two schemas sharing one read, and a version lookup under a schema's key can return a schema object.
