# Sequel: a verified model

Sequel is a Go layer over `database/sql`. This project models its five hardest parts in Dafny and proves what they
promise, for every input, every run and every interleaving.

1. **Transactions and batches** (`Session`, `SessionSafety`, `SessionEquivalence`, `Faults`, `Outcomes`, `FirstError`,
   `Transact`, `Delivery`, `BatchDelivery`, `Steps`, `Locality`, `Objects`, `Statements`, `BufferedRows`). `Session`
   is the protocol of `Tx`, `Batch`, `BatchResults`, `BatchRows`, `Rows`, `Row` and `Stmt` as a deterministic machine:
   a closure is any list of operations on the handles it was given, and the database is any function from the
   statements executed so far to the outcome of the next. On it are proved the invariant of every step, that a
   recorded error stops everything, and that a driver that pipelines batches cannot be told from one that does not:
   the same answers, rows and errors alike, even for a closure that decides by the values it scans, whenever
   statements fail as they execute. `Faults` says, on an operation and its outcomes and not on its answer, when it
   meets an error, and proves that this is exactly when the transaction can no longer commit. `Delivery` and
   `BatchDelivery` say what a closure gets, on the answers of whole runs: each row the server gave, once and in order,
   and the outcome of each queued statement at its read. `Outcomes` ties the log to what succeeded and the batches to
   what was queued. `Transact` has the deferred functions of an attempt as a stack: it commits exactly when no
   operation met an error, no batch is pending and the database accepts the COMMIT, the error it answers otherwise is
   the first of those that failed, and every attempt has ended before its connection is released. `FirstError` says
   which error a run records. The comment on `Transact` (`db.go:894-895`) says a closure cannot commit partial work.
   That holds except for failures the closure did not read, and the condition is exact: a statement that failed is
   committed over if and only if its failure still waits in one of three places, a `Row` that was never scanned nor
   asked for its error, a `Rows` (or a `Row`, behind its first row) that was not read to its end, or rows of a batch
   that were not read to their end. The last two need a server that reports an error behind the rows it sent;
   `rows.go:62-63` describes stopping early as deliberate. `Objects`, `Statements` and `BufferedRows` hold the same
   methods in the source's own form, classes whose fields change in place and loops, each proved to take the machine's
   step for the objects it can reach; `Locality` proves that in a session of any size the same operation takes the
   same step on those objects and leaves all others alone.
2. **The migration lease** (`Migration`, `MigrationRuns`). Many runners, one table, a server clock, latencies, crashes
   and statements of crashed runners that still arrive. Completion order needs no timing at all. Exclusion does, and
   the exact condition is proved: it holds in every execution if and only if the renewal interval, three statement
   latencies and the time a cancelled run takes to end fit into one lease. Two latencies are not enough, because the
   release statement, like the renewal and the completion, does not check who holds the lease (`db.go:1823`): a late
   release can free the lease of a second runner for a third. `MigrationRuns` proves that a Migrate nothing goes wrong
   for runs every file once, in order, and returns nil, and that one fails only by a refused or badly answered
   statement, a failed run or a crash.
3. **Query unpacking** (`Lexer`, `Placeholders`, `Regions`, `Balance`, `SearchSplit`, `Expansion`, `TextExpansion`,
   `TreeText`, `Separation`, `Intervals`, `Binding`, `VirtualFunctions`, `HandlerMeaning`, `JsonPath`, `Decimal`,
   `TimeArithmetic`). The lexer, the numbering of placeholders and a pass of expansion work on bytes; what expansion
   means is said on call trees, `TreeText` proves that the pass over a tree's text is the pass over the tree, and
   `Separation` that one look at the statement and the handlers is enough for all passes. A statement means what it
   says with each argument written in place of its `?`; unpacking keeps that meaning on SQL Server for every
   statement, and on the other drivers exactly for the statements that `Careful` describes: each `REGEXP_TEXT_SEARCH`
   has placeholders on one side of its `IN` at most, and on MySQL and MariaDB no `JSON_FIELD` column holds one.
   `SearchSplit` proves when the handler, which cuts at the first " IN " of its text, cuts at the call's own.
   `Regions` says what is code by the text itself: every statement is a sequence of literals, comments, dollar-quoted
   bodies and single bytes, and numbering replaces the bytes `?` and nothing else. `HandlerMeaning` reads the SQL of
   each built-in function as the databases do and proves that it computes the same on all of them.
4. **The query cache** (`Clock`, `CacheAnswers`, `QueryCache`, `CacheCoherence`). The CLOCK ring as a value and as the
   class with its map and ring of shared entries, and the race between lookups and registrations as every interleaving
   of their atomic steps. A lookup answers what unpacking with the registry of the moment gives, hit or miss, and the
   ring is the map of entries that the interleaved machine has.
5. **Telemetry labels** (`Labels`). The bounded, learned set of statement verbs.

To verify: `dafny verify dfyconfig.toml`.

## Model

| member | source | states |
|---|---|---|
| `SessionSafety.StepInv` | batchresults.go:55-244 | Every operation of a closure keeps the books: the unsent count is exact, the open results are sent, non-empty and unclosed, every failed result is recorded in a Transact transaction, and while nothing failed the statements of each sent and closed batch form one contiguous block of the log, in queue order |
| `SessionSafety.RunInv` | batchresults.go:28-41 | The same invariant after any list of operations, valid or not |
| `SessionSafety.BooksBalance` | tx.go:56-66 | In every reachable state unsentBatches is the number of non-empty unsent batches, openBatch names sent, non-empty, unclosed results, and at most one finalization reached the database |
| `SessionSafety.FinalizedOnce` | tx.go:254-310 | Once the transaction ended, no Commit or Rollback reaches the database again; the answer is ErrTxDone or the refusal of a pending batch |
| `SessionSafety.DoomedStep` | tx.go:71-99 | After the first recorded error no operation changes it, and none executes a statement, through Tx, bound Stmt, Batch or its results |
| `SessionSafety.DoomedRun` | tx.go:71-107 | The same for the rest of any run |
| `SessionSafety.AnswerLatched` | telemetry.go:700-724 | Every error a closure is shown as an answer in a Transact transaction is recorded in it, except a missing row, reads past or after the results, errors a statement carries from another transaction, and what the embedded Close of a Rows reports; Faults has the errors no answer shows |
| `SessionSafety.DirectInv` | tx.go:110-160 | A plain statement extends the log only while no batch is open, so it never splits a batch's block |
| `SessionSafety.AdvanceInv` | batchresults.go:83-114 | A read that is refused, or answered from a pipelined batch's buffers, keeps the invariant |
| `SessionSafety.RunReadInv` | batchresults.go:116-180 | Running the next statement of the open batch extends its block by exactly that statement |
| `SessionSafety.OpenedInv` | batch.go:154-167 | Send puts the batch's statements, if it runs them at once, right behind everything executed before, in order |
| `SessionSafety.PipelineShape` | batch.go:178-260 | A pipelined batch executes a prefix of its statements in queue order, all of them when no item carries an error |
| `SessionEquivalence.PipelinedLooksSequential` | batch.go:129-260 | For every closure, the same answers, whether batches pipeline or run statement by statement: every scan delivers the same row, every count and every error is the same; the one-by-one log is always a prefix of the pipelined one, and they are equal whenever the transaction may commit |
| `SessionEquivalence.AdaptiveLooksSequential` | batch.go:129-260 | The same for every closure that chooses each operation by the answers it saw so far, scanned rows included: it makes the same calls both ways |
| `SessionEquivalence.ScriptIsChosen` | db.go:943-943 | The list of operations in that claim is the closure's: each is its choice after the answers before it, and the list ends where the closure does |
| `SessionEquivalence.SomeWorldFails` | batchresults.go:34-36 | There is a server whose statements fail at execution only, some of them: the claim above is about something |
| `SessionEquivalence.SameStep` | batchresults.go:83-226 | Each operation keeps the two ways of sending in step |
| `SessionEquivalence.PipelineFuture` | batch.go:178-260 | The buffers of a pipelined batch are what running its statements one by one would give |
| `SessionEquivalence.SameItem` | batchresults.go:139-180 | The buffered outcome of the next statement is the outcome of executing it now |
| `SessionEquivalence.SameRest` | batchresults.go:206-226 | Closing runs the unread statements to the same first failure that the pipelined batch already holds |
| `SessionEquivalence.ScanRecorded` | rows.go:46-90 | Streamed rows latch a scan error before the batch does, buffered rows after it: the recorded errors have the same cause |
| `Faults.MetIffStuck` | batch.go:89-127 | An operation meets an error - a failed statement or scan, a failed iteration, a misuse of Queue or Send, a superseded read, whatever is answered - exactly when it leaves a transaction that could commit unable to |
| `Faults.StuckStays` | tx.go:263-276 | No operation short of ending the transaction makes it able to commit again |
| `Faults.ShownIsMet` | telemetry.go:700-724 | A failure the closure is shown is one the operation met, unless it is exempt, another transaction's, or what the embedded Close of a Rows reports |
| `Faults.StuckIffMet` | db.go:946-951 | After any script that finalizes nothing, the transaction can still commit exactly when no operation of the script met an error |
| `Outcomes.RunAccounted` | tx.go:150-175 | While the transaction may commit, the failure of every statement of the log that failed, at once or behind its rows, waits in a Row, or behind rows of a Rows or a batch that were not read to their end; and what waits in such a place is the failure of a statement of the log |
| `Outcomes.AllSucceededIff` | rows.go:24-31 | Every statement of the log succeeded, rows and all, if and only if no failure waits in any such place |
| `Outcomes.FailedRowLeftAlone` | telemetry.go:709-736 | While the transaction may commit, a Row whose statement failed at once was never scanned or asked, unless the failure is a missing row; one that was scanned holds at most an error behind the first row, which Scan closed before |
| `Outcomes.RunQueued` | batch.go:89-107 | While the transaction may commit, each batch holds exactly the statements the script queued to it, in order |
| `FirstError.RecordedFirst` | tx.go:71-80 | The error a run records is recorded by one operation, before which nothing was; if that operation showed the closure a failure, it is the one recorded |
| `FirstError.StepTold` | tx.go:71-107 | Every operation that records the first error and answers a failure answers that failure: plain statements, rows, reads of a batch and its Close |
| `FirstError.SilentTold` | rows.go:60-70 | What an operation records that shows nothing: the error that ended the rows, a misuse of Queue or Send, a refused binding, superseded rows |
| `Delivery.QueryDelivers` | rows.go:54-89 | After Query, in whatever order other things are called: the i-th Next answers whether there is an i-th row, the Scan behind it gives that row or the error of scanning it, and Err the error behind the rows once they were read |
| `Delivery.SpentGivesNone` | rows.go:60-70 | Rows that were closed or read to their end give no row any more |
| `Delivery.QueryRowDelivers` | telemetry.go:709-724 | The first Scan of a Row gives the first row, or the error of scanning it, of reading or of closing; NoRows exactly when there is no row and no error |
| `Delivery.ExecDelivers` | tx.go:122-131 | Exec answers the count the server gave, or its error, at once or behind rows, and the statement joins the log |
| `Delivery.PrepareBinds` | tx.go:203-237 | The handle of a prepared or bound statement executes that statement |
| `Delivery.BatchRowsDeliver` | batchrows.go:48-82 | The same of a batch's rows, streamed or buffered, whatever else is called that does not overtake them, and of the single row of QueryRow |
| `BatchDelivery.PipelineDelivers` | batch.go:178-260 | One round trip leaves every item with the outcome of its statement, executed behind those before it |
| `BatchDelivery.BatchDelivers` | batchresults.go:83-183 | Whether sent in one round trip or not: the i-th read answers the count, or opens the rows, of the i-th statement queued, and the read behind the last one that there are no more |
| `BatchDelivery.BatchSucceeds` | batchresults.go:83-183 | A batch whose statements succeed is sent and read without anything failing |
| `Transact.CommitIsWhole` | db.go:924-963 | An attempt that commits executed, of every batch the closure made, exactly the statements it queued, once each, in queue order, as one block; every statement of the log succeeded, rows and all, if and only if no failure waits in a Row or behind rows not read to their end, and that of a failed one does |
| `Transact.CommitsIff` | db.go:925-963 | transactOnce answers nil if and only if the transaction began, the closure returned nil, none of its operations met an error, no batch is pending and the COMMIT succeeds |
| `Transact.TransactAnswers` | db.go:925-963 | The error transactOnce answers has the cause of the first of these that failed: the begin, SET XACT_ABORT, the closure itself, its operations in what they recorded, a pending batch with its reason, the COMMIT |
| `Transact.FinalAnswers` | tx.go:254-310 | What Commit and Rollback answer a closure: why a batch is pending, that the transaction is over, or the driver's answer |
| `Transact.CommitLeavesFailedRowsAlone` | telemetry.go:709-736 | In an attempt that commits, a Row that was scanned or asked for its error holds no failure but a missing row, or an error behind the first row |
| `Transact.CommitShows` | telemetry.go:700-724 | What a closure was shown by an attempt that commits: missing rows, reads past or after the results, errors carried from another transaction, and what the embedded Close of a Rows reports |
| `Transact.UnscannedRowCommits` | tx.go:166-175 | The first witness: a QueryRow whose statement fails, at once or behind its rows, and that is never scanned, committed with Transact answering nil |
| `Transact.UnreadRowsCommit` | rows.go:60-70 | The second: a Rows with an error behind its rows that is not read to its end, closed or not; what its Close reports is shown and not recorded |
| `Transact.UnreadBatchCommits` | batchresults.go:106-114 | The third: rows of a batch that are not read to their end, on a driver whose Close does not report the error |
| `Transact.ExecTellsAll` | tx.go:122-131 | An Exec reads its statement to the end: an error behind the rows is its answer, and no such attempt commits |
| `Transact.CarriedErrorCommits` | tx.go:226-229 | The witness: an error that a statement brings from another transaction is shown, and does not keep the transaction from committing |
| `Transact.FailedIsRolledBack` | db.go:938-942 | An attempt that began and did not succeed sent a ROLLBACK and nothing else, or a COMMIT that failed |
| `Transact.SuccessMeansCommitted` | db.go:924-963 | transactOnce answers nil exactly when a COMMIT reached the database and succeeded |
| `Transact.ReleasedAfterItsEnd` | db.go:931-942 | Once an attempt is over, by return or by panic, its transaction has ended by exactly one finalization that reached the database, and a held connection went back after it |
| `Transact.PipeliningCommitsAlike` | db.go:924-963 | The same attempt ends the same way and commits the same statements with and without pipelining |
| `Transact.OwnCommitIgnoresTheLatch` | tx.go:254-259 | The witness: a closure that ignores a failed statement and commits by itself gets its partial work committed |
| `Transact.OwnCommitIff` | tx.go:254-276 | In any state with a recorded error, a Commit that the driver accepts ends the transaction if and only if no batch is pending and it has not ended; the error stays recorded |
| `Transact.Retry` | db.go:908-920 | At most eight attempts, each but the last lost to contention, a success only at the end, the last verdict returned |
| `Transact.RunTransact` | db.go:897-922 | Transact makes eight attempts at most, commits at most once, in its last attempt, and answers nil exactly then; a closure that returned contention is called again unless it was the eighth time, one that returned another error is not and that error is the answer; each attempt that began ended before its connection was released, and each that failed by a ROLLBACK or a COMMIT that failed |
| `Transact.RetryContention` | db.go:1895-1906 | At most eight calls, repeated only on contention, the last outcome returned |
| `Locality.AdvanceLocal` | batchresults.go:83-102 | In any session advance touches its own results and the rows they had open, and projecting to them commutes with it |
| `Locality.RestLocal` | batchresults.go:216-226 | The loop over unread statements, seen from its results, is the loop of lone results |
| `Locality.ExecRelocates` | batchresults.go:139-156 | Exec in any session: its own results, the rows they had open, the log and the recorded error change as for a lone BatchResults, and nothing else does |
| `Locality.QueryRelocates` | batchresults.go:160-183 | The same of Query, whose new rows are its results' own |
| `Locality.CloseRelocates` | batchresults.go:197-244 | The same of Close, which also releases the transaction if these results hold it |
| `Locality.RowsRelocate` | batchrows.go:48-99 | Next, Scan and Err of batch rows touch these rows, their results' error and the recorded error, as for lone rows |
| `Locality.QueueRelocates` | batch.go:89-107 | Queue in any session touches its batch, the count and the misuse |
| `Locality.SendRelocates` | batch.go:129-167 | Send in any session touches its batch and the transaction and adds one results, as for a lone batch |
| `Locality.RollbackRelocates` | tx.go:281-291 | Rollback ends the open results and no others |
| `Locality.PlainRelocates` | telemetry.go:709-736 | Next, Scan, Err and Close of plain rows touch these rows and the recorded error |
| `Locality.StmtExecRelocates` | stmt.go:103-112 | A bound statement's Exec looks at no other object, and changes the log and the recorded error only |
| `Locality.StmtQueryRelocates` | stmt.go:121-133 | The same of its Query, which adds one Rows at most |
| `Locality.StmtQueryRowRelocates` | stmt.go:142-150 | The same of its QueryRow, which adds one Row at most |
| `Locality.BindRelocates` | tx.go:203-237 | Preparing and binding add one statement at most, and may record an error |
| `Objects.Tx.constructor` | db.go:936-936 | A new transaction is the machine's first state |
| `Objects.Tx.RecordErr` | tx.go:71-80 | Keeps the first error of a Transact transaction, and nothing otherwise |
| `Objects.Tx.ShortCircuit` | tx.go:91-99 | Refuses and records while results are open, answers the recorded error otherwise |
| `Objects.Tx.Execute` | telemetry.go:603-619 | Unpacking, the finished transaction and argument conversion come before the server sees a statement |
| `Objects.Tx.Issue` | tx.go:122-131 | A statement is executed only if not refused, and its failure recorded, for an Exec one behind its rows too |
| `Objects.Tx.BatchPending` | tx.go:263-276 | The first reason a commit would lose statements, in the source's order |
| `Objects.Tx.Finalize` | tx.go:300-310 | Only a finalization that answered nil sets done; a cancelled one leaves the transaction to be rolled back |
| `Objects.Tx.Commit` | tx.go:254-259 | Refused while a batch is pending, otherwise a finalization |
| `Objects.Tx.Rollback` | tx.go:281-291 | Abandons the open results, then finalizes |
| `Objects.Batch.Queue` | batch.go:89-107 | Appends, counting the batch once; after Send it latches a misuse instead |
| `Objects.Batch.FailFrom` | batch.go:115-120 | Exactly the items from an index on carry the error |
| `Objects.Batch.BufferResult` | batch.go:264-285 | One statement's rows and count, or its error, with the server advanced by that statement |
| `Objects.Batch.BufferResults` | batch.go:227-239 | The loop leaves what running the statements in order and stopping at the first failure leaves |
| `Objects.Batch.Pipeline` | batch.go:178-260 | The whole of pipeline: unpacking errors, rejection, a finished transaction, panics and late failures included |
| `Objects.Batch.Send` | batch.go:129-167 | Send once; refusals, named arguments and empty batches open nothing |
| `Objects.BatchResults.Fail` | batchresults.go:55-69 | Keeps the batch's first failure, traces it once, and keeps an error the transaction recorded as recorded |
| `Objects.BatchResults.Doomed` | batchresults.go:73-79 | A recorded error of the transaction becomes the batch's |
| `Objects.BatchResults.SupersedeOpen` | batchresults.go:106-114 | Closes the open rows, marked superseded unless the caller was done with them |
| `Objects.BatchResults.Advance` | batchresults.go:83-102 | Supersedes, then reports or moves to the next statement |
| `Objects.BatchResults.Run` | batchresults.go:118-135 | Issues the batch's own statement, and fails the batch if it fails or panics |
| `Objects.BatchResults.Exec` | batchresults.go:139-156 | The machine's read of a statement without rows |
| `Objects.BatchResults.Query` | batchresults.go:160-183 | The machine's read of a statement with rows, which become the open ones |
| `Objects.BatchResults.RunRest` | batchresults.go:216-226 | The loop runs what is unread until one statement fails or panics |
| `Objects.BatchResults.Close` | batchresults.go:197-226 | Finishes the batch, releases the transaction, answers the first failure; closing again changes nothing |
| `Objects.BatchResults.Abandon` | batchresults.go:231-244 | Closes without running anything, and releases the transaction only if it holds it |
| `Objects.BatchRows.Next` | batchrows.go:48-60 | Superseded rows report it, closed rows end, an iteration error fails the batch |
| `Objects.BatchRows.Scan` | batchrows.go:66-73 | A scan error fails the batch and is recorded |
| `Objects.BatchRows.Err` | batchrows.go:77-82 | Reports supersession or the error that ended iteration |
| `Objects.BatchRows.Close` | batchrows.go:91-99 | Closes once, answers what closing the source reports, and fails the batch with the error that iteration left |
| `Objects.BatchRows.ScanRow` | batchrow.go:34-57 | The first row or no row, closed whatever happens; the error of that Close is the answer when nothing failed before |
| `Statements.Rows.Next` | rows.go:64-70 | The end of an iteration latches the error that caused it |
| `Statements.Rows.Scan` | rows.go:54-58 | Every scan error is recorded and traced once |
| `Statements.Rows.Err` | rows.go:85-89 | Asking for the error records it |
| `Statements.Rows.Close` | rows.go:33-39 | The embedded Close: answers what closing reports, and records nothing |
| `Statements.Row.Scan` | telemetry.go:716-724 | The first row once, closed behind it; the error of the query, of the scan or of that Close, or a missing row, which alone is not recorded |
| `Statements.Row.Err` | telemetry.go:728-736 | The error of the query, recorded |
| `Statements.Stmt.Exec` | stmt.go:103-112 | A bound statement is refused and recorded like one of the transaction's own |
| `Statements.Stmt.Query` | stmt.go:121-133 | The same, with rows that latch |
| `Statements.Stmt.QueryRow` | stmt.go:142-150 | An unpacking error is recorded at once, an execution error waits in the Row |
| `Statements.Bind` | tx.go:226-237 | An error of the statement is passed on unrecorded; binding is refused, and the refusal recorded, while a batch is open |
| `Statements.Prepare` | tx.go:203-216 | Refused, failed and recorded, or bound without an error |
| `BufferedRows.BufferedRows.Next` | batch.go:304-317 | The i-th call tells whether there is an i-th row and stands on it; each row left is released |
| `BufferedRows.BufferedRows.Scan` | batch.go:319-324 | Scans the row of the last Next, which is still held, and fails without one |
| `BufferedRows.BufferedRows.Close` | batch.go:336-341 | Ends the cursor and drops every row |
| `Migration.ExclusiveIffTimely` | db.go:1798-1826 | At most one live runner executes a migration in every reachable state if and only if 5000 + 3 latencies + cancellation < 15000 ms, crashes included |
| `Migration.SafeIsExclusive` | db.go:1730-1826 | Under that timing, exclusion in every reachable state |
| `Migration.UnsafeIsNotExclusive` | db.go:1821-1826 | Without it, a reachable state with two live runners executing one migration, for every such pair of bounds |
| `Migration.CompletedInOrder` | db.go:1646-1726 | Whatever the timing, completed migrations are a prefix of the sorted numbers, completion never reverts, and a Migrate that returned nil leaves every file completed |
| `Migration.NoneRunsCompleted` | db.go:1713-1726 | Under safe timing no completed migration is being executed |
| `Migration.JoinProgress` | db.go:1646-1680 | A runner that starts skips only completed migrations |
| `Migration.ExecuteProgress` | db.go:1828-1843 | Completing a migration extends the completed prefix by one |
| `MigrationRuns.MigrateSucceeds` | db.go:1683-1843 | For every list of files and all timings: a run from an empty table in which every statement is answered executes each migration once, in order, completes all and returns nil |
| `MigrationRuns.FailsByFault` | db.go:1710-1843 | Migrate fails only through a statement of its own that was refused or badly answered, a run that failed, or a crash |
| `Lexer.SkipNonCode` | sqllex.go:32-82 | The index loop skips exactly the region that Regions describes at that point |
| `Lexer.SkipQuoted` | sqllex.go:87-101 | Ends behind the closing quote, doubled quotes and backslashes skipped, or at the end |
| `Lexer.LiteralSkipped` | sqllex.go:87-101 | Any value written as a literal with its quotes doubled is skipped as one region, whatever follows |
| `Regions.LineSkipped` | sqllex.go:54-58 | On every driver `--` to the end of the line is skipped, or to the end of the statement |
| `Regions.BlockSkipped` | sqllex.go:59-63 | On every driver a block comment is skipped up to its first end, or to the end of the statement |
| `Regions.DollarSkipped` | sqllex.go:64-79 | On PostgreSQL and CockroachDB a body between two like dollar tags is one region, if such bodies are to be skipped, and nowhere else |
| `Regions.QuotedSkipped` | sqllex.go:36-53 | For each quote of each dialect, doubled quotes and backslashes as it has them: skipped up to the closing quote, or to the end |
| `Regions.SkipsIffStarts` | sqllex.go:32-82 | Something is skipped exactly where a quote of the dialect, a comment or a tag starts; everything else is code |
| `Regions.EveryStatementNumbers` | db.go:1922-1970 | Every statement is written as such tokens, and numbering writes the k-th `?` among them as `$k` and all else as it was; MySQL, MariaDB and SQLite keep the statement |
| `Regions.ConformNumbers` | db.go:1919-1925 | The same for any way a statement is written as tokens |
| `Placeholders.ConformPlaceholders` | db.go:1922-1970 | The shortcut, the fast path and the slow path all number the code `?` in order and keep every other byte |
| `Placeholders.SlowPath` | db.go:1953-1969 | The slow loop splices `$k` for the k-th code `?` |
| `Placeholders.FastPath` | db.go:1931-1947 | The fast loop splices `$k` for the k-th `?` |
| `Placeholders.PlainMarks` | db.go:1930-1930 | Where the fast path's guard holds, every `?` is code |
| `Placeholders.SpliceNumbers` | db.go:1960-1963 | The k-th mark stands as `$k` in the output |
| `Placeholders.SpliceKeeps` | db.go:1964-1966 | Every other byte stands in the output, moved by the numbers before it |
| `Placeholders.SecondPassIsIdentity` | querycache.go:76-80 | On SQL Server numbering a numbered statement changes nothing |
| `Placeholders.CheckFiresIffMarked` | querycache.go:78-80 | The check after expansion fires exactly when a code `?` is left |
| `Balance.FindBalancedClose` | vf.go:186-206 | The first closing parenthesis outside quotes that takes the text below its level, the only one there is, or -1 |
| `Balance.LastTopLevelComma` | vf.go:299-319 | The last comma outside parentheses and quotes, or -1 |
| `Balance.CallCloses` | vf.go:157-170 | In the text of any call tree, a call closes behind its own arguments, REGEXP_TEXT_SEARCH with its IN included |
| `Balance.LastArgument` | vf.go:330-335 | In the text of any call, the last top-level comma is the one before the last argument |
| `Balance.LiteralNeutral` | vf.go:190-195 | Parentheses and commas inside single or double quotes count for nothing |
| `SearchSplit.CutsAtSeparator` | vf.go:262-270 | The handler cuts a call's text at the IN before its columns if and only if its search expression's text, nested calls and literals included, holds no " IN " |
| `SearchSplit.AnyCase` | vf.go:263-264 | The cut is at an " IN " in any letter case |
| `SearchSplit.NestedSearchHides` | vf.go:264-264 | A search expression with a REGEXP_TEXT_SEARCH inside holds one |
| `Expansion.ExpandVirtualFuncs` | vf.go:106-123 | Ends, leaves no registered call, and gives the statement with every call expanded where it stands |
| `Expansion.PassDepth` | vf.go:130-181 | A pass takes at least one level of nesting off, however often handlers repeat their arguments |
| `Expansion.PassKeepsMeaning` | vf.go:130-181 | A pass changes no statement's full expansion, and fails only where that fails |
| `TextExpansion.ExpandOnceText` | vf.go:130-181 | The byte loop, its copying in pieces included, gives what going through the text turn by turn gives: each registered call outside literals and comments whose parentheses close replaced, every other byte kept, and a change reported if there was one |
| `TextExpansion.HopEnd` | vf.go:136-158 | The loop moves over a literal, a comment, a name or a single byte, and stops at a registered name before a parenthesis |
| `TextExpansion.ClosesHere` | vf.go:159-164 | The call ends where findBalancedClose says, seen from the text behind the parenthesis alone |
| `TreeText.OnceIsPass` | vf.go:130-181 | On the text of any tree that is what its text reads as, the byte loop gives the text of the tree's pass, fails exactly when that fails, and reports a change exactly when the tree has a registered call |
| `TreeText.TreePass` | vf.go:130-181 | The same for a tree anywhere inside a statement, with what stands before and behind it |
| `TreeText.ExpandText` | vf.go:106-123 | The loop over passes on text ends with the text of the full expansion, or fails when there is none, if every tree on the way reads as its text does, which Separation proves from the first one |
| `Separation.SeparateEveryPass` | vf.go:106-123 | Every pass over a statement whose calls and texts stand apart, with handlers that write their arguments apart, reads as its text does; so the loop above needs to look at the first statement and the handlers only |
| `Separation.SomeStatementsAreSeparate` | vf.go:99-103 | There are such statements for every depth of nesting, with a handler that answers on text as it does on trees |
| `Separation.PassSeparate` | vf.go:101-103 | A pass keeps a tree separate, calls that it brings to the surface included |
| `Separation.SeparateReads` | vf.go:136-158 | A separate tree is what its text reads as, between any texts that stand apart |
| `TreeText.ClosedByItself` | vf.go:136-153 | That text between calls is lexically closed shows in the text, what stands before it and the one byte behind it |
| `Binding.StatementCounts` | querycache.go:75-86 | The expansion of a numbered statement uses its numbers once each and in order exactly when every virtual function keeps the order of its placeholders |
| `Binding.NumberedFirstBinds` | querycache.go:75-80 | On SQL Server every placeholder takes its own argument, wherever and however often a handler copies it |
| `Binding.BindsIffAligned` | querycache.go:81-86 | On the other drivers that holds for all arguments if and only if every call keeps the order |
| `Binding.FullMap` | vf.go:98-105 | Expansion commutes with any replacement of placeholders |
| `VirtualFunctions.BuiltinsBind` | vf.go:262-603 | With the built-in functions, arguments reach the placeholders of every statement that has an expansion if and only if it is careful; a REGEXP_TEXT_SEARCH whose search expression holds an " IN " has none |
| `VirtualFunctions.NestedSearchFails` | vf.go:264-270 | A REGEXP_TEXT_SEARCH directly inside the search expression of another has no expansion |
| `VirtualFunctions.MssqlBinds` | vf.go:372-388 | On SQL Server they always do |
| `VirtualFunctions.CallKeepsOrder` | vf.go:328-420 | Exactly the harmless calls copy each argument with placeholders once and in order |
| `VirtualFunctions.SearchHarmless` | vf.go:262-295 | REGEXP_TEXT_SEARCH, when it is cut at its own IN, moves its expression behind its columns |
| `VirtualFunctions.FieldHarmless` | vf.go:546-561 | JSON_FIELD repeats its column on MySQL, and only there off SQL Server |
| `VirtualFunctions.DateDiffOrder` | vf.go:397-420 | Off SQL Server DATE_DIFF_MILLIS keeps the order of its arguments |
| `VirtualFunctions.LimitOrder` | vf.go:585-603 | Off SQL Server LIMIT_OFFSET keeps the order of its arguments |
| `VirtualFunctions.BuiltinsBlind` | vf.go:44-54 | No built-in handler looks at a placeholder |
| `HandlerMeaning.LimitMeans` | vf.go:585-603 | On every driver LIMIT_OFFSET asks for its first argument's number of rows from its last argument's on |
| `HandlerMeaning.DiffMeans` | vf.go:397-420 | DATE_DIFF_MILLIS is the first instant less the second, exactly, and within a millisecond on SQL Server |
| `HandlerMeaning.AddMeans` | vf.go:328-354 | DATE_ADD_MILLIS is so many milliseconds after the instant, off SQL Server |
| `HandlerMeaning.MssqlAddMeans` | vf.go:372-388 | On SQL Server its milliseconds and hours add up to the interval, literal or computed, on the base, which is widened exactly when it is a coarse NOW_UTC |
| `HandlerMeaning.SearchMeans` | vf.go:262-295 | REGEXP_TEXT_SEARCH searches the columns that are not blank, in order with a blank between, for the expression |
| `HandlerMeaning.FieldMeans` | vf.go:546-575 | On every driver JSON_FIELD is the text of a leaf, the JSON of anything bigger, and NULL for a missing value and a JSON null |
| `HandlerMeaning.NowDigits` | vf.go:209-219 | NOW_UTC takes three digits by default, otherwise the number written, up to six |
| `HandlerMeaning.CoarseIs` | vf.go:359-367 | A NOW_UTC call, blanks around it or not, is coarse exactly when it asks for fewer than three digits |
| `HandlerMeaning.TrimIs` | vf.go:334-335 | An argument loses the blanks around it and nothing else |
| `JsonPath.ParseJSONPath` | vf.go:443-483 | The loop parses element by element, and refuses the empty path |
| `JsonPath.RoundTrip` | vf.go:529-543 | Parsing the canonical rendering of any valid path returns it |
| `JsonPath.RootOptional` | vf.go:443-449 | `name` and `$.name` are one path |
| `JsonPath.ParsedIsValid` | vf.go:422-425 | Only names of the narrow charset and indexes that fit are accepted |
| `JsonPath.KeysInjective` | vf.go:551-561 | Two different valid paths never share a PostgreSQL key array |
| `Decimal.AtoiOfItoa` | vf.go:470-474 | A written number is read back, if it fits |
| `TimeArithmetic.NowIsFloor` | vf.go:224-254 | The SQL that NOW_UTC(p) expands to evaluates to the instant floored to p digits on every driver, to three at most on SQLite, so the drivers agree |
| `TimeArithmetic.EvaluatesToFloor` | vf.go:233-252 | The half unit, the precision, the cut and the zeros as written in each driver's SQL make it evaluate to that floor, on any clock of the server's own digits |
| `TimeArithmetic.HalfUnitShift` | vf.go:233-243 | Half a unit back and rounding half up is truncation, for every instant |
| `TimeArithmetic.HalfDigits` | vf.go:237-242 | The digits written are the half unit |
| `TimeArithmetic.CutAndPad` | vf.go:244-251 | Keeping p digits and writing zeros is the floor |
| `TimeArithmetic.FloorMonotone` | vf.go:221-223 | More digits never give an earlier instant, and none is in the future |
| `TimeArithmetic.SplitSums` | vf.go:378-387 | The hours and the rest add up to n, the rest under an hour and of n's sign |
| `TimeArithmetic.SplitFits` | vf.go:369-371 | Exactly which intervals fit DATEADD's int after the split |
| `TimeArithmetic.WideningIsExact` | vf.go:373-387 | DATE_ADD_MILLIS(NOW_UTC(p), n) on SQL Server is exactly the floored instant plus n |
| `TimeArithmetic.UnwidenedRounds` | vf.go:373-375 | Without widening, an interval on NOW_UTC(p) with p under 3 is added exactly if and only if it is whole units, and nothing is added if and only if it is under half a unit |
| `Clock.OperationsSound` | querycache.go:151-206 | Every operation keeps the ring's keys distinct and within capacity |
| `Clock.Victim` | querycache.go:181-191 | The sweep stops at the first unmarked entry from the hand, or after one turn at the entry it started from; two turns are never used up |
| `Clock.WorkingSetStays` | querycache.go:151-195 | A working set smaller than the cache whose entries are hit between evictions is never evicted by any stream of one-off statements |
| `Clock.EvictsUnmarked` | querycache.go:181-192 | An eviction takes an unmarked entry if there is one |
| `CacheAnswers.LookupAnswers` | querycache.go:151-195 | If every entry is what f gives for its key, a lookup answers what f gives, hit or miss, and so does an insertion for any generation; the cache stays so |
| `CacheAnswers.Transparent` | querycache.go:151-206 | Over any run of lookups and registrations, and for any capacity, the answers are those of unpacking every time with the registry of the moment |
| `CacheAnswers.LookupUnpacks` | querycache.go:72-95 | With unpacking for f: a lookup answers the statement unpacked with the registry, or the statement as it is and a failure |
| `CacheAnswers.LookupRefines` | querycache.go:151-195 | A lookup loads an entry of the map the ring stands for, or evicts one at most and stores its own: the steps of CacheCoherence |
| `CacheAnswers.InsertRefines` | querycache.go:168-206 | So does an insertion, which stores nothing of an older generation and yields to an entry already there; clearing leaves no entry |
| `QueryCache.QueryCache.Lookup` | querycache.go:151-164 | The map and the ring stay the same set of entries, the result is the value's and has the key asked for; where every entry is what f gives for its key, the answer is what f gives |
| `QueryCache.QueryCache.Insert` | querycache.go:168-195 | Drops an entry of an older generation, prefers one already there, evicts by CLOCK when full |
| `QueryCache.QueryCache.Sweep` | querycache.go:184-190 | The loop is the bounded sweep |
| `QueryCache.QueryCache.Clear` | querycache.go:198-206 | Empties map and ring and bumps the generation |
| `CacheCoherence.NeverStale` | querycache.go:151-206 | Over all interleavings, a lookup begun after a registration returned yields what unpacking gives with a registry at least that new |
| `CacheCoherence.CacheAgrees` | vf.go:65-79 | Whatever is cached is what unpacking gives with some registry since the last registration that returned |
| `CacheCoherence.StepInv` | querycache.go:151-206 | Every atomic step keeps the invariant behind both |
| `CacheCoherence.Looks` | querycache.go:155-160 | A lookup looks first: it returns what is cached, or has missed |
| `CacheCoherence.Computes` | querycache.go:162-163 | One that missed unpacks the statement with the current registry |
| `CacheCoherence.Stores` | querycache.go:168-195 | Not interrupted, it returns that and leaves it in the cache |
| `CacheCoherence.Registers` | vf.go:65-79 | A registration not interrupted makes its handler current, clears, and has returned |
| `Labels.OneAnswer` | telemetry.go:475-499 | Over all interleavings every call with one token gets one answer: the token if it is ever known, OTHER if not |
| `Labels.AnswerStays` | telemetry.go:475-499 | No later call changes that |
| `Labels.Bounded` | telemetry.go:418-421 | From a seed within the cap the set only grows, by verb-shaped tokens, and never exceeds the cap |
| `Labels.NewToken` | telemetry.go:444-444 | While there is room, a capital and up to thirty-one capitals, digits and underscores are learned and answered; any other new token is OTHER |
| `Labels.OperationLabels.Label` | telemetry.go:475-499 | A whole call: known, not verb-shaped, learned, or turned away at the cap, which it records |
| `Labels.OperationLabels.constructor` | telemetry.go:461-469 | The seed is known from the start |

## Left out

- OpenTelemetry spans, metrics, logging and simulated latency; the table heuristics of parseOperation.
- Driver, pgx and `database/sql` internals: the server, row conversion and the driver's answers to COMMIT and ROLLBACK are parameters.
- Calls on one Tx that overlap in time, the rollback `database/sql` performs by itself when a context ends, and the rows it closes when a transaction ends.
- A closure that commits or rolls back by itself is covered by the invariants and by `Transact.OwnCommitIff`, and not by the claims about what Transact commits; `Transact.OwnCommitIgnoresTheLatch` shows why.
- NextResultSet, InsertReturnID, Columns, the deprecated methods, and statements prepared on the pool and never bound.
- Statements.Row.Scan: a Row that reports an error at once is the failed answer of the query that gave it, not an object.
- The machine names objects by handles; the classes hold references. A method's contract is stated for a session that holds the objects it can reach, and `Locality` carries it to a session of any size.
- Objects.Batch.Pipeline: a failed borrow, the simulated delay, a connection that is not pgx's, a failed close after the last result and the renaming of ErrConnDone are two oracles, a rejection before anything ran and a failure after all of it; that a panic closes the driver connection is not modelled.
- Objects.BatchResults.Query: does not state that a pipelined item gives its rows up to the reader, which nothing reads again.
- Objects.BatchResults.Abandon: does not state that type map, fields and buffered rows are dropped.
- Objects.BatchResults.Exec: states its two steps one after the other, with the turn and the state between them as ghost results, as Objects.BatchResults.Query does; Steps.ExecSteps and Steps.QuerySteps put them together.
- SessionEquivalence.PipelinedLooksSequential: assumes that failures occur at execution, as the batch documentation does; statements rejected before anything ran, errors behind the rows of a statement or of closing them, and panics in argument conversion differ by design. It also assumes what `batchrows.go:26-32` and `batchresults.go:137-138` say is not so on PostgreSQL: one scan serves buffered and streamed rows alike, and nothing asks for a LastInsertId.
- TreeText.ExpandText: that a handler does to the text of a call what it does to its arguments is a hypothesis on each call, and that the literals of the built-in handlers are closed texts is not computed for each of them.
- Expansion and Binding work on call trees: handlers copy arguments as whole subtrees and write no registered call of their own. Handlers that loop on their own name, unbalanced text, and names that meet a parenthesis only after expansion are not modelled; nor is the trimming of blanks around copied arguments. The columns of a REGEXP_TEXT_SEARCH are split at every comma and trimmed (`vf.go:271-277`), so blanks next to a comma inside a column's own call or literal go too: `REPLACE(name, ', ', ' ')` becomes `REPLACE(name,',',' ')`, which changes the literal; the model keeps the column as it is.
- HandlerMeaning takes each database's functions and operators as documented; how REGEXP, REGEXP_LIKE and LIKE match is not compared, nor how numbers are printed, JSON booleans (which SQLite gives as 1 and 0) or leaves longer than SQL Server's JSON_VALUE holds.
- VirtualFunctions.RegexpTextSearch: when the search expression's text holds an " IN " it gives no expansion, where the code goes on with the text cut there, which may or may not fail in a later pass.
- Names in call trees are upper-cased already; text is bytes, without Unicode case folding or Unicode blanks.
- Numbering twice on PostgreSQL, which an inserted number can make lex differently.
- TimeArithmetic.NowIsFloor: takes rounding half up and truncation as the comments state them for each server; the session clock is any integer of nanoseconds.
- TimeArithmetic.WideningIsExact: takes DATEADD to round the interval to the type of its base, as the source's comment says.
- Clock.WorkingSetStays: for lookups that do not overlap; hits that re-mark entries during a sweep are bounded by its two turns in the source.
- The cache's coherence is about text and error; the labels of an entry depend on what the process learned before.
- Reading migration files, DRIVER comments, statement splitting, duplicate, zero or negative sequence numbers, and whether a polling runner ever gets its turn.
- Migration.CompletedInOrder: all runners share one list of files.
- isContention is any predicate on errors; classification by code or message is not modelled.
- CreateTestingDatabase, DSN parsing, time zones, credential redaction, Nullify and the binder helpers.
