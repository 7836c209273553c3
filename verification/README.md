# A verified model of the MySQL mock, its reference slots and its generation queue

This project models the stateful core of x-mock-mcp and proves what it promises over whole runs.

A scenario under test talks MySQL to a *left* plugin. Its statements are answered by the *right*
plugin `mysql-mock`, which keeps a small versioned, transactional row store. Reference tables may
have *slots* whose rows are not known yet: the first SELECT that meets such a slot becomes a
*continuation*, the daemon puts the need into the *generation queue*, an agent leases it and
resolves it with a candidate, the right plugin installs the candidate's rows and answers the SELECT.
*Export* turns confirmed captures of a run into a scenario that no longer needs generation.

There are two state machines, the row store and the generation queue, a third one for slots and
continuations on top of the store, and a join of all three. Each is written twice: as a value with
one function per locked section (`StoreSpec`, `QueueSpec`, `SlotSpec`, `DispatchSpec`), and as the
object the program holds (`Store.Store`, `Queue.GenerationQueue`, `Plugin.RightPlugin`), whose loops
are proved to do exactly what the functions say. Runs are arbitrary interleavings of locked
sections; the theorems about runs are proved about the functions, and hold for the objects by the
methods' contracts. What the step functions do is in turn characterised without naming them, step by
step and for every session, record, entry, continuation and request (`Transactions`, `StepMeaning`,
`SelectMeaning`, `QueueOwners`, `QueueLaws`, `SlotLaws`, `Outcomes`). Around them stand the transformations the system relies on: the SQL compiler,
the matching of queries against declared statements, the MyBatis placeholder rewriting, and the
encoding of result rows.

| files | content |
|---|---|
| `Values`, `Schema`, `Plans`, `Api`, `Sorting` | typed values, tables and declarative constraints, compiled plans, what is exchanged |
| `Constraints` | the one-pass constraint checker against the declarative statement |
| `StoreSpec`, `StoreInvariant`, `StoreRuns`, `Transactions`, `Soundness`, `SessionViews` | the row store, its invariant, runs: READ COMMITTED, first committer wins, atomicity, rollback without a trace, what every reachable database holds |
| `Conservation`, `AutoIncrement`, `RowMeaning` | increments over runs, generated ids, what UPDATE and INSERT make of a row |
| `Selection`, `Statements`, `Store`, `Loading`, `Spellings` | the algorithms of the store, its start, and a scenario whose texts are spelled in two ways |
| `SlotFill`, `SlotSpec`, `SlotInvariant`, `SlotRuns`, `SlotLaws`, `SlotAutoIncrement`, `Plugin` | reference slots and continuations, what each step does to each of them, generated ids beside fills |
| `QueueSpec`, `QueueInvariant`, `QueueFrames`, `QueueRuns`, `QueueOwners`, `QueueLaws`, `Queue` | the generation queue: leases, owners, what each step does to each entry |
| `DispatchSpec`, `Confirmation`, `Outcomes`, `ExportSpec`, `ExportRuns`, `Export`, `StrandedCapture` | the join, end-to-end confirmation, what requests are answered with, when a run can be exported and what the export holds |
| `CompilerSpec`, `CompilerMeaning`, `CompilerAcceptance`, `StatementMeaning`, `StepMeaning`, `SelectMeaning`, `Compiler`, `Matching`, `MatchMeaning` | compilation and matching of SQL: what is accepted, and what accepted statements answer and do to what a session reads |
| `ResultRows`, `Mapper`, `MapperMeaning` | wire rows, MyBatis placeholders |

The code was followed where it differs from what a reader might expect: a NULL foreign key needs a
NULL referenced value; `String()` of a NULL value is the empty text without an error; a slot keeps
the rows of a candidate although the SELECT after the installation fails, and then stays stuck
(`SlotRuns.InstalledSlotRefusesFills`); a slot that lists a key twice can never be filled
(`SlotFill.BlockedSlot`); continuations are never removed, so the limit of 128 counts all of them
(`SlotRuns.PendingIsBounded`); adding to a NULL is an error and not NULL; a finished continuation
need not resolve its queue entry (`Confirmation.ReportResolvesIff`); two tests of the queue never decide
anything, because its invariant implies them: that a leased entry has the owner's epoch, since a
takeover returns all leases, and that a running lease has not outlived its request
(`QueueLaws.CheckMeans`, `QueueLaws.CommitMeans`); the checker of a scenario
compares texts as they are written and the store as they read, so a scenario that spells one unique
text in two ways loads into a store that breaks its own constraints or has lost a row
(`Spellings.SpellingsSlipThrough`), and a store is sound exactly when the rewritten scenario is
consistent too (`Loading.SoundIffNormal`); a confirmed capture cannot always be exported without the
others, because its rows may refer to rows that only the run has (`StrandedCapture.CaptureMayBeStranded`,
with the exact condition in `Export.ExportScenario`).

## Model

| member | source | states |
|---|---|---|
| Conservation.ConservationOfIncrements | plugins/right/mysql-mock/state.go:323-408 | After any interleaving of any number of sessions, a counter column of a row holds its initial number plus the amounts of exactly those successful matching UPDATEs that ran outside a transaction, with autocommit on and none begun, or in a transaction whose own COMMIT succeeded; rollbacks, conflicts, overflows and disconnects contribute nothing and no increment is lost. Only a statement that is committed and reaches this very row has to be `col = col + ?`: other rows may be updated and deleted at will, and whatever is refused or rolled back is free |
| Conservation.LedgerHolds | plugins/right/mysql-mock/transaction.go:15-36 | Under the same hypothesis, in every reachable state each session that could still commit holds the committed number plus its own pending amounts, which is why its COMMIT adds exactly those |
| Conservation.UpdateAdds | plugins/right/mysql-mock/state.go:335-361 | An UPDATE that matches a row adds exactly the sum of its amounts to the column, also when it ends up writing nothing; one that does not match adds nothing |
| Conservation.AssignAdds | plugins/right/mysql-mock/state.go:335-356 | Running the assignments one after the other moves the column by the sum of the amounts, through the int64 guard |
| Conservation.TotalIsKeptSum | plugins/right/mysql-mock/transaction.go:15-36 | The running total of what commits and autocommit writes add equals the sum over the statements that are committed at the end |
| StoreRuns.FirstCommitterWins | plugins/right/mysql-mock/transaction.go:15-27 | A COMMIT succeeds exactly when no step since the transaction's first write of each of its keys changed the committed record of that key, by update, insert, delete or delete and reinsert, and the session's view satisfies the constraints |
| StoreRuns.VersionIdentifiesRecord | plugins/right/mysql-mock/state.go:25-30 | Along every run the version of a record never goes back and two states with the same version have the same record, tombstones and never-existing rows included, so an old version cannot come back |
| StoreRuns.BaseIsFirstSeen | plugins/right/mysql-mock/state.go:396-402 | The base version of a written key is the version committed at the moment of the transaction's first write of it, however often it is written again |
| StoreRuns.ReadCommitted | plugins/right/mysql-mock/state.go:113-135 | After any run a session reads the initial rows under all published change sets in order, overlaid with its own writes since its transaction began, both defined from the history of events alone (READ COMMITTED, SQL-92 section 4.28) |
| StoreRuns.OnlyPublishingIsVisible | plugins/right/mysql-mock/state.go:113-135 | A step of somebody else changes what a session reads only if it publishes (successful commit, autocommit write or fill), and then by exactly that change set, underneath the session's own writes |
| StoreRuns.StatementChangesTheView | plugins/right/mysql-mock/state.go:392-408 | A successful statement changes its own session's view by exactly its change set; in a session that began a transaction or has autocommit off, as its flags were before the statement, it leaves the committed rows alone |
| StoreRuns.CommitPublishesTheView | plugins/right/mysql-mock/transaction.go:23-36 | A successful commit turns the committed rows into exactly the view the session had; a failed one leaves them alone; either way the session is left without writes, bases and transaction |
| StoreRuns.StepPublishes | plugins/right/mysql-mock/state.go:403-408 | No operation changes committed rows except by installing one change set as a whole under one new version |
| StoreRuns.FailedStatementChangesNothing | plugins/right/mysql-mock/state.go:185-416 | A statement that fails at any point, on a later row, in the constraints or by cancellation, leaves rows, version and every session's writes and bases unchanged; only the id allocator, session creation and the active flag may move |
| StoreRuns.ExecuteShape | plugins/right/mysql-mock/state.go:185-416 | Every statement either lands its whole change set, in the overlay or in the committed rows, or nothing of it |
| StoreRuns.CommittedAlwaysConsistent | plugins/right/mysql-mock/state.go:376-408 | In every reachable state the committed rows satisfy all column, primary-key, unique, foreign-key and size constraints, and each row lies under its own primary key |
| StoreRuns.ReadOnlyCommitSucceeds | plugins/right/mysql-mock/transaction.go:15-36 | A transaction without writes always commits, whatever the others did |
| Transactions.SettingsAreHistory | plugins/right/mysql-mock/transaction.go:51-85 | Over every run the flags of a session, in a transaction or not, autocommit, read-only, found rows and last id, are what its own events and their verdicts make of them, whatever the others do |
| Transactions.ControlVerdicts | plugins/right/mysql-mock/transaction.go:51-61 | BEGIN is refused exactly inside a transaction, opened by BEGIN or by a statement with autocommit off; rollback, close and the settings never fail |
| Transactions.TransactionKeepsToItself | plugins/right/mysql-mock/state.go:392-408 | A successful statement of a session that began a transaction or switched autocommit off, by its own history, leaves the committed rows alone, the session in its transaction and its change set among the session's writes; any other one is committed at once |
| Transactions.RollbackLeavesNoTrace | plugins/right/mysql-mock/transaction.go:60-61 | From the beginning of a transaction to its rollback or disconnect, and after it, the committed rows are those of the beginning under what others published, and the session then reads just those |
| Soundness.CommittedIsSound | plugins/right/mysql-mock/state.go:376-408 | In every reachable state each committed row has exactly its table's columns with values of their types and lengths, lies under its own primary key, differs from every other in some column of each unique key unless one is NULL there, and finds a row for each of its foreign keys; no table has more than 1000 rows |
| Soundness.ConsistentIffSound | plugins/right/mysql-mock/prepare.go:305-371 | The constraints that are checked are exactly these |
| StoreInvariant.StepKeepsInv | plugins/right/mysql-mock/state.go:185-416 | Every operation of every session keeps the store's invariant: consistent and correctly keyed committed rows, overlays and bases on the same keys, no overlay outside a transaction, record versions at most the store's, bases at most the record's version |
| SessionViews.OwnViewMayBreak | plugins/right/mysql-mock/transaction.go:23-27 | A run from the empty store, statement by statement, in which two transactions have consistent views and after one commits the other's own view violates a unique key; its COMMIT is refused although nobody touched a key it wrote, which is what the second validation is for |
| AutoIncrement.AutoSafeAt | plugins/right/mysql-mock/state.go:288-311 | Over a run of the store without fills of the table, every key of a generating table that was ever committed or buffered, tombstones included, is below the next id; that no fill comes is SlotAutoIncrement's part |
| AutoIncrement.GeneratedInsertNeverDuplicates | plugins/right/mysql-mock/state.go:288-322 | In every state of such a run the key the allocator gives next is held by nobody, committed or buffered in any session, so an INSERT that leaves the key to it is never refused as a duplicate |
| SlotAutoIncrement.AutoSafeOverRuns | plugins/right/mysql-mock/prepare.go:223-229 | Slots belong to tables that no statement writes, so over whole runs of the plugin, fills, answers and disconnects included, the keys of a generating table without slots stay below its next id |
| SlotAutoIncrement.InsertNeverDuplicates | plugins/right/mysql-mock/state.go:288-322 | In every reachable state of the plugin, fills included, an INSERT that leaves the key of a table without slots to the allocator is never refused as a duplicate |
| AutoIncrement.GeneratedKeyIsFree | plugins/right/mysql-mock/state.go:288-322 | Such an INSERT gets exactly the next id and one new record, or is refused only because an operand is missing or the ids are exhausted |
| AutoIncrement.GeneratedIdsIncrease | plugins/right/mysql-mock/state.go:288-311 | Generated ids strictly increase over the run, across sessions, rollbacks, refusals and explicit ids |
| AutoIncrement.FillAutoGenerates | plugins/right/mysql-mock/state.go:289-298 | Without an explicit key the one AUTO_INCREMENT column gets exactly the next id, and only the last int64 is refused |
| AutoIncrement.FillAutoRange | plugins/right/mysql-mock/state.go:289-311 | The allocator never moves back, stays within int64, and an id it hands out lies between its old and its new position |
| Constraints.ValidateInitial | plugins/right/mysql-mock/prepare.go:305-371 | The checker accepts exactly the databases that satisfy the declarative constraints, and reports a missing reference exactly when every table is consistent on its own |
| Constraints.CheckTable | plugins/right/mysql-mock/prepare.go:311-350 | One pass with a set of seen keys accepts exactly the tables of at most 1000 fitting rows that are pairwise distinct on the primary key and on every unique key without NULLs |
| Constraints.SharedEntry | plugins/right/mysql-mock/prepare.go:334-349 | Two rows put a common entry, key index and values, into the seen set exactly when they clash under some key, and a NULL exempts only from unique keys |
| Constraints.SeenTextsDiffer | plugins/right/mysql-mock/prepare.go:344 | The decimal index can be told from the list that follows it: two such texts are equal exactly when index and list are |
| Constraints.TextsDecideEntries | plugins/right/mysql-mock/prepare.go:344-348 | Looking up the index-prefixed text of an entry among the texts seen gives the same answer as looking up the entry among the entries, for any JSON encoding that writes a list in brackets and tells the lists at hand apart |
| Constraints.EnterKeys | plugins/right/mysql-mock/prepare.go:334-349 | A row is reported exactly when one of its entries was there before, and otherwise all its entries are in the set afterwards |
| Constraints.CheckReferences | plugins/right/mysql-mock/prepare.go:352-369 | Accepts exactly when every row has, for every foreign key, a row with equal referenced values |
| Constraints.FindReference | plugins/right/mysql-mock/prepare.go:355-363 | The scan with its equal and found flags finds a referenced row exactly when there is one; NULLs compare like values |
| Constraints.AsInitial | plugins/right/mysql-mock/state.go:136-149 | The listing holds exactly the rows of the view, table by table in strictly increasing key order, and no empty table |
| Constraints.ListingIsFaithful | plugins/right/mysql-mock/state.go:136-149 | Checking the listing of a view decides the constraints of the view itself, in both directions |
| Constraints.CheckView | plugins/right/mysql-mock/state.go:383-388 | Together: a view passes exactly when it is consistent |
| Plans.CloneOfFittingRow | plugins/right/mysql-mock/state.go:83-98 | Copying a well-typed row whose texts are written as the program writes them never changes it; every stored row is of this kind |
| Plans.AddInt64 | plugins/right/mysql-mock/state.go:349-352 | The overflow guard refuses exactly the sums outside int64 |
| RowMeaning.AssignIsSimultaneous | plugins/right/mysql-mock/state.go:335-356 | The assignment loop has the effect of all assignments evaluated at once in the old row: it fails exactly when one of them has no value there, touches no other column, and notices a difference exactly when an assigned column differs |
| RowMeaning.UpdateSetsAtOnce | plugins/right/mysql-mock/state.go:324-361 | What an UPDATE does to one row, in terms of the row as it was: fail, skip, leave as is, or put the row with all assignments made at once |
| RowMeaning.InsertedRowMeans | plugins/right/mysql-mock/state.go:273-322 | An INSERT writes one row in which every column that is not generated has the statement's value, else the declared default, else NULL where allowed, else no cell |
| StepMeaning.DeleteMeans | plugins/right/mysql-mock/state.go:362-408 | A DELETE takes exactly the rows in which its condition is true from its session's view and answers how many; every other record stays. It succeeds exactly when it is not cancelled or refused for its parameters or a read-only session, and what is left satisfies the constraints |
| StepMeaning.UpdateInView | plugins/right/mysql-mock/state.go:323-415 | An UPDATE sets every row in which its condition is true at once, counts those that change, or all of them where the client asked for found rows, and leaves the rest of the view alone. It succeeds exactly when it is not turned away, every SET clause has a value in every such row, and the result satisfies the constraints |
| StepMeaning.InsertInView | plugins/right/mysql-mock/state.go:273-415 | An INSERT adds the one row made of its values, the defaults and the allocated id, under that row's key; it succeeds exactly when it is not turned away, the allocator accepts, nobody in view holds the key, and the result satisfies the constraints; the allocator moves even when it does not |
| AutoIncrement.AllocatorMeans | plugins/right/mysql-mock/state.go:288-312 | The allocator's loop over the columns: a missing or NULL key gets the next id, a given one moves the allocator behind it, the last int64 is refused |
| Values.DecimalRoundTrip | contracts/mysqlv1/validate.go:23-29 | Parsing a formatted number gives it back on the whole int64 range |
| Values.IntIsExact | contracts/mysqlv1/validate.go:12-14 | A BIGINT value built from a number reads as that number and is canonical |
| Values.FitsMeans | contracts/mysqlv1/validate.go:35-60 | A value fits a column exactly when it has its type, is NULL only where that is allowed, and otherwise has a text, which in a BIGINT column is the decimal text of an int64 |
| Values.CompareTextOrder | plugins/right/mysql-mock/state.go:438-440 | Text comparison is a total order |
| Selection.CompareRowsOrder | plugins/right/mysql-mock/state.go:229-245 | The comparator is a strict weak order on the rows of one table, for any mix of ascending and descending columns and NULLs |
| Selection.FirstDifferenceDecides | plugins/right/mysql-mock/state.go:234-243 | The comparator is lexicographic: a row precedes another exactly when it comes first, as the column's direction says, in the first order column that tells them apart; which of two values is the smaller is SelectMeaning.ValueOrder |
| Selection.OrderingsAgree | plugins/right/mysql-mock/state.go:229-245 | Any two correctly sorted lists of the same records agree on the order columns at every position |
| Selection.SelectIsDetermined | plugins/right/mysql-mock/state.go:217-261 | Whatever the map iteration order, two results of one SELECT have the same length and agree on the order columns; without ORDER BY they are equal |
| Selection.Select | plugins/right/mysql-mock/state.go:217-261 | The rows are exactly the matching rows of the view, each once, sorted, cut to the limit and projected; the SELECT fails only on an operand without a value or on rows that do not fit the result columns or the size limit of a result. What sorted means for values, and what is projected, is SelectMeaning.SelectMeans |
| Selection.SortIds | plugins/right/mysql-mock/state.go:229-245 | Sorting keeps exactly the given records and orders them |
| SelectMeaning.ValueOrder | plugins/right/mysql-mock/state.go:418-442 | Comparing values: a NULL comes before everything else, numbers by size, texts by a proper prefix or the first character that differs; only values that read alike tie |
| SelectMeaning.RowOrder | plugins/right/mysql-mock/state.go:229-245 | A row goes before another exactly when the first order column in which they read differently has the smaller value in it, or the larger one where it says descending |
| SelectMeaning.SelectMeans | plugins/right/mysql-mock/compile.go:78-137 | An accepted SELECT answers with the rows in which its condition is true, each once, none before one it belongs behind by ORDER BY or by the primary key, cut to the LIMIT without cutting a row that belongs before one it keeps; every cell is the value of its field, under its alias or name, with the column's type |
| SelectMeaning.NumbersInOrder | plugins/right/mysql-mock/state.go:229-245 | For a BIGINT order column the numbers of the answer never fall, NULLs first, and never rise when descending |
| SelectMeaning.SelectSucceedsIff | contracts/mysqlv1/validate.go:61-83 | The cells of such an answer always fit its columns, so it is refused exactly for more than 1000 rows or 1 MiB |
| Statements.InsertChanges | plugins/right/mysql-mock/state.go:273-322 | The INSERT loops compute the specified row, id and refusal |
| Statements.Generate | plugins/right/mysql-mock/state.go:288-312 | The allocator loop follows its specification through every early return |
| Statements.UpdateRow | plugins/right/mysql-mock/state.go:325-361 | The assignment loop on one row has the specified effect |
| Statements.CollectUpdates | plugins/right/mysql-mock/state.go:323-361 | In whatever order the rows come: it fails exactly when some row's effect is bad, and otherwise gathers exactly the changed rows and counts exactly the matching ones |
| Statements.CollectDeletes | plugins/right/mysql-mock/state.go:362-372 | Fails exactly when matching fails on some row, and otherwise deletes exactly the matching rows |
| Statements.Apply | plugins/right/mysql-mock/state.go:376-382 | Replaying a change set over the view gives the overlaid view |
| Store.Store.Conn | plugins/right/mysql-mock/state.go:99-106 | Creates the session on first use and nothing else |
| Store.Store.ReadView | plugins/right/mysql-mock/state.go:113-135 | Copying live rows and replaying the overlay gives the latest committed rows under the session's own writes |
| Store.Store.Enter | plugins/right/mysql-mock/state.go:201-216 | Starts the statement in its session, with a transaction where autocommit is off, and works on that session's view, whose rows are all well keyed |
| Store.Store.Execute | plugins/right/mysql-mock/state.go:185-416 | The whole locked statement takes the store to the specified state with the specified verdict and keeps the invariant; a SELECT answers with rows it may return or fails for a stated reason |
| Store.Store.WriteRows | plugins/right/mysql-mock/state.go:265-415 | The writing branch, from change set to installation, is the specified step, the allocator's move on refusals included; what that does to the view is StepMeaning |
| Store.Store.BufferWrites | plugins/right/mysql-mock/state.go:392-402 | Buffers every change and gives a base version only to keys that had none |
| Store.Store.PublishWrites | plugins/right/mysql-mock/state.go:403-408 | Installs exactly the changes, all under one new version |
| Store.Store.CommitSession | plugins/right/mysql-mock/transaction.go:15-36 | The loop over the bases, the second validation and the installation make up the specified commit |
| Store.Store.Commit | plugins/right/mysql-mock/transaction.go:56-59 | COMMIT, session creation included |
| Store.Store.Begin | plugins/right/mysql-mock/transaction.go:51-55 | BEGIN is refused inside a transaction |
| Store.Store.Rollback | plugins/right/mysql-mock/transaction.go:60-61 | Drops exactly the session's pending writes |
| Store.Store.SetAutocommit | plugins/right/mysql-mock/transaction.go:66-79 | Switching autocommit on commits pending work first and stays off when that fails |
| Store.Store.Close | plugins/right/mysql-mock/transaction.go:85 | Removes the session with its uncommitted writes |
| Store.Store.Fill | plugins/right/mysql-mock/plugin.go:403-438 | Installs the rows of a candidate as a whole or leaves the store alone |
| Loading.NewStore | plugins/right/mysql-mock/state.go:49-82 | A store is made exactly for a scenario that passes the checker with usable ids; it holds the rewritten rows in version 0 and its allocators are safe, and it satisfies every invariant and lists every row of the scenario exactly when the rewritten scenario is consistent, too |
| Loading.SoundIffNormal | plugins/right/mysql-mock/state.go:49-82 | What is loaded from a scenario that passed the checker is a sound store with all its rows if and only if the scenario with every text rewritten passes, too |
| Spellings.SpellingsSlipThrough | plugins/right/mysql-mock/prepare.go:344-348 | A scenario with one unique name spelled in two ways passes the checker, and whatever is loaded from it violates the store's invariant or has lost a row |
| Loading.LoadTable | plugins/right/mysql-mock/state.go:54-80 | A table loads exactly when no stored id is the last int64 and a seed, if given, is a number above every stored id |
| Loading.LoadRows | plugins/right/mysql-mock/state.go:56-71 | Without a seed the allocator starts at the smallest positive id above every stored one |
| Loading.PassRow | plugins/right/mysql-mock/state.go:60-70 | Moves the allocator past the ids of one row, and no further than needed |
| Loading.LoadedIsValid | plugins/right/mysql-mock/state.go:49-82 | The loaded rows of a consistent scenario in the program's own spelling satisfy the store's invariant |
| Loading.LoadedIsAutoSafe | plugins/right/mysql-mock/state.go:54-79 | Every loaded key of a generating table is below its next id |
| SlotFill.FillRowsIff | plugins/right/mysql-mock/plugin.go:410-428 | The loop takes the rows exactly when each has a readable key of the slot that nobody holds, fixed cells agree, and no two rows share a key |
| SlotFill.FillIsComplete | plugins/right/mysql-mock/plugin.go:396-438 | A slot is filled only when none of its keys is live, and then all of them are, with exactly the candidate's rows; nothing else changes, in the rows or in any session |
| SlotFill.BlockedSlot | plugins/right/mysql-mock/plugin.go:396-428 | A slot with a live key or a repeated key cannot be filled by any candidate |
| SlotFill.SparedRows | plugins/right/mysql-mock/prepare.go:223-229 | Steps of sessions never change the rows of a table that no statement writes |
| SlotInvariant.StepKeepsPlugin | plugins/right/mysql-mock/plugin.go:308-440 | Every locked section of the plugin keeps: an open continuation is its slot's current one, a successful one recorded its candidate and answer and the slot holds the candidate's rows, nobody has writes in a slot's table; finished continuations never change and slot rows stay |
| SlotRuns.OneOpenPerSlot | plugins/right/mysql-mock/plugin.go:308-361 | In every reachable state a slot has at most one unfinished continuation |
| SlotRuns.ContinuationsSettle | plugins/right/mysql-mock/plugin.go:382 | A continuation's done channel is closed at most once over a whole run, and from then on nothing about it changes |
| SlotRuns.PendingIsBounded | plugins/right/mysql-mock/plugin.go:350-357 | Continuations are never forgotten and there are never more than 128 |
| SlotRuns.LateFillChangesNothing | plugins/right/mysql-mock/plugin.go:383-402 | A fill after the connection's close, its deadline or Stop changes no row and is answered with an error, unless it repeats an earlier success |
| SlotRuns.RetryReturnsTheResult | plugins/right/mysql-mock/plugin.go:374-381 | Repeating a successful Complete gives the same answer at any later time, whatever happened since, and changes nothing |
| SlotRuns.SuccessIsRecorded | plugins/right/mysql-mock/plugin.go:382 | A successful Complete recorded exactly its candidate and answer, for good |
| SlotRuns.KeysAreInstalledOnce | plugins/right/mysql-mock/plugin.go:403-438 | Over a run no key of a table is installed twice, by the same or by different slots |
| SlotRuns.InstalledSlotRefusesFills | plugins/right/mysql-mock/plugin.go:417-440 | Once rows were installed for a slot, every later fill of an open continuation for it is refused and changes nothing |
| SlotRuns.CancelledAfterInstall | plugins/right/mysql-mock/plugin.go:433-439 | A request cancelled between installation and SELECT keeps the rows and fails, so an error there does not mean that nothing was installed |
| SlotRuns.PassedSlotIsFilled | plugins/right/mysql-mock/plugin.go:316-321 | A SELECT gets past a slot at once only when all its reference rows are there, then and ever after |
| SlotRuns.AwaitedSlotIsFilled | plugins/right/mysql-mock/plugin.go:333-344 | Once the continuation that a SELECT waits for has ended without an error, which is when the SELECT goes on, all the slot's reference rows are there, then and ever after |
| SlotRuns.AnswerIsTheSelection | plugins/right/mysql-mock/plugin.go:439 | A successful Complete answers with rows its SELECT may return from the session's view in the store as it is at the SELECT, after the fill and whatever other sessions did since; the candidate's rows are still there |
| SlotRuns.RowsStayMeanwhile | plugins/right/mysql-mock/plugin.go:433-439 | Between installation and SELECT the store's lock is free: after any writes, commits and closes of other sessions the store still satisfies the constraints and the slot still holds the candidate's rows |
| SlotRuns.AnswerShowsTheCandidate | plugins/right/mysql-mock/plugin.go:433-439 | Without a limit, every row of the candidate that matches the SELECT is among the rows of the answer, whatever other sessions did between installation and SELECT |
| SlotRuns.StartIsOk | plugins/right/mysql-mock/plugin.go:91-108 | A started plugin satisfies the invariant |
| SlotLaws.DisconnectMeans | plugins/right/mysql-mock/plugin.go:189-204 | Closing a connection ends exactly its own open continuations, with CANCELLED, leaves every other continuation as it was, marks the connection closed and drops its session |
| SlotLaws.StopMeans | plugins/right/mysql-mock/plugin.go:110-123 | Stop ends every open continuation with CANCELLED and changes nothing else but the running flag |
| SlotLaws.VisitMeans | plugins/right/mysql-mock/plugin.go:308-361 | A SELECT passes a slot whose continuation succeeded and waits for an open one; where there is none, or it failed or is overdue, the SELECT becomes the slot's continuation itself, unless the scenario does not generate or 128 continuations were opened already; nothing else changes |
| SlotLaws.FillMeans | plugins/right/mysql-mock/plugin.go:396-438 | Rows are installed exactly when they are the slot's own, none of their keys is live and the result satisfies the constraints, and then the database is the old one with these rows, each under its own key |
| SlotLaws.CompleteSucceedsIff | plugins/right/mysql-mock/plugin.go:383-440 | A Complete for an open continuation succeeds exactly when connection, deadline and plugin still stand, the payload is a fill of this slot that can be installed, and the SELECT after it answers |
| SlotLaws.CompleteRecords | plugins/right/mysql-mock/plugin.go:365-440 | It ends just that continuation, recording the answer given or the first of these reasons that failed; refused before the installation it leaves the rows alone |
| Plugin.RightPlugin.constructor | plugins/right/mysql-mock/plugin.go:95-108 | Starts with nothing pending and nothing closed |
| Plugin.RightPlugin.Visit | plugins/right/mysql-mock/plugin.go:308-361 | One round of the slot loop is the specified step and keeps the invariant |
| Plugin.RightPlugin.RecycleSlot | plugins/right/mysql-mock/plugin.go:315-332 | A failed or overdue continuation frees its slot, and the overdue one is finished with an error |
| Plugin.RightPlugin.Admit | plugins/right/mysql-mock/plugin.go:333-360 | Joins the slot's continuation, refuses, or opens a new one under a fresh token |
| Plugin.RightPlugin.Disconnect | plugins/right/mysql-mock/plugin.go:189-204 | Cancels exactly the open continuations of the connection, marks it closed and drops its session |
| Plugin.RightPlugin.Stop | plugins/right/mysql-mock/plugin.go:110-123 | Cancels exactly the open continuations |
| Plugin.RightPlugin.Complete | plugins/right/mysql-mock/plugin.go:365-440 | Complete, with its two sections under the store's lock and any writes of other sessions between them, is the specified step with the specified answer, repeats and mismatches included; the answer is one its SELECT may give in the store it meets |
| Plugin.RightPlugin.Install | plugins/right/mysql-mock/plugin.go:383-438 | The checks in front of the installation, in their order, and the installation |
| Queue.GenerationQueue.Finish | internal/generation/queue.go:93-105 | The first terminal state stays |
| Queue.GenerationQueue.Enqueue | internal/generation/queue.go:106-132 | Past deadlines, known ids and full queues are refused without effect; otherwise one pending entry is added |
| Queue.GenerationQueue.Count | internal/generation/queue.go:115-126 | The three counters are the numbers of active entries, of active ones of the run, and of all of the run |
| Queue.GenerationQueue.Claim | internal/generation/queue.go:158-189 | Take over, become or stay owner as specified, a refusal changes nothing; QueueOwners.BatchOnlyForTheOwner says who may |
| Queue.GenerationQueue.ReleaseLeases | internal/generation/queue.go:172-177 | A takeover returns exactly the run's leased entries |
| Queue.GenerationQueue.Offer | internal/generation/queue.go:205-228 | One entry is expired, returned, leased or left as specified |
| Queue.GenerationQueue.Scan | internal/generation/queue.go:205-229 | The scan over the sorted ids has the specified effect and batch |
| Queue.GenerationQueue.Pass | internal/generation/queue.go:190-229 | A pass is refused once the run has another owner |
| Queue.GenerationQueue.Next | internal/generation/queue.go:153-233 | The first locked section of Next is the specified step and keeps the invariant; who gets a batch is QueueOwners.BatchesGoToOwners, what becomes of each entry QueueLaws.StepOnEntry |
| Queue.GenerationQueue.ResolveCheck | internal/generation/queue.go:257-284 | The first locked section of Resolve decides as specified and changes nothing |
| Queue.GenerationQueue.ResolveCommit | internal/generation/queue.go:288-299 | The second locked section re-checks lease and owner and accepts exactly once |
| Queue.GenerationQueue.ReportOutcome | internal/generation/queue.go:312-324 | An error fails the entry, a success resolves only a resolving one |
| Queue.GenerationQueue.CancelRequest | internal/generation/queue.go:325-335 | Finishes the named entry, as expired or cancelled |
| Queue.GenerationQueue.CancelRun | internal/generation/queue.go:336-344 | Finishes exactly the run's unfinished entries |
| Queue.GenerationQueue.Drop | internal/generation/queue.go:367-374 | Forgets exactly the run's entries and owner |
| Queue.GenerationQueue.Capture | internal/generation/queue.go:356-364 | Releases a capture exactly for a resolved entry of the run |
| QueueInvariant.StepKeepsQueue | internal/generation/queue.go:93-375 | Every locked section keeps the queue's invariant, entries only evolve, handles stay and tokens only get minted |
| QueueFrames.StepKeepsSystem | internal/generation/queue.go:257-301 | The tickets of Resolve calls that are between their two locked sections stay meaningful under every other step |
| QueueFrames.StepFrames | internal/generation/queue.go:153-247 | How one step may move owners, listings and leases: epochs grow by new tokens, no takeover while resolving, a kept lease keeps its owner |
| QueueRuns.AcceptedOnlyFromTheHolder | internal/generation/queue.go:257-301 | A candidate is accepted only from the holder of the one lease that an earlier step handed to the run's current owner; from then to the acceptance, across the unlocked schema check, the entry stayed leased to it, the owner stayed, and the lease has not expired |
| QueueRuns.GrantIsUnique | internal/generation/queue.go:219-228 | No lease token is ever handed out twice, in one batch or in different ones |
| QueueRuns.LeaseWasGranted | internal/generation/queue.go:219-228 | Every lease in an entry was handed out by an earlier step under the entry's epoch and expiry |
| QueueRuns.GrantedLeaseRuns | internal/generation/queue.go:210-228 | A lease handed out is usable at once and runs out after fifteen seconds or with the request, whichever is first |
| QueueRuns.EpochsGrow | internal/generation/queue.go:158-189 | While a run is known its owner epoch never falls, and equal epochs mean the same owner |
| QueueRuns.NoTakeoverWhileResolving | internal/generation/queue.go:165-170 | While an entry of a run is resolving the run keeps its owner |
| QueueRuns.TakeoverEndsOldTokens | internal/generation/queue.go:257-284 | After a change of owner no Resolve with an owner or lease token from before passes the first section, repeats of an accepted candidate included |
| QueueRuns.TakeoverEndsOldTickets | internal/generation/queue.go:285-293 | Nor is one accepted that was past the first section when the owner changed |
| QueueRuns.KnownTokensAreOld | internal/generation/queue.go:171-188 | Every token handed out before is old in that sense |
| QueueRuns.ResolveIsIdempotent | internal/generation/queue.go:270-277 | Repeating an accepted Resolve joins its outcome for as long as the owner is unchanged; another candidate under the same tokens is refused |
| QueueRuns.DeliveredAtMostOnce | internal/generation/queue.go:93-105 | Over its life an entry is sent at most one candidate, the accepted one, and its done channel is closed exactly once, when it becomes terminal |
| QueueRuns.SendNeverBlocks | internal/generation/queue.go:294-299 | The send under the lock finds the capacity-one channel unused |
| QueueRuns.EntriesEvolve | internal/generation/queue.go:93-105 | Terminal states absorb, resolving leads only to terminal, an accepted hash and candidate never change, over any number of steps |
| QueueRuns.CapacityHolds | internal/generation/queue.go:115-131 | In every reachable state at most 512 entries are active, at most 128 of one run, and at most 4096 of one run are kept |
| QueueRuns.PassTakesTheFirst | internal/generation/queue.go:198-229 | A batch is exactly the first free entries in request-id order, as many as the limit allows |
| QueueOwners.BatchOnlyForTheOwner | internal/generation/queue.go:153-189 | A call of Next gets a batch exactly when its arguments are in range and it may claim the run: with the token of the current owner, for an unowned run without a token, or as a takeover of a known run at the current epoch with no entry resolving, which yields the next epoch and a new token. The batch names that owner; every other call changes nothing and is told which of the three refusals it met |
| QueueOwners.BatchesGoToOwners | internal/generation/queue.go:153-189 | The same for every call in a run: a stranger gets neither the owner's token nor a lease |
| QueueOwners.PassesGoToOwners | internal/generation/queue.go:190-197 | A later pass of a waiting call goes to the owner it was told, while it still is |
| QueueOwners.OwnerWasTold | internal/generation/queue.go:171-189 | Whoever owns a run got the token in the batch of an earlier call for that run, which minted it |
| QueueOwners.TokensComeFromBatches | internal/generation/queue.go:186-189 | So a batch of an owned run that is not a takeover goes to a caller that shows a token from an earlier batch of that run |
| QueueLaws.StepOnEntry | internal/generation/queue.go:93-375 | What any locked section makes of any entry: it ends only by a report, a cancellation of its id or run, or a pass over its run after its deadline; it loses its lease only by a takeover or a pass after expiry, is leased only by being handed out, becomes resolving only by the acceptance of its candidate, and otherwise stays exactly as it was |
| QueueLaws.EnqueueMeans | internal/generation/queue.go:106-132 | An Enqueue succeeds exactly when run, id, continuation and a future deadline are given, the id is new, and the three limits leave room; it adds one pending entry with its need, and otherwise changes nothing |
| QueueLaws.ListingMeans | internal/generation/queue.go:365-375 | Only an accepted Enqueue lists an id; only dropping its run unlists it, and forgets exactly that run |
| QueueLaws.CheckMeans | internal/generation/queue.go:257-284 | The first section of Resolve, exactly: strangers and texts that are no JSON are refused, a repeat of the accepted candidate under the accepted lease joins its outcome, and a first candidate passes exactly under the entry's own unexpired lease |
| QueueLaws.CommitMeans | internal/generation/queue.go:285-299 | The second section accepts exactly when the entry is still leased under that lease, the lease has not run out and the run has not changed hands; a refusal changes nothing |
| QueueLaws.CaptureTells | internal/generation/queue.go:356-364 | A capture is released exactly for a resolved entry of the run, and tells the context of the Enqueue that brought the request, the candidate of the Resolve accepted after that, and the response of the report after that |
| Confirmation.ResolvedIsConfirmed | internal/app/service.go:227-244 | A queue entry is resolved only after the right plugin finished that request's continuation without error for exactly the delivered candidate and answered with exactly the recorded response |
| Confirmation.CaptureStaysConfirmed | internal/generation/queue.go:356-364 | A capture released at any time passes the confirmed test of export then and ever after, for the dispatched request |
| Confirmation.ReportResolvesIff | internal/generation/queue.go:312-324 | The converse, exactly: a confirmed answer resolves its entry if and only if the entry is still listed and resolving at that moment |
| Confirmation.CompleteConfirms | plugins/right/mysql-mock/plugin.go:374-382 | A successful Complete leaves a continuation that confirms its candidate and answer, whether it filled the slot or repeated a success |
| Confirmation.StepKeepsWorld | internal/binding/manager.go:296-360 | Every step of a dispatched request, of the queue's other callers and of the plugin keeps the join's invariant, lost answers and cancellations included |
| Outcomes.EntriesTell | internal/app/service.go:227-244 | Over every run a failed entry records exactly the error its request ended with, and the entry of a reported request is over as long as it is listed |
| Outcomes.StagesAdvance | internal/binding/manager.go:296-360 | A request goes through its stages in order, skipping some, and its outcome is fixed by the step that first gives it one |
| Outcomes.EndsIff | internal/binding/manager.go:330-360 | A request gets its outcome exactly by the answer of its execution, by being turned away by the plugin or the queue, by its entry's error, by its context ending, or by the answer to its candidate |
| Export.IsConfirmed | plugins/right/mysql-mock/export.go:30-41 | The scan finds a confirming continuation exactly when there is one |
| Export.ExportScenario | plugins/right/mysql-mock/export.go:13-102 | A successful export has only confirmed captures; its scenario satisfies every constraint, its rows are the old ones followed by rows the captures offer, all of them, each a committed row of the run, and exactly the named slots become materialised. On the run's own scenario it succeeds if and only if there are captures, all of them are confirmed, and every foreign key of an added row finds its row among the scenario's and the added ones |
| Export.AddRow | plugins/right/mysql-mock/export.go:74-86 | A row is added unless its key is there; it is refused exactly when a different row is under the key |
| Export.AddRows | plugins/right/mysql-mock/export.go:55-87 | Every row of the candidate is in the table afterwards, and only such rows were added; rows that suit the slot and that a view holds are never refused over rows which that view holds |
| Export.Materialize | plugins/right/mysql-mock/export.go:49-92 | One capture extends the table of the slot it names and marks that slot; a capture of what the store holds is never refused over a listing the store holds |
| Export.MaterializeAll | plugins/right/mysql-mock/export.go:26-93 | All captures together; over a listing the store holds they are taken exactly when all are confirmed |
| ExportSpec.ConfirmedIsLive | plugins/right/mysql-mock/export.go:30-44 | What a confirmed candidate offers for its slot is what the run's store holds there |
| ExportSpec.AppendedIsCommitted | plugins/right/mysql-mock/export.go:84-86 | Every row added from confirmed captures is one of the run's committed rows |
| ExportSpec.ExportConsistentIff | plugins/right/mysql-mock/export.go:94-96 | With confirmed captures added, the run's own scenario satisfies all constraints if and only if every foreign key of an added row finds its row: sizes, column types, primary and unique keys cannot fail |
| ExportRuns.RunsItsOwn | plugins/right/mysql-mock/export.go:69-83 | Over every run of the plugin, whatever sessions and requests do, the rows the scenario lists for tables with slots are what the store holds under their keys, so no listed row conflicts with a confirmed one |
| ExportRuns.ExportStaysPossible | plugins/right/mysql-mock/export.go:30-44 | Captures that a run can export at some time it can export ever after |
| StrandedCapture.CaptureMayBeStranded | plugins/right/mysql-mock/export.go:94-96 | A run in which two slots of one table are filled, the second row referring to the first: both captures are confirmed and can be exported together, but the second alone is refused, because its foreign key finds no row in the exported scenario |
| CompilerMeaning.WhereMeans | plugins/right/mysql-mock/compile.go:280-312 | On every condition the compiler accepts, nested parentheses and NULL operands included, the flat predicates hold of a row exactly when the condition is true in SQL's three-valued logic (SQL-92 sections 8.2 and 8.12), and evaluation never fails |
| CompilerMeaning.AcceptedConditions | plugins/right/mysql-mock/compile.go:280-312 | It accepts exactly the conjunctions, in any nesting, of equalities between a column and a fitting operand |
| CompilerMeaning.ColumnOfResolves | plugins/right/mysql-mock/compile.go:237-255 | An expression names a column exactly when it is that column of the statement's table, qualified, if at all, by this table and the scenario's own database |
| CompilerAcceptance.AcceptedStatements | plugins/right/mysql-mock/compile.go:33-236 | A statement gets a plan exactly when it is one of the four kinds over a declared table in a form that is listed clause by clause, every marker stands where an operand may, with a parameter that fits there, and there are as many markers as declared parameters, all of them named |
| CompilerAcceptance.TakesOperands | plugins/right/mysql-mock/compile.go:256-279 | An operand is taken for a column exactly when it is a marker whose parameter has the column's type, a NULL where that is allowed, an int64 for BIGINT, or a text for VARCHAR |
| CompilerMeaning.OperandMeans | plugins/right/mysql-mock/compile.go:256-279 | A compiled operand has in every row the value of its expression; only a NULL takes its type from the column |
| CompilerMeaning.StoredEquality | plugins/right/mysql-mock/state.go:162-172 | Stored values of one type are equal as texts exactly when they are equal in SQL |
| CompilerMeaning.CompiledPlanIsOk | plugins/right/mysql-mock/compile.go:33-236 | Every accepted statement binds each parameter to its own declaration, assigns no primary key and no column twice, and adds only a BIGINT column to itself |
| StatementMeaning.StatementTouchesTrueRows | plugins/right/mysql-mock/compile.go:33-236 | The predicates of an accepted SELECT, UPDATE or DELETE match exactly the rows in which its condition is true; what each kind then does with them is StepMeaning and SelectMeaning |
| StatementMeaning.UpdateMeans | plugins/right/mysql-mock/compile.go:166-213 | An accepted UPDATE in SQL's terms, row by row: it fails exactly when a SET clause has no value in a qualifying row, writes a qualifying row exactly when some clause's value differs from what the row holds, and a row it writes has every clause's value evaluated in the old row, the other columns untouched |
| StatementMeaning.InsertMeans | plugins/right/mysql-mock/compile.go:146-165 | An accepted INSERT in SQL's terms: one that succeeds writes exactly one row, and in every column that is not generated it holds the value of the column's expression, else the declared default, else NULL where allowed, else no cell |
| StatementMeaning.SetMeans | plugins/right/mysql-mock/compile.go:175-208 | A compiled SET clause gives its expression's value; a sum with a NULL, or out of int64, has none |
| StatementMeaning.CompiledPlansKeepKeys | plugins/right/mysql-mock/compile.go:184-203 | Compiled plans meet what the row store and the simultaneous reading of assignments ask of them |
| SelectMeaning.FieldsMean | plugins/right/mysql-mock/compile.go:90-103 | The i-th projected column is the one the i-th field names, shown under its alias or name with its type and nullability |
| SelectMeaning.OrderMeans | plugins/right/mysql-mock/compile.go:107-115 | The i-th order column is the one the i-th ORDER BY item names, with its direction |
| SelectMeaning.LimitMeans | plugins/right/mysql-mock/compile.go:116-137 | A LIMIT is accepted exactly as a number of at most 1000 with an offset that reads as zero, and is that number |
| CompilerMeaning.RankOrder | plugins/right/mysql-mock/compile.go:41-50 | Parameter indexes follow the text order of the markers and lie below their number |
| Compiler.PositionIsRank | plugins/right/mysql-mock/compile.go:43-50 | The position in the sorted list is the number of markers before it |
| Compiler.SortOffsets | plugins/right/mysql-mock/compile.go:43 | Sorting keeps exactly the markers and orders them |
| Compiler.Compilation.constructor | plugins/right/mysql-mock/compile.go:41-50 | Every marker is indexed by its rank, no parameter is bound yet |
| Compiler.Compilation.Operand | plugins/right/mysql-mock/compile.go:256-279 | Binds the marker's parameter in place, or takes a fitting literal, as specified |
| Compiler.Compilation.Predicates | plugins/right/mysql-mock/compile.go:280-312 | The recursive walk with its in-place binding follows the specification |
| Compiler.Compilation.Inserts | plugins/right/mysql-mock/compile.go:146-165 | Columns and values of an INSERT, refused on any repeated or unknown column |
| Compiler.Compilation.Set | plugins/right/mysql-mock/compile.go:175-208 | One SET clause with all its restrictions |
| Compiler.Compilation.Statement | plugins/right/mysql-mock/compile.go:78-228 | The four statement kinds as specified; the meaning of what is compiled is SelectMeaning.SelectMeans and StepMeaning |
| Compiler.Compile | plugins/right/mysql-mock/compile.go:33-236 | The whole compiler computes the specified plan or refusal; which statements get a plan is CompilerAcceptance.AcceptedStatements |
| Matching.MatchStatement | plugins/right/mysql-mock/match.go:10-100 | Finds the first declared statement of which the query is an instance, with the values that make it one, and finds none only if there is no such statement and values |
| Matching.MatchPlan | plugins/right/mysql-mock/match.go:30-97 | One declared plan against the query's own: values are returned exactly when some values make the query an instance |
| Matching.MatchOperand | plugins/right/mysql-mock/match.go:32-60 | The closure that writes values and flags in place unifies two operands up to the spelling of their texts, and refuses only when no values agreeing with those taken so far could |
| Matching.CheckValues | plugins/right/mysql-mock/match.go:80-94 | Accepts exactly when every value was assigned, is well typed and lies in its allowed domain |
| Matching.InstanceGivesSameValues | plugins/right/mysql-mock/match.go:61-75 | Under the returned values every predicate and assignment of the declared plan has the column of the query's own plan and the same value up to spelling |
| Matching.MatchWritesTheSame | plugins/right/mysql-mock/match.go:61-97 | So the matched statement has the same outcome on every table and view as the query itself, change set, counts and refusal |
| Matching.MatchSelectsTheSame | plugins/right/mysql-mock/match.go:61-97 | And selects the same records in the same order under the same columns |
| Matching.MatchedValuesFit | plugins/right/mysql-mock/match.go:80-94 | The returned values pass the store's parameter check |
| Matching.InstanceIsUnique | plugins/right/mysql-mock/match.go:54-60 | At most one list of values, up to spelling, makes a query an instance of a statement |
| MatchMeaning.MatchMeans | plugins/right/mysql-mock/match.go:30-97 | A query is run as a statement under these values exactly when they are values the statement may be run with, there are as many arguments as parameters if the query has markers, its markers stand in the places of the parameters of the same index, and with arguments and values written in the two are the same statement |
| MatchMeaning.PrepareMeans | plugins/right/mysql-mock/match.go:43-47 | While it is prepared a parameter stands for itself: the query matches exactly when with any values written in on both sides the two are the same statement |
| ResultRows.BinaryRowRoundTrip | plugins/left/mysql-wire/resultset.go:42-72 | Decoding a "Binary Protocol Resultset Row" of the MySQL Client/Server Protocol gives back the cells, for any number of columns, any NULLs and any 64-bit integers |
| ResultRows.TextRowRoundTrip | plugins/left/mysql-wire/resultset.go:42-72 | Decoding a "Text Resultset Row" gives back the cells |
| ResultRows.BitmapMarksNulls | plugins/left/mysql-wire/resultset.go:49-51 | Bit i + 2 of the bitmap is set exactly when column i is NULL; the reserved and unused bits stay clear |
| ResultRows.PrefixIsNotNull | plugins/left/mysql-wire/resultset.go:52-54 | The byte for NULL never starts a length prefix |
| ResultRows.LengthRoundTrip | plugins/left/mysql-wire/resultset.go:68 | Length prefixes of all four sizes decode to the length |
| ResultRows.Int64RoundTrip | plugins/left/mysql-wire/resultset.go:57-62 | Two's complement little-endian integers decode to the number |
| ResultRows.ByteAt | plugins/left/mysql-wire/resultset.go:57-62 | The k-th byte of a 64-bit integer on the wire is the k-th from below in its two's complement |
| ResultRows.EncodeBinaryRow | plugins/left/mysql-wire/resultset.go:43-71 | Setting bits in place while values are appended behind them yields the specified row |
| ResultRows.EncodeTextRow | plugins/left/mysql-wire/resultset.go:43-71 | The loop in text mode yields the specified row |
| ResultRows.EncodeResultset | plugins/left/mysql-wire/resultset.go:29-74 | Refuses exactly the sets of more than 1000 rows, with more than 1 MiB of JSON text, with a row that does not fit its columns (a NULL in a NOT NULL column included) or with a column type it cannot send; every row of every other set is encoded into bytes that decode to its cells in the mode asked for |
| MapperMeaning.MapperMeans | plugins/right/mysql-mock/source_mybatis.go:178-219 | The texts that are rewritten are exactly the templates, chunks with placeholders between them, without a substitution or an escaped placeholder, whose placeholders declare the parameters, as many, in their order; the result is the chunks joined by `?` |
| MapperMeaning.RewritingMeans | plugins/right/mysql-mock/source_mybatis.go:183-218 | The same for the rewriting alone |
| MapperMeaning.RewritingUndoesPrinting | plugins/right/mysql-mock/source_mybatis.go:183-218 | Rewriting a printed template succeeds exactly when its placeholders declare the parameters, each its own, and then yields the chunks joined by `?` |
| MapperMeaning.BodyMeans | plugins/right/mysql-mock/source_mybatis.go:196-210 | What stands between the braces is accepted exactly when it is the parameter's name, a property of identifiers joined by dots, followed by at most one `jdbcType=T` with the declared type, with spaces around any of the parts |
| MapperMeaning.OptionMeans | plugins/right/mysql-mock/source_mybatis.go:202-208 | An option is accepted exactly when it states the declared type |
| MapperMeaning.PropertyFromMeans | plugins/right/mysql-mock/source_mybatis.go:19 | The property pattern, recognised character by character: only letters, digits, `_`, `$` and dots, an identifier start in front and after every dot, no dot at the end |
| Mapper.RenderMapper | plugins/right/mysql-mock/source_mybatis.go:178-219 | The loop that consumes the text ends, since the rest gets shorter, and computes the specified rewriting |

## Left out

- Export.ExportScenario: for a listing that is not the run's own it says what a successful export holds and not when one succeeds; the source exports only the active scenario, by a comparison of snapshots that is not part of this model.
- Confirmation.ResolvedIsConfirmed: for requests that needed data through the queue; requests answered directly have no entry.
- Store.Store.Execute: evidence, phase and statement id of an answer, and error texts and numbers beyond conflict, constraint violation and other failures are not modelled; the length of a result's JSON text is a parameter.
- Plugin.RightPlugin.Install: the refusals for a held key, a wrong key and a violated constraint share one code.
- ResultRows.EncodeResultset: takes the bytes of a text and the length of the result's JSON text as given (UTF-8 is not modelled) and leaves out field names, flags and collations.
- Matching.MatchStatement: starts from syntax trees, the parser is not part of this model.
- Parsers of SQL, DDL, Java, XML and JSON: statements are syntax trees, tables satisfy what the DDL parser guarantees, and a raw JSON text carries what it decodes to.
- Digests, random ids and JSON in text form: a digest stands for its content, tokens are drawn from a counter and hence fresh, and the JSON encoding of a list of values is taken to be injective on lists that are written alike.
- Table names are free of NUL, so that `table NUL key` identifies a record; committed rows are one map from (table, key) instead of a map of maps.
- Object identity of sessions, continuations and queue entries: they are values in maps and sequences that methods reassign, an entry under a handle that is never reused, so that a caller that kept a pointer to a forgotten entry is still modelled.
- Version counters: unbounded; the wrap-around of the store version at 2^64 is not modelled.
- Clocks, timers, waiting and cancellation: any step may come with any clock reading, a timer is a step that may happen, a waiting call is its locked sections as separate steps.
- Schema validation of candidates: an oracle between the two locked sections of Resolve.
- Prepared statement handles, settings and system variables of a session, counters of executed rules, and fixture mode: table lookups without an effect on rows.
- Recognition of control statements in text: BEGIN, COMMIT, ROLLBACK and SET autocommit are operations.
- Starting a plugin again after Stop, and the snapshot comparison at Start.
- The binding manager's own tables, deadline clipping and process supervision, the trace, the run manager and all file, network and command-line code: plumbing around the modelled steps.
