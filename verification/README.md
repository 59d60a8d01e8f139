# Verified model of the relay's stateful core

This project models three stateful components of mmrelay and proves what they are for.

1. **Schema migration** (`initialize_database` in `db_utils.py`).  A database is four optional
   message-map tables; every SQL statement is one step, and a crash may follow any step.  `Cursor`
   runs the branches of the program, and `SchemaMigration` proves that crashes and re-runs lose
   nothing and that an uninterrupted run is a first-wins merge.
2. **Node-name sync and the message map** (`db_utils.py`).  The collectors are loops proved against
   folds (`SnapshotCollector`, `SingleFieldCollector`); when the two-field collector depends on order
   is the subject of `OrderDependence` and, for ids contradicted in both fields, of the modules whose
   names begin with `Conflict`; the two names tables with their chunked reads and deletes are
   `NameTable` and `NameStore`, proved against `NameSync` and `NameUpdates`; the upsert-then-prune
   window is `MessageWindow`.
3. **The message queue and the database manager** (`message_queue.py`, `db_runtime.py`).  Each is a
   machine of atomic steps (`QueueMachine`, `ManagerMachine`), with invariants over every reachable
   state (`QueueSafety`, `ManagerSafety`), what each step does and what becomes of each message and
   each job (`QueueLaws`, `ManagerLaws`), facts about whole runs (`QueueDrain`, `QueueMarks`), a
   ledger of the changes that writes make (`WriteLedger`), and a class whose methods do what the
   machine says (`MessageQueue`, `DatabaseManager`).

How the parts are abstracted:

- A message is its acceptance number.  Time is a real-valued clock; a sleep ends no earlier than its
  length.  The result of a connection check or of a send is chosen freely at each step, and so is
  the moment of every cancellation.  Queue size, chunk size and the mapping limit are parameters.
- A database id is its text rendering with a flag that says whether it is stored as TEXT.
- A failing transaction restores the rows it found.  Which transactions fail is a parameter.
- Threads of the manager have a stack of open operations, so nesting is explicit.

Where the code and its own comments disagree, the model follows the code:

- The comment at `db_utils.py:1528` says duplicates are merged independently of order.
  `TriplesDependOnOrder` shows an input for which they are not, `OrderFreeIffPairs` the bound on
  duplicates up to which they always are, and `OrderFreeIff` the exact condition for every snapshot.
- `drain` is meant to succeed once everything is processed.  `LeftoverFlagBlocksDrain` is a run
  after which it cannot; `DrainIsExact` says exactly when it can.
- The mark of a stop as failed may come after the stop.  `LateMarkJamsRunningQueue` is a run that
  leaves a running queue marked as failed; `JammedIffMarked` and `NeverJamsIff` say exactly when that
  happens, `JamLasts` and `StopUnjams` what it means and what leads out.
- A rollback is meant to undo a write.  `OuterChangeSurvivesRollback` is a run with nested writes in
  which it does not; `AtomicIff` says exactly when a write is atomic, and `FirstSettleDecides`
  what becomes of every single change.
- In the unchanged-state branch an expected missing name does not clear a row.  `ExactIff` says
  exactly when the tables are therefore not exact, and `OldNameSurvives` is a run in which they are not.

## Model

| member | source | states |
|---|---|---|
| `SchemaMigration.RecoversEverything` | src/mmrelay/db_utils.py:831-996 | from any combination of the four tables, after any number of runs that die after any statement, a completed run leaves message_map alone, TEXT and with the meshnet column, holding exactly the event ids all tables knew; each row has, field by field, the room, text, meshnet and id text of a row of the start, and where a live row existed, of that row |
| `SchemaMigration.CrashesKeepSafe` | src/mmrelay/db_utils.py:831-996 | the invariant of every state between two statements, over any sequence of crashed runs: same union of event ids, no invented row, and each row live at the start is in message_map or, absent there, held by a temp table with the meshnet column while message_map is TEXT or missing |
| `SchemaMigration.TraceSafe` | src/mmrelay/db_utils.py:809-996 | every state one run passes through keeps that invariant |
| `SchemaMigration.StatementKeepsSafe` | src/mmrelay/db_utils.py:831-996 | what a statement must find so that it loses and overrides nothing: for instance that DROP hits only tables whose ids are elsewhere and RENAME never leaves a live row behind |
| `SchemaMigration.FinalIsFirstWins` | src/mmrelay/db_utils.py:844-994 | an uninterrupted run is a first-wins merge: map, temp, stale, legacy when the ids are TEXT; map, legacy, temp, stale when not; stale directly after map when only it has the meshnet column; each final row has the room, the text, the meshnet and the id text of the row it comes from, with the id stored as TEXT |
| `SchemaMigration.FinalShape` | src/mmrelay/db_utils.py:817-996 | after a completed run message_map has TEXT ids and the meshnet column and the other tables are gone, save a stale table whose last merge failed |
| `SchemaMigration.SecondRunChangesNothing` | src/mmrelay/db_utils.py:798-998 | a run on the result of a completed run passes through that one state only |
| `SchemaMigration.FailedMergeLosesNothing` | src/mmrelay/db_utils.py:970-993 | when SQLite fails to merge the preserved stale table, no event id is lost and the next run brings all of them into message_map |
| `SchemaInitializer.Cursor.Initialize` | src/mmrelay/db_utils.py:798-996 | the program passes through exactly the states of the specified trace, and every statement it issues is one SQLite accepts: no RENAME onto an existing table, no primary-key violation in the plain INSERT |
| `SchemaInitializer.Cursor.CreateWithMeshColumn` | src/mmrelay/db_utils.py:809-827 | message_map is created or given its meshnet column, and the column type is read afterwards |
| `SchemaInitializer.Cursor.MergeStaleIntoTemp` | src/mmrelay/db_utils.py:844-886 | a stale table becomes the temp table or is merged into it, or into message_map when only the stale table has meshnet values |
| `SchemaInitializer.Cursor.MergeIfText` | src/mmrelay/db_utils.py:888-924 | a temp or legacy table is merged into a TEXT message_map and dropped |
| `SchemaInitializer.Cursor.RebuildUnlessText` | src/mmrelay/db_utils.py:926-994 | the rebuild of a message_map whose ids are not TEXT |
| `SchemaInitializer.Cursor.PreserveTemp` | src/mmrelay/db_utils.py:927-935 | a temp table of another schema is set aside as the stale table |
| `SchemaInitializer.Cursor.RecreateMessageMap` | src/mmrelay/db_utils.py:936-950 | message_map is renamed to the temp table, created anew and filled from it, without a primary-key violation |
| `SchemaInitializer.Cursor.MergeLegacy` | src/mmrelay/db_utils.py:951-968 | rows of the legacy table are added where their event id is new |
| `SchemaInitializer.Cursor.MergePreserved` | src/mmrelay/db_utils.py:970-993 | the set-aside rows are added and their table dropped, unless SQLite fails; then the table stays |
| `NodeNames.MergeIsCommutativeJoin` | src/mmrelay/db_utils.py:1587-1603 | merging two values is symmetric and succeeds exactly when they do not contradict each other |
| `NodeNames.Tuple` | src/mmrelay/db_utils.py:1579-1584 | the state tuple is strictly sorted by id and has exactly the entries of the state |
| `NodeNames.TupleRoundTrip` | src/mmrelay/db_utils.py:1579-1584 | a state and its tuple determine each other |
| `NodeNames.BeforeIff` | src/mmrelay/db_utils.py:1579-1584 | the order of the tuple: at the first position where two ids differ, the smaller one ends or has the smaller character |
| `SnapshotCollector.CollectNodeNameSnapshot` | src/mmrelay/db_utils.py:1442-1584 | the loop over the nodes yields the sorted tuple, id set and flag of the fold that the lemmas below describe |
| `SnapshotCollector.CompleteIff` | src/mmrelay/db_utils.py:1442-1584 | the snapshot is complete exactly when every node is well formed and no id carries two different non-empty strings in a field; then every id reports exactly the strings its nodes gave |
| `SnapshotCollector.CollectAccounts` | src/mmrelay/db_utils.py:1470-1577 | the id set is that of the usable nodes, each id is reported or skipped, and no name is invented |
| `SnapshotCollector.FlagAndIdsIgnoreOrder` | src/mmrelay/db_utils.py:1442-1584 | completeness flag and id set are the same for every order of the nodes |
| `SnapshotCollector.CompleteStateIgnoresOrder` | src/mmrelay/db_utils.py:1528-1529 | so is the state of a complete snapshot |
| `SnapshotCollector.PairsIgnoreOrder` | src/mmrelay/db_utils.py:1528-1529 | so is the state when no id occurs more than twice |
| `SnapshotCollector.TupleIgnoresOrder` | src/mmrelay/db_utils.py:1579-1584 | in both cases the tuple handed out is the same, sorted and without duplicate ids |
| `SnapshotCollector.TriplesDependOnOrder` | src/mmrelay/db_utils.py:1528-1577 | long names A, B, A with a stable short name end as A, but A, A, B as unknown: the source comment promises order-independence that the code does not keep |
| `SnapshotCollector.OrderFreeIffPairs` | src/mmrelay/db_utils.py:1528-1577 | two occurrences per id are exactly the bound up to which the state never depends on order |
| `SnapshotCollector.FatesAreIndependent` | src/mmrelay/db_utils.py:1520-1577 | what becomes of an id depends on the values of that id alone |
| `ConflictVerdict.OrderFreeIff` | src/mmrelay/db_utils.py:1528-1577 | for every snapshot: the state is independent of order if and only if for each id either its one contradicted field balances (an even number of pairwise different values, at most one of them without the other field, or the other field never given), or the id is contradicted in both fields and doomed, as below |
| `ConflictVerdict.FreeIffDoomed` | src/mmrelay/db_utils.py:1534-1577 | values contradicted in both fields come out the same in every order if and only if they are doomed: any two filled values are equal or contradict each other in both fields; or the names of each field all differ and are even in number; or two full values share one field, and an even number of further values give only that field, all differently |
| `ConflictVerdict.DoomedIsDropped` | src/mmrelay/db_utils.py:1534-1574 | doomed values lead to a skipped id in every order |
| `ConflictVerdict.LivesOrDoomed` | src/mmrelay/db_utils.py:1534-1577 | values that are not doomed have an order in which the id is kept |
| `ConflictKinds.AllKinds` | src/mmrelay/db_utils.py:1534-1577 | with full values, long names alone and short names alone, some order keeps the id unless each field has an even number of different names |
| `ConflictRescue.FullAndOthers` | src/mmrelay/db_utils.py:1534-1577 | the same with full values and one other kind, where two full values sharing that field may also doom the id |
| `ConflictOrders.CanEmpty` | src/mmrelay/db_utils.py:1556-1577 | when some order of the values of a field leaves it unknown |
| `ConflictOrders.CanFill` | src/mmrelay/db_utils.py:1556-1577 | when some order of the values of a field leaves it with a name |
| `ConflictOrders.Greedy` | src/mmrelay/db_utils.py:1528-1577 | full values never drop an id that holds one name, in a suitable order |
| `OrderDependence.FreeIffSettled` | src/mmrelay/db_utils.py:1528-1577 | values contradicted in one field at most come out the same in every order if and only if they balance |
| `OrderDependence.TwiceContradictedIsSkipped` | src/mmrelay/db_utils.py:1534-1548 | an id contradicted in both fields can be independent of order only by being skipped in every order |
| `OrderDependence.OrderFreeByIds` | src/mmrelay/db_utils.py:1520-1577 | a snapshot is collected alike in every order exactly when the values of each of its ids are |
| `OrderDependence.UnopposedIsExact` | src/mmrelay/db_utils.py:1528-1577 | a field that is not contradicted is reported exactly as given, whatever happens to the other, and an id is skipped only if some field is contradicted |
| `OrderDependence.FieldParity` | src/mmrelay/db_utils.py:1556-1577 | pairwise different values cancel in pairs, because a value is merged into the unknown a conflict left |
| `SingleFieldCollector.CollectSingleNameSnapshot` | src/mmrelay/db_utils.py:1918-2002 | the single-field loop yields state, id set and flag of its fold |
| `SingleFieldCollector.SingleIsDescribed` | src/mmrelay/db_utils.py:1918-2002 | an id is reported with the one non-empty string its nodes gave or None, dropped for good exactly when two of its strings differ, and the flag says whether anything was malformed or contradicted |
| `SingleFieldCollector.SingleIgnoresOrder` | src/mmrelay/db_utils.py:1918-2002 | state, id set and completeness depend only on which nodes occur, for any number of duplicates |
| `NameTables.NameTable.DeleteStale` | src/mmrelay/db_utils.py:2146-2167 | for any chunk size exactly the rows of ids outside the current set are deleted, and their number is returned |
| `NameTables.NameTable.DeleteMany` | src/mmrelay/db_utils.py:2158-2165 | one batch: the rows of its ids go, and the row count is their number |
| `NameStores.NameStore.WriteEntries` | src/mmrelay/db_utils.py:1633-1648 | the loop writes the entries one after another, both fields of each |
| `NameStores.NameStore.WriteState` | src/mmrelay/db_utils.py:1633-1648 | after the sorted entries of a state each table carries the known names, and lost the rows of missing ones under a complete snapshot only |
| `NameStores.SavedIsApplied` | src/mmrelay/db_utils.py:1633-1648 | writing a prefix of the sorted entries applies exactly that part of the state |
| `NameTables.NameTable.ReadForIds` | src/mmrelay/db_utils.py:1342-1365 | for any chunk size the read yields the table restricted to the requested ids, with empty names normalised |
| `NameStores.NameStore.TableMatches` | src/mmrelay/db_utils.py:1377-1416 | true exactly when the read succeeds and every known name of the state is the normalised row |
| `NameStores.NameStore.TablesMatch` | src/mmrelay/db_utils.py:1419-1439 | both tables match, and an empty state matches without reading |
| `NameStores.NameStore.SyncAtomic` | src/mmrelay/db_utils.py:1606-1668 | all entries are written and stale rows pruned, or after an error anywhere nothing is changed |
| `NameStores.NameStore.PruneAtomic` | src/mmrelay/db_utils.py:1716-1738 | both tables pruned, or neither |
| `NameStores.NameStore.SyncIfChanged` | src/mmrelay/db_utils.py:1755-1870 | the call as specified, for every snapshot, previous state and combination of failing transactions |
| `NameSync.RunsAgree` | src/mmrelay/db_utils.py:1755-1870 | over any run of calls, each fed the state handed back by the last, with any snapshots and failures, every known name of the state is the row of its table |
| `NameSync.CallKeepsAgreement` | src/mmrelay/db_utils.py:1755-1870 | one call keeps that agreement |
| `NameSync.CallRepairs` | src/mmrelay/db_utils.py:1830-1870 | whatever the tables hold and whatever the previous state was, one error-free call on a nonempty snapshot that is complete, or knows a node, or follows a state that does, re-establishes agreement |
| `NameSync.ReachesUnlessEmpty` | src/mmrelay/db_utils.py:1775-1828 | a call goes on to the tables unless the argument is no dictionary, is empty, or is incomplete with nothing known |
| `NameSync.NewNamesArrive` | src/mmrelay/db_utils.py:1775-1870 | after an error-free call the tables hold every name of the snapshot; names only the previous state knew stay in force under an incomplete snapshot, and absent ids are gone under a complete one |
| `NameSync.PartialViewsDeleteNothing` | src/mmrelay/db_utils.py:1775-1828 | an incomplete, empty or non-dict snapshot deletes no row, and changes one only to a name of the new state |
| `NameSync.RowsAreJustified` | src/mmrelay/db_utils.py:1775-1870 | whatever fails, each row left after a call is the row that was there or a name of the new state |
| `NameSync.FailedSyncWritesNothing` | src/mmrelay/db_utils.py:1830-1870 | a failing sync changes no row that stays, and hands the previous state back |
| `NameSync.IncompleteStateForgetsNothing` | src/mmrelay/db_utils.py:1786-1828 | after such a snapshot the state handed back has every id of the previous state, and in each field the name the snapshot reports or else the name of the previous state; a skipped call or a failing sync hands the previous state back whole |
| `NameSync.SyncIsExact` | src/mmrelay/db_utils.py:1633-1663 | a successful atomic sync of a complete snapshot makes both tables equal the known part of the state |
| `NameSync.ExactIff` | src/mmrelay/db_utils.py:1404-1406 | an error-free call on a complete snapshot makes both tables exact, except exactly when the state is unchanged, the tables carry every name it knows, and a row is left of a node whose name is unknown |
| `NameSync.OldNameSurvives` | src/mmrelay/db_utils.py:1404-1406 | a run of two calls that reaches the exception: an incomplete snapshot, then a complete one with the same state, and the old long name is still there |
| `NameUpdates.SaveName` | src/mmrelay/db_utils.py:2006-2012 | one transaction: saved, deleted under a complete snapshot, or left alone; false only if a transaction was due and failed |
| `NameUpdates.SaveNames` | src/mmrelay/db_utils.py:2003-2018 | every name is saved, or deleted under a complete snapshot, in its own transaction; the flag tells whether all succeeded |
| `NameUpdates.UpdateNamesCore` | src/mmrelay/db_utils.py:1873-2018 | the single-field update as specified, for any set of failing transactions |
| `NameUpdates.SuccessIsExact` | src/mmrelay/db_utils.py:1884-1887 | a successful update from a complete snapshot leaves exactly its names in the table |
| `NameUpdates.DeletionIsJustified` | src/mmrelay/db_utils.py:1884-1887 | a row is deleted only if every node is well typed, and then only the row of a node that has no name or, after a full success, of an absent node |
| `NameUpdates.RowsAreOldOrNew` | src/mmrelay/db_utils.py:1889-1896 | names whose transaction succeeds arrive, and every other row that is left is untouched |
| `NameUpdates.SuccessIff` | src/mmrelay/db_utils.py:1873-2018 | the update reports success exactly when no transaction it called for failed: that of a name, of a node without a name under a complete snapshot, or the final prune |
| `MessageWindow.MessageMapTable.Store` | src/mmrelay/db_utils.py:2277-2305 | the mapping is in the table; every row keeps its place and rowid, rows of other events do not change, and there is one more row only if the event had none |
| `MessageWindow.MessageMapTable.HandleMapping` | src/mmrelay/message_queue.py:910-942 | nothing without event id, room or text; otherwise store, then prune when the limit is positive, where each transaction may fail and its error is swallowed |
| `MessageWindow.FailuresHeal` | src/mmrelay/message_queue.py:910-942 | whatever is missing and whatever fails, rowids keep rising; one complete mapping without an error brings the table back to its limit with that mapping in it |
| `MessageWindow.HandlingIsExact` | src/mmrelay/message_queue.py:910-942 | everything one mapping does: nothing without event id, room or text; otherwise its row is stored unless that transaction fails, and then the newest rows up to a positive limit remain; with a limit of zero or less, or a failing prune, every row remains |
| `MessageWindow.NothingLeaves` | src/mmrelay/message_queue.py:937-939 | with a limit of zero or less no row ever leaves, and rows of other events do not change |
| `MessageWindow.MessageMapTable.Prune` | src/mmrelay/db_utils.py:2471-2486 | the newest rows are kept, all if there are fewer, and the number deleted is returned |
| `MessageWindow.HandleSlides` | src/mmrelay/db_utils.py:220-228 | with a positive limit the table stays within it and in rowid order, the mapping just stored is present, an event already present keeps its place and evicts nothing, and a new one evicts at most the oldest row |
| `MessageWindow.RunSlides` | src/mmrelay/db_utils.py:324-327 | over any run the table is the window on the last insertions, in rowid order |
| `MessageWindow.InsertionSurvives` | src/mmrelay/db_utils.py:2471-2486 | a row inserted under limit K outlives the next K - 1 operations |
| `MessageWindow.MappingsAreLatest` | src/mmrelay/db_utils.py:220-228 | a row that is still there carries the last mapping stored for its event |
| `MessageWindow.StoringAgainKeepsAge` | src/mmrelay/db_utils.py:220-228 | storing an event again does not make its row newer |
| `QueueSafety.ReachableIsSafe` | src/mmrelay/message_queue.py:95-846 | over every interleaving of calls, processor steps, cancellations, closed loops, watchdogs however late, and passing time, the four invariants below hold |
| `QueueSafety.AtMostOneProcessor` | src/mmrelay/message_queue.py:119-185 | never more than one processor or executor, and one that is alive means running or stopping |
| `QueueSafety.StartsClean` | src/mmrelay/message_queue.py:133-163 | the queue is turned on only when no earlier processor or executor is alive and no stop is unfinished, even if a watchdog has marked a stop as failed |
| `QueueSafety.ForgivenWhenIdle` | src/mmrelay/message_queue.py:95-117 | a failed stop is cleared only when the queue is off and nothing of the stop is alive |
| `QueueSafety.OnlyStartStarts` | src/mmrelay/message_queue.py:626-646 | no other call turns the queue on, and a processor is created otherwise only for a running queue without one |
| `QueueSafety.LateCleanupRecovers` | src/mmrelay/message_queue.py:220-243 | however late the cleanups of a stop come, and even after it was marked as failed, once both are in nothing of the run is left and the queue can be started |
| `QueueSafety.MessagesAreConserved` | src/mmrelay/message_queue.py:436-539 | each accepted message is in exactly one of queued, held, send returned, failed, lost at a requeue, abandoned; the queue stays within its limit and the dropped counter counts refusals by a full queue and lost requeues |
| `QueueSafety.SendsAreInOrder` | src/mmrelay/message_queue.py:515-539 | sends return in strictly increasing order of acceptance, across requeues, stops and restarts, and all that is held or queued is younger |
| `QueueSafety.AttemptsAreSpaced` | src/mmrelay/message_queue.py:692-737 | an attempt starts no sooner than the delay after the last recorded send |
| `QueueSafety.WindowIsBounded` | src/mmrelay/message_queue.py:692-761 | while the delay is at least d, a window of length w holds at most floor(w/d) + 1 recorded sends |
| `QueueSafety.NextKeepsLifeCycle` | src/mmrelay/message_queue.py:95-384 | start, stop, late cleanup, late watchdog, reset and lazy start keep the life-cycle invariant |
| `QueueSafety.NextKeepsFlags` | src/mmrelay/message_queue.py:673-841 | while a message is held the has-current flag is set, and the in-flight flag tells whether it is being sent or has just been sent |
| `QueueSafety.NextKeepsAccount` | src/mmrelay/message_queue.py:436-846 | every step keeps the account of the messages and their order |
| `QueueSafety.NextKeepsPace` | src/mmrelay/message_queue.py:692-761 | every step keeps the spacing of sends |
| `QueueLaws.WhatBecameOfIt` | src/mmrelay/message_queue.py:515-846 | over any run: a message is lost only at a step that gives it back to a full queue, fails only at a send error that is no connection error or without an executor, and is abandoned only when the coroutine holding it exits, is cancelled or loses its loop |
| `QueueLaws.OfferLaw` | src/mmrelay/message_queue.py:413-496 | an offer is accepted at the end of the queue exactly when the queue runs unmarked (marked, for a caller back from waiting) and has room; a full queue refuses and counts unless the caller waits |
| `QueueLaws.OfferForgives` | src/mmrelay/message_queue.py:412-418 | a fresh offer to a queue that is off clears a failed stop of which nothing is left |
| `QueueLaws.GivenBackLaw` | src/mmrelay/message_queue.py:515-539 | a message given back is in front of the old queue if there is room; only a full queue loses and counts it |
| `QueueLaws.FailedLaw` | src/mmrelay/message_queue.py:747-826 | a message whose send fails otherwise, or finds no executor, counts as failed and nothing else moves |
| `QueueLaws.GivenUpLaw` | src/mmrelay/message_queue.py:648-846 | a message held at an exit, a cancellation or the loss of the loop counts as abandoned and nothing else moves |
| `QueueLaws.ReturnedLaw` | src/mmrelay/message_queue.py:750-761 | a send that returns is recorded, and the time of the last send is now |
| `QueueLaws.NothingElseMoves` | src/mmrelay/message_queue.py:95-846 | no other step takes, gives back, loses, fails or counts a message |
| `QueueLaws.SendNeedsGo` | src/mmrelay/message_queue.py:728-757 | a coroutine comes to the send only from its last connection check, and only on a positive answer |
| `QueueLaws.CheckLaw` | src/mmrelay/message_queue.py:681-690 | what the first check leads to: the rate limit, a sleep with the message kept, or the back-off |
| `QueueLaws.PaceLaw` | src/mmrelay/message_queue.py:692-700 | the wait before a send ends exactly one delay after the last send, and there is none if that has passed |
| `QueueLaws.RecheckLaw` | src/mmrelay/message_queue.py:700-737 | what the later checks lead to: the send, a sleep with nothing in hand, or the back-off with the message kept |
| `QueueLaws.AfterSendLaw` | src/mmrelay/message_queue.py:739-831 | what a send leads to: the mapping, the clearing of the flags, or a sleep with nothing in hand |
| `QueueLaws.WakeLaw` | src/mmrelay/message_queue.py:678-712 | a sleep ends at its time and not before, and the processor goes on with what it held |
| `QueueLaws.DeliversOne` | src/mmrelay/message_queue.py:657-831 | with a ready connection and a send that returns, the oldest message is sent as soon as the delay allows |
| `QueueLaws.DeliversAll` | src/mmrelay/message_queue.py:657-831 | and so a run exists that sends the whole queue in order, with nothing failed, lost or abandoned |
| `QueueLaws.StartLaw` | src/mmrelay/message_queue.py:119-185 | a start of a queue that is off with no stop under way turns it on, with a live executor and one fresh processor if there is a loop |
| `QueueLaws.EnsureLaw` | src/mmrelay/message_queue.py:626-646 | a running unmarked queue without a processor gets one |
| `QueueDrain.DrainIsSound` | src/mmrelay/message_queue.py:607-624 | when drain may return True, every accepted message has been sent, has failed, was lost or abandoned |
| `QueueDrain.DrainIsExact` | src/mmrelay/message_queue.py:607-624 | after any run, drain may return True exactly when nothing is queued, nothing is held, and no step of the run ended a coroutine that held a message (loop exit, or cancellation in the sleep after an exception) without a later step clearing the flag |
| `QueueDrain.FinalizedStopLeavesNothing` | src/mmrelay/message_queue.py:220-236 | a stop that is finalised while the queue still refers to its task leaves no flag: from then on, until another coroutine leaves one, drain waits for messages only |
| `QueueDrain.LeftoverFlagBlocksDrain` | src/mmrelay/message_queue.py:607-646 | a run that leaves such a flag: after the restart nothing is queued or held, yet drain cannot succeed |
| `QueueMarks.LateMarkJamsRunningQueue` | src/mmrelay/message_queue.py:212-218 | a watchdog that times out, but takes the lock only after the stop was finalised and the queue restarted, marks the running queue as failed |
| `QueueMarks.JammedIffMarked` | src/mmrelay/message_queue.py:212-218 | after any run, the queue runs and is marked as failed exactly when some step of the run was a timed-out watchdog taking the lock while it ran, and no later step is a stop |
| `QueueMarks.NeverJamsIff` | src/mmrelay/message_queue.py:212-218 | a queue that runs unmarked can get marked without a stop if and only if a watchdog of an earlier stop has timed out and still waits for the lock |
| `QueueMarks.NoTimeOutNoMark` | src/mmrelay/message_queue.py:292-294 | a run in which no watchdog times out never marks the queue |
| `QueueMarks.JamLasts` | src/mmrelay/message_queue.py:95-185 | without a stop a marked running queue stays so over any run: no processor is added, and nothing is accepted except from callers already waiting |
| `QueueMarks.OnlyStopUnjams` | src/mmrelay/message_queue.py:95-185 | the same for one step |
| `QueueMarks.StopUnjams` | src/mmrelay/message_queue.py:187-384 | a stop leads out: once the processor is cancelled and the executor shut down, the queue can be started, even if yet another mark comes in between |
| `QueueMarks.ResetForgives` | src/mmrelay/message_queue.py:550-570 | while the queue is off and no stop is under way, a reset clears the failed state |
| `MessageQueues.MessageQueue.constructor` | src/mmrelay/message_queue.py:62-93 | the initial state, which satisfies the invariants |
| `MessageQueues.MessageQueue.Start` | src/mmrelay/message_queue.py:119-185 | starts unless a stop is unfinished; the result is whether the queue runs and is not marked as failed |
| `MessageQueues.MessageQueue.EnsureProcessorStarted` | src/mmrelay/message_queue.py:626-646 | forgets a finished task and creates one for a running queue |
| `MessageQueues.MessageQueue.BeginStop` | src/mmrelay/message_queue.py:197-210 | captures task and executor and turns the queue off |
| `MessageQueues.MessageQueue.OnTaskDone` | src/mmrelay/message_queue.py:263-273 | a finished task, or one whose loop is closed, completes its half of the stop |
| `MessageQueues.MessageQueue.OnExecutorDone` | src/mmrelay/message_queue.py:353-359 | a shut-down executor completes the other half |
| `MessageQueues.MessageQueue.WaitForCleanup` | src/mmrelay/message_queue.py:292-294 | a watchdog times out exactly when its cleanup is still missing |
| `MessageQueues.MessageQueue.MarkFailed` | src/mmrelay/message_queue.py:212-218 | a watchdog that has timed out marks the stop as failed, at any later time |
| `MessageQueues.MessageQueue.ClearFailedStopState` | src/mmrelay/message_queue.py:95-117 | clears the failed stop only when nothing of it is active |
| `MessageQueues.MessageQueue.ResetFailedStopState` | src/mmrelay/message_queue.py:550-570 | true unless a stop is under way or failed |
| `MessageQueues.MessageQueue.Enqueue` | src/mmrelay/message_queue.py:413-496 | accepts, refuses or waits, and the result says which; a failed stop refuses a fresh offer, not one that is already waiting |
| `MessageQueues.MessageQueue.RequeueMessage` | src/mmrelay/message_queue.py:515-539 | true exactly when there is room: the message is then in front of the old queue; otherwise the queue is as it was and the loss is counted |
| `MessageQueues.MessageQueue.ProcessQueueStep` | src/mmrelay/message_queue.py:648-846 | one step of the processor between two points where others may act |
| `MessageQueues.MessageQueue.CancelTask` | src/mmrelay/message_queue.py:834-841 | cancellation drops the held message and clears the flags, except in the sleep after an unexpected exception |
| `MessageQueues.MessageQueue.DrainOnce` | src/mmrelay/message_queue.py:618-624 | one turn of the loop of drain: True only if no accepted message is queued or held |
| `ManagerSafety.ReachableIsSafe` | src/mmrelay/db_runtime.py:272-546 | over every interleaving of threads, nested operations, jobs and close, the invariants below hold |
| `ManagerSafety.OperationsAreSound` | src/mmrelay/db_runtime.py:301-322 | the active count is the number of open operations over threads and nesting, and no open operation uses a closed connection |
| `ManagerSafety.ClosedForGood` | src/mmrelay/db_runtime.py:510-546 | once close has returned, whatever is tried: no operation is open, no connection is made, and every connection ever made is closed, those opened by admitted work during closing included |
| `ManagerSafety.CloseWaits` | src/mmrelay/db_runtime.py:526-529 | close returns only when no operation is open and the executor is down |
| `ManagerSafety.OneWriter` | src/mmrelay/db_runtime.py:359-383 | one thread at a time is inside a write |
| `ManagerSafety.JobsRunAtMostOnce` | src/mmrelay/db_runtime.py:407-444 | no job is called twice, and a cancelled job is a read that never started |
| `ManagerSafety.AcceptedWritesHaveRun` | src/mmrelay/db_runtime.py:407-444 | when close has returned every accepted write was called once and committed or rolled back once, cancelled caller or not, unless its cursor could not be opened |
| `ManagerSafety.CommitIffSuccess` | src/mmrelay/db_runtime.py:372-383 | a write job is committed exactly when neither its function nor the commit raised, and rolled back otherwise |
| `ManagerLaws.SubmitLaw` | src/mmrelay/db_runtime.py:424-435 | while submissions are accepted, a submission adds exactly one waiting job of the kind asked for; otherwise none |
| `ManagerLaws.KindsStay` | src/mmrelay/db_runtime.py:407-444 | no step changes the kind of a job or removes one, and only an accepted submission adds one |
| `ManagerLaws.KindIsAsSubmitted` | src/mmrelay/db_runtime.py:407-444 | over any run a job is a write exactly if the one submission that made it asked for a write |
| `ManagerLaws.WriteEndsAsItRan` | src/mmrelay/db_runtime.py:359-383 | over any run, a write job that has finished was committed once if in the actions of the run its function did not raise and its commit did not fail, and rolled back once otherwise; only a job whose cursor could not be opened was neither |
| `ManagerLaws.JobRunsThrough` | src/mmrelay/db_runtime.py:407-444 | whenever submissions are accepted, a worker is idle and the write lock is free, a submitted function can run to its end, is called once, and a write is committed or rolled back as its function and its commit say |
| `WriteLedger.RunKeepsLedger` | src/mmrelay/db_runtime.py:341-383 | over every interleaving of operations and modifying statements: no two threads share a connection, and a pending change belongs to an open write of its thread |
| `WriteLedger.SoleWriteIsAtomic` | src/mmrelay/db_runtime.py:372-383 | a write that is not nested and had no write nested in it is atomic: its commit makes all its changes durable, its rollback discards all of them, and no other change is touched |
| `WriteLedger.SettleDecides` | src/mmrelay/db_runtime.py:372-383 | any commit or rollback decides exactly the pending changes of its thread, those of the writes around it included |
| `WriteLedger.FirstSettleDecides` | src/mmrelay/db_runtime.py:359-383 | the law for every run: what becomes of a change is decided by the first commit or rollback of its thread after it, at whatever nesting depth, and by nothing else |
| `WriteLedger.AtomicIff` | src/mmrelay/db_runtime.py:359-383 | an outermost write ends with all changes of its operation alike exactly when no write nested in it has decided one of them the other way |
| `WriteLedger.OutcomesAreFinal` | src/mmrelay/db_runtime.py:372-383 | a change once durable or discarded stays so in every later run |
| `WriteLedger.NothingPendingOutside` | src/mmrelay/db_runtime.py:372-383 | a thread without an open write has no pending change, so no later commit can publish one |
| `WriteLedger.InnerCommitPublishes` | src/mmrelay/db_runtime.py:272-298 | when a nested write commits, what the write around it did so far is durable, whatever follows |
| `WriteLedger.OuterChangeSurvivesRollback` | src/mmrelay/db_runtime.py:359-383 | a run in which the outer write rolls back and its change is durable all the same |
| `ManagerSafety.NextKeepsSafe` | src/mmrelay/db_runtime.py:272-546 | every step keeps the invariants |
| `DatabaseManagers.DatabaseManager.constructor` | src/mmrelay/db_runtime.py:143-195 | a new manager with its first connection |
| `DatabaseManagers.DatabaseManager.EnterActivity` | src/mmrelay/db_runtime.py:305-314 | refused exactly when closing and the thread is not already admitted |
| `DatabaseManagers.DatabaseManager.GetConnection` | src/mmrelay/db_runtime.py:272-298 | the thread gets an open, tracked connection |
| `DatabaseManagers.DatabaseManager.AcquireWriteLock` | src/mmrelay/db_runtime.py:372-373 | blocked exactly while another thread holds the lock |
| `DatabaseManagers.DatabaseManager.BeginBody` | src/mmrelay/db_runtime.py:385-405 | the function is called with a cursor |
| `DatabaseManagers.DatabaseManager.EndBody` | src/mmrelay/db_runtime.py:374-378 | the function returns or raises, and which of the two is remembered |
| `DatabaseManagers.DatabaseManager.CommitOrRollback` | src/mmrelay/db_runtime.py:374-381 | commit, or rollback when anything raised |
| `DatabaseManagers.DatabaseManager.LeaveActivity` | src/mmrelay/db_runtime.py:315-322 | the count goes down and the admission flag goes back to what it was |
| `DatabaseManagers.DatabaseManager.RunAsync` | src/mmrelay/db_runtime.py:424-435 | submits exactly while submissions are accepted; the new job is of the kind asked for, and the others are untouched |
| `DatabaseManagers.DatabaseManager.TakeJob` | src/mmrelay/db_runtime.py:424-426 | a worker begins a job and is admitted |
| `DatabaseManagers.DatabaseManager.ReturnJob` | src/mmrelay/db_runtime.py:427-429 | a worker ends a job and is no longer admitted |
| `DatabaseManagers.DatabaseManager.CallerCancelled` | src/mmrelay/db_runtime.py:438-444 | a write goes on, a read is cancelled only if it has not started |
| `DatabaseManagers.DatabaseManager.BeginClose` | src/mmrelay/db_runtime.py:516-523 | refused exactly inside an operation or a job; otherwise admission ends |
| `DatabaseManagers.DatabaseManager.ShutDownExecutor` | src/mmrelay/db_runtime.py:525-526 | done only when every submitted job is over |
| `DatabaseManagers.DatabaseManager.CloseConnections` | src/mmrelay/db_runtime.py:528-546 | every tracked connection is closed and the thread-local values are dropped |

## Left out

- SchemaMigration.RecoversEverything: ids whose text rendering changes under INTEGER affinity (such as '007') or that are stored as REAL are read as they are stored when the run begins; a message_map without its id column and NULL event ids are not modelled.
- Migration statements that leave the four tables alone: names and plugin tables, the index, the PRAGMA and sqlite_master reads (their answers are read off the state).
- Statement errors during the migration other than a failure to merge the preserved stale table; such an error ends the run like a crash.
- NameStores.NameStore.SyncIfChanged: the previous state is taken as a state the function handed back before, a sorted tuple without duplicate ids; an error inside a sync is modelled as a stop after any number of entries followed by the rollback.
- The order of the dictionary values is a sequence of nodes, and ids that are integers appear as their text; the choice between json_each and IN lists makes no difference to the rows read.
- `wipe_message_map` and the default limit taken when a mapping names none.
- Rowids beyond the largest integer of SQLite.
- QueueSafety.ReachableIsSafe: one stop at a time, with setting a cleanup event and finalising as one step; preemptive races between separate stop calls are outside the model.  A watchdog may time out repeatedly, which the program's cannot.
- A processor task whose event loop is neither running nor closed at a stop is taken to run to its end within the stop.
- A message abandoned at a cancellation may still be inside its send function, which the executor finishes; the model does not follow it there.
- Fairness of the schedulers: `DeliversAll` and `JobRunsThrough` say that a run to the end exists, not that threads and event loops take it; nor that a stop eventually finalises.
- The thread that `_should_send_message` starts when an import fails; it is a stop like any other.
- Floating-point rounding of clock values, the wall-clock timestamp, logging, water-mark warnings and the status dictionary.
- ManagerSafety.CommitIffSuccess: stated for a job's own operation; what nested writes do is in `WriteLedger`.
- WriteLedger.RunKeepsLedger: only writes modify; a statement that modifies through a read cursor is not modelled.
- The contents of a change and the isolation between connections while it is pending.
- A repeated `_finalize_stop_state` after the stop is finalised, which can still clear a late mark while the queue is off.
- Lock order and deadlock of nested manager operations, PRAGMA handling, and the reasons why a connection cannot be opened (the operation then just leaves).
- DatabaseManagers.DatabaseManager.CloseConnections: thread-local values are dropped for all threads at once, as replacing the thread-local object does.
- Plugin data, single-name getters, path resolution, configuration and the manager cache, which would only add easy members.
- File migration, command line, setup, end-to-end encryption helpers and the facades around the core.
