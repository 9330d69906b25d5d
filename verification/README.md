# A model of the noxu log cleaner

The log cleaner of noxu is a garbage collector for log files. It runs beside transactions,
readers, the evictor and the checkpointer: it picks a file with much obsolete data, asks the
tree about every record in it, moves the live ones to the end of the log, and deletes the file
once a checkpoint has made the moves durable and nothing is left to retry. It must never drop
a record that something can still reach. This project models that machinery in Dafny and
proves what it promises.

| file | what it holds |
|---|---|
| `Lsns.dfy`, `Sorting.dfy`, `Files.dfy`, `Arith.dfy`, `Latch.dfy` | log positions and small shared types; ascending enumeration; a few facts on quotients; what steps switch on and off |
| `Store.dfy` | slots, log, lock table, open transactions; every step a writer, reader or the evictor takes; the database without a log that readers should see |
| `Migration.dfy` | looking up and moving one LN (a logged record), as an object with its locks and as one step |
| `Interleaving.dfy` | any number of migration attempts, step by step, between the steps of the store |
| `Pipeline.dfy`, `Lifecycle.dfy` | the stages a file goes through, the pending sets and the checkpoint barrier, over whole runs; the same told file by file |
| `GcSafety.dfy` | store, migration attempts step by step, pipeline, file passes, retries and deletion together, over whole runs |
| `History.dfy` | the state of that system read off the steps taken so far |
| `Continuations.dfy`, `Verdicts.dfy` | how the system may go on from a state; when the verdict of one lookup can be acted on |
| `OpenInserts.dfy` | files taken from the queue: when their lookups are harmless |
| `LossRuns.dfy` | two runs from an empty environment to a slot whose record is gone |
| `ScanPass.dfy` | the scan of a file and the pass of the whole-system model are the same thing |
| `NameTombstone.dfy` | keeping the record that a database was removed for as long as an older create survives |
| `Utilization.dfy`, `Selection.dfy`, `FileSelector.dfy` | utilization estimates, the choice of the next file, and the selector object |
| `Varint.dfy`, `Expiration.dfy` | the expiration histogram, its serialized form and its uncertainty band |
| `FileScan.dfy` | the scan of one file through the look-ahead cache, with its counters |
| `FileProtector.dfy` | hold counts and the replication floor |
| `CleanPass.dfy` | the loop of one cleaning pass and the deletion of safe files |

Objects that the program updates in place (`FileSelector`, `ExpirationTracker`,
`LookAheadCache`, `FileProtector`, `NameLnSnapshot`, `SharedTreeLookup`, `Cleaner`) are classes
whose methods are proved against functions of the old state; what the program promises is then
proved about those functions, most of it over every run. The main results:

* With the cleaning of one LN atomic, after every run of the whole system no reachable record lies in
  a file that is safe to delete or deleted, and each key reads, and each open transaction would
  restore, exactly what it would had there been no collector (`GcSafety.AtomicGcSafety`). The same
  holds with transactions and migration attempts interleaved step by step, as long as the verdicts
  acted on are right (`GcSafety.GcSafety`, `GcSafety.CollectionIsInvisible`), which the program does
  not check.
* Acting on the verdict of one lookup is harmless in every continuation exactly when the lookup found
  the slot at the LN, or no open transaction has the LN as before-image or newest image
  (`Verdicts.LookupIff`). `LossRuns.RollbackLoses` is a run that breaks this in a file chosen from the
  profile and loses a record.
* As long as verdicts about slots that were found are right, the lookups in a file taken from the queue
  are harmless exactly when no open transaction has logged a new key into it whose slot does not exist
  yet (`OpenInserts.QueuedPassIff`). `LossRuns.QueuedPassLoses` is a run in which one has and its record
  is lost.
* Moving a record is invisible in every interleaving (`Interleaving.MigrationIsInvisible`), and
  the verdict "obsolete" can be trusted exactly when the lookup was safe
  (`Interleaving.SafeLookupIff`, `Interleaving.ClampedLookupIff`).
* The scan's result, computed from one answer per LN, is what such an interleaved pass leaves
  behind (`ScanPass.ScanIsPass`), so after a completed scan everything still reachable in the file
  is on the list of LNs the scan reports (`ScanPass.ReachableIsReported`).
* Every deletable file crossed the checkpoint barrier (`Pipeline.SafeCrossedBarrier`), each file
  is in exactly one stage (`Pipeline.RunKeepsPartition`), and a removed database never comes
  back (`NameTombstone.NoResurrection`).
* In every state of every run, what is pending, on disk, locked, being scanned or on its way out is
  exactly what the steps so far made so and did not undo (`History.HistoryDecides`); so a file enters the
  barrier only after a pass that settled every record it had (`History.FinishedIsSettled`). Queued files
  are taken first in, first out (`Lifecycle.QueueIsFifo`).
* Selection, scan, pass and deletion do what their descriptions without loops say
  (`Selection.Choose`, `FileScan.ProcessFile`, `CleanPass.DoClean`,
  `CleanPass.Cleaner.DeleteSafeFiles`), and nothing they handle is lost or counted twice
  (`FileScan.ScanConserves`, `CleanPass.PassConserves`, `CleanPass.DeletionConserves`). A pass that ends
  early does so for a stated reason (`CleanPass.PassEndsForAReason`).

## How the model reads the program

Integers are unbounded; casts and subtractions that narrow are written out and wrap as in a
release build. LSNs are (file, offset) pairs; the source compares raw 64-bit values, which is
the same order. Logging yields a fresh, larger LSN or fails. Reads from disk, tree descents and
the clock are inputs: a fault or an answer may be anything. Rounding of percentages is exact,
half up.

Where code and comments disagree the model follows the code:

* The comments on `process_checkpoint_end` speak of two checkpoints. A file cleaned before a
  checkpoint starts becomes deletable at the end of that same checkpoint when nothing is pending
  (`Pipeline.CheckpointEndIsSimple`); the barrier is one complete checkpoint.
* The comments on `select_file_for_cleaning_with_policy` describe thresholds that exclude single
  files. The code compares the threshold with the utilization predicted for the whole log and
  ranks all eligible files.
* `ins_cleaned` is documented as counting full nodes; it counts deltas too. The counters for
  nodes and for deltas add up correctly, but are attributed to the right kind only under the
  condition of `FileScan.AttributedIff`; `FileScan.DeadDeltaTakesLiveCount` is a file with two
  entries that breaks it.
* `serialize` calls its narrowing to 32 bits lossless. `Expiration.RoundTripIff` gives the exact
  condition, `Expiration.FarBucketIsLost` an input outside it.
* `delete_safe_files` says that handing a file back keeps the barrier. The file is in the safe
  set again but its record is gone, so it is no longer tracked
  (`Pipeline.AddSafeBackKeepsPartitionIff`, `Pipeline.HandedBackIsUnplaced`).
* A protected file is put on the list of pending deletions and handed back to the safe set, so it is listed
  again at every pass (`CleanPass.ListGrowsWhileProtected`); and a file that is deleted off that list keeps
  its profile and tracker entries, which deletion from the safe set removes.
* A lookup that sees another transaction's open update may end in the verdict "obsolete" for a
  record that is still reachable, if that transaction ends between lookup and lock
  (`Interleaving.RollbackRun`), and the record is then lost (`LossRuns.RollbackLoses`);
  `Verdicts.LookupIff` states when this cannot happen.
* The first-active-transaction clamp applies to files chosen from the profile. A file taken from
  the queue skips it, and can then hold a record that is logged and not yet in the tree
  (`LossRuns.QueuedPassLoses`).
* The name snapshot is taken once per pass and covers what was logged before. A tombstone that
  comes later and whose file is closed in the same pass is not kept (`NameTombstone.LateRun`).

## Model

| member | source | states |
|---|---|---|
| `Lsns.U64OrderIsFileThenOffset` | crates/noxu-util/src/lsn.rs:23-55 | comparing packed 64-bit LSNs compares files, then offsets; distinct positions pack differently |
| `Store.StepKeepsInv` | crates/noxu-dbi/src/cursor_impl.rs:6340-6367 | every step of a writer, reader or the evictor, with an insert logged before its slot exists and a rollback taken key by key, keeps slots pointing at logged records of their key, resident copies true, write locks exclusive, one writer per key, and every LSN an open transaction may return to or publish locked by it |
| `Store.StepGrows` | crates/noxu-txn/src/txn.rs:1863-1897 | no such step creates a reference to a record already in the log |
| `Store.StepMeaning` | crates/noxu-txn/src/txn.rs:1633-1645 | what readers see through slots and log follows the database without a log, publications, rollbacks of single keys and ends of transactions included |
| `Store.ReadIff` | crates/noxu-txn/src/lock_impl.rs:634-797 | a non-blocking read is granted exactly when no writer owns the lock and nobody waits for an owner, whoever the owners are |
| `Store.ReadersShare` | crates/noxu-txn/src/lock_impl.rs:529-545 | after one more reader the next one is granted exactly when nobody waits |
| `Migration.SharedTreeLookup.LookupParentBin` | crates/noxu-cleaner/src/file_processor.rs:904-983 | the lookup answers by registration and catalog liveness of the database first, reports a fetch failure as undecided and invalidates the environment only then |
| `Migration.SharedTreeLookup.PublishMigrationLatched` | crates/noxu-cleaner/src/file_processor.rs:156-189 | a record moves exactly when its slot still points at the LN being cleaned, nobody else owns or waits for it, and the log took the copy; any other outcome leaves everything as it was |
| `Migration.SharedTreeLookup.ReleaseCleanerLock` | crates/noxu-cleaner/src/file_processor.rs:39-52 | releases the cleaner's own lock and nothing else |
| `Migration.SharedTreeLookup.MigrateLnSlot` | crates/noxu-cleaner/src/file_processor.rs:991-1201 | on every exit the lock table is as it was found and the effect is that of the single step `Migrate`; the environment is invalidated exactly when the recheck, or a fatal read of the slot's value, fails under the lock |
| `Migration.CleanedFateIff` | crates/noxu-cleaner/src/file_processor.rs:1994-2145 | the exact conditions, on slot, locks, catalog and faults, under which an LN keeps its file, is dead, or is moved; in every other case it waits |
| `Migration.OnlyOpenInsertsHide` | crates/noxu-cleaner/src/file_processor.rs:1008-1200 | an LN that is not at its key's read-lockable slot is referenced exactly when it is an insert whose slot does not exist yet |
| `Migration.MoveKeepsInv` | crates/noxu-cleaner/src/file_processor.rs:156-189 | moving a record keeps the store's invariant, creates no old reference, and leaves the old copy unreferenced |
| `Migration.MoveIsInvisible` | crates/noxu-cleaner/src/file_processor.rs:156-189 | moving a record changes nothing a reader sees or an abort restores |
| `Migration.KeptMeansMoved` | crates/noxu-cleaner/src/file_processor.rs:2110-2145 | an LN counted as migrated was the slot's, unshared, and its slot now points at a fresh copy of the same value |
| `Migration.OtherwiseUntouched` | crates/noxu-cleaner/src/file_processor.rs:1994-2145 | any other fate leaves the store alone, and a dead LN whose key has a slot is not what that slot points at, with nobody changing the key |
| `Migration.CleanLnGrows` | crates/noxu-cleaner/src/file_processor.rs:1994-2145 | cleaning one LN creates no old reference, a moved LN is unreferenced, and one that ends dead is referenced exactly when it is an insert whose slot does not exist yet |
| `Migration.CleanLnIsInvisible` | crates/noxu-cleaner/src/file_processor.rs:1994-2145 | cleaning one LN changes nothing a reader sees or an abort restores |
| `Interleaving.StepKeepsFineInv` | crates/noxu-cleaner/src/file_processor.rs:1008-1200 | each fine step, lookups that find no slot included, keeps locks, captured data and rechecked slots consistent for all attempts at once |
| `Interleaving.RunKeepsFineInv` | crates/noxu-cleaner/src/file_processor.rs:1008-1200 | the same over every run |
| `Interleaving.CleanerStepIsInvisible` | crates/noxu-cleaner/src/file_processor.rs:156-189 | every single cleaner step is a stutter on the database |
| `Interleaving.MigrationIsInvisible` | crates/noxu-cleaner/src/file_processor.rs:1008-1200 | in every interleaving each key reads and each abort restores what it would without the cleaner |
| `Interleaving.OnlyMigratedMoves` | crates/noxu-cleaner/src/file_processor.rs:156-189 | slots and log change in a cleaner step only when it decides Migrated |
| `Interleaving.NoForeignLockLosesItsRecord` | crates/noxu-cleaner/src/file_processor.rs:149-155 | a record somebody else locked or waits for keeps its LSN through every cleaner step |
| `Interleaving.SettledIsUnreferenced` | crates/noxu-cleaner/src/file_processor.rs:1008-1200 | an LN moved, found obsolete after a passed recheck, or looked up safely is unreferenced in every state from the decision on, also after the attempt is over |
| `Interleaving.RollbackMisleads` | crates/noxu-cleaner/src/file_processor.rs:1008-1200 | a transaction that rolls the key back to the LN and ends between lookup and lock makes the attempt call a referenced LN obsolete |
| `Interleaving.EndMisleads` | crates/noxu-cleaner/src/file_processor.rs:1008-1200 | so does one that publishes what it logged, the LN among it, and ends in between |
| `Interleaving.SafeLookupIff` | crates/noxu-cleaner/src/file_processor.rs:991-1201 | no continuation leads to such a verdict exactly when the slot is at the LN being cleaned or no open transaction has it as before-image or newest image of the key |
| `Interleaving.ClampedLookupIff` | crates/noxu-cleaner/src/file_selector.rs:469-485 | in a file behind every open transaction the same holds with before-images alone: only a rollback can mislead |
| `Interleaving.RollbackRun` | crates/noxu-cleaner/src/file_processor.rs:1008-1200 | a run from the empty store, with the file behind every open transaction when it is looked up, that ends in such a verdict |
| `Interleaving.InsertRun` | crates/noxu-dbi/src/cursor_impl.rs:6340-6367 | a run of three steps that ends in one without the clamp: a new key is logged and looked up before its slot exists |
| `Interleaving.UninterruptedIsAtomic` | crates/noxu-cleaner/src/file_processor.rs:991-1201 | run back to back, the fine steps are the single step `Migrate`: the same verdict and the same store, lock table included |
| `Pipeline.StepKeepsPartition` | crates/noxu-cleaner/src/file_selector.rs:718-815 | each call keeps every file in exactly the collection its status names, the queue free of duplicates |
| `Pipeline.RunKeepsPartition` | crates/noxu-cleaner/src/file_selector.rs:215-1028 | the same over every run of calls in the cleaner's order |
| `Pipeline.PartitionIsDisjointCover` | crates/noxu-cleaner/src/file_selector.rs:73-137 | the queue and the four sets are pairwise disjoint and together exactly the tracked files |
| `Pipeline.AddSafeBackKeepsPartitionIff` | crates/noxu-cleaner/src/file_selector.rs:816-824 | handing a file back to the safe set keeps the partition exactly when it was there already |
| `Pipeline.HandedBackIsUnplaced` | crates/noxu-cleaner/src/file_selector.rs:812-824 | so no file that is taken out for deletion and handed back is tracked, on an otherwise empty pipeline already |
| `Pipeline.CheckpointEndIsSimple` | crates/noxu-cleaner/src/file_selector.rs:872-903 | given the flag covers what pends, a checkpoint end advances the snapshot's cleaned files and promotes all checkpointed ones exactly when nothing pends |
| `Pipeline.RunKeepsGate` | crates/noxu-cleaner/src/file_selector.rs:833-1000 | over every run a clear flag means nothing pends, and a file waits in the checkpointed stage only while something does |
| `Pipeline.SafeCrossedBarrier` | crates/noxu-cleaner/src/file_selector.rs:833-1046 | every deletable file was cleaned when some checkpoint started and until it ended, and was promoted at a step after which nothing was pending |
| `Lifecycle.StageFollows` | crates/noxu-cleaner/src/file_selector.rs:718-1046 | every call takes every file exactly one step along the life of a file, which is written without the selector's collections |
| `Lifecycle.RequirementStays` | crates/noxu-cleaner/src/file_selector.rs:723-735 | what a file must meet in a second look is set when it is queued or selected and kept while the file is known |
| `Lifecycle.QueueIsFifo` | crates/noxu-cleaner/src/file_selector.rs:215-225 | over every run the files taken from the queue and those still in it are, in order, the files queued |
| `Lifecycle.LnPendingIff` | crates/noxu-cleaner/src/file_selector.rs:940-967 | over every run an LN is pending exactly when the last call about it added it, and as that call described it |
| `Lifecycle.DbPendingIff` | crates/noxu-cleaner/src/file_selector.rs:977-999 | the same of databases |
| `Lifecycle.FlagIff` | crates/noxu-cleaner/src/file_selector.rs:833-849 | the flag is set exactly when something pended at the last checkpoint start or was added since |
| `GcSafety.StepKeepsGcInv` | crates/noxu-cleaner/src/cleaner.rs:221-287 | every step of transactions, migration attempts, passes, retries, checkpoints and deletion keeps each reachable record guarded, if the verdict it acts on is right |
| `GcSafety.RunKeepsGcInv` | crates/noxu-cleaner/src/cleaner.rs:1242-1350 | the same over every run whose verdicts are right |
| `GcSafety.GcSafety` | crates/noxu-cleaner/src/cleaner.rs:1294-1314 | over every run whose verdicts are right, slots, before-images and images about to be published are in the log; none lies in a file that is safe, taken for deletion or deleted; one in a cleaned or checkpointed file is pending |
| `GcSafety.CollectionIsInvisible` | crates/noxu-cleaner/src/cleaner.rs:2164-2227 | over every run whose verdicts are right each key reads and each abort restores what it would without collection |
| `GcSafety.SafeRunIsRun` | crates/noxu-cleaner/src/file_processor.rs:991-1201 | in a run in which every lookup finds the slot at the LN, or an LN no open transaction holds, the verdicts are right |
| `GcSafety.AtomicRunIsRun` | crates/noxu-cleaner/src/file_processor.rs:991-1201 | in a run in which nothing but the open attempt's own steps and its verdict happens while an attempt is open, and no lookup outside files chosen from the profile is about an insert whose slot does not exist yet, the verdicts are right, whatever open transactions hold |
| `GcSafety.AtomicGcSafety` | crates/noxu-cleaner/src/cleaner.rs:1294-1314 | over every such run nothing reachable lies in a file that may go, and each key reads and each abort restores what it would without collection |
| `GcSafety.ChosenIsPast` | crates/noxu-cleaner/src/file_selector.rs:469-485 | an eligible file, under a minimum age of at least one and a truthful first active file, is closed and behind every open transaction, which is what selection from the profile asks in this model; no later step changes that, so a clamp computed once per pass suffices |
| `History.HistoryDecides` | crates/noxu-cleaner/src/cleaner.rs:1242-1350 | in every state of every run each of nineteen facts (an LN or database pends; a file is scanned, has an LN to visit, found one locked, must stay, is recorded, was chosen, is taken for deletion, is deleted; a record is on disk; a slot points at an LSN or has a resident copy; a lock is owned or waited for; a transaction or an attempt is open; a database is known or open) holds exactly when some step made it so and none since unmade it |
| `History.FinishedIsSettled` | crates/noxu-cleaner/src/file_processor.rs:1743-1935 | a file is marked cleaned only after a pass in which every record the file had at its start was settled by a step of its own, nothing asked to keep the file, and the locked LNs were recorded |
| `History.RetryResolves` | crates/noxu-cleaner/src/cleaner.rs:221-287 | a retry leaves its LN pending exactly when the record was locked and every other LN as it was; once nothing pends every checkpointed file is safe, and until then no file changes its stage |
| `History.StepIsCall` | crates/noxu-cleaner/src/file_selector.rs:718-1046 | the steps that call the selector move it as the pipeline by itself does |
| `History.OthersLeaveSelector` | crates/noxu-cleaner/src/cleaner.rs:1242-1350 | besides those, only recording a pass, a retry and handing a file back change the selector |
| `History.HandedBackIsSafeAgain` | crates/noxu-cleaner/src/cleaner.rs:2169-2224 | a safe file taken out and handed back is safe as before, loses its record and nothing else changes; it is still on its way out exactly when it is kept on the list |
| `Verdicts.AtomicRetry` | crates/noxu-cleaner/src/cleaner.rs:221-287 | an attempt on a pending LN that runs without interruption is one retry with the store and the fate of `CleanLn`: the LN stays pending exactly when the fate is Pending, every other as it was |
| `Verdicts.LookupIff` | crates/noxu-cleaner/src/file_processor.rs:991-1201 | for an LN a pass has yet to visit or a file behind the barrier waits for, every continuation in which the verdict of this one attempt need not be right keeps all reachable records guarded exactly when the slot is at the LN or no open transaction has it as before-image or newest image of the key |
| `Verdicts.ClampedLookupIff` | crates/noxu-cleaner/src/file_selector.rs:469-485 | in a file chosen from the profile the same with before-images alone |
| `Verdicts.AtomicVisit` | crates/noxu-cleaner/src/file_processor.rs:1994-2145 | an attempt on an LN of a pass that runs without interruption, from lookup to verdict, is one visit with the store and the fate of the single step `CleanLn` |
| `OpenInserts.QueuedPassIff` | crates/noxu-cleaner/src/file_selector.rs:215-225 | a pass begun on any file keeps every reachable record guarded in all continuations in which verdicts are right, lookups about the file being free, exactly when no open transaction has an insert in the file whose slot does not exist yet |
| `LossRuns.QueuedPassLoses` | crates/noxu-cleaner/src/file_selector.rs:215-225 | a run from the empty environment, by way of the queue and with a lookup about an open insert its only fault, that ends with a slot whose record is gone |
| `LossRuns.RollbackLoses` | crates/noxu-cleaner/src/file_processor.rs:1008-1200 | a run from the empty environment, in a file chosen from the profile and with one verdict misled by a rollback its only fault, that ends with a slot whose record is gone |
| `ScanPass.PassRemembers` | crates/noxu-cleaner/src/file_processor.rs:1994-2145 | between the other steps of any run a pass holds exactly the LNs without a fate, the locked ones, and a retain flag set by a request or a fate |
| `ScanPass.ScanIsPass` | crates/noxu-cleaner/src/file_processor.rs:1743-1935 | with the fates of the pass as answers, the uninterrupted scan reports exactly the locked LNs, each under its key, and the retain flag the pass holds, and the pass has nothing left to visit |
| `ScanPass.CompletedIff` | crates/noxu-cleaner/src/cleaner.rs:1294-1338 | once the locked LNs are recorded as pending, the file may be marked cleaned exactly when the scan says completed, and dropped exactly when it does not; every LN the scan lists is then pending under the key it lists |
| `ScanPass.ReachableIsReported` | crates/noxu-cleaner/src/file_processor.rs:1930-1934 | over every run of the whole system whose verdicts are right, after a completed scan each record of the file that something can reach is among the LNs the scan reports |
| `ScanPass.FinishedPassIsMirrored` | crates/noxu-cleaner/src/file_processor.rs:1743-1935 | for every pass that has visited all its LNs there are entries and answers whose scan it is, so the three results above speak of every finished pass |
| `NameTombstone.ObservedIsExact` | crates/noxu-cleaner/src/cleaner.rs:121-143 | observing one more record keeps newest record, oldest create and catalog membership of every name exact |
| `NameTombstone.NameLnSnapshot.Observe` | crates/noxu-cleaner/src/cleaner.rs:121-143 | the in-place update is that function of the old entries |
| `NameTombstone.BuildSnapshot` | crates/noxu-dbi/src/environment_impl.rs:1823-1965 | whatever order the surviving records are read in, the snapshot is exact |
| `NameTombstone.RetainsExactly` | crates/noxu-cleaner/src/cleaner.rs:98-115 | a tombstone is kept exactly when it is the newest record of a removed name and a create lies in an older file; at most one per name is |
| `NameTombstone.RunKeepsNamesInv` | crates/noxu-cleaner/src/cleaner.rs:1304-1336 | over every run a removed name keeps its tombstone or has no surviving create |
| `NameTombstone.NoResurrection` | crates/noxu-cleaner/src/cleaner.rs:98-143 | over every run recovery never finds a removed name alive |
| `NameTombstone.HistoryDecides` | crates/noxu-cleaner/src/cleaner.rs:1304-1336 | over every run a name is known from its creation to its removal, a record survives until its file is deleted, a file is let go exactly when no tombstone in it must stay, and a snapshot lasts from its scan to the end of the pass |
| `NameTombstone.ProfileRunNeverResurrects` | crates/noxu-cleaner/src/cleaner.rs:1194-1222 | files chosen from the profile, closed before the names are scanned, or without tombstones, need no further condition |
| `NameTombstone.ClosedAtScanIsChoice` | crates/noxu-cleaner/src/cleaner.rs:1088-1099 | a file closed when the names are scanned stays such a file until the pass ends |
| `NameTombstone.ResurrectsIff` | crates/noxu-cleaner/src/file_processor.rs:1896-1905 | letting go of the file with a removed name's last tombstone brings the name back exactly when the tombstone came after the scan, the scan had met the name, and the newest record outside the file is a create |
| `NameTombstone.LateRun` | crates/noxu-cleaner/src/cleaner.rs:98-143 | a run from the empty log in which it does |
| `Utilization.UtilizationBand` | crates/noxu-cleaner/src/file_selector.rs:689-715 | minimum, average and maximum utilization are ordered percentages |
| `Utilization.UtilizationIs` | crates/noxu-cleaner/src/file_selector.rs:686-715 | minimum and maximum utilization are the live percentages of the file, rounded down and clamped, with the gradual and with the lower expired bytes taken off, the average half their sum; on a consistent summary each is 100 exactly when nothing is obsolete or expired; a file without bytes scores zero |
| `Utilization.MoreGoneScoresLess` | crates/noxu-cleaner/src/file_selector.rs:686-715 | of two files of one size the one with more obsolete or expired bytes never scores higher |
| `Utilization.ObsoleteIsExtreme` | crates/noxu-cleaner/src/file_selector.rs:365-385 | the two obsolete sizes are the least and the most bytes that can be gone, over every overlap of obsolete and expired bytes |
| `Utilization.UtilizationRounds` | crates/noxu-cleaner/src/file_selector.rs:389-396 | the log's utilization is within half a point of the live percentage, halves up |
| `Utilization.ComputePredictedMinUtil` | crates/noxu-cleaner/src/file_selector.rs:356-396 | the accumulating loop computes the rounded share of bytes not possibly obsolete, with files in progress shrunk to their live bytes |
| `Utilization.OneMoreInProgress` | crates/noxu-cleaner/src/file_selector.rs:365-385 | taking a file into cleaning lowers the total by exactly its surely obsolete bytes and the obsolete part by exactly its possibly obsolete ones |
| `Utilization.PredictedInRange` | crates/noxu-cleaner/src/file_selector.rs:356-396 | the prediction is a percentage |
| `Utilization.PredictedNeverFalls` | crates/noxu-cleaner/src/file_selector.rs:356-396 | taking more files into cleaning never lowers it, also when no bytes remain |
| `Selection.EligibleIff` | crates/noxu-cleaner/src/file_selector.rs:537-560 | a file may be chosen exactly when it is known, untracked, old enough, and anything at all was counted in it |
| `Selection.TierIff` | crates/noxu-cleaner/src/file_selector.rs:575-606 | the ranking is by average exactly when cleaning is forced or the predicted utilization is below the total threshold, by default the minimum utilization, and by gradual utilization exactly when neither holds, a file threshold is set and an eligible file is below it |
| `Selection.ChoiceIsUnique` | crates/noxu-cleaner/src/file_selector.rs:447-649 | the description of the choice by tiers and tie-breaks admits one answer |
| `Selection.ChoiceIsEligible` | crates/noxu-cleaner/src/file_selector.rs:447-649 | a chosen file is known, untracked, not empty, and `minAge` files older than both the newest file and the oldest open transaction's |
| `Selection.NothingToCleanStays` | crates/noxu-cleaner/src/file_selector.rs:575-601 | when nothing is to be cleaned, taking further files into cleaning does not change that |
| `Selection.SecondLookIsWarranted` | crates/noxu-cleaner/src/file_selector.rs:603-636 | a dry run is asked for only at a mark below the pessimistic estimate and, under a positive gap, only where the expired bytes are uncertain |
| `Selection.SecondLookIff` | crates/noxu-cleaner/src/file_selector.rs:614-636 | a dry run is asked for, at a given mark, exactly when that is the configured mark or five points below the minimum but not below zero, the file may be above it, and the two estimates are the gap apart |
| `Selection.LastFileToClean` | crates/noxu-cleaner/src/file_selector.rs:464-485 | the bound admits exactly the files old enough, and none when the minimum age exceeds the first active file |
| `Selection.FirstForced` | crates/noxu-cleaner/src/file_selector.rs:508-535 | finds the lowest eligible file of the forced set, or there is none |
| `Selection.BestFiles` | crates/noxu-cleaner/src/file_selector.rs:537-580 | one pass finds the eligible file with the lowest average and the one with the lowest gradual utilization, ties to the lowest number |
| `Selection.Choose` | crates/noxu-cleaner/src/file_selector.rs:447-601 | the selector's loops and branches give exactly the described choice, forced files first |
| `FileSelector.FileSelector.constructor` | crates/noxu-cleaner/src/file_selector.rs:144-161 | an empty pipeline with the default two-pass settings |
| `FileSelector.FileSelector.AddFileToCleanWithUtil` | crates/noxu-cleaner/src/file_selector.rs:723-735 | queues an untracked file at the end and ignores a tracked one |
| `FileSelector.FileSelector.SelectFromQueue` | crates/noxu-cleaner/src/file_selector.rs:215-225 | takes the oldest queued file into cleaning with its recorded requirement |
| `FileSelector.FileSelector.SelectWithPolicy` | crates/noxu-cleaner/src/file_selector.rs:447-649 | with an empty queue claims exactly the described choice, drains a forced file, and records the two-pass requirement; else dequeues |
| `FileSelector.FileSelector.SelectFileForCleaning` | crates/noxu-cleaner/src/file_selector.rs:252-284 | the queue first, the profile only when the queue yields nothing |
| `FileSelector.FileSelector.RemoveFileFromCleaning` | crates/noxu-cleaner/src/file_selector.rs:295-298 | forgets the file entirely |
| `FileSelector.FileSelector.PutBackFileForCleaning` | crates/noxu-cleaner/src/file_selector.rs:1018-1028 | returns a file in cleaning to the end of the queue and ignores any other |
| `FileSelector.FileSelector.MarkFileCleaned` | crates/noxu-cleaner/src/file_selector.rs:738-745 | moves a file from cleaning to cleaned |
| `FileSelector.FileSelector.MarkFileCheckpointed` | crates/noxu-cleaner/src/file_selector.rs:748-755 | moves a file from cleaned to checkpointed |
| `FileSelector.FileSelector.MarkFileFullyProcessed` | crates/noxu-cleaner/src/file_selector.rs:758-765 | moves a file from checkpointed to safe |
| `FileSelector.FileSelector.UpdateProcessedFiles` | crates/noxu-cleaner/src/file_selector.rs:1038-1046 | promotes every checkpointed file, in any order, exactly when nothing pends |
| `FileSelector.FileSelector.GetCheckpointState` | crates/noxu-cleaner/src/file_selector.rs:833-849 | snapshots the cleaned and safe files in ascending order and sets the flag to whether anything pends |
| `FileSelector.FileSelector.ProcessCheckpointEnd` | crates/noxu-cleaner/src/file_selector.rs:872-903 | the three loops compute the checkpoint end of the pipeline for any snapshot list |
| `FileSelector.FileSelector.GetSafeToDelete` | crates/noxu-cleaner/src/file_selector.rs:805-809 | lists the safe files in ascending order |
| `FileSelector.FileSelector.RemoveDeletedFile` | crates/noxu-cleaner/src/file_selector.rs:812-815 | drops a file from the safe set and the records |
| `FileSelector.FileSelector.AddSafeToDeleteBack` | crates/noxu-cleaner/src/file_selector.rs:822-824 | restores set membership only |
| `FileSelector.FileSelector.AddPendingLn` | crates/noxu-cleaner/src/file_selector.rs:940-943 | records the LN, sets the flag, and tells whether it was known |
| `FileSelector.FileSelector.RemovePendingLn` | crates/noxu-cleaner/src/file_selector.rs:964-967 | drops the LN and promotes if that was the last thing pending |
| `FileSelector.FileSelector.AddPendingDb` | crates/noxu-cleaner/src/file_selector.rs:977-980 | records the database, sets the flag, and tells whether it was new |
| `FileSelector.FileSelector.RemovePendingDb` | crates/noxu-cleaner/src/file_selector.rs:996-999 | drops the database and promotes if that was the last thing pending |
| `Varint.WriteVarint` | crates/noxu-cleaner/src/expiration_tracker.rs:292-304 | appends the LEB128 bytes of the value |
| `Varint.ReadVarint` | crates/noxu-cleaner/src/expiration_tracker.rs:307-320 | the shift-and-or loop reads groups up to the first byte without continuation bit or the end of the buffer |
| `Varint.SumIsOr` | crates/noxu-cleaner/src/expiration_tracker.rs:313 | in the first five groups the or of a shifted group is its wrapped sum |
| `Varint.VarintRoundTrip` | crates/noxu-cleaner/src/expiration_tracker.rs:292-320 | reading undoes writing for every 32-bit value, whatever follows in the buffer |
| `Expiration.ExpirationTracker.Track` | crates/noxu-cleaner/src/expiration_tracker.rs:56-69 | adds to the bucket of the hour, wrapping at 32 bits; hour zero is ignored |
| `Expiration.TrackedAdds` | crates/noxu-cleaner/src/expiration_tracker.rs:56-97 | tracking an entry adds its size to the expired bytes from its hour on, modulo 2^32 and exactly as long as the bucket's sum fits in 32 bits, and changes nothing before |
| `Expiration.HistogramIsHistory` | crates/noxu-cleaner/src/expiration_tracker.rs:56-69 | after any entries there is a bucket for exactly the hours met, zero apart, with their number and bytes modulo 2^32 |
| `Expiration.ExpirationTracker.GetExpiredBytes` | crates/noxu-cleaner/src/expiration_tracker.rs:87-97 | sums the buckets that have reached their hour, in any order |
| `Expiration.ExpirationTracker.GetExpiredBytesBand` | crates/noxu-cleaner/src/expiration_tracker.rs:220-263 | computes the bytes of passed intervals, and those plus the elapsed share of the current one, by hour or by day |
| `Expiration.ElapsedIs` | crates/noxu-cleaner/src/expiration_tracker.rs:220-263 | the current interval is the day when every bucket is on a day boundary, else the hour; what elapsed is the time from its start, clamped to it |
| `Expiration.BandMeets` | crates/noxu-cleaner/src/expiration_tracker.rs:220-263 | the band is empty when its interval begins and takes in all of it when it ends, whatever the sizes |
| `Expiration.BandIsSound` | crates/noxu-cleaner/src/expiration_tracker.rs:187-263 | lower bound <= gradual bound <= expired bytes, in both granularities |
| `Expiration.BandNeverFalls` | crates/noxu-cleaner/src/expiration_tracker.rs:220-263 | neither bound falls as the clock advances, across bucket boundaries too |
| `Expiration.TrackedKeepsHistogram` | crates/noxu-cleaner/src/expiration_tracker.rs:56-69 | tracking never creates a bucket at hour zero and keeps sizes in 32 bits |
| `Expiration.ExpirationTracker.Serialize` | crates/noxu-cleaner/src/expiration_tracker.rs:114-136 | writes the granularity flag and the narrowed intervals and sizes in ascending order |
| `Expiration.ExpirationTracker.Deserialize` | crates/noxu-cleaner/src/expiration_tracker.rs:152-176 | rebuilds buckets from the pairs of any buffer, dropping a last half pair |
| `Expiration.ParseInvertsFlatten` | crates/noxu-cleaner/src/expiration_tracker.rs:126-176 | the reader recovers every pair the writer wrote |
| `Expiration.RoundTripIff` | crates/noxu-cleaner/src/expiration_tracker.rs:114-176 | serializing and reading back gives the same buckets and sizes exactly when no interval between neighbours, counted from the epoch, reaches 2^32 |
| `Expiration.FarBucketIsLost` | crates/noxu-cleaner/src/expiration_tracker.rs:114-176 | a single bucket at hour 2^32 does not come back |
| `Expiration.RecoveredBandIsTheSame` | crates/noxu-cleaner/src/expiration_tracker.rs:138-176 | for hours below 2^32 the recovered histogram gives the same band and expired bytes at every instant |
| `FileScan.LookAheadCache.constructor` | crates/noxu-cleaner/src/file_processor.rs:1448-1452 | an empty cache charged with the map's overhead |
| `FileScan.LookAheadCache.Add` | crates/noxu-cleaner/src/file_processor.rs:1468-1472 | charges exactly what it holds as long as no offset is added twice |
| `FileScan.LookAheadCache.NextOffset` | crates/noxu-cleaner/src/file_processor.rs:1478-1480 | gives the lowest cached offset, or none exactly when empty |
| `FileScan.LookAheadCache.Remove` | crates/noxu-cleaner/src/file_processor.rs:1487-1497 | takes the entry out and keeps the charge exact, so the saturating subtraction never saturates |
| `FileScan.ProcessLn` | crates/noxu-cleaner/src/file_processor.rs:1994-2145 | counts the LN under the one fate the tree's answers give it |
| `FileScan.ProcessFile` | crates/noxu-cleaner/src/file_processor.rs:1743-1935 | for any memory budget and any polls, how far the scan gets: which entries are read, and the live LNs asked about, in log order and each once, are those the full cache handed on and those drained; it stops exactly at the first poll that says so, and otherwise accounts for every entry and completes exactly when nothing asked to keep the file |
| `FileScan.ScanIsDetermined` | crates/noxu-cleaner/src/file_processor.rs:1743-1935 | entries, budget, polls and answers admit one result |
| `FileScan.BudgetDecides` | crates/noxu-cleaner/src/file_processor.rs:1448-1497 | a budget above 64 bytes for the map and 102 and the key for each LN hands none on before the end of the file, one of at most 64 hands on each at once |
| `FileScan.FateIff` | crates/noxu-cleaner/src/file_processor.rs:1994-2145 | which answers of the tree make an LN wait, die, move or keep the file |
| `FileScan.LockedIff` | crates/noxu-cleaner/src/file_processor.rs:2013-2088 | the list of locked LNs holds exactly the entries asked about that wait, each under its own LSN and with its key, size, deleted flag and expiration |
| `FileScan.LockedAreDistinct` | crates/noxu-cleaner/src/file_processor.rs:2013-2088 | no LN is listed twice |
| `FileScan.TallyCounts` | crates/noxu-cleaner/src/file_processor.rs:2013-2088 | cleaned = dead + migrated + locked; the locked list holds exactly the LNs to retry, in log order |
| `FileScan.NodeSums` | crates/noxu-cleaner/src/file_processor.rs:2168-2248 | moving counts between node and delta counters conserves migrated, dead and undecided totals |
| `FileScan.AttributedIff` | crates/noxu-cleaner/src/file_processor.rs:2223-2248 | the per-kind counters are right exactly when no delta takes over a count that a plain node left |
| `FileScan.DeadDeltaTakesLiveCount` | crates/noxu-cleaner/src/file_processor.rs:2223-2248 | a live node followed by a dead delta is reported as a dead node and a live delta |
| `FileScan.ScanConserves` | crates/noxu-cleaner/src/file_processor.rs:1743-1935 | every entry is read; LN entries = obsolete + cleaned, cleaned = dead + migrated + locked, locked = listed + unresolved, nodes and deltas add up, and the file may go exactly when no entry asked to keep it |
| `FileScan.CompletedFileIsResolved` | crates/noxu-cleaner/src/file_processor.rs:1930-1934 | every live LN of a completed file is dead, moved, or on the list to retry with the details of its entry |
| `FileProtector.FileProtector.ProtectFile` | crates/noxu-cleaner/src/file_protector.rs:69-85 | one more hold on the file |
| `FileProtector.FileProtector.UnprotectFile` | crates/noxu-cleaner/src/file_protector.rs:97-112 | one hold less, none below zero; tells whether the file has none left |
| `FileProtector.FileProtector.IsProtected` | crates/noxu-cleaner/src/file_protector.rs:119-155 | a file is protected exactly when the history of calls leaves it a hold or it is at or after the floor |
| `FileProtector.FileProtector.SetReplicationFloor` | crates/noxu-cleaner/src/file_protector.rs:138-141 | the floor in force is the last one set |
| `FileProtector.FileProtector.ClearAll` | crates/noxu-cleaner/src/file_protector.rs:185-187 | drops all holds and leaves the floor |
| `FileProtector.ProtectedIff` | crates/noxu-cleaner/src/file_protector.rs:119-155 | a file is protected exactly when it has a hold, or the last call that set the floor set one at or below it |
| `FileProtector.HeldIffSomeStretchIsPositive` | crates/noxu-cleaner/src/file_protector.rs:69-112 | a file is held exactly when some stretch of calls up to now, without a clear, took more holds than it gave back |
| `FileProtector.HoldersMustAllRelease` | crates/noxu-cleaner/src/file_protector.rs:69-112 | k holds need k releases, whatever other calls are made; exactly k without a new hold leave none |
| `FileProtector.HeldFileSurvives` | crates/noxu-cleaner/src/file_protector.rs:119-155 | with fewer releases the file stays protected however the floor moves |
| `CleanPass.Cleaner.DeleteSafeFiles` | crates/noxu-cleaner/src/cleaner.rs:2164-2227 | takes all safe files in ascending order and books each one as deleted, waiting or handed back; does nothing on an invalid environment |
| `CleanPass.DeletionConserves` | crates/noxu-cleaner/src/cleaner.rs:2164-2227 | a safe file is deleted exactly when it is unprotected and, with a file manager, older than the file being written and not one whose deletion fails; at or past the head it waits, protected it waits and is safe again, failed it is safe again; files are listed in order; only deleted files lose profile and tracker entries; each is counted once |
| `CleanPass.Cleaner.DeletePendingFiles` | crates/noxu-cleaner/src/cleaner.rs:1999-2034 | keeps on the list, in order, exactly the files that are protected or at or past the head, and tells how many went; does nothing on an invalid environment |
| `CleanPass.ListGrowsWhileProtected` | crates/noxu-cleaner/src/cleaner.rs:1351-1362 | at the end of a pass a file is listed as often as before, once more if it was safe, when it has to wait, and not at all otherwise; a protected safe file stays safe, and leaving the list costs no profile or tracker entry |
| `CleanPass.ProcessPending` | crates/noxu-cleaner/src/cleaner.rs:221-287 | tries each pending LN once, in any order, until a poll says stop or the environment is invalid; exactly the tried ones whose answer is dead or moved are forgotten, and the environment is invalid afterwards exactly when it was or a try was fatal |
| `CleanPass.RetriesLeave` | crates/noxu-cleaner/src/cleaner.rs:221-287 | unless stopped, an LN is pending afterwards exactly when it was and its lookup failed, its database is not open, or its record is locked, and as it was described; with the last one gone and no database pending every checkpointed file is safe |
| `CleanPass.ProcessSingleFile` | crates/noxu-cleaner/src/cleaner.rs:1599-1727 | a file that can be read is scanned as far as its polls let it, with the one result that leaves |
| `CleanPass.HoldAndProcess` | crates/noxu-cleaner/src/cleaner.rs:1258-1265 | the file is protected by a hold of its own while it is scanned, and every protection is afterwards as it was before |
| `CleanPass.RecordLocked` | crates/noxu-cleaner/src/cleaner.rs:1294-1303 | every listed LN is pending with the details of its entry on the list, if none is listed twice |
| `CleanPass.Conclude` | crates/noxu-cleaner/src/cleaner.rs:1266-1338 | the outcome follows from environment, input and scan by an exact table, and with it the whole new state of the selector, locked LNs recorded before the file changes its stage |
| `CleanPass.ConcludedMoves` | crates/noxu-cleaner/src/cleaner.rs:1266-1338 | concluding moves one file, to the stage its outcome names, at the end of the queue when it is put back, and no other |
| `CleanPass.Attempt` | crates/noxu-cleaner/src/cleaner.rs:1180-1338 | one attempt is the retries, then exactly the selector's choice, then a file spared, or held, scanned and concluded, with the outcome fixed by these inputs; protections are afterwards as before |
| `CleanPass.TrialMoves` | crates/noxu-cleaner/src/cleaner.rs:1180-1338 | an attempt keeps the partition, leaves a deferred file in cleaning and adds a cleaned one to the cleaned stage, and otherwise changes neither |
| `CleanPass.CleanedIsScanned` | crates/noxu-cleaner/src/cleaner.rs:1294-1314 | a file becomes cleaned only by the full scan of its entries, with every LN the scan lists pending as listed |
| `CleanPass.NoFileIff` | crates/noxu-cleaner/src/cleaner.rs:1218-1237 | an attempt finds no file exactly when none is queued and the description of the choice yields none; a queued file is taken in order |
| `CleanPass.RestoreDeferred` | crates/noxu-cleaner/src/cleaner.rs:1340-1344 | puts every deferred file back, in order |
| `CleanPass.EndPass` | crates/noxu-cleaner/src/cleaner.rs:1345-1428 | a fatal attempt is reported first, then an invalid environment, and neither deletes anything; else safe and waiting files are dealt with, and then unreadable files reported, or the counts |
| `CleanPass.DoClean` | crates/noxu-cleaner/src/cleaner.rs:1057-1428 | refused, with nothing changed, exactly when shut down or invalid; else the attempts follow one another, each on what the last one left, until the loop is over, the deferred files are put back, and the pass ends as `EndPass` says; cap and number of files are those of the pass start; every protection is as before |
| `CleanPass.PassConserves` | crates/noxu-cleaner/src/cleaner.rs:1180-1344 | at most max(1, original count) attempts, at most min(n_files, that) files cleaned, cleaned + deferred within the attempts, as many files added to the cleaned stage as counted, nothing left in cleaning, deferred files at the end of the queue |
| `CleanPass.PassEndsForAReason` | crates/noxu-cleaner/src/cleaner.rs:1180-1237 | a pass with fewer attempts than its cap tried as many files as asked for, deferred ones not counted, or saw a shutdown, or ended in a fatal attempt, or found nothing queued and nothing to choose |
| `CleanPass.AttemptIsDue` | crates/noxu-cleaner/src/cleaner.rs:1180-1188 | conversely no attempt is made once one of these holds |
| `CleanPass.ChosenAmong` | crates/noxu-cleaner/src/cleaner.rs:1195-1216 | until a file is cleaned the choice is among the summaries of the pass start, then among the current ones without files newer than all of those |
| `CleanPass.QueuedFileIsTaken` | crates/noxu-cleaner/src/cleaner.rs:1218-1237 | with a file queued, files asked for and no shutdown, the first attempt takes the oldest queued file |

## Left out

- GcSafety.GcSafety: over runs in which a verdict "obsolete" that a pass or a retry acts on comes from a passed recheck, a miss, or a safe lookup, and a lookup in a file taken from the queue is not about an insert whose slot does not exist yet; the program checks neither. GcSafety.AtomicRunIsRun and GcSafety.SafeRunIsRun say when this holds, Verdicts.LookupIff when it can fail, and LossRuns.RollbackLoses and LossRuns.QueuedPassLoses what happens then.
- GcSafety.CollectionIsInvisible: over the same runs; covers inserts and updates; deleting a key is not modelled because what a lookup makes of such a slot is decided in the tree.
- ScanPass.ReachableIsReported: over the same runs.
- OpenInserts.QueuedPassIff: verdicts about slots that were found are taken to be right; Verdicts.LookupIff covers them one lookup at a time.
- GcSafety.StepKeepsGcInv: an LN skipped as obsolete is assumed unreferenced. The write path lists a transaction's intermediate version while the slot still points at it (crates/noxu-dbi/src/cursor_impl.rs:6878-6892), until the new version is published; and an LN a checkpoint embedded in its node is listed while the slot's LSN still points at it (crates/noxu-cleaner/src/cleaner.rs:1631-1639).
- GcSafety.RunKeepsGcInv: a pass begins on a closed file, which selection from the profile sees to and the queue does not check (crates/noxu-cleaner/src/file_selector.rs:215-225); and removing a database waits for open changes of its keys and for migration attempts on them.
- GcSafety.ChosenIsPast: the first active file is truthful, so a record logged by a transaction that is not registered yet, and writes without a transaction, are not covered by the clamp.
- NameTombstone.NoResurrection: a file with tombstones is let go only if each of them is at or before the scan, which holds of files chosen from the profile (NameTombstone.ProfileRunNeverResurrects); NameTombstone.ResurrectsIff says what happens otherwise.
- NameTombstone.RunKeepsNamesInv: over the same runs.
- NameTombstone.BuildSnapshot: every surviving record is read and none is logged meanwhile; the program passes over files it cannot read and scans beside writers.
- Selection.TierIff: over summaries with obsolete bytes within the file and an ordered expired-bytes band, as they are meant to be.
- Selection.SecondLookIsWarranted: obsolete bytes within the file and an ordered expired-bytes band, as the summaries are meant to be.
- Expiration.RecoveredBandIsTheSame: hours below 2^32; beyond that Expiration.RoundTripIff applies.
- Utilization.PredictedInRange: obsolete bytes are an input between zero and the file's size instead of the floating-point estimate from the counters, and rounding is exact.
- FileProtector.FileProtector.ProtectFile: counts do not wrap at 2^32 holds, and the text naming the holders is not kept.
- CleanPass.DoClean: summaries, what is read of a file, the tree's answers, dry-run answers, shutdown and environment failures are inputs of each attempt, and the file being written and the failing deletions inputs of its end; calls other threads make to the selector between attempts are not modelled.
- CleanPass.Cleaner.DeletePendingFiles: whether the deletion of a listed file succeeds is not recorded, because the program does not look at it.
- History.StepIsCall: for steps taken in the order the cleaner and the checkpointer issue calls; the whole-system model also allows a choice while files are queued and a file handed back, which the pipeline by itself does not.
- FileScan.ProcessFile: the answers about an LN are a function of its offset, each asked for at most once, and ScanPass.ScanIsPass relates them to lookups in a changing store; the callback that retries pending LNs every so many entries is a step of the whole-system model and not part of the scan.
- Disk, log and reader I/O: a file is a list of classified entries, logging yields a fresh LSN or fails, and the crash durability of a late move is not claimed.
- The tree: descent, eviction, node liveness and the latch around a slot are inputs or single steps.
- The lock manager beyond non-blocking reads, exclusive writes, owners and waiters.
- The dry run of a two-pass file (`two_pass_check`): its answer is an input.
- Statistics, throttling, wake-ups, logging, configuration and the profile and tracker internals.
- The test-only tree lookups, the data eraser and the extinction scanner.
