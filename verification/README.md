# Multiversion store: a verified model

This project models the store's core in Dafny and proves what it keeps over all runs. The store is an
embedded key-value database: transactions under snapshot isolation over an in-memory table of version chains,
background flushes that move old versions to immutable tables and then to sorted files, leveled compaction of
these files, a write-ahead log, and bloom filters.

- **Transactions and flushes.** `Chain` and `Protocol` describe the memtable's version chains and the atomic
  steps of the program: start, write, commit, abort, roll a key back, register a flush, visit an entry in a
  snapshot, cancel, publish, collect garbage, install. `Invariant`, `ViewSteps` and `Preservation` prove an
  invariant of every interleaving of these steps, `Runs`, `Published` and `Theorems` what follows for
  transactions, against an independent record of what the committed transactions wrote (`Spec`). `MemTable`,
  `TransactionManager` and `Database` are the program's objects, changed in place; each method is proved to be
  its step. `LateFlush` and `LateRuns` follow flushes that register later than they ask, as the program lets
  them. `Tombstones` and `StaleFlush` are concrete runs in which a promise of the design fails.
- **Versions and compaction.** `Files`, `Levels`, `Lsm`, `LsmSteps` and `LsmTheorems` describe a version of
  sorted levels under flush installs and compactions side by side. `VersionGet`, `VersionPick`, `VersionBuilder`,
  `VersionSet`, `MergingIter`, `Compacting` and `BackgroundCompaction` are the program's algorithms. `Storage`
  joins both halves: transactions, flushes and compactions in one run.
- **Log.** `WalFormat`, `WalSegment` and `Wal` write pages, chunks and segments; `SegmentView` and `WalReader`
  read them back.
- **Blocks and tables.** `Varint`, `DataBlock`, `DataBlockIterator`, `FilterBlock`, `BlockTable` and
  `BlockTableReader` are the file format; `TableFiles` ties it to the files that a version consists of.
- **Filter and timestamps.** `Bloom` and `BloomFilter` are the filter with its scalar and its eight-lane probe;
  `Timestamp` is the packed timestamp with its circular order.

## What holds, and what does not

The model follows the code where code and design part, and says under which condition they do.

- A deleted key can be read again: tombstones are not carried below the memtable. `Theorems.SnapshotRead` and
  `Theorems.DeletedReadIff` say exactly when, by what flushes have published; `Tombstones.DeletedValueIsReadAgain`
  is such a run.
- A flush asks for the least running transaction before it takes the lock under which it registers. A younger
  flush may publish in between; then an older version can be read in place of a newer one, and the assertion that
  `min_xip` does not go back can fail (`StaleFlush.StaleFlushIsRead`). As long as no flush publishes after a
  younger one, snapshot reads and installs are as if no flush were late (`LateRuns.LateSnapshotRead`,
  `LateRuns.LateInstallsAscend`). Whether a flush can come to do so is decided when it registers:
  `LateRuns.GoesBackIff` says exactly when, by whether a younger one has published and half a write buffer of keys
  are left to collect; over a whole run it is a matter of what publishes when (`LateFlush.AscendIff`). `Preservation.AtomicRegister` and `Database.Database.StartFlush` show that no flush is late
  when asking and registering are one step.
- With a write buffer size below two the branch marked unreachable in publishing is reached
  (`Theorems.DuplicatePublishIff`).
- A log record that begins at the last byte of a page is not read back, the capacity check does not charge every
  chunk header, and a record that fits no segment leaves an empty segment at which reading ends;
  `Wal.LogAndRead` and `WalSegment.AcceptedStaysIff` give the conditions.
- A table lookup never finds the empty key (`BlockTableReader.LookUp`), and with no bits for its keys a filter has
  no line to look at (`BlockTable.Build`).
- The circular order of timestamps is an order on a set exactly when the set lies within half its range
  (`Timestamp.OrderIffWindow`, `Timestamp.TransitiveIff`; `Timestamp.NotTransitive` are three beyond), and more bits for a bloom filter mean fewer probes at one place
  (`BloomFilter.ProbesMonotoneIff`).

`dafny verify dfyconfig.toml` checks the whole project.

## Model

| member | source | states |
|---|---|---|
| `Theorems.SnapshotRead` | src/db.rs:185-244 | In every reachable state, for every running transaction and key, and with any steps of other threads between the three layers, the lookup through memtable, immutable tables (newest first) and sstables returns what the multiversion history prescribes; the one exception is a key with nothing prescribed (absent, or deleted for this transaction), and it is one if and only if a flush has published a value of the key before the immutable tables were read, or has published and installed one before the sstables were. When the history has no delete of the key up to the transaction's start there is no exception |
| `Theorems.DeletedReadIff` | src/db.rs:185-244 | Between steps: where nothing is prescribed, a lookup returns nothing if and only if no flush has published a value of the key so far |
| `Published.StorageReadIff` | src/db.rs:185-220 | In any run the layers below the memtable return something for a key if and only if a published value of it was there to be met; publication is noted when it happens, independently of any lookup |
| `Published.LiveRun` | src/db.rs:413-530 | In any run the first flush that published a value of a key stays among the immutable tables until it is installed, the sstables have the key from then on, and the note of that flush never changes |
| `Runs.LayeredLookup` | src/db.rs:185-244 | Over any three states of a run: a prescribed value is what the layered lookup returns; where nothing is prescribed the lookup returns what the storage layers still hold |
| `Runs.StorageHasIt` | src/db.rs:185-220 | A prescribed version that has left the chain is found below, in the immutable table or the sstable that it has reached by the time each layer is asked |
| `Runs.WalkReads` | src/memtable/hash_memtable.rs:140-182 | A chain walk returns the transaction's own write, or else the newest version at its start, as long as that version is still in the chain; otherwise it returns nothing |
| `Runs.TablesRead` | src/db.rs:185-220 | When the version to be read is the newest published one, the newest immutable table with the key, or else the sstables, hold its value |
| `Runs.PrescribedStable` | src/transaction/transaction_manager.rs:67-121 | What the history prescribes to a running transaction does not change while the counter and the history grow |
| `Runs.RunKeeps` | src/db.rs:333-539 | Every run of transaction, flush, gc and install steps keeps the invariant of the store |
| `Preservation.StepKeeps` | src/db.rs:333-539 | Each single step keeps it, for every key |
| `Preservation.InitInv` | src/transaction/transaction_manager.rs:54-65 | An empty store with a write buffer of at least two satisfies it |
| `Preservation.AtomicRegister` | src/db.rs:340-363 | In every state of the invariant, the least running transaction is one that no younger flush has passed: when a flush asks and registers in one step, this is the register step of the protocol |
| `Preservation.AloneRegister` | src/db.rs:343-346 | The same with nothing running, when a transaction is started and ended to get a timestamp |
| `StaleFlush.AskedStaysLow` | src/db.rs:340-363 | Whatever runs between asking for the least running transaction and registering, every running transaction started no earlier than the answer |
| `LateRuns.GoesBackIff` | src/db.rs:340-363 | With asking and registering in two steps, and in every state reached while each flush that registered after a younger one had published found too little: some continuation brings the flush that registers next to an install behind a younger one, where the assertion on `min_xip` (src/version.rs:413) fails, if and only if a younger flush has published before it registers and at least half a write buffer of keys are left for it to collect then |
| `LateRuns.LateSnapshotRead` | src/db.rs:185-244 | The snapshot read, with the same single exception, over all runs in which asking and registering are two steps and no flush publishes after a younger one has, with steps of others, late registrations among them, between the layers |
| `LateRuns.LateInstallsAscend` | src/version.rs:405-413 | In all these runs flushes reach the version set in ascending order, so that its assertion holds |
| `LateRuns.SimRun` | src/db.rs:340-458 | Every such run is, without the flushes that were passed and without their claims, a run in which asking and registering are one step: the same transactions, history, tables and `min_xip` |
| `LateRuns.HarmlessIsOrderly` | src/db.rs:365-458 | A run in which each flush that registers after a younger one has published finds less than half a write buffer of keys to collect is one of these: no passed flush publishes |
| `LateRuns.RunBack` | src/db.rs:365-458 | Under the condition of `LateRuns.GoesBackIff` the continuation exists: the passed flush collects, the other late ones give up, all that is published is installed, and the passed flush publishes last |
| `LateFlush.AscendIff` | src/db.rs:445-530 | Over any run, with any late flushes: every install that comes up is above the last one if and only if every flush publishes above what has been installed by then |
| `LateFlush.OnlyIfPassed` | src/db.rs:365-530 | From whatever state: a flush comes to be installed behind a younger one only if it was passed when it registered and could collect enough then, whatever is done afterwards, other late registrations included |
| `LateFlush.ClaimsShrink` | src/memtable/hash_memtable.rs:589-611 | No step of anybody gives a flush a key to collect that it could not collect before |
| `StaleFlush.StaleFlushIsRead` | src/db.rs:340-363 | A run in which a flush asks, a younger one registers and publishes, and the late one then publishes an older version that a running transaction reads in place of the newer; the install that follows would take `min_xip` back |
| `Preservation.PublishOnce` | src/db.rs:408-458 | A flush that may publish has a timestamp that was never published, is not among the immutable tables, and is above every published and every installed one |
| `Preservation.SealedFindsNothing` | src/memtable/hash_memtable.rs:563-633 | A second snapshot at a timestamp whose snapshot once ran to its end finds nothing to collect, whether that flush was published or cancelled |
| `Preservation.GcCutPoint` | src/memtable/hash_memtable.rs:665-698 | Garbage collection cuts a chain only at a node that its own published flush has claimed, and never when it has claimed none |
| `ViewSteps.ClaimIsNewest` | src/memtable/hash_memtable.rs:589-611 | What a snapshot claims is the newest version below the flush's timestamp, and no published version is newer |
| `ViewSteps.ClaimsOrdered` | src/memtable/hash_memtable.rs:589-611 | Two flushes that collect one key collect its versions in the order of their timestamps |
| `ViewSteps.WriterIsCurrent` | src/memtable/hash_memtable.rs:195-220 | A writer that meets no conflict started no earlier than any committed version of the key |
| `ViewSteps.WriteKeeps` | src/memtable/hash_memtable.rs:352-383 | Pushing an uncommitted version keeps the invariant of the key |
| `ViewSteps.CommitKeeps` | src/transaction/transaction_manager.rs:96-121 | Stamping a transaction's run of versions with the commit timestamp keeps it |
| `ViewSteps.RollbackKeeps` | src/memtable/hash_memtable.rs:532-561 | Popping an aborting transaction's run keeps it |
| `ViewSteps.SnapshotKeeps` | src/memtable/hash_memtable.rs:580-629 | Visiting one entry in a snapshot keeps it, also after cancelled flushes have left their claims |
| `ViewSteps.CancelKeeps` | src/db.rs:378-392 | Cancelling a flush keeps it although its claims stay |
| `ViewSteps.PublishKeeps` | src/db.rs:413-458 | Publishing a flush keeps it |
| `ViewSteps.CutKeeps` | src/memtable/hash_memtable.rs:665-698 | Cutting a chain at a published claim keeps it |
| `ViewSteps.InstallKeeps` | src/db.rs:483-530 | Moving the oldest immutable table to the sstables keeps it |
| `Theorems.RepeatableRead` | src/memtable/hash_memtable.rs:140-182 | Whatever other transactions and flushes do, what a running transaction is prescribed stays; the chain walk returns the same value until gc has taken the version below; an own write is always returned |
| `Theorems.AtomicVisibility` | src/transaction/transaction_manager.rs:67-121 | A running transaction sees of another one either, for every key that one wrote, its write or a newer version, or nothing on any key |
| `Theorems.FirstCommitterWins` | src/memtable/hash_memtable.rs:195-220 | Write rule over whole runs: between the start and the commit of a writer of a key no other transaction commits a write of that key |
| `Theorems.ReachableFaithful` | src/transaction/transaction_manager.rs:96-121 | The history is exactly what the committed transactions wrote, each at its commit timestamp |
| `Theorems.WriterSeesHead` | src/memtable/hash_memtable.rs:352-383 | A writer without a conflict has at the head of the chain the version that it would read, and nothing newer was ever committed |
| `Theorems.UpdateLosesNothing` | src/db.rs:254-274 | Memtable, immutable tables and sstables are read and the write goes through, with any steps of others after each of the four: no version of the key was committed since the transaction started, and what was read is what the history prescribes when the write happens, but for the one exception of a lookup |
| `Theorems.ChainShape` | src/memtable/hash_memtable.rs:352-383 | Every reachable chain is a run of uncommitted nodes of one transaction followed by committed nodes with non-increasing timestamps |
| `Theorems.RollbackRemovesOwn` | src/memtable/hash_memtable.rs:532-561 | Rolling back removes exactly the transaction's own nodes, from the head, and changes no other transaction's read |
| `Theorems.GcIsSafe` | src/memtable/hash_memtable.rs:665-710 | gc only unlinks committed versions that its own published table supersedes for every running transaction, and it never changes the outcome of a conflict check |
| `Theorems.NoReturnRun` | src/memtable/hash_memtable.rs:636-763 | A version that has left a chain never comes back in any run |
| `Theorems.DuplicatePublishIff` | src/db.rs:445-453 | A run that publishes a second table for one timestamp, the branch marked unreachable, exists if and only if the write buffer size is below two |
| `Theorems.NeverDuplicates` | src/db.rs:378-453 | With a write buffer of two or more there is no such run |
| `Theorems.InstallsAscend` | src/db.rs:483-530 | Flush timestamps reach the version set in strictly ascending order |
| `Tombstones.DeletedValueIsReadAgain` | src/memtable/hash_memtable.rs:79-84 | A run in which a deleted and committed key is read again with its old value, because tombstones are not carried below the memtable |
| `Tombstones.ReclaimsOwnIff` | src/memtable/hash_memtable.rs:665-710 | Garbage collection takes back what its own flush collected, the whole chain or all from the claimed node on, if and only if the flush timestamp fits the 32 bits of the claim |
| `MemTable.HashMemTable.GetValue` | src/memtable/hash_memtable.rs:140-182 | The pointer walk returns the record of the first visible node |
| `MemTable.HashMemTable.Get` | src/memtable/hash_memtable.rs:296-312 | The lookup of a key walks that key's chain |
| `MemTable.HashMemTable.CheckConflict` | src/memtable/hash_memtable.rs:195-220 | The check of the head decides the write-write conflict |
| `MemTable.HashMemTable.Put` | src/memtable/hash_memtable.rs:314-392 | Refused exactly on a conflict and then nothing changes; otherwise one uncommitted node is pushed |
| `MemTable.HashMemTable.Update` | src/memtable/hash_memtable.rs:394-466 | Refused exactly on a conflict; false exactly when the head has no live value; otherwise the new value comes from the head's |
| `MemTable.HashMemTable.Delete` | src/memtable/hash_memtable.rs:468-530 | As update, with a tombstone |
| `MemTable.HashMemTable.Rollback` | src/memtable/hash_memtable.rs:532-561 | The chain loses the transaction's run at its head and no other chain changes |
| `MemTable.HashMemTable.StoreTimestamps` | src/transaction/transaction_manager.rs:104-113 | Every node of the transaction in the key's chain gets the commit timestamp, and only these |
| `MemTable.HashMemTable.CollectEntry` | src/memtable/hash_memtable.rs:580-629 | A visit of one entry claims its first old version unless that is claimed, and yields it exactly then |
| `MemTable.HashMemTable.Snapshot` | src/memtable/hash_memtable.rs:563-633 | An uninterrupted snapshot yields exactly the collectable keys with their first old versions and marks exactly these |
| `MemTable.HashMemTable.GcEntry` | src/memtable/hash_memtable.rs:653-758 | An entry goes when its head is claimed by this flush; otherwise its chain is cut at the claimed node, or left |
| `MemTable.HashMemTable.Gc` | src/memtable/hash_memtable.rs:636-763 | An uninterrupted gc does this for every entry and touches nothing else |
| `TransactionManager.TransactionManager.StartTransaction` | src/transaction/transaction_manager.rs:67-87 | Hands out a start timestamp never handed out before and adds it to the running set |
| `TransactionManager.TransactionManager.NextCommitTimestamp` | src/transaction/transaction_manager.rs:99-102 | Commit timestamps come from the same counter |
| `TransactionManager.TransactionManager.Complete` | src/transaction/transaction_manager.rs:115-118 | Leaves the running set and keeps the latest completed timestamp the greatest of the completed ones |
| `TransactionManager.TransactionManager.MinXip` | src/transaction/transaction_manager.rs:181-192 | The least running start timestamp, if any |
| `TransactionManager.TransactionManager.RecordSnapshot` | src/transaction/transaction_manager.rs:207-240 | In every reachable manager state the compact snapshot reports another transaction, past or future, in progress exactly when it was running at the snapshot or starts later (see also src/transaction.rs:255-269) |
| `Database.Database.StartTransaction` | src/db.rs:780-782 | Is the start step of the protocol |
| `Database.Database.GetFromStorage` | src/db.rs:185-220 | The loop over the immutable tables from the newest, then the sstables |
| `Database.Database.Get` | src/db.rs:222-244 | The layered lookup when nobody interrupts it |
| `Database.Database.Put` | src/db.rs:246-252 | Is the write step exactly when that is enabled, and otherwise changes nothing |
| `Database.Database.UpdateInMemory` | src/db.rs:264-266 | The first step of an update is the write step with a value computed from the memtable, an error exactly on a conflict, and otherwise tells that the transaction reads nothing in the memtable |
| `Database.Database.Update` | src/db.rs:254-274 | When nobody interrupts it, the value written is computed from what all layers show; false exactly when there is no conflict and nothing to read; an error exactly on a conflict. What others do between its steps is the subject of `Theorems.UpdateLosesNothing` |
| `Database.Database.Delete` | src/db.rs:276-280 | Is the delete step exactly when that is enabled |
| `Database.Database.Commit` | src/transaction/transaction_manager.rs:89-121 | For every running transaction and in every valid state, is the commit step: the loop over the redo list stamps exactly the transaction's versions |
| `Database.Database.Abort` | src/transaction/transaction_manager.rs:146-158 | Is the abort step |
| `Database.Database.Rollback` | src/transaction/transaction_manager.rs:160-162 | Is the rollback step of one key |
| `Database.Database.RegisterFlush` | src/db.rs:353-363 | Adds the flush to the collect set exactly when none of the same age is in it; with no younger flush published since it asked, this is the register step of the protocol |
| `Database.Database.StartFlush` | src/db.rs:340-363 | Asking and registering in one go is the register step in every state of the invariant, also when a transaction has to be run to get a timestamp; nothing is registered when a flush of that age is collecting |
| `Database.Database.CollectEntry` | src/db.rs:365-371 | Is the snapshot step of one entry |
| `Database.Database.FinishCollect` | src/db.rs:378-458 | Cancels, waits or publishes exactly when the protocol allows that step |
| `Database.Database.GcEntry` | src/db.rs:462-465 | Is the gc step of one entry |
| `Database.Database.InstallLevel0` | src/db.rs:483-530 | Is the install step of the oldest published flush |
| `Storage.SnapshotRead` | src/db.rs:185-244 | The snapshot read through the files of the version set, in any joint run of transactions, flushes, installs and compactions before the lookup and between its layers, with the same single exception under the same condition |
| `Storage.FilesAnswer` | src/db.rs:213-219 | In every joint run the lookup through the files is the lookup through the installed tables |
| `Storage.InstallAccepted` | src/version.rs:405-457 | The install of the oldest published flush is accepted by the version set: its assertion that `min_xip` does not go back holds |
| `Storage.RunKeeps` | src/version.rs:405-457 | Store and version set stay in agreement over every joint run |
| `LsmTheorems.LookupIsWritten` | src/version.rs:120-143 | In every interleaving of flush installs and compactions of any levels a lookup returns what the last flush that has the key wrote |
| `LsmTheorems.FinalizeLookup` | src/version.rs:546-552 | A finalized compaction changes the lookup of no key |
| `LsmTheorems.FlushLookup` | src/db.rs:483-530 | An installed flush overlays its table and changes nothing else |
| `LsmTheorems.PickLookup` | src/version.rs:463-487 | Marking the inputs of a compaction changes no lookup |
| `LsmTheorems.LevelsStaySorted` | src/version.rs:622-654 | In every reachable version level 0 is in descending `min_xip` order and deeper levels are ascending with disjoint ranges |
| `LsmTheorems.InputsStay` | src/version.rs:463-518 | The inputs of every running compaction are in the version and marked, and no two compactions share one |
| `LsmTheorems.HullIsClear` | src/version.rs:294-305 | No file of the output level outside a compaction's inputs touches the merged key range, as long as the compaction runs |
| `LsmSteps.StepKeeps` | src/version.rs:405-552 | Every step keeps the invariant of the version set |
| `LsmSteps.FlushKeeps` | src/db.rs:483-530 | An install beside running compactions keeps it |
| `LsmSteps.PickKeeps` | src/version.rs:489-518 | Starting a compaction beside others keeps it |
| `LsmSteps.FinalizeKeeps` | src/version.rs:546-552 | Finishing a compaction beside others keeps it |
| `LsmSteps.HullApart` | src/version.rs:722-749 | The hull of the inputs of both levels has no gap: a range apart from every input is apart from the hull |
| `LsmSteps.OutsApart` | src/db.rs:669-717 | The outputs of a compaction keep off all files of their level that stay |
| `Levels.MergeRemove` | src/version.rs:628-640 | Deleting files from the merged level is merging into the level without them |
| `Levels.MergeSorted` | src/version.rs:657-703 | Disjoint sorted lists merge into a sorted list |
| `Levels.MergeHit` | src/version.rs:657-703 | A merged level answers as its two parts do |
| `VersionGet.FindInFiles` | src/version.rs:76-100 | The binary search returns the first file that does not end before the key, or none if all do |
| `VersionGet.FoundDecides` | src/version.rs:76-100 | The file found decides for its level |
| `VersionGet.GetLevel0` | src/version.rs:120-131 | Level 0 is searched from the newest file |
| `VersionGet.Get` | src/version.rs:120-143 | A lookup returns the first value on the way down the levels |
| `VersionPick.GetRange` | src/version.rs:722-749 | The range that the files span, by a scan in level 0 and by the ends in deeper levels |
| `VersionPick.OldestIs` | src/version.rs:186-225 | The level-0 selection is an oldest-first suffix that ends at the first file not taken |
| `VersionPick.Grow` | src/version.rs:227-253 | One round of growth keeps it a suffix, and a round that adds nothing leaves one that cannot grow |
| `VersionPick.GrowOpen` | src/version.rs:186-253 | Every file that a round of growth adds is free and overlaps all that were older, so growth never passes a selection that is closed |
| `VersionPick.GrowTo` | src/version.rs:227-253 | The least selection that includes a file, all older ones, and cannot grow |
| `VersionPick.FirstTried` | src/version.rs:255-313 | The one candidate tried in level 0 is its oldest free file, and it fits exactly when the level has something to compact, which needs the oldest file of all to be free |
| `VersionPick.ExpandInputs` | src/version.rs:227-253 | Refused exactly when the selection it ends with has a busy file; that selection is, in level 0, the oldest files up to the first point going newer where the next file is busy or does not overlap all of them, and in deeper levels the one it starts with |
| `VersionPick.OverlappingWhole` | src/version.rs:186-225 | In a deeper level what overlaps a range is all that overlaps its own hull |
| `VersionPick.TryFile` | src/version.rs:279-310 | A candidate is compacted exactly when the inputs it expands to and all files that these overlap one level down are free, and with these inputs; level 0 tries one candidate only |
| `VersionPick.SortedTurn` | src/version.rs:264-277 | Candidates are tried by age in level 0 and by falling size below, with all free files and no others among them |
| `VersionPick.TryPick` | src/version.rs:255-313 | A compaction is found if and only if there is one: in level 0 when the oldest file is free and all that it and the files it takes along overlap in level 1 is, with just these inputs; further down when some free file is not blocked, and then the largest such file |
| `VersionPick.PickFrom` | src/version.rs:489-518 | Of the levels that are due and have something to compact the first is compacted, level 0 only when no compaction of level 0 runs; none exactly when there is no such level |
| `VersionBuilder.MergeIters` | src/version.rs:657-703 | The merge of added files and base files in the order of the level |
| `VersionBuilder.FilterDeleted` | src/version.rs:628-640 | Drops exactly the deleted files |
| `VersionBuilder.VersionBuilder.ApplyEdit` | src/version.rs:606-620 | Sorts an edit by level |
| `VersionBuilder.VersionBuilder.SaveTo` | src/version.rs:622-654 | Every level of the new version is the base merged with the added files, without the deleted ones, with the marks |
| `VersionBuilder.FlushEdited` | src/db.rs:475-481 | The edit of a flush puts its file in front of level 0 when it is the newest |
| `VersionBuilder.PickEdited` | src/version.rs:463-487 | The edit of a pick marks exactly the inputs |
| `VersionBuilder.FinalEdited` | src/db.rs:715-726 | The edit of a finished compaction replaces its inputs by its outputs |
| `VersionSet.VersionSet.NewFileNumber` | src/version.rs:374-376 | Hands out a number not handed out before |
| `VersionSet.VersionSet.LogAndApply` | src/version.rs:405-457 | Makes the edited version current and takes over `min_xip` |
| `VersionSet.VersionSet.InstallFlush` | src/db.rs:483-530 | Is the flush step of the version set; every lookup is overlaid by the file's table |
| `VersionSet.VersionSet.RegisterCompaction` | src/version.rs:463-487 | Is the pick step: inputs marked, level 0 flagged |
| `VersionSet.VersionSet.PickCompaction` | src/version.rs:489-518 | Registers the compaction of the first level that is due and has something to compact, with inputs that a compaction may take; otherwise nothing changes |
| `VersionSet.VersionSet.FinalizeCompaction` | src/version.rs:546-552 | Is the finalize step: the outputs replace the inputs and no lookup changes |
| `MergingIter.MergedRun` | src/merging_iter.rs:28-112 | Given ascending inputs the merge yields each key of the union once, in ascending order, with its best value |
| `MergingIter.BestIsGreatest` | src/merging_iter.rs:72-112 | The best value is that of the greatest timestamp; ties and invalid timestamps go to the earliest input |
| `MergingIter.DrainSorted` | src/merging_iter.rs:28-65 | Pairs are taken in ascending order of keys, equal keys in the order of the inputs |
| `MergingIter.DrainBest` | src/merging_iter.rs:28-65 | Taking the pairs one by one loses no key's best value |
| `MergingIter.MergingIter.Refill` | src/merging_iter.rs:35-58 | Gives an input its next pair unless it holds one, and notes when it is drained |
| `MergingIter.MergingIter.NextWithTimestamp` | src/merging_iter.rs:28-65 | Takes the least pair from the first input that has it; none exactly when all inputs are drained |
| `MergingIter.MergingIter.Advance` | src/merging_iter.rs:86-109 | One round of folding the pairs of one key |
| `MergingIter.MergingIter.Next` | src/merging_iter.rs:72-112 | Yields the merge pair by pair and ends with every input drained |
| `Compacting.MakeInputIterator` | src/version.rs:520-544 | Inputs of level 0 carry their `min_xip`, others the invalid timestamp |
| `Compacting.MergedInputs` | src/version.rs:520-544 | The merge of the inputs of a compaction finds what a lookup through the inputs finds |
| `Compacting.WriteTable` | src/db.rs:682-703 | One output takes at least one pair, and the pairs written and left are those there were |
| `Compacting.WriteOutputs` | src/db.rs:669-717 | The outputs together are the merged pairs, each with its first and last key as range |
| `Compacting.PiecesOk` | src/db.rs:669-717 | Outputs cut from an ascending run form a sorted level with disjoint ranges |
| `Compacting.PiecesHit` | src/db.rs:669-717 | They answer as the run does |
| `Compacting.DescribeEdit` | src/db.rs:707-721 | The edit adds the outputs one level down and deletes all inputs |
| `Compacting.StartCompaction` | src/db.rs:652-731 | A compaction from its inputs to its edit: the outputs are ones that a finalize step accepts |
| `BackgroundCompaction.Compact` | src/db.rs:630-731 | A whole compaction, from picking through merging and writing to installing the edit, changes the lookup of no key: of the first level that is due and has something to compact the outputs replace the inputs, and nothing happens exactly when there is none |
| `Wal.LogAndRead` | src/wal.rs:174-252 | Logging any list of records, flushing and reading from position 0 returns, in order and each with the position behind it, exactly those that fit a segment and are not empty, if and only if in the segments that the list makes (`Segments`, a function of the list and the capacity) every record ends within the capacity, none begins at the last byte of a page, and no segment without records comes before one with some; the last holds whenever every record fits a segment |
| `Wal.Wal.ReadsBackIff` | src/wal.rs:174-252 | The same for a log in any state that appends, rolls and flushes can lead to: opening the files succeeds and reading gives back exactly what was appended, if and only if these conditions hold |
| `Wal.Wal.ReadsIssuedIff` | src/wal.rs:174-195 | After a flush, reading at any position that an append has ever returned gives that append's record if and only if the position is not the last byte of a page |
| `Wal.LogReadsBackIff` | src/wal/reader.rs:15-138 | For any files that hold any segments of records: opening and reading back all of them, if and only if the conditions above hold |
| `WalReader.GivesIff` | src/wal/reader.rs:86-138 | Reading on from where any record begins gives that record and all that follow, across pages and segments, and then the end, if and only if none of them begins at the last byte of a page and no empty segment comes in between |
| `WalReader.ClearIff` | src/wal/reader.rs:86-138 | That condition, which follows the reader from record to record, in terms of the segments alone |
| `WalReader.ReadLogWhole` | src/wal/reader.rs:15-138 | Opening a log and iterating to the end returns exactly the sequence of records and positions that successive reads prescribe, and an error if a read fails; it terminates on any files |
| `WalReader.OpenReader` | src/wal/reader.rs:15-64 | A reader is refused exactly when a file is longer than the capacity |
| `Wal.ItemsAreRecords` | src/wal/reader.rs:112-138 | The records among what is read are those appended, in order over all segments, but for empty ones |
| `Wal.FileFits` | src/wal/segment.rs:317-332 | A file with its padding is within the capacity if and only if the stream in it is |
| `WalReader.RecordReadIff` | src/wal/reader.rs:86-105 | A record is read back from its position if and only if that is not the last byte of a page |
| `SegmentView.ReadsBackIff` | src/wal/segment.rs:346-429 | The same within a segment file, for a record split into any number of chunks |
| `SegmentView.MissesPage` | src/wal/segment.rs:369-379 | From the last byte of a page the reader goes a page too far and does not return the record |
| `SegmentView.ReadBody` | src/wal/segment.rs:388-426 | Chunks with correct checksums are put together to the record, from anywhere in it |
| `SegmentView.ReadsEnd` | src/wal/segment.rs:346-379 | Behind the last record, also behind zeros to the end of the page, there is nothing |
| `SegmentView.ReadRecord` | src/wal/segment.rs:346-429 | The loop computes what the recursive reading of the file gives, with the same errors |
| `WalReader.WalReaderIterator.Next` | src/wal/reader.rs:128-137 | The next record; the position moves behind it exactly when there is one |
| `WalReader.WalReaderIterator.Find` | src/wal/reader.rs:86-105 | The record at a position, going on to the next segment when this one has no more |
| `WalFormat.EncodeEnd` | src/wal/segment.rs:173-240 | A record takes exactly the bytes that its padding, chunk headers and data need |
| `WalFormat.PaddedEncode` | src/wal/segment.rs:242-276 | Padding written early by a flush is the padding that the next record would have written |
| `WalFormat.StaysInsideIff` | src/wal/segment.rs:290-305 | A record ends within the capacity if and only if its data is no longer than the room, however it is chunked |
| `WalSegment.AcceptedStaysIff` | src/wal/segment.rs:290-305 | A record that the capacity check accepts stays within the segment if and only if it also fits the header that the check does not charge; data a header shorter than the check allows always stays |
| `WalSegment.AcceptedRunsOver` | src/wal/segment.rs:290-305 | An accepted record that runs over the capacity |
| `WalSegment.RemainingIs` | src/wal/segment.rs:290-305 | The check and the room differ by at most one header |
| `WalSegment.Segment.Append` | src/wal/segment.rs:173-240 | Adds exactly the record's encoding to the logical stream and returns the position behind it; refused exactly by the capacity check, and then nothing changes |
| `WalSegment.Segment.NextChunk` | src/wal/segment.rs:187-236 | One chunk, on a new page if this one has no room, as long as the page and the capacity allow |
| `WalSegment.Segment.FlushPage` | src/wal/segment.rs:242-276 | File and unflushed bytes together stay the logical stream, but for the zeros to the end of a page that is given up |
| `WalSegment.Segment.CurrentLsn` | src/wal/segment.rs:282-284 | The length of the logical stream, from the segment's start |
| `WalSegment.Segment.FlushedLsn` | src/wal/segment.rs:286-288 | The length of the file, from the segment's start |
| `Wal.Wal.Append` | src/wal.rs:174-195 | Appends the record, in a new segment if this one is full, and returns as start and end the log positions at which `Wal.Wal.ReadsIssuedIff` reads it and the one behind it; no record is appended exactly when it fits no segment. The log stays one without empty segments in between exactly when the record fits or the segment left behind has records; it stays readable exactly when the record ends within the capacity and does not begin at the last byte of a page |
| `Wal.Wal.AppendAll` | src/wal.rs:197-218 | Appends exactly the records that fit a segment, in order, and passes over the others; when all fit, no empty segment is left in between; in a new log the records are in the segments that `Segments` gives |
| `Wal.Wal.MakeRoom` | src/wal.rs:179-190 | Rolls over when the segment is full and afterwards has room for every record that fits an empty segment |
| `Wal.Wal.CloseSegment` | src/wal.rs:184-187 | The closed segment's file holds its records |
| `Wal.Wal.Flush` | src/wal.rs:232-242 | Afterwards the file holds the whole stream, or all up to the position asked for |
| `Wal.Wal.FilesHold` | src/wal.rs:184-242 | After a flush every segment's file holds that segment's records, and at most padding behind them |
| `DataBlock.CommonIs` | src/block/data_block.rs:243-250 | The shared length is that of the longest common prefix, and of no other |
| `DataBlock.BuiltGood` | src/block/data_block.rs:240-281 | What is built from pairs has these pairs, every prefix comes from the key before, and every restart offset is the start of an entry without a prefix |
| `DataBlock.BuiltSpaced` | src/block/data_block.rs:240-281 | Restarts are exactly the restart interval apart; with interval 0 every entry is one and the first counts twice |
| `DataBlock.SharedLen` | src/block/data_block.rs:243-250 | The loop computes it |
| `DataBlock.DataBlockBuilder.Add` | src/block/data_block.rs:240-281 | Buffer, restarts, counter and last key are those of a block with one more pair |
| `DataBlock.DataBlockBuilder.Seal` | src/block/data_block.rs:283-296 | The bytes of the block of the pairs added: entries, restart offsets in 32 bits, and their number |
| `DataBlock.DataBlockBuilder.EmptyIs` | src/block/data_block.rs:225-231 | The builder is empty exactly when no pair was added, and its full length is that of the sealed block |
| `Varint.DecodeBack` | src/block/data_block.rs:88-105 | A variable-length number is read back, with its length |
| `DataBlockIterator.EntryBack` | src/block/data_block.rs:88-111 | The lengths, the tail of the key and the value of an entry are read back from its bytes |
| `DataBlockIterator.ImageIsBlock` | src/block/data_block.rs:58-86 | A sealed block of less than 4 GiB has its number of restarts and every restart offset where the reader looks |
| `DataBlockIterator.DataBlockIterator.Next` | src/block/data_block.rs:182-195 | Returns the next pair with its key rebuilt from the prefix; at the end none, and the iterator is back at the start |
| `DataBlockIterator.DataBlockIterator.FindRestart` | src/block/data_block.rs:131-147 | The binary search ends at the last restart whose key is less than the target, or at the first restart |
| `DataBlockIterator.DataBlockIterator.Seek` | src/block/data_block.rs:128-156 | Stops behind the first entry that is not less than the target, or at the start when all are less |
| `DataBlockIterator.DataBlockIterator.Current` | src/block/data_block.rs:158-173 | The pair that the iterator is behind, except that an empty key counts as none |
| `DataBlockIterator.All` | src/block/data_block.rs:182-195 | Sealing and then iterating yields exactly the pairs added, in order |
| `FilterBlock.FullFilterBlockBuilder.Seal` | src/block/filter.rs:43-49 | A filter for all keys added, and no bytes when there are none; a lookup in it stays inside if and only if there are bits for the keys or no keys |
| `FilterBlock.FullFilterBlockReader.KeyMayMatch` | src/block/filter.rs:64-68 | In a filter with lines, every key that was added may match |
| `BlockTable.BlockTableBuilder.WriteBlock` | src/table/block_table.rs:87-107 | Writes a block and its checksum at the position returned |
| `BlockTable.BlockTableBuilder.FinishBlock` | src/table/block_table.rs:140-144 | Writes the block in the making, if it has pairs, and indexes it under its last key |
| `BlockTable.BlockTableBuilder.Add` | src/table/block_table.rs:136-196 | One more pair, in a new block exactly when the current one has no room for it; data, index, filter and last key stay in step |
| `BlockTable.BlockTableBuilder.Finish` | src/table/block_table.rs:198-218 | The file is data blocks, filter, index of last keys and footer for exactly the pairs added |
| `BlockTable.Build` | src/table/block_table.rs:188-218 | A table file of any pairs, block size, restart interval and filter density; a lookup stays inside its filter if and only if the density is not 0 or there are no pairs |
| `BlockTable.PointerBack` | src/table/block_table.rs:475-486 | An index entry's pointer is read back |
| `BlockTableReader.FooterBack` | src/table/block_table.rs:292-339 | The footer is read back; a filter without bytes is none |
| `BlockTableReader.BlockBack` | src/table/block_table.rs:341-359 | A block is read back with its checksum verified |
| `BlockTableReader.FileHasParts` | src/table/block_table.rs:198-218 | Every block, the filter, the index and the footer are in the file where the pointers say |
| `BlockTableReader.OpenBack` | src/table/block_table.rs:268-290 | Opening gives the index and the filter that were written |
| `BlockTableReader.LexIsKeyOrder` | src/table/block_table.rs:400-402 | The order of byte strings is a strict total order that begins with the empty string |
| `BlockTableReader.IndexAscends` | src/table/block_table.rs:136-144 | The index of ascending pairs is ascending |
| `BlockTableReader.OnlyThere` | src/table/block_table.rs:471-486 | A pair with the key can only be in the block that the index search finds |
| `BlockTableReader.FindIn` | src/table/block_table.rs:488-505 | A search in one block answers as its pairs do |
| `BlockTableReader.BlockTableReader.FindBlock` | src/table/block_table.rs:471-486 | The first block that does not end before the key, or none |
| `BlockTableReader.BlockTableReader.Get` | src/table/block_table.rs:455-506 | Where a lookup stays inside the filter, every key gets the answer that the pairs give, by way of filter, index and block; the empty key is never found |
| `BlockTableReader.LookUp` | src/table/block_table.rs:392-432 | On a file built from ascending pairs, with bits in the filter, a lookup agrees with the pairs if and only if the key is not empty or is in no pair |
| `BlockTableReader.BlockTableIterator.Next` | src/table/block_table.rs:607-630 | The next pair across blocks; after the last one none, and then the first one again |
| `BlockTableReader.Scan` | src/table/block_table.rs:607-630 | Going through a table yields exactly the pairs added, in order |
| `TableFiles.WriteRun` | src/db.rs:542-607 | The file written for a run of pairs is a table of these pairs, encoded, for any filter density; lookups stay inside its filter if and only if the density is not 0 or there are no pairs |
| `TableFiles.GetInFile` | src/version.rs:114-118 | A lookup in the bytes of a file finds what the file's run of pairs has, for any encoding that keeps order and has no empty key; with this the files of the version set are the bytes that the table builder writes |
| `TableFiles.ScanFile` | src/table/block_table.rs:607-630 | Going through the bytes of a file gives the file's run |
| `TableFiles.AnswersFind` | src/version.rs:114-118 | What the encoded pairs answer for an encoded key is what the run has for the key |
| `Bloom.MatchScalar` | src/block/filter_policy.rs:225-237 | The scalar loop tests the line's bit for every probe |
| `Bloom.MatchVector` | src/block/filter_policy.rs:162-219 | The eight-lane loop gives the answer of the scalar one for every hash, probe count and line |
| `Bloom.LaneIs` | src/block/filter_policy.rs:187-207 | A selected lane tests exactly the bit of its probe, by the word permutation, the blend of both halves and the shifted mask; a lane that is not selected passes |
| `Bloom.LaneProbe` | src/block/filter_policy.rs:172-185 | The precomputed multipliers put the hash of the j-th probe into lane j |
| `Bloom.EightSteps` | src/block/filter_policy.rs:215-216 | The multiplier 0xab25f4c1 is eight probes at once |
| `Bloom.AllSetSplit` | src/block/filter_policy.rs:183-217 | Eight probes and the rest from the eighth on are all probes |
| `BloomFilter.ProbesMonotoneIff` | src/block/filter_policy.rs:37-54 | More bits never mean fewer probes but for the dip right above 25501, and exactly there |
| `BloomFilter.SpaceIs` | src/block/filter_policy.rs:56-64 | The space is whole lines and one byte; there is a line if and only if there are keys and bits for them |
| `BloomFilter.LineInside` | src/block/filter_policy.rs:67-70 | The line of a hash is aligned, and lies inside the data if and only if the data has lines |
| `BloomFilter.AddHashPrepared` | src/block/filter_policy.rs:73-81 | Sets exactly the probed bits of one line |
| `BloomFilter.FastLocalBloomBitsBuilder.AddAllEntries` | src/block/filter_policy.rs:83-122 | Through the buffer of eight slots every hash is added once: exactly the bits that some hash probes are set, and the byte behind the lines is not touched |
| `BloomFilter.FastLocalBloomBitsBuilder.Seal` | src/block/filter_policy.rs:131-145 | The lines of exactly the probed bits and the number of probes |
| `BloomFilter.FastLocalBloomBitsReader.MayMatch` | src/block/filter_policy.rs:241-253 | Probes the line of the hash, inside the data |
| `BloomFilter.PassesIff` | src/block/filter_policy.rs:241-253 | A hash passes if and only if every bit it probes is probed by some hash added |
| `BloomFilter.NoFalseNegatives` | src/block/filter_policy.rs:241-253 | Every hash added passes |
| `Timestamp.Packed` | src/transaction.rs:147-163 | Type and counter are read back from a packed timestamp |
| `Timestamp.Repacked` | src/transaction.rs:147-163 | Packing the fields of any 64-bit value gives the value |
| `Timestamp.CmpIs` | src/transaction.rs:100-121 | Timestamps of one type compare by the circular distance of their counters |
| `Timestamp.IssueOrder` | src/transaction.rs:100-121 | The order is that of issue, across the wrap, if and only if the distance is at most half the range |
| `Timestamp.AntisymmetryIff` | src/transaction.rs:100-121 | Reading a comparison backwards flips it, except at exactly half the range |
| `Timestamp.WindowOrder` | src/transaction.rs:100-121 | Within a window of less than half the range the order is that of the distance from its base |
| `Timestamp.OrderIffWindow` | src/transaction.rs:100-121 | On a set of timestamps of one type the comparison is antisymmetric and transitive if and only if the set lies within less than half the range from some base |
| `Timestamp.TransitiveIff` | src/transaction.rs:100-121 | Of three timestamps, each less than the next, the first is less than the last if and only if the two steps together go no further than half the range |
| `Timestamp.InvalidFirst` | src/transaction.rs:101-107 | The invalid timestamp comes first |
| `Timestamp.Normalized` | src/transaction.rs:173-179 | Normalizing gives the commit timestamp of the same counter, invalid exactly when the counter is 0 |
| `Timestamp.Inc` | src/transaction.rs:181-193 | The loop ends with the next valid value of the same type |
| `Timestamp.Dec` | src/transaction.rs:195-207 | The loop ends with the previous valid value of the same type |
| `Timestamp.SuccIsNext` | src/transaction.rs:181-207 | Stepping forward goes up, and stepping back undoes it |

## Left out

- Storage.RunKeeps: the joint run with the version set is one in which asking and registering are one step; runs with late flushes are those of `LateRuns`, without the files.
- LateRuns.GoesBackIff: the exact condition is that of the failing assertion. Of reads it is stated that they are right until a flush publishes after a younger one, and by a run that they can be wrong then; that they are wrong in every such run is not so, since the newer version may still be found above the older one.
- Storage.SnapshotRead: asks for a write buffer size of at least two, because below two a second table can be published for one timestamp (`Theorems.DuplicatePublishIff`).
- DataBlockIterator.ImageIsBlock: speaks of blocks below 4 GiB, because restart offsets and their number are truncated to 32 bits.
- BlockTableReader.LookUp: leaves out tables with pairs and no bits for their filter, where the program looks outside the filter; speaks of tables whose blocks are below 4 GiB, for the same reason, and of pairs added in ascending order, as flushes and compactions add them.
- TableFiles.GetInFile: takes any encoding of keys that keeps their order and has no empty key; bincode and its order are not modelled.
- Storage.Holds: is the content of a file as pairs; that a table file holds these pairs in its bytes is stated by `TableFiles`, one file at a time, not inside the joint run.
- Wal.Wal.Append: is an error where the program panics, on a record that fits no segment.
- BloomFilter.NoFalseNegatives: speaks of filters with at least one line; what the builder makes has one exactly when there are keys and bits for them (`BloomFilter.SpaceIs`).
- Database.Database.Update: is one uninterrupted run of its steps; with steps of others in between see `Theorems.UpdateLosesNothing`.
- Granularity: stamping at commit is one step, as it is under the lock; rolling one key back, one snapshot visit and the collection of one entry are one step each, so the retry loops of compare-and-swap inside them and epoch reclamation of unlinked nodes are not modelled.
- Fast-commit transactions: only their compact snapshot is modelled, not the status table or the visibility of their versions.
- Flush timestamps are below 2^32 in the protocol, as the 32-bit claim needs (`Tombstones.ReclaimsOwnIff`); the order of timestamps inside the store is that of integers, `Timestamp` treats the wrap by itself.
- Log records of transactions, replay of the log, checkpoints and the manifest.
- Reopening a log segment or a log for appending; unexpected names and missing files in the log directory.
- Caches of blocks, tables and files, and the handles of readers.
- Errors of file operations, and threads that stop in the middle.
- The compaction score: which levels are due is a parameter; so are the sizes of written files and the places where an output is full.
- Resetting and seeking in a merging iterator, and iterating backwards.
- CRC-32 and the key hash are uninterpreted functions; keys of transactions and versions are integers, keys of blocks are byte strings with any order that is given.
- Damaged blocks and tables: what is proved of reading holds for what the builders write; a log reader's errors are modelled.
- The specialization for keys that are byte strings already: the index builder then takes raw keys and the table builder serialized ones; the model has one encoding for both.
- Option setters, the thread pool, tracing, the benchmark and memory accounting.
