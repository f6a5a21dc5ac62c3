# Checkpoint rewrite for backup, in Dafny

This project models the checkpoint-rewrite pass of the TAE storage engine,
`pkg/vm/engine/tae/logtail/backup.go`. A backup is cut at a timestamp `ts`.
The work is split between two entry points.

`ReWriteCheckpointAndBlockFromKey` trims a checkpoint, and every object it
names, down to what was committed by `ts`. It runs in five phases:

1. The checkpoint is loaded.
2. Two indexing loops group the rows of the CN-insert table and of the
   live-insert table into a map `object name -> block number -> block`.
   Each block remembers the rows that point at it. A CN-insert row whose
   meta block is in the soft-delete set is skipped whole, its delta
   location included; the live-insert loop does not consult the set. An
   appendable block is linked to its tombstone.
3. The trim pass loads every block that can change. Tombstone rows
   committed after `ts` are dropped. An appendable data block is cut before
   its first row committed after `ts`. Each object is flagged when it
   changed.
4. When some object changed, every object takes one of five branches, in
   the order the map hands them out:
   - untouched;
   - rewritten in place, with one retry after a "file already exists"
     clash;
   - relocated;
   - merged, which queues its blocks as pending entries;
   - promoted, which writes an appendable block as a new object
     `num + 1000` and queues it.
5. When entries were queued, the live-insert table is rebuilt with each
   pending entry appended exactly once, as a copy of the CN row it names.
   An entry that carries a block (a merged block) then has every CN row of
   that block deleted from the delete side; the CN row of a promoted entry
   stays. The delete side is compacted, the per-table row ranges are
   recomputed, and the checkpoint is written.

`LoadCheckpointEntriesFromKey` lists the locations a checkpoint names. It
also adds the block of every CN-insert meta location to the soft-delete set
that the next rewrite reads.

## How the model is organised

- **Value types.** Locations, rows, batches and blocks are datatypes
  (`types.dfy`). A batch is a width and a sequence of rows. Go's mutable
  `objectsData` map of pointers becomes a map value that each step returns.
  A block's tombstone pointer becomes the key of that tombstone's block.
- **The checkpoint.** The tables that the rewrite updates in place live in
  a class, `Checkpoint.CheckpointData`. Its fields are:
  - the live-insert table and its attribution table;
  - the CN table, the delete attribution table and the delete table, each
    with pending deletes;
  - the recorded locations;
  - the row ranges.

  Its methods are the in-place updates the source performs: set a location
  column, delete a row, compact, replace the insert tables, record ranges.
- **Loops and their specifications.** The loops that build or update
  state are methods with a `while` loop. The writer loop
  (`Files.WriteEach`), the block sort (`Rewrite.SortedKeys`) and the column
  copy (`Rewrite.DropTrailingColumns`) compute values and are a recursive
  function and comprehensions instead. Each method is proved against a
  reference function or predicate:

  | method | proved against |
  |---|---|
  | indexing | `CNRowsFor`, `InsertRowsFor` (rows), `CNOriginFor`, `InsertOriginFor` (block fields), `CNFlagsFor`, `InsertFlagsFor` (object flags), `CNLinkFor` (tombstones) |
  | trim | `Kept`, `TombstoneTrimmed`, `DataTruncated` |
  | delete application | `DeleteApplied` |
  | relocation | `Relocated` |
  | queue emission | `Plan`, `PlanBlk` |
  | table offsets | `Ranges` |
  | location listing | `RowLocations` |

  Lemmas then state what those functions mean.
- **The object loop.** It is the fold `RewriteLoop.RewriteFold` over an
  explicit object order. `ReWrite` takes its order from `Enumerate`, which
  promises only some order of the map's keys.
- **Reconciliation.** It is specified as a whole by
  `ReconcileTables.Reconciled`.
- **`updateBlockMeta`.** It is the record update `Reconcile.UpdatedBlkMeta`
  and `Reconcile.UpdatedTxn`. It is applied by `EntryBlk` and `EntryTxn` to
  every queued entry that has a new location.
- **Failures.** Go panics are `Err(Panic(reason))`, carrying the reason
  (commit before the watermark, appendable insert row, more than two
  blocks, nil batch, index out of range). Errors from `fileservice`, the
  block reader and the block writer are I/O faults. Timestamp decoding
  failures are decode faults.
- **I/O as parameters.** The block loader and the object-meta loader are
  the total functions of `Trim.Storage`. The writer's layout (`Sync`'s
  block list and extent) and the sort are fields of `Rewrite.Io`. The file
  services are values that record which objects exist. `WriteTo` is a
  function parameter.

What the proofs show about the code:

- **Descriptors come from the first row, tombstones from the last.** A
  block takes its type, appendable flag, tid and block id from the first
  row that creates it, CN rows before live-insert rows, and its tombstone
  from the last appendable CN row that links it (`ObjectIndex.IndexedCNOrigin`,
  `ObjectIndex.IndexedInsertOrigin`, `ObjectIndex.IndexedTombstone`).
- **The unsorted branch is never reached.** Every entry the object loop
  queues with a new location carries no block. This is part of
  `RewriteLoop.WellQueued`, which the loop keeps. So the `sort = false`
  branch of reconciliation (backup.go:651-655 and 678-682) is never taken
  for these entries.
- **Promotion and merge ignore the change flag.** They run on a delete
  batch whose block 0 holds data even when the trim pass flagged it. This
  is what the guards at backup.go:457-459 and 499-501 say (`Rewrite.PathOfSpec`).

## Model

| member | source | states |
|---|---|---|
| ObjectIndex.AddBlockToObjectData | pkg/vm/engine/tae/logtail/backup.go:98-139 | afterwards the block `(name, id)` of the location exists; a new object takes the given delete-batch and appendable flags; a new block has `sortKey = MaxUint16`, the given location, type, tid and block id and lists the row on the side `isCnBatch` picks; an existing block gets the row appended on that side; every other object and block is unchanged |
| ObjectIndex.LinkTombstone | pkg/vm/engine/tae/logtail/backup.go:401-403 | the block of `metaLoc` points at the tombstone block of `deltaLoc`; no object or block is added or removed and nothing else changes |
| ObjectIndex.AddBlockEffect | pkg/vm/engine/tae/logtail/backup.go:98-139 | adding a block grows exactly the row list of that block on that side by the row, and no other list; a block it creates has the call's type, appendable flag, tid and block id and no tombstone; an existing block keeps its fields and tombstone; a new object takes the call's delete-batch and appendable flags |
| ObjectIndex.LinkTombstoneEffect | pkg/vm/engine/tae/logtail/backup.go:401-403 | linking adds no block or object and changes no row list, block field or object flag; only the tombstone of the block of `metaLoc` changes, to the block of `deltaLoc` |
| ObjectIndex.AddBlockCollected | pkg/vm/engine/tae/logtail/backup.go:98-139 | adding a block keeps every object filed under its own name and unchanged, and every block filed under its own number at its own location, without sort key or loaded data, and with a tombstone, if any, that is a block of the map |
| ObjectIndex.IndexCNRowStep | pkg/vm/engine/tae/logtail/backup.go:385-404 | one CN row with its delete-transaction tid: a soft-deleted meta location records and creates nothing; otherwise the row is recorded under its delta and its meta location; a block it creates is a tombstone block (delta, added first) or a data block (meta) with the row's appendable flag, tid and block id; a new object is a delete batch appendable as the row; an appendable row with a delta location links its meta block to the delta block, and no other tombstone changes |
| ObjectIndex.IndexCNDelta | pkg/vm/engine/tae/logtail/backup.go:391-394 | the row is recorded on the delete side of the block of its delta location, if any, and nowhere else; a block it creates is a tombstone block with the row's appendable flag, tid and block id; a new object is a delete batch appendable as the row; no tombstone changes |
| ObjectIndex.IndexCNMeta | pkg/vm/engine/tae/logtail/backup.go:396-404 | the row is recorded on the delete side of the block of its meta location, if any, and nowhere else; a block it creates is a data block with the row's appendable flag, tid and block id; a new object is a delete batch appendable as the row; when the row is appendable and has a delta location the meta block's tombstone becomes the delta block, and no other tombstone changes |
| ObjectIndex.IndexInsertRowStep | pkg/vm/engine/tae/logtail/backup.go:415-423 | one live-insert row is recorded on the insert side of the blocks of its meta and delta locations and nowhere else; a block it creates is a data block (meta, added first) or a tombstone block (delta), not appendable, with the row's insert-transaction tid and block id; a new object is neither a delete batch nor appendable; no tombstone changes |
| ObjectIndex.IndexCNTable | pkg/vm/engine/tae/logtail/backup.go:375-405 | panics exactly when some CN row was committed before `ts`; otherwise every block lists, in ascending order, exactly the CN rows that point at it and are not soft-deleted, has the fields its first such row gives (`CNOriginFor`) and the tombstone its last linking row names (`CNLinkFor`), and every object has the flags of its first such row (`CNFlagsFor`) |
| ObjectIndex.IndexInsertTable | pkg/vm/engine/tae/logtail/backup.go:407-424 | panics exactly when some live-insert row is appendable; otherwise every block gains, in ascending order, exactly the insert rows that point at it; a new block has the fields its first such row gives (`InsertOriginFor`), a new object is neither a delete batch nor appendable (`InsertFlagsFor`), and no tombstone changes |
| ObjectIndex.IndexCheckpoint | pkg/vm/engine/tae/logtail/backup.go:375-424 | both loops: the CN panic, then the insert panic, else an `Indexed` map: exactly the rows pointing at each block; each block created by its first row, CN rows before insert rows; each object flagged by its first row; each tombstone from the last linking CN row |
| ObjectIndex.IndexedRows | pkg/vm/engine/tae/logtail/backup.go:375-424 | in the index, a row is listed by a block exactly when it points at it (not soft-deleted, for CN rows); the lists are ascending; a block exists exactly when some row points at it |
| ObjectIndex.IndexedSoftDeletes | pkg/vm/engine/tae/logtail/backup.go:385-389 | a CN row whose meta location is soft-deleted is listed by no block; any other CN row is listed by the blocks of its meta and delta locations |
| ObjectIndex.CNRowsForMember | pkg/vm/engine/tae/logtail/backup.go:375-405 | the reference list of CN rows for a block holds a row exactly when that row points at the block and is not soft-deleted |
| ObjectIndex.CNRowsForSorted | pkg/vm/engine/tae/logtail/backup.go:375-405 | that list is ascending and holds only visited rows |
| ObjectIndex.InsertRowsForMember | pkg/vm/engine/tae/logtail/backup.go:407-424 | the reference list of insert rows for a block holds a row exactly when that row points at the block |
| ObjectIndex.InsertRowsForSorted | pkg/vm/engine/tae/logtail/backup.go:407-424 | that list is ascending and holds only visited rows |
| ObjectIndex.CNOriginForFirst | pkg/vm/engine/tae/logtail/backup.go:375-405 | the reference fields of a block are those the first collected CN row pointing at it gives: tombstone type when the row's delta location is the block, data otherwise, and the row's appendable flag, tid and block id |
| ObjectIndex.CNOriginForNone | pkg/vm/engine/tae/logtail/backup.go:375-405 | there are no reference fields exactly when no collected CN row points at the block |
| ObjectIndex.CNLinkForLast | pkg/vm/engine/tae/logtail/backup.go:396-404 | the reference tombstone of a block is the delta location of the last collected appendable CN row whose meta location is the block and which has a delta location |
| ObjectIndex.CNLinkForNone | pkg/vm/engine/tae/logtail/backup.go:396-404 | there is no reference tombstone exactly when no such row exists |
| ObjectIndex.CNFlagsForFirst | pkg/vm/engine/tae/logtail/backup.go:375-405 | the reference flags of an object are those of the first collected CN row with a location in it: a delete batch, appendable as that row |
| ObjectIndex.CNFlagsForNone | pkg/vm/engine/tae/logtail/backup.go:375-405 | there are none exactly when no collected CN row has a location in the object, and any there are mark a delete batch |
| ObjectIndex.InsertOriginForFirst | pkg/vm/engine/tae/logtail/backup.go:407-424 | the reference fields from the live-insert rows are those the first row pointing at the block gives: data type when its meta location is the block, tombstone otherwise, not appendable, and the row's tid and block id |
| ObjectIndex.InsertOriginForNone | pkg/vm/engine/tae/logtail/backup.go:407-424 | there are none exactly when no live-insert row points at the block |
| ObjectIndex.InsertFlagsForSome | pkg/vm/engine/tae/logtail/backup.go:407-424 | the reference flags from the live-insert rows are "not a delete batch, not appendable" exactly when some row has a location in the object, and none otherwise |
| ObjectIndex.IndexedCNOrigin | pkg/vm/engine/tae/logtail/backup.go:375-405 | in the index, a block whose first collected CN row pointing at it is row `j` exists and has that row's type (tombstone when its delta location is the block), appendable flag, block id and delete-transaction tid |
| ObjectIndex.IndexedInsertOrigin | pkg/vm/engine/tae/logtail/backup.go:375-424 | a block that no collected CN row points at takes its fields from the first live-insert row pointing at it: data for its meta location, tombstone otherwise, not appendable, that row's block id and insert-transaction tid |
| ObjectIndex.IndexedTombstone | pkg/vm/engine/tae/logtail/backup.go:396-404 | a block has no tombstone exactly when no CN row links it, and otherwise the delta location of the last CN row that links it |
| ObjectIndex.IndexedObjectFlags | pkg/vm/engine/tae/logtail/backup.go:98-116 | an object exists exactly when some collected CN row or live-insert row has a location in it; it is a delete batch exactly when some collected CN row has, and then appendable as the first such row; otherwise it is not appendable |
| ObjectIndex.IndexedOneAppendableRow | pkg/vm/engine/tae/logtail/backup.go:375-405 | one appendable CN row whose meta and delta blocks differ: the meta block is an appendable data block with the row's tid and block id, linked to the delta block, a tombstone block with no tombstone; its object is an appendable delete batch |
| Trim.CommittedExclusive | pkg/vm/engine/tae/logtail/backup.go:168-175 | no row is both kept and dropped: committed by `ts` and after `ts` exclude each other |
| Trim.KeptSpec | pkg/vm/engine/tae/logtail/backup.go:162-176 | the kept offsets are exactly the rows committed by `ts`, strictly ascending |
| Trim.ScanTombstone | pkg/vm/engine/tae/logtail/backup.go:162-176 | the tombstone row loop returns the kept offsets and whether some row was committed after `ts`; it fails with the first timestamp that does not decode |
| Trim.TrimTombstone | pkg/vm/engine/tae/logtail/backup.go:157-179 | a trimmed tombstone keeps exactly its rows committed by `ts`, in order, and is flagged exactly when some row was committed after `ts` |
| Trim.TruncateData | pkg/vm/engine/tae/logtail/backup.go:189-206 | an appendable data batch is cut before its first row committed after `ts` and flagged, or kept whole and unflagged when no row is; it fails exactly when a timestamp before that row fails to decode |
| Trim.SortKeyOf | pkg/vm/engine/tae/logtail/backup.go:185-188 | a loaded data block takes the header's sort key when appendable, otherwise `MaxUint16` |
| Trim.TrimBlock | pkg/vm/engine/tae/logtail/backup.go:150-210 | a non-appendable data block is never loaded or changed; a tombstone is trimmed; an appendable data block is truncated and takes its sort key; it fails exactly when a load or a needed decode fails |
| Trim.TrimmedBlockUnique | pkg/vm/engine/tae/logtail/backup.go:150-210 | the trim outcome of a block is determined by the block, the storage and `ts`, so the map order does not matter |
| Trim.TrimmedBlockChanged | pkg/vm/engine/tae/logtail/backup.go:157-206 | a loaded block is flagged exactly when one of its rows was committed after `ts`; an unflagged block holds its loaded batch unchanged |
| Trim.TrimFile | pkg/vm/engine/tae/logtail/backup.go:149-212 | in any order of blocks, every block of the object is trimmed, and the object is flagged exactly when some block was; it fails exactly when some block fails to trim |
| Trim.TrimObjectsData | pkg/vm/engine/tae/logtail/backup.go:141-215 | in any order of objects, every object is trimmed, and `isCkpChange` holds exactly when some object is flagged; it fails exactly when some block fails |
| ApplyDelete.DeletedOffsets | pkg/vm/engine/tae/logtail/backup.go:221-236 | the offsets to delete are exactly those below the row count that a tombstone row of block `id` names |
| ApplyDelete.ApplyDelete | pkg/vm/engine/tae/logtail/backup.go:217-239 | no tombstone batch: the data is returned unchanged; otherwise exactly the rows named by tombstone rows of block `id` are removed, the rest keep their order, and rows of other blocks are ignored |
| Containers.SurvivorsSpec | pkg/vm/engine/tae/logtail/backup.go:237 | the surviving offsets of `AntiShrink` are exactly the offsets not deleted, ascending, and there are as many as rows minus deleted rows |
| Containers.WithoutSurvivors | pkg/vm/engine/tae/logtail/backup.go:237 | removing rows keeps exactly the surviving rows in their order |
| Containers.Shrink | pkg/vm/engine/tae/logtail/backup.go:177-179 | `Shrink(deleteRow)` keeps the selected rows in the order listed, with the same width |
| Containers.Window | pkg/vm/engine/tae/logtail/backup.go:199 | `windowCNBatch(bat, 0, v)` keeps the first `v` rows |
| Containers.AntiShrink | pkg/vm/engine/tae/logtail/backup.go:237 | `AntiShrink(deleteRow)` removes the listed rows |
| Containers.AppendValToBatch | pkg/vm/engine/tae/logtail/backup.go:284-293 | appending row `row` of `src` leaves `dst` as a prefix followed by that row; the first reconciliation pass copies each live row with it |
| Containers.Table.Compact | pkg/vm/engine/tae/logtail/backup.go:704-706 | compacting clears the marks and keeps exactly the unmarked rows, in order, so the table shrinks by the number of marked rows |
| Checkpoint.CheckpointData.UpdateInsertLoc | pkg/vm/engine/tae/logtail/backup.go:579-600 | one live-insert row and its attribution row get the new location in the chosen column; all other rows and tables are unchanged |
| Checkpoint.CheckpointData.UpdateCNLoc | pkg/vm/engine/tae/logtail/backup.go:601-624 | one CN row and its delete attribution row get the new location in the chosen column; all other rows and tables are unchanged |
| Checkpoint.CheckpointData.DeleteCNRow | pkg/vm/engine/tae/logtail/backup.go:695-699 | the row is marked deleted in the CN, delete attribution and delete tables; nothing else changes |
| Checkpoint.CheckpointData.CompactDeleteTables | pkg/vm/engine/tae/logtail/backup.go:704-706 | the three delete-side tables are compacted; nothing else changes |
| Checkpoint.CheckpointData.SetInsertTables | pkg/vm/engine/tae/logtail/backup.go:736-739 | the live-insert tables are replaced by the rebuilt ones; nothing else changes |
| Checkpoint.CheckpointData.SetRanges | pkg/vm/engine/tae/logtail/backup.go:730-735 | the row ranges are replaced; nothing else changes |
| Files.WriteBlocks | pkg/vm/engine/tae/logtail/backup.go:462-481 | writing fails with an I/O fault exactly when the writer cannot be made or the first block, loaded, meets a failing store; it panics on a nil batch exactly when the writer is made, some block was never loaded and no write fails before it; otherwise it succeeds |
| Files.WriteEach | pkg/vm/engine/tae/logtail/backup.go:466-481 | the block writes in order: an I/O fault exactly when the first block is loaded and the store fails writes; the nil-batch panic exactly when some block was never loaded and no write fails before it; success exactly when every block is loaded and no write fails |
| Files.Sync | pkg/vm/engine/tae/logtail/backup.go:483 | a sync succeeds exactly when it does not fail and the object does not exist yet, and then the object exists; otherwise it fails with the clash or an I/O fault |
| Files.Delete | pkg/vm/engine/tae/logtail/backup.go:488 | a delete that succeeds removes the object |
| Files.SyncWithRetryOk | pkg/vm/engine/tae/logtail/backup.go:483-496 | the in-place sync succeeds exactly when the first sync does, or when one service is both source and destination and the clash, delete and second sync go through; on success the destination holds the object |
| Files.ClashAcrossServicesDeletesSource | pkg/vm/engine/tae/logtail/backup.go:483-496 | with two distinct services a clash deletes the object from the source and fails again, leaving the destination as it was |
| Files.SyncWithRetryToDst | pkg/vm/engine/tae/logtail/backup.go:483-496 | the corrected retry keeps one service one, and with two services leaves the source untouched |
| Files.SyncWithRetryToDstOk | pkg/vm/engine/tae/logtail/backup.go:483-496 | the corrected retry succeeds exactly when the first sync does, or when it meets the clash and the delete through the destination goes through, with one service or two; on success the destination holds the object |
| Files.SyncWithRetryToDstShared | pkg/vm/engine/tae/logtail/backup.go:483-496 | with one service as both source and destination, the corrected retry is the retry as written |
| Rewrite.KeysBelowSpec | pkg/vm/engine/tae/logtail/backup.go:453-455 | the ascending key list below `m` holds exactly the keys below `m`, ascending |
| Rewrite.SortedKeysSpec | pkg/vm/engine/tae/logtail/backup.go:453-455 | the sorted key list holds exactly the block numbers, ascending, each once |
| Rewrite.SortedBlocksSpec | pkg/vm/engine/tae/logtail/backup.go:447-455 | `dataBlocks` is every block of the object exactly once, in increasing `num`; block 0, when present, comes first |
| Rewrite.PathOfSpec | pkg/vm/engine/tae/logtail/backup.go:444-446 | the branch taken: untouched, promoted, merged, rewritten in place or relocated, each exactly under the guards at lines 444, 457-459 and 499-502, which look up block 0 by key |
| Rewrite.AddPending | pkg/vm/engine/tae/logtail/backup.go:505-515 | queuing entries under a tid appends them to that tid's queue, creating it when missing, and leaves every other queue alone |
| Rewrite.MergeEntries | pkg/vm/engine/tae/logtail/backup.go:504-516 | one pending entry per block, in order |
| Rewrite.MergeNBlocks | pkg/vm/engine/tae/logtail/backup.go:502-516 | the merge loop computes the merge outcome |
| Rewrite.MergeOutcomeSpec | pkg/vm/engine/tae/logtail/backup.go:502-516 | the merge panics (index out of range) exactly when some block lists no CN row; otherwise the queue of block 0's tid gains one unapplied entry per block, in order, naming that block's last CN row and carrying the block, and no other queue changes |
| Rewrite.PromotedNameSpec | pkg/vm/engine/tae/logtail/backup.go:539-541 | the promoted object is in the same segment, numbered `num + 1000` with 16-bit wrap-around, and never has the original name |
| Rewrite.DropTrailingColumns | pkg/vm/engine/tae/logtail/backup.go:534-538 | dropping the trailing three columns keeps every row's leading `width - 3` values, and panics when there are fewer than three |
| Rewrite.Promote | pkg/vm/engine/tae/logtail/backup.go:517-571 | the promotion branch computes the promotion outcome |
| Rewrite.PromoteOutcomeSpec | pkg/vm/engine/tae/logtail/backup.go:517-571 | more than two blocks panic, and so does a block 0 without loaded data; a success writes a new object `PromotedName` that did not exist, and queues for block 0's tid one unapplied entry at the new location, under the new block id, naming block 0's first CN row |
| Rewrite.PromotedRows | pkg/vm/engine/tae/logtail/backup.go:523-538 | when the sort only reorders rows, the promoted block holds as many rows as block 0 keeps after its tombstone is applied, and each is such a row without its trailing three columns |
| Rewrite.DeleteAppliedRow | pkg/vm/engine/tae/logtail/backup.go:523-525 | every row left by applying the tombstone is a data row at an offset the tombstone does not name |
| RewriteLoop.InPlaceItems | pkg/vm/engine/tae/logtail/backup.go:466-481 | the writer receives one item per block, in order of `num` |
| RewriteLoop.ObjectOutcome | pkg/vm/engine/tae/logtail/backup.go:443-627 | a branch that relocates yields one new location per block; the in-place branch syncs with the retry as written |
| RewriteLoop.InPlaceClashAcrossServicesFails | pkg/vm/engine/tae/logtail/backup.go:483-496 | with two distinct services, an in-place rewrite whose destination already holds the object fails with the clash, as the retry as written does |
| RewriteLoop.InPlaceUnloadedPanics | pkg/vm/engine/tae/logtail/backup.go:462-481 | in the in-place branch, a block the trim pass never loaded is a nil batch and panics, unless the writer cannot be made or the store fails its writes |
| RewriteLoop.RewriteObject | pkg/vm/engine/tae/logtail/backup.go:443-627 | one object takes its branch; the tables are relocated exactly as its outcome says and the delete table, the locations and the ranges are unchanged |
| RewriteLoop.RewriteObjects | pkg/vm/engine/tae/logtail/backup.go:443-627 | the object loop in the given order leaves the tables of the fold, or its first failure |
| RewriteLoop.AddPendingKeeps | pkg/vm/engine/tae/logtail/backup.go:505-515 | queuing well-formed entries keeps the queue well formed and only appends to it |
| RewriteLoop.MergeKeeps | pkg/vm/engine/tae/logtail/backup.go:502-516 | the merge branch queues well-formed entries that name CN rows |
| RewriteLoop.PromoteKeeps | pkg/vm/engine/tae/logtail/backup.go:558-571 | the promotion branch keeps the queue well formed, only appends to the queue and to the file list, and keeps one service one |
| RewriteLoop.ObjectOutcomeKeeps | pkg/vm/engine/tae/logtail/backup.go:443-627 | every branch keeps the queue well formed, only appends to the queue and to the file list, and keeps one service one |
| RewriteLoop.RewriteFoldKeeps | pkg/vm/engine/tae/logtail/backup.go:443-627 | the whole object loop does the same, so a queued entry with a new location never carries a block |
| Relocation.SideCol | pkg/vm/engine/tae/logtail/backup.go:579-624 | the column a block rewrites on each side: meta location for data (for CN rows, only for an appendable block), delta location for a tombstone, never both |
| Relocation.NewLocations | pkg/vm/engine/tae/logtail/backup.go:574-578 | an unchanged object keeps every block's location; a changed one gets `BuildLocation` of the written block at each index, and there being too few written blocks is an index out of range |
| Relocation.SetInsertLocs | pkg/vm/engine/tae/logtail/backup.go:579-600 | every listed live-insert row and its attribution row get the location in the column, nothing else changes |
| Relocation.SetCNLocs | pkg/vm/engine/tae/logtail/backup.go:601-624 | every listed CN row and its delete attribution row get the location in the column, nothing else changes |
| Relocation.RelocateBlock | pkg/vm/engine/tae/logtail/backup.go:579-624 | one block rewrites the columns `SideCol` picks for its insert and CN rows |
| Relocation.RelocateObject | pkg/vm/engine/tae/logtail/backup.go:574-625 | all blocks in order of `num` leave the tables `Relocated` defines |
| Relocation.FinalLocSpec | pkg/vm/engine/tae/logtail/backup.go:574-625 | a cell no block writes keeps its value; one that blocks write holds the location of the last block in order that writes it |
| Reconcile.FirstPassLoop | pkg/vm/engine/tae/logtail/backup.go:634-663 | the first pass emits the rows of plan `FirstPass`: each live row, followed, at the first live row of a tid, by that tid's unapplied entries |
| Reconcile.EmitQueue | pkg/vm/engine/tae/logtail/backup.go:639-661 | emitting one tid's queue appends the unapplied entries' rows in queue order and marks every entry applied |
| Reconcile.RebuildInsert | pkg/vm/engine/tae/logtail/backup.go:634-690 | both passes emit the rows of plan `Plan`, and every queued entry ends applied |
| Reconcile.PlanSpec | pkg/vm/engine/tae/logtail/backup.go:634-690 | the new live-insert table holds every original row once, in order, plus exactly one row per pending unapplied entry, none twice |
| Reconcile.FirstPassOrigs | pkg/vm/engine/tae/logtail/backup.go:634-637 | the first pass copies the live rows in their order |
| Reconcile.FirstPassMember | pkg/vm/engine/tae/logtail/backup.go:638-662 | the first pass holds an entry exactly when its tid has a live row and the entry was unapplied |
| Reconcile.SecondPassMember | pkg/vm/engine/tae/logtail/backup.go:665-690 | the second pass holds an entry exactly when its tid has no live row and the entry was unapplied |
| Reconcile.FirstPassDistinct | pkg/vm/engine/tae/logtail/backup.go:638-644 | the first pass emits no entry twice, because an emitted entry is marked applied |
| Reconcile.SecondPassDistinct | pkg/vm/engine/tae/logtail/backup.go:665-672 | the second pass emits no entry twice |
| Reconcile.UnappliedMember | pkg/vm/engine/tae/logtail/backup.go:639-642 | the entries a queue emits are exactly its unapplied ones |
| Reconcile.UnappliedApplied | pkg/vm/engine/tae/logtail/backup.go:644 | a queue once emitted emits nothing more |
| ReconcileTables.TidRowsMerged | pkg/vm/engine/tae/logtail/backup.go:692-702 | the rows deleted are exactly the CN rows of blocks carried by queued entries |
| ReconcileTables.DeleteMerged | pkg/vm/engine/tae/logtail/backup.go:692-702 | the loop marks those rows in the three delete-side tables and changes nothing else |
| ReconcileTables.CompactMarked | pkg/vm/engine/tae/logtail/backup.go:692-706 | after compaction a delete-side table keeps exactly its rows neither deleted before nor carried by a queued block, in their order |
| ReconcileTables.ReconcileQueue | pkg/vm/engine/tae/logtail/backup.go:631-740 | reconciliation leaves the tables `Reconciled` defines: rebuilt insert tables, compacted delete side, recorded ranges |
| ReconcileTables.RecordedRanges | pkg/vm/engine/tae/logtail/backup.go:707-735 | recording ranges over a table gives each of its tids its first row and its row count (below 2^31 rows) and keeps other tids' ranges |
| ReconcileTables.ReconciledRanges | pkg/vm/engine/tae/logtail/backup.go:707-735 | after reconciliation, the range of every tid of the rebuilt insert table and of the compacted delete side starts at its first row there and spans its row count; other tids keep theirs |
| Offsets.TableOffsets | pkg/vm/engine/tae/logtail/backup.go:707-728 | the offset loop computes the ranges `Ranges` defines |
| Offsets.RangesSpec | pkg/vm/engine/tae/logtail/backup.go:707-728 | a tid's range starts at its first row, and `end - offset` is the number of its rows |
| Offsets.RangesCover | pkg/vm/engine/tae/logtail/backup.go:707-728 | when each tid's rows are contiguous, its range covers exactly its rows |
| Offsets.RangesEnd | pkg/vm/engine/tae/logtail/backup.go:707-728 | no range runs past the table |
| Offsets.Int32 | pkg/vm/engine/tae/logtail/backup.go:731 | `int32(x)` is the value congruent to `x` modulo 2^32 in the signed 32-bit range, and `x` itself when it fits |
| Offsets.StoredExact | pkg/vm/engine/tae/logtail/backup.go:730-735 | below 2^31 rows the cast changes no range |
| Backup.RowLocationsSpec | pkg/vm/engine/tae/logtail/backup.go:773-802 | a location is listed exactly when it is a non-empty meta or delta location of some row |
| Backup.InsertLocations | pkg/vm/engine/tae/logtail/backup.go:773-784 | the loop lists the non-empty locations of the live-insert rows, row by row, meta before delta |
| Backup.CNLocations | pkg/vm/engine/tae/logtail/backup.go:785-802 | the loop lists the CN rows' non-empty locations and, when a soft-delete set is given, adds the block of every non-empty meta location to it |
| Backup.LoadCheckpointEntries | pkg/vm/engine/tae/logtail/backup.go:756-804 | the checkpoint's own location, its recorded locations, then the two tables' locations; the soft-delete set gains exactly the CN meta blocks |
| Backup.SoftDeletesSkip | pkg/vm/engine/tae/logtail/backup.go:785-797 | a set produced by loading one checkpoint makes the next indexing skip exactly the CN rows whose meta block it lists (with 385-389) |
| Backup.IndexedInRange | pkg/vm/engine/tae/logtail/backup.go:375-424 | the index lists only rows of its tables |
| Backup.TrimKeepsRows | pkg/vm/engine/tae/logtail/backup.go:141-215 | trimming keeps every block under its own number and keeps the rows it lists |
| Backup.RewriteFoldShape | pkg/vm/engine/tae/logtail/backup.go:443-627 | the object loop changes only location columns: every table keeps its length, tids and marks |
| Backup.Enumerate | pkg/vm/engine/tae/logtail/backup.go:443 | ranging over a map visits each key exactly once |
| Backup.IndexAndTrim | pkg/vm/engine/tae/logtail/backup.go:375-431 | the indexing panics, or a failed trim, or an `Indexed` map over the tables and their tid columns (rows, block fields, object flags and tombstones as the loops set them), trimmed, with the change flag holding exactly when some object changed |
| Backup.RewriteAndWrite | pkg/vm/engine/tae/logtail/backup.go:443-753 | the object loop's first failure, or reconciliation when entries were queued, then the write |
| Backup.ReconcileAndWrite | pkg/vm/engine/tae/logtail/backup.go:631-753 | reconciles the tables when the queue is not empty, then writes; the files returned are those written by promotion, then the checkpoint's, then the CN checkpoint's name |
| Backup.ReWrite | pkg/vm/engine/tae/logtail/backup.go:309-754 | the indexing panics; otherwise the index is `Indexed` over the tables and their tid columns, and a failing trim fails; without a change the original `loc` and `tnLocation` come back with no files and the tables untouched; otherwise the object loop over every object once, reconciliation and the write |

## Left out

- Loading the checkpoint (`getCheckpointData`, `readMetaBatch`, `readAll`): the loaded `CheckpointData` is a parameter, and a failed load is not modelled.
- `data.WriteTo`: a function parameter from the tables to the written locations and files.
- `blockio.LoadOneBlock`, `objectio.FastLoadObjectMeta`, `NewBlockWriter`/`WriteBatch`/`Sync`, `BuildLocation`: parameters (`Trim.Storage`, `Rewrite.Io`, `Files.FileService`). Their byte formats are not modelled.
- `mergesort.SortBlockColumns`: the sort's result is a parameter. Its only assumed property is that it reorders rows (`SortsRows`), and only `Rewrite.PromotedRows` uses that.
- `formatData` and the TN/CN batch conversions: the identity on the modelled batches. They rename columns and convert encodings, with no effect on rows.
- The byte encodings of `Location`, `Rowid` and `Blockid` (`HackBytes2Rowid`, `BuildObjectBlockid`): these are records.
- Logging, `phaseNumber`, `Free`/`Close`, `backupPool`: resource plumbing.
- Go map iteration order: the trim pass is proved independent of it. The object loop and the second reconciliation pass take an explicit order, and `Enumerate` promises only some order of the keys.
- `UpdateBlockInsertBlkMeta` and `UpdateBlockDeleteBlkMeta` are not part of this model. The ranges they receive are recorded as maps from tid to range; each new range replaces the old one.
- Offsets.Int32: row counts of 2^31 or more wrap. The range lemmas state their results only below that bound.
- The file services after an error: an error ends the rewrite, and only the outcome is stated, not what the services hold.
- The partial state of `objectsData` after a trim error: the error is returned and the index is discarded.
- Concurrency and cancellation (`ctx`): not modelled.
- The writer's handling of a nil batch: `blockio` is not part of this model. A write of a block the trim pass never loaded is taken to be the nil dereference it leads to, `Panic(NilBatch)`, as in the promotion branch.

## Findings

| source | as written | input that shows it | evidently intended | confidence | as-written member | corrected member |
|---|---|---|---|---|---|---|
| pkg/vm/engine/tae/logtail/backup.go:483-496 | when `writer.Sync` to `dstFs` reports that the object already exists, the object is deleted through the source service `fs` and the sync to `dstFs` is retried | two distinct services, the destination already holding the object, no store failure: the source loses its object and the second sync reports the clash again | delete the clashing object through `dstFs`, so that the second sync succeeds and the source keeps its object | medium, not executed | Files.SyncWithRetry, shown by Files.ClashAcrossServicesDeletesSource and RewriteLoop.InPlaceClashAcrossServicesFails | Files.SyncWithRetryToDst, proved by Files.SyncWithRetryToDstOk |

The object loop (`RewriteLoop.ObjectOutcome`, `RewriteLoop.RewriteObject`,
and through them `RewriteLoop.RewriteObjects`, `Backup.RewriteAndWrite` and
`Backup.ReWrite`) models the code as written: it calls `Files.SyncWithRetry`,
and `RewriteLoop.InPlaceClashAcrossServicesFails` carries the failure up to
one object's outcome. The corrected retry changes the outcome only for two
distinct services. With one service as both source and destination, it is
the retry as written (`Files.SyncWithRetryToDstShared`).
