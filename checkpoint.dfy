/** The part of `CheckpointData` the rewrite reads and changes: the block
    metadata tables with their transaction-attribution tables, the object
    locations the checkpoint refers to, and the per-table row ranges. */
module Checkpoint {
  import opened BackupTypes
  import opened Containers

  /** The two location columns of a metadata row. */
  datatype LocColumn = MetaLocCol | DeltaLocCol

  /** One location cell rewritten, for the block-metadata rows and for the
      transaction-attribution rows. The two row types are distinct records
      that happen to share the `metaLoc`/`deltaLoc` field names, and Dafny
      has no polymorphism over record fields, so the update is written
      once for each. */
  function WithBlkLoc(row: BlkMetaRow, col: LocColumn, loc: Location): (r: BlkMetaRow)
    ensures col == MetaLocCol ==> r == row.(metaLoc := loc)
    ensures col == DeltaLocCol ==> r == row.(deltaLoc := loc)
  {
    if col == MetaLocCol then row.(metaLoc := loc) else row.(deltaLoc := loc)
  }

  function WithTxnLoc(row: TxnRow, col: LocColumn, loc: Location): (r: TxnRow)
    ensures col == MetaLocCol ==> r == row.(metaLoc := loc)
    ensures col == DeltaLocCol ==> r == row.(deltaLoc := loc)
  {
    if col == MetaLocCol then row.(metaLoc := loc) else row.(deltaLoc := loc)
  }

  /** The rows of one table that belong to one table id (`tableOffset`),
      as stored by `UpdateBlockInsertBlkMeta`/`UpdateBlockDeleteBlkMeta`:
      both ends are cast to `int32`. */
  datatype TableRange = TableRange(offset: int, end: int)

  /** `CheckpointData`, restricted to what the rewrite touches:
      `cnInsert` is `bats[BLKCNMetaInsertIDX]`, `delTxn` is
      `bats[BLKMetaDeleteTxnIDX]`, `blkDelete` is `bats[BLKMetaDeleteIDX]`,
      `insert` is `bats[BLKMetaInsertIDX]` and `insTxn` is
      `bats[BLKMetaInsertTxnIDX]`. */
  class CheckpointData {
    var cnInsert: Table<BlkMetaRow>
    var delTxn: Table<TxnRow>
    var blkDelete: Table<DelRow>
    var insert: seq<BlkMetaRow>
    var insTxn: seq<TxnRow>
    var locations: seq<Location>
    var insertRanges: map<Tid, TableRange>
    var deleteRanges: map<Tid, TableRange>

    /** A metadata table and its attribution tables have one row per entry. */
    ghost predicate Valid()
      reads this
    {
      && |insert| == |insTxn|
      && |cnInsert.rows| == |delTxn.rows| == |blkDelete.rows|
    }

    constructor (cnInsert: seq<BlkMetaRow>, delTxn: seq<TxnRow>, blkDelete: seq<DelRow>,
                 insert: seq<BlkMetaRow>, insTxn: seq<TxnRow>, locations: seq<Location>)
      ensures this.cnInsert == Table(cnInsert, {}) && this.delTxn == Table(delTxn, {})
      ensures this.blkDelete == Table(blkDelete, {})
      ensures this.insert == insert && this.insTxn == insTxn && this.locations == locations
      ensures insertRanges == map[] && deleteRanges == map[]
    {
      this.cnInsert := Table(cnInsert, {});
      this.delTxn := Table(delTxn, {});
      this.blkDelete := Table(blkDelete, {});
      this.insert := insert;
      this.insTxn := insTxn;
      this.locations := locations;
      insertRanges := map[];
      deleteRanges := map[];
    }

    /** Sets location column `col` of live-insert row `row` and of its
        attribution row (the `Update` calls on `BLKMetaInsertIDX` and
        `BLKMetaInsertTxnIDX`). */
    method UpdateInsertLoc(row: nat, col: LocColumn, loc: Location)
      requires Valid() && row < |insert|
      modifies this
      ensures Valid()
      ensures insert == old(insert)[row := WithBlkLoc(old(insert)[row], col, loc)]
      ensures insTxn == old(insTxn)[row := WithTxnLoc(old(insTxn)[row], col, loc)]
      ensures cnInsert == old(cnInsert) && delTxn == old(delTxn) && blkDelete == old(blkDelete)
      ensures locations == old(locations)
      ensures insertRanges == old(insertRanges) && deleteRanges == old(deleteRanges)
    {
      insert := insert[row := WithBlkLoc(insert[row], col, loc)];
      insTxn := insTxn[row := WithTxnLoc(insTxn[row], col, loc)];
    }

    /** Sets location column `col` of CN row `row` and of its attribution
        row (the `Update` calls on `BLKCNMetaInsertIDX` and
        `BLKMetaDeleteTxnIDX`). */
    method UpdateCNLoc(row: nat, col: LocColumn, loc: Location)
      requires Valid() && row < |cnInsert.rows|
      modifies this
      ensures Valid()
      ensures cnInsert == old(cnInsert).(rows := old(cnInsert.rows)[row := WithBlkLoc(old(cnInsert.rows)[row], col, loc)])
      ensures delTxn == old(delTxn).(rows := old(delTxn.rows)[row := WithTxnLoc(old(delTxn.rows)[row], col, loc)])
      ensures insert == old(insert) && insTxn == old(insTxn) && blkDelete == old(blkDelete)
      ensures locations == old(locations)
      ensures insertRanges == old(insertRanges) && deleteRanges == old(deleteRanges)
    {
      cnInsert := cnInsert.(rows := cnInsert.rows[row := WithBlkLoc(cnInsert.rows[row], col, loc)]);
      delTxn := delTxn.(rows := delTxn.rows[row := WithTxnLoc(delTxn.rows[row], col, loc)]);
    }

    /** Marks CN row `row` deleted in the CN table, its attribution table and
        the block-delete table. */
    method DeleteCNRow(row: nat)
      modifies this
      ensures cnInsert == old(cnInsert).Delete(row) && delTxn == old(delTxn).Delete(row)
      ensures blkDelete == old(blkDelete).Delete(row)
      ensures insert == old(insert) && insTxn == old(insTxn) && locations == old(locations)
      ensures insertRanges == old(insertRanges) && deleteRanges == old(deleteRanges)
    {
      cnInsert := cnInsert.Delete(row);
      delTxn := delTxn.Delete(row);
      blkDelete := blkDelete.Delete(row);
    }

    /** `Compact` on the three tables: every marked row goes; tables that
        were aligned and marked alike stay aligned. */
    method CompactDeleteTables()
      requires Valid()
      requires cnInsert.deletes == delTxn.deletes == blkDelete.deletes
      modifies this
      ensures Valid()
      ensures cnInsert == old(cnInsert).Compact() && delTxn == old(delTxn).Compact()
      ensures blkDelete == old(blkDelete).Compact()
      ensures insert == old(insert) && insTxn == old(insTxn) && locations == old(locations)
      ensures insertRanges == old(insertRanges) && deleteRanges == old(deleteRanges)
    {
      cnInsert := cnInsert.Compact();
      delTxn := delTxn.Compact();
      blkDelete := blkDelete.Compact();
    }

    /** Replaces the live-insert table and its attribution table. */
    method SetInsertTables(newInsert: seq<BlkMetaRow>, newInsTxn: seq<TxnRow>)
      requires |newInsert| == |newInsTxn|
      requires Valid()
      modifies this
      ensures Valid()
      ensures insert == newInsert && insTxn == newInsTxn
      ensures cnInsert == old(cnInsert) && delTxn == old(delTxn) && blkDelete == old(blkDelete)
      ensures locations == old(locations)
      ensures insertRanges == old(insertRanges) && deleteRanges == old(deleteRanges)
    {
      insert := newInsert;
      insTxn := newInsTxn;
    }

    /** Records the row ranges of the live-insert and the delete tables. */
    method SetRanges(newInsertRanges: map<Tid, TableRange>, newDeleteRanges: map<Tid, TableRange>)
      modifies this
      ensures insertRanges == newInsertRanges && deleteRanges == newDeleteRanges
      ensures cnInsert == old(cnInsert) && delTxn == old(delTxn) && blkDelete == old(blkDelete)
      ensures insert == old(insert) && insTxn == old(insTxn) && locations == old(locations)
    {
      insertRanges := newInsertRanges;
      deleteRanges := newDeleteRanges;
    }
  }
}
