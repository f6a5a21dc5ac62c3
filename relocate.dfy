/** Relocation: after an object is rewritten (or left where it is), every
    metadata row that points at one of its blocks gets the block's location
    written into the column that the block's kind selects. This is the
    `else` branch of the rewrite loop, which updates the tables of
    `CheckpointData` in place. */
module Relocation {
  import opened BackupTypes
  import opened ObjectIndex
  import opened Checkpoint
  import opened Containers
  import opened Files

  /** Block `b` writes column `col` of the rows it lists on the delete side
      (`cnSide`) or on the live-insert side: a data block its meta location
      (on the delete side only when it is appendable), a tombstone its delta
      location. */
  predicate Writes(b: BlockData, cnSide: bool, col: LocColumn) {
    if col == MetaLocCol then b.blockType == SchemaData && (cnSide ==> b.isABlock)
    else b.blockType == SchemaTombstone
  }

  /** The rows a block lists on one side. */
  function Listed(b: BlockData, cnSide: bool): seq<nat> {
    if cnSide then b.deleteRow else b.insertRow
  }

  /** Every row a block lists is a row of its table. */
  predicate RowsInRange(blocks: seq<BlockData>, insertRows: nat, cnRows: nat) {
    forall i | 0 <= i < |blocks| ::
      (forall j | 0 <= j < |blocks[i].insertRow| :: blocks[i].insertRow[j] < insertRows)
      && (forall j | 0 <= j < |blocks[i].deleteRow| :: blocks[i].deleteRow[j] < cnRows)
  }

  /** Reference definition: the location column `col` of row `r` on one
      side holds once the blocks below `m` are relocated to `locs`: the
      location of the LAST of them that lists `r` and writes `col`, or
      `init` when none does. */
  function FinalLoc(blocks: seq<BlockData>, locs: seq<Location>, m: nat, cnSide: bool,
                    col: LocColumn, r: nat, init: Location): Location
    requires m <= |blocks| == |locs|
  {
    if m == 0 then init
    else if Writes(blocks[m - 1], cnSide, col) && r in Listed(blocks[m - 1], cnSide) then locs[m - 1]
    else FinalLoc(blocks, locs, m - 1, cnSide, col, r, init)
  }

  /** A block-metadata table after the blocks below `m` are relocated:
      every row keeps all its columns but the two locations, which are as
      `FinalLoc` says. */
  function RelocatedBlk(s: seq<BlkMetaRow>, blocks: seq<BlockData>, locs: seq<Location>,
                        m: nat, cnSide: bool): seq<BlkMetaRow>
    requires m <= |blocks| == |locs|
  {
    seq(|s|, r requires 0 <= r < |s| =>
          s[r].(metaLoc := FinalLoc(blocks, locs, m, cnSide, MetaLocCol, r, s[r].metaLoc),
                deltaLoc := FinalLoc(blocks, locs, m, cnSide, DeltaLocCol, r, s[r].deltaLoc)))
  }

  /** The same for a transaction-attribution table. */
  function RelocatedTxn(s: seq<TxnRow>, blocks: seq<BlockData>, locs: seq<Location>,
                        m: nat, cnSide: bool): seq<TxnRow>
    requires m <= |blocks| == |locs|
  {
    seq(|s|, r requires 0 <= r < |s| =>
          s[r].(metaLoc := FinalLoc(blocks, locs, m, cnSide, MetaLocCol, r, s[r].metaLoc),
                deltaLoc := FinalLoc(blocks, locs, m, cnSide, DeltaLocCol, r, s[r].deltaLoc)))
  }

  /** Column `col` of the rows in `rows` set to `loc`. */
  function SetBlkLocs(s: seq<BlkMetaRow>, rows: seq<nat>, col: LocColumn, loc: Location): seq<BlkMetaRow> {
    seq(|s|, r requires 0 <= r < |s| => if r in rows then WithBlkLoc(s[r], col, loc) else s[r])
  }

  function SetTxnLocs(s: seq<TxnRow>, rows: seq<nat>, col: LocColumn, loc: Location): seq<TxnRow> {
    seq(|s|, r requires 0 <= r < |s| => if r in rows then WithTxnLoc(s[r], col, loc) else s[r])
  }

  /** The column a block writes on one side, if any. */
  function SideCol(b: BlockData, cnSide: bool): (c: Option<LocColumn>)
    ensures c.Some? ==> Writes(b, cnSide, c.value)
    ensures c.None? ==> !Writes(b, cnSide, MetaLocCol) && !Writes(b, cnSide, DeltaLocCol)
    ensures c == Some(MetaLocCol) ==> !Writes(b, cnSide, DeltaLocCol)
    ensures c == Some(DeltaLocCol) ==> !Writes(b, cnSide, MetaLocCol)
  {
    if Writes(b, cnSide, MetaLocCol) then Some(MetaLocCol)
    else if Writes(b, cnSide, DeltaLocCol) then Some(DeltaLocCol)
    else None
  }

  lemma SetBlkLocsStep(s: seq<BlkMetaRow>, rows: seq<nat>, j: nat, col: LocColumn, loc: Location)
    requires j < |rows| && rows[j] < |s|
    ensures SetBlkLocs(s, rows[..j + 1], col, loc)
            == SetBlkLocs(s, rows[..j], col, loc)[rows[j] := WithBlkLoc(SetBlkLocs(s, rows[..j], col, loc)[rows[j]], col, loc)]
  {
    assert rows[..j + 1] == rows[..j] + [rows[j]];
  }

  lemma SetTxnLocsStep(s: seq<TxnRow>, rows: seq<nat>, j: nat, col: LocColumn, loc: Location)
    requires j < |rows| && rows[j] < |s|
    ensures SetTxnLocs(s, rows[..j + 1], col, loc)
            == SetTxnLocs(s, rows[..j], col, loc)[rows[j] := WithTxnLoc(SetTxnLocs(s, rows[..j], col, loc)[rows[j]], col, loc)]
  {
    assert rows[..j + 1] == rows[..j] + [rows[j]];
  }

  /** Relocating one more block is setting its column on the rows it
      lists. */
  lemma RelocatedBlkStep(s: seq<BlkMetaRow>, blocks: seq<BlockData>, locs: seq<Location>, m: nat, cnSide: bool)
    requires m < |blocks| == |locs|
    ensures RelocatedBlk(s, blocks, locs, m + 1, cnSide) ==
            var prev := RelocatedBlk(s, blocks, locs, m, cnSide);
            var c := SideCol(blocks[m], cnSide);
            if c.Some? then SetBlkLocs(prev, Listed(blocks[m], cnSide), c.value, locs[m]) else prev
  {
  }

  lemma RelocatedTxnStep(s: seq<TxnRow>, blocks: seq<BlockData>, locs: seq<Location>, m: nat, cnSide: bool)
    requires m < |blocks| == |locs|
    ensures RelocatedTxn(s, blocks, locs, m + 1, cnSide) ==
            var prev := RelocatedTxn(s, blocks, locs, m, cnSide);
            var c := SideCol(blocks[m], cnSide);
            if c.Some? then SetTxnLocs(prev, Listed(blocks[m], cnSide), c.value, locs[m]) else prev
  {
  }

  /** The inner loop over the live-insert rows a block lists. */
  method SetInsertLocs(data: CheckpointData, rows: seq<nat>, col: LocColumn, loc: Location)
    requires data.Valid()
    requires forall j | 0 <= j < |rows| :: rows[j] < |data.insert|
    modifies data
    ensures data.Valid()
    ensures data.insert == SetBlkLocs(old(data.insert), rows, col, loc)
    ensures data.insTxn == SetTxnLocs(old(data.insTxn), rows, col, loc)
    ensures data.cnInsert == old(data.cnInsert) && data.delTxn == old(data.delTxn)
    ensures data.blkDelete == old(data.blkDelete) && data.locations == old(data.locations)
    ensures data.insertRanges == old(data.insertRanges) && data.deleteRanges == old(data.deleteRanges)
  {
    var j := 0;
    while j < |rows|
      invariant 0 <= j <= |rows| && data.Valid()
      invariant data.insert == SetBlkLocs(old(data.insert), rows[..j], col, loc)
      invariant data.insTxn == SetTxnLocs(old(data.insTxn), rows[..j], col, loc)
      invariant data.cnInsert == old(data.cnInsert) && data.delTxn == old(data.delTxn)
      invariant data.blkDelete == old(data.blkDelete) && data.locations == old(data.locations)
      invariant data.insertRanges == old(data.insertRanges) && data.deleteRanges == old(data.deleteRanges)
    {
      SetBlkLocsStep(old(data.insert), rows, j, col, loc);
      SetTxnLocsStep(old(data.insTxn), rows, j, col, loc);
      data.UpdateInsertLoc(rows[j], col, loc);
      j := j + 1;
    }
    assert rows[..j] == rows;
  }

  /** The inner loop over the delete-side rows a block lists. */
  method SetCNLocs(data: CheckpointData, rows: seq<nat>, col: LocColumn, loc: Location)
    requires data.Valid()
    requires forall j | 0 <= j < |rows| :: rows[j] < |data.cnInsert.rows|
    modifies data
    ensures data.Valid()
    ensures data.cnInsert == old(data.cnInsert).(rows := SetBlkLocs(old(data.cnInsert.rows), rows, col, loc))
    ensures data.delTxn == old(data.delTxn).(rows := SetTxnLocs(old(data.delTxn.rows), rows, col, loc))
    ensures data.insert == old(data.insert) && data.insTxn == old(data.insTxn)
    ensures data.blkDelete == old(data.blkDelete) && data.locations == old(data.locations)
    ensures data.insertRanges == old(data.insertRanges) && data.deleteRanges == old(data.deleteRanges)
  {
    var j := 0;
    while j < |rows|
      invariant 0 <= j <= |rows| && data.Valid()
      invariant data.cnInsert == old(data.cnInsert).(rows := SetBlkLocs(old(data.cnInsert.rows), rows[..j], col, loc))
      invariant data.delTxn == old(data.delTxn).(rows := SetTxnLocs(old(data.delTxn.rows), rows[..j], col, loc))
      invariant data.insert == old(data.insert) && data.insTxn == old(data.insTxn)
      invariant data.blkDelete == old(data.blkDelete) && data.locations == old(data.locations)
      invariant data.insertRanges == old(data.insertRanges) && data.deleteRanges == old(data.deleteRanges)
    {
      SetBlkLocsStep(old(data.cnInsert.rows), rows, j, col, loc);
      SetTxnLocsStep(old(data.delTxn.rows), rows, j, col, loc);
      data.UpdateCNLoc(rows[j], col, loc);
      j := j + 1;
    }
    assert rows[..j] == rows;
  }

  /** One block of the relocation loop: the live-insert rows it lists,
      then the delete-side rows it lists, get `loc` in the column its kind
      selects. */
  method RelocateBlock(data: CheckpointData, b: BlockData, loc: Location)
    requires data.Valid()
    requires forall j | 0 <= j < |b.insertRow| :: b.insertRow[j] < |data.insert|
    requires forall j | 0 <= j < |b.deleteRow| :: b.deleteRow[j] < |data.cnInsert.rows|
    modifies data
    ensures data.Valid()
    ensures var c := SideCol(b, false);
            && data.insert == (if c.Some? then SetBlkLocs(old(data.insert), b.insertRow, c.value, loc) else old(data.insert))
            && data.insTxn == (if c.Some? then SetTxnLocs(old(data.insTxn), b.insertRow, c.value, loc) else old(data.insTxn))
    ensures var c := SideCol(b, true);
            && data.cnInsert.rows == (if c.Some? then SetBlkLocs(old(data.cnInsert.rows), b.deleteRow, c.value, loc) else old(data.cnInsert.rows))
            && data.delTxn.rows == (if c.Some? then SetTxnLocs(old(data.delTxn.rows), b.deleteRow, c.value, loc) else old(data.delTxn.rows))
    ensures data.cnInsert.deletes == old(data.cnInsert.deletes) && data.delTxn.deletes == old(data.delTxn.deletes)
    ensures data.blkDelete == old(data.blkDelete) && data.locations == old(data.locations)
    ensures data.insertRanges == old(data.insertRanges) && data.deleteRanges == old(data.deleteRanges)
  {
    var c := SideCol(b, false);
    if c.Some? {
      SetInsertLocs(data, b.insertRow, c.value, loc);
    }
    var d := SideCol(b, true);
    if d.Some? {
      SetCNLocs(data, b.deleteRow, d.value, loc);
    }
  }

  /** The four tables relocation writes, as values. */
  datatype LocTables = LocTables(insert: seq<BlkMetaRow>, insTxn: seq<TxnRow>,
                                 cn: Table<BlkMetaRow>, delTxn: Table<TxnRow>)

  function TablesOf(data: CheckpointData): LocTables
    reads data
  {
    LocTables(data.insert, data.insTxn, data.cnInsert, data.delTxn)
  }

  /** The tables after every block of `blocks` is relocated to its entry
      of `locs`. */
  function Relocated(t: LocTables, blocks: seq<BlockData>, locs: seq<Location>): LocTables
    requires |locs| == |blocks|
  {
    LocTables(RelocatedBlk(t.insert, blocks, locs, |blocks|, false),
              RelocatedTxn(t.insTxn, blocks, locs, |blocks|, false),
              t.cn.(rows := RelocatedBlk(t.cn.rows, blocks, locs, |blocks|, true)),
              t.delTxn.(rows := RelocatedTxn(t.delTxn.rows, blocks, locs, |blocks|, true)))
  }

  /** Where block `i` of an object is relocated to: where it was when the
      object was not changed; otherwise block `i` of the object as written
      again (`blocks[uint16(i)]` of the writer's `Sync`). A changed object
      with fewer written blocks than blocks, or one that no writer wrote,
      is an index out of range. */
  function NewLocations(name: ObjectName, isChange: bool, blocks: seq<BlockData>,
                        written: Option<Written>): (r: Result<seq<Location>>)
    ensures r.Err? <==> isChange && blocks != [] && (written.None? || |written.value.blocks| < |blocks|)
    ensures r.Err? ==> r.fault == Panic(IndexOutOfRange)
    ensures r.Ok? ==> |r.value| == |blocks|
    ensures r.Ok? && !isChange ==> forall i | 0 <= i < |blocks| :: r.value[i] == blocks[i].location
    ensures r.Ok? && isChange ==> forall i | 0 <= i < |blocks| ::
              r.value[i] == Location(name, blocks[i].num, written.value.extent, written.value.blocks[i].rows)
  {
    if !isChange then Ok(seq(|blocks|, i requires 0 <= i < |blocks| => blocks[i].location))
    else if blocks == [] then Ok([])
    else if written.None? || |written.value.blocks| < |blocks| then Err(Panic(IndexOutOfRange))
    else
      var w := written.value;
      Ok(seq(|blocks|, i requires 0 <= i < |blocks| => Location(name, blocks[i].num, w.extent, w.blocks[i].rows)))
  }

  /** The state of the relocation loop after the blocks below `i`. */
  ghost predicate RelocProgress(data: CheckpointData, ins: seq<BlkMetaRow>, insTxn: seq<TxnRow>,
                                cn: Table<BlkMetaRow>, delTxn: Table<TxnRow>,
                                blocks: seq<BlockData>, locs: seq<Location>, i: nat)
    reads data
    requires i <= |blocks| == |locs|
  {
    && data.insert == RelocatedBlk(ins, blocks, locs, i, false)
    && data.insTxn == RelocatedTxn(insTxn, blocks, locs, i, false)
    && data.cnInsert == cn.(rows := RelocatedBlk(cn.rows, blocks, locs, i, true))
    && data.delTxn == delTxn.(rows := RelocatedTxn(delTxn.rows, blocks, locs, i, true))
  }

  /** The relocation loop of one object: block `i` of `blocks` goes to
      `locs[i]`. Every location column ends as the last block that wrote
      it left it; nothing else changes. */
  method RelocateObject(data: CheckpointData, blocks: seq<BlockData>, locs: seq<Location>)
    requires data.Valid() && |locs| == |blocks|
    requires RowsInRange(blocks, |data.insert|, |data.cnInsert.rows|)
    modifies data
    ensures data.Valid()
    ensures TablesOf(data) == Relocated(old(TablesOf(data)), blocks, locs)
    ensures data.blkDelete == old(data.blkDelete) && data.locations == old(data.locations)
    ensures data.insertRanges == old(data.insertRanges) && data.deleteRanges == old(data.deleteRanges)
  {
    ghost var ins, insTxn, cn, delTxn := data.insert, data.insTxn, data.cnInsert, data.delTxn;
    assert RelocatedBlk(ins, blocks, locs, 0, false) == ins;
    assert RelocatedTxn(insTxn, blocks, locs, 0, false) == insTxn;
    assert RelocatedBlk(cn.rows, blocks, locs, 0, true) == cn.rows;
    assert RelocatedTxn(delTxn.rows, blocks, locs, 0, true) == delTxn.rows;
    var i := 0;
    while i < |blocks|
      invariant 0 <= i <= |blocks| && data.Valid()
      invariant RelocProgress(data, ins, insTxn, cn, delTxn, blocks, locs, i)
      invariant |data.insert| == |ins| && |data.cnInsert.rows| == |cn.rows|
      invariant data.blkDelete == old(data.blkDelete) && data.locations == old(data.locations)
      invariant data.insertRanges == old(data.insertRanges) && data.deleteRanges == old(data.deleteRanges)
    {
      RelocateNext(data, ins, insTxn, cn, delTxn, blocks, locs, i);
      i := i + 1;
    }
  }

  /** One turn of the relocation loop: block `i` goes to `locs[i]`. */
  method RelocateNext(data: CheckpointData, ghost ins: seq<BlkMetaRow>, ghost insTxn: seq<TxnRow>,
                      ghost cn: Table<BlkMetaRow>, ghost delTxn: Table<TxnRow>,
                      blocks: seq<BlockData>, locs: seq<Location>, i: nat)
    requires data.Valid() && i < |blocks| == |locs|
    requires RowsInRange(blocks, |data.insert|, |data.cnInsert.rows|)
    requires RelocProgress(data, ins, insTxn, cn, delTxn, blocks, locs, i)
    modifies data
    ensures data.Valid() && RelocProgress(data, ins, insTxn, cn, delTxn, blocks, locs, i + 1)
    ensures |data.insert| == old(|data.insert|) && |data.cnInsert.rows| == old(|data.cnInsert.rows|)
    ensures data.blkDelete == old(data.blkDelete) && data.locations == old(data.locations)
    ensures data.insertRanges == old(data.insertRanges) && data.deleteRanges == old(data.deleteRanges)
  {
    RelocatedBlkStep(ins, blocks, locs, i, false);
    RelocatedTxnStep(insTxn, blocks, locs, i, false);
    RelocatedBlkStep(cn.rows, blocks, locs, i, true);
    RelocatedTxnStep(delTxn.rows, blocks, locs, i, true);
    RelocateBlock(data, blocks[i], locs[i]);
  }

  /** Last writer wins: after relocation, column `col` of row `r` holds the
      location of the last block that lists `r` and writes `col`, and keeps
      its old value when no block does; a block listing `r` that writes
      `col` and comes after every other such block decides it. */
  lemma {:induction false} FinalLocSpec(blocks: seq<BlockData>, locs: seq<Location>, m: nat, cnSide: bool,
                                        col: LocColumn, r: nat, init: Location)
    requires m <= |blocks| == |locs|
    ensures (forall i | 0 <= i < m :: !(Writes(blocks[i], cnSide, col) && r in Listed(blocks[i], cnSide)))
            ==> FinalLoc(blocks, locs, m, cnSide, col, r, init) == init
    ensures forall i | 0 <= i < m && Writes(blocks[i], cnSide, col) && r in Listed(blocks[i], cnSide)
                       && (forall j | i < j < m :: !(Writes(blocks[j], cnSide, col) && r in Listed(blocks[j], cnSide))) ::
              FinalLoc(blocks, locs, m, cnSide, col, r, init) == locs[i]
  {
    if m > 0 {
      FinalLocSpec(blocks, locs, m - 1, cnSide, col, r, init);
      var last := Writes(blocks[m - 1], cnSide, col) && r in Listed(blocks[m - 1], cnSide);
      forall i | 0 <= i < m && Writes(blocks[i], cnSide, col) && r in Listed(blocks[i], cnSide)
                 && (forall j | i < j < m :: !(Writes(blocks[j], cnSide, col) && r in Listed(blocks[j], cnSide)))
        ensures FinalLoc(blocks, locs, m, cnSide, col, r, init) == locs[i]
      {
        if i < m - 1 {
          assert !last;
        }
      }
    }
  }
}
