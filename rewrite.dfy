/** The per-object decisions of the rewrite loop of
    `ReWriteCheckpointAndBlockFromKey`: the order the blocks of an object are
    visited in, which branch an object takes, and what the promotion and
    merge branches produce for reconciliation. */
module Rewrite {
  import opened BackupTypes
  import opened Containers
  import opened ObjectIndex
  import opened Files
  import opened ApplyDelete

  // ---------------------------------------------------------------- block order

  predicate Ascending(ks: seq<uint16>) {
    forall i, j | 0 <= i < j < |ks| :: ks[i] < ks[j]
  }

  /** The keys in `keys` below `m`, ascending. */
  function KeysBelow(keys: set<uint16>, m: nat): seq<uint16>
    requires m <= 0x1_0000
  {
    if m == 0 then [] else KeysBelow(keys, m - 1) + (if m - 1 in keys then [m - 1] else [])
  }

  lemma {:induction false} KeysBelowSpec(keys: set<uint16>, m: nat)
    requires m <= 0x1_0000
    ensures forall k: uint16 :: k in KeysBelow(keys, m) <==> k in keys && k < m
    ensures Ascending(KeysBelow(keys, m))
  {
    if m > 0 {
      KeysBelowSpec(keys, m - 1);
      var prev := KeysBelow(keys, m - 1);
      var tail: seq<uint16> := if m - 1 in keys then [m - 1] else [];
      assert KeysBelow(keys, m) == prev + tail;
      forall k: uint16 ensures k in prev + tail <==> k in keys && k < m {
        assert k in prev + tail <==> k in prev || k in tail;
      }
      forall i, j | 0 <= i < j < |prev + tail| ensures (prev + tail)[i] < (prev + tail)[j] {
        if j >= |prev| {
          assert (prev + tail)[i] == prev[i] && prev[i] in prev;
        }
      }
    }
  }

  lemma {:induction false} KeysBelowCount(keys: set<uint16>, m: nat)
    requires m <= 0x1_0000
    ensures |KeysBelow(keys, m)| == |set k | k in keys && k < m|
  {
    if m > 0 {
      KeysBelowCount(keys, m - 1);
      var below := set k | k in keys && k < m - 1;
      var upTo := set k | k in keys && k < m;
      if m - 1 in keys {
        assert upTo == below + {m - 1};
        assert m - 1 !in below;
      } else {
        assert upTo == below;
      }
    }
  }

  /** The block indices of an object in ascending order. */
  function SortedKeys(keys: set<uint16>): seq<uint16> {
    KeysBelow(keys, 0x1_0000)
  }

  /** `SortedKeys` lists every key once, in ascending order. */
  lemma SortedKeysSpec(keys: set<uint16>)
    ensures forall k: uint16 :: k in SortedKeys(keys) <==> k in keys
    ensures Ascending(SortedKeys(keys))
    ensures |SortedKeys(keys)| == |keys|
  {
    KeysBelowSpec(keys, 0x1_0000);
    KeysBelowCount(keys, 0x1_0000);
    assert (set k | k in keys && k < 0x1_0000) == keys;
  }

  /** Every block is filed under its own index. */
  predicate Keyed(f: FileData) {
    forall k | k in f.data :: f.data[k].num == k
  }

  /** `dataBlocks` after `sort.Slice(... num ...)`: the blocks of `f`, in
      ascending order of their index. */
  function SortedBlocks(f: FileData): (r: seq<BlockData>)
    ensures |r| == |f.data|
  {
    var ks := SortedKeys(f.data.Keys);
    SortedKeysSpec(f.data.Keys);
    assert forall i | 0 <= i < |ks| :: ks[i] in ks;
    seq(|ks|, i requires 0 <= i < |ks| => f.data[ks[i]])
  }

  /** Block `i` of `dataBlocks` is the block filed under the `i`-th
      smallest index. */
  lemma SortedBlocksAt(f: FileData, i: int)
    requires 0 <= i < |f.data|
    ensures i < |SortedKeys(f.data.Keys)| && SortedKeys(f.data.Keys)[i] in f.data
    ensures SortedBlocks(f)[i] == f.data[SortedKeys(f.data.Keys)[i]]
  {
    SortedKeysSpec(f.data.Keys);
    var ks := SortedKeys(f.data.Keys);
    assert ks[i] in ks;
  }

  lemma SortedBlocksAscending(f: FileData)
    requires Keyed(f)
    ensures forall i, j | 0 <= i < j < |SortedBlocks(f)| :: SortedBlocks(f)[i].num < SortedBlocks(f)[j].num
  {
    var ks := SortedKeys(f.data.Keys);
    var r := SortedBlocks(f);
    SortedKeysSpec(f.data.Keys);
    forall i, j | 0 <= i < j < |r| ensures r[i].num < r[j].num {
      SortedBlocksAt(f, i);
      SortedBlocksAt(f, j);
      assert ks[i] < ks[j];
    }
  }

  lemma SortedBlocksComplete(f: FileData)
    ensures forall k | k in f.data :: exists i | 0 <= i < |SortedBlocks(f)| :: SortedBlocks(f)[i] == f.data[k]
    ensures forall i | 0 <= i < |SortedBlocks(f)| :: SortedBlocks(f)[i] in f.data.Values
  {
    var ks := SortedKeys(f.data.Keys);
    var r := SortedBlocks(f);
    SortedKeysSpec(f.data.Keys);
    forall k | k in f.data ensures exists i | 0 <= i < |r| :: r[i] == f.data[k] {
      assert k in ks;
      var i :| 0 <= i < |ks| && ks[i] == k;
      SortedBlocksAt(f, i);
    }
    forall i | 0 <= i < |r| ensures r[i] in f.data.Values {
      SortedBlocksAt(f, i);
    }
  }

  lemma SortedBlocksFirst(f: FileData)
    ensures 0 in f.data ==> SortedBlocks(f)[0] == f.data[0]
  {
    var ks := SortedKeys(f.data.Keys);
    SortedKeysSpec(f.data.Keys);
    if 0 in f.data {
      assert 0 in ks;
      var i :| 0 <= i < |ks| && ks[i] == 0;
      assert ks[0] <= ks[i];
      SortedBlocksAt(f, 0);
    }
  }

  /** The sort puts every block of the object exactly once into
      `dataBlocks`, in strictly ascending order of `num`; block 0, when
      there is one, comes first. */
  lemma SortedBlocksSpec(f: FileData)
    requires Keyed(f)
    ensures forall i, j | 0 <= i < j < |SortedBlocks(f)| :: SortedBlocks(f)[i].num < SortedBlocks(f)[j].num
    ensures forall k | k in f.data :: exists i | 0 <= i < |SortedBlocks(f)| :: SortedBlocks(f)[i] == f.data[k]
    ensures forall i | 0 <= i < |SortedBlocks(f)| :: SortedBlocks(f)[i] in f.data.Values
    ensures 0 in f.data ==> SortedBlocks(f)[0] == f.data[0]
  {
    SortedBlocksAscending(f);
    SortedBlocksComplete(f);
    SortedBlocksFirst(f);
  }

  // ---------------------------------------------------------- branch selection

  /** Block 0 of the object exists and is a tombstone
      (`objectData.data[0] != nil && data[0].blockType == SchemaTombstone`). */
  predicate BlockZeroIsTombstone(f: FileData) {
    0 in f.data && f.data[0].blockType == SchemaTombstone
  }

  /** Block 0 of the object exists and is not a tombstone. */
  predicate BlockZeroIsData(f: FileData) {
    0 in f.data && f.data[0].blockType != SchemaTombstone
  }

  /** The branch the rewrite loop takes for an object. */
  datatype ObjectPath =
    | Untouched        // neither changed nor a delete batch: skipped
    | RewriteInPlace   // written again under its own name, then relocated
    | MergeBlocks      // sealed blocks of a delete batch go back to the live table
    | PromoteBlock     // the appendable block of a delete batch is sealed anew
    | RelocateOnly     // location columns rewritten without writing the object

  /** The branch, decided as the loop decides it: the in-place guard first,
      which clears `isDeleteBatch`, then the promotion guard on the updated
      flag, then relocation. */
  function PathOf(f: FileData): ObjectPath {
    if !f.isChange && !f.isDeleteBatch then Untouched
    else
      var inPlace := f.isChange && (!f.isDeleteBatch || BlockZeroIsTombstone(f));
      var isDeleteBatch := f.isDeleteBatch && !inPlace;
      if isDeleteBatch && BlockZeroIsData(f) then
        if f.isABlock then PromoteBlock else MergeBlocks
      else if inPlace then RewriteInPlace
      else RelocateOnly
  }

  /** The branches in closed form. Promotion and merge do not depend on the
      change flag: a delete batch whose block 0 holds data is promoted or
      merged even when the trim pass changed it, and the in-place guard can
      never clear the flag the promotion guard then reads. An object that is
      relocated without being written is a delete batch without a data
      block 0, and when it was changed it has no block 0 at all. */
  lemma PathOfSpec(f: FileData)
    ensures PathOf(f) == Untouched <==> !f.isChange && !f.isDeleteBatch
    ensures PathOf(f) == PromoteBlock <==> f.isDeleteBatch && BlockZeroIsData(f) && f.isABlock
    ensures PathOf(f) == MergeBlocks <==> f.isDeleteBatch && BlockZeroIsData(f) && !f.isABlock
    ensures PathOf(f) == RewriteInPlace <==>
              f.isChange && (!f.isDeleteBatch || BlockZeroIsTombstone(f))
    ensures PathOf(f) == RelocateOnly <==>
              f.isDeleteBatch && !BlockZeroIsData(f) && (f.isChange ==> 0 !in f.data)
  {
  }

  // ---------------------------------------------------------- pending entries

  /** `insertBlock`: a block that reconciliation moves from the delete-side
      table to the new live-insert table. `deleteRow` is the delete-side row
      it copies; a non-empty `location` is the block's new home, written
      over the copied row; `data` is the descriptor of a merged block. */
  datatype InsertBlock = InsertBlock(
    blockId: Blockid,
    location: Location,
    deleteRow: nat,
    apply: bool,
    data: Option<BlockData>)

  /** `insertBatch`: the entries queued per table id. */
  type Pending = map<Tid, seq<InsertBlock>>

  /** The zero `Blockid` a merged entry carries. */
  const ZeroBlockid := Blockid(ObjectName(0, 0), 0)

  /** Appends `entries` to the queue of `tid`, creating it when missing. */
  function AddPending(p: Pending, tid: Tid, entries: seq<InsertBlock>): (r: Pending)
    ensures r.Keys == p.Keys + {tid}
    ensures r[tid] == (if tid in p then p[tid] else []) + entries
    ensures forall t | t in p && t != tid :: r[t] == p[t]
  {
    p[tid := (if tid in p then p[tid] else []) + entries]
  }

  // ------------------------------------------------------------------ merge

  /** What the merge branch queues for block `b`: its last delete-side row,
      no new location, and the block itself. */
  function MergeEntry(b: BlockData): InsertBlock
    requires b.deleteRow != []
  {
    InsertBlock(ZeroBlockid, EmptyLocation, b.deleteRow[|b.deleteRow| - 1], false, Some(b))
  }

  /** The entries the merge branch queues, one per block, in order. */
  function MergeEntries(blocks: seq<BlockData>): (r: seq<InsertBlock>)
    requires forall i | 0 <= i < |blocks| :: blocks[i].deleteRow != []
    ensures |r| == |blocks|
  {
    seq(|blocks|, i requires 0 <= i < |blocks| => MergeEntry(blocks[i]))
  }

  /** The merge branch as a value. */
  function MergeOutcome(blocks: seq<BlockData>, pending: Pending): Result<Pending>
    requires blocks != []
  {
    if exists i | 0 <= i < |blocks| :: blocks[i].deleteRow == [] then Err(Panic(IndexOutOfRange))
    else Ok(AddPending(pending, blocks[0].tid, MergeEntries(blocks)))
  }

  /** The merge branch ("merge nBlock"): every block, in order, queued
      under the table id of the first block; a block without delete-side
      rows makes `dt.deleteRow[len-1]` panic. */
  method MergeNBlocks(blocks: seq<BlockData>, pending: Pending) returns (res: Result<Pending>)
    requires blocks != []
    ensures res == MergeOutcome(blocks, pending)
  {
    var tid := blocks[0].tid;
    var p := pending;
    var i := 0;
    while i < |blocks|
      invariant 0 <= i <= |blocks|
      invariant forall j | 0 <= j < i :: blocks[j].deleteRow != []
      invariant i == 0 ==> p == pending
      invariant i > 0 ==> p == AddPending(pending, tid, MergeEntries(blocks[..i]))
    {
      var dt := blocks[i];
      if dt.deleteRow == [] {
        return Err(Panic(IndexOutOfRange));
      }
      assert MergeEntries(blocks[..i + 1]) == MergeEntries(blocks[..i]) + [MergeEntry(dt)];
      var queue := if tid in p then p[tid] else [];
      ghost var before := if tid in pending then pending[tid] else [];
      assert queue + [MergeEntry(dt)] == before + MergeEntries(blocks[..i + 1]);
      p := p[tid := queue + [MergeEntry(dt)]];
      i := i + 1;
    }
    assert blocks[..i] == blocks;
    return Ok(p);
  }

  /** What a merge queues, before the panic check is added in. */
  lemma MergeQueued(blocks: seq<BlockData>, pending: Pending)
    requires blocks != [] && forall i | 0 <= i < |blocks| :: blocks[i].deleteRow != []
    ensures var r := AddPending(pending, blocks[0].tid, MergeEntries(blocks));
            var before := if blocks[0].tid in pending then pending[blocks[0].tid] else [];
            && |r[blocks[0].tid]| == |before| + |blocks| && r[blocks[0].tid][..|before|] == before
            && forall j | |before| <= j < |r[blocks[0].tid]| :: r[blocks[0].tid][j] == MergeEntry(blocks[j - |before|])
  {
    var tid := blocks[0].tid;
    var before := if tid in pending then pending[tid] else [];
    var es := MergeEntries(blocks);
    var q := AddPending(pending, tid, es)[tid];
    assert q == before + es;
    assert q[..|before|] == before;
    forall j | |before| <= j < |q| ensures q[j] == MergeEntry(blocks[j - |before|]) {
      assert q[j] == es[j - |before|];
    }
  }

  /** A merge queues every block, in order, after what the first block's
      table id had queued, and leaves every other queue alone; it panics
      exactly when some block has no delete-side row. */
  lemma MergeOutcomeSpec(blocks: seq<BlockData>, pending: Pending)
    requires blocks != []
    ensures MergeOutcome(blocks, pending).Err? <==> exists i | 0 <= i < |blocks| :: blocks[i].deleteRow == []
    ensures MergeOutcome(blocks, pending).Err? ==> MergeOutcome(blocks, pending).fault == Panic(IndexOutOfRange)
    ensures MergeOutcome(blocks, pending).Ok? ==>
              var r := MergeOutcome(blocks, pending).value;
              var before := if blocks[0].tid in pending then pending[blocks[0].tid] else [];
              && r.Keys == pending.Keys + {blocks[0].tid}
              && (forall t | t in pending && t != blocks[0].tid :: r[t] == pending[t])
              && |r[blocks[0].tid]| == |before| + |blocks| && r[blocks[0].tid][..|before|] == before
              && forall j | |before| <= j < |r[blocks[0].tid]| ::
                   var b := blocks[j - |before|];
                   && r[blocks[0].tid][j].deleteRow == b.deleteRow[|b.deleteRow| - 1]
                   && r[blocks[0].tid][j].data == Some(b)
                   && r[blocks[0].tid][j].location == EmptyLocation
                   && !r[blocks[0].tid][j].apply
  {
    if forall i | 0 <= i < |blocks| :: blocks[i].deleteRow != [] {
      MergeQueued(blocks, pending);
    }
  }

  // -------------------------------------------------------------- promotion

  /** The object a promoted block is written to:
      `BuildObjectName(segment, uint16(1000) + num)`, the addition wrapping
      at 16 bits. */
  function PromotedName(n: ObjectName): ObjectName {
    ObjectName(n.segment, (1000 + n.num) % 0x1_0000)
  }

  /** The promoted object lies in the same segment and never has the name
      of the object it came from; its number is 1000 higher, wrapping
      around at 65536. */
  lemma PromotedNameSpec(n: ObjectName)
    ensures PromotedName(n).segment == n.segment
    ensures PromotedName(n) != n
    ensures n.num < 0x1_0000 - 1000 ==> PromotedName(n).num == n.num + 1000
    ensures n.num >= 0x1_0000 - 1000 ==> PromotedName(n).num == n.num + 1000 - 0x1_0000
  {
  }

  /** `batch.NewWithSize(len(Vecs) - 3)` filled with the leading columns:
      the last three columns (the commit timestamp and the other trailing
      system columns) are dropped; fewer than three columns make the size
      negative, a panic. */
  function DropTrailingColumns(b: Batch): (r: Result<BatchData>)
    ensures r.Err? <==> b.width < 3
    ensures r.Err? ==> r.fault == Panic(IndexOutOfRange)
    ensures r.Ok? ==> r.value.width == b.width - 3 && |r.value.rows| == |b.rows|
    ensures r.Ok? ==> forall i | 0 <= i < |b.rows| ::
                        |r.value.rows[i]| == b.width - 3 && r.value.rows[i] == b.rows[i][..b.width - 3]
  {
    if b.width < 3 then Err(Panic(IndexOutOfRange))
    else
      assert forall i | 0 <= i < |b.rows| :: b.rows[i] in b.rows;
      Ok(BatchData(b.width - 3, seq(|b.rows|, i requires 0 <= i < |b.rows| => b.rows[i][..b.width - 3])))
  }

  /** The loaded data of the tombstone block linked to `b`, if any. */
  function TombstoneOf(objects: ObjectsData, b: BlockData): Option<Batch> {
    if b.tombstone.Some? && HasBlock(objects, b.tombstone.value.name, b.tombstone.value.id)
    then objects[b.tombstone.value.name].data[b.tombstone.value.id].data
    else None
  }

  /** The external parts of the rewrite: what a writer reports after
      `Sync`, the column sort (`mergesort.SortBlockColumns`), and whether
      source and destination are one file service. */
  datatype Io = Io(
    layout: (ObjectName, seq<WriteItem>) -> Written,
    sortBlock: (Batch, uint16) -> Result<Batch>,
    shared: bool)

  /** The sort only reorders the rows of a batch. */
  ghost predicate SortsRows(io: Io) {
    forall b: Batch, k: uint16 | io.sortBlock(b, k).Ok? ::
      io.sortBlock(b, k).value.width == b.width
      && multiset(io.sortBlock(b, k).value.rows) == multiset(b.rows)
  }

  /** The sort step: by the sort key when the block has one. */
  function SortedBatch(io: Io, b: BlockData, bat: Batch): Result<Batch> {
    if b.sortKey != MaxUint16 then io.sortBlock(bat, b.sortKey) else Ok(bat)
  }

  /** What the promotion branch produces: the queued entry, its table id,
      the new object, its data, and the destination afterwards. */
  datatype Promotion = Promotion(entry: InsertBlock, tid: Tid, name: ObjectName,
                                 block: BatchData, dst: FileService)

  /** The promotion branch for an object with a data block 0: at most two
      blocks; block 0's rows without those its tombstone deletes, sorted,
      without the trailing three columns, written as the only block of the
      object `PromotedName(...)`; a failed sync panics. The queued entry
      points at the first written block and copies block 0's first
      delete-side row. */
  function PromoteOutcome(io: Io, objects: ObjectsData, f: FileData, dst: FileService)
    : Result<Promotion>
    requires 0 in f.data
  {
    var b := f.data[0];
    if |f.data| > 2 then Err(Panic(TooManyBlocks))
    else if b.data.None? then Err(Panic(NilBatch))
    else
      var sorted := SortedBatch(io, b, DeleteApplied(b.data.value, TombstoneOf(objects, b), b.blockId));
      if sorted.Err? then Err(sorted.fault)
      else
        var out := DropTrailingColumns(sorted.value);
        if out.Err? then Err(out.fault)
        else if b.location.EmptyLocation? then Err(Panic(IndexOutOfRange))
        else
          var name := PromotedName(b.location.name);
          var items := [WriteItem(SchemaData, b.sortKey, Some(out.value))];
          var wrote := WriteBlocks(dst, name, items);
          if wrote.Some? then Err(wrote.value)
          else
            var synced := Sync(dst, name);
            if synced.Err? then Err(Panic(SyncFailed))
            else
              var written := io.layout(name, items);
              if written.blocks == [] || b.deleteRow == [] then Err(Panic(IndexOutOfRange))
              else
                var wb := written.blocks[0];
                Ok(Promotion(
                     InsertBlock(Blockid(name, wb.id), Location(name, wb.id, written.extent, wb.rows),
                                 b.deleteRow[0], false, None),
                     b.tid, name, out.value, synced.value))
  }

  /** `PromoteOutcome` through the delete-applying loop: the branch as the
      loop body runs it. */
  method Promote(io: Io, objects: ObjectsData, f: FileData, dst: FileService)
    returns (res: Result<Promotion>)
    requires 0 in f.data
    ensures res == PromoteOutcome(io, objects, f, dst)
  {
    var b := f.data[0];
    if |f.data| > 2 {
      return Err(Panic(TooManyBlocks));
    }
    if b.data.None? {
      return Err(Panic(NilBatch));
    }
    var applied := ApplyDelete.ApplyDelete(b.data.value, TombstoneOf(objects, b), b.blockId);
    var sorted := SortedBatch(io, b, applied);
    if sorted.Err? {
      return Err(sorted.fault);
    }
    var out := DropTrailingColumns(sorted.value);
    if out.Err? {
      return Err(out.fault);
    }
    if b.location.EmptyLocation? {
      return Err(Panic(IndexOutOfRange));
    }
    var name := PromotedName(b.location.name);
    var items := [WriteItem(SchemaData, b.sortKey, Some(out.value))];
    var wrote := WriteBlocks(dst, name, items);
    if wrote.Some? {
      return Err(wrote.value);
    }
    var synced := Sync(dst, name);
    if synced.Err? {
      return Err(Panic(SyncFailed));
    }
    var written := io.layout(name, items);
    if written.blocks == [] || b.deleteRow == [] {
      return Err(Panic(IndexOutOfRange));
    }
    var wb := written.blocks[0];
    return Ok(Promotion(
                InsertBlock(Blockid(name, wb.id), Location(name, wb.id, written.extent, wb.rows),
                            b.deleteRow[0], false, None),
                b.tid, name, out.value, synced.value));
  }

  /** What a successful promotion leaves: an entry not yet applied, with no
      descriptor, whose new location and block id are in the new object and
      whose row is block 0's first delete-side row; the destination now
      holds that object, which did not exist before. More than two blocks
      panic, and so does a block 0 without loaded data. */
  lemma PromoteOutcomeSpec(io: Io, objects: ObjectsData, f: FileData, dst: FileService)
    requires 0 in f.data
    ensures |f.data| > 2 ==> PromoteOutcome(io, objects, f, dst) == Err(Panic(TooManyBlocks))
    ensures |f.data| <= 2 && f.data[0].data.None? ==>
              PromoteOutcome(io, objects, f, dst) == Err(Panic(NilBatch))
    ensures PromoteOutcome(io, objects, f, dst).Ok? ==>
              var p := PromoteOutcome(io, objects, f, dst).value;
              && f.data[0].location.Location?
              && p.name == PromotedName(f.data[0].location.name)
              && p.name != f.data[0].location.name
              && p.entry.location.Location? && p.entry.location.name == p.name
              && p.entry.blockId == Blockid(p.name, p.entry.location.id)
              && !p.entry.apply && p.entry.data.None?
              && f.data[0].deleteRow != [] && p.entry.deleteRow == f.data[0].deleteRow[0]
              && p.tid == f.data[0].tid
              && p.name !in dst.files && p.dst == dst.(files := dst.files + {p.name})
  {
    if PromoteOutcome(io, objects, f, dst).Ok? {
      PromotedNameSpec(f.data[0].location.name);
    }
  }

  /** A row left by `DeleteApplied` is a row of the data at an offset the
      tombstone, if any, does not delete. */
  lemma DeleteAppliedRow(data: Batch, tomb: Option<Batch>, id: Blockid, y: seq<Value>)
    requires y in DeleteApplied(data, tomb, id).rows
    ensures exists i | 0 <= i < |data.rows| ::
              (tomb.Some? ==> !NamedBy(tomb.value, id, i)) && y == data.rows[i]
  {
    var applied := DeleteApplied(data, tomb, id);
    var m :| 0 <= m < |applied.rows| && applied.rows[m] == y;
    if tomb.Some? {
      var d := DeletedOffsets(tomb.value, id, |data.rows|);
      WithoutSurvivors(data.rows, d);
      var sel := Survivors(|data.rows|, d);
      assert applied.rows[m] == data.rows[sel[m]];
    }
  }

  /** Tombstone consistency of a promoted block, when the sort only
      reorders rows: it holds as many rows as block 0 keeps, and each of
      them is, without the trailing three columns, a row of block 0 at an
      offset that no row of the linked tombstone deletes. */
  lemma PromotedRows(io: Io, objects: ObjectsData, f: FileData, dst: FileService)
    requires 0 in f.data && SortsRows(io)
    requires PromoteOutcome(io, objects, f, dst).Ok?
    ensures var b := f.data[0];
            var p := PromoteOutcome(io, objects, f, dst).value;
            var tomb := TombstoneOf(objects, b);
            && b.data.Some?
            && |p.block.rows| == |b.data.value.rows|
                                 - (if tomb.Some? then DeletedBelow(|b.data.value.rows|,
                                      DeletedOffsets(tomb.value, b.blockId, |b.data.value.rows|)) else 0)
            && forall x | x in p.block.rows ::
                 exists i | 0 <= i < |b.data.value.rows| ::
                   && (tomb.Some? ==> !NamedBy(tomb.value, b.blockId, i))
                   && x == b.data.value.rows[i][..b.data.value.width - 3]
  {
    var b := f.data[0];
    PromotedBlockOf(io, objects, f, dst);
    var tomb := TombstoneOf(objects, b);
    var data := b.data.value;
    var sorted := SortedBatch(io, b, DeleteApplied(data, tomb, b.blockId)).value;
    TrimmedSortedRows(data, tomb, b.blockId, sorted);
  }

  /** A successful promotion writes block 0's rows, deletes applied,
      sorted, without the trailing columns. */
  lemma PromotedBlockOf(io: Io, objects: ObjectsData, f: FileData, dst: FileService)
    requires 0 in f.data && PromoteOutcome(io, objects, f, dst).Ok?
    ensures var b := f.data[0];
            && b.data.Some?
            && var sorted := SortedBatch(io, b, DeleteApplied(b.data.value, TombstoneOf(objects, b), b.blockId));
               && sorted.Ok? && DropTrailingColumns(sorted.value).Ok?
               && PromoteOutcome(io, objects, f, dst).value.block == DropTrailingColumns(sorted.value).value
  {
  }

  /** A permutation of the rows `DeleteApplied` leaves, cut to its leading
      columns, keeps their number, and each row comes from a surviving row
      of the data. */
  lemma TrimmedSortedRows(data: Batch, tomb: Option<Batch>, id: Blockid, sorted: Batch)
    requires sorted.width == data.width && multiset(sorted.rows) == multiset(DeleteApplied(data, tomb, id).rows)
    requires DropTrailingColumns(sorted).Ok?
    ensures |DropTrailingColumns(sorted).value.rows| == |DeleteApplied(data, tomb, id).rows|
    ensures forall x | x in DropTrailingColumns(sorted).value.rows ::
              exists i | 0 <= i < |data.rows| ::
                && (tomb.Some? ==> !NamedBy(tomb.value, id, i))
                && x == data.rows[i][..data.width - 3]
  {
    var applied := DeleteApplied(data, tomb, id);
    var block := DropTrailingColumns(sorted).value;
    assert |sorted.rows| == |applied.rows| by {
      assert |multiset(sorted.rows)| == |multiset(applied.rows)|;
    }
    forall x | x in block.rows
      ensures exists i | 0 <= i < |data.rows| ::
                && (tomb.Some? ==> !NamedBy(tomb.value, id, i))
                && x == data.rows[i][..data.width - 3]
    {
      var k :| 0 <= k < |block.rows| && block.rows[k] == x;
      var y := sorted.rows[k];
      assert x == y[..data.width - 3];
      assert y in multiset(applied.rows);
      DeleteAppliedRow(data, tomb, id, y);
    }
  }
}
