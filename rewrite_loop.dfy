/** The object loop of `ReWriteCheckpointAndBlockFromKey` (phase 4): every
    object of the trimmed index, in the order the map hands them out, takes
    its branch; the file services, the queue of pending entries and the
    list of written files are carried from one object to the next, and the
    location columns of the checkpoint are rewritten in place. */
module RewriteLoop {
  import opened BackupTypes
  import opened Containers
  import opened ObjectIndex
  import opened Files
  import opened Checkpoint
  import opened Relocation
  import opened Rewrite

  /** What the loop carries from one object to the next. */
  datatype RewriteState = RewriteState(src: FileService, dst: FileService, pending: Pending,
                                       files: seq<ObjectName>)

  /** One object's effect: the state after it, and the locations its
      sorted blocks are relocated to when its branch relocates them. */
  datatype ObjectStep = ObjectStep(st: RewriteState, relocate: Option<seq<Location>>)

  function AsItemData(d: Option<Batch>): Option<BatchData> {
    if d.Some? then Some(d.value) else None
  }

  /** What the in-place rewrite hands the writer: every block, in order of
      `num`, as a data or a tombstone batch under its sort key. */
  function InPlaceItems(blocks: seq<BlockData>): (r: seq<WriteItem>)
    ensures |r| == |blocks|
  {
    seq(|blocks|, i requires 0 <= i < |blocks| =>
          WriteItem(blocks[i].blockType, blocks[i].sortKey, AsItemData(blocks[i].data)))
  }

  /** The branch one object takes, as a value: the in-place rewrite writes
      the object again under its own name to the destination and syncs it
      with the one retry after a clash as written (`SyncWithRetry`: the
      clashing object is deleted through the source service), then
      relocates its blocks to the new object; a delete batch without a data block 0 is only relocated;
      the merge branch queues every block; the promotion branch writes the
      new object, queues its entry and records its name. */
  function ObjectOutcome(io: Io, objects: ObjectsData, n: ObjectName, st: RewriteState): (r: Result<ObjectStep>)
    requires n in objects && Keyed(objects[n])
    ensures r.Ok? && r.value.relocate.Some? ==> |r.value.relocate.value| == |objects[n].data|
  {
    var f := objects[n];
    var blocks := SortedBlocks(f);
    PathOfSpec(f);
    match PathOf(f)
    case Untouched => Ok(ObjectStep(st, None))
    case RewriteInPlace =>
      var items := InPlaceItems(blocks);
      var wrote := WriteBlocks(st.dst, n, items);
      if wrote.Some? then Err(wrote.value)
      else
        var synced := SyncWithRetry(st.src, st.dst, io.shared, n);
        if synced.fault.Some? then Err(synced.fault.value)
        else
          var locs := NewLocations(f.name, f.isChange, blocks, Some(io.layout(n, items)));
          if locs.Err? then Err(locs.fault)
          else Ok(ObjectStep(st.(src := synced.src, dst := synced.dst), Some(locs.value)))
    case RelocateOnly =>
      var locs := NewLocations(f.name, f.isChange, blocks, None);
      if locs.Err? then Err(locs.fault) else Ok(ObjectStep(st, Some(locs.value)))
    case MergeBlocks =>
      var merged := MergeOutcome(blocks, st.pending);
      if merged.Err? then Err(merged.fault) else Ok(ObjectStep(st.(pending := merged.value), None))
    case PromoteBlock =>
      var p := PromoteOutcome(io, objects, f, st.dst);
      if p.Err? then Err(p.fault)
      else
        Ok(ObjectStep(st.(src := if io.shared then p.value.dst else st.src, dst := p.value.dst,
                          pending := AddPending(st.pending, p.value.tid, [p.value.entry]),
                          files := st.files + [p.value.name]), None))
  }

  /** The in-place branch hands the writer every block, and a block the
      trim pass never loaded is a nil batch: unless the writer cannot be
      made or the store fails the first write, the branch panics. */
  lemma InPlaceUnloadedPanics(io: Io, objects: ObjectsData, n: ObjectName, st: RewriteState, j: nat)
    requires n in objects && Keyed(objects[n]) && PathOf(objects[n]) == RewriteInPlace
    requires j < |SortedBlocks(objects[n])| && SortedBlocks(objects[n])[j].data.None?
    requires !FailsOn(st.dst, n, NewWriter) && !FailsOn(st.dst, n, WriteBlock)
    ensures ObjectOutcome(io, objects, n, st) == Err(Panic(NilBatch))
  {
    var items := InPlaceItems(SortedBlocks(objects[n]));
    assert items[j].data.None?;
    assert Unloaded(items);
  }

  /** With two distinct services, an in-place rewrite whose destination
      already holds the object fails with the clash: the retry deletes the
      object from the source and the second sync meets the same object. */
  lemma InPlaceClashAcrossServicesFails(io: Io, objects: ObjectsData, n: ObjectName, st: RewriteState)
    requires n in objects && Keyed(objects[n]) && PathOf(objects[n]) == RewriteInPlace
    requires WriteBlocks(st.dst, n, InPlaceItems(SortedBlocks(objects[n]))).None?
    requires !io.shared && !FailsOn(st.dst, n, SyncObject) && n in st.dst.files
    requires !FailsOn(st.src, n, DeleteObject)
    ensures ObjectOutcome(io, objects, n, st) == Err(FileAlreadyExists)
  {
    ClashAcrossServicesDeletesSource(st.src, st.dst, n);
  }

  /** The tables after one object: relocated when its branch relocates. */
  function StepTables(t: LocTables, blocks: seq<BlockData>, relocate: Option<seq<Location>>): LocTables {
    if relocate.Some? && |relocate.value| == |blocks| then Relocated(t, blocks, relocate.value) else t
  }

  /** One iteration of the object loop. */
  method RewriteObject(io: Io, objects: ObjectsData, n: ObjectName, st: RewriteState, data: CheckpointData)
    returns (res: Result<RewriteState>)
    requires n in objects && Keyed(objects[n])
    requires data.Valid() && RowsInRange(SortedBlocks(objects[n]), |data.insert|, |data.cnInsert.rows|)
    modifies data
    ensures data.Valid()
    ensures var o := ObjectOutcome(io, objects, n, st);
            && (o.Err? ==> res == Err(o.fault) && TablesOf(data) == old(TablesOf(data)))
            && (o.Ok? ==> res == Ok(o.value.st)
                          && TablesOf(data) == StepTables(old(TablesOf(data)), SortedBlocks(objects[n]), o.value.relocate))
    ensures data.blkDelete == old(data.blkDelete) && data.locations == old(data.locations)
    ensures data.insertRanges == old(data.insertRanges) && data.deleteRanges == old(data.deleteRanges)
  {
    var f := objects[n];
    var blocks := SortedBlocks(f);
    PathOfSpec(f);
    var path := PathOf(f);
    if path == Untouched {
      return Ok(st);
    }
    if path == MergeBlocks {
      var merged := MergeNBlocks(blocks, st.pending);
      if merged.Err? {
        return Err(merged.fault);
      }
      return Ok(st.(pending := merged.value));
    }
    if path == PromoteBlock {
      var p := Promote(io, objects, f, st.dst);
      if p.Err? {
        return Err(p.fault);
      }
      return Ok(st.(src := if io.shared then p.value.dst else st.src, dst := p.value.dst,
                    pending := AddPending(st.pending, p.value.tid, [p.value.entry]),
                    files := st.files + [p.value.name]));
    }
    var written: Option<Written> := None;
    var next := st;
    if path == RewriteInPlace {
      var items := InPlaceItems(blocks);
      var wrote := WriteBlocks(st.dst, n, items);
      if wrote.Some? {
        return Err(wrote.value);
      }
      var synced := SyncWithRetry(st.src, st.dst, io.shared, n);
      if synced.fault.Some? {
        return Err(synced.fault.value);
      }
      written := Some(io.layout(n, items));
      next := st.(src := synced.src, dst := synced.dst);
    }
    var locs := NewLocations(f.name, f.isChange, blocks, written);
    if locs.Err? {
      return Err(locs.fault);
    }
    RelocateObject(data, blocks, locs.value);
    return Ok(next);
  }

  /** Every object of `order` is in the index and keyed by block number. */
  predicate Visitable(objects: ObjectsData, order: seq<ObjectName>) {
    forall i | 0 <= i < |order| :: order[i] in objects && Keyed(objects[order[i]])
  }

  /** Reference definition of the object loop over the objects in `order`:
      the first failure ends it. */
  function RewriteFold(io: Io, objects: ObjectsData, order: seq<ObjectName>, st: RewriteState, t: LocTables)
    : Result<(RewriteState, LocTables)>
    requires Visitable(objects, order)
    decreases |order|
  {
    if order == [] then Ok((st, t))
    else
      var o := ObjectOutcome(io, objects, order[0], st);
      if o.Err? then Err(o.fault)
      else RewriteFold(io, objects, order[1..], o.value.st,
                       StepTables(t, SortedBlocks(objects[order[0]]), o.value.relocate))
  }

  /** Every row a block of the index lists is a row of its table. */
  predicate AllRowsInRange(objects: ObjectsData, insertRows: nat, cnRows: nat) {
    forall n, k | n in objects && k in objects[n].data ::
      (forall j | 0 <= j < |objects[n].data[k].insertRow| :: objects[n].data[k].insertRow[j] < insertRows)
      && (forall j | 0 <= j < |objects[n].data[k].deleteRow| :: objects[n].data[k].deleteRow[j] < cnRows)
  }

  lemma SortedBlocksInRange(objects: ObjectsData, n: ObjectName, insertRows: nat, cnRows: nat)
    requires n in objects && Keyed(objects[n]) && AllRowsInRange(objects, insertRows, cnRows)
    ensures RowsInRange(SortedBlocks(objects[n]), insertRows, cnRows)
  {
    SortedBlocksSpec(objects[n]);
  }

  /** The object loop: every object of `order` in turn. On success the
      state and the tables are those of `RewriteFold`. */
  method RewriteObjects(io: Io, objects: ObjectsData, order: seq<ObjectName>, st: RewriteState,
                        data: CheckpointData)
    returns (res: Result<RewriteState>)
    requires Visitable(objects, order)
    requires data.Valid() && AllRowsInRange(objects, |data.insert|, |data.cnInsert.rows|)
    modifies data
    ensures data.Valid()
    ensures var r := RewriteFold(io, objects, order, st, old(TablesOf(data)));
            && (r.Err? ==> res == Err(r.fault))
            && (r.Ok? ==> res == Ok(r.value.0) && TablesOf(data) == r.value.1)
    ensures data.blkDelete == old(data.blkDelete) && data.locations == old(data.locations)
    ensures data.insertRanges == old(data.insertRanges) && data.deleteRanges == old(data.deleteRanges)
  {
    ghost var full := RewriteFold(io, objects, order, st, TablesOf(data));
    ghost var nIns, nCn := |data.insert|, |data.cnInsert.rows|;
    var cur := st;
    var i := 0;
    while i < |order|
      invariant 0 <= i <= |order| && data.Valid()
      invariant |data.insert| == nIns && |data.cnInsert.rows| == nCn
      invariant full == RewriteFold(io, objects, order[i..], cur, TablesOf(data))
      invariant data.blkDelete == old(data.blkDelete) && data.locations == old(data.locations)
      invariant data.insertRanges == old(data.insertRanges) && data.deleteRanges == old(data.deleteRanges)
    {
      var n := order[i];
      assert order[i..][0] == n && order[i..][1..] == order[i + 1..];
      SortedBlocksInRange(objects, n, nIns, nCn);
      var r := RewriteObject(io, objects, n, cur, data);
      if r.Err? {
        return Err(r.fault);
      }
      cur := r.value;
      i := i + 1;
    }
    return Ok(cur);
  }

  // ------------------------------------------------------------ properties

  /** Every queued entry is not yet applied, names rows of the CN table
      (its own, and those of the block it carries), and carries a block
      only when it has no new location. */
  predicate WellQueued(p: Pending, cnRows: nat) {
    forall t, j | t in p && 0 <= j < |p[t]| ::
      && !p[t][j].apply && p[t][j].deleteRow < cnRows
      && (p[t][j].location.Location? ==> p[t][j].data.None?)
      && (p[t][j].data.Some? ==>
            forall r | 0 <= r < |p[t][j].data.value.deleteRow| :: p[t][j].data.value.deleteRow[r] < cnRows)
  }

  /** `q` extends `p`: no queue is dropped or shortened. */
  predicate Extends(p: Pending, q: Pending) {
    forall t | t in p :: t in q && |p[t]| <= |q[t]| && q[t][..|p[t]|] == p[t]
  }

  /** Appending entries that are well formed keeps the queue well formed
      and extends it. */
  lemma AddPendingKeeps(p: Pending, tid: Tid, entries: seq<InsertBlock>, cnRows: nat)
    requires WellQueued(p, cnRows) && WellQueued(map[tid := entries], cnRows)
    ensures WellQueued(AddPending(p, tid, entries), cnRows)
    ensures Extends(p, AddPending(p, tid, entries))
  {
    var q: Pending := AddPending(p, tid, entries);
    forall t: Tid, j: int | t in q && 0 <= j < |q[t]|
      ensures !q[t][j].apply && q[t][j].deleteRow < cnRows
      ensures q[t][j].location.Location? ==> q[t][j].data.None?
      ensures q[t][j].data.Some? ==>
                forall r | 0 <= r < |q[t][j].data.value.deleteRow| :: q[t][j].data.value.deleteRow[r] < cnRows
    {
      if t == tid {
        var before := if tid in p then p[tid] else [];
        if j >= |before| {
          assert q[t][j] == map[tid := entries][tid][j - |before|];
        }
      }
    }
  }

  /** The merge branch queues well-formed entries when the blocks list rows
      of the CN table. */
  lemma MergeKeeps(blocks: seq<BlockData>, pending: Pending, insRows: nat, cnRows: nat)
    requires blocks != [] && MergeOutcome(blocks, pending).Ok?
    requires RowsInRange(blocks, insRows, cnRows) && WellQueued(pending, cnRows)
    ensures WellQueued(MergeOutcome(blocks, pending).value, cnRows)
    ensures Extends(pending, MergeOutcome(blocks, pending).value)
  {
    var entries := MergeEntries(blocks);
    forall j | 0 <= j < |entries|
      ensures entries[j].deleteRow < cnRows
    {
      assert blocks[j].deleteRow[|blocks[j].deleteRow| - 1] < cnRows;
    }
    AddPendingKeeps(pending, blocks[0].tid, entries, cnRows);
  }

  /** From `st` to `s` the queue stays well formed and only grows, the
      list of written files only grows, and one service stays one. */
  predicate Keeps(io: Io, st: RewriteState, s: RewriteState, cnRows: nat) {
    && WellQueued(s.pending, cnRows)
    && Extends(st.pending, s.pending)
    && |st.files| <= |s.files| && s.files[..|st.files|] == st.files
    && (io.shared && st.src == st.dst ==> s.src == s.dst)
  }

  lemma PromoteKeeps(io: Io, objects: ObjectsData, n: ObjectName, st: RewriteState, insRows: nat, cnRows: nat)
    requires n in objects && Keyed(objects[n]) && PathOf(objects[n]) == PromoteBlock
    requires ObjectOutcome(io, objects, n, st).Ok?
    requires AllRowsInRange(objects, insRows, cnRows) && WellQueued(st.pending, cnRows)
    ensures Keeps(io, st, ObjectOutcome(io, objects, n, st).value.st, cnRows)
  {
    var f := objects[n];
    PathOfSpec(f);
    PromoteOutcomeSpec(io, objects, f, st.dst);
    var p := PromoteOutcome(io, objects, f, st.dst).value;
    assert f.data[0].deleteRow[0] < cnRows;
    AddPendingKeeps(st.pending, p.tid, [p.entry], cnRows);
  }

  /** One object keeps the queue well formed, only appends to it, only
      appends to the list of written files, and, given one service as both
      source and destination, keeps them one. */
  lemma ObjectOutcomeKeeps(io: Io, objects: ObjectsData, n: ObjectName, st: RewriteState,
                            insRows: nat, cnRows: nat)
    requires n in objects && Keyed(objects[n]) && ObjectOutcome(io, objects, n, st).Ok?
    requires AllRowsInRange(objects, insRows, cnRows)
    requires WellQueued(st.pending, cnRows)
    ensures Keeps(io, st, ObjectOutcome(io, objects, n, st).value.st, cnRows)
  {
    var f := objects[n];
    PathOfSpec(f);
    if PathOf(f) == MergeBlocks {
      SortedBlocksInRange(objects, n, insRows, cnRows);
      MergeKeeps(SortedBlocks(f), st.pending, insRows, cnRows);
    } else if PathOf(f) == PromoteBlock {
      PromoteKeeps(io, objects, n, st, insRows, cnRows);
    }
  }

  /** The whole loop keeps the queue well formed, only appends to the
      queues and to the list of written files, and keeps one service one. */
  lemma {:induction false} RewriteFoldKeeps(io: Io, objects: ObjectsData, order: seq<ObjectName>,
                                            st: RewriteState, t: LocTables, insRows: nat, cnRows: nat)
    requires Visitable(objects, order) && RewriteFold(io, objects, order, st, t).Ok?
    requires AllRowsInRange(objects, insRows, cnRows) && WellQueued(st.pending, cnRows)
    ensures Keeps(io, st, RewriteFold(io, objects, order, st, t).value.0, cnRows)
    decreases |order|
  {
    if order != [] {
      var o := ObjectOutcome(io, objects, order[0], st).value;
      ObjectOutcomeKeeps(io, objects, order[0], st, insRows, cnRows);
      RewriteFoldKeeps(io, objects, order[1..], o.st,
                       StepTables(t, SortedBlocks(objects[order[0]]), o.relocate), insRows, cnRows);
      var s := RewriteFold(io, objects, order, st, t).value.0;
      assert s.files[..|o.st.files|][..|st.files|] == s.files[..|st.files|];
      forall tid | tid in st.pending
        ensures tid in s.pending && |st.pending[tid]| <= |s.pending[tid]| && s.pending[tid][..|st.pending[tid]|] == st.pending[tid]
      {
        assert s.pending[tid][..|o.st.pending[tid]|][..|st.pending[tid]|] == s.pending[tid][..|st.pending[tid]|];
      }
    }
  }
}
