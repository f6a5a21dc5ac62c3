/** The two entry points: `ReWriteCheckpointAndBlockFromKey`, which trims a
    checkpoint and the objects it names to a timestamp, and
    `LoadCheckpointEntriesFromKey`, which lists the locations a checkpoint
    names and adds its blocks to the soft-delete set. */
module Backup {
  import opened BackupTypes
  import opened Containers
  import opened ObjectIndex
  import opened Trim
  import opened Files
  import opened Checkpoint
  import opened Relocation
  import opened Rewrite
  import opened RewriteLoop
  import opened Reconcile
  import opened Offsets
  import opened ReconcileTables

  // ------------------------------------------ LoadCheckpointEntriesFromKey

  /** The non-empty locations of the rows `rows`, row by row, the meta
      location before the delta location. */
  function RowLocations(rows: seq<BlkMetaRow>): seq<Location> {
    if rows == [] then []
    else
      var row := rows[|rows| - 1];
      RowLocations(rows[..|rows| - 1])
      + (if row.metaLoc.IsEmpty() then [] else [row.metaLoc])
      + (if row.deltaLoc.IsEmpty() then [] else [row.deltaLoc])
  }

  /** The blocks named by the non-empty meta locations of the rows below `m`. */
  function MetaKeys(rows: seq<BlkMetaRow>, m: nat): set<BlockKey>
    requires m <= |rows|
  {
    set j | 0 <= j < m && rows[j].metaLoc.Location? :: BlockKey(rows[j].metaLoc.name, rows[j].metaLoc.id)
  }

  /** A location is listed exactly when it is a non-empty location of some row. */
  lemma {:induction false} RowLocationsSpec(rows: seq<BlkMetaRow>, l: Location)
    ensures l in RowLocations(rows) <==>
              l.Location? && exists j | 0 <= j < |rows| :: rows[j].metaLoc == l || rows[j].deltaLoc == l
  {
    if rows != [] {
      var prev := rows[..|rows| - 1];
      RowLocationsSpec(prev, l);
      assert forall j | 0 <= j < |prev| :: prev[j] == rows[j];
    }
  }

  lemma MetaKeysStep(rows: seq<BlkMetaRow>, i: nat)
    requires i < |rows|
    ensures MetaKeys(rows, i + 1) == MetaKeys(rows, i)
              + (if rows[i].metaLoc.Location? then {BlockKey(rows[i].metaLoc.name, rows[i].metaLoc.id)} else {})
  {
  }

  /** The loop over the live-insert table: its non-empty locations. */
  method InsertLocations(ins: seq<BlkMetaRow>) returns (locations: seq<Location>)
    ensures locations == RowLocations(ins)
  {
    locations := [];
    var i := 0;
    while i < |ins|
      invariant 0 <= i <= |ins|
      invariant locations == RowLocations(ins[..i])
    {
      var row := ins[i];
      if !row.metaLoc.IsEmpty() {
        locations := locations + [row.metaLoc];
      }
      if !row.deltaLoc.IsEmpty() {
        locations := locations + [row.deltaLoc];
      }
      assert ins[..i + 1][..i] == ins[..i];
      i := i + 1;
    }
    assert ins[..i] == ins;
  }

  /** The loop over the CN table: its non-empty locations, and, when a
      soft-delete set is given, the set with the block of every non-empty
      meta location added. */
  method CNLocations(cn: seq<BlkMetaRow>, softDeletes: Option<SoftDeletes>)
    returns (locations: seq<Location>, newSoftDeletes: Option<SoftDeletes>)
    ensures locations == RowLocations(cn)
    ensures softDeletes.None? ==> newSoftDeletes.None?
    ensures softDeletes.Some? ==> newSoftDeletes == Some(softDeletes.value + MetaKeys(cn, |cn|))
  {
    locations := [];
    newSoftDeletes := softDeletes;
    assert MetaKeys(cn, 0) == {};
    assert softDeletes.Some? ==> softDeletes.value + MetaKeys(cn, 0) == softDeletes.value;
    var i := 0;
    while i < |cn|
      invariant 0 <= i <= |cn|
      invariant locations == RowLocations(cn[..i])
      invariant softDeletes.None? ==> newSoftDeletes.None?
      invariant softDeletes.Some? ==> newSoftDeletes == Some(softDeletes.value + MetaKeys(cn, i))
    {
      var row := cn[i];
      if !row.metaLoc.IsEmpty() {
        locations := locations + [row.metaLoc];
        if newSoftDeletes.Some? {
          newSoftDeletes := Some(newSoftDeletes.value + {BlockKey(row.metaLoc.name, row.metaLoc.id)});
        }
      }
      if !row.deltaLoc.IsEmpty() {
        locations := locations + [row.deltaLoc];
      }
      MetaKeysStep(cn, i);
      assert softDeletes.Some? ==> newSoftDeletes.value == softDeletes.value + MetaKeys(cn, i + 1);
      assert cn[..i + 1][..i] == cn[..i];
      i := i + 1;
    }
    assert cn[..i] == cn;
  }

  /** `LoadCheckpointEntriesFromKey` on a loaded checkpoint: the location
      of the checkpoint, the locations it records, then the non-empty
      locations of the live-insert table and of the CN table; when a
      soft-delete set is given, the block of every non-empty meta location
      of the CN table is added to it. */
  method LoadCheckpointEntries(location: Location, data: CheckpointData, softDeletes: Option<SoftDeletes>)
    returns (locations: seq<Location>, newSoftDeletes: Option<SoftDeletes>)
    ensures locations == [location] + data.locations + RowLocations(data.insert) + RowLocations(data.cnInsert.rows)
    ensures softDeletes.None? ==> newSoftDeletes.None?
    ensures softDeletes.Some? ==>
              newSoftDeletes == Some(softDeletes.value + MetaKeys(data.cnInsert.rows, |data.cnInsert.rows|))
  {
    locations := [location] + data.locations;
    var fromInsert := InsertLocations(data.insert);
    var fromCN;
    fromCN, newSoftDeletes := CNLocations(data.cnInsert.rows, softDeletes);
    locations := locations + fromInsert + fromCN;
  }

  /** The soft-delete set at work: when the set one checkpoint's load
      produced (from its CN rows `prev`) is handed to the indexing of the
      next, a CN row of the next whose block is a meta location in `prev`
      is recorded in no block, and a CN row whose block is neither in
      `prev` nor in the set before is recorded in the block of its meta
      location. */
  lemma SoftDeletesSkip(objects: ObjectsData, cn: seq<BlkMetaRow>, ins: seq<BlkMetaRow>,
                        before: SoftDeletes, prev: seq<BlkMetaRow>, i: nat)
    requires RowsIndexed(objects, cn, ins, before + MetaKeys(prev, |prev|)) && i < |cn|
    ensures cn[i].metaLoc.Location?
            && (exists j | 0 <= j < |prev| :: RowAt(prev[j].metaLoc, cn[i].metaLoc.name, cn[i].metaLoc.id)) ==>
              forall n, k :: i !in RowsOf(objects, n, k, true)
    ensures cn[i].metaLoc.Location? && !SoftDeleted(before, cn[i].metaLoc)
            && (forall j | 0 <= j < |prev| :: !RowAt(prev[j].metaLoc, cn[i].metaLoc.name, cn[i].metaLoc.id)) ==>
              i in RowsOf(objects, cn[i].metaLoc.name, cn[i].metaLoc.id, true)
  {
    var soft := before + MetaKeys(prev, |prev|);
    IndexedSoftDeletes(objects, cn, ins, soft, i);
    if cn[i].metaLoc.Location? {
      var key := BlockKey(cn[i].metaLoc.name, cn[i].metaLoc.id);
      if key in MetaKeys(prev, |prev|) {
        var j :| 0 <= j < |prev| && prev[j].metaLoc.Location? && key == BlockKey(prev[j].metaLoc.name, prev[j].metaLoc.id);
        assert RowAt(prev[j].metaLoc, cn[i].metaLoc.name, cn[i].metaLoc.id);
      }
    }
  }

  // ------------------------------------------------------ between phases

  /** The indexing loops only record rows of their tables. */
  lemma IndexedInRange(objects: ObjectsData, cn: seq<BlkMetaRow>, ins: seq<BlkMetaRow>,
                       softDeletes: SoftDeletes)
    requires RowsIndexed(objects, cn, ins, softDeletes)
    ensures AllRowsInRange(objects, |ins|, |cn|)
  {
    forall n, k | n in objects && k in objects[n].data
      ensures (forall j | 0 <= j < |objects[n].data[k].insertRow| :: objects[n].data[k].insertRow[j] < |ins|)
      ensures (forall j | 0 <= j < |objects[n].data[k].deleteRow| :: objects[n].data[k].deleteRow[j] < |cn|)
    {
      var b := objects[n].data[k];
      forall j | 0 <= j < |b.insertRow| ensures b.insertRow[j] < |ins| {
        IndexedRows(objects, cn, ins, softDeletes, n, k, b.insertRow[j]);
      }
      forall j | 0 <= j < |b.deleteRow| ensures b.deleteRow[j] < |cn| {
        IndexedRows(objects, cn, ins, softDeletes, n, k, b.deleteRow[j]);
      }
    }
  }

  /** Trimming keeps every block under its own index and keeps the rows
      it lists. */
  lemma TrimKeepsRows(st: Storage, ts: Timestamp, objects: ObjectsData, trimmed: ObjectsData,
                      insertRows: nat, cnRows: nat)
    requires Collected(objects) && AllRowsInRange(objects, insertRows, cnRows)
    requires TrimmedAll(st, ts, objects, trimmed)
    ensures AllRowsInRange(trimmed, insertRows, cnRows)
    ensures forall n | n in trimmed :: Keyed(trimmed[n])
  {
    forall n, k | n in trimmed && k in trimmed[n].data
      ensures trimmed[n].data[k].num == k
      ensures trimmed[n].data[k].insertRow == objects[n].data[k].insertRow
      ensures trimmed[n].data[k].deleteRow == objects[n].data[k].deleteRow
    {
      assert TrimmedFile(st, ts, objects[n], trimmed[n]);
      TrimmedBlockKeeps(st, ts, objects[n].data[k], trimmed[n].data[k]);
    }
  }

  lemma TrimmedBlockKeeps(st: Storage, ts: Timestamp, b: BlockData, a: BlockData)
    requires TrimmedBlock(st, ts, b, a, true) || TrimmedBlock(st, ts, b, a, false)
    ensures a.num == b.num && a.insertRow == b.insertRow && a.deleteRow == b.deleteRow
  {
  }

  /** The object loop changes only location columns: every table keeps
      its length, its id column and its marked rows. */
  lemma {:induction false} RewriteFoldShape(io: Io, objects: ObjectsData, order: seq<ObjectName>,
                                            st: RewriteState, t: LocTables)
    requires Visitable(objects, order) && RewriteFold(io, objects, order, st, t).Ok?
    ensures var u := RewriteFold(io, objects, order, st, t).value.1;
            && |u.insert| == |t.insert| && TidsOf(u.insTxn) == TidsOf(t.insTxn)
            && |u.cn.rows| == |t.cn.rows| && TidsOf(u.delTxn.rows) == TidsOf(t.delTxn.rows)
            && u.cn.deletes == t.cn.deletes && u.delTxn.deletes == t.delTxn.deletes
    decreases |order|
  {
    if order != [] {
      var o := ObjectOutcome(io, objects, order[0], st).value;
      var blocks := SortedBlocks(objects[order[0]]);
      assert Visitable(objects, order[1..]) by {
        assert forall i | 0 <= i < |order[1..]| :: order[1..][i] == order[i + 1];
      }
      var next := StepTables(t, blocks, o.relocate);
      RewriteFoldShape(io, objects, order[1..], o.st, next);
    }
  }

  /** Well-formed queues are what reconciliation reads. */
  lemma QueuedSource(s: Source)
    requires |s.ins| == |s.insTxn| && |s.cn| == |s.delTxn| && WellQueued(s.p, |s.cn|)
    ensures WellFormed(s)
  {
  }

  /** Lists the elements of `keys` in some order, as ranging over a Go map
      does. */
  method Enumerate<T(==)>(keys: set<T>) returns (order: seq<T>)
    ensures Distinct(order) && forall x :: x in order <==> x in keys
  {
    order := [];
    var rest := keys;
    while rest != {}
      invariant rest <= keys && Distinct(order)
      invariant forall x :: x in order <==> x in keys && x !in rest
      decreases |rest|
    {
      var x :| x in rest;
      DistinctAppend(order, [x]);
      order := order + [x];
      rest := rest - {x};
    }
  }

  // ------------------------------------------ ReWriteCheckpointAndBlockFromKey

  /** What `data.WriteTo` reports: the new CN and TN checkpoint locations
      and the files it wrote. */
  datatype CheckpointWrite = CheckpointWrite(cnLocation: Location, tnLocation: Location, files: seq<ObjectName>)

  /** The outcome of a rewrite: the checkpoint locations to use, the files
      written, and the two file services afterwards. */
  datatype Rewritten = Rewritten(loc: Location, tnLocation: Location, files: seq<ObjectName>,
                                 src: FileService, dst: FileService)

  /** The tables after the object loop, which changes the four location
      tables `u` only. */
  function AfterLoop(t: LocTableSnapshot, u: LocTables): LocTableSnapshot {
    t.(insert := u.insert, insTxn := u.insTxn, cn := u.cn, delTxn := u.delTxn)
  }

  /** The write and the returned file list (`files = append(files,
      checkpointFiles...)`, then the name of the CN checkpoint). Naming an
      empty location is an index out of range. */
  function Finish(w: Result<CheckpointWrite>, s: RewriteState): Result<Rewritten> {
    if w.Err? then Err(w.fault)
    else if w.value.cnLocation.IsEmpty() then Err(Panic(IndexOutOfRange))
    else Ok(Rewritten(w.value.cnLocation, w.value.tnLocation,
                      s.files + w.value.files + [w.value.cnLocation.name], s.src, s.dst))
  }

  /** One of the indexing loops panics. */
  predicate IndexPanics(cn: seq<BlkMetaRow>, ins: seq<BlkMetaRow>, ts: Timestamp) {
    SomeCommitBeforeWatermark(cn, ts) || SomeAppendableInsert(ins)
  }

  /** Some block of the index fails to trim. */
  ghost predicate TrimFailsIn(st: Storage, ts: Timestamp, objects: ObjectsData) {
    exists n, k | n in objects && k in objects[n].data :: TrimFails(st, ts, objects[n].data[k])
  }

  /** Every object of `objects` trims to its entry of `trimmed`. */
  ghost predicate TrimmedAll(st: Storage, ts: Timestamp, objects: ObjectsData, trimmed: ObjectsData) {
    trimmed.Keys == objects.Keys && forall n | n in objects :: TrimmedFile(st, ts, objects[n], trimmed[n])
  }

  /** `isCkpChange`: some object changed. */
  predicate SomeChange(objects: ObjectsData) {
    exists n | n in objects :: objects[n].isChange
  }

  /** Phases 2 and 3: both indexing loops, then the trim pass. */
  method IndexAndTrim(st: Storage, ts: Timestamp, softDeletes: SoftDeletes, data: CheckpointData)
    returns (res: Result<(ObjectsData, bool)>, objects: ObjectsData)
    requires data.Valid()
    ensures IndexPanics(data.cnInsert.rows, data.insert, ts) ==>
              res == Err(Panic(if SomeCommitBeforeWatermark(data.cnInsert.rows, ts) then CommitBeforeWatermark
                               else AppendableInsertRow))
    ensures !IndexPanics(data.cnInsert.rows, data.insert, ts) ==>
              && Collected(objects)
              && Indexed(objects, data.cnInsert.rows, TidsOf(data.delTxn.rows), data.insert, TidsOf(data.insTxn),
                         softDeletes)
              && (res.Err? <==> TrimFailsIn(st, ts, objects))
              && (res.Ok? ==> TrimmedAll(st, ts, objects, res.value.0) && (res.value.1 <==> SomeChange(res.value.0)))
  {
    var indexed := IndexCheckpoint(data.cnInsert.rows, TidsOf(data.delTxn.rows), data.insert,
                                   TidsOf(data.insTxn), ts, softDeletes);
    if indexed.Err? {
      return Err(indexed.fault), map[];
    }
    objects := indexed.value;
    res := TrimObjectsData(st, ts, objects);
  }

  /** The location tables of a snapshot. */
  function TablesIn(t: LocTableSnapshot): LocTables {
    LocTables(t.insert, t.insTxn, t.cn, t.delTxn)
  }

  /** Reference outcome of phases 4 and 5 and of the write, from the
      tables `before`: the object loop over `visited` (its first failure
      is the outcome); when it succeeds, reconciliation over the Go map
      order `tidOrder` of the queue if the queue is not empty, leaving the
      tables `after`, and the write of `after`. */
  ghost predicate Rewrote(io: Io, trimmed: ObjectsData, visited: seq<ObjectName>, src: FileService,
                          dst: FileService, before: LocTableSnapshot, tidOrder: seq<Tid>,
                          after: LocTableSnapshot, writeTo: LocTableSnapshot -> Result<CheckpointWrite>,
                          res: Result<Rewritten>) {
    && Visitable(trimmed, visited)
    && var f := RewriteFold(io, trimmed, visited, RewriteState(src, dst, map[], []), TablesIn(before));
       && (f.Err? ==> res == Err(f.fault))
       && (f.Ok? ==>
             var s := f.value.0;
             var mid := AfterLoop(before, f.value.1);
             && WellFormed(SourceOf(mid, s.pending))
             && Distinct(tidOrder) && (forall t :: t in tidOrder <==> t in s.pending)
             && after == (if |s.pending| > 0 then Reconciled(mid, s.pending, tidOrder) else mid)
             && res == Finish(writeTo(after), s))
  }

  /** Phases 4 and 5 and the write: the object loop over `visited`,
      reconciliation when some entry was queued, then `WriteTo`. */
  method RewriteAndWrite(io: Io, trimmed: ObjectsData, visited: seq<ObjectName>, src: FileService,
                         dst: FileService, data: CheckpointData,
                         writeTo: LocTableSnapshot -> Result<CheckpointWrite>)
    returns (res: Result<Rewritten>, ghost tidOrder: seq<Tid>)
    requires Visitable(trimmed, visited)
    requires data.Valid() && AllRowsInRange(trimmed, |data.insert|, |data.cnInsert.rows|)
    requires data.cnInsert.deletes == data.delTxn.deletes == data.blkDelete.deletes == {}
    modifies data
    ensures Rewrote(io, trimmed, visited, src, dst, old(Snapshot(data)), tidOrder, Snapshot(data), writeTo, res)
    ensures data.locations == old(data.locations)
  {
    ghost var t0 := TablesOf(data);
    ghost var snap0 := Snapshot(data);
    ghost var nIns, nCn := |data.insert|, |data.cnInsert.rows|;
    var start := RewriteState(src, dst, map[], []);
    var loop := RewriteObjects(io, trimmed, visited, start, data);
    tidOrder := [];
    if loop.Err? {
      return Err(loop.fault), tidOrder;
    }
    var s := loop.value;
    ghost var f := RewriteFold(io, trimmed, visited, start, t0);
    RewriteFoldShape(io, trimmed, visited, start, t0);
    RewriteFoldKeeps(io, trimmed, visited, start, t0, nIns, nCn);
    assert Snapshot(data) == AfterLoop(snap0, f.value.1);
    res, tidOrder := ReconcileAndWrite(data, s, writeTo);
  }

  /** Phase 5, when some entry was queued, then the write. */
  method ReconcileAndWrite(data: CheckpointData, s: RewriteState,
                           writeTo: LocTableSnapshot -> Result<CheckpointWrite>)
    returns (res: Result<Rewritten>, ghost tidOrder: seq<Tid>)
    requires data.Valid() && WellQueued(s.pending, |data.cnInsert.rows|)
    requires data.cnInsert.deletes == data.delTxn.deletes == data.blkDelete.deletes == {}
    modifies data
    ensures WellFormed(SourceOf(old(Snapshot(data)), s.pending))
    ensures Distinct(tidOrder) && (forall t :: t in tidOrder <==> t in s.pending)
    ensures Snapshot(data) == if |s.pending| > 0 then Reconciled(old(Snapshot(data)), s.pending, tidOrder)
                              else old(Snapshot(data))
    ensures res == Finish(writeTo(Snapshot(data)), s)
    ensures data.locations == old(data.locations)
  {
    QueuedSource(SourceOf(Snapshot(data), s.pending));
    tidOrder := [];
    if |s.pending| > 0 {
      var order := Enumerate(s.pending.Keys);
      tidOrder := order;
      ReconcileQueue(data, s.pending, order);
    }
    var w := writeTo(Snapshot(data));
    res := Finish(w, s);
  }

  /** `ReWriteCheckpointAndBlockFromKey` on the loaded checkpoint `data`:
      the indexing loops, the trim pass, and, when some object changed,
      the object loop over the objects in some order, reconciliation and
      the write of the new checkpoint. Without a change the original
      locations come back with no files. */
  method ReWrite(st: Storage, io: Io, src: FileService, dst: FileService, loc: Location, tnLocation: Location,
                 ts: Timestamp, softDeletes: SoftDeletes, data: CheckpointData,
                 writeTo: LocTableSnapshot -> Result<CheckpointWrite>)
    returns (res: Result<Rewritten>, objects: ObjectsData, trimmed: ObjectsData,
             visited: seq<ObjectName>, ghost tidOrder: seq<Tid>)
    requires data.Valid()
    requires data.cnInsert.deletes == data.delTxn.deletes == data.blkDelete.deletes == {}
    modifies data
    ensures IndexPanics(old(data.cnInsert.rows), old(data.insert), ts) ==>
              res == Err(Panic(if SomeCommitBeforeWatermark(old(data.cnInsert.rows), ts) then CommitBeforeWatermark
                               else AppendableInsertRow))
    ensures !IndexPanics(old(data.cnInsert.rows), old(data.insert), ts) ==>
              && Collected(objects)
              && Indexed(objects, old(data.cnInsert.rows), TidsOf(old(data.delTxn.rows)), old(data.insert),
                         TidsOf(old(data.insTxn)), softDeletes)
              && (TrimFailsIn(st, ts, objects) ==> res.Err?)
    ensures !IndexPanics(old(data.cnInsert.rows), old(data.insert), ts) && !TrimFailsIn(st, ts, objects) ==>
              && TrimmedAll(st, ts, objects, trimmed)
              && (!SomeChange(trimmed) ==>
                    res == Ok(Rewritten(loc, tnLocation, [], src, dst)) && Snapshot(data) == old(Snapshot(data)))
              && (SomeChange(trimmed) ==>
                    && Distinct(visited) && (forall n :: n in visited <==> n in trimmed)
                    && Rewrote(io, trimmed, visited, src, dst, old(Snapshot(data)), tidOrder, Snapshot(data), writeTo, res))
    ensures data.locations == old(data.locations)
  {
    var prepared;
    prepared, objects := IndexAndTrim(st, ts, softDeletes, data);
    trimmed, visited, tidOrder := map[], [], [];
    if prepared.Err? {
      return Err(prepared.fault), objects, trimmed, visited, tidOrder;
    }
    var isCkpChange;
    trimmed, isCkpChange := prepared.value.0, prepared.value.1;
    if !isCkpChange {
      return Ok(Rewritten(loc, tnLocation, [], src, dst)), objects, trimmed, visited, tidOrder;
    }
    res, visited, tidOrder := RewriteChanged(st, io, ts, softDeletes, objects, trimmed, src, dst, data, writeTo);
  }

  /** Past the trim pass, when some object changed: the objects in some
      order, then phases 4 and 5 and the write. */
  method RewriteChanged(st: Storage, io: Io, ts: Timestamp, softDeletes: SoftDeletes,
                        objects: ObjectsData, trimmed: ObjectsData, src: FileService, dst: FileService,
                        data: CheckpointData, writeTo: LocTableSnapshot -> Result<CheckpointWrite>)
    returns (res: Result<Rewritten>, visited: seq<ObjectName>, ghost tidOrder: seq<Tid>)
    requires data.Valid()
    requires data.cnInsert.deletes == data.delTxn.deletes == data.blkDelete.deletes == {}
    requires Collected(objects)
    requires Indexed(objects, data.cnInsert.rows, TidsOf(data.delTxn.rows), data.insert, TidsOf(data.insTxn),
                     softDeletes)
    requires TrimmedAll(st, ts, objects, trimmed)
    modifies data
    ensures Distinct(visited) && (forall n :: n in visited <==> n in trimmed)
    ensures Rewrote(io, trimmed, visited, src, dst, old(Snapshot(data)), tidOrder, Snapshot(data), writeTo, res)
    ensures data.locations == old(data.locations)
  {
    IndexedInRange(objects, data.cnInsert.rows, data.insert, softDeletes);
    TrimKeepsRows(st, ts, objects, trimmed, |data.insert|, |data.cnInsert.rows|);
    visited := Enumerate(trimmed.Keys);
    res, tidOrder := RewriteAndWrite(io, trimmed, visited, src, dst, data, writeTo);
  }
}
