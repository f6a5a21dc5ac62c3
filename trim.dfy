/** The trim pass (`trimObjectsData`): every block the rewrite may have to
    change is loaded, tombstone rows committed after the backup timestamp
    are dropped, and an appendable data block is cut before its first row
    committed after it. */
module Trim {
  import opened BackupTypes
  import opened Containers
  import opened ObjectIndex

  /** `BlockHeader()` of a block's object metadata. */
  datatype BlockHeader = BlockHeader(appendable: bool, sortKey: uint16)

  /** The file service as seen by the trim pass: `blockio.LoadOneBlock` and
      `objectio.FastLoadObjectMeta`, each of which can fail. */
  datatype Storage = Storage(
    loadBlock: (Location, BlockKind) -> Result<Batch>,
    loadHeader: Location -> Result<BlockHeader>)

  /** The commit timestamp in column `col` of `row` decodes and is not after `ts`. */
  predicate CommittedBy(row: seq<Value>, col: int, ts: Timestamp) {
    CellTs(row, col).Ok? && CellTs(row, col).value <= ts
  }

  /** The commit timestamp in column `col` of `row` decodes and is after `ts`. */
  predicate CommittedAfter(row: seq<Value>, col: int, ts: Timestamp) {
    CellTs(row, col).Ok? && CellTs(row, col).value > ts
  }

  /** No row is committed both by and after `ts`. */
  lemma CommittedExclusive(row: seq<Value>, col: int, ts: Timestamp)
    ensures !(CommittedBy(row, col, ts) && CommittedAfter(row, col, ts))
  {
  }

  /** The commit-timestamp column of a tombstone batch (`len(Vecs)-3`). */
  function TombstoneTsCol(b: Batch): int { b.width - 3 }

  /** The commit-timestamp column of a data batch (`len(Vecs)-2`). */
  function DataTsCol(b: Batch): int { b.width - 2 }

  /** Reference definition of the rows below `m` a tombstone keeps. */
  function Kept(rows: seq<seq<Value>>, col: int, ts: Timestamp, m: nat): (r: seq<nat>)
    requires m <= |rows|
    ensures forall k | 0 <= k < |r| :: r[k] < m
  {
    if m == 0 then []
    else Kept(rows, col, ts, m - 1) + (if CommittedBy(rows[m - 1], col, ts) then [m - 1] else [])
  }

  /** `Kept` lists exactly the rows below `m` committed by `ts`, ascending. */
  lemma {:induction false} KeptSpec(rows: seq<seq<Value>>, col: int, ts: Timestamp, m: nat)
    requires m <= |rows|
    ensures forall i: nat :: i in Kept(rows, col, ts, m) <==> i < m && CommittedBy(rows[i], col, ts)
    ensures StrictlyIncreasing(Kept(rows, col, ts, m))
    ensures |Kept(rows, col, ts, m)| <= m
  {
    if m > 0 {
      KeptSpec(rows, col, ts, m - 1);
      var prev := Kept(rows, col, ts, m - 1);
      var tail: seq<nat> := if CommittedBy(rows[m - 1], col, ts) then [m - 1] else [];
      assert Kept(rows, col, ts, m) == prev + tail;
      forall i: nat ensures i in prev + tail <==> i < m && CommittedBy(rows[i], col, ts) {
        assert i in prev + tail <==> i in prev || i in tail;
      }
      forall j, l | 0 <= j < l < |prev + tail| ensures (prev + tail)[j] < (prev + tail)[l] {
        if l >= |prev| {
          assert (prev + tail)[j] == prev[j] && prev[j] in prev;
        }
      }
    }
  }

  /** When every row below `m` is kept, `Kept` is `0, 1, ..., m-1`. */
  lemma {:induction false} KeptAll(rows: seq<seq<Value>>, col: int, ts: Timestamp, m: nat)
    requires m <= |rows|
    requires |Kept(rows, col, ts, m)| == m
    ensures forall i | 0 <= i < m :: Kept(rows, col, ts, m)[i] == i
  {
    if m > 0 {
      KeptSpec(rows, col, ts, m - 1);
      KeptAll(rows, col, ts, m - 1);
    }
  }

  /** When every row below `m` is committed by `ts`, all of them are kept. */
  lemma {:induction false} KeptEvery(rows: seq<seq<Value>>, col: int, ts: Timestamp, m: nat)
    requires m <= |rows|
    requires forall u | 0 <= u < m :: CommittedBy(rows[u], col, ts)
    ensures |Kept(rows, col, ts, m)| == m
  {
    if m > 0 {
      KeptEvery(rows, col, ts, m - 1);
    }
  }

  /** Trimming a tombstone batch `bat` at `ts` gives `out`: the rows
      committed by `ts`, in order, and `changed` exactly when some row was
      committed after `ts`. */
  predicate TombstoneTrimmed(bat: Batch, ts: Timestamp, out: Batch, changed: bool) {
    && (forall v | 0 <= v < |bat.rows| :: CellTs(bat.rows[v], TombstoneTsCol(bat)).Ok?)
    && out.width == bat.width
    && out.rows == Select(bat.rows, Kept(bat.rows, TombstoneTsCol(bat), ts, |bat.rows|))
    && (changed <==> exists v | 0 <= v < |bat.rows| :: CommittedAfter(bat.rows[v], TombstoneTsCol(bat), ts))
  }

  /** Row `v` is the first row whose column `col` fails to decode and every
      earlier row is committed by `ts`. */
  predicate FirstFailure(rows: seq<seq<Value>>, col: int, ts: Timestamp, v: int) {
    0 <= v < |rows| && CellTs(rows[v], col).Err?
    && forall u | 0 <= u < v :: CommittedBy(rows[u], col, ts)
  }

  /** Row `v` is the first row whose column `col` fails to decode. */
  predicate FirstUndecodable(rows: seq<seq<Value>>, col: int, v: int) {
    0 <= v < |rows| && CellTs(rows[v], col).Err?
    && forall u | 0 <= u < v :: CellTs(rows[u], col).Ok?
  }

  /** The row loop of the tombstone branch of `trimObjectsData`: collects
      the rows whose commit timestamp is not after `ts` and whether any is
      after it, and fails on the first row whose timestamp does not decode. */
  method ScanTombstone(bat: Batch, ts: Timestamp) returns (res: Result<(seq<nat>, bool)>)
    ensures res.Ok? ==> forall v | 0 <= v < |bat.rows| :: CellTs(bat.rows[v], TombstoneTsCol(bat)).Ok?
    ensures res.Ok? ==> res.value.0 == Kept(bat.rows, TombstoneTsCol(bat), ts, |bat.rows|)
    ensures res.Ok? ==> (res.value.1 <==> exists v | 0 <= v < |bat.rows| ::
                                            CommittedAfter(bat.rows[v], TombstoneTsCol(bat), ts))
    ensures res.Err? ==> exists v | 0 <= v < |bat.rows| ::
              FirstUndecodable(bat.rows, TombstoneTsCol(bat), v)
              && CellTs(bat.rows[v], TombstoneTsCol(bat)) == Err(res.fault)
  {
    var col := TombstoneTsCol(bat);
    var deleteRow: seq<nat> := [];
    var changed := false;
    var v := 0;
    while v < |bat.rows|
      invariant 0 <= v <= |bat.rows|
      invariant forall u | 0 <= u < v :: CellTs(bat.rows[u], col).Ok?
      invariant deleteRow == Kept(bat.rows, col, ts, v)
      invariant changed <==> exists u | 0 <= u < v :: CommittedAfter(bat.rows[u], col, ts)
    {
      var commitTs := CellTs(bat.rows[v], col);
      if commitTs.Err? {
        res := Err(commitTs.fault);
        assert FirstUndecodable(bat.rows, col, v) && CellTs(bat.rows[v], col) == Err(res.fault);
        return;
      }
      if commitTs.value > ts {
        changed := true;
      } else {
        deleteRow := deleteRow + [v];
      }
      v := v + 1;
    }
    return Ok((deleteRow, changed));
  }

  /** The tombstone branch of `trimObjectsData` once the block is loaded:
      `bat.Shrink(deleteRow)` when some row was dropped. */
  method TrimTombstone(bat: Batch, ts: Timestamp) returns (res: Result<(Batch, bool)>)
    ensures res.Ok? ==> TombstoneTrimmed(bat, ts, res.value.0, res.value.1)
    ensures res.Err? ==> exists v | 0 <= v < |bat.rows| ::
              FirstUndecodable(bat.rows, TombstoneTsCol(bat), v)
              && CellTs(bat.rows[v], TombstoneTsCol(bat)) == Err(res.fault)
  {
    var scanned := ScanTombstone(bat, ts);
    if scanned.Err? {
      return Err(scanned.fault);
    }
    var (deleteRow, changed) := scanned.value;
    var out := bat;
    if |deleteRow| != |bat.rows| {
      out := Shrink(bat, deleteRow);
    } else {
      KeptAll(bat.rows, TombstoneTsCol(bat), ts, |bat.rows|);
      assert Select(bat.rows, deleteRow) == bat.rows;
    }
    return Ok((out, changed));
  }

  /** Cutting an appendable data batch `bat` at `ts` gives `out`: when
      `changed`, the rows before the first row committed after `ts`, every
      one of them committed by `ts`; otherwise every row is committed by
      `ts` and the batch is kept as it is. */
  predicate DataTruncated(bat: Batch, ts: Timestamp, out: Batch, changed: bool) {
    if changed then
      exists v | 0 <= v < |bat.rows| ::
        && CommittedAfter(bat.rows[v], DataTsCol(bat), ts)
        && (forall u | 0 <= u < v :: CommittedBy(bat.rows[u], DataTsCol(bat), ts))
        && out == Window(bat, v)
    else
      (forall u | 0 <= u < |bat.rows| :: CommittedBy(bat.rows[u], DataTsCol(bat), ts)) && out == bat
  }

  /** The data branch of `trimObjectsData` once the block is loaded: scans
      the commit timestamps and, at the first one after `ts`, keeps only the
      rows before it (`windowCNBatch(bat, 0, v)`) and stops. */
  method TruncateData(bat: Batch, ts: Timestamp) returns (res: Result<(Batch, bool)>)
    ensures res.Ok? ==> DataTruncated(bat, ts, res.value.0, res.value.1)
    ensures res.Err? <==> exists v | 0 <= v < |bat.rows| :: FirstFailure(bat.rows, DataTsCol(bat), ts, v)
    ensures res.Err? ==> exists v | 0 <= v < |bat.rows| :: FirstFailure(bat.rows, DataTsCol(bat), ts, v)
                                     && CellTs(bat.rows[v], DataTsCol(bat)) == Err(res.fault)
  {
    var col := DataTsCol(bat);
    var v := 0;
    while v < |bat.rows|
      invariant 0 <= v <= |bat.rows|
      invariant forall u | 0 <= u < v :: CommittedBy(bat.rows[u], col, ts)
    {
      var commitTs := CellTs(bat.rows[v], col);
      if commitTs.Err? {
        assert FirstFailure(bat.rows, col, ts, v);
        return Err(commitTs.fault);
      }
      if commitTs.value > ts {
        CommittedExclusive(bat.rows[v], col, ts);
        assert forall w | 0 <= w < |bat.rows| :: !FirstFailure(bat.rows, col, ts, w);
        return Ok((Window(bat, v), true));
      }
      v := v + 1;
    }
    return Ok((bat, false));
  }

  /** The sort key a loaded data block takes: the header's, when the block
      is appendable, otherwise none. */
  function SortKeyOf(h: BlockHeader): (k: uint16)
    ensures h.appendable ==> k == h.sortKey
    ensures !h.appendable ==> k == MaxUint16
  {
    if h.appendable then h.sortKey else MaxUint16
  }

  /** The trim pass skips a block that is neither appendable nor a
      tombstone: it is never loaded. */
  predicate Skipped(b: BlockData) {
    !b.isABlock && b.blockType == SchemaData
  }

  /** Block `b` trims to `a`, with `changed` telling whether rows were
      dropped: a skipped block is kept; a tombstone is loaded and trimmed;
      an appendable data block is loaded with its sort key and truncated. */
  predicate TrimmedBlock(st: Storage, ts: Timestamp, b: BlockData, a: BlockData, changed: bool) {
    if Skipped(b) then a == b && !changed
    else if b.blockType == SchemaTombstone then
      && st.loadBlock(b.location, SchemaTombstone).Ok?
      && a.data.Some? && a == b.(data := a.data)
      && TombstoneTrimmed(st.loadBlock(b.location, SchemaTombstone).value, ts, a.data.value, changed)
    else
      && st.loadHeader(b.location).Ok? && st.loadBlock(b.location, SchemaData).Ok?
      && a.data.Some? && a == b.(data := a.data, sortKey := SortKeyOf(st.loadHeader(b.location).value))
      && DataTruncated(st.loadBlock(b.location, SchemaData).value, ts, a.data.value, changed)
  }

  /** Trimming block `b` fails: a load fails, or (for a tombstone) some
      timestamp does not decode, or (for a data block) one does not decode
      before the first row committed after `ts`. */
  predicate TrimFails(st: Storage, ts: Timestamp, b: BlockData) {
    if Skipped(b) then false
    else if b.blockType == SchemaTombstone then
      st.loadBlock(b.location, SchemaTombstone).Err?
      || var bat := st.loadBlock(b.location, SchemaTombstone).value;
         exists v | 0 <= v < |bat.rows| :: CellTs(bat.rows[v], TombstoneTsCol(bat)).Err?
    else
      st.loadHeader(b.location).Err? || st.loadBlock(b.location, SchemaData).Err?
      || var bat := st.loadBlock(b.location, SchemaData).value;
         exists v | 0 <= v < |bat.rows| :: FirstFailure(bat.rows, DataTsCol(bat), ts, v)
  }

  /** The body of the inner loop of `trimObjectsData` for one block. */
  method TrimBlock(st: Storage, ts: Timestamp, block: BlockData) returns (res: Result<(BlockData, bool)>)
    ensures res.Ok? ==> TrimmedBlock(st, ts, block, res.value.0, res.value.1)
    ensures res.Err? <==> TrimFails(st, ts, block)
    ensures Skipped(block) ==> res == Ok((block, false))
  {
    if Skipped(block) {
      return Ok((block, false));
    }
    if block.blockType == SchemaTombstone {
      var loaded := st.loadBlock(block.location, SchemaTombstone);
      if loaded.Err? {
        return Err(loaded.fault);
      }
      var trimmed := TrimTombstone(loaded.value, ts);
      if trimmed.Err? {
        return Err(trimmed.fault);
      }
      return Ok((block.(data := Some(trimmed.value.0)), trimmed.value.1));
    }
    var header := st.loadHeader(block.location);
    if header.Err? {
      return Err(header.fault);
    }
    var sortKey := SortKeyOf(header.value);
    var loaded := st.loadBlock(block.location, SchemaData);
    if loaded.Err? {
      return Err(loaded.fault);
    }
    var truncated := TruncateData(loaded.value, ts);
    if truncated.Err? {
      return Err(truncated.fault);
    }
    return Ok((block.(sortKey := sortKey, data := Some(truncated.value.0)), truncated.value.1));
  }

  /** The trim outcome of a block is determined by the block, the storage
      and `ts`, so the order in which the pass visits blocks does not
      matter. */
  lemma TrimmedBlockUnique(st: Storage, ts: Timestamp, b: BlockData,
                           a1: BlockData, c1: bool, a2: BlockData, c2: bool)
    requires TrimmedBlock(st, ts, b, a1, c1) && TrimmedBlock(st, ts, b, a2, c2)
    ensures a1 == a2 && c1 == c2
  {
    if !Skipped(b) && b.blockType == SchemaData {
      var bat := st.loadBlock(b.location, SchemaData).value;
      DataTruncatedUnique(bat, ts, a1.data.value, c1, a2.data.value, c2);
    }
  }

  /** A data batch is cut exactly when one of its rows was committed
      after `ts`. */
  lemma DataTruncatedFlag(bat: Batch, ts: Timestamp, out: Batch, changed: bool)
    requires DataTruncated(bat, ts, out, changed)
    ensures changed <==> exists v | 0 <= v < |bat.rows| :: CommittedAfter(bat.rows[v], DataTsCol(bat), ts)
  {
    if !changed {
      forall v | 0 <= v < |bat.rows| ensures !CommittedAfter(bat.rows[v], DataTsCol(bat), ts) {
        CommittedExclusive(bat.rows[v], DataTsCol(bat), ts);
      }
    }
  }

  /** Cutting a data batch at `ts` has one outcome. */
  lemma DataTruncatedUnique(bat: Batch, ts: Timestamp, o1: Batch, c1: bool, o2: Batch, c2: bool)
    requires DataTruncated(bat, ts, o1, c1) && DataTruncated(bat, ts, o2, c2)
    ensures o1 == o2 && c1 == c2
  {
    DataTruncatedFlag(bat, ts, o1, c1);
    DataTruncatedFlag(bat, ts, o2, c2);
    if c1 {
      var col := DataTsCol(bat);
      var v1 :| 0 <= v1 < |bat.rows| && CommittedAfter(bat.rows[v1], col, ts)
                && (forall u | 0 <= u < v1 :: CommittedBy(bat.rows[u], col, ts))
                && o1 == Window(bat, v1);
      var v2 :| 0 <= v2 < |bat.rows| && CommittedAfter(bat.rows[v2], col, ts)
                && (forall u | 0 <= u < v2 :: CommittedBy(bat.rows[u], col, ts))
                && o2 == Window(bat, v2);
      CommittedExclusive(bat.rows[v1], col, ts);
      CommittedExclusive(bat.rows[v2], col, ts);
    }
  }

  /** A loaded block is flagged exactly when one of its rows was committed
      after `ts`, and an unflagged block holds the loaded batch, every row
      of it in order. */
  lemma TrimmedBlockChanged(st: Storage, ts: Timestamp, b: BlockData, a: BlockData, changed: bool)
    requires TrimmedBlock(st, ts, b, a, changed) && !Skipped(b)
    ensures var bat := st.loadBlock(b.location, b.blockType).value;
            var col := if b.blockType == SchemaTombstone then TombstoneTsCol(bat) else DataTsCol(bat);
            changed <==> exists v | 0 <= v < |bat.rows| :: CommittedAfter(bat.rows[v], col, ts)
    ensures !changed ==> a.data == Some(st.loadBlock(b.location, b.blockType).value)
  {
    var bat := st.loadBlock(b.location, b.blockType).value;
    if b.blockType == SchemaTombstone {
      if !changed {
        var col := TombstoneTsCol(bat);
        KeptEvery(bat.rows, col, ts, |bat.rows|);
        KeptAll(bat.rows, col, ts, |bat.rows|);
        assert Select(bat.rows, Kept(bat.rows, col, ts, |bat.rows|)) == bat.rows;
      }
    } else if !changed {
      forall v | 0 <= v < |bat.rows| ensures !CommittedAfter(bat.rows[v], DataTsCol(bat), ts) {
        assert CommittedBy(bat.rows[v], DataTsCol(bat), ts);
      }
    }
  }

  /** Object `f` trims to `g`: every block is trimmed, nothing else but the
      change flag differs, and the object is flagged exactly when one of its
      blocks is. */
  predicate TrimmedFile(st: Storage, ts: Timestamp, f: FileData, g: FileData) {
    && g == f.(data := g.data, isChange := g.isChange)
    && g.data.Keys == f.data.Keys
    && (forall k | k in f.data ::
          TrimmedBlock(st, ts, f.data[k], g.data[k], true) || TrimmedBlock(st, ts, f.data[k], g.data[k], false))
    && (g.isChange <==> exists k | k in f.data :: TrimmedBlock(st, ts, f.data[k], g.data[k], true))
  }

  /** The state of the inner loop of `trimObjectsData` with the blocks in
      `ids` still to visit: every visited block is trimmed without failure,
      the others are untouched, and `isChange` tells whether a visited block
      changed. */
  ghost predicate FileProgress(st: Storage, ts: Timestamp, file: FileData, data: map<uint16, BlockData>,
                               ids: set<uint16>, isChange: bool) {
    && ids <= file.data.Keys && data.Keys == file.data.Keys
    && (forall k | k in ids :: data[k] == file.data[k])
    && (forall k | k in file.data && k !in ids ::
          !TrimFails(st, ts, file.data[k])
          && (TrimmedBlock(st, ts, file.data[k], data[k], true)
              || TrimmedBlock(st, ts, file.data[k], data[k], false)))
    && (isChange <==> exists k | k in file.data && k !in ids ::
                        TrimmedBlock(st, ts, file.data[k], data[k], true))
  }

  lemma FileProgressStep(st: Storage, ts: Timestamp, file: FileData, data: map<uint16, BlockData>,
                         ids: set<uint16>, isChange: bool, id: uint16, b: BlockData, changed: bool)
    requires FileProgress(st, ts, file, data, ids, isChange) && id in ids
    requires TrimmedBlock(st, ts, file.data[id], b, changed) && !TrimFails(st, ts, file.data[id])
    ensures FileProgress(st, ts, file, data[id := b], ids - {id}, isChange || changed)
  {
    if !changed && TrimmedBlock(st, ts, file.data[id], b, true) {
      TrimmedBlockUnique(st, ts, file.data[id], b, true, b, false);
    }
  }

  /** The inner loop of `trimObjectsData` over the blocks of one object, in
      any order: fails exactly when one of its blocks fails to trim. */
  method TrimFile(st: Storage, ts: Timestamp, file: FileData) returns (res: Result<FileData>)
    ensures res.Ok? ==> TrimmedFile(st, ts, file, res.value)
    ensures res.Err? <==> exists k | k in file.data :: TrimFails(st, ts, file.data[k])
  {
    var data := file.data;
    var isChange := false;
    var ids := file.data.Keys;
    while ids != {}
      invariant FileProgress(st, ts, file, data, ids, isChange)
      decreases |ids|
    {
      var id :| id in ids;
      var trimmed := TrimBlock(st, ts, data[id]);
      if trimmed.Err? {
        return Err(trimmed.fault);
      }
      FileProgressStep(st, ts, file, data, ids, isChange, id, trimmed.value.0, trimmed.value.1);
      data := data[id := trimmed.value.0];
      isChange := isChange || trimmed.value.1;
      ids := ids - {id};
    }
    return Ok(file.(data := data, isChange := isChange));
  }

  /** The state of `trimObjectsData` with the objects in `names` still to
      visit: every visited object is trimmed and trims without failure,
      the others are untouched, and `isCkpChange` tells whether a visited
      object changed. */
  ghost predicate TrimProgress(st: Storage, ts: Timestamp, objects: ObjectsData, result: ObjectsData,
                               names: set<ObjectName>, isCkpChange: bool) {
    && names <= objects.Keys && result.Keys == objects.Keys
    && (forall n | n in names :: result[n] == objects[n])
    && (forall n | n in objects && n !in names ::
          TrimmedFile(st, ts, objects[n], result[n])
          && forall k | k in objects[n].data :: !TrimFails(st, ts, objects[n].data[k]))
    && (isCkpChange <==> exists n | n in objects && n !in names :: result[n].isChange)
  }

  lemma TrimProgressStep(st: Storage, ts: Timestamp, objects: ObjectsData, result: ObjectsData,
                         names: set<ObjectName>, isCkpChange: bool, name: ObjectName, g: FileData)
    requires TrimProgress(st, ts, objects, result, names, isCkpChange) && name in names
    requires TrimmedFile(st, ts, objects[name], g)
    requires forall k | k in objects[name].data :: !TrimFails(st, ts, objects[name].data[k])
    ensures TrimProgress(st, ts, objects, result[name := g], names - {name}, isCkpChange || g.isChange)
  {
    var r := result[name := g];
    var rest := names - {name};
    assert forall n | n in objects && n !in rest && n != name :: n !in names && r[n] == result[n];
    if g.isChange {
      assert name in objects && name !in rest && r[name].isChange;
    } else {
      assert (exists n | n in objects && n !in rest :: r[n].isChange)
         <==> (exists n | n in objects && n !in names :: result[n].isChange);
    }
  }

  lemma TrimProgressDone(st: Storage, ts: Timestamp, objects: ObjectsData, result: ObjectsData, isCkpChange: bool)
    requires TrimProgress(st, ts, objects, result, {}, isCkpChange)
    ensures result.Keys == objects.Keys
    ensures forall n | n in objects :: TrimmedFile(st, ts, objects[n], result[n])
    ensures isCkpChange <==> exists n | n in objects :: result[n].isChange
    ensures !exists n, k | n in objects && k in objects[n].data :: TrimFails(st, ts, objects[n].data[k])
  {
  }

  /** `trimObjectsData`: trims every object, in any order, and reports
      whether any object changed; fails exactly when some block fails to
      trim. */
  method TrimObjectsData(st: Storage, ts: Timestamp, objects: ObjectsData)
    returns (res: Result<(ObjectsData, bool)>)
    ensures res.Ok? ==> res.value.0.Keys == objects.Keys
    ensures res.Ok? ==> forall n | n in objects :: TrimmedFile(st, ts, objects[n], res.value.0[n])
    ensures res.Ok? ==> (res.value.1 <==> exists n | n in objects :: res.value.0[n].isChange)
    ensures res.Err? <==> exists n, k | n in objects && k in objects[n].data ::
                            TrimFails(st, ts, objects[n].data[k])
  {
    var result := objects;
    var isCkpChange := false;
    var names := objects.Keys;
    while names != {}
      invariant TrimProgress(st, ts, objects, result, names, isCkpChange)
      decreases |names|
    {
      var name :| name in names;
      var trimmed := TrimFile(st, ts, result[name]);
      if trimmed.Err? {
        return Err(trimmed.fault);
      }
      TrimProgressStep(st, ts, objects, result, names, isCkpChange, name, trimmed.value);
      result := result[name := trimmed.value];
      isCkpChange := isCkpChange || trimmed.value.isChange;
      names := names - {name};
    }
    TrimProgressDone(st, ts, objects, result, isCkpChange);
    return Ok((result, isCkpChange));
  }
}
