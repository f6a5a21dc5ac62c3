/** The rest of reconciliation: the CN rows of every carried block are
    marked deleted in the three delete-side tables, which are compacted;
    the row ranges of every table id are recomputed for the new live-insert
    table and the compacted delete side; the new live-insert tables
    replace the old ones. */
module ReconcileTables {
  import opened BackupTypes
  import opened Containers
  import opened Checkpoint
  import opened Rewrite
  import opened Reconcile
  import opened Offsets

  // ------------------------------------------------------ rows to delete

  /** The CN rows of the block an entry carries. */
  function CarriedRows(e: InsertBlock): set<nat> {
    if e.data.Some? then set r | r in e.data.value.deleteRow else {}
  }

  /** The CN rows of the blocks the entries of queue `q` carry. */
  function QueueRows(q: seq<InsertBlock>): set<nat> {
    if q == [] then {} else QueueRows(q[..|q| - 1]) + CarriedRows(q[|q| - 1])
  }

  /** The CN rows of the blocks carried by the queues of the ids `ts`. */
  function TidRows(p: Pending, ts: seq<Tid>): set<nat> {
    if ts == [] then {}
    else TidRows(p, ts[..|ts| - 1]) + (if ts[|ts| - 1] in p then QueueRows(p[ts[|ts| - 1]]) else {})
  }

  /** A table with the rows `s` marked deleted as well. */
  function Marked<T>(t: Table<T>, s: set<nat>): (r: Table<T>)
    ensures r.rows == t.rows && r.deletes == t.deletes + s
  {
    t.(deletes := t.deletes + s)
  }

  /** A CN row is marked exactly when some entry of the queue carries a
      block whose delete-side rows include it. */
  lemma {:induction false} QueueRowsSpec(q: seq<InsertBlock>, r: nat)
    ensures r in QueueRows(q) <==>
              exists b | 0 <= b < |q| :: q[b].data.Some? && r in q[b].data.value.deleteRow
  {
    if q != [] {
      var prev := q[..|q| - 1];
      QueueRowsSpec(prev, r);
      assert forall b | 0 <= b < |prev| :: prev[b] == q[b];
    }
  }

  lemma {:induction false} TidRowsSpec(p: Pending, ts: seq<Tid>, r: nat)
    ensures r in TidRows(p, ts) <==> exists t | t in ts :: t in p && r in QueueRows(p[t])
  {
    if ts != [] {
      var prev := ts[..|ts| - 1];
      TidRowsSpec(p, prev, r);
      assert ts == prev + [ts[|ts| - 1]];
    }
  }

  /** The rows the deletion pass marks: those of every block some queued
      entry carries. */
  predicate MergedRow(p: Pending, r: nat) {
    exists t, b | t in p && 0 <= b < |p[t]| :: p[t][b].data.Some? && r in p[t][b].data.value.deleteRow
  }

  /** Over an order listing every queued id, `TidRows` is the set of
      merged rows, whatever the order. */
  lemma TidRowsMerged(p: Pending, order: seq<Tid>, r: nat)
    requires forall t | t in p :: t in order
    ensures r in TidRows(p, order) <==> MergedRow(p, r)
  {
    TidRowsSpec(p, order, r);
    if r in TidRows(p, order) {
      var t :| t in order && t in p && r in QueueRows(p[t]);
      QueueRowsSpec(p[t], r);
    }
    if MergedRow(p, r) {
      var t, b :| t in p && 0 <= b < |p[t]| && p[t][b].data.Some? && r in p[t][b].data.value.deleteRow;
      QueueRowsSpec(p[t], r);
    }
  }

  /** Marks the rows `rows` deleted in the three delete-side tables. */
  method DeleteRows(data: CheckpointData, rows: seq<nat>)
    modifies data
    ensures data.cnInsert == Marked(old(data.cnInsert), set r | r in rows)
    ensures data.delTxn == Marked(old(data.delTxn), set r | r in rows)
    ensures data.blkDelete == Marked(old(data.blkDelete), set r | r in rows)
    ensures data.insert == old(data.insert) && data.insTxn == old(data.insTxn)
    ensures data.locations == old(data.locations)
    ensures data.insertRanges == old(data.insertRanges) && data.deleteRanges == old(data.deleteRanges)
  {
    var j := 0;
    while j < |rows|
      invariant 0 <= j <= |rows|
      invariant data.cnInsert == Marked(old(data.cnInsert), set r | r in rows[..j])
      invariant data.delTxn == Marked(old(data.delTxn), set r | r in rows[..j])
      invariant data.blkDelete == Marked(old(data.blkDelete), set r | r in rows[..j])
      invariant data.insert == old(data.insert) && data.insTxn == old(data.insTxn)
      invariant data.locations == old(data.locations)
      invariant data.insertRanges == old(data.insertRanges) && data.deleteRanges == old(data.deleteRanges)
    {
      data.DeleteCNRow(rows[j]);
      ghost var done, next := rows[..j], rows[..j + 1];
      assert next == done + [rows[j]];
      assert (set r | r in next) == (set r | r in done) + {rows[j]};
      j := j + 1;
    }
    assert rows[..j] == rows;
  }

  /** Marks the CN rows of the blocks the entries of queue `q` carry. */
  method DeleteQueue(data: CheckpointData, q: seq<InsertBlock>)
    modifies data
    ensures data.cnInsert == Marked(old(data.cnInsert), QueueRows(q))
    ensures data.delTxn == Marked(old(data.delTxn), QueueRows(q))
    ensures data.blkDelete == Marked(old(data.blkDelete), QueueRows(q))
    ensures data.insert == old(data.insert) && data.insTxn == old(data.insTxn)
    ensures data.locations == old(data.locations)
    ensures data.insertRanges == old(data.insertRanges) && data.deleteRanges == old(data.deleteRanges)
  {
    var b := 0;
    while b < |q|
      invariant 0 <= b <= |q|
      invariant data.cnInsert == Marked(old(data.cnInsert), QueueRows(q[..b]))
      invariant data.delTxn == Marked(old(data.delTxn), QueueRows(q[..b]))
      invariant data.blkDelete == Marked(old(data.blkDelete), QueueRows(q[..b]))
      invariant data.insert == old(data.insert) && data.insTxn == old(data.insTxn)
      invariant data.locations == old(data.locations)
      invariant data.insertRanges == old(data.insertRanges) && data.deleteRanges == old(data.deleteRanges)
    {
      if q[b].data.Some? {
        DeleteRows(data, q[b].data.value.deleteRow);
      }
      assert q[..b + 1][..b] == q[..b];
      assert QueueRows(q[..b + 1]) == QueueRows(q[..b]) + CarriedRows(q[b]);
      b := b + 1;
    }
    assert q[..b] == q;
  }

  /** The deletion pass over the queues, in the order `order` (Go's map
      order). */
  method DeleteMerged(data: CheckpointData, p: Pending, order: seq<Tid>)
    requires forall t | t in p :: t in order
    modifies data
    ensures data.cnInsert == Marked(old(data.cnInsert), TidRows(p, order))
    ensures data.delTxn == Marked(old(data.delTxn), TidRows(p, order))
    ensures data.blkDelete == Marked(old(data.blkDelete), TidRows(p, order))
    ensures data.insert == old(data.insert) && data.insTxn == old(data.insTxn)
    ensures data.locations == old(data.locations)
    ensures data.insertRanges == old(data.insertRanges) && data.deleteRanges == old(data.deleteRanges)
  {
    var j := 0;
    while j < |order|
      invariant 0 <= j <= |order|
      invariant data.cnInsert == Marked(old(data.cnInsert), TidRows(p, order[..j]))
      invariant data.delTxn == Marked(old(data.delTxn), TidRows(p, order[..j]))
      invariant data.blkDelete == Marked(old(data.blkDelete), TidRows(p, order[..j]))
      invariant data.insert == old(data.insert) && data.insTxn == old(data.insTxn)
      invariant data.locations == old(data.locations)
      invariant data.insertRanges == old(data.insertRanges) && data.deleteRanges == old(data.deleteRanges)
    {
      var tid := order[j];
      if tid in p {
        DeleteQueue(data, p[tid]);
      }
      assert order[..j + 1][..j] == order[..j];
      j := j + 1;
    }
    assert order[..j] == order;
  }

  // ---------------------------------------------------------- the phase

  /** What reconciliation reads from the checkpoint and the queue. */
  function SourceOf(t: LocTableSnapshot, p: Pending): Source {
    Source(t.insert, t.insTxn, t.cn.rows, t.delTxn.rows, p)
  }

  /** The tables reconciliation reads and writes, as values. */
  datatype LocTableSnapshot = LocTableSnapshot(
    insert: seq<BlkMetaRow>, insTxn: seq<TxnRow>,
    cn: Table<BlkMetaRow>, delTxn: Table<TxnRow>, blkDelete: Table<DelRow>,
    insertRanges: map<Tid, TableRange>, deleteRanges: map<Tid, TableRange>)

  function Snapshot(data: CheckpointData): LocTableSnapshot
    reads data
  {
    LocTableSnapshot(data.insert, data.insTxn, data.cnInsert, data.delTxn, data.blkDelete,
                     data.insertRanges, data.deleteRanges)
  }

  /** Reference definition of the whole phase on the tables: the rebuilt
      live-insert tables, the delete side with every merged row removed,
      and the ranges recorded over both (cast to `int32`). */
  function Reconciled(t: LocTableSnapshot, p: Pending, order: seq<Tid>): LocTableSnapshot
    requires WellFormed(SourceOf(t, p))
  {
    var s := SourceOf(t, p);
    var plan := Plan(s, order);
    var newTxn := PlanTxn(s, plan);
    var delTxn := Marked(t.delTxn, TidRows(p, order)).Compact();
    LocTableSnapshot(
      PlanBlk(s, plan), newTxn,
      Marked(t.cn, TidRows(p, order)).Compact(), delTxn,
      Marked(t.blkDelete, TidRows(p, order)).Compact(),
      t.insertRanges + Stored(Ranges(TidsOf(newTxn))),
      t.deleteRanges + Stored(Ranges(TidsOf(delTxn.rows))))
  }

  /** Reconciliation (`if len(insertBatch) > 0 { ... }`): rebuilds the
      live-insert tables, deletes and compacts the merged CN rows, and
      records the new row ranges of every table id. */
  method ReconcileQueue(data: CheckpointData, p: Pending, order: seq<Tid>)
    requires data.Valid()
    requires data.cnInsert.deletes == data.delTxn.deletes == data.blkDelete.deletes
    requires WellFormed(SourceOf(Snapshot(data), p))
    requires Distinct(order) && forall t | t in p :: t in order
    modifies data
    ensures data.Valid()
    ensures Snapshot(data) == Reconciled(old(Snapshot(data)), p, order)
    ensures data.locations == old(data.locations)
  {
    var s := Source(data.insert, data.insTxn, data.cnInsert.rows, data.delTxn.rows, p);
    var blkMeta, blkMetaTxn, _ := RebuildInsert(s, order);
    DeleteMerged(data, p, order);
    data.CompactDeleteTables();
    var insertOff := TableOffsets(TidsOf(blkMetaTxn));
    var deleteOff := TableOffsets(TidsOf(data.delTxn.rows));
    data.SetRanges(data.insertRanges + Stored(insertOff), data.deleteRanges + Stored(deleteOff));
    data.SetInsertTables(blkMeta, blkMetaTxn);
  }

  // ------------------------------------------------------- what it does

  /** Compacting a table marked with the merged rows keeps exactly its
      rows that were neither marked before nor carried by a queued
      block, in their order. */
  lemma CompactMarked<T>(tb: Table<T>, p: Pending, order: seq<Tid>)
    requires forall t | t in p :: t in order
    ensures var c := Marked(tb, TidRows(p, order)).Compact();
            var sel := Survivors(|tb.rows|, tb.deletes + TidRows(p, order));
            && c.deletes == {} && |c.rows| == |sel| && StrictlyIncreasing(sel)
            && (forall k | 0 <= k < |sel| ::
                  && sel[k] < |tb.rows| && sel[k] !in tb.deletes && !MergedRow(p, sel[k])
                  && c.rows[k] == tb.rows[sel[k]])
            && (forall i: nat | i < |tb.rows| && i !in tb.deletes && !MergedRow(p, i) :: i in sel)
  {
    var d := tb.deletes + TidRows(p, order);
    WithoutSurvivors(tb.rows, d);
    forall i: nat ensures i in d <==> i in tb.deletes || MergedRow(p, i) {
      TidRowsMerged(p, order, i);
    }
  }

  /** Recording the ranges of the ids `tids` over `before`: the ids of
      `tids` get their first row and their number of rows (below 2^31
      rows), every other id keeps its range. */
  lemma RecordedRanges(before: map<Tid, TableRange>, tids: seq<Tid>, u: Tid)
    ensures var m := before + Stored(Ranges(tids));
            && (u in m <==> u in before || u in tids)
            && (u !in tids && u in before ==> m[u] == before[u])
            && (u in tids && |tids| < 0x8000_0000 ==>
                  && 0 <= m[u].offset < |tids| && tids[m[u].offset] == u
                  && (forall j | 0 <= j < m[u].offset :: tids[j] != u)
                  && m[u].end == m[u].offset + multiset(tids)[u])
  {
    if u in tids && |tids| < 0x8000_0000 {
      StoredExact(tids);
      RangesSpec(tids, u);
    }
  }

  /** After reconciliation the ranges recorded for every table id of the
      rebuilt live-insert table and of the compacted delete side give its
      first row and its number of rows there; other ids keep their
      ranges. */
  lemma ReconciledRanges(t: LocTableSnapshot, p: Pending, order: seq<Tid>, u: Tid)
    requires WellFormed(SourceOf(t, p))
    ensures var r := Reconciled(t, p, order);
            var tids := TidsOf(r.insTxn);
            && (u in r.insertRanges <==> u in t.insertRanges || u in tids)
            && (u !in tids && u in t.insertRanges ==> r.insertRanges[u] == t.insertRanges[u])
            && (u in tids && |tids| < 0x8000_0000 ==>
                  var g := r.insertRanges[u];
                  && 0 <= g.offset < |tids| && tids[g.offset] == u
                  && (forall j | 0 <= j < g.offset :: tids[j] != u)
                  && g.end == g.offset + multiset(tids)[u])
    ensures var r := Reconciled(t, p, order);
            var tids := TidsOf(r.delTxn.rows);
            && (u in r.deleteRanges <==> u in t.deleteRanges || u in tids)
            && (u !in tids && u in t.deleteRanges ==> r.deleteRanges[u] == t.deleteRanges[u])
            && (u in tids && |tids| < 0x8000_0000 ==>
                  var g := r.deleteRanges[u];
                  && 0 <= g.offset < |tids| && tids[g.offset] == u
                  && (forall j | 0 <= j < g.offset :: tids[j] != u)
                  && g.end == g.offset + multiset(tids)[u])
  {
    var r := Reconciled(t, p, order);
    RecordedRanges(t.insertRanges, TidsOf(r.insTxn), u);
    RecordedRanges(t.deleteRanges, TidsOf(r.delTxn.rows), u);
  }
}
