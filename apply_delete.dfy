/** `applyDelete`: removes from a data batch the rows that a tombstone batch
    deletes. Column 0 of a tombstone row is the row id of the deleted row. */
module ApplyDelete {
  import opened BackupTypes
  import opened Containers

  /** The row-id column of a tombstone row names row `offset` of block `id`. */
  predicate Deletes(tombstoneRow: seq<Value>, id: Blockid, offset: nat) {
    |tombstoneRow| >= 1 && tombstoneRow[0] == Rowid(id, offset)
  }

  /** Some row of the tombstone batch deletes row `offset` of block `id`. */
  predicate NamedBy(tombstone: Batch, id: Blockid, offset: nat) {
    exists j | 0 <= j < |tombstone.rows| :: Deletes(tombstone.rows[j], id, offset)
  }

  /** The offsets, below `n`, of the rows of block `id` that the tombstone
      batch deletes. */
  function DeletedOffsets(tombstone: Batch, id: Blockid, n: nat): (d: set<nat>)
    ensures forall i: nat :: i in d <==> i < n && NamedBy(tombstone, id, i)
  {
    set i: nat | i < n && NamedBy(tombstone, id, i)
  }

  /** The batch `ApplyDelete` leaves: `data` without the rows the
      tombstone batch, if any, deletes. */
  function DeleteApplied(data: Batch, tombstone: Option<Batch>, id: Blockid): Batch {
    if tombstone.None? then data
    else
      var rows := Without(data.rows, DeletedOffsets(tombstone.value, id, |data.rows|));
      assert forall r | r in rows :: r in data.rows;
      BatchData(data.width, rows)
  }

  /** `applyDelete(dataBatch, deleteBatch, id)`: with no tombstone batch the
      data is returned as it is; otherwise exactly the rows whose offsets a
      tombstone row of block `id` names are removed, the others keep their
      order. Tombstone rows of other blocks are ignored. */
  method ApplyDelete(data: Batch, tombstone: Option<Batch>, id: Blockid) returns (r: Batch)
    ensures tombstone.None? ==> r == data
    ensures tombstone.Some? ==>
              r.width == data.width && r.rows == Without(data.rows, DeletedOffsets(tombstone.value, id, |data.rows|))
    ensures r == DeleteApplied(data, tombstone, id)
  {
    if tombstone.None? {
      return data;
    }
    var del := tombstone.value;
    // rows := the offsets named by rows of this block
    var rows: set<nat> := {};
    var i := 0;
    while i < |del.rows|
      invariant 0 <= i <= |del.rows|
      invariant forall o: nat :: o in rows <==> exists j | 0 <= j < i :: Deletes(del.rows[j], id, o)
    {
      assert del.rows[i] in del.rows;
      var rowId := del.rows[i][0];
      if rowId.Rowid? && rowId.block == id {
        rows := rows + {rowId.offset};
      }
      i := i + 1;
    }
    var deleteRow: seq<nat> := [];
    var v := 0;
    while v < |data.rows|
      invariant 0 <= v <= |data.rows|
      invariant forall o :: o in deleteRow <==> o < v && o in rows
    {
      if v in rows {
        deleteRow := deleteRow + [v];
      }
      v := v + 1;
    }
    var sels := set k | 0 <= k < |deleteRow| :: deleteRow[k];
    assert sels == DeletedOffsets(del, id, |data.rows|) by {
      forall o: nat ensures o in sels <==> o in DeletedOffsets(del, id, |data.rows|) {
        if o in deleteRow {
          var k :| 0 <= k < |deleteRow| && deleteRow[k] == o;
        }
      }
    }
    r := AntiShrink(data, deleteRow);
  }
}
