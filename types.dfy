/** Value types shared by the checkpoint-rewrite model: names, locations,
    block identifiers, row data, metadata-table rows, and the outcome of an
    operation that can fail. */
module BackupTypes {

  /** Go's `uint16`. */
  type uint16 = x: int | 0 <= x < 0x1_0000

  /** `math.MaxUint16`: the "no sort key" sentinel. */
  const MaxUint16: uint16 := 0xFFFF

  /** A logical timestamp (`types.TS`); only its total order matters. */
  type Timestamp = int

  /** A table id (`uint64`). */
  type Tid = nat

  datatype Option<T> = None | Some(value: T)

  /** Why the source aborts the process (`panic`, including Go runtime
      panics such as an index out of range). */
  datatype PanicReason =
    | CommitBeforeWatermark   // a delete-side row committed before the watermark
    | AppendableInsertRow     // a live-insert row flagged appendable
    | TooManyBlocks           // more than two blocks on the promotion path
    | SyncFailed              // the promoted block could not be written
    | IndexOutOfRange         // a slice or column index the source does not check
    | NilBatch                // a batch dereferenced before it was loaded

  datatype Fault =
    | IoError                 // the file service failed (read, write, delete)
    | FileAlreadyExists       // `moerr.ErrFileAlreadyExists` from a writer's sync
    | DecodeError             // a commit-timestamp cell does not decode
    | Panic(reason: PanicReason)

  datatype Result<T> = Ok(value: T) | Err(fault: Fault)

  /** An object file name: a segment and a file number within it. */
  datatype ObjectName = ObjectName(segment: nat, num: uint16)

  /** `objectio.Location`: an object name, the block index inside the
      object, the byte extent and the row count; or the empty location. */
  datatype Location =
    | EmptyLocation
    | Location(name: ObjectName, id: uint16, extent: nat, rows: nat)
  {
    predicate IsEmpty() { EmptyLocation? }
  }

  /** `types.Blockid`: the object a block lives in and its block index. */
  datatype Blockid = Blockid(name: ObjectName, blk: uint16)
  {
    function Segment(): nat { name.segment }
  }

  /** `objectio.DataMetaType`. */
  datatype BlockKind = SchemaData | SchemaTombstone

  /** One cell of a column batch. */
  datatype Value =
    | Ts(ts: Timestamp)                    // an encoded commit timestamp
    | Rowid(block: Blockid, offset: nat)   // an encoded row id
    | Raw(code: int)                       // any other payload

  /** A column batch stored row by row: every row has one cell per column. */
  datatype BatchData = BatchData(width: nat, rows: seq<seq<Value>>)

  predicate WellFormedBatch(b: BatchData) {
    b.width >= 1 && forall r | r in b.rows :: |r| == b.width
  }

  /** A loaded batch: at least one column (`Vecs[0]` is read unguarded). */
  type Batch = b: BatchData | WellFormedBatch(b) witness BatchData(1, [])

  /** Reads the commit timestamp in column `col` of `row`. A column index
      outside the row is a runtime panic in the source; a cell that is not
      a timestamp fails to unmarshal. */
  function CellTs(row: seq<Value>, col: int): Result<Timestamp> {
    if !(0 <= col < |row|) then Err(Panic(IndexOutOfRange))
    else match row[col]
      case Ts(t) => Ok(t)
      case _ => Err(DecodeError)
  }

  /** A row of a block-metadata table (`BlkMetaSchema`): the columns this
      core reads or rewrites. */
  datatype BlkMetaRow = BlkMetaRow(
    rowId: Blockid,
    blockId: Blockid,
    entryState: bool,     // true: an appendable block
    sorted: bool,
    segmentId: nat,
    metaLoc: Location,
    deltaLoc: Location,
    commitTs: Timestamp)

  /** A row of a transaction-attribution table. */
  datatype TxnRow = TxnRow(tid: Tid, metaLoc: Location, deltaLoc: Location)

  /** A row of the block-delete table; opaque to this core. */
  datatype DelRow = DelRow(payload: int)
}
