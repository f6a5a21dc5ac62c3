/** The object indexer: groups the rows of the checkpoint's metadata tables by
    the object file and block they point at (`addBlockToObjectData` and the
    two indexing loops of `ReWriteCheckpointAndBlockFromKey`).

    The source keeps `map[string]*fileData` and mutates the descriptors
    through pointers. Here the map is a value that every step returns
    updated, and the tombstone pointer of a block is the key of the
    tombstone block in the same map, so a lookup through it sees every later
    update of that block, as the pointer does. */
module ObjectIndex {
  import opened BackupTypes

  /** The key of a block descriptor: object name and block index. */
  datatype BlockKey = BlockKey(name: ObjectName, id: uint16)

  /** `blockData`. */
  datatype BlockData = BlockData(
    num: uint16,
    deleteRow: seq<nat>,        // rows of the delete side (CN insert table)
    insertRow: seq<nat>,        // rows of the live-insert table
    blockType: BlockKind,
    location: Location,
    data: Option<Batch>,        // loaded by the trim pass
    sortKey: uint16,
    isABlock: bool,
    blockId: Blockid,
    tid: Tid,
    tombstone: Option<BlockKey>)

  /** `fileData`. */
  datatype FileData = FileData(
    data: map<uint16, BlockData>,
    name: ObjectName,
    isDeleteBatch: bool,
    isChange: bool,
    isABlock: bool)

  type ObjectsData = map<ObjectName, FileData>

  /** The soft-delete set: object name to block index to flag. */
  type SoftDeletes = set<BlockKey>

  predicate HasBlock(objects: ObjectsData, n: ObjectName, k: uint16) {
    n in objects && k in objects[n].data
  }

  /** The delete-side (`cnSide`) or insert-side rows recorded for block
      (n, k); none when there is no such block. */
  function RowsOf(objects: ObjectsData, n: ObjectName, k: uint16, cnSide: bool): seq<nat> {
    if !HasBlock(objects, n, k) then []
    else if cnSide then objects[n].data[k].deleteRow
    else objects[n].data[k].insertRow
  }

  /** `loc` is a non-empty location of block (n, k). */
  predicate RowAt(loc: Location, n: ObjectName, k: uint16) {
    loc.Location? && loc.name == n && loc.id == k
  }

  /** `softDeletes[loc.Name()][loc.ID()]` for a non-empty location. */
  predicate SoftDeleted(softDeletes: SoftDeletes, loc: Location) {
    loc.Location? && BlockKey(loc.name, loc.id) in softDeletes
  }

  /** `addBlockToObjectData`: records that metadata row `row` points at the
      block of `location`, creating the object and the block descriptor
      when they do not exist yet. */
  function AddBlockToObjectData(
    location: Location, isABlk: bool, isCnBatch: bool, row: nat, tid: Tid,
    blockID: Blockid, blockType: BlockKind, objectsData: ObjectsData): (r: ObjectsData)
    requires location.Location?
    // afterwards the block exists
    ensures HasBlock(r, location.name, location.id)
    ensures r.Keys == objectsData.Keys + {location.name}
    ensures r[location.name].data.Keys ==
            (if location.name in objectsData then objectsData[location.name].data.Keys else {})
            + {location.id}
    // the row is appended to the side the caller names, the other side is kept
    ensures RowsOf(r, location.name, location.id, true) ==
            RowsOf(objectsData, location.name, location.id, true) + (if isCnBatch then [row] else [])
    ensures RowsOf(r, location.name, location.id, false) ==
            RowsOf(objectsData, location.name, location.id, false) + (if isCnBatch then [] else [row])
    // a new block is described by this call's arguments and has no sort key
    ensures !HasBlock(objectsData, location.name, location.id) ==>
              var b := r[location.name].data[location.id];
              b.num == location.id && b.location == location && b.blockType == blockType
              && b.isABlock == isABlk && b.tid == tid && b.blockId == blockID
              && b.sortKey == MaxUint16 && b.data == None && b.tombstone == None
    // an existing block keeps everything but its row lists
    ensures HasBlock(objectsData, location.name, location.id) ==>
              r[location.name].data[location.id]
              == objectsData[location.name].data[location.id].(
                   deleteRow := r[location.name].data[location.id].deleteRow,
                   insertRow := r[location.name].data[location.id].insertRow)
    // a new object takes its flags from the first block added to it
    ensures location.name !in objectsData ==>
              var f := r[location.name];
              f.name == location.name && !f.isChange && f.isDeleteBatch == isCnBatch
              && f.isABlock == isABlk
    ensures location.name in objectsData ==>
              r[location.name] == objectsData[location.name].(data := r[location.name].data)
    // all other objects and blocks are unchanged
    ensures forall n | n in objectsData && n != location.name :: r[n] == objectsData[n]
    ensures forall k | location.name in objectsData && k in objectsData[location.name].data
                       && k != location.id ::
              r[location.name].data[k] == objectsData[location.name].data[k]
  {
    var name := location.name;
    var file :=
      if name in objectsData then objectsData[name]
      else FileData(map[], name, isCnBatch, false, isABlk);
    var block :=
      if location.id in file.data then
        var b := file.data[location.id];
        if isCnBatch then b.(deleteRow := b.deleteRow + [row])
        else b.(insertRow := b.insertRow + [row])
      else
        BlockData(location.id, if isCnBatch then [row] else [], if isCnBatch then [] else [row],
                  blockType, location, None, MaxUint16, isABlk, blockID, tid, None);
    objectsData[name := file.(data := file.data[location.id := block])]
  }

  /** Sets the tombstone of the block at `metaLoc` to the block at `deltaLoc`
      (the pointer assignment at the end of the delete-side loop). */
  function LinkTombstone(objects: ObjectsData, metaLoc: Location, deltaLoc: Location): (r: ObjectsData)
    requires metaLoc.Location? && deltaLoc.Location?
    requires HasBlock(objects, metaLoc.name, metaLoc.id)
    ensures r.Keys == objects.Keys
    ensures forall n | n in objects :: r[n].data.Keys == objects[n].data.Keys
    ensures r[metaLoc.name].data[metaLoc.id].tombstone == Some(BlockKey(deltaLoc.name, deltaLoc.id))
    ensures forall n, k | HasBlock(objects, n, k) ::
              r[n].data[k] == (if n == metaLoc.name && k == metaLoc.id
                               then objects[n].data[k].(tombstone := r[n].data[k].tombstone)
                               else objects[n].data[k])
    ensures forall n | n in objects :: r[n] == objects[n].(data := r[n].data)
  {
    var f := objects[metaLoc.name];
    var b := f.data[metaLoc.id];
    objects[metaLoc.name := f.(data := f.data[metaLoc.id := b.(tombstone := Some(BlockKey(deltaLoc.name, deltaLoc.id)))])]
  }

  /** From `prev` to `o`, block (n, k) received the delete-side rows
      `cnHits` and the insert-side rows `insHits`, in that order, and exists
      afterwards exactly when it existed or received a row. */
  predicate Grew(prev: ObjectsData, o: ObjectsData, n: ObjectName, k: uint16,
                 cnHits: seq<nat>, insHits: seq<nat>) {
    && (HasBlock(o, n, k) <==> HasBlock(prev, n, k) || cnHits != [] || insHits != [])
    && RowsOf(o, n, k, true) == RowsOf(prev, n, k, true) + cnHits
    && RowsOf(o, n, k, false) == RowsOf(prev, n, k, false) + insHits
  }

  lemma GrewTrans(a: ObjectsData, b: ObjectsData, c: ObjectsData, n: ObjectName, k: uint16,
                  cn1: seq<nat>, ins1: seq<nat>, cn2: seq<nat>, ins2: seq<nat>)
    requires Grew(a, b, n, k, cn1, ins1) && Grew(b, c, n, k, cn2, ins2)
    ensures Grew(a, c, n, k, cn1 + cn2, ins1 + ins2)
  {
    assert RowsOf(a, n, k, true) + cn1 + cn2 == RowsOf(a, n, k, true) + (cn1 + cn2);
    assert RowsOf(a, n, k, false) + ins1 + ins2 == RowsOf(a, n, k, false) + (ins1 + ins2);
  }

  // The fields a descriptor takes from the call that creates it, and the
  // tombstone links, stated step by step as the row lists are.

  /** The fields of a block descriptor fixed when it is created. */
  datatype Origin = Origin(blockType: BlockKind, isABlock: bool, tid: Tid, blockId: Blockid)

  /** The flags of an object fixed when it is created. */
  datatype ObjectFlags = ObjectFlags(isDeleteBatch: bool, isABlock: bool)

  function OriginOf(b: BlockData): Origin {
    Origin(b.blockType, b.isABlock, b.tid, b.blockId)
  }

  function FlagsOf(f: FileData): ObjectFlags {
    ObjectFlags(f.isDeleteBatch, f.isABlock)
  }

  /** `a` when there is one, else `b`. */
  function FirstOf<T>(a: Option<T>, b: Option<T>): Option<T> {
    if a.Some? then a else b
  }

  /** `loc` is a non-empty location in object `n`. */
  predicate InObject(loc: Location, n: ObjectName) {
    loc.Location? && loc.name == n
  }

  /** The fields an `addBlockToObjectData` call for `loc` gives block
      (n, k) when it creates it; none when `loc` is not that block. */
  function AddOrigin(loc: Location, isABlk: bool, tid: Tid, blockID: Blockid, blockType: BlockKind,
                     n: ObjectName, k: uint16): Option<Origin> {
    if RowAt(loc, n, k) then Some(Origin(blockType, isABlk, tid, blockID)) else None
  }

  /** The flags the same call gives object `n` when it creates it. */
  function AddFlags(loc: Location, isCnBatch: bool, isABlk: bool, n: ObjectName): Option<ObjectFlags> {
    if InObject(loc, n) then Some(ObjectFlags(isCnBatch, isABlk)) else None
  }

  /** From `prev` to `o`, block (n, k) keeps the fields it had; a block
      that did not exist exists afterwards exactly when `origin` is given,
      and then has those fields. */
  predicate BlockCreated(prev: ObjectsData, o: ObjectsData, n: ObjectName, k: uint16, origin: Option<Origin>) {
    && (HasBlock(o, n, k) <==> HasBlock(prev, n, k) || origin.Some?)
    && (HasBlock(o, n, k) ==>
          Some(OriginOf(o[n].data[k]))
          == (if HasBlock(prev, n, k) then Some(OriginOf(prev[n].data[k])) else origin))
  }

  /** The same for the flags of object `n`. */
  predicate ObjectCreated(prev: ObjectsData, o: ObjectsData, n: ObjectName, flags: Option<ObjectFlags>) {
    && (n in o <==> n in prev || flags.Some?)
    && (n in o ==> Some(FlagsOf(o[n])) == (if n in prev then Some(FlagsOf(prev[n])) else flags))
  }

  /** From `prev` to `o`, the tombstone of block (n, k) was set to `link`
      when that is given, and is otherwise what it was (none for a new
      block). */
  predicate Relinked(prev: ObjectsData, o: ObjectsData, n: ObjectName, k: uint16, link: Option<BlockKey>) {
    && (link.Some? ==> HasBlock(o, n, k))
    && (HasBlock(o, n, k) ==>
          o[n].data[k].tombstone
          == (if link.Some? then link else if HasBlock(prev, n, k) then prev[n].data[k].tombstone else None))
  }

  /** One step on block (n, k): its rows, its creation and its tombstone. */
  predicate Stepped(prev: ObjectsData, o: ObjectsData, n: ObjectName, k: uint16,
                    cnHits: seq<nat>, insHits: seq<nat>, origin: Option<Origin>, link: Option<BlockKey>) {
    Grew(prev, o, n, k, cnHits, insHits) && BlockCreated(prev, o, n, k, origin) && Relinked(prev, o, n, k, link)
  }

  /** Two steps make one: the first origin wins, the last link wins. */
  lemma StepTrans(a: ObjectsData, b: ObjectsData, c: ObjectsData, n: ObjectName, k: uint16,
                  cn1: seq<nat>, ins1: seq<nat>, o1: Option<Origin>, l1: Option<BlockKey>,
                  cn2: seq<nat>, ins2: seq<nat>, o2: Option<Origin>, l2: Option<BlockKey>)
    requires Stepped(a, b, n, k, cn1, ins1, o1, l1) && Stepped(b, c, n, k, cn2, ins2, o2, l2)
    ensures Stepped(a, c, n, k, cn1 + cn2, ins1 + ins2, FirstOf(o1, o2), FirstOf(l2, l1))
  {
    GrewTrans(a, b, c, n, k, cn1, ins1, cn2, ins2);
  }

  lemma ObjectCreatedTrans(a: ObjectsData, b: ObjectsData, c: ObjectsData, n: ObjectName,
                           f1: Option<ObjectFlags>, f2: Option<ObjectFlags>)
    requires ObjectCreated(a, b, n, f1) && ObjectCreated(b, c, n, f2)
    ensures ObjectCreated(a, c, n, FirstOf(f1, f2))
  {
  }

  /** `[i]` when `loc` is a location of block (n, k), otherwise nothing. */
  function Hit(loc: Location, i: nat, n: ObjectName, k: uint16): seq<nat> {
    if RowAt(loc, n, k) then [i] else []
  }

  /** The effect of one `addBlockToObjectData` call on block (n, k): only
      the block of `location` changes, by `row` on the caller's side, and it
      exists afterwards; it is created with this call's type, appendable
      flag, tid and block id and no tombstone, or keeps its own fields and
      tombstone; a new object takes this call's flags. */
  lemma AddBlockEffect(
    location: Location, isABlk: bool, isCnBatch: bool, row: nat, tid: Tid,
    blockID: Blockid, blockType: BlockKind, objects: ObjectsData, n: ObjectName, k: uint16)
    requires location.Location?
    ensures Stepped(objects, AddBlockToObjectData(location, isABlk, isCnBatch, row, tid, blockID,
                                                  blockType, objects), n, k,
                    if isCnBatch then Hit(location, row, n, k) else [],
                    if isCnBatch then [] else Hit(location, row, n, k),
                    AddOrigin(location, isABlk, tid, blockID, blockType, n, k), None)
    ensures ObjectCreated(objects, AddBlockToObjectData(location, isABlk, isCnBatch, row, tid, blockID,
                                                        blockType, objects), n,
                          AddFlags(location, isCnBatch, isABlk, n))
  {
    var r := AddBlockToObjectData(location, isABlk, isCnBatch, row, tid, blockID, blockType, objects);
    if n == location.name && n in objects && k in objects[n].data && k != location.id {
      assert r[n].data[k] == objects[n].data[k];
    }
  }

  /** Linking a tombstone adds no block or object, changes no row list and
      no created field, and sets the tombstone of the block of `metaLoc`
      only. */
  lemma LinkTombstoneEffect(objects: ObjectsData, metaLoc: Location, deltaLoc: Location,
                            n: ObjectName, k: uint16)
    requires metaLoc.Location? && deltaLoc.Location?
    requires HasBlock(objects, metaLoc.name, metaLoc.id)
    ensures Stepped(objects, LinkTombstone(objects, metaLoc, deltaLoc), n, k, [], [], None,
                    if RowAt(metaLoc, n, k) then Some(BlockKey(deltaLoc.name, deltaLoc.id)) else None)
    ensures ObjectCreated(objects, LinkTombstone(objects, metaLoc, deltaLoc), n, None)
  {
  }

  /** What the indexing pass guarantees of every descriptor it creates: an
      object is keyed by its own name and not yet changed; a block is keyed
      by its own index, its location is the location it was found at, it has
      no sort key and no loaded data yet, and its tombstone, if linked, is a
      block of the map. */
  predicate Collected(objects: ObjectsData) {
    && (forall n | n in objects :: objects[n].name == n && !objects[n].isChange)
    && (forall n, k | n in objects && k in objects[n].data ::
          var b := objects[n].data[k];
          && b.num == k && RowAt(b.location, n, k) && b.sortKey == MaxUint16 && b.data == None
          && (b.tombstone.Some? ==> HasBlock(objects, b.tombstone.value.name, b.tombstone.value.id)))
  }

  lemma AddBlockCollected(
    location: Location, isABlk: bool, isCnBatch: bool, row: nat, tid: Tid,
    blockID: Blockid, blockType: BlockKind, objects: ObjectsData)
    requires location.Location? && Collected(objects)
    ensures Collected(AddBlockToObjectData(location, isABlk, isCnBatch, row, tid, blockID,
                                           blockType, objects))
  {
    var r := AddBlockToObjectData(location, isABlk, isCnBatch, row, tid, blockID, blockType, objects);
    forall n, k | HasBlock(r, n, k)
      ensures var b := r[n].data[k];
              && b.num == k && RowAt(b.location, n, k) && b.sortKey == MaxUint16 && b.data == None
              && (b.tombstone.Some? ==> HasBlock(r, b.tombstone.value.name, b.tombstone.value.id))
    {
      AddBlockEffect(location, isABlk, isCnBatch, row, tid, blockID, blockType, objects, n, k);
      if HasBlock(objects, n, k) {
        var t := objects[n].data[k].tombstone;
        if t.Some? {
          AddBlockEffect(location, isABlk, isCnBatch, row, tid, blockID, blockType, objects,
                         t.value.name, t.value.id);
        }
      }
    }
  }

  lemma LinkTombstoneCollected(objects: ObjectsData, metaLoc: Location, deltaLoc: Location)
    requires metaLoc.Location? && deltaLoc.Location?
    requires HasBlock(objects, metaLoc.name, metaLoc.id) && HasBlock(objects, deltaLoc.name, deltaLoc.id)
    requires Collected(objects)
    ensures Collected(LinkTombstone(objects, metaLoc, deltaLoc))
  {
  }

  /** A delete-side row skipped because its block was soft-deleted by the
      previous checkpoint. */
  predicate SkippedRow(softDeletes: SoftDeletes, row: BlkMetaRow) {
    SoftDeleted(softDeletes, row.metaLoc)
  }

  /** The fields a delete-side row attributed to `tid` gives block (n, k)
      when it creates it: its delta location is added first, as a
      tombstone block, then its meta location, as a data block; both carry
      the row's appendable flag and block id. None for a skipped row. */
  function CNRowOrigin(row: BlkMetaRow, tid: Tid, softDeletes: SoftDeletes,
                       n: ObjectName, k: uint16): Option<Origin> {
    if SkippedRow(softDeletes, row) then None
    else FirstOf(AddOrigin(row.deltaLoc, row.entryState, tid, row.blockId, SchemaTombstone, n, k),
                 AddOrigin(row.metaLoc, row.entryState, tid, row.blockId, SchemaData, n, k))
  }

  /** The flags a delete-side row gives object `n` when it creates it: a
      delete batch, appendable as the row. */
  function CNRowFlags(row: BlkMetaRow, softDeletes: SoftDeletes, n: ObjectName): Option<ObjectFlags> {
    if SkippedRow(softDeletes, row) then None
    else FirstOf(AddFlags(row.deltaLoc, true, row.entryState, n),
                 AddFlags(row.metaLoc, true, row.entryState, n))
  }

  /** A collected, appendable delete-side row whose meta location is block
      (n, k) and which has a delta location: it links the two. */
  predicate CNRowLinks(row: BlkMetaRow, softDeletes: SoftDeletes, n: ObjectName, k: uint16) {
    !SkippedRow(softDeletes, row) && row.entryState && RowAt(row.metaLoc, n, k) && row.deltaLoc.Location?
  }

  /** The tombstone link the meta step of `row` sets on block (n, k). */
  function MetaLink(row: BlkMetaRow, n: ObjectName, k: uint16): Option<BlockKey> {
    if row.entryState && RowAt(row.metaLoc, n, k) && row.deltaLoc.Location?
    then Some(BlockKey(row.deltaLoc.name, row.deltaLoc.id))
    else None
  }

  /** The tombstone link a delete-side row sets on block (n, k). */
  function CNRowLink(row: BlkMetaRow, softDeletes: SoftDeletes, n: ObjectName, k: uint16): Option<BlockKey> {
    if SkippedRow(softDeletes, row) then None else MetaLink(row, n, k)
  }

  /** The fields a live-insert row attributed to `tid` gives block (n, k)
      when it creates it: its meta location first, as a data block, then
      its delta location, as a tombstone block; never appendable. */
  function InsertRowOrigin(row: BlkMetaRow, tid: Tid, n: ObjectName, k: uint16): Option<Origin> {
    FirstOf(AddOrigin(row.metaLoc, false, tid, row.blockId, SchemaData, n, k),
            AddOrigin(row.deltaLoc, false, tid, row.blockId, SchemaTombstone, n, k))
  }

  /** The flags a live-insert row gives object `n` when it creates it: not
      a delete batch, not appendable. */
  function InsertRowFlags(row: BlkMetaRow, n: ObjectName): Option<ObjectFlags> {
    FirstOf(AddFlags(row.metaLoc, false, false, n), AddFlags(row.deltaLoc, false, false, n))
  }

  /** The effect of one delete-side row `row`, at index `i` and attributed
      to `tid`, on block (n, k), from `prev` to `o`: unless the row is
      skipped, its index is recorded once for its delta location and once
      for its meta location when they are (n, k), the block exists from
      then on, is created with `CNRowOrigin` if it is new and takes the
      link `CNRowLink`; insert-side rows are left alone. */
  predicate CNRowEffect(prev: ObjectsData, o: ObjectsData, row: BlkMetaRow, tid: Tid, i: nat,
                        softDeletes: SoftDeletes, n: ObjectName, k: uint16) {
    Stepped(prev, o, n, k, CNRowHits(row, i, softDeletes, n, k), [],
            CNRowOrigin(row, tid, softDeletes, n, k), CNRowLink(row, softDeletes, n, k))
  }

  /** The effect of one live-insert row on block (n, k): its index is
      recorded once for its meta location and once for its delta location
      when they are (n, k), a new block is created with `InsertRowOrigin`,
      and no tombstone changes; delete-side rows are left alone. */
  predicate InsertRowEffect(prev: ObjectsData, o: ObjectsData, row: BlkMetaRow, tid: Tid, i: nat,
                            n: ObjectName, k: uint16) {
    Stepped(prev, o, n, k, [], InsertRowHits(row, i, n, k), InsertRowOrigin(row, tid, n, k), None)
  }

  /** The indices a delete-side row `row` at index `i` records for block
      (n, k): once for its delta location and once for its meta location
      when they are (n, k); none when the row is skipped. */
  function CNRowHits(row: BlkMetaRow, i: nat, softDeletes: SoftDeletes, n: ObjectName, k: uint16): seq<nat> {
    if SkippedRow(softDeletes, row) then []
    else Hit(row.deltaLoc, i, n, k) + Hit(row.metaLoc, i, n, k)
  }


  /** Reference definition of the `deleteRow` list of block (n, k) after the
      delete-side loop has run over rows `[0, m)`. */
  function CNRowsFor(cn: seq<BlkMetaRow>, softDeletes: SoftDeletes, m: nat,
                     n: ObjectName, k: uint16): seq<nat>
    requires m <= |cn|
  {
    if m == 0 then []
    else CNRowsFor(cn, softDeletes, m - 1, n, k) + CNRowHits(cn[m - 1], m - 1, softDeletes, n, k)
  }

  /** Reference definition of the `insertRow` list of block (n, k) after
      the live-insert loop has run over rows `[0, m)`. */
  function InsertRowsFor(ins: seq<BlkMetaRow>, m: nat, n: ObjectName, k: uint16): seq<nat>
    requires m <= |ins|
  {
    if m == 0 then []
    else InsertRowsFor(ins, m - 1, n, k) + InsertRowHits(ins[m - 1], m - 1, n, k)
  }

  /** The indices a live-insert row `row` at index `i` records for block
      (n, k): once for its meta location and once for its delta location
      when they are (n, k). */
  function InsertRowHits(row: BlkMetaRow, i: nat, n: ObjectName, k: uint16): seq<nat> {
    Hit(row.metaLoc, i, n, k) + Hit(row.deltaLoc, i, n, k)
  }

  /** Reference definition of the created fields of block (n, k) after the
      delete-side loop has run over rows `[0, m)` attributed to `tids`: the
      first row that creates it decides. */
  function CNOriginFor(cn: seq<BlkMetaRow>, tids: seq<Tid>, softDeletes: SoftDeletes, m: nat,
                       n: ObjectName, k: uint16): Option<Origin>
    requires m <= |cn| && m <= |tids|
  {
    if m == 0 then None
    else FirstOf(CNOriginFor(cn, tids, softDeletes, m - 1, n, k), CNRowOrigin(cn[m - 1], tids[m - 1], softDeletes, n, k))
  }

  /** The same for the flags of object `n`. */
  function CNFlagsFor(cn: seq<BlkMetaRow>, softDeletes: SoftDeletes, m: nat, n: ObjectName): Option<ObjectFlags>
    requires m <= |cn|
  {
    if m == 0 then None
    else FirstOf(CNFlagsFor(cn, softDeletes, m - 1, n), CNRowFlags(cn[m - 1], softDeletes, n))
  }

  /** Reference definition of the tombstone of block (n, k) after the
      delete-side loop has run over rows `[0, m)`: the last row that links
      it decides. */
  function CNLinkFor(cn: seq<BlkMetaRow>, softDeletes: SoftDeletes, m: nat,
                     n: ObjectName, k: uint16): Option<BlockKey>
    requires m <= |cn|
  {
    if m == 0 then None
    else FirstOf(CNRowLink(cn[m - 1], softDeletes, n, k), CNLinkFor(cn, softDeletes, m - 1, n, k))
  }

  /** Reference definition of the created fields of block (n, k) after the
      live-insert loop has run over rows `[0, m)` attributed to `tids`. */
  function InsertOriginFor(ins: seq<BlkMetaRow>, tids: seq<Tid>, m: nat,
                           n: ObjectName, k: uint16): Option<Origin>
    requires m <= |ins| && m <= |tids|
  {
    if m == 0 then None
    else FirstOf(InsertOriginFor(ins, tids, m - 1, n, k), InsertRowOrigin(ins[m - 1], tids[m - 1], n, k))
  }

  /** The same for the flags of object `n`. */
  function InsertFlagsFor(ins: seq<BlkMetaRow>, m: nat, n: ObjectName): Option<ObjectFlags>
    requires m <= |ins|
  {
    if m == 0 then None
    else FirstOf(InsertFlagsFor(ins, m - 1, n), InsertRowFlags(ins[m - 1], n))
  }

  /** A collected delete-side row with a location in object `n`. */
  predicate CNRowInObject(row: BlkMetaRow, softDeletes: SoftDeletes, n: ObjectName) {
    !SkippedRow(softDeletes, row) && (InObject(row.deltaLoc, n) || InObject(row.metaLoc, n))
  }

  /** A live-insert row with a location in object `n`. */
  predicate InsertRowInObject(row: BlkMetaRow, n: ObjectName) {
    InObject(row.metaLoc, n) || InObject(row.deltaLoc, n)
  }

  /** The reference fields are those of the first collected row that
      points at the block. */
  lemma {:induction false} CNOriginForFirst(cn: seq<BlkMetaRow>, tids: seq<Tid>, softDeletes: SoftDeletes,
                                            m: nat, n: ObjectName, k: uint16, j: nat)
    requires m <= |cn| && m <= |tids| && j < m
    requires CNRowPointsAt(cn[j], softDeletes, n, k)
    requires forall l | 0 <= l < j :: !CNRowPointsAt(cn[l], softDeletes, n, k)
    ensures CNOriginFor(cn, tids, softDeletes, m, n, k) == CNRowOrigin(cn[j], tids[j], softDeletes, n, k)
    ensures CNRowOrigin(cn[j], tids[j], softDeletes, n, k).Some?
  {
    if m - 1 > j {
      CNOriginForFirst(cn, tids, softDeletes, m - 1, n, k, j);
    } else {
      CNOriginForNone(cn, tids, softDeletes, j, n, k);
    }
  }

  /** There are no reference fields exactly when no collected row points
      at the block. */
  lemma {:induction false} CNOriginForNone(cn: seq<BlkMetaRow>, tids: seq<Tid>, softDeletes: SoftDeletes,
                                           m: nat, n: ObjectName, k: uint16)
    requires m <= |cn| && m <= |tids|
    ensures CNOriginFor(cn, tids, softDeletes, m, n, k).None?
            <==> forall j | 0 <= j < m :: !CNRowPointsAt(cn[j], softDeletes, n, k)
  {
    if m > 0 {
      CNOriginForNone(cn, tids, softDeletes, m - 1, n, k);
    }
  }

  /** The reference tombstone is the delta location of the last row that
      links the block. */
  lemma {:induction false} CNLinkForLast(cn: seq<BlkMetaRow>, softDeletes: SoftDeletes, m: nat,
                                         n: ObjectName, k: uint16, j: nat)
    requires m <= |cn| && j < m
    requires CNRowLinks(cn[j], softDeletes, n, k)
    requires forall l | j < l < m :: !CNRowLinks(cn[l], softDeletes, n, k)
    ensures CNLinkFor(cn, softDeletes, m, n, k) == Some(BlockKey(cn[j].deltaLoc.name, cn[j].deltaLoc.id))
  {
    if m - 1 > j {
      CNLinkForLast(cn, softDeletes, m - 1, n, k, j);
    }
  }

  /** There is no reference tombstone exactly when no row links the block. */
  lemma {:induction false} CNLinkForNone(cn: seq<BlkMetaRow>, softDeletes: SoftDeletes, m: nat,
                                         n: ObjectName, k: uint16)
    requires m <= |cn|
    ensures CNLinkFor(cn, softDeletes, m, n, k).None?
            <==> forall j | 0 <= j < m :: !CNRowLinks(cn[j], softDeletes, n, k)
  {
    if m > 0 {
      CNLinkForNone(cn, softDeletes, m - 1, n, k);
    }
  }

  /** The reference flags of an object are those of the first collected
      row with a location in it. */
  lemma {:induction false} CNFlagsForFirst(cn: seq<BlkMetaRow>, softDeletes: SoftDeletes, m: nat,
                                           n: ObjectName, j: nat)
    requires m <= |cn| && j < m
    requires CNRowInObject(cn[j], softDeletes, n)
    requires forall l | 0 <= l < j :: !CNRowInObject(cn[l], softDeletes, n)
    ensures CNFlagsFor(cn, softDeletes, m, n) == Some(ObjectFlags(true, cn[j].entryState))
  {
    if m - 1 > j {
      CNFlagsForFirst(cn, softDeletes, m - 1, n, j);
    } else {
      CNFlagsForNone(cn, softDeletes, j, n);
    }
  }

  lemma {:induction false} CNFlagsForNone(cn: seq<BlkMetaRow>, softDeletes: SoftDeletes, m: nat, n: ObjectName)
    requires m <= |cn|
    ensures CNFlagsFor(cn, softDeletes, m, n).None?
            <==> forall j | 0 <= j < m :: !CNRowInObject(cn[j], softDeletes, n)
    ensures CNFlagsFor(cn, softDeletes, m, n).Some? ==> CNFlagsFor(cn, softDeletes, m, n).value.isDeleteBatch
  {
    if m > 0 {
      CNFlagsForNone(cn, softDeletes, m - 1, n);
    }
  }

  /** The reference fields from the live-insert rows are those of the first
      row that points at the block. */
  lemma {:induction false} InsertOriginForFirst(ins: seq<BlkMetaRow>, tids: seq<Tid>, m: nat,
                                                n: ObjectName, k: uint16, j: nat)
    requires m <= |ins| && m <= |tids| && j < m
    requires InsertRowPointsAt(ins[j], n, k)
    requires forall l | 0 <= l < j :: !InsertRowPointsAt(ins[l], n, k)
    ensures InsertOriginFor(ins, tids, m, n, k) == InsertRowOrigin(ins[j], tids[j], n, k)
    ensures InsertRowOrigin(ins[j], tids[j], n, k).Some?
  {
    if m - 1 > j {
      InsertOriginForFirst(ins, tids, m - 1, n, k, j);
    } else {
      InsertOriginForNone(ins, tids, j, n, k);
    }
  }

  lemma {:induction false} InsertOriginForNone(ins: seq<BlkMetaRow>, tids: seq<Tid>, m: nat,
                                               n: ObjectName, k: uint16)
    requires m <= |ins| && m <= |tids|
    ensures InsertOriginFor(ins, tids, m, n, k).None?
            <==> forall j | 0 <= j < m :: !InsertRowPointsAt(ins[j], n, k)
  {
    if m > 0 {
      InsertOriginForNone(ins, tids, m - 1, n, k);
    }
  }

  /** The reference flags from the live-insert rows: neither a delete batch
      nor appendable, exactly when some row has a location in the object. */
  lemma {:induction false} InsertFlagsForSome(ins: seq<BlkMetaRow>, m: nat, n: ObjectName)
    requires m <= |ins|
    ensures InsertFlagsFor(ins, m, n) == (if exists j | 0 <= j < m :: InsertRowInObject(ins[j], n)
                                          then Some(ObjectFlags(false, false)) else None)
  {
    if m > 0 {
      InsertFlagsForSome(ins, m - 1, n);
      if InsertRowInObject(ins[m - 1], n) {
        assert exists j | 0 <= j < m :: InsertRowInObject(ins[j], n);
      }
    }
  }


  predicate NonDecreasing(s: seq<nat>) {
    forall j, l | 0 <= j < l < |s| :: s[j] <= s[l]
  }

  /** A delete-side row that is collected and points at block (n, k). */
  predicate CNRowPointsAt(row: BlkMetaRow, softDeletes: SoftDeletes, n: ObjectName, k: uint16) {
    !SkippedRow(softDeletes, row) && (RowAt(row.deltaLoc, n, k) || RowAt(row.metaLoc, n, k))
  }

  /** A live-insert row that points at block (n, k). */
  predicate InsertRowPointsAt(row: BlkMetaRow, n: ObjectName, k: uint16) {
    RowAt(row.metaLoc, n, k) || RowAt(row.deltaLoc, n, k)
  }

  /** Appending copies of `x` to a non-decreasing list of smaller numbers
      keeps it non-decreasing. */
  lemma ExtendNonDecreasing(before: seq<nat>, hits: seq<nat>, x: nat)
    requires NonDecreasing(before)
    requires forall y | y in before :: y < x
    requires forall y | y in hits :: y == x
    ensures NonDecreasing(before + hits)
  {
    var after := before + hits;
    forall j, l | 0 <= j < l < |after| ensures after[j] <= after[l] {
      if l >= |before| {
        assert after[l] in hits;
        if j < |before| {
          assert after[j] == before[j] && before[j] in before;
        } else {
          assert after[j] in hits;
        }
      }
    }
  }

  /** Row `i` is in `CNRowsFor` exactly when it is below `m`, collected and
      points at (n, k): a soft-deleted row is recorded nowhere. */
  lemma CNRowsForMember(cn: seq<BlkMetaRow>, softDeletes: SoftDeletes, m: nat,
                         n: ObjectName, k: uint16, i: nat)
    requires m <= |cn|
    ensures i in CNRowsFor(cn, softDeletes, m, n, k) <==> i < m && CNRowPointsAt(cn[i], softDeletes, n, k)
  {
    CNRowsAsFlags(cn, softDeletes, m, n, k);
    FlaggedRowsMember(CNDeltaFlags(cn, softDeletes, n, k), CNMetaFlags(cn, softDeletes, n, k), m, i);
  }


  /** `CNRowsFor` lists its rows in ascending order. */
  lemma CNRowsForSorted(cn: seq<BlkMetaRow>, softDeletes: SoftDeletes, m: nat,
                         n: ObjectName, k: uint16)
    requires m <= |cn|
    ensures NonDecreasing(CNRowsFor(cn, softDeletes, m, n, k))
    ensures forall y | y in CNRowsFor(cn, softDeletes, m, n, k) :: y < m
  {
    CNRowsAsFlags(cn, softDeletes, m, n, k);
    FlaggedRowsSorted(CNDeltaFlags(cn, softDeletes, n, k), CNMetaFlags(cn, softDeletes, n, k), m);
  }


  /** Row `i` is in `InsertRowsFor` exactly when it is below `m` and points
      at (n, k). */
  lemma InsertRowsForMember(ins: seq<BlkMetaRow>, m: nat, n: ObjectName, k: uint16, i: nat)
    requires m <= |ins|
    ensures i in InsertRowsFor(ins, m, n, k) <==> i < m && InsertRowPointsAt(ins[i], n, k)
  {
    InsertRowsAsFlags(ins, m, n, k);
    FlaggedRowsMember(InsertMetaFlags(ins, n, k), InsertDeltaFlags(ins, n, k), m, i);
  }


  /** `InsertRowsFor` lists its rows in ascending order. */
  lemma InsertRowsForSorted(ins: seq<BlkMetaRow>, m: nat, n: ObjectName, k: uint16)
    requires m <= |ins|
    ensures NonDecreasing(InsertRowsFor(ins, m, n, k))
    ensures forall y | y in InsertRowsFor(ins, m, n, k) :: y < m
  {
    InsertRowsAsFlags(ins, m, n, k);
    FlaggedRowsSorted(InsertMetaFlags(ins, n, k), InsertDeltaFlags(ins, n, k), m);
  }

  // The row lists reduce to lists driven by two flags per row; the
  // reduction keeps the location comparisons out of the inductions.

  /** The rows below `m`, each once per flag it has set. */
  function FlaggedRows(f: seq<bool>, g: seq<bool>, m: nat): seq<nat>
    requires m <= |f| == |g|
  {
    if m == 0 then []
    else FlaggedRows(f, g, m - 1) + ((if f[m - 1] then [m - 1] else []) + (if g[m - 1] then [m - 1] else []))
  }

  lemma {:induction false} FlaggedRowsMember(f: seq<bool>, g: seq<bool>, m: nat, i: nat)
    requires m <= |f| == |g|
    ensures i in FlaggedRows(f, g, m) <==> i < m && (f[i] || g[i])
  {
    if m > 0 {
      FlaggedRowsMember(f, g, m - 1, i);
    }
  }

  lemma {:induction false} FlaggedRowsSorted(f: seq<bool>, g: seq<bool>, m: nat)
    requires m <= |f| == |g|
    ensures NonDecreasing(FlaggedRows(f, g, m))
    ensures forall y | y in FlaggedRows(f, g, m) :: y < m
  {
    if m > 0 {
      var prev := FlaggedRows(f, g, m - 1);
      var hits := (if f[m - 1] then [m - 1] else []) + (if g[m - 1] then [m - 1] else []);
      FlaggedRowsSorted(f, g, m - 1);
      assert forall y | y in hits :: y == m - 1;
      ExtendNonDecreasing(prev, hits, m - 1);
    }
  }

  function InsertMetaFlags(ins: seq<BlkMetaRow>, n: ObjectName, k: uint16): (r: seq<bool>)
    ensures |r| == |ins| && forall j | 0 <= j < |ins| :: r[j] == RowAt(ins[j].metaLoc, n, k)
  {
    seq(|ins|, j requires 0 <= j < |ins| => RowAt(ins[j].metaLoc, n, k))
  }

  function InsertDeltaFlags(ins: seq<BlkMetaRow>, n: ObjectName, k: uint16): (r: seq<bool>)
    ensures |r| == |ins| && forall j | 0 <= j < |ins| :: r[j] == RowAt(ins[j].deltaLoc, n, k)
  {
    seq(|ins|, j requires 0 <= j < |ins| => RowAt(ins[j].deltaLoc, n, k))
  }

  function CNDeltaFlags(cn: seq<BlkMetaRow>, softDeletes: SoftDeletes, n: ObjectName, k: uint16): (r: seq<bool>)
    ensures |r| == |cn|
    ensures forall j | 0 <= j < |cn| :: r[j] == (!SkippedRow(softDeletes, cn[j]) && RowAt(cn[j].deltaLoc, n, k))
  {
    seq(|cn|, j requires 0 <= j < |cn| => !SkippedRow(softDeletes, cn[j]) && RowAt(cn[j].deltaLoc, n, k))
  }

  function CNMetaFlags(cn: seq<BlkMetaRow>, softDeletes: SoftDeletes, n: ObjectName, k: uint16): (r: seq<bool>)
    ensures |r| == |cn|
    ensures forall j | 0 <= j < |cn| :: r[j] == (!SkippedRow(softDeletes, cn[j]) && RowAt(cn[j].metaLoc, n, k))
  {
    seq(|cn|, j requires 0 <= j < |cn| => !SkippedRow(softDeletes, cn[j]) && RowAt(cn[j].metaLoc, n, k))
  }

  lemma {:induction false} InsertRowsAsFlags(ins: seq<BlkMetaRow>, m: nat, n: ObjectName, k: uint16)
    requires m <= |ins|
    ensures InsertRowsFor(ins, m, n, k) == FlaggedRows(InsertMetaFlags(ins, n, k), InsertDeltaFlags(ins, n, k), m)
  {
    if m > 0 {
      InsertRowsAsFlags(ins, m - 1, n, k);
    }
  }

  lemma {:induction false} CNRowsAsFlags(cn: seq<BlkMetaRow>, softDeletes: SoftDeletes, m: nat,
                                         n: ObjectName, k: uint16)
    requires m <= |cn|
    ensures CNRowsFor(cn, softDeletes, m, n, k)
            == FlaggedRows(CNDeltaFlags(cn, softDeletes, n, k), CNMetaFlags(cn, softDeletes, n, k), m)
  {
    if m > 0 {
      CNRowsAsFlags(cn, softDeletes, m - 1, n, k);
      CNRowHitsAsFlags(cn[m - 1], m - 1, softDeletes, n, k);
    }
  }

  lemma CNRowHitsAsFlags(row: BlkMetaRow, i: nat, softDeletes: SoftDeletes, n: ObjectName, k: uint16)
    ensures CNRowHits(row, i, softDeletes, n, k)
            == (if !SkippedRow(softDeletes, row) && RowAt(row.deltaLoc, n, k) then [i] else [])
               + (if !SkippedRow(softDeletes, row) && RowAt(row.metaLoc, n, k) then [i] else [])
  {
    if SkippedRow(softDeletes, row) {
      var none: seq<nat> := [];
      assert none + none == none;
    }
  }


  /** The body of the delete-side loop for row `i`, attributed to `tid`,
      once the watermark check has passed. */
  method IndexCNRowStep(objects: ObjectsData, row: BlkMetaRow, tid: Tid, i: nat,
                        softDeletes: SoftDeletes)
    returns (objectsData: ObjectsData)
    requires Collected(objects)
    ensures Collected(objectsData)
    ensures forall n, k :: CNRowEffect(objects, objectsData, row, tid, i, softDeletes, n, k)
    ensures forall n :: ObjectCreated(objects, objectsData, n, CNRowFlags(row, softDeletes, n))
  {
    objectsData := objects;
    if SkippedRow(softDeletes, row) {
      // soft-deleted by the previous checkpoint: not collected
      return;
    }
    var withDelta := IndexCNDelta(objects, row, tid, i);
    if row.deltaLoc.Location? {
      assert Hit(row.deltaLoc, i, row.deltaLoc.name, row.deltaLoc.id) == [i];
    }
    objectsData := IndexCNMeta(withDelta, row, tid, i);
    forall n, k ensures CNRowEffect(objects, objectsData, row, tid, i, softDeletes, n, k) {
      StepTrans(objects, withDelta, objectsData, n, k,
                Hit(row.deltaLoc, i, n, k), [],
                AddOrigin(row.deltaLoc, row.entryState, tid, row.blockId, SchemaTombstone, n, k), None,
                Hit(row.metaLoc, i, n, k), [],
                AddOrigin(row.metaLoc, row.entryState, tid, row.blockId, SchemaData, n, k), MetaLink(row, n, k));
    }
    forall n ensures ObjectCreated(objects, objectsData, n, CNRowFlags(row, softDeletes, n)) {
      ObjectCreatedTrans(objects, withDelta, objectsData, n, AddFlags(row.deltaLoc, true, row.entryState, n),
                         AddFlags(row.metaLoc, true, row.entryState, n));
    }
  }

  /** The delete-side row's delta location, a tombstone block created with
      the row's appendable flag, tid and block id, in a delete-batch object. */
  method IndexCNDelta(objects: ObjectsData, row: BlkMetaRow, tid: Tid, i: nat)
    returns (objectsData: ObjectsData)
    requires Collected(objects)
    ensures Collected(objectsData)
    ensures forall n, k :: Stepped(objects, objectsData, n, k, Hit(row.deltaLoc, i, n, k), [],
                                   AddOrigin(row.deltaLoc, row.entryState, tid, row.blockId, SchemaTombstone, n, k),
                                   None)
    ensures forall n :: ObjectCreated(objects, objectsData, n, AddFlags(row.deltaLoc, true, row.entryState, n))
  {
    objectsData := objects;
    if !row.deltaLoc.IsEmpty() {
      AddBlockCollected(row.deltaLoc, row.entryState, true, i, tid, row.blockId, SchemaTombstone, objectsData);
      forall n, k ensures Stepped(objects, AddBlockToObjectData(row.deltaLoc, row.entryState, true, i, tid,
                                                                row.blockId, SchemaTombstone, objects),
                                  n, k, Hit(row.deltaLoc, i, n, k), [],
                                  AddOrigin(row.deltaLoc, row.entryState, tid, row.blockId, SchemaTombstone, n, k),
                                  None) {
        AddBlockEffect(row.deltaLoc, row.entryState, true, i, tid, row.blockId, SchemaTombstone, objects, n, 0);
        AddBlockEffect(row.deltaLoc, row.entryState, true, i, tid, row.blockId, SchemaTombstone, objects, n, k);
      }
      forall n ensures ObjectCreated(objects, AddBlockToObjectData(row.deltaLoc, row.entryState, true, i, tid,
                                                                   row.blockId, SchemaTombstone, objects),
                                     n, AddFlags(row.deltaLoc, true, row.entryState, n)) {
        AddBlockEffect(row.deltaLoc, row.entryState, true, i, tid, row.blockId, SchemaTombstone, objects, n, 0);
      }
      objectsData := AddBlockToObjectData(row.deltaLoc, row.entryState, true, i, tid,
                                          row.blockId, SchemaTombstone, objectsData);
    }
  }

  /** The delete-side row's meta location, a data block created with the
      row's appendable flag, tid and block id, in a delete-batch object, and
      linked to its tombstone when the row is appendable and has a delta
      location (`MetaLink`). */
  method IndexCNMeta(withDelta: ObjectsData, row: BlkMetaRow, tid: Tid, i: nat)
    returns (objectsData: ObjectsData)
    requires Collected(withDelta)
    requires row.entryState && row.deltaLoc.Location? ==> HasBlock(withDelta, row.deltaLoc.name, row.deltaLoc.id)
    ensures Collected(objectsData)
    ensures forall n, k :: Stepped(withDelta, objectsData, n, k, Hit(row.metaLoc, i, n, k), [],
                                   AddOrigin(row.metaLoc, row.entryState, tid, row.blockId, SchemaData, n, k),
                                   MetaLink(row, n, k))
    ensures forall n :: ObjectCreated(withDelta, objectsData, n, AddFlags(row.metaLoc, true, row.entryState, n))
  {
    objectsData := withDelta;
    if !row.metaLoc.IsEmpty() {
      AddBlockCollected(row.metaLoc, row.entryState, true, i, tid, row.blockId, SchemaData, objectsData);
      forall n, k ensures Stepped(withDelta, AddBlockToObjectData(row.metaLoc, row.entryState, true, i, tid,
                                                                  row.blockId, SchemaData, withDelta),
                                  n, k, Hit(row.metaLoc, i, n, k), [],
                                  AddOrigin(row.metaLoc, row.entryState, tid, row.blockId, SchemaData, n, k),
                                  None) {
        AddBlockEffect(row.metaLoc, row.entryState, true, i, tid, row.blockId, SchemaData, withDelta, n, k);
      }
      forall n ensures ObjectCreated(withDelta, AddBlockToObjectData(row.metaLoc, row.entryState, true, i, tid,
                                                                     row.blockId, SchemaData, withDelta),
                                     n, AddFlags(row.metaLoc, true, row.entryState, n)) {
        AddBlockEffect(row.metaLoc, row.entryState, true, i, tid, row.blockId, SchemaData, withDelta, n, 0);
      }
      objectsData := AddBlockToObjectData(row.metaLoc, row.entryState, true, i, tid,
                                          row.blockId, SchemaData, objectsData);
      if row.entryState && !row.deltaLoc.IsEmpty() {
        AddBlockEffect(row.metaLoc, row.entryState, true, i, tid, row.blockId, SchemaData, withDelta,
                       row.deltaLoc.name, row.deltaLoc.id);
        LinkTombstoneCollected(objectsData, row.metaLoc, row.deltaLoc);
        ghost var withMeta := objectsData;
        forall n, k ensures Stepped(withMeta, LinkTombstone(withMeta, row.metaLoc, row.deltaLoc), n, k, [], [],
                                    None, MetaLink(row, n, k)) {
          LinkTombstoneEffect(withMeta, row.metaLoc, row.deltaLoc, n, k);
        }
        forall n ensures ObjectCreated(withMeta, LinkTombstone(withMeta, row.metaLoc, row.deltaLoc), n, None) {
          LinkTombstoneEffect(withMeta, row.metaLoc, row.deltaLoc, n, 0);
        }
        objectsData := LinkTombstone(objectsData, row.metaLoc, row.deltaLoc);
        forall n, k ensures Stepped(withDelta, objectsData, n, k, Hit(row.metaLoc, i, n, k), [],
                                    AddOrigin(row.metaLoc, row.entryState, tid, row.blockId, SchemaData, n, k),
                                    MetaLink(row, n, k)) {
          StepTrans(withDelta, withMeta, objectsData, n, k, Hit(row.metaLoc, i, n, k), [],
                    AddOrigin(row.metaLoc, row.entryState, tid, row.blockId, SchemaData, n, k), None,
                    [], [], None, MetaLink(row, n, k));
        }
        forall n ensures ObjectCreated(withDelta, objectsData, n, AddFlags(row.metaLoc, true, row.entryState, n)) {
          ObjectCreatedTrans(withDelta, withMeta, objectsData, n, AddFlags(row.metaLoc, true, row.entryState, n), None);
        }
      }
    }
  }

  /** The body of the live-insert loop for row `i`, attributed to `tid`,
      once the appendable check has passed: the meta location first, as a
      data block, then the delta location, as a tombstone block, both with
      `isABlk` false, in an object that is not a delete batch. */
  method IndexInsertRowStep(objects: ObjectsData, row: BlkMetaRow, tid: Tid, i: nat)
    returns (objectsData: ObjectsData)
    requires Collected(objects)
    ensures Collected(objectsData)
    ensures forall n, k :: InsertRowEffect(objects, objectsData, row, tid, i, n, k)
    ensures forall n :: ObjectCreated(objects, objectsData, n, InsertRowFlags(row, n))
  {
    objectsData := objects;
    if !row.metaLoc.IsEmpty() {
      AddBlockCollected(row.metaLoc, false, false, i, tid, row.blockId, SchemaData, objectsData);
      forall n, k ensures Stepped(objects, AddBlockToObjectData(row.metaLoc, false, false, i, tid,
                                                                row.blockId, SchemaData, objects),
                                  n, k, [], Hit(row.metaLoc, i, n, k),
                                  AddOrigin(row.metaLoc, false, tid, row.blockId, SchemaData, n, k), None) {
        AddBlockEffect(row.metaLoc, false, false, i, tid, row.blockId, SchemaData, objects, n, k);
      }
      forall n ensures ObjectCreated(objects, AddBlockToObjectData(row.metaLoc, false, false, i, tid,
                                                                   row.blockId, SchemaData, objects),
                                     n, AddFlags(row.metaLoc, false, false, n)) {
        AddBlockEffect(row.metaLoc, false, false, i, tid, row.blockId, SchemaData, objects, n, 0);
      }
      objectsData := AddBlockToObjectData(row.metaLoc, false, false, i, tid,
                                          row.blockId, SchemaData, objectsData);
    }
    assert forall n, k :: Stepped(objects, objectsData, n, k, [], Hit(row.metaLoc, i, n, k),
                                  AddOrigin(row.metaLoc, false, tid, row.blockId, SchemaData, n, k), None);
    assert forall n :: ObjectCreated(objects, objectsData, n, AddFlags(row.metaLoc, false, false, n));
    ghost var withMeta := objectsData;
    if !row.deltaLoc.IsEmpty() {
      AddBlockCollected(row.deltaLoc, false, false, i, tid, row.blockId, SchemaTombstone, objectsData);
      forall n, k ensures Stepped(withMeta, AddBlockToObjectData(row.deltaLoc, false, false, i, tid,
                                                                 row.blockId, SchemaTombstone, withMeta),
                                  n, k, [], Hit(row.deltaLoc, i, n, k),
                                  AddOrigin(row.deltaLoc, false, tid, row.blockId, SchemaTombstone, n, k), None) {
        AddBlockEffect(row.deltaLoc, false, false, i, tid, row.blockId, SchemaTombstone, withMeta, n, k);
      }
      forall n ensures ObjectCreated(withMeta, AddBlockToObjectData(row.deltaLoc, false, false, i, tid,
                                                                    row.blockId, SchemaTombstone, withMeta),
                                     n, AddFlags(row.deltaLoc, false, false, n)) {
        AddBlockEffect(row.deltaLoc, false, false, i, tid, row.blockId, SchemaTombstone, withMeta, n, 0);
      }
      objectsData := AddBlockToObjectData(row.deltaLoc, false, false, i, tid,
                                          row.blockId, SchemaTombstone, objectsData);
    }
    forall n, k ensures InsertRowEffect(objects, objectsData, row, tid, i, n, k) {
      StepTrans(objects, withMeta, objectsData, n, k,
                [], Hit(row.metaLoc, i, n, k), AddOrigin(row.metaLoc, false, tid, row.blockId, SchemaData, n, k), None,
                [], Hit(row.deltaLoc, i, n, k), AddOrigin(row.deltaLoc, false, tid, row.blockId, SchemaTombstone, n, k),
                None);
    }
    forall n ensures ObjectCreated(objects, objectsData, n, InsertRowFlags(row, n)) {
      ObjectCreatedTrans(objects, withMeta, objectsData, n, AddFlags(row.metaLoc, false, false, n),
                         AddFlags(row.deltaLoc, false, false, n));
    }
  }

  /** Some delete-side row committed before the watermark `ts`. */
  predicate SomeCommitBeforeWatermark(cn: seq<BlkMetaRow>, ts: Timestamp) {
    exists j | 0 <= j < |cn| :: cn[j].commitTs < ts
  }

  /** Some live-insert row is flagged appendable. */
  predicate SomeAppendableInsert(ins: seq<BlkMetaRow>) {
    exists j | 0 <= j < |ins| :: ins[j].entryState
  }

  /** The row lists after both indexing loops over the delete-side rows
      `cn` and the live-insert rows `ins`: every block holds exactly the
      rows that point at it, in table order, and a block exists exactly
      when some row points at it. */
  ghost predicate RowsIndexed(objects: ObjectsData, cn: seq<BlkMetaRow>, ins: seq<BlkMetaRow>,
                              softDeletes: SoftDeletes) {
    forall n, k :: Grew(map[], objects, n, k, CNRowsFor(cn, softDeletes, |cn|, n, k),
                        InsertRowsFor(ins, |ins|, n, k))
  }

  /** The result of both indexing loops, the rows of `cn` attributed to
      `cnTids` and those of `ins` to `insTids`: the row lists of
      `RowsIndexed`; every block has the fields of the first row that
      creates it, a CN row before any live-insert row; every object has the
      flags of the first row that creates it; and the tombstone of every
      block is the one the last CN row that links it names. */
  ghost predicate Indexed(objects: ObjectsData, cn: seq<BlkMetaRow>, cnTids: seq<Tid>,
                          ins: seq<BlkMetaRow>, insTids: seq<Tid>, softDeletes: SoftDeletes) {
    && |cnTids| == |cn| && |insTids| == |ins|
    && RowsIndexed(objects, cn, ins, softDeletes)
    && (forall n, k :: BlockCreated(map[], objects, n, k,
                                    FirstOf(CNOriginFor(cn, cnTids, softDeletes, |cn|, n, k),
                                            InsertOriginFor(ins, insTids, |ins|, n, k))))
    && (forall n, k :: Relinked(map[], objects, n, k, CNLinkFor(cn, softDeletes, |cn|, n, k)))
    && (forall n :: ObjectCreated(map[], objects, n, FirstOf(CNFlagsFor(cn, softDeletes, |cn|, n),
                                                             InsertFlagsFor(ins, |ins|, n))))
  }

  /** The delete-side loop over the CN insert table `cn`, whose row `i` is
      attributed to transaction `tids[i]`: panics on the first row that
      committed before the watermark, otherwise outcome as `CNRowsFor`,
      `CNOriginFor`, `CNFlagsFor` and `CNLinkFor`. */
  method IndexCNTable(cn: seq<BlkMetaRow>, tids: seq<Tid>, ts: Timestamp, softDeletes: SoftDeletes)
    returns (res: Result<ObjectsData>)
    requires |tids| == |cn|
    ensures res.Err? <==> SomeCommitBeforeWatermark(cn, ts)
    ensures res.Err? ==> res.fault == Panic(CommitBeforeWatermark)
    ensures res.Ok? ==> Collected(res.value)
    ensures res.Ok? ==> forall n, k :: Stepped(map[], res.value, n, k, CNRowsFor(cn, softDeletes, |cn|, n, k), [],
                                               CNOriginFor(cn, tids, softDeletes, |cn|, n, k),
                                               CNLinkFor(cn, softDeletes, |cn|, n, k))
    ensures res.Ok? ==> forall n :: ObjectCreated(map[], res.value, n, CNFlagsFor(cn, softDeletes, |cn|, n))
  {
    var objectsData: ObjectsData := map[];
    var i := 0;
    while i < |cn|
      invariant 0 <= i <= |cn|
      invariant Collected(objectsData)
      invariant forall j | 0 <= j < i :: !(cn[j].commitTs < ts)
      invariant forall n, k :: Stepped(map[], objectsData, n, k, CNRowsFor(cn, softDeletes, i, n, k), [],
                                       CNOriginFor(cn, tids, softDeletes, i, n, k),
                                       CNLinkFor(cn, softDeletes, i, n, k))
      invariant forall n :: ObjectCreated(map[], objectsData, n, CNFlagsFor(cn, softDeletes, i, n))
    {
      if cn[i].commitTs < ts {
        return Err(Panic(CommitBeforeWatermark));
      }
      ghost var prev := objectsData;
      objectsData := IndexCNRowStep(objectsData, cn[i], tids[i], i, softDeletes);
      ghost var row := cn[i];
      i := i + 1;
      forall n, k ensures Stepped(map[], objectsData, n, k, CNRowsFor(cn, softDeletes, i, n, k), [],
                                  CNOriginFor(cn, tids, softDeletes, i, n, k),
                                  CNLinkFor(cn, softDeletes, i, n, k)) {
        assert CNRowEffect(prev, objectsData, row, tids[i - 1], i - 1, softDeletes, n, k);
        StepTrans(map[], prev, objectsData, n, k, CNRowsFor(cn, softDeletes, i - 1, n, k), [],
                  CNOriginFor(cn, tids, softDeletes, i - 1, n, k), CNLinkFor(cn, softDeletes, i - 1, n, k),
                  CNRowHits(row, i - 1, softDeletes, n, k), [],
                  CNRowOrigin(row, tids[i - 1], softDeletes, n, k), CNRowLink(row, softDeletes, n, k));
      }
      forall n ensures ObjectCreated(map[], objectsData, n, CNFlagsFor(cn, softDeletes, i, n)) {
        ObjectCreatedTrans(map[], prev, objectsData, n, CNFlagsFor(cn, softDeletes, i - 1, n),
                           CNRowFlags(row, softDeletes, n));
      }
    }
    return Ok(objectsData);
  }

  /** The live-insert loop over `ins`, whose row `i` is attributed to
      transaction `tids[i]`, continuing from `objects`: panics on the first
      appendable row, otherwise adds the rows as `InsertRowsFor`, creates
      new blocks and objects as `InsertOriginFor` and `InsertFlagsFor`, and
      links no tombstone. */
  method IndexInsertTable(objects: ObjectsData, ins: seq<BlkMetaRow>, tids: seq<Tid>)
    returns (res: Result<ObjectsData>)
    requires |tids| == |ins|
    requires Collected(objects)
    ensures res.Err? <==> SomeAppendableInsert(ins)
    ensures res.Err? ==> res.fault == Panic(AppendableInsertRow)
    ensures res.Ok? ==> Collected(res.value)
    ensures res.Ok? ==> forall n, k :: Stepped(objects, res.value, n, k, [], InsertRowsFor(ins, |ins|, n, k),
                                               InsertOriginFor(ins, tids, |ins|, n, k), None)
    ensures res.Ok? ==> forall n :: ObjectCreated(objects, res.value, n, InsertFlagsFor(ins, |ins|, n))
  {
    var objectsData := objects;
    var i := 0;
    while i < |ins|
      invariant 0 <= i <= |ins|
      invariant Collected(objectsData)
      invariant forall j | 0 <= j < i :: !ins[j].entryState
      invariant forall n, k :: Stepped(objects, objectsData, n, k, [], InsertRowsFor(ins, i, n, k),
                                       InsertOriginFor(ins, tids, i, n, k), None)
      invariant forall n :: ObjectCreated(objects, objectsData, n, InsertFlagsFor(ins, i, n))
    {
      if ins[i].entryState {
        return Err(Panic(AppendableInsertRow));
      }
      ghost var prev := objectsData;
      objectsData := IndexInsertRowStep(objectsData, ins[i], tids[i], i);
      ghost var row := ins[i];
      i := i + 1;
      forall n, k ensures Stepped(objects, objectsData, n, k, [], InsertRowsFor(ins, i, n, k),
                                  InsertOriginFor(ins, tids, i, n, k), None) {
        assert InsertRowEffect(prev, objectsData, row, tids[i - 1], i - 1, n, k);
        StepTrans(objects, prev, objectsData, n, k, [], InsertRowsFor(ins, i - 1, n, k),
                  InsertOriginFor(ins, tids, i - 1, n, k), None,
                  [], InsertRowHits(row, i - 1, n, k), InsertRowOrigin(row, tids[i - 1], n, k), None);
      }
      forall n ensures ObjectCreated(objects, objectsData, n, InsertFlagsFor(ins, i, n)) {
        ObjectCreatedTrans(objects, prev, objectsData, n, InsertFlagsFor(ins, i - 1, n), InsertRowFlags(row, n));
      }
    }
    return Ok(objectsData);
  }

  /** Both indexing loops, from an empty map: the first panic wins, and on
      success the map is `Indexed`. */
  method IndexCheckpoint(cn: seq<BlkMetaRow>, cnTids: seq<Tid>, ins: seq<BlkMetaRow>,
                         insTids: seq<Tid>, ts: Timestamp, softDeletes: SoftDeletes)
    returns (res: Result<ObjectsData>)
    requires |cnTids| == |cn| && |insTids| == |ins|
    ensures res.Err? <==> SomeCommitBeforeWatermark(cn, ts) || SomeAppendableInsert(ins)
    ensures res.Err? ==> res.fault == Panic(if SomeCommitBeforeWatermark(cn, ts) then CommitBeforeWatermark
                                            else AppendableInsertRow)
    ensures res.Ok? ==> Collected(res.value) && Indexed(res.value, cn, cnTids, ins, insTids, softDeletes)
  {
    var deleted := IndexCNTable(cn, cnTids, ts, softDeletes);
    if deleted.Err? {
      return deleted;
    }
    res := IndexInsertTable(deleted.value, ins, insTids);
    if res.Ok? {
      forall n, k ensures Stepped(map[], res.value, n, k, CNRowsFor(cn, softDeletes, |cn|, n, k),
                                  InsertRowsFor(ins, |ins|, n, k),
                                  FirstOf(CNOriginFor(cn, cnTids, softDeletes, |cn|, n, k),
                                          InsertOriginFor(ins, insTids, |ins|, n, k)),
                                  CNLinkFor(cn, softDeletes, |cn|, n, k)) {
        StepTrans(map[], deleted.value, res.value, n, k, CNRowsFor(cn, softDeletes, |cn|, n, k), [],
                  CNOriginFor(cn, cnTids, softDeletes, |cn|, n, k), CNLinkFor(cn, softDeletes, |cn|, n, k),
                  [], InsertRowsFor(ins, |ins|, n, k), InsertOriginFor(ins, insTids, |ins|, n, k), None);
      }
      forall n ensures ObjectCreated(map[], res.value, n, FirstOf(CNFlagsFor(cn, softDeletes, |cn|, n),
                                                                  InsertFlagsFor(ins, |ins|, n))) {
        ObjectCreatedTrans(map[], deleted.value, res.value, n, CNFlagsFor(cn, softDeletes, |cn|, n),
                           InsertFlagsFor(ins, |ins|, n));
      }
    }
  }

  /** What the indexing loops promise of block (n, k): its delete-side rows
      are exactly the CN rows that point at it and were not soft-deleted,
      its insert-side rows exactly the live-insert rows that point at it,
      both in ascending order, and it exists exactly when some such row
      exists. */
  lemma IndexedRows(objects: ObjectsData, cn: seq<BlkMetaRow>, ins: seq<BlkMetaRow>,
                    softDeletes: SoftDeletes, n: ObjectName, k: uint16, i: nat)
    requires RowsIndexed(objects, cn, ins, softDeletes)
    ensures i in RowsOf(objects, n, k, true) <==> i < |cn| && CNRowPointsAt(cn[i], softDeletes, n, k)
    ensures i in RowsOf(objects, n, k, false) <==> i < |ins| && InsertRowPointsAt(ins[i], n, k)
    ensures NonDecreasing(RowsOf(objects, n, k, true)) && NonDecreasing(RowsOf(objects, n, k, false))
    ensures HasBlock(objects, n, k) <==>
              (exists j | 0 <= j < |cn| :: CNRowPointsAt(cn[j], softDeletes, n, k))
              || (exists j | 0 <= j < |ins| :: InsertRowPointsAt(ins[j], n, k))
  {
    var dels := CNRowsFor(cn, softDeletes, |cn|, n, k);
    var inss := InsertRowsFor(ins, |ins|, n, k);
    assert Grew(map[], objects, n, k, dels, inss);
    CNRowsForMember(cn, softDeletes, |cn|, n, k, i);
    InsertRowsForMember(ins, |ins|, n, k, i);
    CNRowsForSorted(cn, softDeletes, |cn|, n, k);
    InsertRowsForSorted(ins, |ins|, n, k);
    if dels != [] {
      CNRowsForMember(cn, softDeletes, |cn|, n, k, dels[0]);
    }
    if inss != [] {
      InsertRowsForMember(ins, |ins|, n, k, inss[0]);
    }
    forall j | 0 <= j < |cn| && CNRowPointsAt(cn[j], softDeletes, n, k) ensures dels != [] {
      CNRowsForMember(cn, softDeletes, |cn|, n, k, j);
    }
    forall j | 0 <= j < |ins| && InsertRowPointsAt(ins[j], n, k) ensures inss != [] {
      InsertRowsForMember(ins, |ins|, n, k, j);
    }
  }

  /** The soft-delete skip: a CN row whose meta location the previous
      checkpoint soft-deleted is recorded in no block, while any other CN row
      is recorded in the block of each non-empty location it carries. */
  lemma IndexedSoftDeletes(objects: ObjectsData, cn: seq<BlkMetaRow>, ins: seq<BlkMetaRow>,
                           softDeletes: SoftDeletes, i: nat)
    requires RowsIndexed(objects, cn, ins, softDeletes) && i < |cn|
    ensures SkippedRow(softDeletes, cn[i]) ==>
              forall n, k :: i !in RowsOf(objects, n, k, true)
    ensures !SkippedRow(softDeletes, cn[i]) && cn[i].metaLoc.Location? ==>
              i in RowsOf(objects, cn[i].metaLoc.name, cn[i].metaLoc.id, true)
    ensures !SkippedRow(softDeletes, cn[i]) && cn[i].deltaLoc.Location? ==>
              i in RowsOf(objects, cn[i].deltaLoc.name, cn[i].deltaLoc.id, true)
  {
    forall n, k ensures SkippedRow(softDeletes, cn[i]) ==> i !in RowsOf(objects, n, k, true) {
      IndexedRows(objects, cn, ins, softDeletes, n, k, i);
    }
    if cn[i].metaLoc.Location? {
      IndexedRows(objects, cn, ins, softDeletes, cn[i].metaLoc.name, cn[i].metaLoc.id, i);
    }
    if cn[i].deltaLoc.Location? {
      IndexedRows(objects, cn, ins, softDeletes, cn[i].deltaLoc.name, cn[i].deltaLoc.id, i);
    }
  }

  /** What the indexing loops promise of the fields of block (n, k) when
      the first collected CN row pointing at it is row `j`: the block exists
      and was created by that row, a tombstone block when the row's delta
      location is the block and a data block otherwise, appendable as the
      row, with the row's block id and the tid of the delete-transaction
      column. */
  lemma IndexedCNOrigin(objects: ObjectsData, cn: seq<BlkMetaRow>, cnTids: seq<Tid>, ins: seq<BlkMetaRow>,
                        insTids: seq<Tid>, softDeletes: SoftDeletes, n: ObjectName, k: uint16, j: nat)
    requires Indexed(objects, cn, cnTids, ins, insTids, softDeletes) && j < |cn|
    requires CNRowPointsAt(cn[j], softDeletes, n, k)
    requires forall l | 0 <= l < j :: !CNRowPointsAt(cn[l], softDeletes, n, k)
    ensures HasBlock(objects, n, k)
    ensures objects[n].data[k].blockType == (if RowAt(cn[j].deltaLoc, n, k) then SchemaTombstone else SchemaData)
    ensures objects[n].data[k].isABlock == cn[j].entryState
    ensures objects[n].data[k].tid == cnTids[j] && objects[n].data[k].blockId == cn[j].blockId
  {
    CNOriginForFirst(cn, cnTids, softDeletes, |cn|, n, k, j);
    assert BlockCreated(map[], objects, n, k, FirstOf(CNOriginFor(cn, cnTids, softDeletes, |cn|, n, k),
                                                      InsertOriginFor(ins, insTids, |ins|, n, k)));
  }

  /** When no collected CN row points at block (n, k) and the first
      live-insert row pointing at it is row `j`: the block exists and was
      created by that row, a data block when the row's meta location is the
      block and a tombstone block otherwise, not appendable, with the row's
      block id and the tid of the insert-transaction column. */
  lemma IndexedInsertOrigin(objects: ObjectsData, cn: seq<BlkMetaRow>, cnTids: seq<Tid>, ins: seq<BlkMetaRow>,
                            insTids: seq<Tid>, softDeletes: SoftDeletes, n: ObjectName, k: uint16, j: nat)
    requires Indexed(objects, cn, cnTids, ins, insTids, softDeletes) && j < |ins|
    requires forall l | 0 <= l < |cn| :: !CNRowPointsAt(cn[l], softDeletes, n, k)
    requires InsertRowPointsAt(ins[j], n, k)
    requires forall l | 0 <= l < j :: !InsertRowPointsAt(ins[l], n, k)
    ensures HasBlock(objects, n, k)
    ensures objects[n].data[k].blockType == (if RowAt(ins[j].metaLoc, n, k) then SchemaData else SchemaTombstone)
    ensures !objects[n].data[k].isABlock
    ensures objects[n].data[k].tid == insTids[j] && objects[n].data[k].blockId == ins[j].blockId
  {
    CNOriginForNone(cn, cnTids, softDeletes, |cn|, n, k);
    InsertOriginForFirst(ins, insTids, |ins|, n, k, j);
    assert BlockCreated(map[], objects, n, k, FirstOf(CNOriginFor(cn, cnTids, softDeletes, |cn|, n, k),
                                                      InsertOriginFor(ins, insTids, |ins|, n, k)));
  }

  /** The tombstone of block (n, k): none exactly when no CN row links the
      block; otherwise the delta location of the last CN row that links it
      (collected, appendable, with the block as its meta location and a
      delta location), whichever row created the block. */
  lemma IndexedTombstone(objects: ObjectsData, cn: seq<BlkMetaRow>, cnTids: seq<Tid>, ins: seq<BlkMetaRow>,
                         insTids: seq<Tid>, softDeletes: SoftDeletes, n: ObjectName, k: uint16)
    requires Indexed(objects, cn, cnTids, ins, insTids, softDeletes) && HasBlock(objects, n, k)
    ensures objects[n].data[k].tombstone.None? <==> forall j | 0 <= j < |cn| :: !CNRowLinks(cn[j], softDeletes, n, k)
    ensures forall j | 0 <= j < |cn| && CNRowLinks(cn[j], softDeletes, n, k)
                       && (forall l | j < l < |cn| :: !CNRowLinks(cn[l], softDeletes, n, k)) ::
              objects[n].data[k].tombstone == Some(BlockKey(cn[j].deltaLoc.name, cn[j].deltaLoc.id))
  {
    CNLinkForNone(cn, softDeletes, |cn|, n, k);
    assert Relinked(map[], objects, n, k, CNLinkFor(cn, softDeletes, |cn|, n, k));
    forall j | 0 <= j < |cn| && CNRowLinks(cn[j], softDeletes, n, k)
               && (forall l | j < l < |cn| :: !CNRowLinks(cn[l], softDeletes, n, k))
      ensures objects[n].data[k].tombstone == Some(BlockKey(cn[j].deltaLoc.name, cn[j].deltaLoc.id))
    {
      CNLinkForLast(cn, softDeletes, |cn|, n, k, j);
    }
  }

  /** The flags of object `n`: it exists exactly when some collected CN row
      or some live-insert row has a location in it; it is a delete batch
      exactly when some collected CN row has, and then is appendable as the
      first such row; otherwise it is not appendable. */
  lemma IndexedObjectFlags(objects: ObjectsData, cn: seq<BlkMetaRow>, cnTids: seq<Tid>, ins: seq<BlkMetaRow>,
                           insTids: seq<Tid>, softDeletes: SoftDeletes, n: ObjectName)
    requires Indexed(objects, cn, cnTids, ins, insTids, softDeletes)
    ensures n in objects <==> (exists j | 0 <= j < |cn| :: CNRowInObject(cn[j], softDeletes, n))
                              || (exists j | 0 <= j < |ins| :: InsertRowInObject(ins[j], n))
    ensures n in objects ==>
              (objects[n].isDeleteBatch <==> exists j | 0 <= j < |cn| :: CNRowInObject(cn[j], softDeletes, n))
    ensures n in objects && !objects[n].isDeleteBatch ==> !objects[n].isABlock
    ensures forall j | 0 <= j < |cn| && CNRowInObject(cn[j], softDeletes, n)
                       && (forall l | 0 <= l < j :: !CNRowInObject(cn[l], softDeletes, n)) ::
              n in objects && objects[n].isABlock == cn[j].entryState
  {
    CNFlagsForNone(cn, softDeletes, |cn|, n);
    InsertFlagsForSome(ins, |ins|, n);
    assert ObjectCreated(map[], objects, n, FirstOf(CNFlagsFor(cn, softDeletes, |cn|, n), InsertFlagsFor(ins, |ins|, n)));
    forall j | 0 <= j < |cn| && CNRowInObject(cn[j], softDeletes, n)
               && (forall l | 0 <= l < j :: !CNRowInObject(cn[l], softDeletes, n))
      ensures n in objects && objects[n].isABlock == cn[j].entryState
    {
      CNFlagsForFirst(cn, softDeletes, |cn|, n, j);
    }
  }

  /** A checkpoint with one collected, appendable CN row whose meta and
      delta locations are two different blocks, and no live-insert row:
      the meta block is a data block of a delete-batch object, appendable,
      attributed to the row's tid and linked to the delta block, which is a
      tombstone block with no tombstone of its own. */
  lemma IndexedOneAppendableRow(objects: ObjectsData, row: BlkMetaRow, tid: Tid, softDeletes: SoftDeletes)
    requires Indexed(objects, [row], [tid], [], [], softDeletes)
    requires !SkippedRow(softDeletes, row) && row.entryState && row.metaLoc.Location? && row.deltaLoc.Location?
    requires BlockKey(row.metaLoc.name, row.metaLoc.id) != BlockKey(row.deltaLoc.name, row.deltaLoc.id)
    ensures HasBlock(objects, row.metaLoc.name, row.metaLoc.id) && HasBlock(objects, row.deltaLoc.name, row.deltaLoc.id)
    ensures var b := objects[row.metaLoc.name].data[row.metaLoc.id];
            b.blockType == SchemaData && b.isABlock && b.tid == tid && b.blockId == row.blockId
            && b.tombstone == Some(BlockKey(row.deltaLoc.name, row.deltaLoc.id))
    ensures var t := objects[row.deltaLoc.name].data[row.deltaLoc.id];
            t.blockType == SchemaTombstone && t.tid == tid && t.tombstone == None
    ensures objects[row.metaLoc.name].isDeleteBatch && objects[row.metaLoc.name].isABlock
  {
    var m, d := row.metaLoc, row.deltaLoc;
    IndexedCNOrigin(objects, [row], [tid], [], [], softDeletes, m.name, m.id, 0);
    IndexedCNOrigin(objects, [row], [tid], [], [], softDeletes, d.name, d.id, 0);
    IndexedTombstone(objects, [row], [tid], [], [], softDeletes, m.name, m.id);
    IndexedTombstone(objects, [row], [tid], [], [], softDeletes, d.name, d.id);
    IndexedObjectFlags(objects, [row], [tid], [], [], softDeletes, m.name);
    assert CNRowInObject([row][0], softDeletes, m.name);
  }
}
