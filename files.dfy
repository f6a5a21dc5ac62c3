/** The file services the rewrite writes to, as far as its control flow
    depends on them: which object files a service holds, which of its
    operations fail for reasons of the backing store, what a writer's
    `Sync` reports, and the one retry after a name clash. */
module Files {
  import opened BackupTypes

  /** The file-service operations the rewrite performs. */
  datatype IoStep = NewWriter | WriteBlock | SyncObject | DeleteObject

  /** A file service: the object files it holds, and the pairs (object,
      operation) on which the backing store fails. */
  datatype FileService = FileService(files: set<ObjectName>, failing: set<(ObjectName, IoStep)>)

  predicate FailsOn(fs: FileService, name: ObjectName, step: IoStep) {
    (name, step) in fs.failing
  }

  /** One block handed to a writer: `WriteBatch` or `WriteTombstoneBatch`,
      after `SetPrimaryKey(sortKey)` when the sort key is set. */
  datatype WriteItem = WriteItem(kind: BlockKind, sortKey: uint16, data: Option<BatchData>)

  /** What a writer's `Sync` returns besides the error: the blocks it wrote
      (`BlockObject.GetID()`, `GetRows()`) and the object's extent. */
  datatype WrittenBlock = WrittenBlock(id: uint16, rows: nat)
  datatype Written = Written(blocks: seq<WrittenBlock>, extent: nat)

  /** Some item hands the writer a batch that was never loaded. */
  predicate Unloaded(items: seq<WriteItem>) {
    exists i | 0 <= i < |items| :: items[i].data.None?
  }

  /** The writes of `items`, in order, to the writer of `name`: the writer
      reads the columns of the batch it is given, so a batch that was never
      loaded is a nil dereference; a write to a failing store returns an
      error, which ends the loop. */
  function WriteEach(fs: FileService, name: ObjectName, items: seq<WriteItem>): (r: Option<Fault>)
    ensures r == Some(IoError) <==> items != [] && items[0].data.Some? && FailsOn(fs, name, WriteBlock)
    ensures r == Some(Panic(NilBatch)) <==>
              items != [] && Unloaded(items) && (items[0].data.None? || !FailsOn(fs, name, WriteBlock))
    ensures r.None? <==> !Unloaded(items) && (items == [] || !FailsOn(fs, name, WriteBlock))
  {
    if items == [] then None
    else if items[0].data.None? then Some(Panic(NilBatch))
    else if FailsOn(fs, name, WriteBlock) then Some(IoError)
    else
      UnloadedTail(items);
      WriteEach(fs, name, items[1..])
  }

  lemma UnloadedTail(items: seq<WriteItem>)
    requires items != []
    ensures Unloaded(items) <==> items[0].data.None? || Unloaded(items[1..])
  {
    if Unloaded(items) && items[0].data.Some? {
      var i :| 0 <= i < |items| && items[i].data.None?;
      assert items[1..][i - 1] == items[i];
    }
    if Unloaded(items[1..]) {
      var i :| 0 <= i < |items[1..]| && items[1..][i].data.None?;
      assert items[i + 1] == items[1..][i];
    }
  }

  /** `blockio.NewBlockWriter` followed by one write per item: fails when
      the writer cannot be made, then as `WriteEach`; the outcome is an I/O
      error, the nil-batch panic or success. */
  function WriteBlocks(fs: FileService, name: ObjectName, items: seq<WriteItem>): (r: Option<Fault>)
    ensures r == Some(IoError) <==>
              FailsOn(fs, name, NewWriter) || (items != [] && items[0].data.Some? && FailsOn(fs, name, WriteBlock))
    ensures r == Some(Panic(NilBatch)) <==>
              !FailsOn(fs, name, NewWriter) && items != [] && Unloaded(items)
              && (items[0].data.None? || !FailsOn(fs, name, WriteBlock))
    ensures r.None? <==>
              !FailsOn(fs, name, NewWriter) && !Unloaded(items) && (items == [] || !FailsOn(fs, name, WriteBlock))
  {
    if FailsOn(fs, name, NewWriter) then Some(IoError) else WriteEach(fs, name, items)
  }

  /** `writer.Sync`: creates the object, or fails, with
      `ErrFileAlreadyExists` when the service holds the name already. */
  function Sync(fs: FileService, name: ObjectName): (r: Result<FileService>)
    ensures r.Ok? <==> !FailsOn(fs, name, SyncObject) && name !in fs.files
    ensures r.Ok? ==> r.value == fs.(files := fs.files + {name})
    ensures r.Err? && !FailsOn(fs, name, SyncObject) ==> r.fault == FileAlreadyExists
    ensures r.Err? && FailsOn(fs, name, SyncObject) ==> r.fault == IoError
  {
    if FailsOn(fs, name, SyncObject) then Err(IoError)
    else if name in fs.files then Err(FileAlreadyExists)
    else Ok(fs.(files := fs.files + {name}))
  }

  /** `fs.Delete`: removes the object, or fails. */
  function Delete(fs: FileService, name: ObjectName): (r: Result<FileService>)
    ensures r.Ok? <==> !FailsOn(fs, name, DeleteObject)
    ensures r.Ok? ==> r.value == fs.(files := fs.files - {name})
    ensures r.Err? ==> r.fault == IoError
  {
    if FailsOn(fs, name, DeleteObject) then Err(IoError)
    else Ok(fs.(files := fs.files - {name}))
  }

  /** The services after a sync attempt, and its failure if any. Effects
      on the services stay whether or not the attempt failed. */
  datatype Synced = Synced(fault: Option<Fault>, src: FileService, dst: FileService)

  /** The sync of an in-place rewrite: a clash is met by deleting `name`
      through the SOURCE service `src` and syncing to `dst` once more; any
      other failure, a failed delete or a failed second sync is returned.
      `shared` tells whether the rewrite was given one service as both
      source and destination; then the delete reaches `dst`, and the
      outcome carries that one service as both. */
  function SyncWithRetry(src: FileService, dst: FileService, shared: bool, name: ObjectName): (r: Synced)
    ensures shared ==> r.src == r.dst
  {
    var src := if shared then dst else src;
    var first := Sync(dst, name);
    if first.Ok? then Synced(None, if shared then first.value else src, first.value)
    else if first.fault != FileAlreadyExists then Synced(Some(first.fault), src, dst)
    else
      var deleted := Delete(src, name);
      if deleted.Err? then Synced(Some(deleted.fault), src, dst)
      else
        var dst' := if shared then deleted.value else dst;
        var src' := if shared then dst' else deleted.value;
        var second := Sync(dst', name);
        if second.Err? then Synced(Some(second.fault), src', dst')
        else Synced(None, if shared then second.value else src', second.value)
  }

  /** When the sync succeeds: at once, or, one service serving as both
      source and destination, after the clash, the delete and the second
      sync succeed. With two distinct services a clash is never recovered:
      the second sync meets the same object again. On success the
      destination holds the object. */
  lemma SyncWithRetryOk(src: FileService, dst: FileService, shared: bool, name: ObjectName)
    ensures SyncWithRetry(src, dst, shared, name).fault.None? <==>
              Sync(dst, name).Ok?
              || (shared && !FailsOn(dst, name, SyncObject) && name in dst.files
                  && !FailsOn(dst, name, DeleteObject))
    ensures SyncWithRetry(src, dst, shared, name).fault.None? ==>
              SyncWithRetry(src, dst, shared, name).dst == dst.(files := dst.files + {name})
  {
    var first := Sync(dst, name);
    if first.Err? && first.fault == FileAlreadyExists {
      if shared && !FailsOn(dst, name, DeleteObject) {
        var d := Delete(dst, name).value;
        assert d.files + {name} == dst.files + {name};
      }
    }
  }

  /** With two distinct services, a clash costs the SOURCE its object and
      still fails: the delete removes `name` from the source and the
      second sync reports the clash again, the destination unchanged. */
  lemma ClashAcrossServicesDeletesSource(src: FileService, dst: FileService, name: ObjectName)
    requires !FailsOn(dst, name, SyncObject) && name in dst.files
    requires !FailsOn(src, name, DeleteObject)
    ensures SyncWithRetry(src, dst, false, name).fault == Some(FileAlreadyExists)
    ensures SyncWithRetry(src, dst, false, name).src == src.(files := src.files - {name})
    ensures SyncWithRetry(src, dst, false, name).dst == dst
  {
  }

  /** The retry as evidently intended: the clashing object is deleted
      through the destination service, the one the second sync writes to.
      The source service is left alone unless it is that same service. */
  function SyncWithRetryToDst(src: FileService, dst: FileService, shared: bool, name: ObjectName): (r: Synced)
    ensures shared ==> r.src == r.dst
    ensures !shared ==> r.src == src
  {
    var first := Sync(dst, name);
    if first.Ok? then Synced(None, if shared then first.value else src, first.value)
    else if first.fault != FileAlreadyExists then Synced(Some(first.fault), if shared then dst else src, dst)
    else
      var deleted := Delete(dst, name);
      if deleted.Err? then Synced(Some(deleted.fault), if shared then dst else src, dst)
      else
        var second := Sync(deleted.value, name);
        if second.Err? then Synced(Some(second.fault), if shared then deleted.value else src, deleted.value)
        else Synced(None, if shared then second.value else src, second.value)
  }

  /** The intended retry recovers from a clash whether or not the two
      services are one: the sync succeeds exactly when the first sync does,
      or when it meets the clash and the delete goes through; on success
      the destination holds the object. */
  lemma SyncWithRetryToDstOk(src: FileService, dst: FileService, shared: bool, name: ObjectName)
    ensures SyncWithRetryToDst(src, dst, shared, name).fault.None? <==>
              Sync(dst, name).Ok?
              || (!FailsOn(dst, name, SyncObject) && name in dst.files && !FailsOn(dst, name, DeleteObject))
    ensures SyncWithRetryToDst(src, dst, shared, name).fault.None? ==>
              SyncWithRetryToDst(src, dst, shared, name).dst == dst.(files := dst.files + {name})
  {
    var first := Sync(dst, name);
    if first.Err? && first.fault == FileAlreadyExists && !FailsOn(dst, name, DeleteObject) {
      var d := Delete(dst, name).value;
      assert d.files + {name} == dst.files + {name};
    }
  }

  /** With one service as both, the intended retry is the retry as written:
      the correction changes only the case of two distinct services. */
  lemma SyncWithRetryToDstShared(src: FileService, dst: FileService, name: ObjectName)
    ensures SyncWithRetryToDst(src, dst, true, name) == SyncWithRetry(src, dst, true, name)
  {
  }
}
