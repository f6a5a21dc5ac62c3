/** Reconciliation (phase 5 of `ReWriteCheckpointAndBlockFromKey`): the
    entries queued by the object loop move from the delete side to a new
    live-insert table. The table is rebuilt row by row; after the first
    live row of a table id come all of that id's entries not yet applied,
    and the entries of ids without a live row follow at the end. */
module Reconcile {
  import opened BackupTypes
  import opened Containers
  import opened Checkpoint
  import opened Rewrite

  // --------------------------------------------------------- rows of entries

  /** `updateBlockMeta`: the copied row now describes a non-appendable
      block at `loc`, named by `id`, without a delta location. */
  function UpdatedBlkMeta(row: BlkMetaRow, id: Blockid, loc: Location, sorted: bool): BlkMetaRow {
    row.(rowId := id, blockId := id, entryState := false, sorted := sorted,
         segmentId := id.Segment(), metaLoc := loc, deltaLoc := EmptyLocation)
  }

  function UpdatedTxn(row: TxnRow, loc: Location): TxnRow {
    row.(metaLoc := loc, deltaLoc := EmptyLocation)
  }

  /** The `sort` flag handed to `updateBlockMeta`: false only for an entry
      carrying an appendable block without a sort key. */
  function SortFlag(e: InsertBlock): bool {
    !(e.data.Some? && e.data.value.isABlock && e.data.value.sortKey == MaxUint16)
  }

  /** The row an entry contributes: its CN row, rewritten by
      `updateBlockMeta` when the entry has a new location. */
  function EntryBlk(e: InsertBlock, cn: seq<BlkMetaRow>): BlkMetaRow
    requires e.deleteRow < |cn|
  {
    if e.location.IsEmpty() then cn[e.deleteRow]
    else UpdatedBlkMeta(cn[e.deleteRow], e.blockId, e.location, SortFlag(e))
  }

  function EntryTxn(e: InsertBlock, delTxn: seq<TxnRow>): TxnRow
    requires e.deleteRow < |delTxn|
  {
    if e.location.IsEmpty() then delTxn[e.deleteRow] else UpdatedTxn(delTxn[e.deleteRow], e.location)
  }

  // ------------------------------------------------------------------- plan

  /** What reconciliation reads: the live-insert table and its attribution
      table, the CN table and its attribution table, and the queue. */
  datatype Source = Source(ins: seq<BlkMetaRow>, insTxn: seq<TxnRow>,
                           cn: seq<BlkMetaRow>, delTxn: seq<TxnRow>, p: Pending)

  predicate WellFormed(s: Source) {
    && |s.ins| == |s.insTxn| && |s.cn| == |s.delTxn|
    && forall t, b | t in s.p && 0 <= b < |s.p[t]| :: s.p[t][b].deleteRow < |s.cn|
  }

  /** A row of the new live-insert table: live row `i`, or entry `b` of the
      queue of table id `tid`. */
  datatype Slot = Orig(i: nat) | Queued(tid: Tid, b: nat)

  predicate ValidSlot(s: Source, x: Slot) {
    match x
    case Orig(i) => i < |s.ins|
    case Queued(t, b) => t in s.p && b < |s.p[t]|
  }

  predicate ValidPlan(s: Source, plan: seq<Slot>) {
    forall x | x in plan :: ValidSlot(s, x)
  }

  function SlotBlk(s: Source, x: Slot): BlkMetaRow
    requires WellFormed(s) && ValidSlot(s, x)
  {
    match x
    case Orig(i) => s.ins[i]
    case Queued(t, b) => EntryBlk(s.p[t][b], s.cn)
  }

  function SlotTxn(s: Source, x: Slot): TxnRow
    requires WellFormed(s) && ValidSlot(s, x)
  {
    match x
    case Orig(i) => s.insTxn[i]
    case Queued(t, b) => EntryTxn(s.p[t][b], s.delTxn)
  }

  /** The rows of a plan. */
  function PlanBlk(s: Source, plan: seq<Slot>): (r: seq<BlkMetaRow>)
    requires WellFormed(s) && ValidPlan(s, plan)
    ensures |r| == |plan|
  {
    seq(|plan|, k requires 0 <= k < |plan| => SlotBlk(s, plan[k]))
  }

  function PlanTxn(s: Source, plan: seq<Slot>): (r: seq<TxnRow>)
    requires WellFormed(s) && ValidPlan(s, plan)
    ensures |r| == |plan|
  {
    seq(|plan|, k requires 0 <= k < |plan| => SlotTxn(s, plan[k]))
  }

  /** The table ids of the live rows below `m`. */
  function TidsBelow(insTxn: seq<TxnRow>, m: nat): set<Tid>
    requires m <= |insTxn|
  {
    if m == 0 then {} else TidsBelow(insTxn, m - 1) + {insTxn[m - 1].tid}
  }

  /** The entries below `m` of queue `q` of `tid` not applied yet, in order. */
  function Unapplied(q: seq<InsertBlock>, tid: Tid, m: nat): (r: seq<Slot>)
    requires m <= |q|
    ensures forall x | x in r :: x.Queued? && x.tid == tid && x.b < m
  {
    if m == 0 then [] else Unapplied(q, tid, m - 1) + (if q[m - 1].apply then [] else [Queued(tid, m - 1)])
  }

  function Fresh(p: Pending, tid: Tid): (r: seq<Slot>)
    ensures forall x | x in r :: x.Queued? && x.tid == tid && tid in p && x.b < |p[tid]|
  {
    if tid in p then Unapplied(p[tid], tid, |p[tid]|) else []
  }

  /** Reference definition of the first pass over the live rows below `m`:
      each row, then, at the first row of its table id, that id's entries
      not applied yet. */
  function FirstPass(s: Source, m: nat): (r: seq<Slot>)
    requires m <= |s.insTxn| == |s.ins|
    ensures ValidPlan(s, r)
  {
    if m == 0 then []
    else
      FirstPass(s, m - 1) + [Orig(m - 1)] + Opened(s, m - 1)
  }

  /** What the first pass adds after live row `i`: the entries of its
      table id not applied yet, when `i` is the first row of that id. */
  function Opened(s: Source, i: nat): seq<Slot>
    requires i < |s.insTxn|
  {
    var t := s.insTxn[i].tid;
    if t in TidsBelow(s.insTxn, i) then [] else Fresh(s.p, t)
  }

  /** Reference definition of the second pass over the table ids
      `order[..m]`: the entries of every id without a live row. */
  function SecondPass(s: Source, order: seq<Tid>, m: nat): (r: seq<Slot>)
    requires m <= |order| && |s.insTxn| == |s.ins|
    ensures ValidPlan(s, r)
    ensures forall x | x in r :: x.Queued?
  {
    if m == 0 then []
    else SecondPass(s, order, m - 1) + Leftover(s, order[m - 1])
  }

  /** What the second pass adds for `tid`: its entries not applied yet,
      when no live row carries it. */
  function Leftover(s: Source, tid: Tid): seq<Slot> {
    if tid in TidsBelow(s.insTxn, |s.insTxn|) then [] else Fresh(s.p, tid)
  }

  /** The new live-insert table, slot by slot. */
  function Plan(s: Source, order: seq<Tid>): (r: seq<Slot>)
    requires |s.insTxn| == |s.ins|
    ensures ValidPlan(s, r)
  {
    FirstPass(s, |s.ins|) + SecondPass(s, order, |order|)
  }

  /** Every entry of a queue marked applied. */
  function Applied(q: seq<InsertBlock>): (r: seq<InsertBlock>)
    ensures |r| == |q|
  {
    seq(|q|, b requires 0 <= b < |q| => q[b].(apply := true))
  }

  /** `q` is `Q` up to the `apply` flags. */
  predicate SameEntries(q: seq<InsertBlock>, Q: seq<InsertBlock>) {
    |q| == |Q| && forall b | 0 <= b < |q| :: q[b] == Q[b].(apply := q[b].apply)
  }

  predicate Distinct<T(==)>(s: seq<T>) {
    forall j, k | 0 <= j < k < |s| :: s[j] != s[k]
  }

  // ----------------------------------------------------------------- passes

  lemma PlanBlkAppend(s: Source, a: seq<Slot>, c: seq<Slot>)
    requires WellFormed(s) && ValidPlan(s, a) && ValidPlan(s, c)
    ensures ValidPlan(s, a + c)
    ensures PlanBlk(s, a + c) == PlanBlk(s, a) + PlanBlk(s, c)
    ensures PlanTxn(s, a + c) == PlanTxn(s, a) + PlanTxn(s, c)
  {
  }

  lemma UnappliedApplied(q: seq<InsertBlock>, tid: Tid, m: nat)
    requires m <= |q|
    ensures Unapplied(Applied(q), tid, m) == []
  {
    if m > 0 {
      UnappliedApplied(q, tid, m - 1);
    }
  }

  /** One more entry of a queue: copied when it is not applied yet. */
  lemma UnappliedStep(s: Source, tid: Tid, q: seq<InsertBlock>, b: nat)
    requires WellFormed(s) && tid in s.p && SameEntries(q, s.p[tid]) && b < |q|
    requires ValidPlan(s, Unapplied(q, tid, b))
    ensures ValidPlan(s, Unapplied(q, tid, b + 1))
    ensures PlanBlk(s, Unapplied(q, tid, b + 1))
            == PlanBlk(s, Unapplied(q, tid, b)) + (if q[b].apply then [] else [EntryBlk(q[b], s.cn)])
    ensures PlanTxn(s, Unapplied(q, tid, b + 1))
            == PlanTxn(s, Unapplied(q, tid, b)) + (if q[b].apply then [] else [EntryTxn(q[b], s.delTxn)])
  {
    var tail := if q[b].apply then [] else [Queued(tid, b)];
    assert Unapplied(q, tid, b + 1) == Unapplied(q, tid, b) + tail;
    PlanBlkAppend(s, Unapplied(q, tid, b), tail);
  }

  /** The inner loop over one queue: every entry not applied yet is copied,
      in order, and marked applied. */
  method EmitQueue(s: Source, tid: Tid, q: seq<InsertBlock>, blk: seq<BlkMetaRow>, txn: seq<TxnRow>)
    returns (blk': seq<BlkMetaRow>, txn': seq<TxnRow>, q': seq<InsertBlock>)
    requires WellFormed(s) && tid in s.p && SameEntries(q, s.p[tid])
    ensures ValidPlan(s, Unapplied(q, tid, |q|))
    ensures blk' == blk + PlanBlk(s, Unapplied(q, tid, |q|))
    ensures txn' == txn + PlanTxn(s, Unapplied(q, tid, |q|))
    ensures q' == Applied(q)
  {
    blk', txn', q' := blk, txn, q;
    var b := 0;
    while b < |q|
      invariant 0 <= b <= |q|
      invariant EmitProgress(s, tid, q, blk, txn, blk', txn', q', b)
    {
      blk', txn', q' := EmitEntry(s, tid, q, blk, txn, blk', txn', q', b);
      b := b + 1;
    }
  }

  /** The inner loop after the entries of `q` below `b`. */
  ghost predicate EmitProgress(s: Source, tid: Tid, q: seq<InsertBlock>, blk: seq<BlkMetaRow>, txn: seq<TxnRow>,
                               blk': seq<BlkMetaRow>, txn': seq<TxnRow>, q': seq<InsertBlock>, b: nat)
    requires WellFormed(s) && b <= |q|
  {
    && |q'| == |q|
    && ValidPlan(s, Unapplied(q, tid, b))
    && blk' == blk + PlanBlk(s, Unapplied(q, tid, b))
    && txn' == txn + PlanTxn(s, Unapplied(q, tid, b))
    && forall k | 0 <= k < |q| :: q'[k] == if k < b then q[k].(apply := true) else q[k]
  }

  /** One turn of the inner loop: entry `b` is copied unless applied, and
      marked applied. */
  method EmitEntry(s: Source, tid: Tid, q: seq<InsertBlock>, blk: seq<BlkMetaRow>, txn: seq<TxnRow>,
                   blk0: seq<BlkMetaRow>, txn0: seq<TxnRow>, q0: seq<InsertBlock>, b: nat)
    returns (blk': seq<BlkMetaRow>, txn': seq<TxnRow>, q': seq<InsertBlock>)
    requires WellFormed(s) && tid in s.p && SameEntries(q, s.p[tid]) && b < |q|
    requires EmitProgress(s, tid, q, blk, txn, blk0, txn0, q0, b)
    ensures EmitProgress(s, tid, q, blk, txn, blk', txn', q', b + 1)
  {
    var e := q0[b];
    UnappliedStep(s, tid, q, b);
    blk', txn' := blk0, txn0;
    if !e.apply {
      blk' := blk' + [EntryBlk(e, s.cn)];
      txn' := txn' + [EntryTxn(e, s.delTxn)];
    }
    q' := q0[b := e.(apply := true)];
  }

  /** The queue during the first pass: the queues of the table ids seen so
      far are applied, the others untouched. */
  ghost predicate QueueProgress(s: Source, cur: Pending, seen: set<Tid>) {
    && cur.Keys == s.p.Keys
    && forall t | t in s.p :: cur[t] == (if t in seen then Applied(s.p[t]) else s.p[t])
  }

  lemma EmitStepSeen(s: Source, cur: Pending, seen: set<Tid>, tid: Tid)
    requires QueueProgress(s, cur, seen) && tid in seen && tid in cur
    ensures SameEntries(cur[tid], s.p[tid]) && Unapplied(cur[tid], tid, |cur[tid]|) == []
    ensures QueueProgress(s, cur[tid := Applied(cur[tid])], seen)
  {
    UnappliedApplied(s.p[tid], tid, |s.p[tid]|);
    assert Applied(Applied(s.p[tid])) == Applied(s.p[tid]);
  }

  lemma EmitStepFresh(s: Source, cur: Pending, seen: set<Tid>, tid: Tid)
    requires QueueProgress(s, cur, seen) && tid !in seen && tid in cur
    ensures SameEntries(cur[tid], s.p[tid]) && Unapplied(cur[tid], tid, |cur[tid]|) == Fresh(s.p, tid)
    ensures QueueProgress(s, cur[tid := Applied(cur[tid])], seen + {tid})
  {
  }

  /** The first pass gains a live row and, at the first row of its table
      id, that id's entries. */
  lemma FirstPassStep(s: Source, i: nat)
    requires WellFormed(s) && i < |s.ins|
    ensures var t := s.insTxn[i].tid;
            var emitted := if t in TidsBelow(s.insTxn, i) then [] else Fresh(s.p, t);
            PlanBlk(s, FirstPass(s, i + 1)) == PlanBlk(s, FirstPass(s, i)) + [s.ins[i]] + PlanBlk(s, emitted)
            && PlanTxn(s, FirstPass(s, i + 1)) == PlanTxn(s, FirstPass(s, i)) + [s.insTxn[i]] + PlanTxn(s, emitted)
  {
    var t := s.insTxn[i].tid;
    var emitted := if t in TidsBelow(s.insTxn, i) then [] else Fresh(s.p, t);
    assert FirstPass(s, i + 1) == FirstPass(s, i) + [Orig(i)] + emitted;
    assert PlanBlk(s, [Orig(i)]) == [s.ins[i]] && PlanTxn(s, [Orig(i)]) == [s.insTxn[i]];
    PlanBlkAppend(s, FirstPass(s, i), [Orig(i)]);
    PlanBlkAppend(s, FirstPass(s, i) + [Orig(i)], emitted);
  }

  /** A visit to the queue of `tid` (the `if insertBatch[tid] != nil`
      blocks of both passes): the entries of an id not seen yet are
      copied and marked applied; an id seen before has none left. */
  method VisitQueue(s: Source, tid: Tid, ghost seen: set<Tid>, cur: Pending,
                    blk: seq<BlkMetaRow>, txn: seq<TxnRow>)
    returns (blk': seq<BlkMetaRow>, txn': seq<TxnRow>, cur': Pending)
    requires WellFormed(s) && QueueProgress(s, cur, seen)
    ensures var emitted := if tid in seen then [] else Fresh(s.p, tid);
            && ValidPlan(s, emitted)
            && blk' == blk + PlanBlk(s, emitted) && txn' == txn + PlanTxn(s, emitted)
    ensures QueueProgress(s, cur', seen + {tid})
  {
    blk', txn', cur' := blk, txn, cur;
    if tid in cur {
      if tid in seen {
        EmitStepSeen(s, cur, seen, tid);
      } else {
        EmitStepFresh(s, cur, seen, tid);
      }
      var q: seq<InsertBlock>;
      blk', txn', q := EmitQueue(s, tid, cur[tid], blk, txn);
      cur' := cur[tid := q];
    } else {
      assert QueueProgress(s, cur, seen + {tid});
    }
  }

  /** The first pass over the live rows. */
  method FirstPassLoop(s: Source) returns (blkMeta: seq<BlkMetaRow>, blkMetaTxn: seq<TxnRow>, cur: Pending)
    requires WellFormed(s)
    ensures blkMeta == PlanBlk(s, FirstPass(s, |s.ins|)) && blkMetaTxn == PlanTxn(s, FirstPass(s, |s.ins|))
    ensures QueueProgress(s, cur, TidsBelow(s.insTxn, |s.ins|))
  {
    blkMeta, blkMetaTxn := [], [];
    cur := s.p;
    var i := 0;
    while i < |s.ins|
      invariant 0 <= i <= |s.ins|
      invariant blkMeta == PlanBlk(s, FirstPass(s, i)) && blkMetaTxn == PlanTxn(s, FirstPass(s, i))
      invariant QueueProgress(s, cur, TidsBelow(s.insTxn, i))
    {
      var tid := s.insTxn[i].tid;
      FirstPassStep(s, i);
      blkMeta := AppendValToBatch(s.ins, blkMeta, i);
      blkMetaTxn := AppendValToBatch(s.insTxn, blkMetaTxn, i);
      blkMeta, blkMetaTxn, cur := VisitQueue(s, tid, TidsBelow(s.insTxn, i), cur, blkMeta, blkMetaTxn);
      i := i + 1;
    }
  }

  /** The second pass gains the entries of one table id without a live
      row. */
  lemma SecondPassStep(s: Source, order: seq<Tid>, j: nat)
    requires WellFormed(s) && j < |order|
    ensures var emitted := Leftover(s, order[j]);
            var before := FirstPass(s, |s.ins|) + SecondPass(s, order, j);
            var after := FirstPass(s, |s.ins|) + SecondPass(s, order, j + 1);
            PlanBlk(s, after) == PlanBlk(s, before) + PlanBlk(s, emitted)
            && PlanTxn(s, after) == PlanTxn(s, before) + PlanTxn(s, emitted)
  {
    var emitted := Leftover(s, order[j]);
    var first := FirstPass(s, |s.ins|);
    assert first + SecondPass(s, order, j + 1) == (first + SecondPass(s, order, j)) + emitted;
    PlanBlkAppend(s, first + SecondPass(s, order, j), emitted);
  }

  /** Both passes of the rebuild of the live-insert table: the new table
      and its attribution table are the rows of `Plan`, and every queued
      entry ends applied. */
  method RebuildInsert(s: Source, order: seq<Tid>)
    returns (blkMeta: seq<BlkMetaRow>, blkMetaTxn: seq<TxnRow>, applied: Pending)
    requires WellFormed(s) && Distinct(order)
    requires forall t | t in s.p :: t in order
    ensures blkMeta == PlanBlk(s, Plan(s, order)) && blkMetaTxn == PlanTxn(s, Plan(s, order))
    ensures applied.Keys == s.p.Keys && forall t | t in s.p :: applied[t] == Applied(s.p[t])
  {
    var cur;
    blkMeta, blkMetaTxn, cur := FirstPassLoop(s);
    ghost var live := TidsBelow(s.insTxn, |s.ins|);
    ghost var seen := live;
    var j := 0;
    while j < |order|
      invariant 0 <= j <= |order|
      invariant blkMeta == PlanBlk(s, FirstPass(s, |s.ins|) + SecondPass(s, order, j))
      invariant blkMetaTxn == PlanTxn(s, FirstPass(s, |s.ins|) + SecondPass(s, order, j))
      invariant QueueProgress(s, cur, seen) && live <= seen
      invariant forall t | t in seen :: t in live || t in order[..j]
      invariant forall k | 0 <= k < j :: order[k] in seen
    {
      var tid := order[j];
      assert tid in seen <==> tid in live;
      SecondPassStep(s, order, j);
      blkMeta, blkMetaTxn, cur := VisitQueue(s, tid, seen, cur, blkMeta, blkMetaTxn);
      seen := seen + {tid};
      assert order[..j + 1] == order[..j] + [tid];
      j := j + 1;
    }
    applied := cur;
  }

  // ------------------------------------------------------- the plan's shape

  /** The row numbers below `m`, ascending. */
  function Below(m: nat): (r: seq<nat>)
    ensures |r| == m && forall i | 0 <= i < m :: r[i] == i
  {
    if m == 0 then [] else Below(m - 1) + [m - 1]
  }

  /** The live rows a plan holds, in order. */
  function Origs(plan: seq<Slot>): seq<nat> {
    if plan == [] then []
    else Origs(plan[..|plan| - 1]) + (if plan[|plan| - 1].Orig? then [plan[|plan| - 1].i] else [])
  }

  lemma {:induction false} OrigsAppend(a: seq<Slot>, c: seq<Slot>)
    ensures Origs(a + c) == Origs(a) + Origs(c)
    decreases |c|
  {
    if c != [] {
      assert (a + c)[..|a + c| - 1] == a + c[..|c| - 1];
      assert (a + c)[|a + c| - 1] == c[|c| - 1];
      OrigsAppend(a, c[..|c| - 1]);
    } else {
      assert a + c == a;
    }
  }

  lemma {:induction false} OrigsOfQueued(a: seq<Slot>)
    requires forall x | x in a :: x.Queued?
    ensures Origs(a) == []
    decreases |a|
  {
    if a != [] {
      assert a[|a| - 1] in a;
      OrigsOfQueued(a[..|a| - 1]);
    }
  }

  lemma OrigsStep(prev: seq<Slot>, i: nat, emitted: seq<Slot>)
    requires forall x | x in emitted :: x.Queued?
    ensures Origs(prev + [Orig(i)] + emitted) == Origs(prev) + [i]
  {
    OrigsAppend(prev, [Orig(i)]);
    OrigsAppend(prev + [Orig(i)], emitted);
    OrigsOfQueued(emitted);
    assert Origs([Orig(i)]) == [i] by {
      assert [Orig(i)][..0] == [];
    }
  }

  lemma {:induction false} FirstPassOrigs(s: Source, m: nat)
    requires m <= |s.insTxn| == |s.ins|
    ensures Origs(FirstPass(s, m)) == Below(m)
  {
    if m > 0 {
      FirstPassOrigs(s, m - 1);
      OrigsStep(FirstPass(s, m - 1), m - 1, Opened(s, m - 1));
    }
  }

  lemma {:induction false} UnappliedMember(q: seq<InsertBlock>, tid: Tid, m: nat, b: nat)
    requires m <= |q|
    ensures Queued(tid, b) in Unapplied(q, tid, m) <==> b < m && !q[b].apply
  {
    if m > 0 {
      UnappliedMember(q, tid, m - 1, b);
    }
  }

  lemma {:induction false} UnappliedDistinct(q: seq<InsertBlock>, tid: Tid, m: nat)
    requires m <= |q|
    ensures Distinct(Unapplied(q, tid, m))
  {
    if m > 0 {
      UnappliedDistinct(q, tid, m - 1);
    }
  }

  /** A live row's entries are first copied at the first live row of
      their table id. */
  lemma {:induction false} FirstPassMember(s: Source, m: nat, t: Tid, b: nat, i: nat)
    requires m <= |s.insTxn| == |s.ins|
    ensures Orig(i) in FirstPass(s, m) <==> i < m
    ensures Queued(t, b) in FirstPass(s, m) <==>
              t in TidsBelow(s.insTxn, m) && t in s.p && b < |s.p[t]| && !s.p[t][b].apply
  {
    FirstPassOrigMember(s, m, i);
    FirstPassQueuedMember(s, m, t, b);
  }

  lemma {:induction false} FirstPassOrigMember(s: Source, m: nat, i: nat)
    requires m <= |s.insTxn| == |s.ins|
    ensures Orig(i) in FirstPass(s, m) <==> i < m
  {
    if m > 0 {
      FirstPassOrigMember(s, m - 1, i);
      OpenedMember(s, m - 1, s.insTxn[m - 1].tid, 0);
      assert Orig(i) !in Opened(s, m - 1);
    }
  }

  lemma {:induction false} FirstPassQueuedMember(s: Source, m: nat, t: Tid, b: nat)
    requires m <= |s.insTxn| == |s.ins|
    ensures Queued(t, b) in FirstPass(s, m) <==>
              t in TidsBelow(s.insTxn, m) && t in s.p && b < |s.p[t]| && !s.p[t][b].apply
  {
    if m > 0 {
      var prev, e := FirstPass(s, m - 1), Opened(s, m - 1);
      assert FirstPass(s, m) == (prev + [Orig(m - 1)]) + e;
      assert Queued(t, b) in FirstPass(s, m) <==> Queued(t, b) in prev || Queued(t, b) in e;
      assert TidsBelow(s.insTxn, m) == TidsBelow(s.insTxn, m - 1) + {s.insTxn[m - 1].tid};
      FirstPassQueuedMember(s, m - 1, t, b);
      OpenedMember(s, m - 1, t, b);
    }
  }

  /** The entries the first pass adds after live row `i`. */
  lemma OpenedMember(s: Source, i: nat, t: Tid, b: nat)
    requires i < |s.insTxn|
    ensures Queued(t, b) in Opened(s, i) <==>
              t == s.insTxn[i].tid && t !in TidsBelow(s.insTxn, i) && t in s.p && b < |s.p[t]| && !s.p[t][b].apply
    ensures Distinct(Opened(s, i))
    ensures forall x | x in Opened(s, i) :: x.Queued?
  {
    if t in s.p {
      UnappliedMember(s.p[t], t, |s.p[t]|, b);
    }
    var u := s.insTxn[i].tid;
    if u in s.p {
      UnappliedDistinct(s.p[u], u, |s.p[u]|);
    }
  }

  /** The entries the second pass adds for `u`. */
  lemma LeftoverMember(s: Source, u: Tid, t: Tid, b: nat)
    ensures Queued(t, b) in Leftover(s, u) <==>
              t == u && t !in TidsBelow(s.insTxn, |s.insTxn|) && t in s.p && b < |s.p[t]| && !s.p[t][b].apply
    ensures Distinct(Leftover(s, u))
    ensures forall x | x in Leftover(s, u) :: x.Queued?
  {
    if t in s.p {
      UnappliedMember(s.p[t], t, |s.p[t]|, b);
    }
    if u in s.p {
      UnappliedDistinct(s.p[u], u, |s.p[u]|);
    }
  }

  lemma DistinctAppend<T>(a: seq<T>, c: seq<T>)
    requires Distinct(a) && Distinct(c) && forall x | x in a :: x !in c
    ensures Distinct(a + c)
  {
    forall j, k | 0 <= j < k < |a + c| ensures (a + c)[j] != (a + c)[k] {
      if j < |a| && k >= |a| {
        assert (a + c)[j] in a && (a + c)[k] in c;
      }
    }
  }

  lemma {:induction false} FirstPassDistinct(s: Source, m: nat)
    requires m <= |s.insTxn| == |s.ins|
    ensures Distinct(FirstPass(s, m))
  {
    if m > 0 {
      var prev, e := FirstPass(s, m - 1), Opened(s, m - 1);
      var head := prev + [Orig(m - 1)];
      assert FirstPass(s, m) == head + e;
      FirstPassDistinct(s, m - 1);
      forall x | x in prev ensures x !in [Orig(m - 1)] {
        FirstPassOrigMember(s, m - 1, m - 1);
      }
      DistinctAppend(prev, [Orig(m - 1)]);
      OpenedMember(s, m - 1, s.insTxn[m - 1].tid, 0);
      forall x | x in head ensures x !in e {
        if x.Queued? {
          assert x in prev;
          FirstPassQueuedMember(s, m - 1, x.tid, x.b);
          OpenedMember(s, m - 1, x.tid, x.b);
        }
      }
      DistinctAppend(head, e);
    }
  }

  /** The second pass copies exactly the entries of the ids in `order[..m]`
      that have no live row. */
  lemma {:induction false} SecondPassMember(s: Source, order: seq<Tid>, m: nat, t: Tid, b: nat)
    requires m <= |order| && |s.insTxn| == |s.ins|
    ensures Queued(t, b) in SecondPass(s, order, m) <==>
              t in order[..m] && t !in TidsBelow(s.insTxn, |s.ins|)
              && t in s.p && b < |s.p[t]| && !s.p[t][b].apply
  {
    if m > 0 {
      var u := order[m - 1];
      SecondPassMember(s, order, m - 1, t, b);
      LeftoverMember(s, u, t, b);
      assert order[..m] == order[..m - 1] + [u];
    }
  }

  lemma {:induction false} SecondPassDistinct(s: Source, order: seq<Tid>, m: nat)
    requires m <= |order| && |s.insTxn| == |s.ins| && Distinct(order)
    ensures Distinct(SecondPass(s, order, m))
  {
    if m > 0 {
      var t := order[m - 1];
      var prev := SecondPass(s, order, m - 1);
      var emitted := Leftover(s, t);
      SecondPassDistinct(s, order, m - 1);
      LeftoverMember(s, t, t, 0);
      forall x | x in prev ensures x !in emitted {
        SecondPassMember(s, order, m - 1, x.tid, x.b);
        LeftoverMember(s, t, x.tid, x.b);
        var j :| 0 <= j < m - 1 && order[j] == x.tid;
        assert order[j] != order[m - 1];
      }
      DistinctAppend(prev, emitted);
    }
  }

  /** The new live-insert table holds every live row once, in the original
      order, and every entry not applied yet exactly once: an entry whose
      table id has a live row in the first pass, any other in the second. */
  lemma PlanSpec(s: Source, order: seq<Tid>)
    requires |s.insTxn| == |s.ins| && Distinct(order)
    requires forall t | t in s.p :: t in order
    ensures Origs(Plan(s, order)) == Below(|s.ins|)
    ensures Distinct(Plan(s, order))
    ensures forall t, b: nat :: Queued(t, b) in Plan(s, order) <==> t in s.p && b < |s.p[t]| && !s.p[t][b].apply
  {
    var first, second := FirstPass(s, |s.ins|), SecondPass(s, order, |order|);
    FirstPassOrigs(s, |s.ins|);
    OrigsAppend(first, second);
    OrigsOfQueued(second);
    FirstPassDistinct(s, |s.ins|);
    SecondPassDistinct(s, order, |order|);
    forall x | x in first ensures x !in second {
      if x.Queued? {
        FirstPassMember(s, |s.ins|, x.tid, x.b, 0);
        SecondPassMember(s, order, |order|, x.tid, x.b);
      }
    }
    DistinctAppend(first, second);
    assert order[..|order|] == order;
    forall t, b: nat ensures Queued(t, b) in Plan(s, order) <==> t in s.p && b < |s.p[t]| && !s.p[t][b].apply {
      FirstPassMember(s, |s.ins|, t, b, 0);
      SecondPassMember(s, order, |order|, t, b);
    }
  }
}
