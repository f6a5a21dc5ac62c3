/** The per-table row ranges of a metadata table (`tableOffset`): for
    every table id, the row where its rows start and the row after the
    last, computed in one pass over the id column. */
module Offsets {
  import opened BackupTypes
  import opened Checkpoint

  /** The ranges the pass computes over the ids `tids`: an id met for the
      first time at row `i` starts `TableRange(i, i)`, and every row of it
      moves its end by one. */
  function Ranges(tids: seq<Tid>): (r: map<Tid, TableRange>)
    ensures r.Keys == set t | t in tids
  {
    if tids == [] then map[]
    else
      var prev := Ranges(tids[..|tids| - 1]);
      var t := tids[|tids| - 1];
      var start := if t in prev then prev[t] else TableRange(|tids| - 1, |tids| - 1);
      assert forall u | u in tids[..|tids| - 1] :: u in tids;
      prev[t := start.(end := start.end + 1)]
  }

  /** The pass as the source writes it. */
  method TableOffsets(tids: seq<Tid>) returns (r: map<Tid, TableRange>)
    ensures r == Ranges(tids)
  {
    r := map[];
    var i := 0;
    while i < |tids|
      invariant 0 <= i <= |tids|
      invariant r == Ranges(tids[..i])
    {
      var t := tids[i];
      ghost var next := tids[..i + 1];
      assert next[..|next| - 1] == tids[..i] && next[|next| - 1] == t;
      if t !in r {
        r := r[t := TableRange(i, i)];
      }
      r := r[t := r[t].(end := r[t].end + 1)];
      i := i + 1;
    }
    assert tids[..i] == tids;
  }

  /** The range of `t` starts at its first row and is as long as `t` has
      rows: `end` is `offset` plus the number of rows of `t`, wherever
      they are. */
  lemma {:induction false} RangesSpec(tids: seq<Tid>, t: Tid)
    requires t in tids
    ensures var g := Ranges(tids)[t];
            && 0 <= g.offset < |tids| && tids[g.offset] == t
            && (forall j | 0 <= j < g.offset :: tids[j] != t)
            && g.end == g.offset + multiset(tids)[t]
  {
    var prev := tids[..|tids| - 1];
    var last := tids[|tids| - 1];
    assert tids == prev + [last];
    if t in prev {
      RangesSpec(prev, t);
    } else {
      assert multiset(prev)[t] == 0;
      forall j | 0 <= j < |tids| - 1 ensures tids[j] != t {
        assert tids[j] == prev[j];
      }
    }
  }

  /** The rows of every id form one block: a row whose id occurred
      before continues the block of the row above it. */
  predicate Contiguous(tids: seq<Tid>) {
    forall j | 0 < j < |tids| :: tids[j] in tids[..j] ==> tids[j] == tids[j - 1]
  }

  lemma ContiguousPrefix(tids: seq<Tid>)
    requires Contiguous(tids) && tids != []
    ensures Contiguous(tids[..|tids| - 1])
  {
    var prev := tids[..|tids| - 1];
    forall j | 0 < j < |prev| ensures prev[j] in prev[..j] ==> prev[j] == prev[j - 1] {
      assert prev[..j] == tids[..j];
    }
  }

  /** When the rows of every id form one block, as the rebuilt tables
      have them, each range covers exactly the rows of its id. */
  lemma {:induction false} RangesCover(tids: seq<Tid>, t: Tid)
    requires Contiguous(tids) && t in tids
    ensures Ranges(tids)[t].end <= |tids|
    ensures forall i | 0 <= i < |tids| :: Ranges(tids)[t].offset <= i < Ranges(tids)[t].end <==> tids[i] == t
  {
    var prev := tids[..|tids| - 1];
    var last := tids[|tids| - 1];
    assert tids == prev + [last];
    var g := Ranges(tids)[t];
    if t in prev {
      ContiguousPrefix(tids);
      RangesCover(prev, t);
      var h := Ranges(prev)[t];
      if last == t {
        assert prev[|prev| - 1] == t;
        assert h.end == |prev|;
        assert g == h.(end := h.end + 1);
      } else {
        assert g == h;
      }
      forall i | 0 <= i < |tids| ensures g.offset <= i < g.end <==> tids[i] == t {
        if i < |prev| {
          assert tids[i] == prev[i];
        }
      }
    } else {
      assert forall j | 0 <= j < |prev| :: prev[j] != t;
      assert g == TableRange(|tids| - 1, |tids|);
      forall i | 0 <= i < |tids| ensures g.offset <= i < g.end <==> tids[i] == t {
        if i < |prev| {
          assert tids[i] == prev[i];
        }
      }
    }
  }

  /** `int32(x)` on a Go `int`: wraps to the 32-bit two's complement
      range. */
  function Int32(x: int): (r: int)
    ensures -0x8000_0000 <= r < 0x8000_0000
    ensures (x - r) % 0x1_0000_0000 == 0
    ensures -0x8000_0000 <= x < 0x8000_0000 ==> r == x
  {
    (x + 0x8000_0000) % 0x1_0000_0000 - 0x8000_0000
  }

  /** The ranges as `UpdateBlockInsertBlkMeta` and
      `UpdateBlockDeleteBlkMeta` receive them. */
  function Stored(ranges: map<Tid, TableRange>): (r: map<Tid, TableRange>)
    ensures r.Keys == ranges.Keys
    ensures forall t | t in r :: r[t] == TableRange(Int32(ranges[t].offset), Int32(ranges[t].end))
  {
    map t | t in ranges :: TableRange(Int32(ranges[t].offset), Int32(ranges[t].end))
  }

  /** Below 2^31 rows the cast changes nothing. */
  lemma StoredExact(tids: seq<Tid>)
    requires |tids| < 0x8000_0000
    ensures Stored(Ranges(tids)) == Ranges(tids)
  {
    forall t | t in tids
      ensures Ranges(tids)[t].end <= |tids|
    {
      RangesSpec(tids, t);
      RangesEnd(tids, t);
    }
  }

  /** No range runs past the table. */
  lemma {:induction false} RangesEnd(tids: seq<Tid>, t: Tid)
    requires t in tids
    ensures Ranges(tids)[t].end <= |tids|
  {
    var prev := tids[..|tids| - 1];
    if t in prev {
      RangesEnd(prev, t);
    }
  }

  /** The id column of an attribution table. */
  function TidsOf(rows: seq<TxnRow>): (r: seq<Tid>)
    ensures |r| == |rows| && forall i | 0 <= i < |rows| :: r[i] == rows[i].tid
  {
    seq(|rows|, i requires 0 <= i < |rows| => rows[i].tid)
  }
}
