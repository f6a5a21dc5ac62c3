/** The container operations the core relies on: selecting rows of a batch by
    index (`Shrink`), keeping a prefix (`windowCNBatch`), dropping rows
    (`AntiShrink`), and the metadata tables with their pending-delete marks
    (`containers.Batch` with `Delete` and `Compact`). */
module Containers {
  import opened BackupTypes

  /** The rows of `s` at the positions listed in `idx`, in that order. */
  function Select<T>(s: seq<T>, idx: seq<nat>): (r: seq<T>)
    requires forall k | 0 <= k < |idx| :: idx[k] < |s|
    ensures |r| == |idx|
    ensures forall k | 0 <= k < |idx| :: r[k] == s[idx[k]]
  {
    seq(|idx|, k requires 0 <= k < |idx| => s[idx[k]])
  }

  predicate StrictlyIncreasing(idx: seq<nat>) {
    forall j, k | 0 <= j < k < |idx| :: idx[j] < idx[k]
  }

  /** The positions below `n` that are not in `d`, ascending. */
  function Survivors(n: nat, d: set<nat>): seq<nat>
  {
    if n == 0 then []
    else Survivors(n - 1, d) + (if n - 1 in d then [] else [n - 1])
  }

  /** The number of positions below `n` that are in `d`. */
  function DeletedBelow(n: nat, d: set<nat>): nat
  {
    if n == 0 then 0 else DeletedBelow(n - 1, d) + (if n - 1 in d then 1 else 0)
  }

  /** `Survivors` lists exactly the positions below `n` outside `d`, in
      ascending order, and there are `n - DeletedBelow(n, d)` of them. */
  lemma {:induction false} SurvivorsSpec(n: nat, d: set<nat>)
    ensures forall i: nat :: i in Survivors(n, d) <==> i < n && i !in d
    ensures StrictlyIncreasing(Survivors(n, d))
    ensures |Survivors(n, d)| == n - DeletedBelow(n, d)
  {
    if n > 0 {
      SurvivorsSpec(n - 1, d);
      var prev := Survivors(n - 1, d);
      var tail: seq<nat> := if n - 1 in d then [] else [n - 1];
      assert Survivors(n, d) == prev + tail;
      forall i: nat ensures i in prev + tail <==> i < n && i !in d {
        assert i in prev + tail <==> i in prev || i in tail;
        assert i in prev <==> i < n - 1 && i !in d;
      }
      forall j, k | 0 <= j < k < |prev + tail| ensures (prev + tail)[j] < (prev + tail)[k] {
        if k >= |prev| {
          assert (prev + tail)[j] == prev[j] && prev[j] in prev;
        }
      }
    }
  }

  /** `s` with the positions in `d` removed, survivors in their order. */
  function Without<T>(s: seq<T>, d: set<nat>): (r: seq<T>)
    ensures |r| == |s| - DeletedBelow(|s|, d)
    ensures forall x | x in r :: x in s
  {
    SurvivorsSpec(|s|, d);
    var idx := Survivors(|s|, d);
    assert forall k | 0 <= k < |idx| :: idx[k] in idx;
    var r := Select(s, idx);
    assert forall x | x in r :: exists k :: 0 <= k < |idx| && x == s[idx[k]];
    r
  }

  /** `Without(s, d)` is `s` at the positions outside `d`, every such
      position once and in ascending order. */
  lemma WithoutSurvivors<T>(s: seq<T>, d: set<nat>)
    ensures var sel := Survivors(|s|, d);
            && |sel| == |Without(s, d)| && StrictlyIncreasing(sel)
            && (forall k | 0 <= k < |sel| :: sel[k] < |s| && sel[k] !in d && Without(s, d)[k] == s[sel[k]])
            && (forall i: nat | i < |s| && i !in d :: i in sel)
  {
    SurvivorsSpec(|s|, d);
    var sel := Survivors(|s|, d);
    assert forall k | 0 <= k < |sel| :: sel[k] in sel;
  }

  /** A metadata table (`containers.Batch`): its rows and the positions
      marked by `Delete` that the next `Compact` removes. */
  datatype Table<T> = Table(rows: seq<T>, deletes: set<nat>)
  {
    function Length(): nat { |rows| }

    function Delete(i: nat): (t: Table<T>)
      ensures t.rows == rows && t.deletes == deletes + {i}
    {
      Table(rows, deletes + {i})
    }

    /** Removes every marked row; the others keep their order. */
    function Compact(): (t: Table<T>)
      ensures t.deletes == {} && t.rows == Without(rows, deletes)
      ensures |t.rows| == |rows| - DeletedBelow(|rows|, deletes)
    {
      Table(Without(rows, deletes), {})
    }
  }

  /** `bat.Shrink(sels)`: keeps the rows listed in `sels`. */
  function Shrink(b: Batch, sels: seq<nat>): (r: Batch)
    requires forall k | 0 <= k < |sels| :: sels[k] < |b.rows|
    ensures r.width == b.width && r.rows == Select(b.rows, sels)
  {
    var rows := Select(b.rows, sels);
    assert forall r | r in rows :: r in b.rows;
    BatchData(b.width, rows)
  }

  /** `windowCNBatch(bat, 0, n)`: keeps the first `n` rows. */
  function Window(b: Batch, n: nat): (r: Batch)
    requires n <= |b.rows|
    ensures r.width == b.width && r.rows == b.rows[..n]
  {
    assert forall r | r in b.rows[..n] :: r in b.rows;
    BatchData(b.width, b.rows[..n])
  }

  /** `bat.AntiShrink(sels)`: removes the rows listed in `sels`. */
  function AntiShrink(b: Batch, sels: seq<nat>): (r: Batch)
    ensures r.width == b.width
    ensures r.rows == Without(b.rows, set k | 0 <= k < |sels| :: sels[k])
  {
    var rows := Without(b.rows, set k | 0 <= k < |sels| :: sels[k]);
    assert forall r | r in rows :: r in b.rows;
    BatchData(b.width, rows)
  }

  /** `appendValToBatch(src, dst, row)`: copies row `row` of `src`, every
      column of it, to the end of `dst`. */
  function AppendValToBatch<T>(src: seq<T>, dst: seq<T>, row: nat): (r: seq<T>)
    requires row < |src|
    ensures |r| == |dst| + 1 && r[..|dst|] == dst && r[|dst|] == src[row]
  {
    dst + [src[row]]
  }
}
