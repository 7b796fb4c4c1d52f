/** Square grids of integer cells, and the bridge between the numpy-like
    `array2<int>` buffers of the engine and the value-level `Grid` the
    specification functions work on. */
module Grids {

  /** A grid as a value: a sequence of rows. */
  type Grid = seq<seq<int>>

  /** `g` has exactly `m` rows of exactly `m` cells each. */
  predicate IsSquare(g: Grid, m: nat)
  {
    |g| == m && forall i :: 0 <= i < m ==> |g[i]| == m
  }

  /** The only two cell encodings the engine uses: 0 (dead) and 1 (alive). */
  predicate IsCell(v: int)
  {
    v == 0 || v == 1
  }

  /** An `m x m` grid whose every cell is 0 or 1. */
  predicate IsBinary(g: Grid, m: nat)
  {
    IsSquare(g, m) && forall i, j :: 0 <= i < m && 0 <= j < m ==> IsCell(g[i][j])
  }

  /** An `m x m` grid with no live cell. */
  predicate IsEmpty(g: Grid, m: nat)
  {
    IsSquare(g, m) && forall i, j :: 0 <= i < m && 0 <= j < m ==> g[i][j] == 0
  }

  /** The `m x m` grid of zeros, as numpy.zeros(m * m).reshape(m, m) builds it. */
  function Zeros(m: nat): (z: Grid)
    ensures IsBinary(z, m) && IsEmpty(z, m)
  {
    seq(m, _ => seq(m, _ => 0))
  }

  /** The current contents of a two-dimensional buffer, row by row. */
  function Snapshot(a: array2<int>): (s: Grid)
    reads a
    ensures |s| == a.Length0
    ensures forall i :: 0 <= i < a.Length0 ==>
              |s[i]| == a.Length1 && forall j :: 0 <= j < a.Length1 ==> s[i][j] == a[i, j]
  {
    seq(a.Length0, i reads a requires 0 <= i < a.Length0 =>
      seq(a.Length1, j reads a requires 0 <= j < a.Length1 => a[i, j]))
  }

  /** Slice assignment `a[0:m, 0:m] = src` of a whole `m x m` grid. */
  method Fill(a: array2<int>, src: Grid)
    requires a.Length0 == a.Length1 && IsSquare(src, a.Length0)
    modifies a
    ensures Snapshot(a) == src
  {
    var m := a.Length0;
    for i := 0 to m
      invariant forall r, c :: 0 <= r < i && 0 <= c < m ==> a[r, c] == src[r][c]
    {
      for j := 0 to m
        invariant forall r, c :: 0 <= r < i && 0 <= c < m ==> a[r, c] == src[r][c]
        invariant forall c :: 0 <= c < j ==> a[i, c] == src[i][c]
      {
        a[i, j] := src[i][j];
      }
    }
    SnapshotIs(a, src);
  }

  /** The array `ndarray.copy()` returns: a fresh buffer with the same cells. */
  method CopyOf(a: array2<int>) returns (c: array2<int>)
    ensures fresh(c) && c.Length0 == a.Length0 && c.Length1 == a.Length1
    ensures Snapshot(c) == Snapshot(a)
  {
    c := new int[a.Length0, a.Length1]((i, j) reads a
           requires 0 <= i < a.Length0 && 0 <= j < a.Length1 => a[i, j]);
    SnapshotIs(c, Snapshot(a));
  }

  /** A buffer agreeing with a grid cell by cell has that grid as its snapshot. */
  lemma SnapshotIs(a: array2<int>, g: Grid)
    requires |g| == a.Length0
    requires forall i :: 0 <= i < a.Length0 ==> |g[i]| == a.Length1
    requires forall i, j :: 0 <= i < a.Length0 && 0 <= j < a.Length1 ==> a[i, j] == g[i][j]
    ensures Snapshot(a) == g
  {
    var s := Snapshot(a);
    forall i | 0 <= i < a.Length0
      ensures s[i] == g[i]
    {
    }
  }
}
