/** The neighbour count and the B3/S23 rule, as values: what one generation
    of the engine computes from the current grid. */
module Life {
  import opened Grids

  // ---------------------------------------------------------------------
  // Neighbour counting, with the engine's own boundary policy
  // ---------------------------------------------------------------------

  /** numpy indexing for the indices the window produces below `m`:
      index -1 denotes the last row (or column), `m - 1`. */
  function Wrap(x: int, m: nat): (r: int)
    requires 0 < m && -1 <= x < m
    ensures 0 <= r < m
    ensures x == -1 ==> r == m - 1
    ensures 0 <= x ==> r == x
  {
    if x < 0 then x + m else x
  }

  /** What position `(n, k)` of a window adds to the count: the cell there
      when neither index equals `m` (an index of -1 is read wrapped), and
      minus the corner cell `(0, 0)` otherwise. */
  function Contribution(g: Grid, m: nat, n: int, k: int): (v: int)
    requires IsSquare(g, m) && 0 < m
    requires -1 <= n <= m && -1 <= k <= m
  {
    if n != m && k != m then g[Wrap(n, m)][Wrap(k, m)] else -g[0][0]
  }

  /** What window position `(n, k)` adds to the count of `(i, j)`: the
      centre is skipped. */
  function WindowTerm(g: Grid, m: nat, i: int, j: int, n: int, k: int): (v: int)
    requires IsSquare(g, m) && 0 <= i < m && 0 <= j < m
    requires i - 1 <= n <= i + 1 && j - 1 <= k <= j + 1
  {
    if n == i && k == j then 0 else Contribution(g, m, n, k)
  }

  /** The first `c` (0..3) columns of window row `n`, left to right: what
      the inner counting loop has added after `c` steps. */
  function RowPart(g: Grid, m: nat, i: int, j: int, n: int, c: int): (sum: int)
    requires IsSquare(g, m) && 0 <= i < m && 0 <= j < m && i - 1 <= n <= i + 1
    requires 0 <= c <= 3
  {
    if c == 0 then 0 else RowPart(g, m, i, j, n, c - 1) + WindowTerm(g, m, i, j, n, j - 2 + c)
  }

  /** The first `r` (0..3) rows of the window, top to bottom: what the
      outer counting loop has added after `r` steps. */
  function WindowRows(g: Grid, m: nat, i: int, j: int, r: int): (sum: int)
    requires IsSquare(g, m) && 0 <= i < m && 0 <= j < m && 0 <= r <= 3
  {
    if r == 0 then 0 else WindowRows(g, m, i, j, r - 1) + RowPart(g, m, i, j, i - 2 + r, 3)
  }

  /** The live-neighbour count the engine uses for cell `(i, j)`. */
  function LiveCount(g: Grid, m: nat, i: int, j: int): (count: int)
    requires IsSquare(g, m) && 0 <= i < m && 0 <= j < m
  {
    WindowRows(g, m, i, j, 3)
  }

  /** The count as the sum of the eight surrounding positions. */
  lemma LiveCountIsEightTerms(g: Grid, m: nat, i: int, j: int)
    requires IsSquare(g, m) && 0 <= i < m && 0 <= j < m
    ensures LiveCount(g, m, i, j) ==
              Contribution(g, m, i - 1, j - 1) + Contribution(g, m, i - 1, j) + Contribution(g, m, i - 1, j + 1)
            + Contribution(g, m, i, j - 1)                                     + Contribution(g, m, i, j + 1)
            + Contribution(g, m, i + 1, j - 1) + Contribution(g, m, i + 1, j) + Contribution(g, m, i + 1, j + 1)
  {
    forall n | i - 1 <= n <= i + 1
      ensures RowPart(g, m, i, j, n, 3) == WindowTerm(g, m, i, j, n, j - 1) + WindowTerm(g, m, i, j, n, j) + WindowTerm(g, m, i, j, n, j + 1)
    {
      assert RowPart(g, m, i, j, n, 1) == WindowTerm(g, m, i, j, n, j - 1);
      assert RowPart(g, m, i, j, n, 2) == RowPart(g, m, i, j, n, 1) + WindowTerm(g, m, i, j, n, j);
    }
    assert WindowRows(g, m, i, j, 1) == RowPart(g, m, i, j, i - 1, 3);
    assert WindowRows(g, m, i, j, 2) == WindowRows(g, m, i, j, 1) + RowPart(g, m, i, j, i, 3);
  }

  /** The conventional count of a bounded (non-wrapping) grid: positions
      outside `0..m-1` contribute nothing. */
  function Neighbour(g: Grid, m: nat, n: int, k: int): (v: int)
    requires IsSquare(g, m)
  {
    if 0 <= n < m && 0 <= k < m then g[n][k] else 0
  }

  function ClippedCount(g: Grid, m: nat, i: int, j: int): (c: int)
    requires IsBinary(g, m)
    ensures 0 <= c <= 8
  {
      Neighbour(g, m, i - 1, j - 1) + Neighbour(g, m, i - 1, j) + Neighbour(g, m, i - 1, j + 1)
    + Neighbour(g, m, i, j - 1)                                 + Neighbour(g, m, i, j + 1)
    + Neighbour(g, m, i + 1, j - 1) + Neighbour(g, m, i + 1, j) + Neighbour(g, m, i + 1, j + 1)
  }

  /** On a 0/1 grid the count lies between -5 and 8: at most five window
      positions have an index equal to `m`, and each of those subtracts at
      most 1. */
  lemma LiveCountBounds(g: Grid, m: nat, i: int, j: int)
    requires IsBinary(g, m) && 0 <= i < m && 0 <= j < m
    ensures -5 <= LiveCount(g, m, i, j) <= 8
    ensures i < m - 1 && j < m - 1 ==> 0 <= LiveCount(g, m, i, j)
  {
    LiveCountIsEightTerms(g, m, i, j);
  }

  /** Away from the edges the engine's count is the ordinary one. */
  lemma InteriorCount(g: Grid, m: nat, i: int, j: int)
    requires IsBinary(g, m) && 1 <= i <= m - 2 && 1 <= j <= m - 2
    ensures LiveCount(g, m, i, j) == ClippedCount(g, m, i, j)
    ensures LiveCount(g, m, i, j) ==
              g[i - 1][j - 1] + g[i - 1][j] + g[i - 1][j + 1]
            + g[i][j - 1]                   + g[i][j + 1]
            + g[i + 1][j - 1] + g[i + 1][j] + g[i + 1][j + 1]
    ensures 0 <= LiveCount(g, m, i, j) <= 8
  {
    LiveCountIsEightTerms(g, m, i, j);
  }

  /** A grid with no live cell gives every cell a count of 0: the
      subtracted corner cell is itself 0. */
  lemma EmptyGridCount(g: Grid, m: nat, i: int, j: int)
    requires IsEmpty(g, m) && 0 <= i < m && 0 <= j < m
    ensures LiveCount(g, m, i, j) == 0
  {
    LiveCountIsEightTerms(g, m, i, j);
  }

  /** The -5 bound is reached: a lone live corner cell (0, 0) of a 3 x 3
      grid gives the opposite corner a count of -5, where the bounded
      count is 0. */
  lemma CountReachesMinusFive()
    ensures LiveCount([[1, 0, 0], [0, 0, 0], [0, 0, 0]], 3, 2, 2) == -5
    ensures ClippedCount([[1, 0, 0], [0, 0, 0], [0, 0, 0]], 3, 2, 2) == 0
  {
    LiveCountIsEightTerms([[1, 0, 0], [0, 0, 0], [0, 0, 0]], 3, 2, 2);
  }

  /** Index -1 wraps around: a lone live cell in the bottom-right corner is
      a neighbour of the top-left corner. */
  lemma LowEdgeWraps()
    ensures LiveCount([[0, 0, 0], [0, 0, 0], [0, 0, 1]], 3, 0, 0) == 1
    ensures ClippedCount([[0, 0, 0], [0, 0, 0], [0, 0, 1]], 3, 0, 0) == 0
  {
    LiveCountIsEightTerms([[0, 0, 0], [0, 0, 0], [0, 0, 1]], 3, 0, 0);
  }

  // ---------------------------------------------------------------------
  // The rule and one generation
  // ---------------------------------------------------------------------

  /** B3/S23: a live cell survives with 2 or 3 neighbours, a dead one is
      born with exactly 3; every other cell is dead next. */
  function Rule(alive: bool, count: int): (r: int)
    ensures IsCell(r)
  {
    if alive then (if count == 2 || count == 3 then 1 else 0)
    else (if count == 3 then 1 else 0)
  }

  /** What the engine's branches leave in the next buffer for a cell whose
      current value is `cell`, whose count is `count` and whose next-buffer
      slot held `stale`: a dead cell with a count other than 3 is never
      assigned, so it keeps `stale`. */
  function WrittenValue(cell: int, count: int, stale: int): (v: int)
  {
    if cell != 0 then
      (if count < 2 || count > 3 then 0 else cell)
    else
      (if count == 3 then 1 else stale)
  }

  /** The stale value is harmless exactly when it is 0 for a dead cell. */
  lemma WrittenValueIsRule(cell: int, count: int, stale: int)
    requires IsCell(cell)
    ensures WrittenValue(cell, count, stale) == Rule(cell == 1, count)
            <==> (cell == 0 && count != 3 ==> stale == 0)
  {
  }

  /** `stale` is 0 wherever `g` is 0. */
  predicate AgreesOnDead(g: Grid, stale: Grid, m: nat)
    requires IsSquare(g, m) && IsSquare(stale, m)
  {
    forall i, j :: 0 <= i < m && 0 <= j < m && g[i][j] == 0 ==> stale[i][j] == 0
  }

  /** The next generation of `g`: B3/S23 applied to every cell with the
      engine's own count `LiveCount`, boundary policy included. */
  function Generation(g: Grid, m: nat): (r: Grid)
    requires IsSquare(g, m)
    ensures IsBinary(r, m)
  {
    seq(m, i requires 0 <= i < m =>
      seq(m, j requires 0 <= j < m => Rule(g[i][j] != 0, LiveCount(g, m, i, j))))
  }

  /** The next buffer as the engine's branches leave it, starting from the
      buffer `stale`. */
  function AsWritten(g: Grid, stale: Grid, m: nat): (r: Grid)
    requires IsSquare(g, m) && IsSquare(stale, m)
    ensures IsSquare(r, m)
  {
    seq(m, i requires 0 <= i < m =>
      seq(m, j requires 0 <= j < m => WrittenValue(g[i][j], LiveCount(g, m, i, j), stale[i][j])))
  }

  /** The buffer invariant makes the engine's partial assignment compute
      `Generation`. */
  lemma AsWrittenIsGeneration(g: Grid, stale: Grid, m: nat)
    requires IsBinary(g, m) && IsSquare(stale, m) && AgreesOnDead(g, stale, m)
    ensures AsWritten(g, stale, m) == Generation(g, m)
  {
    var a, b := AsWritten(g, stale, m), Generation(g, m);
    forall i | 0 <= i < m
      ensures a[i] == b[i]
    {
      forall j | 0 <= j < m
        ensures a[i][j] == b[i][j]
      {
        WrittenValueIsRule(g[i][j], LiveCount(g, m, i, j), stale[i][j]);
      }
    }
  }

  /** Without the invariant the partial assignment goes wrong: a stale 1 in
      the next buffer resurrects a dead, isolated cell. */
  lemma StaleBufferResurrects()
    ensures AsWritten([[0]], [[1]], 1) == [[1]]
    ensures Generation([[0]], 1) == [[0]]
  {
    LiveCountIsEightTerms([[0]], 1, 0, 0);
    var a := AsWritten([[0]], [[1]], 1);
    assert a[0] == [1];
    var b := Generation([[0]], 1);
    assert b[0] == [0];
  }

  /** The scenarios of the rule, cell by cell. */
  lemma RuleScenarios(g: Grid, m: nat, i: int, j: int)
    requires IsBinary(g, m) && 0 <= i < m && 0 <= j < m
    ensures var c, next := LiveCount(g, m, i, j), Generation(g, m)[i][j];
            (g[i][j] == 1 && (c < 2 || c > 3) ==> next == 0) &&
            (g[i][j] == 1 && (c == 2 || c == 3) ==> next == 1) &&
            (g[i][j] == 0 && c == 3 ==> next == 1) &&
            (g[i][j] == 0 && c != 3 ==> next == 0)
  {
  }

  /** `n` generations in a row. */
  function Run(g: Grid, m: nat, n: nat): (r: Grid)
    requires IsBinary(g, m)
    ensures IsBinary(r, m)
    ensures n == 0 ==> r == g
  {
    if n == 0 then g else Generation(Run(g, m, n - 1), m)
  }

  /** No live cell appears in a grid without live cells. */
  lemma EmptyStaysEmpty(g: Grid, m: nat)
    requires IsEmpty(g, m)
    ensures Generation(g, m) == g
  {
    var r := Generation(g, m);
    forall i | 0 <= i < m
      ensures r[i] == g[i]
    {
      forall j | 0 <= j < m
        ensures r[i][j] == g[i][j]
      {
        EmptyGridCount(g, m, i, j);
      }
    }
  }

  lemma {:induction false} EmptyRunStaysEmpty(g: Grid, m: nat, n: nat)
    requires IsEmpty(g, m)
    ensures IsBinary(g, m) && Run(g, m, n) == g
  {
    if n > 0 {
      EmptyRunStaysEmpty(g, m, n - 1);
      EmptyStaysEmpty(g, m);
    }
  }

  /** On a 1 x 1 grid the single cell is dead after one generation: its
      count is minus twice its own value. */
  lemma SingleCellDies(g: Grid)
    requires IsBinary(g, 1)
    ensures LiveCount(g, 1, 0, 0) == -2 * g[0][0]
    ensures Generation(g, 1) == [[0]]
  {
    LiveCountIsEightTerms(g, 1, 0, 0);
    var r := Generation(g, 1);
    assert r[0] == [0];
  }
}
