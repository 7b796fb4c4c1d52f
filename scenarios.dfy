/** The oscillating presets on the 8 x 8 grid. The engine's boundary policy
    only differs from a bounded grid through the last row, the last column
    and the corner cell (0, 0); patterns that keep those dead evolve as on
    a bounded grid. */
module Scenarios {
  import opened Grids
  import opened Life
  import opened Presets

  /** The last row and column are dead, and so is the corner (0, 0). */
  predicate QuietBorder(g: Grid, m: nat)
    requires IsSquare(g, m) && 0 < m
  {
    var last := g[m - 1];
    g[0][0] == 0 &&
    (forall k :: 0 <= k < m ==> last[k] == 0) &&
    (forall n :: 0 <= n < m ==> g[n][m - 1] == 0)
  }

  /** Such a grid is counted as a bounded one. */
  lemma QuietBorderCount(g: Grid, m: nat, i: int, j: int)
    requires IsBinary(g, m) && 0 <= i < m && 0 <= j < m && QuietBorder(g, m)
    ensures LiveCount(g, m, i, j) == ClippedCount(g, m, i, j)
  {
    LiveCountIsEightTerms(g, m, i, j);
    forall n, k | i - 1 <= n <= i + 1 && j - 1 <= k <= j + 1
      ensures Contribution(g, m, n, k) == Neighbour(g, m, n, k)
    {
      if n == -1 && k != m {
        assert g[m - 1][Wrap(k, m)] == 0;
      } else if k == -1 && n != m {
        assert g[Wrap(n, m)][m - 1] == 0;
      }
    }
  }

  /** The blinker's other phase: the vertical line (0,2), (1,2), (2,2). */
  function BlinkerVertical(): (g: Grid)
    ensures IsBinary(g, 8)
  {
    [[0, 0, 1, 0, 0, 0, 0, 0],
     [0, 0, 1, 0, 0, 0, 0, 0],
     [0, 0, 1, 0, 0, 0, 0, 0],
     [0, 0, 0, 0, 0, 0, 0, 0],
     [0, 0, 0, 0, 0, 0, 0, 0],
     [0, 0, 0, 0, 0, 0, 0, 0],
     [0, 0, 0, 0, 0, 0, 0, 0],
     [0, 0, 0, 0, 0, 0, 0, 0]]
  }

  /** The beacon's other phase: cells (2,2) and (3,3) are dead. */
  function BeaconInner(): (g: Grid)
    ensures IsBinary(g, 8)
  {
    [[0, 0, 0, 0, 0, 0, 0, 0],
     [0, 1, 1, 0, 0, 0, 0, 0],
     [0, 1, 0, 0, 0, 0, 0, 0],
     [0, 0, 0, 0, 1, 0, 0, 0],
     [0, 0, 0, 1, 1, 0, 0, 0],
     [0, 0, 0, 0, 0, 0, 0, 0],
     [0, 0, 0, 0, 0, 0, 0, 0],
     [0, 0, 0, 0, 0, 0, 0, 0]]
  }

  /** Cell `(i, j)` of `h` is what the bounded rule makes of `g` there. */
  predicate CellFollows(g: Grid, h: Grid, m: nat, i: int, j: int)
    requires IsBinary(g, m) && IsSquare(h, m) && 0 <= i < m && 0 <= j < m
  {
    h[i][j] == Rule(g[i][j] != 0, ClippedCount(g, m, i, j))
  }

  /** One generation of a quiet-bordered grid is the bounded rule applied
      to every cell; `h` is claimed to be that result. */
  lemma GenerationIs(g: Grid, h: Grid, m: nat)
    requires 0 < m && IsBinary(g, m) && IsSquare(h, m) && QuietBorder(g, m)
    requires forall i, j :: 0 <= i < m && 0 <= j < m ==> CellFollows(g, h, m, i, j)
    ensures Generation(g, m) == h
  {
    var r := Generation(g, m);
    forall i | 0 <= i < m
      ensures r[i] == h[i]
    {
      forall j | 0 <= j < m
        ensures r[i][j] == h[i][j]
      {
        assert CellFollows(g, h, m, i, j);
        QuietBorderCount(g, m, i, j);
      }
    }
  }

  /** The two phases of each oscillator, cell by cell. */
  lemma BlinkerPhases()
    ensures forall n, k :: 0 <= n < 8 && 0 <= k < 8 ==>
              Blinker()[n][k] == if n == 1 && 1 <= k <= 3 then 1 else 0
    ensures forall n, k :: 0 <= n < 8 && 0 <= k < 8 ==>
              BlinkerVertical()[n][k] == if k == 2 && 0 <= n <= 2 then 1 else 0
    ensures QuietBorder(Blinker(), 8) && QuietBorder(BlinkerVertical(), 8)
  {
  }

  lemma BeaconPhases()
    ensures forall n, k :: 0 <= n < 8 && 0 <= k < 8 ==>
              Beacon()[n][k] == if (1 <= n <= 2 && 1 <= k <= 2) || (3 <= n <= 4 && 3 <= k <= 4) then 1 else 0
    ensures forall n, k :: 0 <= n < 8 && 0 <= k < 8 ==>
              BeaconInner()[n][k] ==
                if ((1 <= n <= 2 && 1 <= k <= 2) || (3 <= n <= 4 && 3 <= k <= 4)) && n + k != 4 && n + k != 6
                then 1 else 0
    ensures QuietBorder(Beacon(), 8) && QuietBorder(BeaconInner(), 8)
  {
  }

  /** The blinker has period 2: horizontal, vertical, horizontal. */
  lemma BlinkerOscillates()
    ensures Generation(Blinker(), 8) == BlinkerVertical()
    ensures Generation(BlinkerVertical(), 8) == Blinker()
    ensures Run(Blinker(), 8, 2) == Blinker()
  {
    BlinkerPhases();
    assert forall i, j :: 0 <= i < 8 && 0 <= j < 8 ==> CellFollows(Blinker(), BlinkerVertical(), 8, i, j);
    assert forall i, j :: 0 <= i < 8 && 0 <= j < 8 ==> CellFollows(BlinkerVertical(), Blinker(), 8, i, j);
    GenerationIs(Blinker(), BlinkerVertical(), 8);
    GenerationIs(BlinkerVertical(), Blinker(), 8);
  }

  lemma BeaconLoses()
    ensures forall i, j :: 0 <= i < 8 && 0 <= j < 8 ==> CellFollows(Beacon(), BeaconInner(), 8, i, j)
  {
    BeaconPhases();
  }

  lemma BeaconRegains()
    ensures forall i, j :: 0 <= i < 8 && 0 <= j < 8 ==> CellFollows(BeaconInner(), Beacon(), 8, i, j)
  {
    BeaconPhases();
  }

  /** The beacon has period 2: its two inner corner cells die and are
      reborn. */
  lemma BeaconOscillates()
    ensures Generation(Beacon(), 8) == BeaconInner()
    ensures Generation(BeaconInner(), 8) == Beacon()
    ensures Run(Beacon(), 8, 2) == Beacon()
  {
    BeaconPhases();
    BeaconLoses();
    BeaconRegains();
    GenerationIs(Beacon(), BeaconInner(), 8);
    GenerationIs(BeaconInner(), Beacon(), 8);
  }

  /** After `n` generations the blinker is horizontal for even `n` and
      vertical for odd `n`. */
  lemma {:induction false} BlinkerRun(n: nat)
    ensures Run(Blinker(), 8, n) == if n % 2 == 0 then Blinker() else BlinkerVertical()
  {
    BlinkerOscillates();
    if n > 0 {
      BlinkerRun(n - 1);
    }
  }

  /** After `n` generations the beacon is whole for even `n` and lacks its
      two inner corner cells for odd `n`. */
  lemma {:induction false} BeaconRun(n: nat)
    ensures Run(Beacon(), 8, n) == if n % 2 == 0 then Beacon() else BeaconInner()
  {
    BeaconOscillates();
    if n > 0 {
      BeaconRun(n - 1);
    }
  }
}
