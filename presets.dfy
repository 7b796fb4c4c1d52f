/** The three 8 x 8 seed patterns and the choice of the starting grid. */
module Presets {
  import opened Grids

  function Glider(): (g: Grid)
    ensures IsBinary(g, 8)
  {
    [[0, 0, 0, 0, 0, 0, 0, 0],
     [0, 0, 1, 0, 0, 0, 0, 0],
     [0, 0, 0, 1, 1, 0, 0, 0],
     [0, 0, 1, 1, 0, 0, 0, 0],
     [0, 0, 0, 0, 0, 0, 0, 0],
     [0, 0, 0, 0, 0, 0, 0, 0],
     [0, 0, 0, 0, 0, 0, 0, 0],
     [0, 0, 0, 0, 0, 0, 0, 0]]
  }

  function Blinker(): (g: Grid)
    ensures IsBinary(g, 8)
  {
    [[0, 0, 0, 0, 0, 0, 0, 0],
     [0, 1, 1, 1, 0, 0, 0, 0],
     [0, 0, 0, 0, 0, 0, 0, 0],
     [0, 0, 0, 0, 0, 0, 0, 0],
     [0, 0, 0, 0, 0, 0, 0, 0],
     [0, 0, 0, 0, 0, 0, 0, 0],
     [0, 0, 0, 0, 0, 0, 0, 0],
     [0, 0, 0, 0, 0, 0, 0, 0]]
  }

  function Beacon(): (g: Grid)
    ensures IsBinary(g, 8)
  {
    [[0, 0, 0, 0, 0, 0, 0, 0],
     [0, 1, 1, 0, 0, 0, 0, 0],
     [0, 1, 1, 0, 0, 0, 0, 0],
     [0, 0, 0, 1, 1, 0, 0, 0],
     [0, 0, 0, 1, 1, 0, 0, 0],
     [0, 0, 0, 0, 0, 0, 0, 0],
     [0, 0, 0, 0, 0, 0, 0, 0],
     [0, 0, 0, 0, 0, 0, 0, 0]]
  }

  predicate IsKnownPreset(name: string)
  {
    name == "glider" || name == "blinker" || name == "beacon"
  }

  /** The starting grid: `seed` (the stand-in for the random draw) when the
      preset name is empty, the named pattern when it is known, and all
      zeros for any other name. */
  function InitialGrid(m: nat, preset: string, seed: Grid): (g: Grid)
    requires IsKnownPreset(preset) ==> m == 8
    requires preset == "" ==> IsBinary(seed, m)
    ensures IsBinary(g, m)
    ensures preset == "" ==> g == seed
    ensures preset != "" && !IsKnownPreset(preset) ==> IsEmpty(g, m)
  {
    if preset == "" then seed
    else if preset == "glider" then Glider()
    else if preset == "blinker" then Blinker()
    else if preset == "beacon" then Beacon()
    else Zeros(m)
  }

  /** The glider's live cells are (1,2), (2,3), (2,4), (3,2) and (3,3). */
  lemma GliderCells(seed: Grid, i: int, j: int)
    requires 0 <= i < 8 && 0 <= j < 8
    ensures InitialGrid(8, "glider", seed)[i][j] == 1 <==>
              (i, j) == (1, 2) || (i, j) == (2, 3) || (i, j) == (2, 4) || (i, j) == (3, 2) || (i, j) == (3, 3)
  {
  }

  /** The blinker is the horizontal line (1,1), (1,2), (1,3). */
  lemma BlinkerCells(seed: Grid, i: int, j: int)
    requires 0 <= i < 8 && 0 <= j < 8
    ensures InitialGrid(8, "blinker", seed)[i][j] == 1 <==> i == 1 && 1 <= j <= 3
  {
  }

  /** The beacon is the 2 x 2 blocks at rows 1-2 / columns 1-2 and rows
      3-4 / columns 3-4. */
  lemma BeaconCells(seed: Grid, i: int, j: int)
    requires 0 <= i < 8 && 0 <= j < 8
    ensures InitialGrid(8, "beacon", seed)[i][j] == 1 <==>
              (1 <= i <= 2 && 1 <= j <= 2) || (3 <= i <= 4 && 3 <= j <= 4)
  {
  }
}
