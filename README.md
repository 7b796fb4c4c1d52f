# Game of Life engine, modelled in Dafny

This project models the `GameOfLife` class of `main.py`, a small Conway's
Game of Life engine. It has three parts:

- **Seeding.** The constructor allocates two zero-filled `m x m` buffers,
  `old_universe` (the current generation) and `new_universe` (the next one).
  It then seeds `old_universe` from one of three 8 x 8 presets ("glider",
  "blinker", "beacon"). An empty preset name asks for a random 0/1 grid
  instead. Any other name leaves the grid all dead.
- **Neighbour counting.** `get_live_count` sums the eight positions around
  a cell with the engine's own boundary check. A window index of -1 is
  not excluded: numpy reads it as the last row or column. A position with
  an index equal to `m` subtracts the corner cell `(0, 0)` instead of
  adding nothing. The count can therefore be negative, down to -5.
- **The run loop.** Once per iteration, `play_game_of_life` visits every
  cell and writes into `new_universe` the B3/S23 successor of each cell it
  assigns. A dead cell whose count is not 3 is never assigned: it keeps
  whatever `new_universe` held before. A copy of `new_universe` then becomes
  the new `old_universe`.

The model is imperative where the source is. `Engine.GameOfLife` is a
class with `array2<int>` fields `oldUniverse` and `newUniverse`. Its methods
keep the source's nested loops, its accumulator and its branches, and the
copy at the end of each generation. Each method is proved against value-level
specification functions on `Grid = seq<seq<int>>`:

- `Life.LiveCount` is the count as written.
- `Life.AsWritten` is what the branches leave in the next buffer.
- `Life.Generation` is B3/S23 applied to the engine's own count `LiveCount`
  (boundary policy as written), to every cell.
- `Life.Run` is `n` generations in a row.

The central invariant is `GameOfLife.Valid()`: between generations the next
buffer is 0 wherever the current one is 0. This is what makes the partial
assignment correct (`Life.AsWrittenIsGeneration`). The invariant holds after
the constructor, because the next buffer is all zeros. It holds after every
generation, because the next buffer is then equal to the current one.

Modules: `Grids` (grids as values, snapshots of buffers, slice assignment
and copy), `Life` (counting and the rule), `Presets` (the seed patterns),
`Engine` (the class), `Scenarios` (the two oscillating presets).

`Life.ClippedCount` is the ordinary count on a bounded grid, where positions
outside `0..m-1` add nothing. It is used only for comparison. Away from the
edges the two counts agree (`Life.InteriorCount`). They also agree on any grid
whose last row, last column and corner `(0, 0)` are dead
(`Scenarios.QuietBorderCount`). At the edges they differ
(`Life.CountReachesMinusFive`, `Life.LowEdgeWraps`).

## Model

| member | source | states |
|---|---|---|
| `Engine.GameOfLife.constructor` | main.py:18-74 | Both buffers are fresh `m x m` arrays. The next buffer is all zeros. The current one is `InitialGrid(m, preset, seed)`, and `Valid()` holds. |
| `Grids.Zeros` | main.py:23-24 | The result is an `m x m` grid of 0/1 cells, all of them 0. |
| `Grids.Fill` | main.py:40-74 | After any of the four slice assignments (main.py:40, 52, 63, 74) the buffer's contents are exactly the assigned grid. |
| `Presets.InitialGrid` | main.py:29-74 | The start grid is a 0/1 `m x m` grid. An empty name gives the seed grid. A non-empty unknown name gives an all-dead grid. |
| `Presets.GliderCells` | main.py:31-40 | With `m == 8`, "glider" makes exactly (1,2), (2,3), (2,4), (3,2) and (3,3) live. |
| `Presets.BlinkerCells` | main.py:42-52 | With `m == 8`, "blinker" makes exactly (1,1), (1,2) and (1,3) live. |
| `Presets.BeaconCells` | main.py:54-63 | With `m == 8`, "beacon" makes exactly the two 2 x 2 blocks live: rows 1-2 / columns 1-2 and rows 3-4 / columns 3-4. |
| `Engine.GameOfLife.GetLiveCount` | main.py:150-180 | The accumulated count equals `LiveCount` of the current buffer at `(i, j)`. |
| `Life.LiveCountIsEightTerms` | main.py:169-180 | The count is the sum of the eight window positions other than the centre. Each position adds its wrapped cell, or subtracts the corner `(0, 0)` when an index equals `m`. |
| `Life.LiveCountBounds` | main.py:169-179 | On a 0/1 grid the count lies in -5..8. It is never negative unless the cell is in the last row or the last column. |
| `Life.InteriorCount` | main.py:170-177 | For `1 <= i, j <= m - 2` the count is the ordinary sum of the eight neighbours. It equals the bounded count and lies in 0..8. |
| `Life.EmptyGridCount` | main.py:169-179 | On an all-dead grid every count is 0, because the subtracted corner cell is 0 too. |
| `Life.CountReachesMinusFive` | main.py:176-179 | The -5 bound is reached. A lone live corner `(0, 0)` of a 3 x 3 grid gives cell (2,2) a count of -5, where the bounded count is 0. |
| `Life.LowEdgeWraps` | main.py:170-177 | Index -1 wraps. A lone live cell (2,2) of a 3 x 3 grid gives cell (0,0) a count of 1, where the bounded count is 0. |
| `Life.RuleScenarios` | main.py:84-99 | Intended rule: a live cell with fewer than 2 or more than 3 neighbours dies (negative counts included), and with 2 or 3 it survives. A dead cell with exactly 3 is born, and otherwise stays dead. |
| `Life.Generation` | main.py:114-132 | One generation (B3/S23 on the engine's own count) of an `m x m` grid is a 0/1 `m x m` grid. |
| `Life.WrittenValueIsRule` | main.py:120-132 | What the branches leave in a cell equals the B3/S23 value if and only if the stale slot is 0 whenever that cell is dead with a count other than 3. |
| `Life.AsWrittenIsGeneration` | main.py:114-132 | When the next buffer is 0 wherever the current grid is 0, the branches compute exactly `Generation`: B3/S23 on the engine's own count. |
| `Life.StaleBufferResurrects` | main.py:129-132 | Without that invariant the result is wrong. A stale 1 makes a dead, isolated cell live, although `Generation` is dead there. |
| `Engine.GameOfLife.ComputeNext` | main.py:114-132 | The next buffer becomes `AsWritten` of the current grid and the previous next buffer. The current buffer is unchanged, and all cells stay 0/1. |
| `Grids.CopyOf` | main.py:136 | The copy is a fresh array with the same dimensions and the same contents. |
| `Engine.GameOfLife.PlayGeneration` | main.py:114-136 | One generation: the current buffer becomes a fresh array holding `Generation` of the old one. The next buffer equals it afterwards, and `Valid()` is preserved. |
| `Life.Run` | main.py:113-140 | `n` generations of a 0/1 grid give a 0/1 grid. Zero generations give the grid itself. |
| `Engine.GameOfLife.PlayGameOfLife` | main.py:108-140 | The current buffer ends as `Run(initial, m, Rounds(iterations))`: the `while` loop performs `iterations` generations, or none when `iterations` is 0 or less. `Valid()` holds. With no round both buffers are untouched. Otherwise the next buffer equals the current one. |
| `Life.EmptyStaysEmpty` | main.py:101-104 | A grid with no live cell is unchanged by a generation. |
| `Life.EmptyRunStaysEmpty` | main.py:80-83 | A grid with no live cell is unchanged by any number of generations. |
| `Life.SingleCellDies` | main.py:170-179 | On a 1 x 1 grid the count is minus twice the cell's value, so the cell is dead after one generation. |
| `Scenarios.QuietBorderCount` | main.py:176-179 | If the last row, the last column and the corner `(0, 0)` are dead, the engine's count equals the bounded count everywhere. |
| `Scenarios.GenerationIs` | main.py:114-132 | For an `m x m` grid (`0 < m`) whose last row, last column and corner `(0, 0)` are dead, a grid that follows B3/S23 on the bounded count cell by cell is its generation. |
| `Scenarios.BlinkerOscillates` | main.py:44-52 | The blinker turns vertical (column 2, rows 0-2) and back, so two generations restore it. |
| `Scenarios.BeaconOscillates` | main.py:55-63 | The beacon loses cells (2,2) and (3,3), then regains them, so two generations restore it. |
| `Scenarios.BlinkerRun` | main.py:108-140 | After `n` generations the blinker is horizontal for even `n` and vertical for odd `n`. |
| `Scenarios.BeaconRun` | main.py:108-140 | After `n` generations the beacon is whole for even `n`, and lacks its two inner corner cells for odd `n`. |

## Left out

- `print(self.old_universe)` (main.py:137) writes to the console. It is not modelled.
- The `__main__` entry point (main.py:183-185) is glue and is not modelled. `Scenarios.BlinkerRun` covers what its 100-generation blinker run computes.
- `generate_random_number` and the random fill (main.py:66-74, 142-147) cannot be modelled as randomness. The constructor instead takes a `seed` grid, which may be any `m x m` grid of 0s and 1s.
- `Engine.GameOfLife.constructor`: a known preset requires `m == 8`. For any other `m` the 8 x 8 slice assignment (main.py:40, 52, 63) fails in numpy, and the model does not invent clipping for that case.
- `Engine.GameOfLife.constructor`: takes `m` as a `nat`. A negative `m` makes `np.zeros(m * m).reshape(m, m)` (main.py:23-24) raise in numpy, and that error path is not modelled.
- `Engine.GameOfLife.constructor`: `preset_value` is a string, and the empty string stands for every falsy value (None as well as "").
- `Engine.GameOfLife.GetLiveCount`: requires `0 <= i, j < m`, the only arguments the run loop passes. For other arguments numpy would raise or read further wrapped indices, and the model does not cover that.
- The buffers hold numpy int32 cells (`dtype='i'`). Cells are always 0 or 1 and counts lie in -5..8, so no width or wrap-around matters. The model uses unbounded `int`.
- `Engine.GameOfLife.PlayGameOfLife`: its counter `iterations` is local, as in the source. The object's `iterations` is a constant because nothing in the source changes it.
- `Engine.GameOfLife.ComputeNext` keeps the redundant `live_neigbours == 0` branch (main.py:122-123). For a live cell with a count of 0, it and the `< 2` branch both write 0.
- The 1 x 1 grid and the oscillators are proved for the boundary policy as written, not for a corrected one.
