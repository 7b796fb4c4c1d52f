/** The Game of Life engine: an `m x m` double buffer that is seeded once
    and then advanced generation by generation. */
module Engine {
  import opened Grids
  import opened Life
  import opened Presets

  /** Generations the run loop performs: none for a negative count. */
  function Rounds(iterations: int): (n: nat)
    ensures iterations <= 0 ==> n == 0
    ensures iterations >= 0 ==> n == iterations
  {
    if iterations < 0 then 0 else iterations
  }

  class GameOfLife {
    const m: nat
    const iterations: int
    /** The current generation. */
    var oldUniverse: array2<int>
    /** The buffer the next generation is written into. */
    var newUniverse: array2<int>

    /** Two distinct `m x m` buffers. */
    ghost predicate Sized()
      reads this
    {
      oldUniverse != newUniverse &&
      oldUniverse.Length0 == m && oldUniverse.Length1 == m &&
      newUniverse.Length0 == m && newUniverse.Length1 == m
    }

    /** ... holding only 0s and 1s. */
    ghost predicate Shaped()
      reads this, oldUniverse, newUniverse
    {
      Sized() && IsBinary(Snapshot(oldUniverse), m) && IsBinary(Snapshot(newUniverse), m)
    }

    /** The object invariant between generations: the next buffer is 0
        wherever the current one is 0 (all zeros before the first
        generation, a copy of the current one after every other). */
    ghost predicate Valid()
      reads this, oldUniverse, newUniverse
    {
      Shaped() && AgreesOnDead(Snapshot(oldUniverse), Snapshot(newUniverse), m)
    }

    /** Both buffers start as zeros; the current one is then seeded from
        the named preset, from `seed` when the name is empty, or left at
        zero for an unknown name. */
    constructor (m: nat, iterations: int, presetValue: string, seed: Grid)
      requires IsKnownPreset(presetValue) ==> m == 8
      requires presetValue == "" ==> IsBinary(seed, m)
      ensures this.m == m && this.iterations == iterations
      ensures Valid() && fresh(oldUniverse) && fresh(newUniverse)
      ensures Snapshot(oldUniverse) == InitialGrid(m, presetValue, seed)
      ensures Snapshot(newUniverse) == Zeros(m)
    {
      this.iterations := iterations;
      this.m := m;
      oldUniverse := new int[m, m]((_, _) => 0);
      newUniverse := new int[m, m]((_, _) => 0);
      new;
      SnapshotIs(newUniverse, Zeros(m));
      SnapshotIs(oldUniverse, Zeros(m));
      if presetValue != "" {
        if presetValue == "glider" {
          Fill(oldUniverse, Glider());
        } else if presetValue == "blinker" {
          Fill(oldUniverse, Blinker());
        } else if presetValue == "beacon" {
          Fill(oldUniverse, Beacon());
        }
      } else {
        Fill(oldUniverse, seed);
      }
    }

    /** The neighbour count of `(i, j)` in the current generation, with the
        engine's boundary policy. */
    method GetLiveCount(i: int, j: int) returns (count: int)
      requires Sized() && 0 <= i < m && 0 <= j < m
      ensures count == LiveCount(Snapshot(oldUniverse), m, i, j)
    {
      ghost var g := Snapshot(oldUniverse);
      count := 0;
      for n := i - 1 to i + 2
        invariant count == WindowRows(g, m, i, j, n - i + 1)
      {
        for k := j - 1 to j + 2
          invariant count == WindowRows(g, m, i, j, n - i + 1) + RowPart(g, m, i, j, n, k - j + 1)
        {
          if n == i && k == j {
            continue;
          }
          if n != m && k != m {
            count := count + oldUniverse[Wrap(n, m), Wrap(k, m)];
          } else {
            count := count - oldUniverse[0, 0];
          }
        }
      }
    }

    /** One pass over every cell: the next buffer ends up as the engine's
        branches leave it, starting from its previous contents. */
    method ComputeNext()
      requires Shaped()
      modifies newUniverse
      ensures Shaped()
      ensures Snapshot(newUniverse) == AsWritten(Snapshot(oldUniverse), old(Snapshot(newUniverse)), m)
    {
      ghost var g := Snapshot(oldUniverse);
      ghost var stale := Snapshot(newUniverse);
      ghost var next := AsWritten(g, stale, m);
      for i := 0 to m
        invariant forall r, c :: 0 <= r < m && 0 <= c < m ==>
                    newUniverse[r, c] == if r < i then next[r][c] else stale[r][c]
      {
        for j := 0 to m
          invariant forall r, c :: 0 <= r < m && 0 <= c < m ==>
                      newUniverse[r, c] == if r < i || (r == i && c < j) then next[r][c] else stale[r][c]
        {
          var liveNeighbours := GetLiveCount(i, j);
          if oldUniverse[i, j] != 0 {
            if liveNeighbours == 0 {
              newUniverse[i, j] := 0;
            }
            if liveNeighbours < 2 || liveNeighbours > 3 {
              newUniverse[i, j] := 0;
            } else {
              newUniverse[i, j] := oldUniverse[i, j];
            }
          } else {
            if liveNeighbours == 3 {
              newUniverse[i, j] := 1;
            }
          }
        }
      }
      SnapshotIs(newUniverse, next);
    }

    /** One generation: compute into the next buffer, then make a copy of it
        the current one. */
    method PlayGeneration()
      requires Valid()
      modifies this, newUniverse
      ensures Valid() && newUniverse == old(newUniverse) && fresh(oldUniverse)
      ensures Snapshot(oldUniverse) == Generation(old(Snapshot(oldUniverse)), m)
      ensures Snapshot(newUniverse) == Snapshot(oldUniverse)
    {
      ghost var g := Snapshot(oldUniverse);
      ghost var stale := Snapshot(newUniverse);
      ComputeNext();
      AsWrittenIsGeneration(g, stale, m);
      oldUniverse := CopyOf(newUniverse);
    }

    /** Runs the configured number of generations. */
    method PlayGameOfLife()
      requires Valid()
      modifies this, newUniverse
      ensures Valid() && newUniverse == old(newUniverse)
      ensures Snapshot(oldUniverse) == Run(old(Snapshot(oldUniverse)), m, Rounds(iterations))
      ensures iterations <= 0 ==> oldUniverse == old(oldUniverse) && Snapshot(newUniverse) == old(Snapshot(newUniverse))
      ensures iterations > 0 ==> fresh(oldUniverse) && Snapshot(newUniverse) == Snapshot(oldUniverse)
    {
      ghost var g0 := Snapshot(oldUniverse);
      var generation := 0;
      while generation < iterations
        invariant 0 <= generation <= Rounds(iterations)
        invariant Valid() && newUniverse == old(newUniverse)
        invariant Snapshot(oldUniverse) == Run(g0, m, generation)
        invariant generation == 0 ==> oldUniverse == old(oldUniverse) && Snapshot(newUniverse) == old(Snapshot(newUniverse))
        invariant generation > 0 ==> fresh(oldUniverse) && Snapshot(newUniverse) == Snapshot(oldUniverse)
        decreases iterations - generation
      {
        PlayGeneration();
        generation := generation + 1;
      }
    }
  }
}
