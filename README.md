# Life: the Game of Life engine and its pattern catalog, in Dafny

This project models the simulation engine of `life.py` and the pattern
catalog of `shapes_and_seeds.py`, with the tkinter window left out.

The engine is the `LifeGame` class. It holds a `rows` by `cols` board of
cells, and each cell carries three flags:

- `alive`;
- `alive_next_turn`, a scratch value for the next generation;
- `alive_prev_turn`, the state before the last step, used by sparse rendering.

Around the board sit the controller fields: the turn counter, the run flag,
the recorded seed, the tick length, the time of the last turn, and the
pending insert.

The model has five files:

- `wrappers.dfy`: the `Option` type.
- `pattern_format.dfy`: the pattern text format.
  - A pattern is a multiline string split with `splitlines`.
  - Its first line is dropped.
  - Every later line is a row of digits.
- `catalog.dfy`: `get_seed` and `get_entity` as constant lookups from a name to `Option<text>`.
  - The row literals are copied from the catalog.
  - Lemmas show that every pattern is well formed and rectangular.
- `board.dfy`: the semantics of the board as pure functions:
  - the Moore-neighbour count and its set-based reference definition;
  - the `if`/`elif` rule with its stale scratch value;
  - the two-phase step;
  - the single-cell toggle;
  - placement of a pattern at an offset, which can fail partway;
  - the set of cells a render repaints.
- `life.dfy`: the `LifeGame` class.
  - Its methods update the board and the controller fields in place, with the same nested loops and branches as the source.
  - Each method is proved against the functions of `board.dfy`.

Placement failure is the source's `IndexError`, and an unknown catalog name is its `KeyError`. Both come back as `ok == false`. The board is left as the source leaves it at the moment of the raise.

## Model

| member | source | states |
|---|---|---|
| PatternFormat.LineEnd | life.py:232 | from position i on, the line ends at the first line feed: none before it, one at it unless the text ends first |
| PatternFormat.LineLength | life.py:232 | the first line ends at the first line feed: no line feed before it, one at it unless the text ends first |
| PatternFormat.SplitLines | life.py:232 | `splitlines` on '\n': the empty text, and only it, has no lines |
| PatternFormat.SplitLinesNoLineFeeds | life.py:232 | no line of the split holds a line feed |
| PatternFormat.Terminated | shapes_and_seeds.py:3 | a text written as lines each followed by a line feed; with at least one line it ends in a line feed |
| PatternFormat.SplitTerminated | shapes_and_seeds.py:3 | splitting a text written as lines each followed by a line feed gives back exactly those lines |
| PatternFormat.TerminatedSplit | shapes_and_seeds.py:3 | conversely, a text that is empty or ends in a line feed is rebuilt from its split lines |
| PatternFormat.Rows | life.py:232 | the rows the engine reads are the split lines after the first, one fewer than the lines (none for the empty text) |
| PatternFormat.DigitValue | life.py:237 | `int(col)` of a digit lies in 0..9 and is 0 exactly for '0' |
| PatternFormat.BinaryRowsAreDigits | shapes_and_seeds.py:2 | rows of '0' and '1' are digit rows free of line feeds, so `int(col)` cannot fail on them |
| Catalog.GetSeed | shapes_and_seeds.py:5-42 | every seed text starts with an empty first line |
| Catalog.GetEntity | shapes_and_seeds.py:44-69 | every entity text starts with an empty first line |
| Catalog.PatternTextWellFormed | shapes_and_seeds.py:2-3 | a text made of a blank line and binary rectangular rows is well formed, and its rows read back unchanged |
| Catalog.PulsarSeedLiteral | shapes_and_seeds.py:8-22 | the Pulsar seed is 15 rows of 31 characters, each '0' or '1' |
| Catalog.PentaDecathlonSeedLiteral | shapes_and_seeds.py:26-41 | the Penta-decathlon seed is 16 rows of 39 characters, each '0' or '1' |
| Catalog.PulsarEntityLiteral | shapes_and_seeds.py:47-59 | the Pulsar entity is 13 rows of 13 characters, each '0' or '1' |
| Catalog.RPentominoLiteral | shapes_and_seeds.py:63-65 | the R-pentomino is 3 rows of 4 characters, each '0' or '1' |
| Catalog.PatternText | shapes_and_seeds.py:3 | a catalog text is a blank first line followed by the rows, one per line; it starts and ends with a line feed |
| Catalog.WellFormed | shapes_and_seeds.py:2-3 | a well-formed text has a blank first line, then `height` rows of `width` '0'/'1' characters; such a text starts with a line feed |
| Catalog.SeedCatalog | shapes_and_seeds.py:5-42 | a seed exists exactly for 'Pulsar' and 'Penta-decathlon'; they are well formed at 15x31 and 16x39, with digit rows |
| Catalog.EntityCatalog | shapes_and_seeds.py:44-69 | an entity exists exactly for 'Pulsar', 'R-pentomino' and ''; they are well formed at 13x13 and 3x4, and '' has no rows |
| Board.EmptyGrid | life.py:16 | a fresh board is `rows` by `cols` with all three flags false in every cell |
| Board.CountAlive | life.py:81-84 | the count over a list of positions never exceeds the list's length |
| Board.NeighborCount | life.py:76-84 | a cell has at most 8 live neighbours |
| Board.CountAliveIsCardinality | life.py:81-84 | over distinct positions, the loop's count is the size of the set of live on-board positions among them |
| Board.NeighborCountIsLiveNeighbors | life.py:76-84 | the count is the number of live on-board cells in the 3x3 square minus the centre; off-board cells, negative indices included, are skipped |
| Board.NeighborCountSum | life.py:79-84 | the count is the sum of the eight on-board-and-alive tests, in the source's order |
| Board.CountAliveFrame | life.py:83 | the count reads only `alive`: boards that agree on `alive` give the same count |
| Board.LifeRule | life.py:93-95 | Conway's rule as the source's comments name it: a live cell survives with 2 or 3 neighbours, a dead cell is born with exactly 3 |
| Board.NextAlive | life.py:93-95 | the rule: dead below 2 or above 3 neighbours, alive with 2 or 3 if alive, born with 3; a dead cell with 2 keeps its old scratch value |
| Board.PlanCell | life.py:91-95 | phase one for one cell leaves `alive` and `alivePrev` alone and sets `aliveNext` by the rule from the untouched board, except for a dead cell with 2 neighbours |
| Board.Plan | life.py:89-95 | phase one keeps the board's shape and every cell's `alive` and `alivePrev`; it writes only scratch flags |
| Board.CommitCell | life.py:99-101 | phase two for one cell: the new `alive` is the planned value, the scratch flag agrees with it, and `alivePrev` keeps the old `alive` |
| Board.Commit | life.py:97-101 | phase two keeps the shape; every cell's `alive` becomes its scratch flag and `alivePrev` its old `alive` |
| Board.Step | life.py:86-101 | `advance_simulation` keeps the shape and leaves every cell's `alivePrev` equal to its pre-step `alive` |
| Board.StepCell | life.py:89-101 | after a step each cell's `alivePrev` is its old `alive`, and its `alive` and `aliveNext` are the rule applied to the old board |
| Board.StepIsLife | life.py:89-101 | with no stale scratch value, a step is exactly Conway's rule, and the board still has none afterwards |
| Board.StepRestoresNoStaleBirth | life.py:97-101 | after any step, no dead cell holds a set scratch flag |
| Board.StepReadsOnlyAlive | life.py:89-95 | with no stale scratch value, the step depends only on the old `alive` flags |
| Board.AllDeadStaysDead | life.py:93 | an all-dead board stays all dead |
| Board.BlockIsStill | life.py:89-101 | a 2x2 block is unchanged by a step, and no cell of it changes state |
| Board.HorizontalToVertical | life.py:89-101 | a horizontal blinker away from the top and bottom edges becomes vertical |
| Board.VerticalToHorizontal | life.py:89-101 | a vertical blinker away from the left and right edges becomes horizontal |
| Board.BlinkerOscillates | life.py:89-101 | a blinker returns to its first phase after two steps |
| Board.StaleScratchRevives | life.py:93-95 | after a toggle kills a cell whose scratch flag is set, a cell with 2 neighbours comes back to life, against Conway's rule |
| Board.Toggle | life.py:71-72 | a toggle flips `alive` of that one cell and changes nothing else |
| Board.ToggleNoStaleBirth | life.py:72 | a toggle breaks the no-stale-scratch invariant exactly when it kills a cell whose scratch flag is set |
| Board.MissFrom | life.py:235-238 | gives the first positive digit from (i, j) on whose cell is off the board, with every earlier mark on the board; or none when all marks fit |
| Board.StopAt | life.py:231-238 | placement stops at the first positive digit whose cell is off the board, with every earlier mark on the board, or past the last row when all fit |
| Board.Stamp | life.py:237-238 | stamping sets alive the cells of the marks before the stop and nothing else, keeping the other two flags and the shape |
| Board.Place | life.py:228-238 | `parse_seed_val` keeps the board's shape, and it completes only if every positive digit lands on the board |
| Board.PlaceFailsIff | life.py:228-238 | placement fails exactly when some positive digit maps to a cell off the board |
| Board.PlaceAdditive | life.py:237-238 | placement only sets `alive`: it never kills a cell, never touches the other two flags, and keeps the invariant |
| Board.PlaceSucceeds | life.py:231-238 | a completed placement sets alive exactly the cells its positive digits mark, offset by (row, col) |
| Board.PlaceFailsPartway | life.py:228-238 | a failed placement keeps alive every mark before the first off-board one in row-major order, and sets nothing from it on |
| Board.PlaceFits | life.py:228-238 | a pattern within the board below and right of its offset never fails |
| Board.PlaceNothing | life.py:232 | a pattern with no rows changes nothing and succeeds |
| Board.Repaints | life.py:187 | only cells on the board are repainted, and a full render repaints every one of them |
| Board.SparseRenderAfterStep | life.py:184-189 | after a step, a sparse render repaints exactly the cells whose `alive` the step changed |
| Life.SpeedFor | life.py:211-217 | a tick length exists exactly for slider levels 1 to 5 |
| Life.SpeedTableOrdered | life.py:211-217 | a higher level gives a strictly shorter, positive tick, and the start-up level 3 gives the start-up 500 ms |
| Life.SeedsFitDefaultBoard | life.py:253-255 | both seeds placed at (0, 0) on the 25 by 40 start-up board never fail |
| Life.LifeGame.constructor | life.py:12-27 | builds an empty board with no stale scratch, turn 0, stopped, no seed, a 500 ms tick, the last turn stamped `now`, nothing pending |
| Life.LifeGame.GetNeighborCount | life.py:76-84 | the loop returns the neighbour count: the number of live on-board neighbours, at most 8 |
| Life.LifeGame.AdvanceSimulation | life.py:86-101 | the two nested-loop phases leave the board equal to `Step` of the old board |
| Life.LifeGame.ClearBoard | life.py:219-224 | every flag of every cell becomes false |
| Life.LifeGame.ParseSeedVal | life.py:228-238 | the board and the success flag are those of `Place` on the old board with the text's rows at the offset |
| Life.LifeGame.ToggleCellValue | life.py:71-72 | the board becomes `Toggle` of the old board at the cell |
| Life.LifeGame.ClickEvent | life.py:57-69 | with an insert pending, it places the pattern at the cell; the insert is dropped on success and kept on failure. Otherwise it toggles the cell and leaves the pending state alone |
| Life.LifeGame.RestartSimulation | life.py:105-117 | the game is stopped, the turn is 0, nothing is pending, and the board is the recorded seed placed on an empty board (empty if there is none) |
| Life.LifeGame.ClearSimulation | life.py:119-121 | the seed is forgotten and the board ends empty, stopped at turn 0 |
| Life.LifeGame.SeedGame | life.py:247-251 | the recorded seed is the catalog's, placed on an empty board; an unknown name gives failure and an empty board; on 25 by 40 a known seed always fits |
| Life.LifeGame.RecordSeed | life.py:250-251 | the seed is recorded before it is stamped, so it stays recorded when the stamp raises; the board is the placement on the empty board |
| Life.LifeGame.AddPendingInsert | life.py:242-244 | a known entity becomes the pending insert; an unknown name fails and changes nothing |
| Life.LifeGame.GameLoop | life.py:29-43 | while running, a whole tick since the last turn advances the turn by one and steps once; otherwise turn, board and timestamp are unchanged |
| Life.LifeGame.StartPauseSimulation | life.py:203-206 | it negates the run flag; when the flag turns on, one tick check runs at once |
| Life.LifeGame.AdjustGameSpeed | life.py:211-217 | levels 1 to 5 set 2000, 1000, 500, 250 and 150 ms; any other level leaves the tick length unchanged |
| Life.RenderRow | life.py:186-189 | the inner loop appends, in column order, exactly the repaints of one row |
| Life.LifeGame.RenderBoard | life.py:184-189 | it repaints, in row-major order, exactly the on-board cells whose state changed (every cell when not sparse), each with its `alive` colour |
| Life.Startup | life.py:253-255 | the start-up lookup of 'Pulsars' fails, since the catalog has no such name; the state at that raise is a 25 by 40 empty board with no seed. In the source nothing catches this error, so the program ends before the window's main loop runs |

## Left out

- The tkinter layer is not modelled. This covers the window, buttons, labels, menus, key binds, `messagebox.showerror`, `update_idletasks` and `mainloop`. A render is the list of cells it would repaint and the colour each gets.
- `root.after` rescheduling is only the `Some(CycleSpeed)` that `GameLoop` returns. The event loop that would call it again is not modelled. Neither are two overlapping loop chains from fast Start/Pause toggling.
- `print_board` (life.py:191-201) is left out: it only writes debug output to the console.
- The turn label and button text updates are not modelled; they are display only.
- `time.time()` becomes an integer parameter `now` in milliseconds. `game_loop` reads the clock twice; `GameLoop` reads `now` once and uses it for both.
- Tick lengths are whole milliseconds (2000, 1000, 500, 250, 150), not floating-point seconds.
- Life.LifeGame.ParseSeedVal: requires every row to be digits only. The `ValueError` that `int(col)` raises on any other character is not modelled. No catalog pattern has such a character (`Catalog.SeedCatalog` and `Catalog.EntityCatalog` prove it).
- PatternFormat.SplitLines: splits only on '\n'. Python's `splitlines` also breaks on '\r', '\x0b', '\x0c' and other separators, which never occur in the catalog.
- The lookup names in life.py (`ss.dict_seeds` and `ss.dict_entities`) differ from the catalog's `get_seed` and `get_entity`. The model takes the catalog as the lookup `name -> Option<text>` and uses it directly. For the same reason, the menus built from the dictionaries' keys are not modelled.
- A cell's `button` and `parent` are not modelled. Neither are its stored `row` and `col`: a cell's position is its index in the board.
- The `after_id` field is not modelled, since nothing reads it.
- The speed slider's own value is not modelled: `AdjustGameSpeed` takes the level as a parameter.
- `LifeGame.__init__` checks no minimum board size, so the model allows a board with no rows or no columns.
