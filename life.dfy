/**
  The `LifeGame` engine of life.py without its tkinter layer: the board and
  the controller state, updated in place by the same nested loops and
  if/elif chains as the source. Wall-clock time is an explicit `now`
  parameter in milliseconds, tick lengths are whole milliseconds, and a
  render is the list of repaints it would make.
 */
module Life {
  import opened Wrappers
  import opened PatternFormat
  import opened Board
  import Catalog

  /** Milliseconds between two checks of the tick loop (life.py:22). */
  const CycleSpeed: nat := 50

  /** Tick length at start-up, 0.5 s (life.py:21). */
  const InitialSpeed: nat := 500

  /** The slider level the window starts at (life.py:137). */
  const InitialLevel: int := 3

  /**
    Tick length of a speed-slider level (life.py:211-217): 2 s, 1 s, 0.5 s,
    0.25 s and 0.15 s for levels 1 to 5, and nothing for any other level.
   */
  function SpeedFor(level: int): (ms: Option<nat>)
    ensures ms.Some? <==> 1 <= level <= 5
  {
    if level == 1 then Some(2000)
    else if level == 2 then Some(1000)
    else if level == 3 then Some(500)
    else if level == 4 then Some(250)
    else if level == 5 then Some(150)
    else None
  }

  /** A higher level is a strictly shorter tick, and the start-up speed is that of the start-up level. */
  lemma SpeedTableOrdered(a: int, b: int)
    requires 1 <= a < b <= 5
    ensures SpeedFor(a).value > SpeedFor(b).value > 0
    ensures SpeedFor(InitialLevel) == Some(InitialSpeed)
  {
  }

  /** One cell repainted by `render_board`: black when `alive`, white otherwise. */
  datatype Repaint = Repaint(row: nat, col: nat, alive: bool)

  /** `painted` lists, in row-major order, the repaints of the cells before (r, c). */
  ghost predicate PaintedUpTo(painted: seq<Repaint>, g: Grid, sparse: bool, r: int, c: int)
  {
    && (forall k :: 0 <= k < |painted| ==>
         && Repaints(g, sparse, painted[k].row, painted[k].col)
         && Before(painted[k].row, painted[k].col, r, c)
         && painted[k].alive == g[painted[k].row][painted[k].col].alive)
    && (forall i, j :: Repaints(g, sparse, i, j) && Before(i, j, r, c) ==> Repaint(i, j, g[i][j].alive) in painted)
    && (forall k :: 0 < k < |painted| ==> Before(painted[k - 1].row, painted[k - 1].col, painted[k].row, painted[k].col))
  }

  lemma PaintedNextCell(painted: seq<Repaint>, g: Grid, sparse: bool, r: nat, c: nat)
    requires PaintedUpTo(painted, g, sparse, r, c) && OnBoard(g, r, c)
    ensures Repaints(g, sparse, r, c) ==> PaintedUpTo(painted + [Repaint(r, c, g[r][c].alive)], g, sparse, r, c + 1)
    ensures !Repaints(g, sparse, r, c) ==> PaintedUpTo(painted, g, sparse, r, c + 1)
  {
  }

  lemma PaintedNextRow(painted: seq<Repaint>, g: Grid, sparse: bool, r: nat, cols: nat)
    requires IsGrid(g, |g|, cols) && PaintedUpTo(painted, g, sparse, r, cols)
    ensures PaintedUpTo(painted, g, sparse, r + 1, 0)
  {
  }

  /** Once every row is visited, the list holds exactly the repaints, in row-major order. */
  lemma PaintedAll(painted: seq<Repaint>, g: Grid, sparse: bool)
    requires PaintedUpTo(painted, g, sparse, |g|, 0)
    ensures forall k :: 0 <= k < |painted| ==>
      Repaints(g, sparse, painted[k].row, painted[k].col)
      && painted[k].alive == g[painted[k].row][painted[k].col].alive
    ensures forall r, c :: Repaints(g, sparse, r, c) ==> Repaint(r, c, g[r][c].alive) in painted
    ensures forall k :: 0 < k < |painted| ==>
      Before(painted[k - 1].row, painted[k - 1].col, painted[k].row, painted[k].col)
  {
  }

  /** The inner loop of `render_board` (life.py:186-189): append the repaints of row `r`. */
  method RenderRow(g: Grid, sparse: bool, r: nat, cols: nat, painted: seq<Repaint>) returns (extended: seq<Repaint>)
    requires IsGrid(g, |g|, cols) && r < |g|
    requires PaintedUpTo(painted, g, sparse, r, 0)
    ensures PaintedUpTo(extended, g, sparse, r + 1, 0)
  {
    extended := painted;
    var c := 0;
    while c < cols
      invariant 0 <= c <= cols
      invariant PaintedUpTo(extended, g, sparse, r, c)
    {
      PaintedNextCell(extended, g, sparse, r, c);
      if !sparse || g[r][c].alive != g[r][c].alivePrev {
        extended := extended + [Repaint(r, c, g[r][c].alive)];
      }
      c := c + 1;
    }
    PaintedNextRow(extended, g, sparse, r, cols);
  }

  /** What a click on a cell did (life.py:57-69). */
  datatype ClickResult = Toggled | Inserted | OutOfRange

  /** Both catalog seeds fit the 25 by 40 board of life.py:254 at offset (0, 0). */
  lemma SeedsFitDefaultBoard(name: string)
    requires Catalog.GetSeed(name).Some?
    ensures Place(EmptyGrid(25, 40), Rows(Catalog.GetSeed(name).value), 0, 0).ok
  {
    Catalog.SeedCatalog(name);
    PlaceFits(EmptyGrid(25, 40), Rows(Catalog.GetSeed(name).value), 0, 0, 25, 40);
  }

  class LifeGame {
    const rows: nat
    const cols: nat
    var board: Grid
    var turn: nat
    var simulationOn: bool
    /** The text of the loaded seed, replayed by Reset. */
    var seed: Option<string>
    /** Tick length in milliseconds. */
    var gameSpeed: nat
    var lastTurnTimestamp: int
    var pendingInsert: bool
    var pendingInsertSeed: Option<string>

    /**
      The board is `rows` by `cols`; a pending insert always has a pattern
      to place; every stored pattern text has digit rows only.
     */
    ghost predicate Valid()
      reads this
    {
      && IsGrid(board, rows, cols)
      && (pendingInsert <==> pendingInsertSeed.Some?)
      && (seed.Some? ==> DigitsOnly(Rows(seed.value)))
      && (pendingInsertSeed.Some? ==> DigitsOnly(Rows(pendingInsertSeed.value)))
    }

    /** `LifeGame.__init__` (life.py:12-27), at time `now`. */
    constructor (rows: nat, cols: nat, now: int)
      ensures Valid() && this.rows == rows && this.cols == cols
      ensures board == EmptyGrid(rows, cols) && NoStaleBirth(board)
      ensures turn == 0 && !simulationOn && seed == None
      ensures gameSpeed == InitialSpeed && lastTurnTimestamp == now
      ensures !pendingInsert && pendingInsertSeed == None
    {
      this.rows, this.cols := rows, cols;
      board := EmptyGrid(rows, cols);
      turn := 0;
      simulationOn := false;
      seed := None;
      gameSpeed := InitialSpeed;
      lastTurnTimestamp := now;
      pendingInsert := false;
      pendingInsertSeed := None;
    }

    /**
      `Cell.get_neighbor_count` for the cell at (r, c): the number of live
      cells among its eight Moore neighbours on the board (life.py:76-84).
     */
    method GetNeighborCount(r: nat, c: nat) returns (count: nat)
      requires Valid() && r < rows && c < cols
      ensures count == NeighborCount(board, r, c)
      ensures count == |LiveNeighbors(board, r, c)| && count <= 8
    {
      var neighbors := Neighbors(r, c);
      count := 0;
      var k := 0;
      while k < |neighbors|
        invariant 0 <= k <= |neighbors|
        invariant count == CountAlive(board, neighbors[..k])
      {
        var (i, j) := neighbors[k];
        if i >= 0 && i < rows && j >= 0 && j < cols && board[i][j].alive {
          count := count + 1;
        }
        assert neighbors[..k + 1][..k] == neighbors[..k];
        k := k + 1;
      }
      assert neighbors[..k] == neighbors;
      NeighborCountIsLiveNeighbors(board, r, c);
    }

    /**
      `advance_simulation` (life.py:86-103): phase one plans every cell from
      the untouched board, phase two saves and commits every cell.
     */
    method AdvanceSimulation()
      requires Valid()
      modifies this`board
      ensures Valid() && board == Step(old(board))
    {
      ghost var g0: Grid := board;
      var r := 0;
      while r < rows
        invariant 0 <= r <= rows
        invariant PlannedUpTo(board, g0, r, 0)
      {
        var c := 0;
        while c < cols
          invariant 0 <= c <= cols
          invariant PlannedUpTo(board, g0, r, c)
        {
          PlannedNextCell(board, g0, r, c);
          CountAliveFrame(board, g0, Neighbors(r, c));
          var cell := board[r][c];
          var neighbors := GetNeighborCount(r, c);
          if neighbors < 2 || neighbors > 3 {
            board := board[r := board[r][c := cell.(aliveNext := false)]];
          } else if cell.alive {
            board := board[r := board[r][c := cell.(aliveNext := true)]];
          } else if neighbors == 3 {
            board := board[r := board[r][c := cell.(aliveNext := true)]];
          }
          c := c + 1;
        }
        PlannedNextRow(board, g0, r, cols);
        r := r + 1;
      }
      PlannedAll(board, g0);

      ghost var g1: Grid := board;
      r := 0;
      while r < rows
        invariant 0 <= r <= rows
        invariant CommittedUpTo(board, g1, r, 0)
      {
        var c := 0;
        while c < cols
          invariant 0 <= c <= cols
          invariant CommittedUpTo(board, g1, r, c)
        {
          CommittedNextCell(board, g1, r, c);
          var cell := board[r][c];
          cell := cell.(alivePrev := cell.alive);
          cell := cell.(alive := cell.aliveNext);
          board := board[r := board[r][c := cell]];
          c := c + 1;
        }
        CommittedNextRow(board, g1, r, cols);
        r := r + 1;
      }
      CommittedAll(board, g1);
    }

    /** `clear_board` (life.py:219-224): every flag of every cell set false. */
    method ClearBoard()
      requires Valid()
      modifies this`board
      ensures Valid() && board == EmptyGrid(rows, cols)
    {
      var r := 0;
      while r < rows
        invariant 0 <= r <= rows
        invariant IsGrid(board, rows, cols)
        invariant forall i, j :: 0 <= i < r && 0 <= j < cols ==> board[i][j] == DeadCell
      {
        var c := 0;
        while c < cols
          invariant 0 <= c <= cols
          invariant IsGrid(board, rows, cols)
          invariant forall i, j :: 0 <= i < rows && 0 <= j < cols && Before(i, j, r, c) ==> board[i][j] == DeadCell
        {
          board := board[r := board[r][c := DeadCell]];
          c := c + 1;
        }
        r := r + 1;
      }
      GridsEqual(board, EmptyGrid(rows, cols));
    }

    /**
      `parse_seed_val` (life.py:228-238): skip the first line of the text and
      set alive every cell a positive digit marks, offset by (offsetR,
      offsetC), in row-major order. `ok` is false when a mark falls off the
      board (the source's IndexError); the marks before it stay set.
     */
    method ParseSeedVal(text: string, offsetR: nat, offsetC: nat) returns (ok: bool)
      requires Valid() && DigitsOnly(Rows(text))
      modifies this`board
      ensures Valid()
      ensures Placement(board, ok) == Place(old(board), Rows(text), offsetR, offsetC)
    {
      ghost var g0: Grid := board;
      var lines := SplitLines(text);
      var pattern: seq<string> := if lines == [] then [] else lines[1..];
      assert pattern == Rows(text);
      StampedNothing(g0, pattern, offsetR, offsetC);
      var i := 0;
      while i < |pattern|
        invariant 0 <= i <= |pattern|
        invariant StampedUpTo(board, g0, pattern, offsetR, offsetC, (i, 0))
        invariant FitsBefore(g0, pattern, offsetR, offsetC, i, 0)
      {
        var row := pattern[i];
        var j := 0;
        while j < |row|
          invariant 0 <= j <= |row|
          invariant StampedUpTo(board, g0, pattern, offsetR, offsetC, (i, j))
          invariant FitsBefore(g0, pattern, offsetR, offsetC, i, j)
        {
          assert IsDigit(row[j]);
          if DigitValue(row[j]) > 0 {
            if offsetR + i >= rows || offsetC + j >= cols {
              StampedFails(board, g0, pattern, offsetR, offsetC, i, j);
              return false;
            }
            StampedNextChar(board, g0, pattern, offsetR, offsetC, i, j);
            board := SetAlive(board, offsetR + i, offsetC + j);
          } else {
            StampedNextChar(board, g0, pattern, offsetR, offsetC, i, j);
          }
          j := j + 1;
        }
        StampedNextRow(board, g0, pattern, offsetR, offsetC, i);
        i := i + 1;
      }
      StampedAll(board, g0, pattern, offsetR, offsetC);
      ok := true;
    }

    /** `Cell.toggle_cell_value` (life.py:71-72) for the cell at (r, c). */
    method ToggleCellValue(r: nat, c: nat)
      requires Valid() && r < rows && c < cols
      modifies this`board
      ensures Valid() && board == Toggle(old(board), r, c)
    {
      var cell := board[r][c];
      board := board[r := board[r][c := cell.(alive := !cell.alive)]];
    }

    /**
      `Cell.click_event` (life.py:57-69) on the cell at (r, c): with an insert
      pending, place its pattern there and drop the pending insert unless
      the pattern did not fit; otherwise toggle the cell.
     */
    method ClickEvent(r: nat, c: nat) returns (result: ClickResult)
      requires Valid() && r < rows && c < cols
      modifies this`board, this`pendingInsert, this`pendingInsertSeed
      ensures Valid()
      ensures old(pendingInsert) ==>
        var placed := Place(old(board), Rows(old(pendingInsertSeed).value), r, c);
        && board == placed.grid
        && (placed.ok ==> result == Inserted && !pendingInsert && pendingInsertSeed == None)
        && (!placed.ok ==> result == OutOfRange && pendingInsert && pendingInsertSeed == old(pendingInsertSeed))
      ensures !old(pendingInsert) ==>
        && result == Toggled && board == Toggle(old(board), r, c)
        && !pendingInsert && pendingInsertSeed == old(pendingInsertSeed)
    {
      if pendingInsert {
        var ok := ParseSeedVal(pendingInsertSeed.value, r, c);
        if ok {
          pendingInsert := false;
          pendingInsertSeed := None;
          result := Inserted;
        } else {
          result := OutOfRange;
        }
      } else {
        ToggleCellValue(r, c);
        result := Toggled;
      }
    }

    /**
      `restart_simulation` (life.py:105-117): stop, reset the turn, clear the
      board and the pending insert, then stamp the recorded seed (if any) at
      (0, 0). `ok` is false when that stamp raises IndexError.
     */
    method RestartSimulation() returns (ok: bool)
      requires Valid()
      modifies this`simulationOn, this`turn, this`board, this`pendingInsert, this`pendingInsertSeed
      ensures Valid() && !simulationOn && turn == 0
      ensures !pendingInsert && pendingInsertSeed == None
      ensures seed.None? ==> ok && board == EmptyGrid(rows, cols)
      ensures seed.Some? ==> Placement(board, ok) == Place(EmptyGrid(rows, cols), Rows(seed.value), 0, 0)
      ensures NoStaleBirth(board)
    {
      simulationOn := false;
      turn := 0;
      ClearBoard();
      pendingInsert := false;
      pendingInsertSeed := None;
      ok := true;
      if seed.Some? {
        ok := ParseSeedVal(seed.value, 0, 0);
        assert NoStaleBirth(board) by {
          PlaceAdditive(EmptyGrid(rows, cols), Rows(seed.value), 0, 0);
        }
      }
    }

    /** `clear_simulation` (life.py:119-121): forget the seed, then restart, so the board ends empty. */
    method ClearSimulation()
      requires Valid()
      modifies this`seed, this`simulationOn, this`turn, this`board, this`pendingInsert, this`pendingInsertSeed
      ensures Valid() && seed == None && !simulationOn && turn == 0
      ensures !pendingInsert && pendingInsertSeed == None
      ensures board == EmptyGrid(rows, cols)
    {
      seed := None;
      var _ := RestartSimulation();
    }

    /**
      `seed_game` (life.py:247-251): clear everything, record the named seed
      and stamp it at (0, 0) on the empty board. An unknown name raises
      KeyError after the clear (`ok` false, nothing recorded); so does a seed
      too large for the board, after stamping what fits.
     */
    method SeedGame(name: string) returns (ok: bool)
      requires Valid()
      modifies this`seed, this`simulationOn, this`turn, this`board, this`pendingInsert, this`pendingInsertSeed
      ensures Valid() && !simulationOn && turn == 0
      ensures !pendingInsert && pendingInsertSeed == None
      ensures seed == Catalog.GetSeed(name)
      ensures seed.None? ==> !ok && board == EmptyGrid(rows, cols)
      ensures seed.Some? ==> Placement(board, ok) == Place(EmptyGrid(rows, cols), Rows(seed.value), 0, 0)
      ensures seed.Some? && rows == 25 && cols == 40 ==> ok
      ensures NoStaleBirth(board)
    {
      ClearSimulation();
      var text := Catalog.GetSeed(name);
      if text.None? {
        return false;
      }
      assert DigitsOnly(Rows(text.value)) by {
        Catalog.SeedCatalog(name);
      }
      ok := RecordSeed(text.value);
      if rows == 25 && cols == 40 {
        assert ok by {
          SeedsFitDefaultBoard(name);
        }
      }
    }

    /**
      The second half of `seed_game` (life.py:250-251) on the cleared board:
      record the seed text, then stamp it at (0, 0).
     */
    method RecordSeed(text: string) returns (ok: bool)
      requires Valid() && DigitsOnly(Rows(text)) && board == EmptyGrid(rows, cols)
      modifies this`seed, this`board
      ensures Valid() && seed == Some(text)
      ensures Placement(board, ok) == Place(EmptyGrid(rows, cols), Rows(text), 0, 0)
      ensures NoStaleBirth(board)
    {
      seed := Some(text);
      ok := ParseSeedVal(text, 0, 0);
      assert NoStaleBirth(board) by {
        PlaceAdditive(EmptyGrid(rows, cols), Rows(text), 0, 0);
      }
    }

    /**
      `add_pending_insert` (life.py:242-244): remember the named entity for
      the next cell click. An unknown name raises KeyError and changes nothing.
     */
    method AddPendingInsert(name: string) returns (ok: bool)
      requires Valid()
      modifies this`pendingInsert, this`pendingInsertSeed
      ensures Valid()
      ensures ok == Catalog.GetEntity(name).Some?
      ensures ok ==> pendingInsert && pendingInsertSeed == Catalog.GetEntity(name)
      ensures !ok ==> pendingInsert == old(pendingInsert) && pendingInsertSeed == old(pendingInsertSeed)
    {
      var text := Catalog.GetEntity(name);
      if text.None? {
        return false;
      }
      Catalog.EntityCatalog(name);
      pendingInsertSeed := text;
      pendingInsert := true;
      ok := true;
    }

    /**
      `game_loop` (life.py:29-43) fired at time `now`: while the simulation
      runs, advance one turn when a whole tick has passed since the last one,
      and ask to be called again after `CycleSpeed` ms.
     */
    method GameLoop(now: int) returns (after: Option<nat>)
      requires Valid()
      modifies this`lastTurnTimestamp, this`turn, this`board
      ensures Valid()
      ensures after == if simulationOn then Some(CycleSpeed) else None
      ensures if simulationOn && now - old(lastTurnTimestamp) >= gameSpeed
        then turn == old(turn) + 1 && board == Step(old(board)) && lastTurnTimestamp == now
        else turn == old(turn) && board == old(board) && lastTurnTimestamp == old(lastTurnTimestamp)
    {
      after := None;
      if simulationOn {
        if now - lastTurnTimestamp >= gameSpeed {
          lastTurnTimestamp := now;
          turn := turn + 1;
          AdvanceSimulation();
        }
        after := Some(CycleSpeed);
      }
    }

    /**
      `start_pause_simulation` (life.py:203-206) at time `now`: flip the run
      flag; when it turns on, the tick loop runs once at once.
     */
    method StartPauseSimulation(now: int) returns (after: Option<nat>)
      requires Valid()
      modifies this`simulationOn, this`lastTurnTimestamp, this`turn, this`board
      ensures Valid() && simulationOn == !old(simulationOn)
      ensures !simulationOn ==> after == None && turn == old(turn) && board == old(board)
      ensures simulationOn ==> after == Some(CycleSpeed)
      ensures simulationOn && now - old(lastTurnTimestamp) >= gameSpeed ==>
        turn == old(turn) + 1 && board == Step(old(board)) && lastTurnTimestamp == now
      ensures simulationOn && now - old(lastTurnTimestamp) < gameSpeed ==>
        turn == old(turn) && board == old(board)
      ensures !(simulationOn && now - old(lastTurnTimestamp) >= gameSpeed) ==>
        lastTurnTimestamp == old(lastTurnTimestamp)
    {
      simulationOn := !simulationOn;
      after := None;
      if simulationOn {
        after := GameLoop(now);
      }
    }

    /** `adjust_game_speed` (life.py:211-217): set the tick length of a slider level; other levels change nothing. */
    method AdjustGameSpeed(level: int)
      requires Valid()
      modifies this`gameSpeed
      ensures Valid()
      ensures SpeedFor(level).Some? ==> gameSpeed == SpeedFor(level).value
      ensures SpeedFor(level).None? ==> gameSpeed == old(gameSpeed)
    {
      if level == 1 {
        gameSpeed := 2000;
      } else if level == 2 {
        gameSpeed := 1000;
      } else if level == 3 {
        gameSpeed := 500;
      } else if level == 4 {
        gameSpeed := 250;
      } else if level == 5 {
        gameSpeed := 150;
      }
    }

    /**
      `LifeGUI.render_board` (life.py:184-189): the cells it repaints, in
      row-major order, each with the colour it gets. A sparse render
      repaints exactly the cells whose state differs from the previous turn.
     */
    method RenderBoard(sparse: bool) returns (painted: seq<Repaint>)
      requires Valid()
      ensures forall k :: 0 <= k < |painted| ==>
        Repaints(board, sparse, painted[k].row, painted[k].col)
        && painted[k].alive == board[painted[k].row][painted[k].col].alive
      ensures forall r, c :: Repaints(board, sparse, r, c) ==> Repaint(r, c, board[r][c].alive) in painted
      ensures forall k :: 0 < k < |painted| ==>
        Before(painted[k - 1].row, painted[k - 1].col, painted[k].row, painted[k].col)
    {
      var g := board;
      painted := [];
      var r := 0;
      while r < rows
        invariant 0 <= r <= rows
        invariant PaintedUpTo(painted, g, sparse, r, 0)
      {
        painted := RenderRow(g, sparse, r, cols, painted);
        r := r + 1;
      }
      PaintedAll(painted, g, sparse);
    }
  }

  /**
    The start-up of life.py:253-255: a 25 by 40 game seeded with 'Pulsars',
    a name the catalog does not know, so the seed lookup raises after the
    clear. The result is the state at that raise; in the source nothing
    catches it, and the program ends before the main loop starts.
   */
  method Startup(now: int) returns (game: LifeGame, ok: bool)
    ensures fresh(game) && game.Valid() && game.rows == 25 && game.cols == 40
    ensures !ok && game.seed == None && game.board == EmptyGrid(25, 40) && game.turn == 0
  {
    game := new LifeGame(25, 40, now);
    ok := game.SeedGame("Pulsars");
  }
}
