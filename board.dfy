/**
  The board semantics of life.py as values: the Moore-neighbour count, the
  per-cell rule, the two-phase generation step, pattern placement with its
  partial failure, the single-cell toggle and the set of cells a render
  repaints. The class `Life.LifeGame` is proved against these functions.
 */
module Board {
  import opened Wrappers
  import opened PatternFormat

  /** One cell's flags (life.py:50-52); the cell's position is its index in the grid. */
  datatype Cell = Cell(alive: bool, aliveNext: bool, alivePrev: bool)

  /** The board: a list of rows of cells (life.py:16). */
  type Grid = seq<seq<Cell>>

  const DeadCell := Cell(false, false, false)

  predicate IsGrid(g: Grid, rows: nat, cols: nat)
  {
    |g| == rows && forall r :: 0 <= r < rows ==> |g[r]| == cols
  }

  /** Two grids of the same shape. */
  predicate SameShape(a: Grid, b: Grid)
  {
    |a| == |b| && forall r :: 0 <= r < |a| ==> |a[r]| == |b[r]|
  }

  /** A board whose every flag is false: after construction and after `clear_board` (life.py:16, 219-224). */
  function EmptyGrid(rows: nat, cols: nat): (g: Grid)
    ensures IsGrid(g, rows, cols)
    ensures forall r, c :: 0 <= r < rows && 0 <= c < cols ==> g[r][c] == DeadCell
  {
    seq(rows, _ => seq(cols, _ => DeadCell))
  }

  lemma GridsEqual(a: Grid, b: Grid)
    requires SameShape(a, b)
    requires forall r, c :: 0 <= r < |a| && 0 <= c < |a[r]| ==> a[r][c] == b[r][c]
    ensures a == b
  {
    forall r | 0 <= r < |a|
      ensures a[r] == b[r]
    {
    }
  }

  // ---------------------------------------------------------------------
  // Neighbour count (life.py:76-84)
  // ---------------------------------------------------------------------

  /** (r, c) addresses a cell of the board; nothing is wrapped around. */
  predicate OnBoard(g: Grid, r: int, c: int)
  {
    0 <= r < |g| && 0 <= c < |g[r]|
  }

  /** The test of life.py:83: on the board and alive. */
  predicate AliveAt(g: Grid, r: int, c: int)
  {
    OnBoard(g, r, c) && g[r][c].alive
  }

  /** The eight Moore neighbours of (r, c), in the order of life.py:79. */
  function Neighbors(r: int, c: int): seq<(int, int)>
  {
    [(r - 1, c - 1), (r - 1, c), (r - 1, c + 1), (r, c - 1), (r, c + 1), (r + 1, c - 1), (r + 1, c), (r + 1, c + 1)]
  }

  /** How many positions of `ps` hold a live cell of the board. */
  function CountAlive(g: Grid, ps: seq<(int, int)>): (n: nat)
    ensures n <= |ps|
  {
    if ps == [] then 0
    else CountAlive(g, ps[..|ps| - 1]) + (if AliveAt(g, ps[|ps| - 1].0, ps[|ps| - 1].1) then 1 else 0)
  }

  /** `get_neighbor_count` of the cell at (r, c). */
  function NeighborCount(g: Grid, r: int, c: int): (n: nat)
    ensures n <= 8
  {
    CountAlive(g, Neighbors(r, c))
  }

  /** Reference definition: the live cells of the 3x3 square around (r, c), other than (r, c) itself. */
  ghost function LiveNeighbors(g: Grid, r: int, c: int): set<(int, int)>
  {
    set i, j | r - 1 <= i <= r + 1 && c - 1 <= j <= c + 1 && (i, j) != (r, c) && AliveAt(g, i, j) :: (i, j)
  }

  ghost function AliveAmong(g: Grid, ps: seq<(int, int)>): set<(int, int)>
  {
    set p | p in ps && AliveAt(g, p.0, p.1)
  }

  lemma AliveAmongSnoc(g: Grid, init: seq<(int, int)>, last: (int, int))
    ensures AliveAmong(g, init + [last]) == AliveAmong(g, init) + (if AliveAt(g, last.0, last.1) then {last} else {})
  {
  }

  lemma {:induction false} CountAliveIsCardinality(g: Grid, ps: seq<(int, int)>)
    requires forall i, j :: 0 <= i < j < |ps| ==> ps[i] != ps[j]
    ensures CountAlive(g, ps) == |AliveAmong(g, ps)|
  {
    if ps != [] {
      var init, last := ps[..|ps| - 1], ps[|ps| - 1];
      CountAliveIsCardinality(g, init);
      assert ps == init + [last];
      AliveAmongSnoc(g, init, last);
      assert last !in init by {
        forall i | 0 <= i < |init| ensures init[i] != last {
          assert init[i] == ps[i];
        }
      }
    }
  }

  lemma NeighborsDistinct(r: int, c: int)
    ensures forall i, j :: 0 <= i < j < 8 ==> Neighbors(r, c)[i] != Neighbors(r, c)[j]
  {
  }

  lemma NeighborsListLiveNeighbors(g: Grid, r: int, c: int)
    ensures AliveAmong(g, Neighbors(r, c)) == LiveNeighbors(g, r, c)
  {
    var ns := Neighbors(r, c);
    forall p | p in LiveNeighbors(g, r, c)
      ensures p in AliveAmong(g, ns)
    {
      if p.0 == r - 1 {
        assert p == ns[0] || p == ns[1] || p == ns[2];
      } else if p.0 == r {
        assert p == ns[3] || p == ns[4];
      } else {
        assert p == ns[5] || p == ns[6] || p == ns[7];
      }
    }
  }

  /**
    The count is the number of live cells among the eight Moore neighbours
    that lie on the board: off-board neighbours, negative indices included,
    are skipped and never wrapped.
   */
  lemma NeighborCountIsLiveNeighbors(g: Grid, r: int, c: int)
    ensures NeighborCount(g, r, c) == |LiveNeighbors(g, r, c)|
  {
    NeighborsDistinct(r, c);
    CountAliveIsCardinality(g, Neighbors(r, c));
    NeighborsListLiveNeighbors(g, r, c);
  }

  function Bit(b: bool): nat
  {
    if b then 1 else 0
  }

  function SumBits(g: Grid, ps: seq<(int, int)>, k: nat): nat
    requires k <= |ps|
  {
    if k == 0 then 0 else SumBits(g, ps, k - 1) + Bit(AliveAt(g, ps[k - 1].0, ps[k - 1].1))
  }

  /** The count written out as a sum of the eight neighbour tests. */
  lemma NeighborCountSum(g: Grid, r: int, c: int)
    ensures NeighborCount(g, r, c)
      == Bit(AliveAt(g, r - 1, c - 1)) + Bit(AliveAt(g, r - 1, c)) + Bit(AliveAt(g, r - 1, c + 1))
       + Bit(AliveAt(g, r, c - 1)) + Bit(AliveAt(g, r, c + 1))
       + Bit(AliveAt(g, r + 1, c - 1)) + Bit(AliveAt(g, r + 1, c)) + Bit(AliveAt(g, r + 1, c + 1))
  {
    var ns := Neighbors(r, c);
    assert ns[..0] == [];
    for k := 0 to 8
      invariant CountAlive(g, ns[..k]) == SumBits(g, ns, k)
    {
      assert ns[..k + 1][..k] == ns[..k];
    }
    assert ns[..8] == ns;
    assert SumBits(g, ns, 2) == Bit(AliveAt(g, r - 1, c - 1)) + Bit(AliveAt(g, r - 1, c));
    assert SumBits(g, ns, 4) == SumBits(g, ns, 2) + Bit(AliveAt(g, r - 1, c + 1)) + Bit(AliveAt(g, r, c - 1));
    assert SumBits(g, ns, 6) == SumBits(g, ns, 4) + Bit(AliveAt(g, r, c + 1)) + Bit(AliveAt(g, r + 1, c - 1));
  }

  /** Two boards of one shape whose cells agree on `alive`. */
  predicate SameAlive(a: Grid, b: Grid)
  {
    SameShape(a, b) && forall r, c :: 0 <= r < |a| && 0 <= c < |a[r]| ==> a[r][c].alive == b[r][c].alive
  }

  /** The count reads only the `alive` flags. */
  lemma {:induction false} CountAliveFrame(a: Grid, b: Grid, ps: seq<(int, int)>)
    requires SameAlive(a, b)
    ensures CountAlive(a, ps) == CountAlive(b, ps)
  {
    if ps != [] {
      CountAliveFrame(a, b, ps[..|ps| - 1]);
    }
  }

  // ---------------------------------------------------------------------
  // The rule and the generation step (life.py:86-101)
  // ---------------------------------------------------------------------

  /** Conway's rule: birth on exactly 3 live neighbours, survival on 2 or 3. */
  predicate LifeRule(alive: bool, n: nat)
    ensures LifeRule(alive, n) <==> if alive then 2 <= n <= 3 else n == 3
  {
    n == 3 || (alive && n == 2)
  }

  /**
    The if/elif chain of life.py:93-95 as the value `alive_next_turn` holds
    after it: a dead cell with exactly two neighbours is assigned nothing and
    keeps its previous scratch value.
   */
  function NextAlive(alive: bool, n: nat, scratch: bool): (next: bool)
    ensures alive || n != 2 ==> next == LifeRule(alive, n)
    ensures !alive && n == 2 ==> next == scratch
  {
    if n < 2 || n > 3 then false
    else if alive then true
    else if n == 3 then true
    else scratch
  }

  /** Phase one for one cell: its scratch flag planned from the untouched board. */
  function PlanCell(g: Grid, r: nat, c: nat): (planned: Cell)
    requires OnBoard(g, r, c)
    ensures planned.alive == g[r][c].alive && planned.alivePrev == g[r][c].alivePrev
    ensures g[r][c].alive || NeighborCount(g, r, c) != 2 ==>
      planned.aliveNext == LifeRule(g[r][c].alive, NeighborCount(g, r, c))
  {
    g[r][c].(aliveNext := NextAlive(g[r][c].alive, NeighborCount(g, r, c), g[r][c].aliveNext))
  }

  /** Phase one over the whole board (life.py:89-95). */
  function Plan(g: Grid): (planned: Grid)
    ensures SameShape(planned, g)
    ensures forall r, c :: OnBoard(g, r, c) ==>
      planned[r][c].alive == g[r][c].alive && planned[r][c].alivePrev == g[r][c].alivePrev
  {
    seq(|g|, r requires 0 <= r < |g| => seq(|g[r]|, c requires 0 <= c < |g[r]| => PlanCell(g, r, c)))
  }

  /** Phase two for one cell: remember the current state, then commit the planned one (life.py:100-101). */
  function CommitCell(cell: Cell): (next: Cell)
    ensures next.alive == next.aliveNext
    ensures next.alive == cell.aliveNext && next.alivePrev == cell.alive
  {
    Cell(cell.aliveNext, cell.aliveNext, cell.alive)
  }

  /** Phase two over the whole board (life.py:97-101). */
  function Commit(g: Grid): (committed: Grid)
    ensures SameShape(committed, g)
    ensures forall r, c :: OnBoard(g, r, c) ==>
      committed[r][c].alive == g[r][c].aliveNext && committed[r][c].alivePrev == g[r][c].alive
  {
    seq(|g|, r requires 0 <= r < |g| => seq(|g[r]|, c requires 0 <= c < |g[r]| => CommitCell(g[r][c])))
  }

  /** `advance_simulation`: plan every cell, then commit every cell. */
  function Step(g: Grid): (next: Grid)
    ensures SameShape(next, g)
    ensures forall r, c :: OnBoard(g, r, c) ==> next[r][c].alivePrev == g[r][c].alive
  {
    Commit(Plan(g))
  }

  /** `b` is `g` with the cells before (r, c), in row-major order, planned. */
  ghost predicate PlannedUpTo(b: Grid, g: Grid, r: nat, c: nat)
  {
    && SameShape(b, g)
    && forall i, j :: OnBoard(g, i, j) ==> b[i][j] == if Before(i, j, r, c) then PlanCell(g, i, j) else g[i][j]
  }

  /** One cell of phase one: it still holds its pre-step flags, its neighbours their pre-step `alive`. */
  lemma PlannedNextCell(b: Grid, g: Grid, r: nat, c: nat)
    requires PlannedUpTo(b, g, r, c) && OnBoard(g, r, c)
    ensures SameAlive(b, g) && b[r][c] == g[r][c]
    ensures PlannedUpTo(b[r := b[r][c := PlanCell(g, r, c)]], g, r, c + 1)
    ensures PlanCell(g, r, c) == g[r][c] ==> PlannedUpTo(b, g, r, c + 1)
  {
  }

  lemma PlannedNextRow(b: Grid, g: Grid, r: nat, cols: nat)
    requires IsGrid(g, |g|, cols) && PlannedUpTo(b, g, r, cols)
    ensures PlannedUpTo(b, g, r + 1, 0)
  {
  }

  lemma PlannedAll(b: Grid, g: Grid)
    requires PlannedUpTo(b, g, |g|, 0)
    ensures b == Plan(g)
  {
    GridsEqual(b, Plan(g));
  }

  /** `b` is `g` with the cells before (r, c), in row-major order, committed. */
  ghost predicate CommittedUpTo(b: Grid, g: Grid, r: nat, c: nat)
  {
    && SameShape(b, g)
    && forall i, j :: OnBoard(g, i, j) ==> b[i][j] == if Before(i, j, r, c) then CommitCell(g[i][j]) else g[i][j]
  }

  lemma CommittedNextCell(b: Grid, g: Grid, r: nat, c: nat)
    requires CommittedUpTo(b, g, r, c) && OnBoard(g, r, c)
    ensures b[r][c] == g[r][c]
    ensures CommittedUpTo(b[r := b[r][c := CommitCell(g[r][c])]], g, r, c + 1)
  {
  }

  lemma CommittedNextRow(b: Grid, g: Grid, r: nat, cols: nat)
    requires IsGrid(g, |g|, cols) && CommittedUpTo(b, g, r, cols)
    ensures CommittedUpTo(b, g, r + 1, 0)
  {
  }

  lemma CommittedAll(b: Grid, g: Grid)
    requires CommittedUpTo(b, g, |g|, 0)
    ensures b == Commit(g)
  {
    GridsEqual(b, Commit(g));
  }

  /**
    After a step every cell's `alivePrev` is its pre-step `alive`, and its
    `alive` (and `aliveNext`) is what the rule computes from the pre-step
    board, so no cell saw a partly updated neighbourhood.
   */
  lemma StepCell(g: Grid, r: nat, c: nat)
    requires OnBoard(g, r, c)
    ensures SameShape(Step(g), g)
    ensures var v := NextAlive(g[r][c].alive, NeighborCount(g, r, c), g[r][c].aliveNext);
      Step(g)[r][c] == Cell(v, v, g[r][c].alive)
  {
  }

  /** No dead cell holds a stale `alive_next_turn == True`. */
  ghost predicate NoStaleBirth(g: Grid)
  {
    forall r, c :: OnBoard(g, r, c) ==> g[r][c].alive || !g[r][c].aliveNext
  }

  /** Under the invariant a step is exactly Conway's rule, and the invariant holds afterwards. */
  lemma StepIsLife(g: Grid)
    requires NoStaleBirth(g)
    ensures SameShape(Step(g), g)
    ensures forall r, c :: OnBoard(g, r, c) ==> Step(g)[r][c].alive == LifeRule(g[r][c].alive, NeighborCount(g, r, c))
    ensures NoStaleBirth(Step(g))
  {
    forall r, c | OnBoard(g, r, c)
      ensures Step(g)[r][c].alive == LifeRule(g[r][c].alive, NeighborCount(g, r, c))
    {
      StepCell(g, r, c);
    }
  }

  /** Whatever the board, a step leaves every `aliveNext` equal to `alive`, so the invariant holds after it. */
  lemma StepRestoresNoStaleBirth(g: Grid)
    ensures NoStaleBirth(Step(g))
  {
  }

  /**
    Under the invariant the step is a function of the pre-step `alive` flags
    alone: two such boards that agree on them step to the same board.
   */
  lemma StepReadsOnlyAlive(a: Grid, b: Grid)
    requires SameAlive(a, b) && NoStaleBirth(a) && NoStaleBirth(b)
    ensures Step(a) == Step(b)
  {
    forall r, c | 0 <= r < |a| && 0 <= c < |a[r]|
      ensures Step(a)[r][c] == Step(b)[r][c]
    {
      CountAliveFrame(a, b, Neighbors(r, c));
    }
    GridsEqual(Step(a), Step(b));
  }

  /** A board with no live cell. */
  ghost predicate AllDead(g: Grid)
  {
    forall r, c :: OnBoard(g, r, c) ==> !g[r][c].alive
  }

  lemma {:induction false} CountAliveAllDead(g: Grid, ps: seq<(int, int)>)
    requires AllDead(g)
    ensures CountAlive(g, ps) == 0
  {
    if ps != [] {
      CountAliveAllDead(g, ps[..|ps| - 1]);
    }
  }

  /** An all-dead board stays all dead, whatever its scratch flags hold. */
  lemma AllDeadStaysDead(g: Grid)
    requires AllDead(g)
    ensures AllDead(Step(g))
  {
    forall r, c | OnBoard(g, r, c)
      ensures !Step(g)[r][c].alive
    {
      CountAliveAllDead(g, Neighbors(r, c));
    }
  }

  /** The cells alive on `g` are exactly those for which `shape` holds; `shape` holds nowhere off the board. */
  ghost predicate AliveExactly(g: Grid, shape: (int, int) -> bool)
  {
    (forall r, c :: OnBoard(g, r, c) ==> (g[r][c].alive <==> shape(r, c)))
    && (forall r, c :: shape(r, c) ==> OnBoard(g, r, c))
  }

  lemma AliveAtExactly(g: Grid, shape: (int, int) -> bool, r: int, c: int)
    requires AliveExactly(g, shape)
    ensures AliveAt(g, r, c) == shape(r, c)
  {
  }

  /** The 2x2 block with top-left corner (r0, c0). */
  function Block(r0: int, c0: int): (int, int) -> bool
  {
    (r, c) => r0 <= r <= r0 + 1 && c0 <= c <= c0 + 1
  }

  /** A block is a still life under the invariant: a step leaves it unchanged and repaints nothing. */
  lemma BlockIsStill(g: Grid, r0: int, c0: int)
    requires NoStaleBirth(g) && AliveExactly(g, Block(r0, c0))
    ensures AliveExactly(Step(g), Block(r0, c0))
    ensures forall r, c :: OnBoard(g, r, c) ==> Step(g)[r][c].alive == Step(g)[r][c].alivePrev
  {
    var shape := Block(r0, c0);
    forall r, c | OnBoard(g, r, c)
      ensures Step(g)[r][c].alive == shape(r, c)
    {
      StepCell(g, r, c);
      NeighborCountSum(g, r, c);
      forall i, j ensures AliveAt(g, i, j) == shape(i, j) {
        AliveAtExactly(g, shape, i, j);
      }
    }
  }

  /** A horizontal blinker centred on (r0, c0). */
  function Horizontal(r0: int, c0: int): (int, int) -> bool
  {
    (r, c) => r == r0 && c0 - 1 <= c <= c0 + 1
  }

  /** A vertical blinker centred on (r0, c0). */
  function Vertical(r0: int, c0: int): (int, int) -> bool
  {
    (r, c) => c == c0 && r0 - 1 <= r <= r0 + 1
  }

  lemma StepShape(g: Grid, from: (int, int) -> bool, to: (int, int) -> bool)
    requires NoStaleBirth(g) && AliveExactly(g, from)
    requires forall r, c :: (forall i, j :: AliveAt(g, i, j) == from(i, j)) && OnBoard(g, r, c) ==>
      LifeRule(from(r, c), NeighborCount(g, r, c)) == to(r, c)
    requires forall r, c :: to(r, c) ==> OnBoard(g, r, c)
    ensures AliveExactly(Step(g), to)
  {
    forall i, j ensures AliveAt(g, i, j) == from(i, j) {
      AliveAtExactly(g, from, i, j);
    }
    StepIsLife(g);
  }

  lemma HorizontalToVertical(g: Grid, r0: int, c0: int)
    requires NoStaleBirth(g) && AliveExactly(g, Horizontal(r0, c0))
    requires IsGrid(g, |g|, if |g| == 0 then 0 else |g[0]|)
    requires 1 <= r0 < |g| - 1
    ensures AliveExactly(Step(g), Vertical(r0, c0))
  {
    var h, v := Horizontal(r0, c0), Vertical(r0, c0);
    assert OnBoard(g, r0, c0 - 1) && OnBoard(g, r0, c0 + 1) by {
      assert h(r0, c0 - 1) && h(r0, c0 + 1);
    }
    forall r, c | (forall i, j :: AliveAt(g, i, j) == h(i, j)) && OnBoard(g, r, c)
      ensures LifeRule(h(r, c), NeighborCount(g, r, c)) == v(r, c)
    {
      NeighborCountSum(g, r, c);
    }
    StepShape(g, h, v);
  }

  lemma VerticalToHorizontal(g: Grid, r0: int, c0: int)
    requires NoStaleBirth(g) && AliveExactly(g, Vertical(r0, c0))
    requires IsGrid(g, |g|, if |g| == 0 then 0 else |g[0]|)
    requires 1 <= c0 && c0 + 1 < (if |g| == 0 then 0 else |g[0]|)
    ensures AliveExactly(Step(g), Horizontal(r0, c0))
  {
    var h, v := Horizontal(r0, c0), Vertical(r0, c0);
    assert OnBoard(g, r0 - 1, c0) && OnBoard(g, r0 + 1, c0) by {
      assert v(r0 - 1, c0) && v(r0 + 1, c0);
    }
    forall r, c | (forall i, j :: AliveAt(g, i, j) == v(i, j)) && OnBoard(g, r, c)
      ensures LifeRule(v(r, c), NeighborCount(g, r, c)) == h(r, c)
    {
      NeighborCountSum(g, r, c);
    }
    StepShape(g, v, h);
  }

  /** A blinker flips from horizontal to vertical and back: it oscillates with period 2. */
  lemma BlinkerOscillates(g: Grid, r0: int, c0: int)
    requires NoStaleBirth(g) && AliveExactly(g, Horizontal(r0, c0))
    requires IsGrid(g, |g|, if |g| == 0 then 0 else |g[0]|)
    requires 1 <= r0 < |g| - 1
    ensures AliveExactly(Step(g), Vertical(r0, c0))
    ensures AliveExactly(Step(Step(g)), Horizontal(r0, c0))
  {
    HorizontalToVertical(g, r0, c0);
    StepIsLife(g);
    assert OnBoard(g, r0, c0 - 1) && OnBoard(g, r0, c0 + 1) by {
      assert Horizontal(r0, c0)(r0, c0 - 1) && Horizontal(r0, c0)(r0, c0 + 1);
    }
    VerticalToHorizontal(Step(g), r0, c0);
  }

  /**
    The stale scratch value is observable: a row of three live cells after a
    step, whose middle cell is then toggled dead, keeps `aliveNext` true in
    that cell; with its two neighbours the next step brings it back to life,
    which Conway's rule would not.
   */
  lemma StaleScratchRevives()
    ensures var live := Cell(true, true, false);
      var g := [[live, live, live]];
      var t := Toggle(g, 0, 1);
      NoStaleBirth(g) && !NoStaleBirth(t)
      && NeighborCount(t, 0, 1) == 2
      && !t[0][1].alive && Step(t)[0][1].alive
      && !LifeRule(t[0][1].alive, NeighborCount(t, 0, 1))
  {
    var live := Cell(true, true, false);
    var g := [[live, live, live]];
    var t := Toggle(g, 0, 1);
    NeighborCountSum(t, 0, 1);
    StepCell(t, 0, 1);
  }

  // ---------------------------------------------------------------------
  // Toggling one cell (life.py:71-72)
  // ---------------------------------------------------------------------

  /** `toggle_cell_value`: flip `alive` of one cell. */
  function Toggle(g: Grid, r: nat, c: nat): (t: Grid)
    requires OnBoard(g, r, c)
    ensures SameShape(t, g)
    ensures forall i, j :: OnBoard(g, i, j) ==>
      t[i][j] == if i == r && j == c then g[i][j].(alive := !g[i][j].alive) else g[i][j]
  {
    g[r := g[r][c := g[r][c].(alive := !g[r][c].alive)]]
  }

  /** A toggle keeps the invariant unless it kills a cell whose scratch flag is set. */
  lemma ToggleNoStaleBirth(g: Grid, r: nat, c: nat)
    requires OnBoard(g, r, c) && NoStaleBirth(g)
    ensures NoStaleBirth(Toggle(g, r, c)) <==> !(g[r][c].alive && g[r][c].aliveNext)
  {
    var t := Toggle(g, r, c);
    if g[r][c].alive && g[r][c].aliveNext {
      assert OnBoard(t, r, c) && !t[r][c].alive && t[r][c].aliveNext;
    }
  }

  // ---------------------------------------------------------------------
  // Pattern placement (life.py:228-238)
  // ---------------------------------------------------------------------

  /** Row-major order on pattern positions: (i, j) is visited before (i', j'). */
  predicate Before(i: int, j: int, i': int, j': int)
  {
    i < i' || (i == i' && j < j')
  }

  /** The character is a positive digit: `int(col) > 0` (life.py:237). */
  predicate Lit(ch: char)
  {
    IsDigit(ch) && DigitValue(ch) > 0
  }

  /** (i, j) is a character of the pattern rows and it is a positive digit. */
  predicate Marks(rows: seq<string>, i: int, j: int)
  {
    0 <= i < |rows| && 0 <= j < |rows[i]| && Lit(rows[i][j])
  }

  /**
    The first position, in row-major order from (i, j) on, that marks a cell
    off the board when the pattern is placed with its top-left at (dr, dc).
   */
  function MissFrom(g: Grid, rows: seq<string>, dr: nat, dc: nat, i: nat, j: nat): (m: Option<(nat, nat)>)
    requires i <= |rows| && (i < |rows| ==> j <= |rows[i]|)
    ensures m.None? ==> forall i', j' :: Marks(rows, i', j') && !Before(i', j', i, j) ==> OnBoard(g, dr + i', dc + j')
    ensures m.Some? ==>
      && Marks(rows, m.value.0, m.value.1) && !Before(m.value.0, m.value.1, i, j)
      && !OnBoard(g, dr + m.value.0, dc + m.value.1)
      && (forall i', j' :: Marks(rows, i', j') && !Before(i', j', i, j) && Before(i', j', m.value.0, m.value.1) ==>
            OnBoard(g, dr + i', dc + j'))
    decreases |rows| - i, if i < |rows| then |rows[i]| - j else 0
  {
    if i == |rows| then None
    else if j == |rows[i]| then MissFrom(g, rows, dr, dc, i + 1, 0)
    else if Lit(rows[i][j]) && !OnBoard(g, dr + i, dc + j) then Some((i, j))
    else MissFrom(g, rows, dr, dc, i, j + 1)
  }

  /** Where placement stops: the first off-board mark, or past the last row when there is none. */
  function StopAt(g: Grid, rows: seq<string>, dr: nat, dc: nat): (stop: (nat, nat))
    ensures stop.0 <= |rows|
    ensures stop.0 < |rows| ==> Marks(rows, stop.0, stop.1) && !OnBoard(g, dr + stop.0, dc + stop.1)
    ensures forall i, j :: Marks(rows, i, j) && Before(i, j, stop.0, stop.1) ==> OnBoard(g, dr + i, dc + j)
  {
    match MissFrom(g, rows, dr, dc, 0, 0)
    case None => (|rows|, 0)
    case Some(p) => p
  }

  /** (r, c) is marked by a pattern position that comes before `stop`. */
  predicate Covered(rows: seq<string>, dr: nat, dc: nat, stop: (nat, nat), r: int, c: int)
  {
    Marks(rows, r - dr, c - dc) && Before(r - dr, c - dc, stop.0, stop.1)
  }

  /** The board after every mark before `stop` has set its cell alive. */
  function Stamp(g: Grid, rows: seq<string>, dr: nat, dc: nat, stop: (nat, nat)): (stamped: Grid)
    ensures SameShape(stamped, g)
    ensures forall r, c :: OnBoard(g, r, c) ==>
      && (stamped[r][c].alive <==> g[r][c].alive || Covered(rows, dr, dc, stop, r, c))
      && stamped[r][c].aliveNext == g[r][c].aliveNext && stamped[r][c].alivePrev == g[r][c].alivePrev
  {
    seq(|g|, r requires 0 <= r < |g| => seq(|g[r]|, c requires 0 <= c < |g[r]| =>
      if Covered(rows, dr, dc, stop, r, c) then g[r][c].(alive := true) else g[r][c]))
  }

  /** Set one cell alive, its other flags kept: `board[r][c].alive = True` (life.py:238). */
  function SetAlive(g: Grid, r: nat, c: nat): Grid
    requires OnBoard(g, r, c)
  {
    g[r := g[r][c := g[r][c].(alive := true)]]
  }

  /** `b` is `g` with every mark before `stop` set alive. */
  ghost predicate StampedUpTo(b: Grid, g: Grid, rows: seq<string>, dr: nat, dc: nat, stop: (nat, nat))
  {
    && SameShape(b, g)
    && forall r, c :: OnBoard(g, r, c) ==>
         b[r][c] == if Covered(rows, dr, dc, stop, r, c) then g[r][c].(alive := true) else g[r][c]
  }

  /** Every mark before (i, j) lands on the board. */
  ghost predicate FitsBefore(g: Grid, rows: seq<string>, dr: nat, dc: nat, i: nat, j: nat)
  {
    forall i', j' :: Marks(rows, i', j') && Before(i', j', i, j) ==> OnBoard(g, dr + i', dc + j')
  }

  lemma StampedNothing(g: Grid, rows: seq<string>, dr: nat, dc: nat)
    ensures StampedUpTo(g, g, rows, dr, dc, (0, 0)) && FitsBefore(g, rows, dr, dc, 0, 0)
  {
  }

  /** One character of the placement loop: a positive digit on the board is set, anything else skipped. */
  lemma StampedNextChar(b: Grid, g: Grid, rows: seq<string>, dr: nat, dc: nat, i: nat, j: nat)
    requires i < |rows| && j < |rows[i]|
    requires StampedUpTo(b, g, rows, dr, dc, (i, j)) && FitsBefore(g, rows, dr, dc, i, j)
    requires Marks(rows, i, j) ==> OnBoard(g, dr + i, dc + j)
    ensures Marks(rows, i, j) ==>
      OnBoard(b, dr + i, dc + j) && StampedUpTo(SetAlive(b, dr + i, dc + j), g, rows, dr, dc, (i, j + 1))
    ensures !Marks(rows, i, j) ==> StampedUpTo(b, g, rows, dr, dc, (i, j + 1))
    ensures FitsBefore(g, rows, dr, dc, i, j + 1)
  {
  }

  /** The end of one pattern row: continuing at the start of the next row changes nothing. */
  lemma StampedNextRow(b: Grid, g: Grid, rows: seq<string>, dr: nat, dc: nat, i: nat)
    requires i < |rows|
    requires StampedUpTo(b, g, rows, dr, dc, (i, |rows[i]|)) && FitsBefore(g, rows, dr, dc, i, |rows[i]|)
    ensures StampedUpTo(b, g, rows, dr, dc, (i + 1, 0)) && FitsBefore(g, rows, dr, dc, i + 1, 0)
  {
  }

  /** The loop stops at an off-board mark: that is where placement fails. */
  lemma StampedFails(b: Grid, g: Grid, rows: seq<string>, dr: nat, dc: nat, i: nat, j: nat)
    requires StampedUpTo(b, g, rows, dr, dc, (i, j)) && FitsBefore(g, rows, dr, dc, i, j)
    requires Marks(rows, i, j) && !OnBoard(g, dr + i, dc + j)
    ensures Place(g, rows, dr, dc) == Placement(b, false)
  {
    assert StopAt(g, rows, dr, dc) == (i, j);
    GridsEqual(b, Stamp(g, rows, dr, dc, (i, j)));
  }

  /** The loop runs past the last row: placement completes. */
  lemma StampedAll(b: Grid, g: Grid, rows: seq<string>, dr: nat, dc: nat)
    requires StampedUpTo(b, g, rows, dr, dc, (|rows|, 0)) && FitsBefore(g, rows, dr, dc, |rows|, 0)
    ensures Place(g, rows, dr, dc) == Placement(b, true)
  {
    assert StopAt(g, rows, dr, dc) == (|rows|, 0);
    GridsEqual(b, Stamp(g, rows, dr, dc, (|rows|, 0)));
  }

  /** The board after a placement attempt, and whether it completed without an IndexError. */
  datatype Placement = Placement(grid: Grid, ok: bool)

  /** `parse_seed_val` applied to the rows of a pattern, with its top-left at (dr, dc). */
  function Place(g: Grid, rows: seq<string>, dr: nat, dc: nat): (placed: Placement)
    ensures SameShape(placed.grid, g)
    ensures placed.ok ==> forall i, j :: Marks(rows, i, j) ==> OnBoard(g, dr + i, dc + j)
  {
    Placement(Stamp(g, rows, dr, dc, StopAt(g, rows, dr, dc)), MissFrom(g, rows, dr, dc, 0, 0).None?)
  }

  /** Placement fails exactly when some positive digit maps to a cell off the board. */
  lemma PlaceFailsIff(g: Grid, rows: seq<string>, dr: nat, dc: nat)
    ensures Place(g, rows, dr, dc).ok <==> forall i, j :: Marks(rows, i, j) ==> OnBoard(g, dr + i, dc + j)
  {
  }

  /**
    Placement is additive: it only sets `alive`, never clears a cell and
    never touches `aliveNext` or `alivePrev`, so it keeps the invariant.
   */
  lemma PlaceAdditive(g: Grid, rows: seq<string>, dr: nat, dc: nat)
    ensures SameShape(Place(g, rows, dr, dc).grid, g)
    ensures forall r, c :: OnBoard(g, r, c) ==>
      var after := Place(g, rows, dr, dc).grid[r][c];
      (g[r][c].alive ==> after.alive) && after.aliveNext == g[r][c].aliveNext && after.alivePrev == g[r][c].alivePrev
    ensures NoStaleBirth(g) ==> NoStaleBirth(Place(g, rows, dr, dc).grid)
  {
  }

  /** A completed placement sets exactly the cells its positive digits mark. */
  lemma PlaceSucceeds(g: Grid, rows: seq<string>, dr: nat, dc: nat)
    requires Place(g, rows, dr, dc).ok
    ensures forall r, c :: OnBoard(g, r, c) ==>
      (Place(g, rows, dr, dc).grid[r][c].alive <==> g[r][c].alive || Marks(rows, r - dr, c - dc))
  {
  }

  /**
    A failed placement leaves a partly drawn pattern: there is a first
    positive digit (fi, fj) in row-major order whose cell is off the board;
    every mark before it is on the board and has been set, and nothing from
    (fi, fj) on has.
   */
  lemma PlaceFailsPartway(g: Grid, rows: seq<string>, dr: nat, dc: nat)
    requires !Place(g, rows, dr, dc).ok
    ensures var (fi, fj) := StopAt(g, rows, dr, dc);
      Marks(rows, fi, fj) && !OnBoard(g, dr + fi, dc + fj)
      && (forall i, j :: Marks(rows, i, j) && Before(i, j, fi, fj) ==> OnBoard(g, dr + i, dc + j))
      && forall r, c :: OnBoard(g, r, c) ==>
           (Place(g, rows, dr, dc).grid[r][c].alive <==>
              g[r][c].alive || (Marks(rows, r - dr, c - dc) && Before(r - dr, c - dc, fi, fj)))
  {
  }

  /** Rows that fit in a `height` by `width` area. */
  predicate Within(rows: seq<string>, height: nat, width: nat)
  {
    |rows| <= height && forall i :: 0 <= i < |rows| ==> |rows[i]| <= width
  }

  /** A pattern that fits in the board below and to the right of its offset never fails. */
  lemma PlaceFits(g: Grid, rows: seq<string>, dr: nat, dc: nat, rowCount: nat, colCount: nat)
    requires IsGrid(g, rowCount, colCount)
    requires dr <= rowCount && dc <= colCount && Within(rows, rowCount - dr, colCount - dc)
    ensures Place(g, rows, dr, dc).ok
  {
    PlaceFailsIff(g, rows, dr, dc);
  }

  /** Placing a pattern with no rows changes nothing and succeeds. */
  lemma PlaceNothing(g: Grid, dr: nat, dc: nat)
    ensures Place(g, [], dr, dc) == Placement(g, true)
  {
    GridsEqual(Place(g, [], dr, dc).grid, g);
  }

  // ---------------------------------------------------------------------
  // Rendering (life.py:184-189)
  // ---------------------------------------------------------------------

  /** `render_board` repaints (r, c): always when not sparse, otherwise when the cell changed in the last step. */
  predicate Repaints(g: Grid, sparse: bool, r: int, c: int)
    ensures Repaints(g, sparse, r, c) ==> OnBoard(g, r, c)
    ensures !sparse ==> (Repaints(g, sparse, r, c) <==> OnBoard(g, r, c))
  {
    OnBoard(g, r, c) && (!sparse || g[r][c].alive != g[r][c].alivePrev)
  }

  /** After a step the sparse render repaints exactly the cells the step changed. */
  lemma SparseRenderAfterStep(g: Grid)
    ensures forall r, c :: Repaints(Step(g), true, r, c) <==> OnBoard(g, r, c) && Step(g)[r][c].alive != g[r][c].alive
  {
  }
}
