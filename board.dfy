/**
 * The board engine: one grid with its swap rules, gravity, match marking and
 * clearing, as the base board of both the player and the AI does it.
 *
 * Each operation that rewrites the grid in place is a method of class Board,
 * proved against a function on grid values; the lemmas beside the functions
 * state what the operations mean.
 */
module BoardEngine {
  import opened Blocks

  // =====================================================================
  // Match marking

  /** The state a marked block enters: `cleared` on the initial check, else `clearing`. */
  function ClearingState(initial: bool): State
  {
    if initial then Cleared else Clearing
  }

  /**
   * Which blocks may form a run: on the initial check every block that is not
   * clearing, otherwise idle blocks only.
   */
  function EligibilityFor(initial: bool): Eligibility
  {
    if initial then NotClearing else IdleOnly
  }

  function MarkCell(c: Cell, s: State): Cell
  {
    if c.Block? then c.(state := s) else c
  }

  /** The grid after one match pass: every cell in a run of three enters the clearing state. */
  function MarkMatches(g: Grid, initial: bool): Grid
  {
    seq(Width, x requires 0 <= x < Width =>
      seq(Height, y requires 0 <= y < Height =>
        if InMatch(g, x, y, EligibilityFor(initial)) then MarkCell(g[x][y], ClearingState(initial)) else g[x][y]))
  }

  /**
   * The run-length scan of one row or column: walk the line, extend a run
   * while the next cell is an eligible block of the same colour, mark the run
   * when it is at least three long and continue after it.
   */
  method ScanRuns(line: seq<Cell>, e: Eligibility) returns (marks: seq<bool>)
    ensures |marks| == |line|
    ensures forall i :: 0 <= i < |line| ==> (marks[i] <==> InTriple(line, i, e))
  {
    var n := |line|;
    marks := seq(n, _ => false);
    var x := 0;
    while x < n - 2
      invariant 0 <= x <= n
      invariant |marks| == n
      invariant forall i :: 0 <= i < x ==> (marks[i] <==> InTriple(line, i, e))
      invariant forall i :: x <= i < n ==> !marks[i]
      invariant 0 < x < n ==> !Link(line[x - 1], line[x], e)
    {
      if Eligible(line[x], e) {
        var len := 1;
        while x + len < n && Eligible(line[x + len], e) && line[x + len].kind == line[x].kind
          invariant 1 <= len && x + len <= n
          invariant forall j :: x <= j < x + len ==> Eligible(line[j], e) && line[j].kind == line[x].kind
        {
          len := len + 1;
        }
        if len >= 3 {
          var i := 0;
          while i < len
            invariant 0 <= i <= len
            invariant |marks| == n
            invariant forall j :: 0 <= j < x ==> (marks[j] <==> InTriple(line, j, e))
            invariant forall j :: x <= j < x + i ==> marks[j]
            invariant forall j :: x + i <= j < n ==> !marks[j]
          {
            marks := marks[x + i := true];
            i := i + 1;
          }
        }
        RunIsMaximal(line, e, x, len);
        x := x + len;
      } else {
        x := x + 1;
      }
    }
  }

  /**
   * A maximal run of eligible blocks of one colour: its cells lie in a run of
   * three exactly when the run is at least three long.
   */
  lemma RunIsMaximal(line: seq<Cell>, e: Eligibility, s: int, len: int)
    requires 0 <= s && 1 <= len && s + len <= |line| && Eligible(line[s], e)
    requires forall j :: s <= j < s + len ==> Eligible(line[j], e) && line[j].kind == line[s].kind
    requires 0 < s ==> !Link(line[s - 1], line[s], e)
    requires s + len < |line| ==> !(Eligible(line[s + len], e) && line[s + len].kind == line[s].kind)
    ensures forall i :: s <= i < s + len ==> (InTriple(line, i, e) <==> len >= 3)
  {
    forall i | s <= i < s + len
      ensures InTriple(line, i, e) <==> len >= 3
    {
      if len >= 3 {
        if i - s >= 2 {
          assert Triple(line, i - 2, e);
        } else if s + len - 1 - i >= 2 {
          assert Triple(line, i, e);
        } else {
          assert Triple(line, i - 1, e);
        }
      }
    }
  }

  // =====================================================================
  // Swapping

  /** Exchanges the cells (x, y) and (x + 1, y). */
  function Exchange(g: Grid, x: int, y: int): (r: Grid)
    requires 0 <= x < Width - 1 && 0 <= y < Height
  {
    SetCell(SetCell(g, x, y, g[x + 1][y]), x + 1, y, g[x][y])
  }

  /**
   * The re-targeting walk up a column from row checkY after a block was slid
   * in below: each falling block met lands one row above the current floor
   * and becomes the next floor; empty cells are skipped; any other block ends
   * the walk.
   */
  function Retarget(col: seq<Cell>, checkY: int, floor: int): (r: seq<Cell>)
    requires checkY < |col|
    ensures |r| == |col|
    decreases checkY + 1
  {
    if checkY < 0 then col
    else if col[checkY].Empty? then Retarget(col, checkY - 1, floor)
    else if col[checkY].state == Falling then
      Retarget(col[checkY := col[checkY].(targetY := Some(floor - 1))], checkY - 1, floor - 1)
    else col
  }

  /** Moves the block at (fromX, y) into the empty (toX, y) and re-targets the blocks falling onto it. */
  function Slide(g: Grid, fromX: int, toX: int, y: int): (r: Grid)
    requires InBounds(fromX, y) && InBounds(toX, y) && fromX != toX
  {
    var moved := SetCell(SetCell(g, toX, y, g[fromX][y]), fromX, y, Empty);
    moved[toX := Retarget(moved[toX], y - 1, y)]
  }

  /** What a swap reports and the grid it leaves. */
  datatype SwapOutcome = SwapOutcome(ok: bool, grid: Grid)

  predicate IsIdle(o: Option<Cell>)
  {
    o.Some? && o.value.Block? && o.value.state == Idle
  }

  /**
   * Swapping (x, y) with (x + 1, y). A simulated swap (the AI's) always
   * exchanges the two cells. A real swap slides an idle block into an empty
   * neighbour, or exchanges two idle blocks; anything else is refused and the
   * grid is left alone. Coordinates off the grid read as missing cells.
   */
  function Swap(g: Grid, x: int, y: int, simulation: bool): SwapOutcome
    requires simulation ==> 0 <= x < Width - 1 && 0 <= y < Height
  {
    if simulation then SwapOutcome(true, Exchange(g, x, y))
    else
      var b1 := CellAt(g, x, y);
      var b2 := CellAt(g, x + 1, y);
      if IsIdle(b1) && b2 == Some(Empty) then SwapOutcome(true, Slide(g, x, x + 1, y))
      else if IsIdle(b2) && b1 == Some(Empty) then SwapOutcome(true, Slide(g, x + 1, x, y))
      else if IsIdle(b1) && IsIdle(b2) then SwapOutcome(true, Exchange(g, x, y))
      else SwapOutcome(false, g)
  }

  /** Number of falling blocks among rows lo .. hi - 1 of a column. */
  function FallingBetween(col: seq<Cell>, lo: int, hi: int): nat
    requires 0 <= lo && hi <= |col|
    decreases hi - lo
  {
    if lo >= hi then 0 else FallingBetween(col, lo, hi - 1) + (if IsFalling(col[hi - 1]) then 1 else 0)
  }

  /** Every cell strictly between rows i and hi is empty or falling: nothing stops a walk up from hi - 1 to i. */
  predicate OpenBetween(col: seq<Cell>, i: int, hi: int)
    requires 0 <= i && hi <= |col|
  {
    forall j :: i < j < hi ==> col[j].Empty? || IsFalling(col[j])
  }

  lemma {:induction false} FallingBetweenBound(col: seq<Cell>, lo: int, hi: int)
    requires 0 <= lo && hi <= |col|
    ensures FallingBetween(col, lo, hi) <= if lo <= hi then hi - lo else 0
    decreases hi - lo
  {
    if lo < hi {
      FallingBetweenBound(col, lo, hi - 1);
    }
  }

  lemma {:induction false} FallingBetweenSame(a: seq<Cell>, b: seq<Cell>, lo: int, hi: int)
    requires 0 <= lo && hi <= |a| == |b|
    requires forall j :: lo <= j < hi ==> a[j] == b[j]
    ensures FallingBetween(a, lo, hi) == FallingBetween(b, lo, hi)
    decreases hi - lo
  {
    if lo < hi {
      FallingBetweenSame(a, b, lo, hi - 1);
    }
  }

  /**
   * What the re-targeting walk does to each row: a falling block reached by
   * the walk lands one row above the floor, less one row for every falling
   * block between it and the start; every other cell is left alone.
   */
  lemma {:induction false} RetargetAt(col: seq<Cell>, checkY: int, floor: int, i: int)
    requires -1 <= checkY < |col| && 0 <= i < |col|
    ensures Retarget(col, checkY, floor)[i] ==
      if i <= checkY && OpenBetween(col, i, checkY + 1) && IsFalling(col[i])
      then col[i].(targetY := Some(floor - 1 - FallingBetween(col, i + 1, checkY + 1)))
      else col[i]
    decreases checkY + 1
  {
    if checkY < 0 {
    } else if col[checkY].Empty? {
      RetargetAt(col, checkY - 1, floor, i);
      if i < checkY {
        assert OpenBetween(col, i, checkY + 1) <==> OpenBetween(col, i, checkY);
      }
    } else if col[checkY].state == Falling {
      var next := col[checkY := col[checkY].(targetY := Some(floor - 1))];
      RetargetAt(next, checkY - 1, floor - 1, i);
      if i < checkY {
        FallingBetweenSame(col, next, i + 1, checkY);
        assert OpenBetween(col, i, checkY + 1) <==> OpenBetween(next, i, checkY);
      }
    } else {
      if i < checkY {
        assert !OpenBetween(col, i, checkY + 1);
      }
    }
  }

  /**
   * A slide into an empty cell: the source cell empties, the block arrives
   * unchanged, the blocks falling onto the destination column's new block
   * take the landing rows y - 1, y - 2, ... in order, and nothing else
   * changes.
   */
  lemma SlideEffect(g: Grid, fromX: int, toX: int, y: int)
    requires InBounds(fromX, y) && InBounds(toX, y) && fromX != toX
    ensures var r := Slide(g, fromX, toX, y);
      && r[fromX][y] == Empty && r[toX][y] == g[fromX][y]
      && (forall x, j :: InBounds(x, j) && x != toX && (x, j) != (fromX, y) ==> r[x][j] == g[x][j])
      && (forall j :: y < j < Height ==> r[toX][j] == g[toX][j])
      && (forall j :: 0 <= j < y ==>
            r[toX][j] ==
              if OpenBetween(g[toX], j, y) && IsFalling(g[toX][j])
              then g[toX][j].(targetY := Some(y - 1 - FallingBetween(g[toX], j + 1, y)))
              else g[toX][j])
  {
    var moved := SetCell(SetCell(g, toX, y, g[fromX][y]), fromX, y, Empty);
    forall j | 0 <= j < Height
      ensures Retarget(moved[toX], y - 1, y)[j] ==
        if j < y && OpenBetween(g[toX], j, y) && IsFalling(g[toX][j])
        then g[toX][j].(targetY := Some(y - 1 - FallingBetween(g[toX], j + 1, y)))
        else moved[toX][j]
    {
      RetargetAt(moved[toX], y - 1, y, j);
      if j < y {
        FallingBetweenSame(moved[toX], g[toX], j + 1, y);
      }
    }
  }

  /** Every swap keeps the landing rows of falling blocks inside the grid. */
  lemma SwapKeepsTargets(g: Grid, x: int, y: int, simulation: bool)
    requires TargetsInRange(g)
    requires simulation ==> 0 <= x < Width - 1 && 0 <= y < Height
    ensures TargetsInRange(Swap(g, x, y, simulation).grid)
  {
    var b1 := CellAt(g, x, y);
    var b2 := CellAt(g, x + 1, y);
    if !simulation && IsIdle(b1) && b2 == Some(Empty) {
      SlideKeepsTargets(g, x, x + 1, y);
    } else if !simulation && IsIdle(b2) && b1 == Some(Empty) {
      SlideKeepsTargets(g, x + 1, x, y);
    }
  }

  lemma SlideKeepsTargets(g: Grid, fromX: int, toX: int, y: int)
    requires TargetsInRange(g)
    requires InBounds(fromX, y) && InBounds(toX, y) && fromX != toX
    ensures TargetsInRange(Slide(g, fromX, toX, y))
  {
    SlideEffect(g, fromX, toX, y);
    var r := Slide(g, fromX, toX, y);
    forall j | 0 <= j < y
      ensures TargetOk(r[toX][j])
    {
      FallingBetweenBound(g[toX], j + 1, y);
    }
  }

  /** The AI's simulated swap undoes itself. */
  lemma SimulatedSwapInvolution(g: Grid, x: int, y: int)
    requires 0 <= x < Width - 1 && 0 <= y < Height
    ensures Swap(Swap(g, x, y, true).grid, x, y, true).grid == g
  {
    var r := Swap(Swap(g, x, y, true).grid, x, y, true).grid;
    GridExtensionality(r, g);
  }

  /** Swapping two idle blocks exchanges exactly those two cells. */
  lemma IdleSwapExchanges(g: Grid, x: int, y: int)
    requires 0 <= x < Width - 1 && 0 <= y < Height
    requires IsIdle(Some(g[x][y])) && IsIdle(Some(g[x + 1][y]))
    ensures var r := Swap(g, x, y, false);
      && r.ok && r.grid[x][y] == g[x + 1][y] && r.grid[x + 1][y] == g[x][y]
      && forall i, j :: InBounds(i, j) && (i, j) != (x, y) && (i, j) != (x + 1, y) ==> r.grid[i][j] == g[i][j]
  {
  }

  /**
   * A real swap succeeds exactly when it slides an idle block into an empty
   * neighbour or exchanges two idle blocks; a refused swap changes nothing.
   */
  lemma SwapAccepts(g: Grid, x: int, y: int)
    ensures var r := Swap(g, x, y, false);
      && (r.ok <==>
            0 <= x < Width - 1 && 0 <= y < Height &&
            ((IsIdle(Some(g[x][y])) && (g[x + 1][y].Empty? || IsIdle(Some(g[x + 1][y])))) ||
             (IsIdle(Some(g[x + 1][y])) && g[x][y].Empty?)))
      && (!r.ok ==> r.grid == g)
  {
  }

  // =====================================================================
  // Match marking: what one pass means

  /** A marked cell lies in a run, so it is a block. */
  lemma InTripleIsBlock(line: seq<Cell>, i: int, e: Eligibility)
    requires 0 <= i < |line| && InTriple(line, i, e)
    ensures Eligible(line[i], e)
  {
  }

  /** A pass over a grid with no run of three changes nothing. */
  lemma NoMatchesNoMarks(g: Grid, initial: bool)
    requires NoMatches(g, EligibilityFor(initial))
    ensures MarkMatches(g, initial) == g
  {
    GridExtensionality(MarkMatches(g, initial), g);
  }

  /** On a cell not yet in the marking state, a pass marks it exactly when it lies in a run. */
  lemma MarkedIffInMatch(g: Grid, initial: bool, x: int, y: int)
    requires InBounds(x, y) && !HasState(g[x][y], ClearingState(initial))
    ensures HasState(MarkMatches(g, initial)[x][y], ClearingState(initial)) <==> InMatch(g, x, y, EligibilityFor(initial))
  {
    var e := EligibilityFor(initial);
    if InTriple(Row(g, y), x, e) {
      InTripleIsBlock(Row(g, y), x, e);
    } else if InTriple(g[x], y, e) {
      InTripleIsBlock(g[x], y, e);
    }
  }

  /**
   * On a grid with no block yet in the marking state, a pass marks no block
   * exactly when the grid has no run of three.
   */
  lemma {:induction false} NoMarksMeansNoMatches(g: Grid, initial: bool)
    requires forall x, y :: InBounds(x, y) ==> !HasState(g[x][y], ClearingState(initial))
    ensures StateCount(MarkMatches(g, initial), ClearingState(initial)) == 0 <==> NoMatches(g, EligibilityFor(initial))
  {
    var m := MarkMatches(g, initial);
    StateCountZero(m, ClearingState(initial));
    forall x, y | InBounds(x, y)
      ensures HasState(m[x][y], ClearingState(initial)) <==> InMatch(g, x, y, EligibilityFor(initial))
    {
      MarkedIffInMatch(g, initial, x, y);
    }
  }

  /**
   * A game-time pass that leaves no block clearing changed nothing: every
   * block it would have marked would now be clearing.
   */
  lemma {:induction false} ClearFreePassIsIdentity(g: Grid)
    requires StateCount(MarkMatches(g, false), Clearing) == 0
    ensures MarkMatches(g, false) == g
  {
    var m := MarkMatches(g, false);
    StateCountZero(m, Clearing);
    forall x, y | InBounds(x, y)
      ensures !InMatch(g, x, y, IdleOnly)
    {
      if InTriple(Row(g, y), x, IdleOnly) {
        InTripleIsBlock(Row(g, y), x, IdleOnly);
      } else if InTriple(g[x], y, IdleOnly) {
        InTripleIsBlock(g[x], y, IdleOnly);
      }
    }
    NoMatchesNoMarks(g, false);
  }

  /** Every cell of `after` is the cell of `before` or that cell with its block put in state s. */
  ghost predicate OnlyMarked(before: Grid, after: Grid, s: State)
  {
    forall x, y :: InBounds(x, y) ==> after[x][y] == before[x][y] || after[x][y] == MarkCell(before[x][y], s)
  }

  /** A pass moves no block and recolours none: it only puts blocks in the marking state. */
  lemma PassOnlyMarks(g: Grid, initial: bool)
    ensures OnlyMarked(g, MarkMatches(g, initial), ClearingState(initial))
  {
  }

  /** Blocks already clearing are never marked again. */
  lemma ClearingNeverRemarked(g: Grid, initial: bool, x: int, y: int)
    requires InBounds(x, y) && HasState(g[x][y], Clearing)
    ensures MarkMatches(g, initial)[x][y] == g[x][y]
  {
    var e := EligibilityFor(initial);
    if InTriple(Row(g, y), x, e) {
      InTripleIsBlock(Row(g, y), x, e);
    } else if InTriple(g[x], y, e) {
      InTripleIsBlock(g[x], y, e);
    }
  }

  /** After a regular pass no run of three idle blocks is left: a second pass changes nothing. */
  lemma {:induction false} MarkingLeavesNoIdleRun(g: Grid)
    ensures NoMatches(MarkMatches(g, false), IdleOnly)
    ensures MarkMatches(MarkMatches(g, false), false) == MarkMatches(g, false)
  {
    var m := MarkMatches(g, false);
    forall x, y | InBounds(x, y)
      ensures !InMatch(m, x, y, IdleOnly)
    {
      if InTriple(Row(m, y), x, IdleOnly) {
        InTripleIsBlock(Row(m, y), x, IdleOnly);
        IdleTripleBack(m, g, Row(m, y), Row(g, y), x);
        assert InMatch(g, x, y, IdleOnly);
      } else if InTriple(m[x], y, IdleOnly) {
        InTripleIsBlock(m[x], y, IdleOnly);
        IdleTripleBack(m, g, m[x], g[x], y);
        assert InMatch(g, x, y, IdleOnly);
      }
    }
    NoMatchesNoMarks(m, false);
  }

  /** An idle run in the marked line was an idle run before marking. */
  lemma IdleTripleBack(m: Grid, g: Grid, ml: seq<Cell>, gl: seq<Cell>, i: int)
    requires |ml| == |gl| && 0 <= i < |ml|
    requires forall j :: 0 <= j < |ml| && Eligible(ml[j], IdleOnly) ==> ml[j] == gl[j]
    requires InTriple(ml, i, IdleOnly)
    ensures InTriple(gl, i, IdleOnly)
  {
  }

  /** A row of three idle reds followed by three other colours marks its first three cells only. */
  lemma MatchLineExample()
    ensures var line := [Block(0, Idle, 0.0, None), Block(0, Idle, 0.0, None), Block(0, Idle, 0.0, None),
                         Block(1, Idle, 0.0, None), Block(2, Idle, 0.0, None), Block(3, Idle, 0.0, None)];
      forall i :: 0 <= i < 6 ==> (InTriple(line, i, IdleOnly) <==> i < 3)
  {
  }

  /** The grid of the vertical-run example: three idle reds stacked at the bottom of column 2, one blue beside them. */
  function StackedRedsGrid(): Grid
  {
    seq(Width, x requires 0 <= x < Width =>
      seq(Height, y requires 0 <= y < Height =>
        if x == 2 && y >= Height - 3 then Block(0, Idle, 0.0, None)
        else if x == 3 && y == Height - 1 then Block(1, Idle, 0.0, None)
        else Empty))
  }

  /**
   * A whole-grid pass finds a vertical run: the three stacked reds start
   * clearing and the blue beside them is left alone.
   */
  lemma GridMatchExample()
    ensures var m := MarkMatches(StackedRedsGrid(), false);
      && (forall y :: Height - 3 <= y < Height ==> m[2][y] == Block(0, Clearing, 0.0, None))
      && m[3][Height - 1] == Block(1, Idle, 0.0, None)
  {
    var g := StackedRedsGrid();
    assert InTriple(g[2], Height - 3, IdleOnly) && InTriple(g[2], Height - 2, IdleOnly) && InTriple(g[2], Height - 1, IdleOnly);
    var red, blue := Block(0, Idle, 0.0, None), Block(1, Idle, 0.0, None);
    assert Row(g, Height - 1) == [Empty, Empty, red, blue, Empty, Empty];
  }

  // =====================================================================
  // Clearing

  function ClearCell(c: Cell): Cell
  {
    if HasState(c, Clearing) || HasState(c, Cleared) then Empty else c
  }

  function ClearColumn(col: seq<Cell>): (r: seq<Cell>)
    ensures |r| == |col|
  {
    seq(|col|, i requires 0 <= i < |col| => ClearCell(col[i]))
  }

  /** The grid with every clearing or cleared block removed. */
  function ClearGrid(g: Grid): Grid
  {
    seq(Width, x requires 0 <= x < Width => ClearColumn(g[x]))
  }

  /** Clearing a column removes exactly its clearing and cleared blocks. */
  lemma {:induction false} ClearColumnCount(col: seq<Cell>)
    ensures |BlocksOf(ClearColumn(col))| + ColumnStateCount(col, Clearing) + ColumnStateCount(col, Cleared) == |BlocksOf(col)|
  {
    if col != [] {
      ClearColumnCount(col[1..]);
      assert ClearColumn(col)[1..] == ClearColumn(col[1..]);
    }
  }

  /** Clearing removes exactly the clearing and cleared blocks of the grid. */
  lemma {:induction false} ClearGridCount(g: Grid, n: int)
    requires 0 <= n <= Width
    ensures BlockCountUpTo(ClearGrid(g), n) + StateCountUpTo(g, Clearing, n) + StateCountUpTo(g, Cleared, n) == BlockCountUpTo(g, n)
  {
    if n > 0 {
      ClearGridCount(g, n - 1);
      ClearColumnCount(g[n - 1]);
    }
  }

  // =====================================================================
  // Initial gravity: compaction

  /** A column is settled when no block has an empty cell below it. */
  predicate Settled(col: seq<Cell>)
  {
    forall i, j :: 0 <= i < j < |col| && col[i].Block? ==> col[j].Block?
  }

  predicate SettledGrid(g: Grid)
  {
    forall x :: 0 <= x < Width ==> Settled(g[x])
  }

  /** A column with all its blocks pushed to the bottom, in their order. */
  function Packed(col: seq<Cell>): (r: seq<Cell>)
    ensures |r| == |col|
  {
    seq(|col| - |BlocksOf(col)|, _ => Empty) + BlocksOf(col)
  }

  function CompactGrid(g: Grid): Grid
  {
    seq(Width, x requires 0 <= x < Width => Packed(g[x]))
  }

  lemma {:induction false} BlocksOfAppend(a: seq<Cell>, b: seq<Cell>)
    ensures BlocksOf(a + b) == BlocksOf(a) + BlocksOf(b)
  {
    if a != [] {
      BlocksOfAppend(a[1..], b);
      assert (a + b)[0] == a[0];
      assert (a + b)[1..] == a[1..] + b;
    } else {
      assert a + b == b;
    }
  }

  lemma {:induction false} BlocksOfAreBlocks(col: seq<Cell>)
    ensures forall i :: 0 <= i < |BlocksOf(col)| ==> BlocksOf(col)[i].Block?
  {
    if col != [] {
      BlocksOfAreBlocks(col[1..]);
    }
  }

  lemma {:induction false} BlocksOfOnlyBlocks(col: seq<Cell>)
    requires forall i :: 0 <= i < |col| ==> col[i].Block?
    ensures BlocksOf(col) == col
  {
    if col != [] {
      BlocksOfOnlyBlocks(col[1..]);
    }
  }

  lemma {:induction false} BlocksOfNoBlocks(col: seq<Cell>)
    requires forall i :: 0 <= i < |col| ==> col[i].Empty?
    ensures BlocksOf(col) == []
  {
    if col != [] {
      BlocksOfNoBlocks(col[1..]);
    }
  }

  /**
   * Compaction keeps the blocks of a column and their order, and leaves the
   * column settled.
   */
  lemma PackedKeepsBlocks(col: seq<Cell>)
    ensures BlocksOf(Packed(col)) == BlocksOf(col)
    ensures Settled(Packed(col))
  {
    var empties := seq(|col| - |BlocksOf(col)|, _ => Empty);
    BlocksOfAppend(empties, BlocksOf(col));
    BlocksOfNoBlocks(empties);
    BlocksOfAreBlocks(col);
    BlocksOfOnlyBlocks(BlocksOf(col));
  }

  /** Compaction keeps the number of blocks and settles every column. */
  lemma {:induction false} CompactKeepsCount(g: Grid, n: int)
    requires 0 <= n <= Width
    ensures BlockCountUpTo(CompactGrid(g), n) == BlockCountUpTo(g, n)
    ensures SettledGrid(CompactGrid(g))
  {
    if n > 0 {
      CompactKeepsCount(g, n - 1);
      PackedKeepsBlocks(g[n - 1]);
    }
    forall x | 0 <= x < Width
      ensures Settled(CompactGrid(g)[x])
    {
      PackedKeepsBlocks(g[x]);
    }
  }

  // =====================================================================
  // Gravity, phase 1: marking floating blocks

  function EmptyCount(s: seq<Cell>): (r: nat)
    ensures r <= |s|
  {
    if s == [] then 0 else (if s[0].Empty? then 1 else 0) + EmptyCount(s[1..])
  }

  /** An idle block with no landing row and k > 0 empty cells below it starts falling k rows. */
  function FloatCell(c: Cell, y: int, k: nat, bs: real): Cell
  {
    if c.Block? && k > 0 && c.state == Idle && c.targetY.None?
    then c.(state := Falling, visualY := RowTop(y, bs), targetY := Some(y + k))
    else c
  }

  function MarkFloatingColumn(col: seq<Cell>, bs: real): (r: seq<Cell>)
    ensures |r| == |col|
  {
    seq(|col|, y requires 0 <= y < |col| => FloatCell(col[y], y, EmptyCount(col[y + 1..]), bs))
  }

  function MarkFloating(g: Grid, bs: real): Grid
  {
    seq(Width, x requires 0 <= x < Width => MarkFloatingColumn(g[x], bs))
  }

  lemma {:induction false} EmptyCountZero(s: seq<Cell>)
    ensures EmptyCount(s) == 0 <==> forall i :: 0 <= i < |s| ==> s[i].Block?
  {
    if s != [] {
      EmptyCountZero(s[1..]);
      assert forall i :: 1 <= i < |s| ==> s[1..][i - 1] == s[i];
    }
  }

  /** A cell phase 1 leaves idle without a landing row has only blocks below it. */
  lemma {:induction false} NoGapBelow(col: seq<Cell>, bs: real, y: int, j: int)
    requires 0 <= y < j < |col|
    requires var c := FloatCell(col[y], y, EmptyCount(col[y + 1..]), bs); HasState(c, Idle) && c.targetY.None?
    ensures col[j].Block?
  {
    var below := col[y + 1..];
    EmptyCountZero(below);
    assert below[j - y - 1] == col[j];
  }

  /** Phase 1 on one column keeps every landing row on the column. */
  lemma {:induction false} FloatingKeepsTargets(col: seq<Cell>, bs: real)
    requires |col| == Height && ColumnTargetsOk(col)
    ensures ColumnTargetsOk(MarkFloatingColumn(col, bs))
  {
    var r := MarkFloatingColumn(col, bs);
    forall y | 0 <= y < Height
      ensures TargetOk(r[y])
    {
      assert |col[y + 1..]| == Height - y - 1;
    }
  }

  /** Phase 1 on one column neither moves nor recolours a block. */
  lemma {:induction false} FloatingKeepsCells(col: seq<Cell>, bs: real)
    requires |col| == Height
    ensures var r := MarkFloatingColumn(col, bs);
      && (forall y :: 0 <= y < Height ==> r[y].Empty? == col[y].Empty?)
      && (forall y :: 0 <= y < Height && r[y].Block? ==> r[y].kind == col[y].kind)
  {
  }

  /** After phase 1 on one column, an idle cell without a landing row has only blocks below it. */
  lemma {:induction false} FloatingMarkedColumn(col: seq<Cell>, bs: real)
    requires |col| == Height
    ensures var r := MarkFloatingColumn(col, bs);
      forall y, j :: 0 <= y < j < Height && HasState(r[y], Idle) && r[y].targetY.None? ==> r[j].Block?
  {
    var r := MarkFloatingColumn(col, bs);
    forall y, j | 0 <= y < j < Height && HasState(r[y], Idle) && r[y].targetY.None?
      ensures r[j].Block?
    {
      NoGapBelow(col, bs, y, j);
    }
  }

  /**
   * Phase 1 moves nothing and recolours nothing, keeps every landing row on
   * the grid, and afterwards no idle block without a landing row has an
   * empty cell below it.
   */
  lemma {:induction false} FloatingMarked(g: Grid, bs: real)
    requires TargetsInRange(g)
    ensures var r := MarkFloating(g, bs);
      && TargetsInRange(r)
      && (forall x, y :: InBounds(x, y) ==> r[x][y].Empty? == g[x][y].Empty?)
      && (forall x, y :: InBounds(x, y) && r[x][y].Block? ==> r[x][y].kind == g[x][y].kind)
      && (forall x, y, j :: InBounds(x, y) && y < j < Height && HasState(r[x][y], Idle) && r[x][y].targetY.None? ==> r[x][j].Block?)
  {
    forall x | 0 <= x < Width {
      FloatingKeepsTargets(g[x], bs);
    }
    forall x | 0 <= x < Width {
      FloatingKeepsCells(g[x], bs);
    }
    forall x | 0 <= x < Width {
      FloatingMarkedColumn(g[x], bs);
    }
  }

  // =====================================================================
  // Gravity, phase 2: animating and landing falling blocks

  /**
   * One visit of phase 2 at row y: a falling block moves down by the fall
   * speed; once it reaches its landing row it turns idle at exactly that row
   * and, when that row is another one, is written there (over whatever the
   * cell held) and its old cell empties. A block with no landing row never
   * lands.
   */
  function LandAt(col: seq<Cell>, y: int, dt: real, bs: real): (r: seq<Cell>)
    requires 0 <= y < |col| == Height && ColumnTargetsOk(col)
    ensures |r| == |col| && ColumnTargetsOk(r)
  {
    var c := col[y];
    if !IsFalling(c) then col
    else
      var v := c.visualY + FallSpeed * (dt / 1000.0);
      match c.targetY
      case None => col[y := c.(visualY := v)]
      case Some(t) =>
        if v >= RowTop(t, bs) then
          var landed := c.(state := Idle, visualY := RowTop(t, bs), targetY := None);
          if y != t then col[t := landed][y := Empty] else col[y := landed]
        else col[y := c.(visualY := v)]
  }

  /** Phase 2 on one column, visiting rows y, y - 1, ..., 0. */
  function LandFrom(col: seq<Cell>, y: int, dt: real, bs: real): (r: seq<Cell>)
    requires -1 <= y < |col| == Height && ColumnTargetsOk(col)
    ensures |r| == |col| && ColumnTargetsOk(r)
    decreases y + 1
  {
    if y < 0 then col else LandFrom(LandAt(col, y, dt, bs), y - 1, dt, bs)
  }

  function LandGrid(g: Grid, dt: real, bs: real): (r: Grid)
    requires TargetsInRange(g)
    ensures TargetsInRange(r)
  {
    seq(Width, x requires 0 <= x < Width => LandFrom(g[x], Height - 1, dt, bs))
  }

  /** A column with nothing falling is left exactly as it was. */
  lemma {:induction false} StableColumnUnchanged(col: seq<Cell>, y: int, dt: real, bs: real)
    requires -1 <= y < |col| == Height && ColumnTargetsOk(col)
    requires forall j :: 0 <= j < |col| ==> !IsFalling(col[j])
    ensures LandFrom(col, y, dt, bs) == col
    decreases y + 1
  {
    if y >= 0 {
      StableColumnUnchanged(col, y - 1, dt, bs);
    }
  }

  /** Replacing a block never adds a block. */
  lemma {:induction false} ReplaceNeverAdds(col: seq<Cell>, i: int, c: Cell)
    requires 0 <= i < |col| && col[i].Block?
    ensures |BlocksOf(col[i := c])| <= |BlocksOf(col)|
  {
    BlocksOfUpdate(col, i, c);
  }

  /** Moving a block to another row, over whatever was there, never adds a block. */
  lemma {:induction false} MoveNeverAdds(col: seq<Cell>, y: int, t: int, c: Cell)
    requires 0 <= y < |col| && 0 <= t < |col| && y != t && col[y].Block?
    ensures |BlocksOf(col[t := c][y := Empty])| <= |BlocksOf(col)|
  {
    var mid := col[t := c];
    BlocksOfUpdate(col, t, c);
    assert mid[y] == col[y];
    BlocksOfUpdate(mid, y, Empty);
  }

  /** One landing step never creates a block. */
  lemma {:induction false} LandAtNeverAddsBlocks(col: seq<Cell>, y: int, dt: real, bs: real)
    requires 0 <= y < |col| == Height && ColumnTargetsOk(col)
    ensures |BlocksOf(LandAt(col, y, dt, bs))| <= |BlocksOf(col)|
  {
    var c := col[y];
    if IsFalling(c) {
      var v := c.visualY + FallSpeed * (dt / 1000.0);
      match c.targetY
      case None =>
        ReplaceNeverAdds(col, y, c.(visualY := v));
      case Some(t) =>
        if v >= RowTop(t, bs) {
          var landed := c.(state := Idle, visualY := RowTop(t, bs), targetY := None);
          if y != t {
            MoveNeverAdds(col, y, t, landed);
          } else {
            ReplaceNeverAdds(col, y, landed);
          }
        } else {
          ReplaceNeverAdds(col, y, c.(visualY := v));
        }
    }
  }

  /** Landing never creates a block: a column holds at most as many blocks afterwards. */
  lemma {:induction false} LandingNeverAddsBlocks(col: seq<Cell>, y: int, dt: real, bs: real)
    requires -1 <= y < |col| == Height && ColumnTargetsOk(col)
    ensures |BlocksOf(LandFrom(col, y, dt, bs))| <= |BlocksOf(col)|
    decreases y + 1
  {
    if y >= 0 {
      LandAtNeverAddsBlocks(col, y, dt, bs);
      LandingNeverAddsBlocks(LandAt(col, y, dt, bs), y - 1, dt, bs);
    }
  }

  /** No falling block of the column other than the one at row y has row t or row y as its landing row. */
  predicate OnlyLanderFor(col: seq<Cell>, y: int, t: int)
  {
    forall j :: 0 <= j < |col| && j != y && IsFalling(col[j]) ==> col[j].targetY != Some(t) && col[j].targetY != Some(y)
  }

  /** A visit of phase 2 starts no fall and changes no falling block's landing row. */
  lemma {:induction false} LandAtKeepsFallers(col: seq<Cell>, y: int, dt: real, bs: real)
    requires 0 <= y < |col| == Height && ColumnTargetsOk(col)
    ensures var r := LandAt(col, y, dt, bs);
      forall j :: 0 <= j < Height && IsFalling(r[j]) ==> IsFalling(col[j]) && r[j].targetY == col[j].targetY
  {
  }

  /** Once the block has landed at row t, the visits of the rows above its old row y leave it (and row y) alone. */
  lemma {:induction false} LandedBlockStays(col: seq<Cell>, r: int, y: int, t: int, landed: Cell, dt: real, bs: real)
    requires -1 <= r < y < |col| == Height && 0 <= t < Height && ColumnTargetsOk(col)
    requires OnlyLanderFor(col, y, t) && !IsFalling(landed) && col[t] == landed
    requires y != t ==> col[y] == Empty
    ensures var res := LandFrom(col, r, dt, bs);
      res[t] == landed && (y != t ==> res[y] == Empty)
    decreases r + 1
  {
    if r >= 0 {
      var next := LandAt(col, r, dt, bs);
      LandAtKeepsFallers(col, r, dt, bs);
      assert next[t] == landed && (y != t ==> next[y] == Empty);
      LandedBlockStays(next, r - 1, y, t, landed, dt, bs);
    }
  }

  /** The visits of the rows below row y leave the falling block at row y alone until its own visit lands it. */
  lemma {:induction false} FallingBlockWaits(col: seq<Cell>, r: int, y: int, dt: real, bs: real)
    requires 0 <= y <= r < |col| == Height && ColumnTargetsOk(col)
    requires IsFalling(col[y]) && col[y].targetY.Some?
    requires col[y].visualY + FallSpeed * (dt / 1000.0) >= RowTop(col[y].targetY.value, bs)
    requires OnlyLanderFor(col, y, col[y].targetY.value)
    ensures var t := col[y].targetY.value; var res := LandFrom(col, r, dt, bs);
      res[t] == RestingBlock(col[y].kind, t, bs) && (y != t ==> res[y] == Empty)
    decreases r
  {
    var t := col[y].targetY.value;
    var next := LandAt(col, r, dt, bs);
    LandAtKeepsFallers(col, r, dt, bs);
    if r > y {
      assert next[y] == col[y];
      FallingBlockWaits(next, r - 1, y, dt, bs);
    } else {
      var landed := RestingBlock(col[y].kind, t, bs);
      assert next[t] == landed && (y != t ==> next[y] == Empty);
      LandedBlockStays(next, y - 1, y, t, landed, dt, bs);
    }
  }

  /**
   * A falling block whose fall this tick reaches its landing row t, when no
   * other falling block of its column lands at row t or at the block's own
   * row, ends the pass as an idle block of its own colour resting exactly at
   * row t with no landing row, and the row it fell from is empty.
   */
  lemma {:induction false} FallingBlockLands(col: seq<Cell>, y: int, dt: real, bs: real)
    requires |col| == Height && ColumnTargetsOk(col)
    requires 0 <= y < Height && IsFalling(col[y]) && col[y].targetY.Some?
    requires col[y].visualY + FallSpeed * (dt / 1000.0) >= RowTop(col[y].targetY.value, bs)
    requires OnlyLanderFor(col, y, col[y].targetY.value)
    ensures var t := col[y].targetY.value; var res := LandFrom(col, Height - 1, dt, bs);
      res[t] == RestingBlock(col[y].kind, t, bs) && (y != t ==> res[y] == Empty)
  {
    FallingBlockWaits(col, Height - 1, y, dt, bs);
  }

  /**
   * Landing does not check its landing cell: a block landing on an occupied
   * row overwrites it, and the column loses a block.
   */
  lemma LandingOverwriteExample()
    ensures var col := seq(Height - 2, _ => Empty) + [Block(1, Falling, 420.0, Some(Height - 1)), Block(2, Idle, 440.0, None)];
      && |BlocksOf(col)| == 2
      && |BlocksOf(LandAt(col, Height - 2, 100.0, PlayerBlockSize))| == 1
  {
    var col := seq(Height - 2, _ => Empty) + [Block(1, Falling, 420.0, Some(Height - 1)), Block(2, Idle, 440.0, None)];
    var r := LandAt(col, Height - 2, 100.0, PlayerBlockSize);
    var empties := seq(Height - 1, _ => Empty);
    BlocksOfAppend(seq(Height - 2, _ => Empty), [col[Height - 2], col[Height - 1]]);
    BlocksOfNoBlocks(seq(Height - 2, _ => Empty));
    RowTopIsProduct(Height - 1, PlayerBlockSize);
    assert r == empties + [Block(1, Idle, 440.0, None)];
    BlocksOfAppend(empties, [Block(1, Idle, 440.0, None)]);
    BlocksOfNoBlocks(empties);
  }

  // =====================================================================
  // Populating and raising

  predicate IsKindGrid(kinds: seq<seq<Kind>>)
  {
    |kinds| == Width && forall x :: 0 <= x < Width ==> |kinds[x]| == Height
  }

  /** Every block is idle and has no landing row. */
  predicate Pristine(g: Grid)
  {
    forall x, y :: 0 <= x < Width && 0 <= y < Height && g[x][y].Block? ==> g[x][y].state == Idle && g[x][y].targetY.None?
  }

  /** An idle block of the given colour resting at row y. */
  function RestingBlock(k: Kind, y: int, bs: real): Cell
  {
    Block(k, Idle, RowTop(y, bs), None)
  }

  /** A fresh grid: the upper half empty, the lower half idle blocks of the drawn colours. */
  function Populated(kinds: seq<seq<Kind>>, bs: real): Grid
    requires IsKindGrid(kinds)
  {
    seq(Width, x requires 0 <= x < Width =>
      seq(Height, y requires 0 <= y < Height => if y < Height / 2 then Empty else RestingBlock(kinds[x][y], y, bs)))
  }

  /** A fresh grid is settled, holds only idle blocks, and fills exactly its lower half. */
  lemma PopulatedIsCalm(kinds: seq<seq<Kind>>, bs: real)
    requires IsKindGrid(kinds)
    ensures var g := Populated(kinds, bs);
      && Pristine(g) && SettledGrid(g) && TargetsInRange(g)
      && forall x, y :: InBounds(x, y) ==> (g[x][y].Block? <==> y >= Height / 2)
  {
  }

  /** Raise speed in pixels per second that lifts one row per interval of the given milliseconds. */
  function AutoRaiseSpeed(bs: real, interval: int): real
    requires interval > 0
  {
    bs / (interval as real / 1000.0)
  }

  /** The height in pixels a stack rising at `speed` pixels per second gains in `deltaTime` milliseconds. */
  function RaiseGain(speed: real, deltaTime: real): real
  {
    speed * (deltaTime / 1000.0)
  }

  /**
   * One frame of the raise accumulator: it gains `gain`, and once it holds a
   * full row the stack raises once and the rest is carried over.
   */
  function RaiseTick(progress: real, gain: real, bs: real): (real, bool)
  {
    var p := progress + gain;
    if p >= bs then (p - bs, true) else (p, false)
  }

  /** Total milliseconds of a run of frames. */
  function Elapsed(frames: seq<real>): real
  {
    if frames == [] then 0.0 else frames[0] + Elapsed(frames[1..])
  }

  /**
   * A run of frames of a stack rising at `speed`, each frame lasting the
   * given milliseconds: the progress left at the end and how many raises
   * happened.
   */
  function RaiseRun(progress: real, speed: real, frames: seq<real>, bs: real): (real, nat)
    decreases |frames|
  {
    if frames == [] then (progress, 0)
    else
      var t := RaiseTick(progress, RaiseGain(speed, frames[0]), bs);
      var rest := RaiseRun(t.0, speed, frames[1..], bs);
      (rest.0, rest.1 + if t.1 then 1 else 0)
  }

  lemma RaiseGainAdds(speed: real, a: real, b: real)
    ensures RaiseGain(speed, a) + RaiseGain(speed, b) == RaiseGain(speed, a + b)
  {
  }

  /** No height is lost or made up: what a run gains is what is left plus one row per raise. */
  lemma {:induction false} RaiseRunConserves(progress: real, speed: real, frames: seq<real>, bs: real)
    ensures var r := RaiseRun(progress, speed, frames, bs);
      progress + RaiseGain(speed, Elapsed(frames)) == r.0 + r.1 as real * bs
    decreases |frames|
  {
    if frames != [] {
      var t := RaiseTick(progress, RaiseGain(speed, frames[0]), bs);
      var rest := RaiseRun(t.0, speed, frames[1..], bs);
      RaiseRunConserves(t.0, speed, frames[1..], bs);
      RaiseGainAdds(speed, frames[0], Elapsed(frames[1..]));
      if t.1 {
        OneMoreRow(rest.1, bs);
      }
    }
  }

  lemma OneMoreRow(rows: nat, bs: real)
    ensures (rows + 1) as real * bs == rows as real * bs + bs
  {
  }

  /** While no frame gains more than a row, the progress left stays below one row. */
  lemma {:induction false} RaiseRunBelowRow(progress: real, speed: real, frames: seq<real>, bs: real)
    requires 0.0 <= progress < bs
    requires forall i :: 0 <= i < |frames| ==> 0.0 <= RaiseGain(speed, frames[i]) <= bs
    ensures 0.0 <= RaiseRun(progress, speed, frames, bs).0 < bs
    decreases |frames|
  {
    if frames != [] {
      var t := RaiseTick(progress, RaiseGain(speed, frames[0]), bs);
      assert 0.0 <= t.0 < bs;
      assert forall i :: 0 <= i < |frames| - 1 ==> frames[1..][i] == frames[i + 1];
      RaiseRunBelowRow(t.0, speed, frames[1..], bs);
    }
  }

  /** At the automatic speed a frame no longer than the interval gains at most one row, and the whole interval exactly one. */
  lemma AutoGainWithinRow(bs: real, interval: int, dt: real)
    requires bs > 0.0 && interval > 0 && 0.0 <= dt <= interval as real
    ensures 0.0 <= RaiseGain(AutoRaiseSpeed(bs, interval), dt) <= bs
    ensures RaiseGain(AutoRaiseSpeed(bs, interval), interval as real) == bs
  {
    var i := interval as real;
    assert RaiseGain(AutoRaiseSpeed(bs, interval), dt) == bs * (dt / i);
    assert 0.0 <= dt / i <= 1.0;
  }

  /**
   * At the automatic speed, from no progress, frames that together last one
   * raise interval (none longer than it, however they are split) raise the
   * stack exactly once and leave no progress.
   */
  lemma {:induction false} OneRowPerInterval(bs: real, interval: int, frames: seq<real>)
    requires bs > 0.0 && interval > 0
    requires forall i :: 0 <= i < |frames| ==> 0.0 <= frames[i] <= interval as real
    requires Elapsed(frames) == interval as real
    ensures RaiseRun(0.0, AutoRaiseSpeed(bs, interval), frames, bs) == (0.0, 1)
  {
    var speed := AutoRaiseSpeed(bs, interval);
    forall i | 0 <= i < |frames|
      ensures 0.0 <= RaiseGain(speed, frames[i]) <= bs
    {
      AutoGainWithinRow(bs, interval, frames[i]);
    }
    AutoGainWithinRow(bs, interval, 0.0);
    RaiseRunConserves(0.0, speed, frames, bs);
    RaiseRunBelowRow(0.0, speed, frames, bs);
    var r := RaiseRun(0.0, speed, frames, bs);
    WholeRowIsOneRaise(bs, r.0, r.1);
  }

  /** One row's height, split into a rest below one row and whole rows, is one whole row and no rest. */
  lemma WholeRowIsOneRaise(bs: real, rest: real, rows: nat)
    requires bs > 0.0 && 0.0 <= rest < bs && bs == rest + rows as real * bs
    ensures rows == 1 && rest == 0.0
  {
    var k := rows as real - 1.0;
    assert k * bs == -rest;
    ScaledBetween(k, bs);
  }

  lemma ScaledBetween(k: real, bs: real)
    requires bs > 0.0 && -bs < k * bs <= 0.0
    ensures -1.0 < k <= 0.0
  {
  }

  /** A row of kinds with no three equal neighbours. */
  predicate NoTriple(row: seq<Kind>)
  {
    forall x :: 0 <= x < |row| - 2 ==> !(row[x] == row[x + 1] == row[x + 2])
  }

  /** Every row moved up one, the top row dropped, and a new idle row added at the bottom. */
  function ShiftedUp(g: Grid, row: seq<Kind>, bs: real): Grid
    requires |row| == Width
  {
    seq(Width, x requires 0 <= x < Width => g[x][1..] + [RestingBlock(row[x], Height - 1, bs)])
  }

  lemma {:induction false} ShiftedUpCount(g: Grid, row: seq<Kind>, bs: real, n: int)
    requires |row| == Width && 0 <= n <= Width
    requires forall x :: 0 <= x < Width ==> g[x][0].Empty?
    ensures BlockCountUpTo(ShiftedUp(g, row, bs), n) == BlockCountUpTo(g, n) + n
  {
    if n > 0 {
      ShiftedUpCount(g, row, bs, n - 1);
      var col := g[n - 1];
      assert col == [col[0]] + col[1..];
      BlocksOfAppend([col[0]], col[1..]);
      BlocksOfAppend(col[1..], [RestingBlock(row[n - 1], Height - 1, bs)]);
    }
  }

  /**
   * Raising the stack when the top row is empty: every cell moves up one row,
   * the new bottom row holds idle blocks of the given colours, and the board
   * gains exactly one row of blocks; pristine boards stay pristine and
   * landing rows stay on the grid.
   */
  lemma RaiseShiftsRows(g: Grid, row: seq<Kind>, bs: real)
    requires |row| == Width
    requires forall x :: 0 <= x < Width ==> g[x][0].Empty?
    ensures var r := ShiftedUp(g, row, bs);
      && (forall x, y :: 0 <= x < Width && 0 <= y < Height - 1 ==> r[x][y] == g[x][y + 1])
      && (forall x :: 0 <= x < Width ==> r[x][Height - 1] == RestingBlock(row[x], Height - 1, bs))
      && BlockCount(r) == BlockCount(g) + Width
      && (Pristine(g) ==> Pristine(r))
      && (TargetsInRange(g) ==> TargetsInRange(r))
  {
    ShiftedUpCount(g, row, bs, Width);
  }

  /** A raised row never starts a horizontal run of three when its colours have none. */
  lemma RaisedRowHasNoRun(g: Grid, row: seq<Kind>, bs: real)
    requires |row| == Width && NoTriple(row)
    ensures var bottom := Row(ShiftedUp(g, row, bs), Height - 1);
      forall x :: 0 <= x < Width ==> !Triple(bottom, x, AnyBlock)
  {
  }

  // =====================================================================
  // The constructor's clean-up rounds

  lemma {:induction false} BlocksOfSameShape(a: seq<Cell>, b: seq<Cell>)
    requires |a| == |b| && forall i :: 0 <= i < |a| ==> (a[i].Block? <==> b[i].Block?)
    ensures |BlocksOf(a)| == |BlocksOf(b)|
  {
    if a != [] {
      BlocksOfSameShape(a[1..], b[1..]);
    }
  }

  lemma {:induction false} MarkKeepsCount(g: Grid, initial: bool, n: int)
    requires 0 <= n <= Width
    ensures BlockCountUpTo(MarkMatches(g, initial), n) == BlockCountUpTo(g, n)
  {
    if n > 0 {
      MarkKeepsCount(g, initial, n - 1);
      BlocksOfSameShape(MarkMatches(g, initial)[n - 1], g[n - 1]);
    }
  }

  lemma {:induction false} BlocksOfMembers(col: seq<Cell>)
    ensures forall c :: c in BlocksOf(col) ==> c in col && c.Block?
  {
    if col != [] {
      BlocksOfMembers(col[1..]);
    }
  }

  /**
   * One clean-up round of the constructor on a pristine board that still has
   * a run: marking, clearing and compacting leave a pristine, settled board
   * with strictly fewer blocks. This is why the rounds end.
   */
  lemma CleanupRoundShrinks(g: Grid)
    requires Pristine(g)
    requires StateCount(MarkMatches(g, true), Cleared) > 0
    ensures var n := CompactGrid(ClearGrid(MarkMatches(g, true)));
      Pristine(n) && SettledGrid(n) && TargetsInRange(n) && BlockCount(n) < BlockCount(g)
  {
    var m := MarkMatches(g, true);
    var c := ClearGrid(m);
    MarkKeepsCount(g, true, Width);
    ClearGridCount(m, Width);
    CompactKeepsCount(c, Width);
    ClearedMarksArePristine(g);
    CompactKeepsPristine(c);
  }

  lemma ClearedMarksArePristine(g: Grid)
    requires Pristine(g)
    ensures Pristine(ClearGrid(MarkMatches(g, true)))
  {
  }

  lemma CompactKeepsPristine(c: Grid)
    requires Pristine(c)
    ensures Pristine(CompactGrid(c)) && TargetsInRange(CompactGrid(c))
  {
    var n := CompactGrid(c);
    forall x, y | InBounds(x, y) && n[x][y].Block?
      ensures n[x][y].state == Idle && n[x][y].targetY.None?
    {
      PackedKeepsBlocks(c[x]);
      BlocksOfMembers(c[x]);
      BlocksOfMembers(n[x]);
      assert n[x][y] in BlocksOf(n[x]);
    }
  }

  /** When a clean-up pass marks nothing, the board has no run of three and the pass left it alone. */
  lemma CleanupFinished(g: Grid)
    requires Pristine(g)
    requires StateCount(MarkMatches(g, true), Cleared) == 0
    ensures MarkMatches(g, true) == g && NoMatches(g, AnyBlock)
  {
    NoMarksMeansNoMatches(g, true);
    NoMatchesNoMarks(g, true);
    PristineRunsAgree(g);
  }

  /** In a line without clearing blocks, both run tests agree. */
  lemma NoClearingRunsAgree(line: seq<Cell>, i: int)
    requires forall j :: 0 <= j < |line| ==> !HasState(line[j], Clearing)
    ensures InTriple(line, i, NotClearing) <==> InTriple(line, i, AnyBlock)
  {
    assert forall j :: 0 <= j < |line| ==> (Eligible(line[j], NotClearing) <==> Eligible(line[j], AnyBlock));
  }

  /** On a pristine board, blocks that are not clearing are all blocks: both run tests agree. */
  lemma PristineRunsAgree(g: Grid)
    requires Pristine(g)
    ensures NoMatches(g, NotClearing) <==> NoMatches(g, AnyBlock)
  {
    forall x, y | InBounds(x, y)
      ensures InMatch(g, x, y, NotClearing) <==> InMatch(g, x, y, AnyBlock)
    {
      NoClearingRunsAgree(Row(g, y), x);
      NoClearingRunsAgree(g[x], y);
    }
  }

  // =====================================================================
  // Column passes

  /** The blocks of a suffix are its first cell, if a block, then the blocks after it. */
  lemma BlocksOfSuffix(s: seq<Cell>, i: int)
    requires 0 <= i < |s|
    ensures BlocksOf(s[i..]) == (if s[i].Block? then [s[i]] else []) + BlocksOf(s[i + 1..])
  {
    assert s[i..][1..] == s[i + 1..];
  }

  /**
   * A column compacted below row r only: rows 0..r as they were, then the
   * empty cells, then the blocks that were below row r, in order.
   */
  ghost function PartlyPacked(original: seq<Cell>, r: int): (p: seq<Cell>)
    requires -1 <= r < |original|
    ensures |p| == |original|
  {
    original[..r + 1] + seq(|original| - (r + 1) - |BlocksOf(original[r + 1..])|, _ => Empty) + BlocksOf(original[r + 1..])
  }

  /**
   * Compacting one more row: an empty cell joins the empty run, a block
   * moves down to the row just above the blocks already packed.
   */
  lemma PartlyPackedStep(original: seq<Cell>, r: int)
    requires 0 <= r < |original|
    ensures var w := |original| - 1 - |BlocksOf(original[r + 1..])|;
      && r <= w
      && PartlyPacked(original, r - 1) ==
        if original[r].Empty? then PartlyPacked(original, r)
        else if w == r then PartlyPacked(original, r)
        else PartlyPacked(original, r)[w := original[r]][r := Empty]
  {
    BlocksOfSuffix(original, r);
    var b := BlocksOf(original[r + 1..]);
    var k := |original| - (r + 1) - |b|;
    assert original[..r + 1] == original[..r] + [original[r]];
    if original[r].Empty? {
      PackEmptyStep(original[..r], original[r], k, b);
    } else {
      PackBlockStep(original[..r], original[r], k, b);
    }
  }

  lemma PackEmptyStep(front: seq<Cell>, c: Cell, k: nat, b: seq<Cell>)
    requires c.Empty?
    ensures front + seq(k + 1, _ => Empty) + b == (front + [c]) + seq(k, _ => Empty) + b
  {
    assert [c] + seq(k, _ => Empty) == seq(k + 1, _ => Empty);
    assert (front + [c]) + seq(k, _ => Empty) + b == front + ([c] + seq(k, _ => Empty)) + b;
  }

  lemma PackBlockStep(front: seq<Cell>, c: Cell, k: nat, b: seq<Cell>)
    ensures var p := (front + [c]) + seq(k, _ => Empty) + b;
      front + seq(k, _ => Empty) + ([c] + b) ==
        if k == 0 then p else p[|front| + k := c][|front| := Empty]
  {
    var p := (front + [c]) + seq(k, _ => Empty) + b;
    var q := front + seq(k, _ => Empty) + ([c] + b);
    if k == 0 {
      assert q == p;
    } else {
      var r := |front|;
      var m := p[r + k := c][r := Empty];
      forall i | 0 <= i < |q|
        ensures q[i] == m[i]
      {
        if i < r {
        } else if i < r + k {
        } else if i == r + k {
        } else {
          assert q[i] == b[i - r - k - 1];
        }
      }
    }
  }

  /** The read-and-write compaction of one column, from the bottom up. */
  method CompactColumn(original: seq<Cell>) returns (column: seq<Cell>)
    requires |original| == Height
    ensures column == Packed(original)
  {
    column := original;
    var writeY := Height - 1;
    var readY := Height - 1;
    assert original[Height..] == [];
    while readY >= 0
      invariant -1 <= readY < Height
      invariant writeY == Height - 1 - |BlocksOf(original[readY + 1..])|
      invariant column == PartlyPacked(original, readY)
    {
      PartlyPackedStep(original, readY);
      BlocksOfSuffix(original, readY);
      assert column[readY] == original[readY];
      if column[readY].Block? {
        if writeY != readY {
          column := column[writeY := column[readY]][readY := Empty];
        }
        writeY := writeY - 1;
      }
      readY := readY - 1;
    }
    assert original[..0] == [] && original[0..] == original;
  }

  /** Two columns that agree cell by cell are equal. */
  lemma SameCells(a: seq<Cell>, b: seq<Cell>)
    requires |a| == |b| && forall j :: 0 <= j < |a| ==> a[j] == b[j]
    ensures a == b
  {
  }

  /** The empty cells of a suffix are its first cell, if empty, and those after it. */
  lemma {:induction false} EmptyCountSuffix(s: seq<Cell>, i: int)
    requires 0 <= i < |s|
    ensures EmptyCount(s[i..]) == (if s[i].Empty? then 1 else 0) + EmptyCount(s[i + 1..])
  {
    assert s[i..][1..] == s[i + 1..];
  }

  /** Phase 1 of gravity on one column, from the bottom up, counting empty cells. */
  method FloatColumn(original: seq<Cell>, bs: real) returns (column: seq<Cell>)
    requires |original| == Height
    ensures column == MarkFloatingColumn(original, bs)
  {
    ghost var target := MarkFloatingColumn(original, bs);
    column := original;
    var emptySpaces := 0;
    var y := Height - 1;
    while y >= 0
      invariant -1 <= y < Height && |column| == Height
      invariant emptySpaces == EmptyCount(original[y + 1..])
      invariant forall j :: 0 <= j <= y ==> column[j] == original[j]
      invariant forall j :: y < j < Height ==> column[j] == target[j]
    {
      EmptyCountSuffix(original, y);
      assert target[y] == FloatCell(original[y], y, emptySpaces, bs);
      var block := column[y];
      if block.Empty? {
        emptySpaces := emptySpaces + 1;
      } else if emptySpaces > 0 && block.state == Idle && block.targetY.None? {
        column := column[y := block.(visualY := RowTop(y, bs), state := Falling, targetY := Some(y + emptySpaces))];
      }
      assert column[y] == target[y];
      y := y - 1;
    }
    SameCells(column, target);
  }

  /**
   * Phase 2 of gravity on one column, from the bottom up; also reports
   * whether any block of the column was falling when the pass began.
   */
  method LandColumn(original: seq<Cell>, deltaTime: real, bs: real) returns (column: seq<Cell>, anythingFalling: bool)
    requires |original| == Height && ColumnTargetsOk(original)
    ensures column == LandFrom(original, Height - 1, deltaTime, bs)
    ensures anythingFalling <==> exists j :: 0 <= j < Height && IsFalling(original[j])
  {
    column := original;
    anythingFalling := false;
    var y := Height - 1;
    while y >= 0
      invariant -1 <= y < Height && |column| == Height && ColumnTargetsOk(column)
      invariant LandFrom(column, y, deltaTime, bs) == LandFrom(original, Height - 1, deltaTime, bs)
      invariant anythingFalling <==> exists j :: y < j < Height && IsFalling(original[j])
      invariant !anythingFalling ==> column == original
    {
      if column[y].Block? && column[y].state == Falling {
        anythingFalling := true;
        column := LandAt(column, y, deltaTime, bs);
      }
      y := y - 1;
    }
  }

  /** Whether a cell of the grid lies in a run of three, as one boolean per cell. */
  predicate IsMatchGrid(m: seq<seq<bool>>)
  {
    |m| == Width && forall i :: 0 <= i < Width ==> |m[i]| == Height
  }

  /**
   * The two scans of a match pass: every row, then every column, each with
   * the run-length scan, their marks merged into one boolean grid.
   */
  method FindMatches(grid: Grid, e: Eligibility) returns (matchGrid: seq<seq<bool>>)
    ensures IsMatchGrid(matchGrid)
    ensures forall i, j :: 0 <= i < Width && 0 <= j < Height ==> (matchGrid[i][j] <==> InMatch(grid, i, j, e))
  {
    matchGrid := seq(Width, _ => seq(Height, _ => false));
    for y := 0 to Height
      invariant IsMatchGrid(matchGrid)
      invariant forall i, j {:trigger matchGrid[i][j]} :: 0 <= i < Width && 0 <= j < Height ==>
        (matchGrid[i][j] <==> j < y && InTriple(Row(grid, j), i, e))
    {
      var marks := ScanRuns(Row(grid, y), e);
      matchGrid := seq(Width, i requires 0 <= i < Width => matchGrid[i][y := marks[i]]);
    }
    for x := 0 to Width
      invariant IsMatchGrid(matchGrid)
      invariant forall i, j {:trigger matchGrid[i][j]} :: 0 <= i < Width && 0 <= j < Height ==>
        (matchGrid[i][j] <==> InTriple(Row(grid, j), i, e) || (i < x && InTriple(grid[i], j, e)))
    {
      var marks := ScanRuns(grid[x], e);
      matchGrid := matchGrid[x := seq(Height, j requires 0 <= j < Height => matchGrid[x][j] || marks[j])];
    }
  }

  // =====================================================================
  // The board

  /** Cell (i, j) comes before (x, y) in a column-major walk. */
  predicate ColumnMajorBefore(i: int, j: int, x: int, y: int)
  {
    i < x || (i == x && j < y)
  }

  class Board {
    const isPlayer: bool
    const blockSize: real
    var grid: Grid
    var comboCount: nat
    var isResolving: bool
    var cursorX: int
    var cursorY: int

    ghost predicate Valid()
      reads this
    {
      && blockSize == (if isPlayer then PlayerBlockSize else AiBlockSize)
      && 0 <= cursorX <= Width - 2 && 0 <= cursorY < Height
      && TargetsInRange(grid)
    }

    /**
     * A fresh board: the lower half filled with the drawn colours, then
     * clean-up rounds (mark with the initial rules, clear, compact) until no
     * run of three is left.
     */
    constructor (isPlayer: bool, kinds: seq<seq<Kind>>)
      requires IsKindGrid(kinds)
      ensures Valid() && this.isPlayer == isPlayer
      ensures comboCount == 0 && !isResolving && cursorX == 2 && cursorY == 5
      ensures Pristine(grid) && SettledGrid(grid) && NoMatches(grid, AnyBlock)
    {
      this.isPlayer := isPlayer;
      blockSize := if isPlayer then PlayerBlockSize else AiBlockSize;
      comboCount := 0;
      isResolving := false;
      cursorX := 2;
      cursorY := 5;
      new;
      PopulateGrid(kinds);
      PopulatedIsCalm(kinds, blockSize);
      ghost var before := grid;
      var marked := HandleMatches(true);
      while marked > 0
        invariant Valid() && this.isPlayer == isPlayer
        invariant comboCount == 0 && !isResolving && cursorX == 2 && cursorY == 5
        invariant Pristine(before) && SettledGrid(before)
        invariant grid == MarkMatches(before, true)
        invariant marked == StateCount(grid, Cleared)
        decreases BlockCount(before)
      {
        CleanupRoundShrinks(before);
        ClearBlocks();
        ApplyInitialGravity();
        before := grid;
        marked := HandleMatches(true);
      }
      CleanupFinished(before);
      isResolving := false;
    }

    method PopulateGrid(kinds: seq<seq<Kind>>)
      requires IsKindGrid(kinds)
      modifies this`grid
      ensures grid == Populated(kinds, blockSize)
    {
      var columns: seq<seq<Cell>> := [];
      for x := 0 to Width
        invariant |columns| == x
        invariant forall i :: 0 <= i < x ==> columns[i] == Populated(kinds, blockSize)[i]
      {
        var column: seq<Cell> := [];
        for y := 0 to Height
          invariant |column| == y
          invariant forall j :: 0 <= j < y ==> column[j] == Populated(kinds, blockSize)[x][j]
        {
          if y < Height / 2 {
            column := column + [Empty];
          } else {
            column := column + [RestingBlock(kinds[x][y], y, blockSize)];
          }
        }
        columns := columns + [column];
      }
      grid := columns;
    }

    /** The swap at (x, y) with (x + 1, y); reports whether it happened. */
    method SwapBlocks(x: int, y: int, simulation: bool) returns (ok: bool)
      requires Valid()
      requires simulation ==> 0 <= x < Width - 1 && 0 <= y < Height
      modifies this`grid
      ensures Valid()
      ensures SwapOutcome(ok, grid) == Swap(old(grid), x, y, simulation)
    {
      SwapKeepsTargets(grid, x, y, simulation);
      var b1 := CellAt(grid, x, y);
      var b2 := CellAt(grid, x + 1, y);
      if simulation {
        grid := SetCell(SetCell(grid, x, y, b2.value), x + 1, y, b1.value);
        return true;
      }
      if IsIdle(b1) && b2 == Some(Empty) {
        PerformSwap(x, x + 1, y);
        return true;
      }
      if IsIdle(b2) && b1 == Some(Empty) {
        PerformSwap(x + 1, x, y);
        return true;
      }
      if IsIdle(b1) && IsIdle(b2) {
        grid := SetCell(SetCell(grid, x, y, b2.value), x + 1, y, b1.value);
        return true;
      }
      return false;
    }

    /** Slides the block at (fromX, y) into (toX, y) and re-targets the blocks falling onto it. */
    method PerformSwap(fromX: int, toX: int, y: int)
      requires InBounds(fromX, y) && InBounds(toX, y) && fromX != toX
      modifies this`grid
      ensures grid == Slide(old(grid), fromX, toX, y)
    {
      var moving := grid[fromX][y];
      grid := SetCell(grid, toX, y, moving);
      grid := SetCell(grid, fromX, y, Empty);
      ghost var moved := grid;
      var newFloorY := y;
      var checkY := y - 1;
      while checkY >= 0
        invariant -1 <= checkY < y
        invariant grid == moved[toX := grid[toX]]
        invariant Retarget(grid[toX], checkY, newFloorY) == Retarget(moved[toX], y - 1, y)
      {
        var above := grid[toX][checkY];
        if above.Block? && above.state == Falling {
          grid := SetCell(grid, toX, checkY, above.(targetY := Some(newFloorY - 1)));
          newFloorY := newFloorY - 1;
        } else if above.Block? {
          break;
        }
        checkY := checkY - 1;
      }
    }

    /** Compacts every column downwards at once, keeping the order of its blocks. */
    method ApplyInitialGravity()
      modifies this`grid
      ensures grid == CompactGrid(old(grid))
    {
      for x := 0 to Width
        invariant forall i :: 0 <= i < x ==> grid[i] == Packed(old(grid)[i])
        invariant forall i :: x <= i < Width ==> grid[i] == old(grid)[i]
      {
        var column := CompactColumn(grid[x]);
        grid := grid[x := column];
      }
    }

    /** Phase 1 of gravity: marks every floating idle block as falling towards its landing row. */
    method MarkFloatingBlocks()
      modifies this`grid
      ensures grid == MarkFloating(old(grid), blockSize)
    {
      for x := 0 to Width
        invariant forall i :: 0 <= i < x ==> grid[i] == MarkFloatingColumn(old(grid)[i], blockSize)
        invariant forall i :: x <= i < Width ==> grid[i] == old(grid)[i]
      {
        var column := FloatColumn(grid[x], blockSize);
        grid := grid[x := column];
      }
    }

    /**
     * Phase 2 of gravity: animates and lands the falling blocks, and reports
     * whether any block was falling when the pass began.
     */
    method LandFallingBlocks(deltaTime: real) returns (anythingFalling: bool)
      requires TargetsInRange(grid)
      modifies this`grid
      ensures grid == LandGrid(old(grid), deltaTime, blockSize)
      ensures anythingFalling <==> AnyFalling(old(grid))
    {
      anythingFalling := false;
      for x := 0 to Width
        invariant TargetsInRange(grid)
        invariant forall i :: 0 <= i < x ==> grid[i] == LandFrom(old(grid)[i], Height - 1, deltaTime, blockSize)
        invariant forall i :: x <= i < Width ==> grid[i] == old(grid)[i]
        invariant anythingFalling <==> exists i, j :: 0 <= i < x && 0 <= j < Height && IsFalling(old(grid)[i][j])
      {
        var column, falling := LandColumn(grid[x], deltaTime, blockSize);
        grid := grid[x := column];
        anythingFalling := anythingFalling || falling;
      }
    }

    /** Both gravity phases; reports whether anything was falling at the start of phase 2. */
    method UpdateGravityAndFallingBlocks(deltaTime: real) returns (anythingFalling: bool)
      requires TargetsInRange(grid)
      modifies this`grid
      ensures TargetsInRange(grid)
      ensures grid == LandGrid(MarkFloating(old(grid), blockSize), deltaTime, blockSize)
      ensures anythingFalling <==> AnyFalling(MarkFloating(old(grid), blockSize))
    {
      FloatingMarked(grid, blockSize);
      MarkFloatingBlocks();
      anythingFalling := LandFallingBlocks(deltaTime);
    }

    /**
     * Marks every block in a run of three (horizontal or vertical) and
     * returns how many blocks are now in the marking state.
     */
    method HandleMatches(initial: bool) returns (count: int)
      requires TargetsInRange(grid)
      modifies this`grid
      ensures TargetsInRange(grid)
      ensures grid == MarkMatches(old(grid), initial)
      ensures count == StateCount(grid, ClearingState(initial))
    {
      var matchGrid := FindMatches(grid, EligibilityFor(initial));
      ghost var original := grid;
      var state := ClearingState(initial);
      for x := 0 to Width
        invariant forall i, j :: 0 <= i < Width && 0 <= j < Height ==>
          grid[i][j] == if i < x then MarkMatches(original, initial)[i][j] else original[i][j]
      {
        for y := 0 to Height
          invariant forall i, j :: 0 <= i < Width && 0 <= j < Height ==>
            grid[i][j] == if ColumnMajorBefore(i, j, x, y) then MarkMatches(original, initial)[i][j] else original[i][j]
        {
          if matchGrid[x][y] && grid[x][y].Block? {
            grid := SetCell(grid, x, y, grid[x][y].(state := state));
          }
        }
      }
      GridExtensionality(grid, MarkMatches(original, initial));
      count := StateCount(grid, state);
    }

    /** Removes every clearing or cleared block. */
    method ClearBlocks()
      modifies this`grid
      ensures grid == ClearGrid(old(grid))
    {
      ghost var original := grid;
      for x := 0 to Width
        invariant forall i, j :: 0 <= i < Width && 0 <= j < Height ==>
          grid[i][j] == if i < x then ClearCell(original[i][j]) else original[i][j]
      {
        for y := 0 to Height
          invariant forall i, j :: 0 <= i < Width && 0 <= j < Height ==>
            grid[i][j] == if ColumnMajorBefore(i, j, x, y) then ClearCell(original[i][j]) else original[i][j]
        {
          if HasState(grid[x][y], Clearing) || HasState(grid[x][y], Cleared) {
            grid := SetCell(grid, x, y, Empty);
          }
        }
      }
      GridExtensionality(grid, ClearGrid(original));
    }

    /** The first cell, column by column, equal to the given block, if any. */
    method FindBlockPosition(block: Cell) returns (pos: Option<(int, int)>)
      ensures pos.Some? ==> InBounds(pos.value.0, pos.value.1) && grid[pos.value.0][pos.value.1] == block
      ensures pos.Some? ==> forall i, j :: InBounds(i, j) && ColumnMajorBefore(i, j, pos.value.0, pos.value.1) ==> grid[i][j] != block
      ensures pos.None? <==> forall i, j :: InBounds(i, j) ==> grid[i][j] != block
    {
      for x := 0 to Width
        invariant forall i, j :: InBounds(i, j) && i < x ==> grid[i][j] != block
      {
        for y := 0 to Height
          invariant forall i, j :: InBounds(i, j) && ColumnMajorBefore(i, j, x, y) ==> grid[i][j] != block
        {
          if grid[x][y] == block {
            return Some((x, y));
          }
        }
      }
      return None;
    }

    /** Whether any cell of the top row holds a block: a raise would lose. */
    method TopRowOccupied() returns (occupied: bool)
      ensures occupied <==> exists x :: 0 <= x < Width && grid[x][0].Block?
    {
      for x := 0 to Width
        invariant forall i :: 0 <= i < x ==> grid[i][0].Empty?
      {
        if grid[x][0].Block? {
          return true;
        }
      }
      return false;
    }

    /** Moves every row up one and fills the bottom row with idle blocks of the given colours. */
    method ShiftRowsUp(row: seq<Kind>)
      requires |row| == Width
      modifies this`grid
      ensures grid == ShiftedUp(old(grid), row, blockSize)
    {
      ghost var original := grid;
      for y := 0 to Height - 1
        invariant forall i, j {:trigger grid[i][j]} :: 0 <= i < Width && 0 <= j < Height ==>
          grid[i][j] == if j < y then original[i][j + 1] else original[i][j]
      {
        for x := 0 to Width
          invariant forall i, j {:trigger grid[i][j]} :: 0 <= i < Width && 0 <= j < Height ==>
            grid[i][j] == if j < y || (j == y && i < x) then original[i][j + 1] else original[i][j]
        {
          grid := SetCell(grid, x, y, grid[x][y + 1]);
        }
      }
      for x := 0 to Width
        invariant forall i, j {:trigger grid[i][j]} :: 0 <= i < Width && 0 <= j < Height ==>
          grid[i][j] == if j < Height - 1 then original[i][j + 1]
                        else if i < x then RestingBlock(row[i], Height - 1, blockSize)
                        else original[i][j]
      {
        grid := SetCell(grid, x, Height - 1, RestingBlock(row[x], Height - 1, blockSize));
      }
      GridExtensionality(grid, ShiftedUp(original, row, blockSize));
    }
  }
}
