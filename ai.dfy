/**
 * The computer opponent: a board driven by a reaction timer, a queue of
 * planned steps, and an exhaustive search over adjacent swaps that scores
 * each simulated swap by the number of cells it would put in a run of three.
 */
module AiPlanner {
  import opened Blocks
  import opened BoardEngine

  datatype Difficulty = Easy | Hard

  /** A planned step: put the cursor on a cell, or swap at the cursor. */
  datatype Step = MoveCursor(x: int, y: int) | SwapStep

  /** What one thinking tick starts from: the grid, the cursor, the reaction timer, the plan and the raise progress. */
  datatype Mind = Mind(grid: Grid, cursorX: int, cursorY: int, actionTimer: real, plan: seq<Step>, isExecutingPlan: bool, raiseProgress: real)

  /** Milliseconds between two decisions. */
  function ReactionTime(d: Difficulty): real
  {
    if d == Hard then 50.0 else 250.0
  }

  /** Milliseconds per automatic raise of the AI's stack. */
  const AiRaiseInterval: int := 5000

  // =====================================================================
  // Scoring a grid

  /** Number of cells among the first n of row y lying in a run of three, whatever their state. */
  function MarkedInRow(g: Grid, y: int, n: int): nat
    requires 0 <= y < Height && 0 <= n <= Width
  {
    if n == 0 then 0 else MarkedInRow(g, y, n - 1) + (if InMatch(g, n - 1, y, AnyBlock) then 1 else 0)
  }

  /** Number of cells of the first `rows` rows lying in a run of three. */
  function MarkedUpTo(g: Grid, rows: int): nat
    requires 0 <= rows <= Height
  {
    if rows == 0 then 0 else MarkedUpTo(g, rows - 1) + MarkedInRow(g, rows - 1, Width)
  }

  /** The AI's score of a grid: how many cells lie in a run of three, whatever their state. */
  function MatchScore(g: Grid): nat
  {
    MarkedUpTo(g, Height)
  }

  lemma {:induction false} MarkedInRowZero(g: Grid, y: int, n: int)
    requires 0 <= y < Height && 0 <= n <= Width
    ensures MarkedInRow(g, y, n) == 0 <==> forall x :: 0 <= x < n ==> !InMatch(g, x, y, AnyBlock)
    ensures MarkedInRow(g, y, n) <= n
  {
    if n > 0 {
      MarkedInRowZero(g, y, n - 1);
    }
  }

  lemma {:induction false} MarkedUpToZero(g: Grid, rows: int)
    requires 0 <= rows <= Height
    ensures MarkedUpTo(g, rows) == 0 <==> forall x, y :: 0 <= x < Width && 0 <= y < rows ==> !InMatch(g, x, y, AnyBlock)
    ensures MarkedUpTo(g, rows) <= rows * Width
  {
    if rows > 0 {
      MarkedUpToZero(g, rows - 1);
      MarkedInRowZero(g, rows - 1, Width);
    }
  }

  /** A grid scores zero exactly when it has no run of three, and never more than its cell count. */
  lemma ScoreZeroIffNoMatches(g: Grid)
    ensures MatchScore(g) == 0 <==> NoMatches(g, AnyBlock)
    ensures MatchScore(g) <= Width * Height
  {
    MarkedUpToZero(g, Height);
  }

  /**
   * The window scan of one line: every three consecutive cells holding
   * blocks of one colour mark all three, whatever their state.
   */
  method ScanWindows(line: seq<Cell>) returns (marks: seq<bool>)
    ensures |marks| == |line|
    ensures forall i :: 0 <= i < |line| ==> (marks[i] <==> InTriple(line, i, AnyBlock))
  {
    var n := |line|;
    marks := seq(n, _ => false);
    var x := 0;
    while x < n - 2
      invariant 0 <= x && (n >= 2 ==> x <= n - 2) && |marks| == n
      invariant forall i :: 0 <= i < n ==> (marks[i] <==> WindowMarked(line, i, x))
    {
      var b1 := line[x];
      if b1.Block? && line[x + 1].Block? && line[x + 1].kind == b1.kind && line[x + 2].Block? && line[x + 2].kind == b1.kind {
        marks := marks[x := true][x + 1 := true][x + 2 := true];
      }
      x := x + 1;
    }
  }

  /** Cell i lies in one of the windows starting before x that hold three blocks of one colour. */
  predicate WindowMarked(line: seq<Cell>, i: int, x: int)
  {
    (Triple(line, i - 2, AnyBlock) && i - 2 < x) || (Triple(line, i - 1, AnyBlock) && i - 1 < x) || (Triple(line, i, AnyBlock) && i < x)
  }

  /** The window scans of every row and every column, merged into one boolean per cell. */
  method FindWindowMatches(grid: Grid) returns (matchGrid: seq<seq<bool>>)
    ensures IsMatchGrid(matchGrid)
    ensures forall i, j :: 0 <= i < Width && 0 <= j < Height ==> (matchGrid[i][j] <==> InMatch(grid, i, j, AnyBlock))
  {
    matchGrid := seq(Width, _ => seq(Height, _ => false));
    for y := 0 to Height
      invariant IsMatchGrid(matchGrid)
      invariant forall i, j {:trigger matchGrid[i][j]} :: 0 <= i < Width && 0 <= j < Height ==>
        (matchGrid[i][j] <==> j < y && InTriple(Row(grid, j), i, AnyBlock))
    {
      var marks := ScanWindows(Row(grid, y));
      matchGrid := seq(Width, i requires 0 <= i < Width => matchGrid[i][y := marks[i]]);
    }
    for x := 0 to Width
      invariant IsMatchGrid(matchGrid)
      invariant forall i, j {:trigger matchGrid[i][j]} :: 0 <= i < Width && 0 <= j < Height ==>
        (matchGrid[i][j] <==> InTriple(Row(grid, j), i, AnyBlock) || (i < x && InTriple(grid[i], j, AnyBlock)))
    {
      var marks := ScanWindows(grid[x]);
      matchGrid := matchGrid[x := seq(Height, j requires 0 <= j < Height => matchGrid[x][j] || marks[j])];
    }
  }

  /**
   * The blocks a grid would clear, listed row by row, and the per-cell marks:
   * the list holds one block per cell lying in a run of three.
   */
  method FindMatchesInGrid(grid: Grid) returns (clearingBlocks: seq<Cell>, matchGrid: seq<seq<bool>>)
    ensures IsMatchGrid(matchGrid)
    ensures forall i, j :: 0 <= i < Width && 0 <= j < Height ==> (matchGrid[i][j] <==> InMatch(grid, i, j, AnyBlock))
    ensures |clearingBlocks| == MatchScore(grid)
    ensures forall k :: 0 <= k < |clearingBlocks| ==> clearingBlocks[k].Block?
  {
    matchGrid := FindWindowMatches(grid);
    clearingBlocks := [];
    for y := 0 to Height
      invariant |clearingBlocks| == MarkedUpTo(grid, y)
      invariant forall k :: 0 <= k < |clearingBlocks| ==> clearingBlocks[k].Block?
    {
      for x := 0 to Width
        invariant |clearingBlocks| == MarkedUpTo(grid, y) + MarkedInRow(grid, y, x)
        invariant forall k :: 0 <= k < |clearingBlocks| ==> clearingBlocks[k].Block?
      {
        if matchGrid[x][y] {
          if InTriple(Row(grid, y), x, AnyBlock) {
            InTripleIsBlock(Row(grid, y), x, AnyBlock);
          } else {
            InTripleIsBlock(grid[x], y, AnyBlock);
          }
          clearingBlocks := clearingBlocks + [grid[x][y]];
        }
      }
    }
  }

  // =====================================================================
  // The swap search

  /** An adjacent pair the search may try: two idle blocks side by side. */
  predicate Candidate(g: Grid, x: int, y: int)
  {
    0 <= x < Width - 1 && 0 <= y < Height && IsIdle(Some(g[x][y])) && IsIdle(Some(g[x + 1][y]))
  }

  /** The score of the grid after the simulated swap at (x, y). */
  function SwapScore(g: Grid, x: int, y: int): nat
    requires 0 <= x < Width - 1 && 0 <= y < Height
  {
    MatchScore(Swap(g, x, y, true).grid)
  }

  /** Cell (i, j) comes before (x, y) in a row-major walk. */
  predicate RowMajorBefore(i: int, j: int, x: int, y: int)
  {
    j < y || (j == y && i < x)
  }

  predicate NoCandidate(g: Grid)
  {
    forall i, j :: 0 <= i < Width - 1 && 0 <= j < Height ==> !Candidate(g, i, j)
  }

  /**
   * The pair the search settles on: a candidate whose score no candidate
   * beats, and that every earlier candidate (row by row, left to right)
   * scores strictly below.
   */
  ghost predicate IsBestSwap(g: Grid, x: int, y: int)
  {
    && Candidate(g, x, y)
    && (forall i, j :: Candidate(g, i, j) ==> SwapScore(g, i, j) <= SwapScore(g, x, y))
    && (forall i, j :: Candidate(g, i, j) && RowMajorBefore(i, j, x, y) ==> SwapScore(g, i, j) < SwapScore(g, x, y))
  }

  /**
   * The search after every pair before (x, y): it has kept a pair exactly when
   * an earlier candidate exists, and the kept pair has the highest score so
   * far and beats every candidate before it.
   */
  ghost predicate SearchSoFar(g: Grid, best: Option<(int, int)>, bestScore: int, x: int, y: int)
  {
    && (best.None? <==> forall i, j :: Candidate(g, i, j) ==> !RowMajorBefore(i, j, x, y))
    && (best.None? ==> bestScore == -1)
    && (best.Some? ==>
      && Candidate(g, best.value.0, best.value.1) && bestScore == SwapScore(g, best.value.0, best.value.1)
      && RowMajorBefore(best.value.0, best.value.1, x, y)
      && (forall i, j :: Candidate(g, i, j) && RowMajorBefore(i, j, x, y) ==> SwapScore(g, i, j) <= bestScore)
      && (forall i, j :: Candidate(g, i, j) && RowMajorBefore(i, j, best.value.0, best.value.1) ==> SwapScore(g, i, j) < bestScore))
  }

  lemma SearchSkip(g: Grid, best: Option<(int, int)>, bestScore: int, x: int, y: int)
    requires 0 <= x < Width - 1 && 0 <= y < Height && SearchSoFar(g, best, bestScore, x, y)
    requires !Candidate(g, x, y) || SwapScore(g, x, y) <= bestScore
    ensures SearchSoFar(g, best, bestScore, x + 1, y)
  {
  }

  lemma SearchTake(g: Grid, best: Option<(int, int)>, bestScore: int, x: int, y: int)
    requires 0 <= x < Width - 1 && 0 <= y < Height && SearchSoFar(g, best, bestScore, x, y)
    requires Candidate(g, x, y) && SwapScore(g, x, y) > bestScore
    ensures SearchSoFar(g, Some((x, y)), SwapScore(g, x, y), x + 1, y)
  {
  }

  lemma SearchNextRow(g: Grid, best: Option<(int, int)>, bestScore: int, y: int)
    requires SearchSoFar(g, best, bestScore, Width - 1, y)
    ensures SearchSoFar(g, best, bestScore, 0, y + 1)
  {
  }

  lemma SearchDone(g: Grid, best: Option<(int, int)>, bestScore: int)
    requires SearchSoFar(g, best, bestScore, 0, Height)
    ensures best.None? <==> NoCandidate(g)
    ensures best.Some? ==> IsBestSwap(g, best.value.0, best.value.1)
  {
  }

  /** The search's choice is determined by the grid: at most one pair is the best. */
  lemma BestSwapUnique(g: Grid, x: int, y: int, x': int, y': int)
    requires IsBestSwap(g, x, y) && IsBestSwap(g, x', y')
    ensures x == x' && y == y'
  {
  }

  // =====================================================================
  // Centred run checks

  /** A neighbour that continues a run of colour k. */
  predicate Companion(c: Cell, k: Kind, e: Eligibility)
  {
    Eligible(c, e) && c.kind == k
  }

  /** Cells a, a + 1, a + 2 hold cell i, and the other two continue its colour. */
  predicate WindowThrough(line: seq<Cell>, a: int, i: int, e: Eligibility)
    requires 0 <= i < |line| && line[i].Block?
  {
    0 <= a && a + 2 < |line| && a <= i <= a + 2 &&
    forall j :: a <= j <= a + 2 && j != i ==> Companion(line[j], line[i].kind, e)
  }

  /** Block i and two of its neighbours make three in a row of its colour. */
  predicate RunThrough(line: seq<Cell>, i: int, e: Eligibility)
    requires 0 <= i < |line| && line[i].Block?
  {
    WindowThrough(line, i - 2, i, e) || WindowThrough(line, i - 1, i, e) || WindowThrough(line, i, i, e)
  }

  /** With an eligible centre, a run through a cell is a run of three containing it. */
  lemma RunThroughIsInTriple(line: seq<Cell>, i: int, e: Eligibility)
    requires 0 <= i < |line| && Eligible(line[i], e)
    ensures RunThrough(line, i, e) <==> InTriple(line, i, e)
  {
    if Triple(line, i - 2, e) {
      assert WindowThrough(line, i - 2, i, e);
    }
    if Triple(line, i - 1, e) {
      assert WindowThrough(line, i - 1, i, e);
    }
    if Triple(line, i, e) {
      assert WindowThrough(line, i, i, e);
    }
  }

  /** Counts the companions of colour k met walking left from cell i. */
  method CountLeft(line: seq<Cell>, i: int, k: Kind, e: Eligibility) returns (n: nat)
    requires 0 <= i < |line|
    ensures n <= i
    ensures forall j :: i - n <= j < i ==> Companion(line[j], k, e)
    ensures i - n - 1 >= 0 ==> !Companion(line[i - n - 1], k, e)
  {
    n := 0;
    while i - n - 1 >= 0 && Companion(line[i - n - 1], k, e)
      invariant n <= i
      invariant forall j :: i - n <= j < i ==> Companion(line[j], k, e)
    {
      n := n + 1;
    }
  }

  /** Counts the companions of colour k met walking right from cell i. */
  method CountRight(line: seq<Cell>, i: int, k: Kind, e: Eligibility) returns (n: nat)
    requires 0 <= i < |line|
    ensures i + n < |line|
    ensures forall j :: i < j <= i + n ==> Companion(line[j], k, e)
    ensures i + n + 1 < |line| ==> !Companion(line[i + n + 1], k, e)
  {
    n := 0;
    while i + n + 1 < |line| && Companion(line[i + n + 1], k, e)
      invariant i + n < |line|
      invariant forall j :: i < j <= i + n ==> Companion(line[j], k, e)
    {
      n := n + 1;
    }
  }

  /**
   * A block with l companions to its left and r to its right, both walks
   * stopped by a non-companion or the edge, lies in a run of three exactly
   * when l + r >= 2.
   */
  lemma CentredRun(line: seq<Cell>, i: int, e: Eligibility, l: nat, r: nat)
    requires 0 <= i < |line| && line[i].Block?
    requires l <= i && i + r < |line|
    requires forall j :: i - l <= j < i ==> Companion(line[j], line[i].kind, e)
    requires forall j :: i < j <= i + r ==> Companion(line[j], line[i].kind, e)
    requires i - l - 1 >= 0 ==> !Companion(line[i - l - 1], line[i].kind, e)
    requires i + r + 1 < |line| ==> !Companion(line[i + r + 1], line[i].kind, e)
    ensures RunThrough(line, i, e) <==> l + r >= 2
  {
    if l >= 2 {
      assert WindowThrough(line, i - 2, i, e) by {
        assert Companion(line[i - 2], line[i].kind, e) && Companion(line[i - 1], line[i].kind, e);
      }
    } else if l == 1 && r >= 1 {
      assert WindowThrough(line, i - 1, i, e) by {
        assert Companion(line[i - 1], line[i].kind, e) && Companion(line[i + 1], line[i].kind, e);
      }
    } else if r >= 2 {
      assert WindowThrough(line, i, i, e) by {
        assert Companion(line[i + 1], line[i].kind, e) && Companion(line[i + 2], line[i].kind, e);
      }
    } else {
      assert !WindowThrough(line, i - 2, i, e) && !WindowThrough(line, i - 1, i, e) && !WindowThrough(line, i, i, e);
    }
  }

  /** Whether the line has a run of three through block i, counted outwards from it. */
  method CountedRun(line: seq<Cell>, i: int, e: Eligibility) returns (found: bool)
    requires 0 <= i < |line| && line[i].Block?
    ensures found <==> RunThrough(line, i, e)
  {
    var count := 1;
    var l := CountLeft(line, i, line[i].kind, e);
    var r := CountRight(line, i, line[i].kind, e);
    count := count + l + r;
    CentredRun(line, i, e, l, r);
    found := count >= 3;
  }

  /**
   * The match check on any grid: the cell holds a block and a horizontal or
   * vertical run of at least three blocks of its colour passes through it,
   * whatever their state. Off-grid coordinates hold nothing.
   */
  method CheckForMatchInGrid(grid: Grid, x: int, y: int) returns (found: bool)
    ensures found <==> InBounds(x, y) && grid[x][y].Block? && InMatch(grid, x, y, AnyBlock)
  {
    var block := CellAt(grid, x, y);
    if block.None? || block.value.Empty? {
      return false;
    }
    RunThroughIsInTriple(Row(grid, y), x, AnyBlock);
    RunThroughIsInTriple(grid[x], y, AnyBlock);
    found := CountedRun(Row(grid, y), x, AnyBlock);
    if found {
      return true;
    }
    found := CountedRun(grid[x], y, AnyBlock);
  }

  /** An idle centre is eligible for a run that excludes clearing blocks. */
  lemma IdleCentreAgrees(g: Grid, x: int, y: int)
    requires InBounds(x, y) && HasState(g[x][y], Idle)
    ensures (RunThrough(Row(g, y), x, NotClearing) || RunThrough(g[x], y, NotClearing)) <==> InMatch(g, x, y, NotClearing)
  {
    RunThroughIsInTriple(Row(g, y), x, NotClearing);
    RunThroughIsInTriple(g[x], y, NotClearing);
  }

  // =====================================================================
  // The AI's board

  class Ai {
    const board: Board
    const difficulty: Difficulty
    const reactionTime: real
    var actionTimer: real
    var plan: seq<Step>
    var isExecutingPlan: bool
    var isManualRaising: bool
    var raiseProgress: real
    const currentRaiseInterval: int

    ghost predicate Valid()
      reads this, board
    {
      && board.Valid() && !board.isPlayer
      && reactionTime == ReactionTime(difficulty)
      && currentRaiseInterval == AiRaiseInterval
      && (forall k :: 0 <= k < |plan| && plan[k].MoveCursor? ==> 0 <= plan[k].x <= Width - 2 && 0 <= plan[k].y < Height)
      && (!isExecutingPlan ==> plan == [])
    }

    constructor (difficulty: Difficulty, kinds: seq<seq<Kind>>)
      requires IsKindGrid(kinds)
      ensures Valid() && fresh(board)
      ensures this.difficulty == difficulty && actionTimer == reactionTime
      ensures plan == [] && !isExecutingPlan && !isManualRaising && raiseProgress == 0.0
      ensures Pristine(board.grid) && SettledGrid(board.grid) && NoMatches(board.grid, AnyBlock)
      ensures board.comboCount == 0 && !board.isResolving
    {
      board := new Board(false, kinds);
      this.difficulty := difficulty;
      reactionTime := ReactionTime(difficulty);
      actionTimer := ReactionTime(difficulty);
      plan := [];
      isExecutingPlan := false;
      isManualRaising := false;
      raiseProgress := 0.0;
      currentRaiseInterval := AiRaiseInterval;
    }

    /** The AI's thinking state as it is now. */
    function MindNow(): Mind
      reads this, board
    {
      Mind(board.grid, board.cursorX, board.cursorY, actionTimer, plan, isExecutingPlan, raiseProgress)
    }

    /**
     * Whether the AI's present state is what one thinking tick makes of
     * `m`: on an unstable board (resolving, or a block falling) the timer
     * restarts and nothing else changes; while the timer runs it only counts
     * down; once it expires it restarts, and the AI either runs the next step
     * of its plan (a cursor move, or a swap at the cursor), or plans the best
     * swap, or, with no plan left, raises its stack at the automatic speed, a
     * full row reporting a lost raise exactly when the top row is occupied.
     */
    ghost predicate Thought(m: Mind, deltaTime: real, newRow: seq<Kind>, result: RaiseResult)
      requires 0 <= m.cursorX < Width - 1 && 0 <= m.cursorY < Height && currentRaiseInterval > 0 && |newRow| == Width
      reads this, board
    {
      && (result == NoResult || result == GameOver)
      && ((board.isResolving || AnyFalling(m.grid)) ==>
        && actionTimer == reactionTime && result == NoResult
        && plan == m.plan && isExecutingPlan == m.isExecutingPlan && raiseProgress == m.raiseProgress
        && board.grid == m.grid && board.cursorX == m.cursorX && board.cursorY == m.cursorY)
      && (!(board.isResolving || AnyFalling(m.grid)) && m.actionTimer - deltaTime > 0.0 ==>
        && actionTimer == m.actionTimer - deltaTime && result == NoResult
        && plan == m.plan && isExecutingPlan == m.isExecutingPlan && raiseProgress == m.raiseProgress
        && board.grid == m.grid && board.cursorX == m.cursorX && board.cursorY == m.cursorY)
      && (!(board.isResolving || AnyFalling(m.grid)) && m.actionTimer - deltaTime <= 0.0 ==>
        && actionTimer == reactionTime
        && (m.isExecutingPlan && m.plan != [] ==>
              && plan == m.plan[1..] && isExecutingPlan && result == NoResult && raiseProgress == m.raiseProgress
              && (m.plan[0].MoveCursor? ==>
                    board.cursorX == m.plan[0].x && board.cursorY == m.plan[0].y && board.grid == m.grid)
              && (m.plan[0].SwapStep? ==>
                    && board.cursorX == m.cursorX && board.cursorY == m.cursorY
                    && board.grid == Swap(m.grid, m.cursorX, m.cursorY, true).grid))
        && (!m.isExecutingPlan && !NoCandidate(m.grid) ==>
              && plan == [SwapStep] && isExecutingPlan && IsBestSwap(m.grid, board.cursorX, board.cursorY)
              && board.grid == m.grid && result == NoResult && raiseProgress == m.raiseProgress)
        && ((m.isExecutingPlan && m.plan == []) || (!m.isExecutingPlan && NoCandidate(m.grid)) ==>
              && plan == [] && !isExecutingPlan
              && board.cursorX == m.cursorX && board.cursorY == m.cursorY
              && var progress := m.raiseProgress + RaiseGain(AutoRaiseSpeed(board.blockSize, currentRaiseInterval), deltaTime);
                 if progress >= board.blockSize then
                   && raiseProgress == progress - board.blockSize
                   && (result == GameOver <==> exists x :: 0 <= x < Width && m.grid[x][0].Block?)
                   && (result == GameOver ==> board.grid == m.grid)
                   && (result != GameOver ==> result == NoResult && board.grid == ShiftedUp(m.grid, newRow, board.blockSize))
                 else
                   raiseProgress == progress && result == NoResult && board.grid == m.grid))
    }

    /**
     * One thinking tick. On an unstable board (resolving, or a block falling)
     * only the reaction timer is re-armed. Otherwise the timer runs down; when
     * it expires it is re-armed and the AI executes one plan step or makes a
     * plan, then raises its stack when no plan is running.
     */
    method Update(deltaTime: real, newRow: seq<Kind>) returns (result: RaiseResult)
      requires Valid() && |newRow| == Width
      modifies this`actionTimer, this`plan, this`isExecutingPlan, this`raiseProgress
      modifies board`grid, board`cursorX, board`cursorY
      ensures Valid() && Thought(old(MindNow()), deltaTime, newRow, result)
    {
      var falling := AnyFallingNow();
      var isBoardStable := !board.isResolving && !falling;
      if !isBoardStable {
        actionTimer := reactionTime;
        return NoResult;
      }
      actionTimer := actionTimer - deltaTime;
      if actionTimer > 0.0 {
        return NoResult;
      }
      actionTimer := reactionTime;
      if isExecutingPlan {
        ExecuteNextStep();
      } else {
        CreatePlan();
      }
      result := NoResult;
      if !isExecutingPlan {
        ghost var planNow := plan;
        result := UpdateRaise(deltaTime, true, newRow);
        assert plan == planNow;
      }
    }

    /** Whether any block of the AI's grid is falling. */
    method AnyFallingNow() returns (falling: bool)
      ensures falling <==> AnyFalling(board.grid)
    {
      for x := 0 to Width
        invariant forall i, j :: 0 <= i < x && 0 <= j < Height ==> !IsFalling(board.grid[i][j])
      {
        for y := 0 to Height
          invariant forall i, j :: 0 <= i < x && 0 <= j < Height ==> !IsFalling(board.grid[i][j])
          invariant forall j :: 0 <= j < y ==> !IsFalling(board.grid[x][j])
        {
          if IsFalling(board.grid[x][y]) {
            return true;
          }
        }
      }
      return false;
    }

    /**
     * Searches for the best swap; when one exists, plans "move the cursor
     * there, then swap" and executes the first step at once.
     */
    method CreatePlan()
      requires Valid() && !isExecutingPlan
      modifies this`plan, this`isExecutingPlan, board`grid, board`cursorX, board`cursorY
      ensures Valid() && board.grid == old(board.grid)
      ensures NoCandidate(board.grid) ==>
        plan == [] && !isExecutingPlan && board.cursorX == old(board.cursorX) && board.cursorY == old(board.cursorY)
      ensures !NoCandidate(board.grid) ==>
        plan == [SwapStep] && isExecutingPlan && IsBestSwap(board.grid, board.cursorX, board.cursorY)
    {
      var opportunity := FindBestOpportunity();
      if opportunity.Some? {
        var (x, y) := opportunity.value;
        plan := plan + [MoveCursor(x, y), SwapStep];
        isExecutingPlan := true;
        ExecuteNextStep();
      }
    }

    /** Takes the first step off the plan and performs it; an empty plan ends its execution. */
    method ExecuteNextStep()
      requires Valid()
      modifies this`plan, this`isExecutingPlan, board`grid, board`cursorX, board`cursorY
      ensures Valid()
      ensures old(plan) == [] ==>
        && plan == [] && !isExecutingPlan && board.grid == old(board.grid)
        && board.cursorX == old(board.cursorX) && board.cursorY == old(board.cursorY)
      ensures old(plan) != [] ==> plan == old(plan)[1..] && isExecutingPlan == old(isExecutingPlan)
      ensures old(plan) != [] && old(plan)[0].MoveCursor? ==>
        && board.cursorX == old(plan)[0].x && board.cursorY == old(plan)[0].y && board.grid == old(board.grid)
      ensures old(plan) != [] && old(plan)[0].SwapStep? ==>
        && board.cursorX == old(board.cursorX) && board.cursorY == old(board.cursorY)
        && board.grid == Swap(old(board.grid), board.cursorX, board.cursorY, true).grid
    {
      if plan == [] {
        isExecutingPlan := false;
        return;
      }
      var step := plan[0];
      plan := plan[1..];
      match step {
        case MoveCursor(x, y) =>
          board.cursorX := x;
          board.cursorY := y;
        case SwapStep =>
          var _ := board.SwapBlocks(board.cursorX, board.cursorY, true);
      }
    }

    /**
     * Tries every adjacent pair of idle blocks, row by row: simulates the
     * swap, scores the grid, and undoes the swap. Keeps the first pair with
     * the highest score; any score beats the initial -1, so a pair scoring
     * zero is still chosen.
     */
    method FindBestOpportunity() returns (best: Option<(int, int)>)
      requires Valid()
      modifies board`grid
      ensures Valid() && board.grid == old(board.grid)
      ensures best.None? <==> NoCandidate(board.grid)
      ensures best.Some? ==> IsBestSwap(board.grid, best.value.0, best.value.1)
    {
      ghost var g := board.grid;
      best := None;
      var bestScore := -1;
      for y := 0 to Height
        invariant Valid() && board.grid == g
        invariant SearchSoFar(g, best, bestScore, 0, y)
      {
        for x := 0 to Width - 1
          invariant Valid() && board.grid == g
          invariant SearchSoFar(g, best, bestScore, x, y)
        {
          var b1 := board.grid[x][y];
          var b2 := board.grid[x + 1][y];
          if !b1.Block? || !b2.Block? || b1.state != Idle || b2.state != Idle {
            SearchSkip(g, best, bestScore, x, y);
            continue;
          }
          var _ := board.SwapBlocks(x, y, true);
          var score := EvaluateBoardState();
          var _ := board.SwapBlocks(x, y, true);
          SimulatedSwapInvolution(g, x, y);
          if score > bestScore {
            SearchTake(g, best, bestScore, x, y);
            bestScore := score;
            best := Some((x, y));
          } else {
            SearchSkip(g, best, bestScore, x, y);
          }
        }
        SearchNextRow(g, best, bestScore, y);
      }
      SearchDone(g, best, bestScore);
    }

    /** The score of the current grid: how many blocks a match pass ignoring states would take. */
    method EvaluateBoardState() returns (score: int)
      ensures score == MatchScore(board.grid)
    {
      var clearingBlocks, _ := FindMatchesInGrid(board.grid);
      score := |clearingBlocks|;
    }

    /** The match check at (x, y) on this grid: clearing neighbours do not count, and outside simulation the cell must be idle. */
    method CheckForMatchAt(x: int, y: int, simulation: bool) returns (found: bool)
      ensures found <==>
        && InBounds(x, y) && board.grid[x][y].Block?
        && (simulation || board.grid[x][y].state == Idle)
        && (RunThrough(Row(board.grid, y), x, NotClearing) || RunThrough(board.grid[x], y, NotClearing))
    {
      var block := CellAt(board.grid, x, y);
      var canCheck := block.Some? && block.value.Block? && (simulation || block.value.state == Idle);
      if !canCheck {
        return false;
      }
      found := CountedRun(Row(board.grid, y), x, NotClearing);
      if found {
        return true;
      }
      found := CountedRun(board.grid[x], y, NotClearing);
    }

    /**
     * Whether every cell from the one after startX up to and including endX
     * on row y is empty; a cell off the grid does not count as empty.
     */
    method IsPathClear(startX: int, endX: int, y: int) returns (clear: bool)
      requires startX < endX ==> -1 <= startX && endX < Width
      requires endX < startX ==> 0 <= endX && startX <= Width
      ensures clear <==> forall x :: (startX < x <= endX || endX <= x < startX) ==> CellAt(board.grid, x, y) == Some(Empty)
    {
      var direction := if endX > startX then 1 else if endX < startX then -1 else 0;
      var x := startX + direction;
      while x != endX + direction
        invariant direction == 0 ==> x == startX
        invariant direction == 1 ==> startX < x <= endX + 1
        invariant direction == -1 ==> endX - 1 <= x < startX
        invariant forall i :: (direction == 1 && startX < i < x) || (direction == -1 && x < i < startX) ==> CellAt(board.grid, i, y) == Some(Empty)
        decreases if direction == 1 then endX + 1 - x else x - endX + 1
      {
        if CellAt(board.grid, x, y) != Some(Empty) {
          return false;
        }
        x := x + direction;
      }
      return true;
    }

    /**
     * Advances the raise accumulator at the AI's fixed speed when allowed,
     * and raises the stack once it reaches a row's height, carrying the rest.
     */
    method UpdateRaise(deltaTime: real, canRaise: bool, newRow: seq<Kind>) returns (result: RaiseResult)
      requires Valid() && |newRow| == Width
      modifies this`raiseProgress, board`grid
      ensures Valid()
      ensures RaiseTick(old(raiseProgress), if canRaise then RaiseGain(AutoRaiseSpeed(board.blockSize, currentRaiseInterval), deltaTime) else 0.0, board.blockSize).0
        == raiseProgress
      ensures var progress := old(raiseProgress) + (if canRaise then RaiseGain(AutoRaiseSpeed(board.blockSize, currentRaiseInterval), deltaTime) else 0.0);
        if progress >= board.blockSize then
          && raiseProgress == progress - board.blockSize
          && (result == GameOver <==> exists x :: 0 <= x < Width && old(board.grid)[x][0].Block?)
          && (result == GameOver ==> board.grid == old(board.grid))
          && (result != GameOver ==> result == NoResult && board.grid == ShiftedUp(old(board.grid), newRow, board.blockSize))
        else
          raiseProgress == progress && result == NoResult && board.grid == old(board.grid)
    {
      if canRaise {
        var speed := AutoRaiseSpeed(board.blockSize, currentRaiseInterval);
        raiseProgress := raiseProgress + RaiseGain(speed, deltaTime);
      }
      if raiseProgress >= board.blockSize {
        result := RaiseStack(newRow);
        raiseProgress := raiseProgress - board.blockSize;
        return result;
      }
      return NoResult;
    }

    /** Loses when the top row is occupied; otherwise shifts the stack up and adds the new row. */
    method RaiseStack(newRow: seq<Kind>) returns (result: RaiseResult)
      requires Valid() && |newRow| == Width
      modifies board`grid
      ensures Valid()
      ensures result == GameOver <==> exists x :: 0 <= x < Width && old(board.grid)[x][0].Block?
      ensures result == GameOver ==> board.grid == old(board.grid)
      ensures result != GameOver ==> result == NoResult && board.grid == ShiftedUp(old(board.grid), newRow, board.blockSize)
    {
      var occupied := board.TopRowOccupied();
      if occupied {
        return GameOver;
      }
      RaiseShiftsRows(board.grid, newRow, board.blockSize);
      board.ShiftRowsUp(newRow);
      return NoResult;
    }
  }
}
