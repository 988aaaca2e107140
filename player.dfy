/**
 * The human player's board: keyboard control of the cursor, swaps, the
 * manual raise, the automatic raise with a random new row that never holds
 * three equal colours side by side, and the score-driven raise speed.
 */
module PlayerControl {
  import opened Blocks
  import opened BoardEngine

  /** The keys the player's board reacts to; every other key is `OtherKey`. */
  datatype Key = ArrowLeft | ArrowRight | ArrowUp | ArrowDown | Space | Shift | OtherKey

  /** The cursor after a key press: arrows move it one cell, stopping at the edges. */
  function CursorAfter(key: Key, x: int, y: int): (int, int)
  {
    match key
    case ArrowLeft => (if x > 0 then x - 1 else x, y)
    case ArrowRight => (if x < Width - 2 then x + 1 else x, y)
    case ArrowUp => (x, if y > 0 then y - 1 else y)
    case ArrowDown => (x, if y < Height - 1 then y + 1 else y)
    case _ => (x, y)
  }

  /** The cursor's row after the stack rises one row: it follows the blocks up, stopping at the top row. */
  function CursorAfterRaise(y: int): int
  {
    if y > 0 then y - 1 else 0
  }

  /**
   * Arrow keys keep the cursor's left cell within columns 0 .. Width - 2 and
   * its row within the grid, move it by at most one cell, and move it exactly
   * one cell unless it stands at the edge it is moving towards.
   */
  lemma CursorStaysOnGrid(key: Key, x: int, y: int)
    requires 0 <= x <= Width - 2 && 0 <= y < Height
    ensures var (nx, ny) := CursorAfter(key, x, y);
      && 0 <= nx <= Width - 2 && 0 <= ny < Height
      && -1 <= nx - x <= 1 && -1 <= ny - y <= 1
      && (key == ArrowLeft ==> (nx == x - 1 <==> x > 0))
      && (key == ArrowRight ==> (nx == x + 1 <==> x < Width - 2))
      && (key == ArrowUp ==> (ny == y - 1 <==> y > 0))
      && (key == ArrowDown ==> (ny == y + 1 <==> y < Height - 1))
      && (key != ArrowLeft && key != ArrowRight ==> nx == x)
      && (key != ArrowUp && key != ArrowDown ==> ny == y)
  {
  }

  // ---------------------------------------------------------------------
  // The new bottom row: colours drawn at random, a colour rejected when it
  // would be the third equal one in a row.

  /** Colour k may follow the partial row without making three equal in a row. */
  predicate Acceptable(row: seq<Kind>, k: Kind)
  {
    !(|row| >= 2 && row[|row| - 1] == k && row[|row| - 2] == k)
  }

  /**
   * The row the rejection loop builds from a stream of random colours,
   * starting from a partial row; None when the stream runs out first.
   */
  function FillRow(row: seq<Kind>, draws: seq<Kind>): (r: Option<seq<Kind>>)
    requires |row| <= Width
    ensures r.Some? ==> |r.value| == Width
    decreases |draws|
  {
    if |row| == Width then Some(row)
    else if draws == [] then None
    else if Acceptable(row, draws[0]) then FillRow(row + [draws[0]], draws[1..])
    else FillRow(row, draws[1..])
  }

  /** A row the loop builds has the board's width, extends the partial row, and holds no three equal colours side by side. */
  lemma {:induction false} FillRowIsCalm(row: seq<Kind>, draws: seq<Kind>)
    requires |row| <= Width && NoTriple(row)
    requires FillRow(row, draws).Some?
    ensures var r := FillRow(row, draws).value; |r| == Width && r[..|row|] == row && NoTriple(r)
    decreases |draws|
  {
    if |row| < Width {
      if Acceptable(row, draws[0]) {
        var next := row + [draws[0]];
        assert NoTriple(next) by {
          forall x | 0 <= x < |next| - 2
            ensures !(next[x] == next[x + 1] == next[x + 2])
          {
            if x < |row| - 2 {
              assert next[x] == row[x] && next[x + 1] == row[x + 1] && next[x + 2] == row[x + 2];
            }
          }
        }
        FillRowIsCalm(next, draws[1..]);
        var r := FillRow(next, draws[1..]).value;
        assert r[..|row|] == r[..|next|][..|row|];
      } else {
        FillRowIsCalm(row, draws[1..]);
      }
    }
  }

  /** Conversely every row without three equal colours side by side comes out when the stream draws exactly its colours. */
  lemma {:induction false} EveryCalmRowIsDrawable(row: seq<Kind>, n: int)
    requires |row| == Width && NoTriple(row) && 0 <= n <= Width
    ensures FillRow(row[..n], row[n..]) == Some(row)
    decreases Width - n
  {
    if n < Width {
      assert Acceptable(row[..n], row[n]) by {
        if n >= 2 {
          assert row[..n][n - 1] == row[n - 1] && row[..n][n - 2] == row[n - 2];
          assert !(row[n - 2] == row[n - 1] == row[n]);
        }
      }
      assert row[..n] + [row[n]] == row[..n + 1];
      assert row[n..][1..] == row[n + 1..];
      EveryCalmRowIsDrawable(row, n + 1);
    } else {
      assert row[..n] == row;
    }
  }

  /** The rejection loop itself, consuming the stream of draws. */
  method GenerateRow(draws: seq<Kind>) returns (row: Option<seq<Kind>>)
    ensures row == FillRow([], draws)
  {
    var types: seq<Kind> := [];
    var i := 0;
    while |types| < Width && i < |draws|
      invariant 0 <= i <= |draws| && |types| <= Width
      invariant FillRow(types, draws[i..]) == FillRow([], draws)
      decreases |draws| - i
    {
      assert draws[i..][1..] == draws[i + 1..];
      var k := draws[i];
      i := i + 1;
      if Acceptable(types, k) {
        types := types + [k];
      }
    }
    if |types| == Width {
      return Some(types);
    }
    assert draws[i..] == [];
    return None;
  }

  /** The raise interval in milliseconds the score calls for; below 2001 points it stays as it is. */
  function IntervalFor(score: int, current: int): int
  {
    if score > 10000 then 2000
    else if score > 5000 then 3000
    else if score > 2000 then 4000
    else current
  }

  /**
   * Starting from the initial interval, a higher score never gives a slower
   * raise, and re-applying the rule after the score grows gives the same
   * interval as applying it once to the final score.
   */
  lemma FasterWithScore(s1: int, s2: int)
    requires s1 <= s2
    ensures 2000 <= IntervalFor(s2, RaiseInterval) <= IntervalFor(s1, RaiseInterval) <= RaiseInterval
    ensures IntervalFor(s2, IntervalFor(s1, RaiseInterval)) == IntervalFor(s2, RaiseInterval)
  {
  }

  class Player {
    const board: Board
    var score: int
    var isManualRaising: bool
    var raiseProgress: real
    var currentRaiseInterval: int

    ghost predicate Valid()
      reads this, board
    {
      board.Valid() && board.isPlayer && currentRaiseInterval > 0
    }

    constructor (kinds: seq<seq<Kind>>)
      requires IsKindGrid(kinds)
      ensures Valid() && fresh(board)
      ensures score == 0 && !isManualRaising && raiseProgress == 0.0 && currentRaiseInterval == RaiseInterval
      ensures Pristine(board.grid) && SettledGrid(board.grid) && NoMatches(board.grid, AnyBlock)
      ensures board.comboCount == 0 && !board.isResolving
    {
      board := new Board(true, kinds);
      score := 0;
      isManualRaising := false;
      raiseProgress := 0.0;
      currentRaiseInterval := RaiseInterval;
    }

    /** Arrows move the cursor, Space swaps at the cursor, Shift starts a manual raise. */
    method HandleKeyPress(key: Key) returns (swapped: bool)
      requires Valid()
      modifies board`grid, board`cursorX, board`cursorY, this`isManualRaising
      ensures Valid()
      ensures (board.cursorX, board.cursorY) == CursorAfter(key, old(board.cursorX), old(board.cursorY))
      ensures key == Space ==> SwapOutcome(swapped, board.grid) == Swap(old(board.grid), board.cursorX, board.cursorY, false)
      ensures key != Space ==> !swapped && board.grid == old(board.grid)
      ensures isManualRaising == (old(isManualRaising) || key == Shift)
    {
      swapped := false;
      match key {
        case ArrowLeft => if board.cursorX > 0 { board.cursorX := board.cursorX - 1; }
        case ArrowRight => if board.cursorX < Width - 2 { board.cursorX := board.cursorX + 1; }
        case ArrowUp => if board.cursorY > 0 { board.cursorY := board.cursorY - 1; }
        case ArrowDown => if board.cursorY < Height - 1 { board.cursorY := board.cursorY + 1; }
        case Space => swapped := board.SwapBlocks(board.cursorX, board.cursorY, false);
        case Shift => isManualRaising := true;
        case OtherKey =>
      }
    }

    /** Releasing Shift ends a manual raise. */
    method HandleKeyUp(key: Key)
      modifies this`isManualRaising
      ensures isManualRaising == (old(isManualRaising) && key != Shift)
    {
      if key == Shift {
        isManualRaising := false;
      }
    }

    /** The raise speed in pixels per second. */
    function RaiseSpeed(): real
      requires currentRaiseInterval > 0
      reads this
    {
      if isManualRaising then ManualRaiseSpeed else AutoRaiseSpeed(board.blockSize, currentRaiseInterval)
    }

    /**
     * Advances the raise accumulator when allowed and raises the stack once
     * it reaches a row's height, carrying the rest over.
     */
    method UpdateRaise(deltaTime: real, canRaise: bool, draws: seq<Kind>) returns (result: RaiseResult)
      requires Valid() && FillRow([], draws).Some?
      modifies this`raiseProgress, board`grid, board`cursorY
      ensures Valid()
      ensures RaiseTick(old(raiseProgress), if canRaise then RaiseGain(old(RaiseSpeed()), deltaTime) else 0.0, board.blockSize)
        == (raiseProgress, result != NoResult)
      ensures var progress := old(raiseProgress) + (if canRaise then RaiseGain(old(RaiseSpeed()), deltaTime) else 0.0);
        if progress >= board.blockSize then
          && raiseProgress == progress - board.blockSize
          && (result == GameOver <==> exists x :: 0 <= x < Width && old(board.grid)[x][0].Block?)
          && (result == GameOver ==> board.grid == old(board.grid) && board.cursorY == old(board.cursorY))
          && (result != GameOver ==>
                && result == Raised && board.grid == ShiftedUp(old(board.grid), FillRow([], draws).value, board.blockSize)
                && board.cursorY == CursorAfterRaise(old(board.cursorY)))
        else
          raiseProgress == progress && result == NoResult && board.grid == old(board.grid) && board.cursorY == old(board.cursorY)
    {
      if canRaise {
        var speed := if isManualRaising then ManualRaiseSpeed else AutoRaiseSpeed(board.blockSize, currentRaiseInterval);
        raiseProgress := raiseProgress + RaiseGain(speed, deltaTime);
      }
      if raiseProgress >= board.blockSize {
        result := RaiseStack(draws);
        raiseProgress := raiseProgress - board.blockSize;
        return result;
      }
      return NoResult;
    }

    /**
     * Loses when the top row holds a block. Otherwise every row moves up one,
     * a new idle row without three equal colours side by side fills the
     * bottom, and the cursor follows the blocks up unless it is on the top row.
     */
    method RaiseStack(draws: seq<Kind>) returns (result: RaiseResult)
      requires Valid() && FillRow([], draws).Some?
      modifies board`grid, board`cursorY
      ensures Valid()
      ensures result == GameOver <==> exists x :: 0 <= x < Width && old(board.grid)[x][0].Block?
      ensures result == GameOver ==> board.grid == old(board.grid) && board.cursorY == old(board.cursorY)
      ensures result != GameOver ==>
        && result == Raised
        && board.grid == ShiftedUp(old(board.grid), FillRow([], draws).value, board.blockSize)
        && NoTriple(FillRow([], draws).value)
        && board.cursorY == CursorAfterRaise(old(board.cursorY))
    {
      var occupied := board.TopRowOccupied();
      if occupied {
        return GameOver;
      }
      var newRow := GenerateRow(draws);
      FillRowIsCalm([], draws);
      RaiseShiftsRows(board.grid, newRow.value, board.blockSize);
      board.ShiftRowsUp(newRow.value);
      if board.cursorY > 0 {
        board.cursorY := board.cursorY - 1;
      }
      return Raised;
    }

    /** Shortens the raise interval as the score passes 2000, 5000 and 10000 points. */
    method UpdateGameSpeed()
      requires Valid()
      modifies this`currentRaiseInterval
      ensures Valid()
      ensures currentRaiseInterval == IntervalFor(score, old(currentRaiseInterval))
    {
      if score > 10000 {
        currentRaiseInterval := 2000;
      } else if score > 5000 {
        currentRaiseInterval := 3000;
      } else if score > 2000 {
        currentRaiseInterval := 4000;
      }
    }
  }
}
