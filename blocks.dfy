/**
 * Cells, grids and the line predicates shared by the board engine, the AI
 * planner and the game loop of a two-board falling-block matching game.
 *
 * A grid is column-major: `g[x][y]` is column `x`, row `y`, and row 0 is the
 * top (loss) row. Every cell is either empty or holds one block.
 */
module Blocks {

  /** Board width and height in cells. */
  const Width: int := 6
  const Height: int := 12

  /** Number of block colours (red, blue, green, yellow, magenta). */
  const KindCount: int := 5

  /** Pixel height of one row on the player's board and on the AI's board. */
  const PlayerBlockSize: real := 40.0
  const AiBlockSize: real := 20.0

  /** Falling speed in pixels per second. */
  const FallSpeed: real := 350.0

  /** Milliseconds per automatic raise of the player's stack. */
  const RaiseInterval: int := 5000

  /** Raise speed in pixels per second while a manual raise is held. */
  const ManualRaiseSpeed: real := 300.0

  /** Milliseconds between two released garbage blocks. */
  const GarbageDropDelay: real := 75.0

  /** Milliseconds a freshly queued garbage chunk is held back. */
  const GarbageHoldTime: real := 2000.0

  /**
   * The pixel offset of row n for blocks of size bs, n * bs, accumulated
   * row by row (a negative row counts as row 0).
   */
  function RowTop(n: int, bs: real): real
    decreases n
  {
    if n <= 0 then 0.0 else RowTop(n - 1, bs) + bs
  }

  /** RowTop is the product of the row and the block size. */
  lemma {:induction false} RowTopIsProduct(n: int, bs: real)
    requires n >= 0
    ensures RowTop(n, bs) == n as real * bs
    decreases n
  {
    if n > 0 {
      RowTopIsProduct(n - 1, bs);
      assert (n - 1) as real * bs + bs == n as real * bs;
    }
  }

  /** A block colour: an index into the five colours. */
  type Kind = k: int | 0 <= k < KindCount

  datatype Option<T> = None | Some(value: T)

  datatype State = Idle | Falling | Clearing | Cleared

  /**
   * A cell of the grid. A block carries its colour, its state, its animated
   * vertical position in pixels and, while it falls, the row it lands on.
   */
  datatype Cell =
    | Empty
    | Block(kind: Kind, state: State, visualY: real, targetY: Option<int>)

  /** A garbage block waiting in a queue; its column is fixed once per chunk. */
  datatype GarbageBlock = GarbageBlock(kind: Kind, dropColumn: Option<int>)

  type Chunk = seq<GarbageBlock>

  datatype Side = PlayerSide | AiSide

  function Opponent(s: Side): Side
  {
    if s == PlayerSide then AiSide else PlayerSide
  }

  /** What a raise of the stack reports; the AI's raise reports nothing on success. */
  datatype RaiseResult = NoResult | Raised | GameOver

  predicate IsGrid(g: seq<seq<Cell>>)
  {
    |g| == Width && forall x :: 0 <= x < |g| ==> |g[x]| == Height
  }

  type Grid = g: seq<seq<Cell>> | IsGrid(g) witness seq(Width, _ => seq(Height, _ => Empty))

  predicate InBounds(x: int, y: int)
  {
    0 <= x < Width && 0 <= y < Height
  }

  /** The cell at (x, y) of a grid, or None outside the grid (JavaScript's `undefined`). */
  function CellAt(g: Grid, x: int, y: int): (r: Option<Cell>)
    ensures r.Some? <==> InBounds(x, y)
    ensures r.Some? ==> r.value == g[x][y]
  {
    if InBounds(x, y) then Some(g[x][y]) else None
  }

  /** Row y of a grid, read left to right. */
  function Row(g: Grid, y: int): (r: seq<Cell>)
    requires 0 <= y < Height
    ensures |r| == Width
    ensures forall x :: 0 <= x < Width ==> r[x] == g[x][y]
  {
    seq(Width, x requires 0 <= x < Width => g[x][y])
  }

  /** Replaces one cell. */
  function SetCell(g: Grid, x: int, y: int, c: Cell): (r: Grid)
    requires InBounds(x, y)
    ensures r[x][y] == c
    ensures forall i, j :: InBounds(i, j) && (i != x || j != y) ==> r[i][j] == g[i][j]
  {
    g[x := g[x][y := c]]
  }

  lemma GridExtensionality(a: Grid, b: Grid)
    requires forall x, y :: InBounds(x, y) ==> a[x][y] == b[x][y]
    ensures a == b
  {
    forall x | 0 <= x < Width
      ensures a[x] == b[x]
    {
      assert forall y :: 0 <= y < Height ==> a[x][y] == b[x][y];
    }
  }

  // ---------------------------------------------------------------------
  // Falling targets

  /** A block's landing row, when it has one, lies inside the grid. */
  predicate TargetOk(c: Cell)
  {
    c.Block? && c.targetY.Some? ==> 0 <= c.targetY.value < Height
  }

  predicate ColumnTargetsOk(col: seq<Cell>)
  {
    forall i :: 0 <= i < |col| ==> TargetOk(col[i])
  }

  predicate TargetsInRange(g: Grid)
  {
    forall x :: 0 <= x < Width ==> ColumnTargetsOk(g[x])
  }

  predicate IsFalling(c: Cell)
  {
    c.Block? && c.state == Falling
  }

  predicate AnyFalling(g: Grid)
  {
    exists x, y :: 0 <= x < Width && 0 <= y < Height && IsFalling(g[x][y])
  }

  // ---------------------------------------------------------------------
  // Runs of equal blocks along one row or column

  /** Which blocks may take part in a run. */
  datatype Eligibility =
    | AnyBlock      // every block, whatever its state
    | NotClearing   // every block that is not already clearing
    | IdleOnly      // idle blocks only

  predicate Eligible(c: Cell, e: Eligibility)
  {
    c.Block? &&
    match e
    case AnyBlock => true
    case NotClearing => c.state != Clearing
    case IdleOnly => c.state == Idle
  }

  /** Two neighbouring cells continue one run. */
  predicate Link(a: Cell, b: Cell, e: Eligibility)
  {
    Eligible(a, e) && Eligible(b, e) && a.kind == b.kind
  }

  /** Cells a, a+1, a+2 of the line are eligible blocks of one colour. */
  predicate Triple(line: seq<Cell>, a: int, e: Eligibility)
  {
    0 <= a && a + 2 < |line| && Link(line[a], line[a + 1], e) && Link(line[a + 1], line[a + 2], e)
  }

  /** Cell i lies in a run of at least three eligible blocks of one colour. */
  predicate InTriple(line: seq<Cell>, i: int, e: Eligibility)
  {
    Triple(line, i - 2, e) || Triple(line, i - 1, e) || Triple(line, i, e)
  }

  /** Cell (x, y) lies in a horizontal or a vertical run of at least three. */
  predicate InMatch(g: Grid, x: int, y: int, e: Eligibility)
    requires InBounds(x, y)
  {
    InTriple(Row(g, y), x, e) || InTriple(g[x], y, e)
  }

  /** No cell of the grid lies in a run of three. */
  predicate NoMatches(g: Grid, e: Eligibility)
  {
    forall x, y :: 0 <= x < Width && 0 <= y < Height ==> !InMatch(g, x, y, e)
  }

  // ---------------------------------------------------------------------
  // Counting

  predicate HasState(c: Cell, s: State)
  {
    c.Block? && c.state == s
  }

  /** Number of blocks of a column in state s. */
  function ColumnStateCount(col: seq<Cell>, s: State): nat
  {
    if col == [] then 0 else (if HasState(col[0], s) then 1 else 0) + ColumnStateCount(col[1..], s)
  }

  /** Number of blocks in the first n columns in state s. */
  function StateCountUpTo(g: Grid, s: State, n: int): nat
    requires 0 <= n <= Width
  {
    if n == 0 then 0 else StateCountUpTo(g, s, n - 1) + ColumnStateCount(g[n - 1], s)
  }

  function StateCount(g: Grid, s: State): nat
  {
    StateCountUpTo(g, s, Width)
  }

  /** The blocks of a column (or of any line), in order. */
  function BlocksOf(col: seq<Cell>): (r: seq<Cell>)
    ensures |r| <= |col|
  {
    if col == [] then [] else (if col[0].Block? then [col[0]] else []) + BlocksOf(col[1..])
  }

  function BlockCountUpTo(g: Grid, n: int): nat
    requires 0 <= n <= Width
  {
    if n == 0 then 0 else BlockCountUpTo(g, n - 1) + |BlocksOf(g[n - 1])|
  }

  /** Number of blocks on the grid. */
  function BlockCount(g: Grid): nat
  {
    BlockCountUpTo(g, Width)
  }

  /** Replacing one cell changes the block count by the difference the two cells make. */
  lemma {:induction false} BlocksOfUpdate(col: seq<Cell>, i: int, c: Cell)
    requires 0 <= i < |col|
    ensures |BlocksOf(col[i := c])| + (if col[i].Block? then 1 else 0) == |BlocksOf(col)| + (if c.Block? then 1 else 0)
  {
    if i > 0 {
      BlocksOfUpdate(col[1..], i - 1, c);
      assert col[i := c][1..] == col[1..][i - 1 := c];
    }
  }

  lemma {:induction false} ColumnStateCountZero(col: seq<Cell>, s: State)
    ensures ColumnStateCount(col, s) == 0 <==> forall i :: 0 <= i < |col| ==> !HasState(col[i], s)
  {
    if col != [] {
      ColumnStateCountZero(col[1..], s);
      assert forall i :: 1 <= i < |col| ==> col[1..][i - 1] == col[i];
    }
  }

  /** A grid has no block in state s exactly when it counts none. */
  lemma {:induction false} StateCountZero(g: Grid, s: State)
    ensures StateCount(g, s) == 0 <==> forall x, y :: InBounds(x, y) ==> !HasState(g[x][y], s)
  {
    StateCountUpToZero(g, s, Width);
  }

  lemma {:induction false} StateCountUpToZero(g: Grid, s: State, n: int)
    requires 0 <= n <= Width
    ensures StateCountUpTo(g, s, n) == 0 <==> forall x, y :: 0 <= x < n && 0 <= y < Height ==> !HasState(g[x][y], s)
  {
    if n > 0 {
      StateCountUpToZero(g, s, n - 1);
      ColumnStateCountZero(g[n - 1], s);
    }
  }
}
