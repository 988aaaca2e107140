/**
 * Garbage: the attack amount a clear sends to the opponent, the queues of
 * garbage chunks waiting to fall, and the way a garbage block lands on a
 * column.
 */
module GarbageRules {
  import opened Blocks

  // ---------------------------------------------------------------------
  // The attack amount

  /** Garbage per chain step, indexed by the combo count; a zero entry or a count past the end means three rows. */
  const ComboGarbage: seq<int> := [0, 0, 3, 5, Width, Width * 2]

  /** Garbage for the size of a clear that is not part of a chain. */
  function SizeGarbage(cleared: int): int
  {
    if cleared == 4 then 2 else if cleared == 5 then 4 else if cleared >= 6 then Width else 0
  }

  /** Garbage for a chain step; a missing or zero table entry falls back to three rows. */
  function ChainGarbage(combo: int): int
  {
    if 0 <= combo < |ComboGarbage| && ComboGarbage[combo] != 0 then ComboGarbage[combo] else Width * 3
  }

  /**
   * The number of garbage blocks a clear of `cleared` blocks at chain step
   * `combo` sends: the size rule for a first clear, the chain table from the
   * second step on.
   */
  function GarbageAmount(cleared: int, combo: int): (r: int)
    ensures r in {0, 2, 3, 4, 5, 6, 12, 18}
  {
    (if combo <= 1 then SizeGarbage(cleared) else 0) + (if combo >= 2 then ChainGarbage(combo) else 0)
  }

  /** A clear sends nothing exactly when it is a first clear of fewer than four blocks. */
  lemma NoGarbageIff(cleared: int, combo: int)
    ensures GarbageAmount(cleared, combo) == 0 <==> combo <= 1 && cleared < 4
    ensures GarbageAmount(cleared, combo) >= 4 <==> (combo <= 1 && cleared >= 5) || combo >= 3
  {
  }

  /** A bigger first clear never sends less, and a longer chain never sends less, whatever its size. */
  lemma GarbageMonotone(cleared: int, cleared': int, combo: int, combo': int)
    ensures combo <= 1 && cleared <= cleared' ==> GarbageAmount(cleared, combo) <= GarbageAmount(cleared', combo)
    ensures 2 <= combo <= combo' ==> GarbageAmount(cleared, combo) <= GarbageAmount(cleared', combo')
  {
  }

  // ---------------------------------------------------------------------
  // Queues of chunks

  /** The blocks of a queue, head chunk first. */
  function Flatten(q: seq<Chunk>): (r: seq<GarbageBlock>)
  {
    if q == [] then [] else q[0] + Flatten(q[1..])
  }

  /** Number of queued garbage blocks. */
  function Total(q: seq<Chunk>): nat
  {
    |Flatten(q)|
  }

  /** Every block of the chunk still waits for its column. */
  predicate Unplanned(c: Chunk)
  {
    forall i :: 0 <= i < |c| ==> c[i].dropColumn.None?
  }

  /** Every block of the chunk has its column on the grid. */
  predicate Planned(c: Chunk)
  {
    forall i :: 0 <= i < |c| ==> c[i].dropColumn.Some? && 0 <= c[i].dropColumn.value < Width
  }

  /** A queued chunk is never empty, and its columns are assigned all at once. */
  predicate ChunkOk(c: Chunk)
  {
    c != [] && (Unplanned(c) || Planned(c))
  }

  predicate QueueOk(q: seq<Chunk>)
  {
    forall i :: 0 <= i < |q| ==> ChunkOk(q[i])
  }

  /** A fresh chunk of `amount` blocks whose colours come from the random source. */
  function NewChunk(amount: nat, colours: nat -> Kind): (r: Chunk)
    ensures |r| == amount && Unplanned(r)
    ensures forall i :: 0 <= i < amount ==> r[i].kind == colours(i)
  {
    seq(amount, i requires 0 <= i < amount => GarbageBlock(colours(i), None))
  }

  lemma {:induction false} FlattenAppend(q: seq<Chunk>, c: Chunk)
    ensures Flatten(q + [c]) == Flatten(q) + c
  {
    if q == [] {
      assert [c][1..] == [];
    } else {
      assert (q + [c])[1..] == q[1..] + [c];
      FlattenAppend(q[1..], c);
    }
  }

  /** One round of the cancellation loop: the blocks it takes off the head chunk, and the queue after it. */
  function CancelRound(q: seq<Chunk>, amount: nat): (r: (nat, seq<Chunk>))
    requires q != []
    ensures r.0 <= amount && |r.1| <= |q| && (r.0 < amount ==> |r.1| < |q|)
  {
    var cancelCount := if amount < |q[0]| then amount else |q[0]|;
    var head := q[0][cancelCount..];
    (cancelCount, if head == [] then q[1..] else [head] + q[1..])
  }

  /**
   * The cancellation loop: consumes `amount` blocks from the front of the
   * queue, chunk by chunk, dropping every chunk it empties, until the amount
   * is spent or the queue is empty. Returns the queue left and the amount left.
   */
  function Cancel(q: seq<Chunk>, amount: nat): (seq<Chunk>, nat)
    decreases amount, |q|
  {
    if amount == 0 || q == [] then (q, amount)
    else
      var (cancelCount, next) := CancelRound(q, amount);
      Cancel(next, amount - cancelCount)
  }

  lemma {:induction false} ChunkSuffixOk(c: Chunk, k: int)
    requires ChunkOk(c) && 0 <= k < |c|
    ensures ChunkOk(c[k..])
  {
    assert forall i :: 0 <= i < |c| - k ==> c[k..][i] == c[i + k];
  }

  /** A round takes its blocks off the front of the queue. */
  lemma {:induction false} CancelRoundFront(q: seq<Chunk>, amount: nat)
    requires q != []
    ensures var r := CancelRound(q, amount);
      && r.0 <= |Flatten(q)|
      && Flatten(r.1) == Flatten(q)[r.0..]
      && (r.0 < amount ==> r.0 == |q[0]|)
  {
    var r := CancelRound(q, amount);
    var rest := Flatten(q[1..]);
    assert Flatten(q) == q[0] + rest;
    if r.0 < |q[0]| {
      assert r.1[1..] == q[1..];
      assert Flatten(r.1) == q[0][r.0..] + rest;
      assert (q[0] + rest)[r.0..] == q[0][r.0..] + rest;
    } else {
      assert (q[0] + rest)[r.0..] == rest;
    }
  }

  /** A round keeps every chunk of the queue non-empty and uniformly planned. */
  lemma {:induction false} CancelRoundKeepsChunks(q: seq<Chunk>, amount: nat)
    requires q != [] && QueueOk(q)
    ensures QueueOk(CancelRound(q, amount).1)
  {
    var (cancelCount, next) := CancelRound(q, amount);
    if cancelCount < |q[0]| {
      ChunkSuffixOk(q[0], cancelCount);
      assert forall i :: 1 <= i < |next| ==> next[i] == q[i];
    } else {
      assert forall i :: 0 <= i < |next| ==> next[i] == q[i + 1];
    }
  }

  /**
   * Cancellation removes exactly min(amount, queued) blocks from the front
   * of the queue, keeps every remaining chunk well formed, and leaves an
   * amount only once the queue is empty.
   */
  lemma {:induction false} CancelConsumesFront(q: seq<Chunk>, amount: nat)
    requires QueueOk(q)
    ensures var (q', rest) := Cancel(q, amount);
      var m := if amount < Total(q) then amount else Total(q);
      && Flatten(q') == Flatten(q)[m..]
      && rest == amount - m
      && QueueOk(q')
      && (rest > 0 ==> q' == [])
    decreases amount, |q|
  {
    if amount == 0 {
    } else if q == [] {
      assert Flatten(q) == [];
    } else {
      var (cancelCount, next) := CancelRound(q, amount);
      CancelRoundFront(q, amount);
      CancelRoundKeepsChunks(q, amount);
      CancelConsumesFront(next, amount - cancelCount);
    }
  }

  // ---------------------------------------------------------------------
  // Releasing the head chunk

  /** A random permutation of the columns. */
  predicate IsColumnPermutation(p: seq<int>)
  {
    && |p| == Width
    && (forall i :: 0 <= i < Width ==> 0 <= p[i] < Width)
    && (forall i, j :: 0 <= i < j < Width ==> p[i] != p[j])
  }

  /** Block i of the chunk gets column p[i mod Width]. */
  function AssignColumns(c: Chunk, p: seq<int>): (r: Chunk)
    requires IsColumnPermutation(p)
    ensures |r| == |c| && Planned(r)
  {
    seq(|c|, i requires 0 <= i < |c| => c[i].(dropColumn := Some(p[i % Width])))
  }

  /**
   * Assigning columns keeps every colour, puts the first Width blocks in
   * pairwise different columns, and repeats the pattern every Width blocks.
   */
  lemma ColumnsSpread(c: Chunk, p: seq<int>)
    requires IsColumnPermutation(p)
    ensures var r := AssignColumns(c, p);
      && (forall i :: 0 <= i < |c| ==> r[i].kind == c[i].kind)
      && (forall i, j :: 0 <= i < j < |c| && j < Width ==> r[i].dropColumn != r[j].dropColumn)
      && (forall i :: Width <= i < |c| ==> r[i].dropColumn == r[i - Width].dropColumn)
  {
    var r := AssignColumns(c, p);
    forall i | Width <= i < |c|
      ensures r[i].dropColumn == r[i - Width].dropColumn
    {
      assert i % Width == (i - Width) % Width;
    }
  }

  /** The head chunk once it is about to release a block: planned, by the permutation if it was not yet. */
  function PlannedHead(c: Chunk, p: seq<int>): (r: Chunk)
    requires IsColumnPermutation(p)
    ensures ChunkOk(c) ==> |r| == |c| && Planned(r)
    ensures forall i :: 0 <= i < |c| && i < |r| ==> r[i].kind == c[i].kind
  {
    if |c| > 0 && c[0].dropColumn.None? then AssignColumns(c, p) else c
  }

  /** The block the head chunk releases next. */
  function NextBlock(q: seq<Chunk>, p: seq<int>): GarbageBlock
    requires q != [] && q[0] != [] && IsColumnPermutation(p)
  {
    PlannedHead(q[0], p)[0]
  }

  /** The queue once the head chunk has released its first block; an emptied chunk leaves the queue. */
  function Released(q: seq<Chunk>, p: seq<int>): seq<Chunk>
    requires q != [] && IsColumnPermutation(p)
  {
    var head := PlannedHead(q[0], p);
    var rest := if head == [] then [] else head[1..];
    if rest == [] then q[1..] else [rest] + q[1..]
  }

  /**
   * A release takes exactly one block off the front of the queue, the next
   * block has the colour the queue had in front and a column on the grid,
   * and every chunk left is non-empty and uniformly planned.
   */
  lemma {:induction false} ReleaseTakesOne(q: seq<Chunk>, p: seq<int>)
    requires q != [] && QueueOk(q) && IsColumnPermutation(p)
    ensures Total(Released(q, p)) + 1 == Total(q)
    ensures NextBlock(q, p).kind == Flatten(q)[0].kind
    ensures NextBlock(q, p).dropColumn.Some? && 0 <= NextBlock(q, p).dropColumn.value < Width
    ensures QueueOk(Released(q, p))
  {
    var head := PlannedHead(q[0], p);
    assert ChunkOk(q[0]);
    var rest := head[1..];
    assert Flatten(q) == q[0] + Flatten(q[1..]);
    var r := Released(q, p);
    if rest == [] {
      assert r == q[1..];
      assert forall i :: 0 <= i < |r| ==> r[i] == q[i + 1];
    } else {
      assert r[1..] == q[1..];
      assert Flatten(r) == rest + Flatten(q[1..]);
      assert ChunkOk(rest) by {
        assert forall i :: 0 <= i < |rest| ==> rest[i] == head[i + 1];
      }
      assert forall i :: 1 <= i < |r| ==> r[i] == q[i];
    }
  }

  // ---------------------------------------------------------------------
  // Landing a garbage block

  /** The top-most empty cell of a column, if any. */
  function TopEmpty(col: seq<Cell>): (r: Option<int>)
    ensures r.Some? ==> 0 <= r.value < |col| && col[r.value].Empty? && forall y :: 0 <= y < r.value ==> col[y].Block?
    ensures r.None? ==> forall y :: 0 <= y < |col| ==> col[y].Block?
  {
    if col == [] then None
    else if col[0].Empty? then Some(0)
    else match TopEmpty(col[1..])
      case None => None
      case Some(y) => Some(y + 1)
  }

  /** A garbage block entering column x: falling from just above the grid towards the top-most empty cell it occupies. */
  function DropInto(g: Grid, x: int, kind: Kind, bs: real): Grid
    requires 0 <= x < Width
  {
    match TopEmpty(g[x])
    case None => g
    case Some(y) => SetCell(g, x, y, Block(kind, Falling, -bs, Some(y)))
  }

  /**
   * Dropping fills the top-most empty cell of the column with a falling
   * block aimed at that very row, changes nothing else, leaves a full column
   * as it was, adds one block to a column with room, and keeps every landing
   * row on the grid.
   */
  lemma DropIntoEffect(g: Grid, x: int, kind: Kind, bs: real)
    requires 0 <= x < Width
    ensures var r := DropInto(g, x, kind, bs);
      && (TopEmpty(g[x]).None? ==> r == g)
      && (TopEmpty(g[x]).Some? ==>
            var y := TopEmpty(g[x]).value;
            && r[x][y] == Block(kind, Falling, -bs, Some(y))
            && (forall i, j :: InBounds(i, j) && (i != x || j != y) ==> r[i][j] == g[i][j])
            && |BlocksOf(r[x])| == |BlocksOf(g[x])| + 1)
      && (TargetsInRange(g) ==> TargetsInRange(r))
  {
    if TopEmpty(g[x]).Some? {
      var y := TopEmpty(g[x]).value;
      var r := DropInto(g, x, kind, bs);
      assert r[x] == g[x][y := Block(kind, Falling, -bs, Some(y))];
      BlocksOfUpdate(g[x], y, Block(kind, Falling, -bs, Some(y)));
      assert TargetsInRange(g) ==> ColumnTargetsOk(r[x]);
    }
  }

}
