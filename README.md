# A two-board falling-block matching game, modelled in Dafny

This project models the grid simulation of a browser game in which the
player and, optionally, a computer opponent each own a 6 × 12 grid of
coloured blocks (five colours, row 0 at the top). The model covers:

- **Swaps.** A cursor swaps two horizontally adjacent cells.
- **Matches.** Three or more equal idle blocks in a row or column are
  marked as clearing, and once the clear animation ends they are removed.
- **Gravity.** It runs in two phases. First, floating blocks are marked as
  falling towards a landing row. Then falling blocks move down at a fixed
  speed and land.
- **Chains and score.** Chained clears raise a combo counter. The score
  grows by `cleared * 10 * combo`.
- **Garbage.** Clears send garbage blocks to the opponent. The garbage
  first cancels blocks that are already incoming, then waits in a queue and
  falls one block at a time into planned columns.
- **Raising.** The stack rises continuously. A raise with a block in the top
  row loses the game.
- **The computer.** It searches every adjacent swap for the one that puts
  the most cells in a run of three, then performs it step by step on a
  reaction timer.

Modules follow the source files:

| module | file | what it holds |
|---|---|---|
| `Blocks` (blocks.dfy) | shared by all | cells, grid shape, runs of three, counts |
| `BoardEngine` (board.dfy) | board.js | class `Board` and the functions that specify it |
| `AiPlanner` (ai.dfy) | ai.js | class `Ai` with its board, the swap search and the match scanners |
| `PlayerControl` (player.dfy) | player.js | class `Player` with its board, keys, raise and new-row generation |
| `GarbageRules` (garbage.dfy) | game.js, garbageManager.js | the attack formula, chunk queues, cancellation, column planning, garbage landing |
| `GarbagePool` (garbage_manager.dfy) | garbageManager.js | class `GarbageManager`, the pooled variant of the garbage exchange |
| `GameTick` (game.dfy) | game.js | class `Game`, the per-frame update of both boards |

The source mutates objects in place, so the model is imperative where the
source is:

- a board is a class whose `grid` field, a column-major
  `seq<seq<Cell>>`, its methods reassign;
- every loop of the source is a `while`/`for` loop with invariants;
- each method is proved equal to a specification function, for example
  `CompactColumn` against `Packed`, `HandleMatches` against `MarkMatches`,
  and `LandFallingBlocks` against `LandGrid`;
- the properties the game relies on are lemmas about those functions.

The code departs from what its comments suggest at several points, and
the model follows the code:

- a landing block overwrites whatever occupies its landing cell; nothing
  checks that the cell is free (see `LandingOverwriteExample`);
- garbage enters the top-most empty cell of its column, not the cell above
  the column's occupied top;
- the computer also accepts swaps that score zero, and it only searches
  swaps of two adjacent cells;
- when the board is unsettled, the computer only re-arms its reaction
  timer; it keeps its plan;
- garbage is sent during the clearing side's own update, not after both
  sides have updated;
- the computer never loses. Its raise reports a game over, but the game
  checks a flag that nothing sets.

## Model

| member | source | states |
|---|---|---|
| Blocks.RowTopIsProduct | board.js:151 | the pixel top of row n, built by repeated addition, equals n * blockSize, as the source computes it |
| Blocks.CellAt | board.js:44-45 | reading (x, y) yields a cell exactly when it lies on the grid, and then the grid's cell; off-grid reads are missing |
| Blocks.StateCountZero | board.js:243-248 | the count of blocks in a state is zero exactly when no cell of the grid is in that state |
| BoardEngine.ScanRuns | board.js:184-205 | the run-length scan of one line marks cell i exactly when i lies in a window of three eligible blocks of one colour |
| BoardEngine.RunIsMaximal | board.js:191-200 | inside a maximal run of eligible equal blocks, every cell is in a run of three exactly when the run has length at least 3 |
| BoardEngine.RetargetAt | board.js:57-71 | after a slide into row y, each falling block reachable upwards through empty or falling cells gets landing row y - 1 - (falling blocks below it); other cells keep their value |
| BoardEngine.SlideEffect | board.js:48-73 | a slide empties the source, puts the moved block unchanged in the destination, re-targets the falling blocks above it in order, and changes nothing else |
| BoardEngine.SwapKeepsTargets | board.js:43-100 | every swap, real or simulated, keeps each landing row on the grid |
| BoardEngine.SlideKeepsTargets | board.js:48-73 | a slide keeps each landing row on the grid |
| BoardEngine.SimulatedSwapInvolution | board.js:78-81 | the simulated swap applied twice at the same cell restores the grid exactly |
| BoardEngine.IdleSwapExchanges | board.js:93-96 | swapping two idle blocks succeeds, exchanges those two cells, and changes nothing else |
| BoardEngine.SwapAccepts | board.js:83-99 | a real swap succeeds exactly when it slides an idle block into an empty neighbour or exchanges two idle blocks; a refused swap leaves the grid unchanged |
| BoardEngine.NoMatchesNoMarks | board.js:180-241 | a match pass over a grid with no eligible run of three changes nothing |
| BoardEngine.MarkedIffInMatch | board.js:184-241 | a cell not yet in the marking state is marked exactly when it lies in a horizontal or vertical run of three eligible blocks |
| BoardEngine.NoMarksMeansNoMatches | board.js:243-248 | on a grid with no block yet in the marking state, the pass counts zero exactly when the grid has no eligible run |
| BoardEngine.ClearingNeverRemarked | board.js:189-194 | a block already clearing is left untouched by any later match pass |
| BoardEngine.MarkingLeavesNoIdleRun | board.js:180-241 | after a regular pass no idle run of three is left, so a second pass changes nothing (the pass is idempotent) |
| BoardEngine.MatchLineExample | board.js:185-205 | a row of three idle reds followed by three other colours marks exactly its first three cells |
| BoardEngine.GridMatchExample | board.js:180-241 | on a whole grid, three idle reds stacked in one column start clearing, and the blue block beside them does not |
| BoardEngine.PassOnlyMarks | board.js:180-241 | a match pass moves no block and recolours none; each cell stays as it was or its block enters the marking state |
| BoardEngine.ClearFreePassIsIdentity | board.js:180-249 | a game-time pass after which no block is clearing has changed nothing |
| BoardEngine.ClearColumnCount | board.js:251-260 | clearing a column removes exactly its clearing and cleared blocks |
| BoardEngine.ClearGridCount | board.js:251-260 | clearing the grid removes exactly its clearing and cleared blocks |
| BoardEngine.PackedKeepsBlocks | board.js:102-116 | compaction keeps a column's blocks in their top-to-bottom order and leaves no empty cell below a block |
| BoardEngine.CompactKeepsCount | board.js:102-116 | compacting the grid keeps the number of blocks and settles every column |
| BoardEngine.FloatingKeepsTargets | board.js:128-142 | gravity's phase 1 on a column keeps every landing row on the column |
| BoardEngine.FloatingKeepsCells | board.js:128-142 | phase 1 neither moves, adds, removes nor recolours a block |
| BoardEngine.FloatingMarkedColumn | board.js:128-142 | after phase 1, an idle block without a landing row has only blocks below it |
| BoardEngine.FloatingMarked | board.js:128-142 | phase 1 on the grid keeps landing rows on the grid, moves and recolours nothing, and leaves no idle unscheduled block above a gap |
| BoardEngine.LandAt | board.js:148-172 | one phase-2 visit keeps the column's height and every landing row on the column |
| BoardEngine.LandFrom | board.js:145-175 | phase 2 on a column keeps its height and every landing row on the column |
| BoardEngine.LandGrid | board.js:145-175 | phase 2 on the grid keeps every landing row on the grid |
| BoardEngine.StableColumnUnchanged | board.js:145-175 | phase 2 leaves a column with nothing falling exactly as it was |
| BoardEngine.LandAtNeverAddsBlocks | board.js:157-168 | one landing step never adds a block to a column |
| BoardEngine.LandingNeverAddsBlocks | board.js:145-175 | phase 2 never adds a block to a column |
| BoardEngine.LandingOverwriteExample | board.js:165-168 | a block landing on an occupied cell overwrites it, and the column loses a block (there is no conflict check) |
| BoardEngine.PopulatedIsCalm | board.js:27-41 | a freshly populated grid has idle blocks in exactly its lower half, is settled, and has no landing rows |
| BoardEngine.RaiseRunConserves | player.js:32-43 | over any run of frames, the progress at the start plus the height gained equals the progress left plus one row for every raise |
| BoardEngine.RaiseRunBelowRow | player.js:32-43 | while no frame gains more than a row, progress that starts below one row stays below one row after every frame |
| BoardEngine.AutoGainWithinRow | player.js:33-35 | at the automatic speed, a frame no longer than the raise interval gains at most one row, and the whole interval gains exactly one |
| BoardEngine.OneRowPerInterval | player.js:32-43 | at the automatic speed, frames from no progress that together last one raise interval raise the stack exactly once and leave no progress, however the interval is split into frames |
| BoardEngine.RaiseShiftsRows | player.js:53-74 | with an empty top row, a raise moves row y + 1 to row y, fills the bottom with idle blocks of the new colours, and adds exactly Width blocks |
| BoardEngine.RaisedRowHasNoRun | player.js:59-74 | a new bottom row without three equal colours side by side starts no horizontal run of three |
| BoardEngine.CleanupRoundShrinks | board.js:20-23 | one clean-up round of the constructor leaves a pristine, settled board with strictly fewer blocks, so the rounds end |
| BoardEngine.CleanupFinished | board.js:20-24 | when a clean-up pass marks nothing, the board has no run of three at all and the pass left it unchanged |
| BoardEngine.PristineRunsAgree | board.js:189-194 | on a board of idle blocks, the initial check's eligibility and "any block" find the same runs |
| BoardEngine.CompactColumn | board.js:104-115 | the read/write compaction loop on a column yields exactly the packed column |
| BoardEngine.FloatColumn | board.js:129-141 | the bottom-up phase-1 loop with its empty-cell counter yields exactly the phase-1 column |
| BoardEngine.LandColumn | board.js:147-174 | the phase-2 loop, from the bottom row up to row 0, yields the landed column, and reports falling exactly when some block of the column was falling |
| BoardEngine.FindMatches | board.js:182-228 | both scans together mark exactly the cells lying in an eligible horizontal or vertical run of three |
| BoardEngine.FallingBlockLands | board.js:145-172 | a falling block whose fall reaches its landing row this tick, with no other falling block of its column landing on that row or on its own, ends the column pass idle, of its own colour, at exactly that row's pixel top with no landing row, and its old row is empty |
| BoardEngine.Board.constructor | board.js:8-25 | a new board has its cursor at (2, 5), combo 0, is not resolving, holds only idle blocks, is settled, and has no run of three at all |
| BoardEngine.Board.PopulateGrid | board.js:27-41 | the grid becomes the populated grid of the drawn colours |
| BoardEngine.Board.SwapBlocks | board.js:43-100 | the result and the new grid are those of the swap rules, and landing rows stay on the grid |
| BoardEngine.Board.PerformSwap | board.js:48-73 | the grid becomes the slide with re-targeting |
| BoardEngine.Board.ApplyInitialGravity | board.js:102-116 | every column is compacted to the bottom |
| BoardEngine.Board.MarkFloatingBlocks | board.js:128-142 | the grid becomes its phase-1 image |
| BoardEngine.Board.LandFallingBlocks | board.js:145-177 | the grid becomes its phase-2 image, and the result is true exactly when some block was falling |
| BoardEngine.Board.UpdateGravityAndFallingBlocks | board.js:123-178 | both phases in order, reporting whether anything was falling after phase 1 |
| BoardEngine.Board.HandleMatches | board.js:180-249 | the grid becomes the marked grid, and the result is the number of blocks now in the marking state |
| BoardEngine.Board.ClearBlocks | board.js:251-260 | every clearing or cleared cell becomes empty and nothing else changes |
| BoardEngine.Board.FindBlockPosition | board.js:262-271 | returns the first matching cell in column-major order, or none exactly when no cell matches |
| BoardEngine.Board.TopRowOccupied | player.js:47-51 | true exactly when some cell of row 0 holds a block |
| BoardEngine.Board.ShiftRowsUp | player.js:53-74 | the grid becomes the shifted grid with the new bottom row |
| PlayerControl.CursorStaysOnGrid | player.js:14-18 | arrow keys keep the cursor within [0, Width - 2] × [0, Height - 1] and move it one cell unless it is at that edge |
| PlayerControl.FillRow | player.js:59-69 | a row the rejection loop completes has the board's width |
| PlayerControl.FillRowIsCalm | player.js:59-69 | the rejection loop's row extends the partial row and has no three equal colours side by side |
| PlayerControl.EveryCalmRowIsDrawable | player.js:59-69 | conversely, every full row without three equal colours side by side is produced by some stream of draws |
| PlayerControl.GenerateRow | player.js:59-69 | the imperative rejection loop builds the row FillRow describes |
| PlayerControl.FasterWithScore | player.js:79-83 | from the initial interval, a higher score never gives a slower raise, and the steps compose |
| PlayerControl.Player.constructor | player.js:5-11 | score 0, no manual raise, no progress, the initial raise interval, and a calm new board |
| PlayerControl.Player.HandleKeyPress | player.js:13-26 | arrows move the cursor as CursorAfter says, Space performs the real swap at the cursor, Shift starts a manual raise, and nothing else changes |
| PlayerControl.Player.HandleKeyUp | player.js:28-30 | releasing Shift ends the manual raise; other keys change nothing |
| PlayerControl.Player.UpdateRaise | player.js:32-43 | progress grows by speed * time only when raising is allowed; reaching a row's height raises once (or loses) and carries the rest; the new progress and whether a raise happened are one step of the accumulator `RaiseTick` that `RaiseRun` folds over frames; a raise moves the cursor up one row unless it is on the top row, and a lost raise or no raise leaves the cursor and the grid as they were |
| PlayerControl.Player.RaiseStack | player.js:45-77 | a block in row 0 loses with the grid unchanged; otherwise rows shift up, the new calm row fills the bottom, the cursor follows, and the result is raised |
| PlayerControl.Player.UpdateGameSpeed | player.js:79-83 | the interval becomes 2000, 3000 or 4000 past 10000, 5000 or 2000 points, and otherwise stays |
| GarbageRules.GarbageAmount | game.js:206-219 | the attack amount is one of 0, 2, 3, 4, 5, 6, 12 and 18 |
| GarbageRules.NoGarbageIff | game.js:206-223 | a clear sends nothing exactly when it is a first clear of fewer than four blocks, and shakes exactly for first clears of five or more or chains of three or more |
| GarbageRules.GarbageMonotone | game.js:206-219 | a bigger first clear or a longer chain never sends less |
| GarbageRules.NewChunk | game.js:238 | a new chunk has the remaining amount of blocks, the drawn colours and no columns yet |
| GarbageRules.CancelRound | game.js:230-234 | a round never takes more than the amount, never lengthens the queue, and shortens it unless the amount is spent |
| GarbageRules.CancelRoundFront | game.js:230-234 | a round takes its blocks off the front of the queue |
| GarbageRules.CancelRoundKeepsChunks | game.js:230-234 | a round keeps every queued chunk non-empty and uniformly planned |
| GarbageRules.CancelConsumesFront | game.js:225-235 | cancellation removes exactly min(amount, queued) blocks from the front, keeps the chunks well formed, and leaves an amount only when the queue is empty |
| GarbageRules.AssignColumns | game.js:268-276 | every block of the chunk gets a column on the grid |
| GarbageRules.ColumnsSpread | game.js:268-276 | planning keeps the colours, gives the first Width blocks pairwise different columns, and repeats every Width blocks |
| GarbageRules.PlannedHead | game.js:266-277 | the head chunk is planned, with its colours kept |
| GarbageRules.ReleaseTakesOne | game.js:262-288 | a release takes exactly one block off the front, of the front's colour and with a column on the grid, and keeps every chunk non-empty |
| GarbageRules.TopEmpty | game.js:293-299 | the top-most empty cell of a column, with only blocks above it, or none when the column is full |
| GarbageRules.DropIntoEffect | game.js:292-300 | a drop fills the top-most empty cell with a block falling to that row, changes nothing else, adds one block to a column with room, and leaves a full column as it is |
| GarbagePool.CancellationSettles | garbageManager.js:63-69 | pooled cancellation leaves both pools non-negative, at most one of them non-zero, and their difference unchanged |
| GarbagePool.GarbageManager.constructor | garbageManager.js:5-17 | both pools and all timers zero, both queues empty |
| GarbagePool.GarbageManager.Reset | garbageManager.js:19-28 | both pools and all timers zero, both queues empty |
| GarbagePool.GarbageManager.AccumulateGarbage | garbageManager.js:30-55 | the amount goes to the sender's pool only (nothing when it is zero), and a shake is asked for when it is at least four |
| GarbagePool.GarbageManager.SendAccumulatedGarbage | garbageManager.js:57-80 | an empty pool sends nothing; otherwise the sender's pool becomes zero, the opponent's drops by the cancelled amount, and a positive rest becomes one chunk on the opponent's queue with its hold timer at 2000 |
| GarbagePool.GarbageManager.UpdatePendingGarbage | garbageManager.js:82-93 | while the side's queue is non-empty and its hold timer positive, the timer only counts down; otherwise it becomes zero |
| GarbagePool.GarbageManager.GetPendingGarbage | garbageManager.js:95-97 | the side's queue, whose chunks are all non-empty |
| GarbagePool.GarbageManager.GetGarbageHoldTimer | garbageManager.js:99-101 | the player's hold timer when asked for the player, and the computer's otherwise |
| AiPlanner.ScoreZeroIffNoMatches | ai.js:146-182 | a grid scores zero exactly when it has no run of three blocks in any state, and never more than Width * Height |
| AiPlanner.ScanWindows | ai.js:151-160 | the window scan of one line marks a cell exactly when it lies in a window of three equal blocks |
| AiPlanner.FindWindowMatches | ai.js:147-172 | both window scans mark exactly the cells in a horizontal or vertical run of three blocks, whatever their state |
| AiPlanner.FindMatchesInGrid | ai.js:146-182 | as above, and the list of marked blocks has one entry per marked cell |
| AiPlanner.SearchDone | ai.js:97-125 | at the end of the scan, the kept pair is absent exactly when there is no candidate, and is otherwise the best swap |
| AiPlanner.BestSwapUnique | ai.js:115-121 | the best swap (highest score, first in row-major order) is unique |
| AiPlanner.RunThroughIsInTriple | ai.js:184-202 | a run of three through the centre counted outwards exists exactly when the centre lies in a window of three |
| AiPlanner.CountLeft | ai.js:191 | counts the maximal stretch of equal eligible blocks to the left of the centre |
| AiPlanner.CountRight | ai.js:192 | counts the maximal stretch of equal eligible blocks to the right of the centre |
| AiPlanner.CentredRun | ai.js:190-193 | the two maximal stretches together reach three exactly when a run through the centre exists |
| AiPlanner.CountedRun | ai.js:190-199 | counting both ways finds a run through the centre exactly when one exists |
| AiPlanner.CheckForMatchInGrid | ai.js:184-202 | true exactly when the cell is on the grid, holds a block, and lies in a run of three blocks in any state |
| AiPlanner.IdleCentreAgrees | ai.js:204-226 | for an idle centre, the counted check excluding clearing neighbours agrees with the run definition |
| AiPlanner.Ai.constructor | ai.js:8-21 | reaction time 50 ms (hard) or 250 ms (easy), timer armed, empty plan, no progress, and a calm new board |
| AiPlanner.Ai.Update | ai.js:24-50 | the new state is `Thought` of the state it started from (`MindNow`): an unstable board only re-arms the timer and keeps the plan, cursor, grid and progress; a stable one counts the timer down; on expiry the timer is re-armed, and then: a pending step is taken off the plan and performed (the cursor moves to its cell, or the simulated swap happens at the cursor), with no raise; with no plan and a candidate, the cursor goes to the best swap of the grid and the swap step waits, with no raise; otherwise (the plan just ran out, or no candidate) the plan is empty, the cursor stays, and the stack raises at the constant speed: a full row raises once, a block in row 0 reports a game over with the grid unchanged, otherwise the rows shift up with the new row |
| AiPlanner.Ai.AnyFallingNow | ai.js:25 | true exactly when some block of the grid is falling |
| AiPlanner.Ai.CreatePlan | ai.js:52-74 | with no candidate nothing changes; otherwise the cursor is on the best swap and the swap step remains queued |
| AiPlanner.Ai.ExecuteNextStep | ai.js:76-89 | an empty plan stops execution; otherwise exactly the front step is removed and performed (cursor move or simulated swap) |
| AiPlanner.Ai.FindBestOpportunity | ai.js:91-126 | leaves the grid unchanged, finds none exactly when no adjacent idle pair exists, and otherwise returns the best swap |
| AiPlanner.Ai.EvaluateBoardState | ai.js:128-133 | the number of cells in a run of three, whatever their state |
| AiPlanner.Ai.CheckForMatchAt | ai.js:204-226 | true exactly when the cell holds a block (idle outside simulation) with a run of three through it, ignoring clearing neighbours |
| AiPlanner.Ai.IsPathClear | ai.js:135-144 | for a path whose cells lie in the grid's columns, true exactly when every cell after startX up to endX on the row is empty (a row off the grid is not empty); true when startX equals endX, whatever the columns |
| AiPlanner.Ai.UpdateRaise | ai.js:228-239 | progress grows at the AI's constant speed when raising is allowed; reaching a row's height raises once (or loses) and carries the rest |
| AiPlanner.Ai.RaiseStack | ai.js:243-260 | a block in row 0 loses with the grid unchanged; otherwise rows shift up and the new row fills the bottom |
| GameTick.Inbox.constructor | game.js:63-68 | an empty queue with both timers at zero |
| GameTick.Game.constructor | game.js:53-84 | a playing game with fresh calm boards, empty queues, zero timers, a computer exactly in versus mode, and a full clock in time attack |
| GameTick.Game.EndGame | game.js:86-97 | the first result is kept; a game already over stays as it was |
| GameTick.Game.TriggerShake | game.js:302-305 | the shake lasts the longer of the running and the new duration |
| GameTick.Game.Update | game.js:118-135 | both boards update, and in time attack the clock runs down, stops at zero and ends the game |
| GameTick.Game.UpdatePlayerBoard | game.js:137-191 | a resolving board is left as it was, with both queues, both hold timers, the player's drop timer, the score, the shake, the raise progress and the cursor. Otherwise the garbage queue and its two timers advance one garbage step and gravity runs. If something falls, the grid is the fallen grid, and the score, combo, shake, raise progress, cursor and the computer's queue and hold timer are unchanged. A clear keeps every block where it was, only putting blocks in the clearing state, counts them, starts resolving, increments the combo, adds cleared * 10 * combo and, in a versus game, sends the attack to the computer: the player's incoming queue becomes what the chunk-by-chunk cancellation leaves, the rest goes to the computer's queue and restarts its hold timer, and a large attack shakes. Outside a versus game, or for a small attack, the shake is unchanged; the raise progress and cursor are unchanged. With no clear the grid is the fallen grid, the combo resets, and the stack gains height only while no garbage is queued. A full row then raises the fallen grid with the new calm row and moves the cursor up, or, when row 0 holds a block, reports a game over with grid and cursor unchanged and ends a running game won by the computer. The manual-raise flag, the raise interval and the cursor's column are never written |
| GameTick.Game.UpdateAiBoard | game.js:137-202 | the same garbage, gravity and clear steps for the computer, without score, with the same timers and the same frame on the other side's queue and hold timer; a clear always sends its attack to the player, the computer's own queue left as the cancellation leaves it; on every outcome but a settled board the computer's timer, plan, raise progress and cursor are as they were; on a settled board the combo resets and the computer's state is one `Thought` tick from the fallen grid and its earlier timer, plan, progress and cursor; the game is not ended |
| GameTick.Game.SettleBoard | game.js:144-177 | the queue and both garbage timers after one garbage step; the board falls exactly when something falls after the garbage step and phase 1; without a clear the grid is exactly the garbage step followed by both gravity phases; a clear only puts blocks of that grid in the clearing state, and reports their positive count; a settled board has no clearing block |
| GameTick.Game.StartPlayerClear | game.js:155-164 | the player's board starts resolving, the combo grows by one, the score gains cleared * 10 * combo, and only in a versus game the attack goes to the computer, cancelling the player's incoming chunks first and restarting the computer's hold timer when a rest is sent; without a versus game both queues, the computer's hold timer and the shake are unchanged; the grid is untouched |
| GameTick.Game.StartAiClear | game.js:155-167 | the computer's board starts resolving, the combo grows by one, and the attack goes to the player, cancelling the computer's incoming chunks first and restarting the player's hold timer when a rest is sent; a small attack leaves the shake unchanged; the grid is untouched |
| GameTick.Game.RaisePlayer | game.js:180-191 | the combo resets; progress gains speed * time only when the player's queue is empty; a full row raises the stack once with the new calm row and moves the cursor up unless it is on the top row or, when row 0 holds a block, reports a game over with the grid and cursor unchanged, and a game over ends a running game won by the computer |
| GameTick.Game.SettleAi | game.js:180-199 | the combo resets and the computer's timer, plan, cursor, grid and raise progress are one `Thought` tick from those it started with; a reported game over means row 0 held a block |
| GameTick.GridAfterGarbage | game.js:245-290 | one garbage step: a released block drops into the planned column, otherwise the grid is unchanged; landing rows stay on the grid |
| GameTick.GridAfterGravity | game.js:144-149 | the garbage step then both gravity phases; every landing row stays on the grid |
| GameTick.Game.FinishClearing | game.js:171-174 | the deferred end of a clear removes the clearing blocks and ends resolving |
| GameTick.Game.SendGarbage | game.js:204-243 | an attack of at least four shakes, and a smaller one leaves the shake as it was; the sender's incoming queue becomes exactly the chunks `Cancel` leaves, which are its blocks without the front min(amount, queued), and a positive rest becomes one chunk on the target's queue with its hold timer at 2000; with no rest the target's queue and hold timer are unchanged |
| GameTick.Game.UpdatePendingGarbage | game.js:245-290 | the hold timer gates everything; an empty queue only zeroes it; the drop timer accumulates and on reaching the delay restarts and releases exactly one planned block onto the board |
| GameTick.Game.DropSingleGarbageBlock | game.js:292-300 | the grid becomes the drop of one falling block into the top-most empty cell of the column |
| GameTick.CancelQueue | game.js:229-235 | the imperative cancellation loop computes the cancellation function |
| GameTick.TopEmptyIsFirst | game.js:293-299 | the first empty cell the downward loop meets is the top-most empty cell |

## Left out

- **Left out as I/O or presentation.** Rendering, the DOM, canvas and overlays, audio, input wiring and the `requestAnimationFrame` loop (game.js:6-116, 307-407) are not part of this model. Neither are screenShake.js, audio.js, uiManager.js, inputHandler.js and main.js. The frame time is a parameter.
- **Shake countdown.** The countdown of the shake duration belongs to the frame loop (game.js:107-109) and is left out. `TriggerShake` is modelled.
- **Randomness.** Random choices are parameters:
  - the colours of a new board;
  - the stream of colours the player's row generation draws from (it must be long enough to fill a row);
  - the computer's new row;
  - a garbage chunk's colours;
  - the shuffled column permutation.
- **Arithmetic.** Floating-point positions, timers and speeds are exact reals, and rounding is not modelled.
- **Deferred clear.** The 400 ms `setTimeout` that ends a clear is the explicit operation `Game.FinishClearing`. When it runs relative to later updates is not modelled.
- **Block identity.** Cells are values. Block identity and aliasing are not modelled, so `FindBlockPosition` compares cells by value, not by object identity.
- **Unread fields.** `blocksToClear`, the clear timestamp and the computer's `hasNoMoves` flag are written but never read, and are left out.
- **Per-side state.** The game's per-side garbage fields are grouped into one `Inbox` object per side. `updateBoard` is split into `UpdatePlayerBoard` and `UpdateAiBoard`, which share `SettleBoard`.
- **Unused code.** Audio calls inside `handleKeyPress` and `updateBoard` are dropped. The drop timers of `GarbageManager` are only reset, as in the source.
- GameTick.Game.Update: states the invariant and the time-attack clock only. What happens to each board is stated on `UpdatePlayerBoard` and `UpdateAiBoard`.
- GameTick.Game.SettleBoard: on a clear, it states that blocks only enter the clearing state and how many there are, not which ones. Which cells are marked is stated on `Board.HandleMatches` (as `MarkMatches`); restating it here makes every caller's proof too expensive.
- GameTick.Game.UpdatePlayerBoard: on a clear, the same as `SettleBoard`: which cells are marked is stated on `Board.HandleMatches`.
- GameTick.Game.UpdateAiBoard: on a clear, the same as `SettleBoard`: which cells are marked is stated on `Board.HandleMatches`.
- BoardEngine.LandAt: its own contract states only the invariants it keeps. Its landing behaviour is stated by `FallingBlockLands`, `LandAtNeverAddsBlocks` and `LandingOverwriteExample`.
