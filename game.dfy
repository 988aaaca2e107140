/**
 * One match: the player's board, the computer's board in a versus game,
 * the garbage each side has incoming, and the per-frame update that drives
 * both boards through garbage, gravity, matches, combos, score and raises.
 */
module GameTick {
  import opened Blocks
  import opened BoardEngine
  import opened GarbageRules
  import opened AiPlanner
  import opened PlayerControl

  /** Length of a time-attack game in milliseconds. */
  const TimeAttackDuration: real := 120000.0

  /** Milliseconds of screen shake a large attack asks for. */
  const AttackShake: real := 200.0

  datatype Mode = VsCpu(difficulty: Difficulty) | TimeAttack

  /** Whether the game runs, and once over who won, if anyone. */
  datatype Phase = Playing | Over(winner: Option<Side>)

  /** What one board update did. */
  datatype TickOutcome =
    | Skipped            // the board was still resolving a clear
    | StillFalling       // a block fell during this update
    | Resolving(cleared: int)  // a clear started with this many blocks
    | Settled            // nothing fell and nothing matched

  /**
   * The random choices one board update may need: the column permutation
   * for a garbage chunk, the colours of a new garbage chunk, the stream of
   * colours for the player's new row, and the AI's new row.
   */
  datatype Dice = Dice(columns: seq<int>, colours: nat -> Kind, playerDraws: seq<Kind>, aiRow: seq<Kind>)

  predicate DiceOk(d: Dice)
  {
    IsColumnPermutation(d.columns) && FillRow([], d.playerDraws).Some? && |d.aiRow| == Width
  }

  /**
   * Whether a frame's garbage step releases a block: something is queued,
   * the hold timer no longer holds it back, and the drop timer reaches the
   * drop delay.
   */
  predicate Releases(queue: seq<Chunk>, holdTimer: real, dropTimer: real, dt: real)
  {
    queue != [] && holdTimer <= 0.0 && dropTimer + dt >= GarbageDropDelay
  }

  /** The incoming queue after a frame's garbage step. */
  function QueueAfterGarbage(queue: seq<Chunk>, holdTimer: real, dropTimer: real, dt: real, columns: seq<int>): seq<Chunk>
    requires IsColumnPermutation(columns)
  {
    if Releases(queue, holdTimer, dropTimer, dt) then Released(queue, columns) else queue
  }

  /** The grid after a frame's garbage step: the released block, if any, enters its planned column. */
  function GridAfterGarbage(queue: seq<Chunk>, holdTimer: real, dropTimer: real, g: Grid, dt: real, columns: seq<int>, bs: real): (r: Grid)
    requires QueueOk(queue) && IsColumnPermutation(columns)
    ensures TargetsInRange(g) ==> TargetsInRange(r)
  {
    if Releases(queue, holdTimer, dropTimer, dt) then
      ReleaseTakesOne(queue, columns);
      var block := NextBlock(queue, columns);
      DropIntoEffect(g, block.dropColumn.value, block.kind, bs);
      DropInto(g, block.dropColumn.value, block.kind, bs)
    else g
  }

  /** The grid after a frame's garbage step and both gravity phases. */
  function GridAfterGravity(queue: seq<Chunk>, holdTimer: real, dropTimer: real, g: Grid, dt: real, columns: seq<int>, bs: real): (r: Grid)
    requires QueueOk(queue) && IsColumnPermutation(columns) && TargetsInRange(g)
    ensures TargetsInRange(r)
  {
    FloatingMarked(GridAfterGarbage(queue, holdTimer, dropTimer, g, dt, columns, bs), bs);
    LandGrid(MarkFloating(GridAfterGarbage(queue, holdTimer, dropTimer, g, dt, columns, bs), bs), dt, bs)
  }

  /** Whether a block is falling once a frame's garbage step and phase 1 of gravity are done. */
  predicate FallsAfterGarbage(queue: seq<Chunk>, holdTimer: real, dropTimer: real, g: Grid, dt: real, columns: seq<int>, bs: real)
    requires QueueOk(queue) && IsColumnPermutation(columns)
  {
    AnyFalling(MarkFloating(GridAfterGarbage(queue, holdTimer, dropTimer, g, dt, columns, bs), bs))
  }

  /** The hold timer after a frame's garbage step: it runs down while it holds a queue back, and is zero otherwise. */
  function HoldAfterGarbage(queue: seq<Chunk>, holdTimer: real, dt: real): real
  {
    if queue != [] && holdTimer > 0.0 then holdTimer - dt else 0.0
  }

  /**
   * The drop timer after a frame's garbage step: it stands still while the
   * queue is empty or held back, restarts from zero when a block is
   * released, and otherwise runs up by the frame.
   */
  function DropAfterGarbage(queue: seq<Chunk>, holdTimer: real, dropTimer: real, dt: real): real
  {
    if queue == [] || holdTimer > 0.0 then dropTimer
    else if Releases(queue, holdTimer, dropTimer, dt) then 0.0
    else dropTimer + dt
  }

  /**
   * The two queues, and the target's hold timer, after a clear worth
   * `amount` blocks is sent from the side whose incoming queue is `origin`
   * to the side whose incoming queue is `target`: nothing happens for no
   * amount; otherwise `origin` becomes what the chunk-by-chunk cancellation
   * leaves of it, which is its blocks without the front min(amount, queued),
   * and a positive rest becomes one new chunk at the back of `target`, whose
   * hold timer restarts at the garbage hold time.
   */
  ghost predicate GarbageSent(amount: int, target: seq<Chunk>, origin: seq<Chunk>, hold: real,
                              target': seq<Chunk>, origin': seq<Chunk>, hold': real, colours: nat -> Kind)
  {
    var m := if amount < Total(origin) then amount else Total(origin);
    && (amount <= 0 ==> target' == target && origin' == origin)
    && (amount > 0 ==> origin' == Cancel(origin, amount).0 && Flatten(origin') == Flatten(origin)[m..])
    && (amount > m ==> target' == target + [NewChunk(amount - m, colours)] && hold' == GarbageHoldTime)
    && (amount <= m ==> target' == target && hold' == hold)
  }

  /** The garbage waiting to fall on one side, with its hold and drop timers. */
  class Inbox {
    var queue: seq<Chunk>
    var holdTimer: real
    var dropTimer: real

    constructor ()
      ensures queue == [] && holdTimer == 0.0 && dropTimer == 0.0
    {
      queue := [];
      holdTimer := 0.0;
      dropTimer := 0.0;
    }
  }

  class Game {
    const mode: Mode
    const player: Player
    const ai: Ai?
    const playerInbox: Inbox
    const aiInbox: Inbox
    var phase: Phase
    var timer: real
    var shakeDuration: real

    /** The computer's objects, when there is a computer opponent. */
    function AiObjects(): set<object>
      reads this
    {
      if ai == null then {} else {ai, ai.board}
    }

    ghost predicate Valid()
      reads this, player, player.board, playerInbox, aiInbox, AiObjects()
    {
      && player.Valid()
      && (ai != null <==> mode.VsCpu?)
      && (ai != null ==> ai.Valid() && ai.board != player.board)
      && playerInbox != aiInbox
      && QueueOk(playerInbox.queue) && QueueOk(aiInbox.queue)
    }

    function BoardOf(side: Side): Board
      requires side == AiSide ==> ai != null
      reads this
    {
      if side == PlayerSide then player.board else ai.board
    }

    function InboxOf(side: Side): Inbox
      reads this
    {
      if side == PlayerSide then playerInbox else aiInbox
    }

    /** Starts a game: fresh boards from the given colours, empty queues, and in time attack a full clock. */
    constructor (mode: Mode, playerKinds: seq<seq<Kind>>, aiKinds: seq<seq<Kind>>)
      requires IsKindGrid(playerKinds) && IsKindGrid(aiKinds)
      ensures Valid() && this.mode == mode && phase == Playing && shakeDuration == 0.0
      ensures playerInbox.queue == [] && aiInbox.queue == []
      ensures playerInbox.holdTimer == 0.0 && aiInbox.holdTimer == 0.0 && playerInbox.dropTimer == 0.0 && aiInbox.dropTimer == 0.0
      ensures mode == TimeAttack ==> timer == TimeAttackDuration
      ensures player.score == 0 && NoMatches(player.board.grid, AnyBlock)
      ensures ai != null ==> NoMatches(ai.board.grid, AnyBlock)
    {
      this.mode := mode;
      player := new Player(playerKinds);
      playerInbox := new Inbox();
      aiInbox := new Inbox();
      if mode.VsCpu? {
        ai := new Ai(mode.difficulty, aiKinds);
      } else {
        ai := null;
      }
      phase := Playing;
      timer := if mode == TimeAttack then TimeAttackDuration else 0.0;
      shakeDuration := 0.0;
    }

    /** Ends the game once; a game already over keeps its first result. */
    method EndGame(winner: Option<Side>)
      modifies this`phase
      ensures phase == (if old(phase).Over? then old(phase) else Over(winner))
    {
      if phase.Over? {
        return;
      }
      phase := Over(winner);
    }

    /** Shakes for the longer of the running shake and the new one. */
    method TriggerShake(duration: real)
      modifies this`shakeDuration
      ensures shakeDuration >= old(shakeDuration) && shakeDuration >= duration
      ensures shakeDuration == old(shakeDuration) || shakeDuration == duration
    {
      if duration > shakeDuration {
        shakeDuration := duration;
      }
    }

    /**
     * One frame: the player's board, then the computer's board when there
     * is one, then in time attack the clock, which ends the game at zero.
     */
    method Update(deltaTime: real, playerDice: Dice, aiDice: Dice)
      requires Valid() && DiceOk(playerDice) && DiceOk(aiDice)
      modifies this, player, player.board, playerInbox, aiInbox, AiObjects()
      ensures Valid()
      ensures mode == TimeAttack ==> timer == (if old(timer) - deltaTime <= 0.0 then 0.0 else old(timer) - deltaTime)
      ensures mode == TimeAttack && old(timer) - deltaTime <= 0.0 && old(phase) == Playing ==> phase.Over?
    {
      var _, _ := UpdatePlayerBoard(deltaTime, playerDice);
      if ai != null {
        var _, _ := UpdateAiBoard(deltaTime, aiDice);
      }
      if mode == TimeAttack {
        timer := timer - deltaTime;
        if timer <= 0.0 {
          timer := 0.0;
          EndGame(None);
        }
      }
    }

    /**
     * The player's board for one frame. A board resolving a clear is left
     * alone. Otherwise incoming garbage advances, gravity runs, and when
     * nothing fell the board looks for matches: a clear starts resolving,
     * extends the combo, scores cleared * 10 * combo and, in a versus game,
     * sends garbage to the computer; no clear resets the combo and lets the
     * stack raise, which only gains height while no garbage is incoming. A
     * raise that finds the top row occupied ends the game with the computer
     * as winner. The manual-raise flag, the raise interval, the cursor's
     * column and the computer's drop timer are never touched.
     */
    method UpdatePlayerBoard(deltaTime: real, dice: Dice) returns (outcome: TickOutcome, raise: RaiseResult)
      requires player.Valid() && playerInbox != aiInbox && QueueOk(playerInbox.queue) && QueueOk(aiInbox.queue) && DiceOk(dice)
      modifies this`phase, this`shakeDuration, player`score, player`raiseProgress
      modifies player.board`grid, player.board`cursorY, player.board`comboCount, player.board`isResolving
      modifies playerInbox, aiInbox`queue, aiInbox`holdTimer
      ensures player.Valid() && QueueOk(playerInbox.queue) && QueueOk(aiInbox.queue)
      ensures outcome == Skipped <==> old(player.board.isResolving)
      ensures outcome != Settled ==>
        && raise == NoResult && phase == old(phase)
        && player.raiseProgress == old(player.raiseProgress) && player.board.cursorY == old(player.board.cursorY)
      ensures outcome == Skipped ==>
        && player.board.grid == old(player.board.grid) && player.board.isResolving
        && player.board.comboCount == old(player.board.comboCount) && player.score == old(player.score)
        && playerInbox.queue == old(playerInbox.queue) && playerInbox.holdTimer == old(playerInbox.holdTimer)
        && playerInbox.dropTimer == old(playerInbox.dropTimer)
        && aiInbox.queue == old(aiInbox.queue) && aiInbox.holdTimer == old(aiInbox.holdTimer)
        && shakeDuration == old(shakeDuration)
      ensures outcome != Skipped ==>
        var queue := QueueAfterGarbage(old(playerInbox.queue), old(playerInbox.holdTimer), old(playerInbox.dropTimer), deltaTime, dice.columns);
        var fallen := GridAfterGravity(old(playerInbox.queue), old(playerInbox.holdTimer), old(playerInbox.dropTimer), old(player.board.grid), deltaTime, dice.columns, player.board.blockSize);
        && playerInbox.holdTimer == HoldAfterGarbage(old(playerInbox.queue), old(playerInbox.holdTimer), deltaTime)
        && playerInbox.dropTimer == DropAfterGarbage(old(playerInbox.queue), old(playerInbox.holdTimer), old(playerInbox.dropTimer), deltaTime)
        && (outcome == StillFalling <==>
              FallsAfterGarbage(old(playerInbox.queue), old(playerInbox.holdTimer), old(playerInbox.dropTimer), old(player.board.grid), deltaTime, dice.columns, player.board.blockSize))
        && (outcome == StillFalling ==>
              && player.board.grid == fallen && playerInbox.queue == queue
              && aiInbox.queue == old(aiInbox.queue) && aiInbox.holdTimer == old(aiInbox.holdTimer)
              && !player.board.isResolving && player.board.comboCount == old(player.board.comboCount)
              && player.score == old(player.score) && shakeDuration == old(shakeDuration))
        && (outcome.Resolving? ==>
              var amount := GarbageAmount(outcome.cleared, player.board.comboCount);
              && OnlyMarked(fallen, player.board.grid, Clearing)
              && outcome.cleared > 0 && outcome.cleared == StateCount(player.board.grid, Clearing)
              && player.board.isResolving && player.board.comboCount == old(player.board.comboCount) + 1
              && player.score == old(player.score) + outcome.cleared * 10 * player.board.comboCount
              && (mode.VsCpu? ==>
                    GarbageSent(amount, old(aiInbox.queue), queue, old(aiInbox.holdTimer),
                                aiInbox.queue, playerInbox.queue, aiInbox.holdTimer, dice.colours))
              && (mode.VsCpu? && amount >= 4 ==> shakeDuration >= AttackShake)
              && (!mode.VsCpu? || amount < 4 ==> shakeDuration == old(shakeDuration))
              && (!mode.VsCpu? ==>
                    && playerInbox.queue == queue
                    && aiInbox.queue == old(aiInbox.queue) && aiInbox.holdTimer == old(aiInbox.holdTimer)))
        && (outcome == Settled ==>
              var progress := old(player.raiseProgress) + (if queue == [] then RaiseGain(old(player.RaiseSpeed()), deltaTime) else 0.0);
              && playerInbox.queue == queue
              && aiInbox.queue == old(aiInbox.queue) && aiInbox.holdTimer == old(aiInbox.holdTimer)
              && !player.board.isResolving && player.board.comboCount == 0
              && player.score == old(player.score) && shakeDuration == old(shakeDuration)
              && (if progress >= player.board.blockSize then
                    && player.raiseProgress == progress - player.board.blockSize
                    && (raise == GameOver <==> exists x :: 0 <= x < Width && fallen[x][0].Block?)
                    && (raise == GameOver ==> player.board.grid == fallen && player.board.cursorY == old(player.board.cursorY))
                    && (raise != GameOver ==>
                          && raise == Raised
                          && player.board.grid == ShiftedUp(fallen, FillRow([], dice.playerDraws).value, player.board.blockSize)
                          && player.board.cursorY == CursorAfterRaise(old(player.board.cursorY)))
                  else
                    && player.raiseProgress == progress && raise == NoResult
                    && player.board.grid == fallen && player.board.cursorY == old(player.board.cursorY))
              && phase == (if raise == GameOver && old(phase) == Playing then Over(Some(AiSide)) else old(phase)))
    {
      var board := player.board;
      raise := NoResult;
      if board.isResolving {
        return Skipped, NoResult;
      }
      outcome := SettleBoard(board, playerInbox, deltaTime, dice.columns);
      if outcome == StillFalling {
        return;
      }
      if outcome.Resolving? {
        StartPlayerClear(outcome.cleared, dice.colours);
        return;
      }
      raise := RaisePlayer(deltaTime, dice.playerDraws);
    }

    /**
     * A clear on the player's board: the board starts resolving, the combo
     * grows, the score gains cleared * 10 * combo, and in a versus game the
     * clear's garbage goes to the computer.
     */
    method StartPlayerClear(clearedCount: int, colours: nat -> Kind)
      requires player.Valid() && playerInbox != aiInbox && QueueOk(playerInbox.queue) && QueueOk(aiInbox.queue)
      modifies this`shakeDuration, player`score, player.board`isResolving, player.board`comboCount
      modifies playerInbox`queue, aiInbox`queue, aiInbox`holdTimer
      ensures player.Valid() && QueueOk(playerInbox.queue) && QueueOk(aiInbox.queue)
      ensures player.board.grid == old(player.board.grid)
      ensures player.board.isResolving && player.board.comboCount == old(player.board.comboCount) + 1
      ensures player.score == old(player.score) + clearedCount * 10 * player.board.comboCount
      ensures var amount := GarbageAmount(clearedCount, player.board.comboCount);
        && (mode.VsCpu? ==>
              GarbageSent(amount, old(aiInbox.queue), old(playerInbox.queue), old(aiInbox.holdTimer),
                          aiInbox.queue, playerInbox.queue, aiInbox.holdTimer, colours))
        && (mode.VsCpu? && amount >= 4 ==> shakeDuration >= AttackShake)
        && (!mode.VsCpu? || amount < 4 ==> shakeDuration == old(shakeDuration))
        && (!mode.VsCpu? ==>
              && playerInbox.queue == old(playerInbox.queue)
              && aiInbox.queue == old(aiInbox.queue) && aiInbox.holdTimer == old(aiInbox.holdTimer))
    {
      var board := player.board;
      board.isResolving := true;
      board.comboCount := board.comboCount + 1;
      player.score := player.score + clearedCount * 10 * board.comboCount;
      if mode.VsCpu? {
        SendGarbage(aiInbox, playerInbox, clearedCount, board.comboCount, colours);
      }
    }

    /**
     * A settled player's board: the combo resets, the stack raises when no
     * garbage is incoming, and a raise that finds the top row occupied ends
     * the game with the computer as winner.
     */
    method RaisePlayer(deltaTime: real, draws: seq<Kind>) returns (raise: RaiseResult)
      requires player.Valid() && FillRow([], draws).Some?
      modifies this`phase, player`raiseProgress, player.board`grid, player.board`cursorY, player.board`comboCount
      ensures player.Valid() && player.board.comboCount == 0
      ensures var progress := old(player.raiseProgress) + (if playerInbox.queue == [] then RaiseGain(old(player.RaiseSpeed()), deltaTime) else 0.0);
        if progress >= player.board.blockSize then
          && player.raiseProgress == progress - player.board.blockSize
          && (raise == GameOver <==> exists x :: 0 <= x < Width && old(player.board.grid)[x][0].Block?)
          && (raise == GameOver ==> player.board.grid == old(player.board.grid) && player.board.cursorY == old(player.board.cursorY))
          && (raise != GameOver ==>
                && raise == Raised
                && player.board.grid == ShiftedUp(old(player.board.grid), FillRow([], draws).value, player.board.blockSize)
                && player.board.cursorY == CursorAfterRaise(old(player.board.cursorY)))
        else
          && player.raiseProgress == progress && raise == NoResult
          && player.board.grid == old(player.board.grid) && player.board.cursorY == old(player.board.cursorY)
      ensures phase == (if raise == GameOver && old(phase) == Playing then Over(Some(AiSide)) else old(phase))
    {
      var board := player.board;
      if board.comboCount > 0 {
        board.comboCount := 0;
      }
      var canRaise := |playerInbox.queue| == 0;
      raise := player.UpdateRaise(deltaTime, canRaise, draws);
      if raise == GameOver {
        EndGame(Some(AiSide));
      }
    }

    /**
     * The computer's board for one frame: the same garbage, gravity, match
     * and combo steps as the player's, with no score; a clear sends garbage
     * to the player, and with no clear the computer thinks (and may raise).
     * A raise that finds the top row occupied does not end the game. The
     * computer thinks only on a settled board, so on every other outcome its
     * timer, plan, raise progress and cursor are left as they were; its
     * manual-raise flag and the player's drop timer are never touched.
     */
    method UpdateAiBoard(deltaTime: real, dice: Dice) returns (outcome: TickOutcome, raise: RaiseResult)
      requires ai != null && ai.Valid() && playerInbox != aiInbox && QueueOk(playerInbox.queue) && QueueOk(aiInbox.queue) && DiceOk(dice)
      modifies this`shakeDuration, ai`actionTimer, ai`plan, ai`isExecutingPlan, ai`raiseProgress
      modifies ai.board`grid, ai.board`cursorX, ai.board`cursorY, ai.board`comboCount, ai.board`isResolving
      modifies aiInbox, playerInbox`queue, playerInbox`holdTimer
      ensures ai.Valid() && QueueOk(playerInbox.queue) && QueueOk(aiInbox.queue)
      ensures outcome == Skipped <==> old(ai.board.isResolving)
      ensures outcome != Settled ==>
        && raise == NoResult
        && ai.actionTimer == old(ai.actionTimer) && ai.plan == old(ai.plan) && ai.isExecutingPlan == old(ai.isExecutingPlan)
        && ai.raiseProgress == old(ai.raiseProgress)
        && ai.board.cursorX == old(ai.board.cursorX) && ai.board.cursorY == old(ai.board.cursorY)
      ensures outcome == Skipped ==>
        && ai.board.grid == old(ai.board.grid) && ai.board.isResolving && ai.board.comboCount == old(ai.board.comboCount)
        && aiInbox.queue == old(aiInbox.queue) && aiInbox.holdTimer == old(aiInbox.holdTimer)
        && aiInbox.dropTimer == old(aiInbox.dropTimer)
        && playerInbox.queue == old(playerInbox.queue) && playerInbox.holdTimer == old(playerInbox.holdTimer)
        && shakeDuration == old(shakeDuration)
      ensures outcome != Skipped ==>
        var queue := QueueAfterGarbage(old(aiInbox.queue), old(aiInbox.holdTimer), old(aiInbox.dropTimer), deltaTime, dice.columns);
        var fallen := GridAfterGravity(old(aiInbox.queue), old(aiInbox.holdTimer), old(aiInbox.dropTimer), old(ai.board.grid), deltaTime, dice.columns, ai.board.blockSize);
        && aiInbox.holdTimer == HoldAfterGarbage(old(aiInbox.queue), old(aiInbox.holdTimer), deltaTime)
        && aiInbox.dropTimer == DropAfterGarbage(old(aiInbox.queue), old(aiInbox.holdTimer), old(aiInbox.dropTimer), deltaTime)
        && (outcome == StillFalling <==>
              FallsAfterGarbage(old(aiInbox.queue), old(aiInbox.holdTimer), old(aiInbox.dropTimer), old(ai.board.grid), deltaTime, dice.columns, ai.board.blockSize))
        && (outcome == StillFalling ==>
              && ai.board.grid == fallen && aiInbox.queue == queue
              && playerInbox.queue == old(playerInbox.queue) && playerInbox.holdTimer == old(playerInbox.holdTimer)
              && !ai.board.isResolving && ai.board.comboCount == old(ai.board.comboCount) && shakeDuration == old(shakeDuration))
        && (outcome.Resolving? ==>
              var amount := GarbageAmount(outcome.cleared, ai.board.comboCount);
              && OnlyMarked(fallen, ai.board.grid, Clearing)
              && outcome.cleared > 0 && outcome.cleared == StateCount(ai.board.grid, Clearing)
              && ai.board.isResolving && ai.board.comboCount == old(ai.board.comboCount) + 1
              && GarbageSent(amount, old(playerInbox.queue), queue, old(playerInbox.holdTimer),
                             playerInbox.queue, aiInbox.queue, playerInbox.holdTimer, dice.colours)
              && (amount >= 4 ==> shakeDuration >= AttackShake)
              && (amount < 4 ==> shakeDuration == old(shakeDuration)))
        && (outcome == Settled ==>
              && aiInbox.queue == queue
              && playerInbox.queue == old(playerInbox.queue) && playerInbox.holdTimer == old(playerInbox.holdTimer)
              && !ai.board.isResolving && ai.board.comboCount == 0 && shakeDuration == old(shakeDuration)
              && ai.Thought(old(ai.MindNow()).(grid := fallen), deltaTime, dice.aiRow, raise))
    {
      var board := ai.board;
      raise := NoResult;
      if board.isResolving {
        return Skipped, NoResult;
      }
      outcome := SettleBoard(board, aiInbox, deltaTime, dice.columns);
      if outcome == StillFalling {
        return;
      }
      if outcome.Resolving? {
        StartAiClear(outcome.cleared, dice.colours);
        return;
      }
      raise := SettleAi(deltaTime, dice.aiRow);
    }

    /**
     * A settled computer's board: the combo resets and the computer thinks
     * one tick; only a raise onto an occupied top row reports a lost raise.
     */
    method SettleAi(deltaTime: real, newRow: seq<Kind>) returns (raise: RaiseResult)
      requires ai != null && ai.Valid() && |newRow| == Width
      modifies ai`actionTimer, ai`plan, ai`isExecutingPlan, ai`raiseProgress
      modifies ai.board`grid, ai.board`cursorX, ai.board`cursorY, ai.board`comboCount
      ensures ai.Valid() && ai.board.comboCount == 0
      ensures ai.Thought(old(ai.MindNow()), deltaTime, newRow, raise)
    {
      var board := ai.board;
      if board.comboCount > 0 {
        board.comboCount := 0;
      }
      raise := ai.Update(deltaTime, newRow);
    }

    /**
     * A clear on the computer's board: the board starts resolving, the combo
     * grows, and the clear's garbage goes to the player.
     */
    method StartAiClear(clearedCount: int, colours: nat -> Kind)
      requires ai != null && ai.Valid() && playerInbox != aiInbox && QueueOk(playerInbox.queue) && QueueOk(aiInbox.queue)
      modifies this`shakeDuration, ai.board`isResolving, ai.board`comboCount
      modifies playerInbox`queue, playerInbox`holdTimer, aiInbox`queue
      ensures ai.Valid() && QueueOk(playerInbox.queue) && QueueOk(aiInbox.queue)
      ensures ai.board.grid == old(ai.board.grid)
      ensures ai.board.isResolving && ai.board.comboCount == old(ai.board.comboCount) + 1
      ensures var amount := GarbageAmount(clearedCount, ai.board.comboCount);
        && GarbageSent(amount, old(playerInbox.queue), old(aiInbox.queue), old(playerInbox.holdTimer),
                       playerInbox.queue, aiInbox.queue, playerInbox.holdTimer, colours)
        && (amount >= 4 ==> shakeDuration >= AttackShake)
        && (amount < 4 ==> shakeDuration == old(shakeDuration))
    {
      var board := ai.board;
      board.isResolving := true;
      board.comboCount := board.comboCount + 1;
      SendGarbage(playerInbox, aiInbox, clearedCount, board.comboCount, colours);
    }

    /**
     * The part of a board update both sides share, for a board not resolving
     * a clear: incoming garbage advances, then gravity runs; when nothing
     * fell, matches are marked, and a positive number of newly clearing
     * blocks starts a clear.
     */
    method SettleBoard(board: Board, inbox: Inbox, deltaTime: real, columns: seq<int>) returns (outcome: TickOutcome)
      requires board.Valid() && QueueOk(inbox.queue) && IsColumnPermutation(columns)
      modifies inbox, board`grid
      ensures board.Valid() && QueueOk(inbox.queue)
      ensures inbox.queue == QueueAfterGarbage(old(inbox.queue), old(inbox.holdTimer), old(inbox.dropTimer), deltaTime, columns)
      ensures inbox.holdTimer == HoldAfterGarbage(old(inbox.queue), old(inbox.holdTimer), deltaTime)
      ensures inbox.dropTimer == DropAfterGarbage(old(inbox.queue), old(inbox.holdTimer), old(inbox.dropTimer), deltaTime)
      ensures outcome == StillFalling || outcome == Settled || outcome.Resolving?
      ensures outcome == StillFalling <==>
        FallsAfterGarbage(old(inbox.queue), old(inbox.holdTimer), old(inbox.dropTimer), old(board.grid), deltaTime, columns, board.blockSize)
      ensures var fallen := GridAfterGravity(old(inbox.queue), old(inbox.holdTimer), old(inbox.dropTimer), old(board.grid), deltaTime, columns, board.blockSize);
        && (!outcome.Resolving? ==> board.grid == fallen)
        && (outcome.Resolving? ==> OnlyMarked(fallen, board.grid, Clearing))
      ensures outcome.Resolving? ==> outcome.cleared > 0 && outcome.cleared == StateCount(board.grid, Clearing)
      ensures outcome == Settled ==> StateCount(board.grid, Clearing) == 0
    {
      UpdatePendingGarbage(inbox, board, deltaTime, columns);
      var isAnythingFalling := board.UpdateGravityAndFallingBlocks(deltaTime);
      if isAnythingFalling {
        return StillFalling;
      }
      ghost var fallen := board.grid;
      var clearedCount := board.HandleMatches(false);
      if clearedCount > 0 {
        PassOnlyMarks(fallen, false);
        return Resolving(clearedCount);
      }
      ClearFreePassIsIdentity(fallen);
      return Settled;
    }

    /**
     * The deferred end of a clear: the cleared blocks leave the board and the
     * board stops resolving.
     */
    method FinishClearing(side: Side)
      requires Valid() && (side == AiSide ==> ai != null)
      modifies BoardOf(side)`grid, BoardOf(side)`isResolving
      ensures Valid()
      ensures BoardOf(side).grid == ClearGrid(old(BoardOf(side).grid)) && !BoardOf(side).isResolving
    {
      var board := BoardOf(side);
      ClearKeepsTargets(board.grid);
      board.ClearBlocks();
      board.isResolving := false;
    }

    /**
     * Sends the garbage a clear earns to the target's queue: a large attack
     * shakes the screen; the amount first cancels garbage queued for the
     * sender (its own incoming queue), block by block from the front; a
     * positive rest becomes one new chunk on the target's queue, held back
     * for two seconds.
     */
    method SendGarbage(targetInbox: Inbox, originInbox: Inbox, clearedCount: int, comboCount: int, colours: nat -> Kind)
      requires targetInbox != originInbox && QueueOk(targetInbox.queue) && QueueOk(originInbox.queue)
      modifies this`shakeDuration, targetInbox`queue, targetInbox`holdTimer, originInbox`queue
      ensures QueueOk(targetInbox.queue) && QueueOk(originInbox.queue)
      ensures var amount := GarbageAmount(clearedCount, comboCount);
        && GarbageSent(amount, old(targetInbox.queue), old(originInbox.queue), old(targetInbox.holdTimer),
                       targetInbox.queue, originInbox.queue, targetInbox.holdTimer, colours)
        && (amount >= 4 ==> shakeDuration >= AttackShake)
        && (amount < 4 ==> shakeDuration == old(shakeDuration))
    {
      var garbageAmount := GarbageAmount(clearedCount, comboCount);
      if garbageAmount >= 4 {
        TriggerShake(AttackShake);
      }
      if garbageAmount <= 0 {
        return;
      }
      CancelConsumesFront(originInbox.queue, garbageAmount);
      var rest, left := CancelQueue(originInbox.queue, garbageAmount);
      originInbox.queue := rest;
      if left > 0 {
        var newChunk := NewChunk(left, colours);
        targetInbox.queue := targetInbox.queue + [newChunk];
        targetInbox.holdTimer := GarbageHoldTime;
      }
    }

    /**
     * Incoming garbage for one board. While the queue is non-empty and the
     * hold timer positive, only the hold timer runs down. Otherwise the hold
     * timer is zero, and with garbage queued the drop timer runs up; once it
     * reaches the drop delay it restarts from zero and the head chunk, its
     * columns planned from the permutation if not yet, releases one block
     * onto the board.
     */
    method UpdatePendingGarbage(inbox: Inbox, targetBoard: Board, deltaTime: real, columns: seq<int>)
      requires targetBoard.Valid() && QueueOk(inbox.queue) && IsColumnPermutation(columns)
      modifies inbox, targetBoard`grid
      ensures targetBoard.Valid() && QueueOk(inbox.queue)
      ensures if |old(inbox.queue)| > 0 && old(inbox.holdTimer) > 0.0 then
          && inbox.holdTimer == old(inbox.holdTimer) - deltaTime
          && inbox.queue == old(inbox.queue) && inbox.dropTimer == old(inbox.dropTimer) && targetBoard.grid == old(targetBoard.grid)
        else if old(inbox.queue) == [] then
          && inbox.holdTimer == 0.0
          && inbox.queue == old(inbox.queue) && inbox.dropTimer == old(inbox.dropTimer) && targetBoard.grid == old(targetBoard.grid)
        else if old(inbox.dropTimer) + deltaTime < GarbageDropDelay then
          && inbox.holdTimer == 0.0 && inbox.dropTimer == old(inbox.dropTimer) + deltaTime
          && inbox.queue == old(inbox.queue) && targetBoard.grid == old(targetBoard.grid)
        else
          && inbox.holdTimer == 0.0 && inbox.dropTimer == 0.0
          && inbox.queue == Released(old(inbox.queue), columns)
          && var block := NextBlock(old(inbox.queue), columns);
             targetBoard.grid == DropInto(old(targetBoard.grid), block.dropColumn.value, block.kind, targetBoard.blockSize)
    {
      if |inbox.queue| > 0 && inbox.holdTimer > 0.0 {
        inbox.holdTimer := inbox.holdTimer - deltaTime;
        return;
      }
      inbox.holdTimer := 0.0;
      if |inbox.queue| == 0 {
        return;
      }
      inbox.dropTimer := inbox.dropTimer + deltaTime;
      if inbox.dropTimer >= GarbageDropDelay {
        inbox.dropTimer := 0.0;
        ReleaseTakesOne(inbox.queue, columns);
        var firstChunk := PlannedHead(inbox.queue[0], columns);
        var block := firstChunk[0];
        firstChunk := firstChunk[1..];
        DropIntoEffect(targetBoard.grid, block.dropColumn.value, block.kind, targetBoard.blockSize);
        DropSingleGarbageBlock(targetBoard, block.kind, block.dropColumn.value);
        if |firstChunk| == 0 {
          inbox.queue := inbox.queue[1..];
        } else {
          inbox.queue := [firstChunk] + inbox.queue[1..];
        }
      }
    }

    /**
     * Puts a garbage block of the given colour in the top-most empty cell of
     * the column, falling from just above the grid towards that cell; a full
     * column is left as it is.
     */
    method DropSingleGarbageBlock(targetBoard: Board, kind: Kind, columnX: int)
      requires 0 <= columnX < Width
      modifies targetBoard`grid
      ensures targetBoard.grid == DropInto(old(targetBoard.grid), columnX, kind, targetBoard.blockSize)
    {
      for y := 0 to Height
        invariant targetBoard.grid == old(targetBoard.grid)
        invariant forall j :: 0 <= j < y ==> targetBoard.grid[columnX][j].Block?
      {
        if targetBoard.grid[columnX][y].Empty? {
          targetBoard.grid := SetCell(targetBoard.grid, columnX, y, Block(kind, Falling, -targetBoard.blockSize, Some(y)));
          TopEmptyIsFirst(old(targetBoard.grid)[columnX], y);
          return;
        }
      }
      TopEmptyIsFirst(old(targetBoard.grid)[columnX], Height);
    }
  }

  /**
   * The cancellation loop on a queue: takes blocks off the head chunk,
   * dropping every chunk it empties, while an amount is left and the queue
   * is not empty.
   */
  method CancelQueue(queue: seq<Chunk>, amount: nat) returns (rest: seq<Chunk>, left: nat)
    ensures (rest, left) == Cancel(queue, amount)
  {
    rest, left := queue, amount;
    while left > 0 && |rest| > 0
      invariant Cancel(rest, left) == Cancel(queue, amount)
      decreases left, |rest|
    {
      var opponentChunk := rest[0];
      var cancelCount := if left < |opponentChunk| then left else |opponentChunk|;
      left := left - cancelCount;
      opponentChunk := opponentChunk[cancelCount..];
      if |opponentChunk| == 0 {
        rest := rest[1..];
      } else {
        rest := [opponentChunk] + rest[1..];
      }
    }
  }

  /** The first empty cell met from the top is the one TopEmpty names; a column without one has none. */
  lemma TopEmptyIsFirst(col: seq<Cell>, y: int)
    requires 0 <= y <= |col|
    requires forall j :: 0 <= j < y ==> col[j].Block?
    requires y < |col| ==> col[y].Empty?
    ensures TopEmpty(col) == (if y < |col| then Some(y) else None)
  {
    if TopEmpty(col).Some? {
      var t := TopEmpty(col).value;
      assert !(t < y) && !(y < t);
    }
  }

  /** Clearing keeps every landing row on the grid. */
  lemma ClearKeepsTargets(g: Grid)
    requires TargetsInRange(g)
    ensures TargetsInRange(ClearGrid(g))
  {
  }
}
