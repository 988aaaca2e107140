/**
 * The pooled garbage exchange: each side accumulates an attack as a number,
 * a send cancels it against the opponent's pooled attack, and what is left
 * becomes one chunk on the opponent's queue, held back for two seconds.
 */
module GarbagePool {
  import opened Blocks
  import opened GarbageRules

  /** Both pools after a send: the sender's attack and the opponent's cancel each other by their minimum. */
  function Cancellation(attack: int, opponent: int): (r: (int, int))
  {
    var cancelAmount := if attack < opponent then attack else opponent;
    (attack - cancelAmount, opponent - cancelAmount)
  }

  /**
   * Cancellation between non-negative pools leaves at most one of them
   * non-zero, both non-negative, and the difference between them unchanged.
   */
  lemma CancellationSettles(attack: int, opponent: int)
    requires attack >= 0 && opponent >= 0
    ensures var (sent, left) := Cancellation(attack, opponent);
      && sent >= 0 && left >= 0
      && (sent == 0 || left == 0)
      && sent - left == attack - opponent
      && sent + left == (if attack >= opponent then attack - opponent else opponent - attack)
  {
  }

  class GarbageManager {
    var playerPendingAttack: int
    var aiPendingAttack: int
    var playerPendingGarbage: seq<Chunk>
    var aiPendingGarbage: seq<Chunk>
    var playerGarbageHoldTimer: real
    var aiGarbageHoldTimer: real
    var playerGarbageDropTimer: real
    var aiGarbageDropTimer: real

    ghost predicate Valid()
      reads this
    {
      && playerPendingAttack >= 0 && aiPendingAttack >= 0
      && QueueOk(playerPendingGarbage) && QueueOk(aiPendingGarbage)
    }

    ghost predicate Cleared()
      reads this
    {
      && playerPendingAttack == 0 && aiPendingAttack == 0
      && playerPendingGarbage == [] && aiPendingGarbage == []
      && playerGarbageHoldTimer == 0.0 && aiGarbageHoldTimer == 0.0
      && playerGarbageDropTimer == 0.0 && aiGarbageDropTimer == 0.0
    }

    constructor ()
      ensures Valid() && Cleared()
    {
      playerPendingAttack := 0;
      aiPendingAttack := 0;
      playerPendingGarbage := [];
      aiPendingGarbage := [];
      playerGarbageHoldTimer := 0.0;
      aiGarbageHoldTimer := 0.0;
      playerGarbageDropTimer := 0.0;
      aiGarbageDropTimer := 0.0;
    }

    /** Zeroes both pools and every timer and empties both queues. */
    method Reset()
      modifies this
      ensures Valid() && Cleared()
    {
      playerPendingAttack := 0;
      aiPendingAttack := 0;
      playerPendingGarbage := [];
      aiPendingGarbage := [];
      playerGarbageHoldTimer := 0.0;
      aiGarbageHoldTimer := 0.0;
      playerGarbageDropTimer := 0.0;
      aiGarbageDropTimer := 0.0;
    }

    /**
     * Adds the amount a clear earns to the sender's pool only, and nothing
     * when it earns none. Reports whether the attack is big enough (four or
     * more blocks) to shake the screen.
     */
    method AccumulateGarbage(senderIsPlayer: bool, clearedCount: int, comboCount: int) returns (shake: bool)
      requires Valid()
      modifies this`playerPendingAttack, this`aiPendingAttack
      ensures Valid()
      ensures shake <==> GarbageAmount(clearedCount, comboCount) >= 4
      ensures playerPendingAttack == old(playerPendingAttack) + (if senderIsPlayer then GarbageAmount(clearedCount, comboCount) else 0)
      ensures aiPendingAttack == old(aiPendingAttack) + (if senderIsPlayer then 0 else GarbageAmount(clearedCount, comboCount))
    {
      var garbageAmount := GarbageAmount(clearedCount, comboCount);
      shake := garbageAmount >= 4;
      if garbageAmount <= 0 {
        return;
      }
      if senderIsPlayer {
        playerPendingAttack := playerPendingAttack + garbageAmount;
      } else {
        aiPendingAttack := aiPendingAttack + garbageAmount;
      }
    }

    /**
     * Spends the sender's pool: it cancels against the opponent's pool by
     * their minimum, the sender's pool becomes zero, and a positive rest
     * becomes one new chunk on the opponent's queue, whose hold timer is set
     * to two seconds. An empty pool sends nothing.
     */
    method SendAccumulatedGarbage(senderIsPlayer: bool, colours: nat -> Kind)
      requires Valid()
      modifies this
      ensures Valid()
      ensures playerGarbageDropTimer == old(playerGarbageDropTimer) && aiGarbageDropTimer == old(aiGarbageDropTimer)
      ensures var attack := if senderIsPlayer then old(playerPendingAttack) else old(aiPendingAttack);
        var opponent := if senderIsPlayer then old(aiPendingAttack) else old(playerPendingAttack);
        var (sent, left) := Cancellation(attack, opponent);
        if attack <= 0 then
          && playerPendingAttack == old(playerPendingAttack) && aiPendingAttack == old(aiPendingAttack)
          && playerPendingGarbage == old(playerPendingGarbage) && aiPendingGarbage == old(aiPendingGarbage)
          && playerGarbageHoldTimer == old(playerGarbageHoldTimer) && aiGarbageHoldTimer == old(aiGarbageHoldTimer)
        else
          && (if senderIsPlayer then playerPendingAttack == 0 && aiPendingAttack == left
              else aiPendingAttack == 0 && playerPendingAttack == left)
          && (if sent > 0 && senderIsPlayer then
                aiPendingGarbage == old(aiPendingGarbage) + [NewChunk(sent, colours)] && aiGarbageHoldTimer == GarbageHoldTime
              else aiPendingGarbage == old(aiPendingGarbage) && aiGarbageHoldTimer == old(aiGarbageHoldTimer))
          && (if sent > 0 && !senderIsPlayer then
                playerPendingGarbage == old(playerPendingGarbage) + [NewChunk(sent, colours)] && playerGarbageHoldTimer == GarbageHoldTime
              else playerPendingGarbage == old(playerPendingGarbage) && playerGarbageHoldTimer == old(playerGarbageHoldTimer))
    {
      var attackAmount := if senderIsPlayer then playerPendingAttack else aiPendingAttack;
      if attackAmount <= 0 {
        return;
      }
      var opponentAttack := if senderIsPlayer then aiPendingAttack else playerPendingAttack;
      var cancelAmount := if attackAmount < opponentAttack then attackAmount else opponentAttack;
      attackAmount := attackAmount - cancelAmount;
      opponentAttack := opponentAttack - cancelAmount;
      if senderIsPlayer {
        playerPendingAttack := 0;
        aiPendingAttack := opponentAttack;
      } else {
        aiPendingAttack := 0;
        playerPendingAttack := opponentAttack;
      }
      if attackAmount > 0 {
        var newChunk := NewChunk(attackAmount, colours);
        if senderIsPlayer {
          aiPendingGarbage := aiPendingGarbage + [newChunk];
          aiGarbageHoldTimer := GarbageHoldTime;
        } else {
          playerPendingGarbage := playerPendingGarbage + [newChunk];
          playerGarbageHoldTimer := GarbageHoldTime;
        }
      }
    }

    /**
     * While the side's queue is non-empty and its hold timer positive, only
     * counts the timer down; otherwise sets the timer to zero.
     */
    method UpdatePendingGarbage(isPlayer: bool, deltaTime: real)
      requires Valid()
      modifies this`playerGarbageHoldTimer, this`aiGarbageHoldTimer
      ensures Valid()
      ensures var queue := if isPlayer then playerPendingGarbage else aiPendingGarbage;
        var hold := if isPlayer then old(playerGarbageHoldTimer) else old(aiGarbageHoldTimer);
        var hold' := if |queue| > 0 && hold > 0.0 then hold - deltaTime else 0.0;
        if isPlayer then playerGarbageHoldTimer == hold' && aiGarbageHoldTimer == old(aiGarbageHoldTimer)
        else aiGarbageHoldTimer == hold' && playerGarbageHoldTimer == old(playerGarbageHoldTimer)
    {
      var queue := if isPlayer then playerPendingGarbage else aiPendingGarbage;
      var hold := if isPlayer then playerGarbageHoldTimer else aiGarbageHoldTimer;
      if |queue| > 0 && hold > 0.0 {
        if isPlayer {
          playerGarbageHoldTimer := playerGarbageHoldTimer - deltaTime;
        } else {
          aiGarbageHoldTimer := aiGarbageHoldTimer - deltaTime;
        }
        return;
      }
      if isPlayer {
        playerGarbageHoldTimer := 0.0;
      } else {
        aiGarbageHoldTimer := 0.0;
      }
    }

    /** The queue of garbage waiting to fall on the named side; none of its chunks is empty. */
    function GetPendingGarbage(isPlayer: bool): (q: seq<Chunk>)
      requires Valid()
      reads this
      ensures forall i :: 0 <= i < |q| ==> |q[i]| > 0
    {
      if isPlayer then playerPendingGarbage else aiPendingGarbage
    }

    /** The hold timer of the named side. */
    function GetGarbageHoldTimer(isPlayer: bool): (t: real)
      reads this
      ensures isPlayer ==> t == playerGarbageHoldTimer
      ensures !isPlayer ==> t == aiGarbageHoldTimer
    {
      if isPlayer then playerGarbageHoldTimer else aiGarbageHoldTimer
    }
  }

}
