/**
  The battle engine (combat_system.py): the enemy table, the enemy picked
  for a level, the damage formula, the end-of-battle test, the battle loop
  of `SimpleBattle` and the victory rewards.

  The Python enemy is a dict whose `health` entry the battle overwrites;
  here it is an `Enemy` object, and `EnemyData` is a snapshot of it. The
  battle's character is the `Character` object of the character manager.
  The battle log lines only print and are not modelled.
 */
module CombatSystem {
  import opened Results
  import opened Text
  import opened CharacterManager

  // ------------------------------------------------------------------ enemies

  datatype EnemyData = EnemyData(
    name: string, health: int, maxHealth: int, strength: int, magic: int, xpReward: int, goldReward: int)

  /** An enemy dict, updated in place by the battle. */
  class Enemy {
    var name: string
    var health: int
    var maxHealth: int
    var strength: int
    var magic: int
    var xpReward: int
    var goldReward: int

    function Data(): EnemyData
      reads this
    {
      EnemyData(name, health, maxHealth, strength, magic, xpReward, goldReward)
    }

    constructor (e: EnemyData)
      ensures Data() == e
    {
      name, health, maxHealth, strength, magic := e.name, e.health, e.maxHealth, e.strength, e.magic;
      xpReward, goldReward := e.xpReward, e.goldReward;
    }
  }

  /** The enemy types `create_enemy` knows, in lower case. */
  const EnemyTypes: set<string> := {"goblin", "orc", "dragon", "skeleton"}

  /** `create_enemy`: the table entry for the type, whatever its case, or `InvalidTargetError`. */
  function CreateEnemy(enemyType: string): Result<EnemyData> {
    var et := Lower(enemyType);
    if et == "goblin" then Success(EnemyData("Goblin", 50, 50, 8, 2, 25, 10))
    else if et == "orc" then Success(EnemyData("Orc", 80, 80, 12, 5, 50, 25))
    else if et == "dragon" then Success(EnemyData("Dragon", 200, 200, 25, 15, 200, 100))
    else if et == "skeleton" then Success(EnemyData("Skeleton", 40, 40, 10, 0, 20, 5))
    else Failure(InvalidTarget(enemyType))
  }

  /**
    Exactly the four known types are accepted, in any case; each comes at
    full, positive health with positive strength and non-negative
    rewards, and every other name is rejected as an invalid target.
   */
  lemma CreateEnemySpec(enemyType: string)
    ensures CreateEnemy(enemyType).Success? <==> Lower(enemyType) in EnemyTypes
    ensures CreateEnemy(enemyType).Failure? ==> CreateEnemy(enemyType).error == InvalidTarget(enemyType)
    ensures CreateEnemy(enemyType).Success? ==>
      var e := CreateEnemy(enemyType).value;
      e.health == e.maxHealth > 0 && e.strength > 0 && e.magic >= 0 && e.xpReward > 0 && e.goldReward > 0
  {
  }

  /** The names differ only in case, so they make the same enemy. */
  lemma CreateEnemyIgnoresCase()
    ensures CreateEnemy("goblin") == CreateEnemy("GOBLIN") == CreateEnemy("Goblin")
    ensures CreateEnemy("goblin").Success? && CreateEnemy("goblin").value.name == "Goblin"
  {
    assert Lower("GOBLIN") == Lower("Goblin") == "goblin";
    assert Lower("goblin") == "goblin";
  }

  /** The table entries, spelled in lower case. */
  lemma EnemyTable()
    ensures CreateEnemy("goblin") == Success(EnemyData("Goblin", 50, 50, 8, 2, 25, 10))
    ensures CreateEnemy("orc") == Success(EnemyData("Orc", 80, 80, 12, 5, 50, 25))
    ensures CreateEnemy("dragon") == Success(EnemyData("Dragon", 200, 200, 25, 15, 200, 100))
  {
    assert Lower("goblin") == "goblin";
    assert Lower("orc") == "orc";
    assert Lower("dragon") == "dragon";
  }

  /** The enemy type `get_random_enemy_for_level` asks for: goblin up to level 2, orc for 3 to 5, dragon above. */
  function LevelEnemyType(characterLevel: int): (t: string)
    ensures t in EnemyTypes
  {
    if characterLevel <= 2 then "goblin" else if characterLevel <= 5 then "orc" else "dragon"
  }

  /** `get_random_enemy_for_level`: the enemy `create_enemy` makes for the level's type. */
  function EnemyForLevel(characterLevel: int): EnemyData {
    EnemyTable();
    CreateEnemy(LevelEnemyType(characterLevel)).value
  }

  /**
    The enemy for a level is one `create_enemy` makes, named after its
    level band, and a higher level never meets a weaker enemy or a smaller
    reward.
   */
  lemma EnemyForLevelSpec(a: int, b: int)
    requires a <= b
    ensures EnemyForLevel(a).name == (if a <= 2 then "Goblin" else if a <= 5 then "Orc" else "Dragon")
    ensures exists t :: t in EnemyTypes && CreateEnemy(t) == Success(EnemyForLevel(a))
    ensures EnemyForLevel(a).health <= EnemyForLevel(b).health
    ensures EnemyForLevel(a).strength <= EnemyForLevel(b).strength
    ensures EnemyForLevel(a).xpReward <= EnemyForLevel(b).xpReward
    ensures EnemyForLevel(a).goldReward <= EnemyForLevel(b).goldReward
  {
    EnemyTable();
    assert CreateEnemy(LevelEnemyType(a)) == Success(EnemyForLevel(a));
  }

  /** `get_victory_rewards`: the enemy's experience and gold rewards. */
  function VictoryRewards(e: EnemyData): (int, int) {
    (e.xpReward, e.goldReward)
  }

  /**
    Beating any enemy `create_enemy` makes earns positive experience and
    gold, and the enemy for a higher level never earns less.
   */
  lemma VictoryRewardsSpec(enemyType: string, a: int, b: int)
    requires a <= b
    ensures CreateEnemy(enemyType).Success? ==>
      VictoryRewards(CreateEnemy(enemyType).value).0 > 0 && VictoryRewards(CreateEnemy(enemyType).value).1 > 0
    ensures VictoryRewards(EnemyForLevel(a)).0 <= VictoryRewards(EnemyForLevel(b)).0
    ensures VictoryRewards(EnemyForLevel(a)).1 <= VictoryRewards(EnemyForLevel(b)).1
  {
    CreateEnemySpec(enemyType);
    EnemyForLevelSpec(a, b);
  }

  // ------------------------------------------------------------------- damage

  /**
    `calculate_damage`: the attacker's strength less a quarter (rounded
    down) of the defender's, but at least 1.
   */
  function CalculateDamage(attackerStrength: int, defenderStrength: int): (d: int)
    ensures d >= 1 && d >= attackerStrength - defenderStrength / 4
    ensures d == 1 || d == attackerStrength - defenderStrength / 4
  {
    var damage := attackerStrength - defenderStrength / 4;
    if damage < 1 then 1 else damage
  }

  /** A stronger attacker never deals less, a stronger defender never takes more. */
  lemma DamageMonotone(atk: int, atk': int, dfn: int, dfn': int)
    requires atk <= atk' && dfn' <= dfn
    ensures CalculateDamage(atk, dfn) <= CalculateDamage(atk', dfn')
  {
    assert dfn' / 4 <= dfn / 4;
  }

  /** `apply_damage`: the health left after a hit, never below 0. */
  function AfterDamage(health: int, damage: int): (h: int)
    ensures h >= 0 && h >= health - damage
    ensures h == 0 || h == health - damage
  {
    var left := health - damage;
    if left < 0 then 0 else left
  }

  /** A hit never heals, and a hit of at least 1 on a live target always hurts. */
  lemma AfterDamageDecreases(health: int, damage: int)
    requires damage >= 1 && health >= 0
    ensures AfterDamage(health, damage) <= health
    ensures health > 0 ==> AfterDamage(health, damage) < health
  {
  }

  // -------------------------------------------------------------- battle end

  /** Who has won: `"player"` or `"enemy"` in the source. */
  datatype Winner = PlayerWins | EnemyWins

  /** `check_battle_end`: the enemy's death is checked first. */
  function CheckBattleEnd(enemyHealth: int, characterHealth: int): Option<Winner> {
    if enemyHealth <= 0 then Some(PlayerWins)
    else if characterHealth <= 0 then Some(EnemyWins)
    else None
  }

  /**
    The player wins whenever the enemy is down, even when both are; the
    enemy wins only over a live enemy; the battle goes on only while both
    live.
   */
  lemma CheckBattleEndSpec(enemyHealth: int, characterHealth: int)
    ensures CheckBattleEnd(enemyHealth, characterHealth) == Some(PlayerWins) <==> enemyHealth <= 0
    ensures CheckBattleEnd(enemyHealth, characterHealth) == Some(EnemyWins) <==> enemyHealth > 0 && characterHealth <= 0
    ensures CheckBattleEnd(enemyHealth, characterHealth) == None <==> enemyHealth > 0 && characterHealth > 0
  {
  }

  // ------------------------------------------------------------------ battles

  /** What `start_battle` returns. `"FLED"` is a value of the source no battle produces. */
  datatype Outcome = Victory | Defeat | Fled

  /** How a battle ended: the winner, both healths at the end, and the rounds fought. */
  datatype BattleResult = BattleResult(winner: Winner, characterHealth: int, enemyHealth: int, rounds: int)

  /**
    The rounds of `start_battle` from the given healths: the player hits,
    the battle may end, the enemy hits back, the battle may end; and again.
   */
  function Fight(characterHealth: int, enemyHealth: int, characterStrength: int, enemyStrength: int): BattleResult
    decreases enemyHealth
  {
    var eh := AfterDamage(enemyHealth, CalculateDamage(characterStrength, enemyStrength));
    if CheckBattleEnd(eh, characterHealth).Some? then
      BattleResult(CheckBattleEnd(eh, characterHealth).value, characterHealth, eh, 1)
    else
      var ch := AfterDamage(characterHealth, CalculateDamage(enemyStrength, characterStrength));
      if CheckBattleEnd(eh, ch).Some? then
        BattleResult(CheckBattleEnd(eh, ch).value, ch, eh, 1)
      else
        var rest := Fight(ch, eh, characterStrength, enemyStrength);
        rest.(rounds := rest.rounds + 1)
  }

  /**
    A battle a living character enters ends after at least one round. The
    player wins exactly when the enemy ends at 0 health, and in the round
    that happens the enemy does not strike: the character has taken one
    hit fewer than the rounds, and the rounds are the fewest hits that
    bring the enemy down. Otherwise the character ends at 0, having taken
    one hit per round, and the enemy has taken one hit per round.
   */
  lemma {:induction false} FightSpec(characterHealth: int, enemyHealth: int, characterStrength: int, enemyStrength: int)
    requires characterHealth > 0
    ensures var r := Fight(characterHealth, enemyHealth, characterStrength, enemyStrength);
      var hit := CalculateDamage(characterStrength, enemyStrength);
      var struck := CalculateDamage(enemyStrength, characterStrength);
      && r.rounds >= 1
      && (r.winner == PlayerWins <==> r.enemyHealth == 0)
      && (r.winner == PlayerWins ==>
            && r.characterHealth == characterHealth - (r.rounds - 1) * struck > 0
            && enemyHealth - r.rounds * hit <= 0
            && (enemyHealth > 0 ==> enemyHealth - (r.rounds - 1) * hit > 0))
      && (r.winner == EnemyWins ==>
            && r.characterHealth == 0
            && r.enemyHealth == enemyHealth - r.rounds * hit > 0
            && characterHealth - r.rounds * struck <= 0
            && characterHealth - (r.rounds - 1) * struck > 0)
  {
    var hit := CalculateDamage(characterStrength, enemyStrength);
    var struck := CalculateDamage(enemyStrength, characterStrength);
    var eh := AfterDamage(enemyHealth, hit);
    if CheckBattleEnd(eh, characterHealth).None? {
      var ch := AfterDamage(characterHealth, struck);
      if CheckBattleEnd(eh, ch).None? {
        FightSpec(ch, eh, characterStrength, enemyStrength);
        var rest := Fight(ch, eh, characterStrength, enemyStrength);
        assert Fight(characterHealth, enemyHealth, characterStrength, enemyStrength) == rest.(rounds := rest.rounds + 1);
        RoundsShift(characterHealth, struck, rest.rounds);
        RoundsShift(enemyHealth, hit, rest.rounds);
      }
    }
  }

  /** One more round is one more hit: `h - (n + 1) * d == (h - d) - n * d`. */
  lemma RoundsShift(h: int, d: int, n: int)
    ensures h - (n + 1) * d == (h - d) - n * d
    ensures h - n * d == (h - d) - (n - 1) * d
  {
  }

  /** A level-1 warrior beats a goblin in 4 rounds, taking 3 hits of 5 and keeping 105 of 120 health. */
  lemma WarriorBeatsGoblin(name: string)
    ensures NewCharacter(name, "Warrior").Success? && CreateEnemy("goblin").Success?
    ensures var c, g := NewCharacter(name, "Warrior").value.stats, CreateEnemy("goblin").value;
      Fight(c.health, g.health, c.strength, g.strength) == BattleResult(PlayerWins, 105, 0, 4)
  {
    assert Capitalize("Warrior") == "Warrior";
    assert Lower("goblin") == "goblin";
    assert CalculateDamage(15, 8) == 13 && CalculateDamage(8, 15) == 5;
    assert Fight(105, 11, 15, 8) == BattleResult(PlayerWins, 105, 0, 1);
    assert Fight(110, 24, 15, 8) == BattleResult(PlayerWins, 105, 0, 2);
    assert Fight(115, 37, 15, 8) == BattleResult(PlayerWins, 105, 0, 3);
  }

  /** The outcome `start_battle` reports for a winner: never `"FLED"`. */
  function OutcomeOf(w: Winner): (o: Outcome)
    ensures o != Fled
    ensures o == Victory <==> w == PlayerWins
  {
    match w
    case PlayerWins => Victory
    case EnemyWins => Defeat
  }

  /** A battle between a character and an enemy (`SimpleBattle`). */
  class SimpleBattle {
    const character: Character
    const enemy: Enemy
    var combatActive: bool
    var turns: int

    constructor (character: Character, enemy: Enemy)
      ensures this.character == character && this.enemy == enemy
      ensures combatActive && turns == 0
    {
      this.character := character;
      this.enemy := enemy;
      combatActive := true;
      turns := 0;
    }

    /**
      `player_turn`: the character strikes the enemy, whose health drops
      by the damage; nothing changes when combat is not active.
     */
    method PlayerTurn() returns (r: Result<int>)
      modifies enemy
      ensures !combatActive ==> r == Failure(CombatNotActive) && enemy.Data() == old(enemy.Data())
      ensures combatActive ==>
        && r == Success(CalculateDamage(character.strength, enemy.strength))
        && enemy.Data() == old(enemy.Data()).(health := AfterDamage(old(enemy.health), r.value))
    {
      if !combatActive {
        return Failure(CombatNotActive);
      }
      var damage := CalculateDamage(character.strength, enemy.strength);
      enemy.health := AfterDamage(enemy.health, damage);
      return Success(damage);
    }

    /**
      `enemy_turn`: the enemy strikes the character, whose health drops by
      the damage; nothing changes when combat is not active.
     */
    method EnemyTurn() returns (r: Result<int>)
      modifies character
      ensures !combatActive ==> r == Failure(CombatNotActive) && character.Data() == old(character.Data())
      ensures combatActive ==>
        && r == Success(CalculateDamage(enemy.strength, character.strength))
        && character.Data() == old(character.Data()).(stats := old(character.StatsData()).(health := AfterDamage(old(character.health), r.value)))
    {
      if !combatActive {
        return Failure(CombatNotActive);
      }
      var damage := CalculateDamage(enemy.strength, character.strength);
      character.health := AfterDamage(character.health, damage);
      return Success(damage);
    }

    /**
      `start_battle`: a dead character cannot fight and nothing changes. A
      battle already over counts a turn and stops at the player's turn.
      Otherwise the rounds run as `Fight` says until one side is down; the
      battle is then over, the turns count its rounds, the two healths are
      the ones `Fight` ends with, and the outcome names the winner.
     */
    method StartBattle() returns (r: Result<Outcome>)
      modifies this, character, enemy
      ensures old(character.health) <= 0 ==>
        && r == Failure(CharacterDead)
        && character.Data() == old(character.Data()) && enemy.Data() == old(enemy.Data())
        && combatActive == old(combatActive) && turns == old(turns)
      ensures old(character.health) > 0 && !old(combatActive) ==>
        && r == Failure(CombatNotActive)
        && character.Data() == old(character.Data()) && enemy.Data() == old(enemy.Data())
        && !combatActive && turns == old(turns) + 1
      ensures old(character.health) > 0 && old(combatActive) ==>
        var f := Fight(old(character.health), old(enemy.health), old(character.strength), old(enemy.strength));
        && r == Success(OutcomeOf(f.winner))
        && character.Data() == old(character.Data()).(stats := old(character.StatsData()).(health := f.characterHealth))
        && enemy.Data() == old(enemy.Data()).(health := f.enemyHealth)
        && !combatActive && turns == old(turns) + f.rounds
    {
      if character.health <= 0 {
        return Failure(CharacterDead);
      }
      ghost var goal := Fight(character.health, enemy.health, character.strength, enemy.strength);
      ghost var startTurns := turns;
      var result: Winner;
      while true
        invariant combatActive == old(combatActive) && turns >= startTurns
        invariant character.Data() == old(character.Data()).(stats := old(character.StatsData()).(health := character.health))
        invariant enemy.Data() == old(enemy.Data()).(health := enemy.health)
        invariant turns > startTurns ==> enemy.health > 0 && character.health > 0
        invariant combatActive ==>
          var rest := Fight(character.health, enemy.health, character.strength, enemy.strength);
          goal == rest.(rounds := rest.rounds + (turns - startTurns))
        invariant !combatActive ==> turns == startTurns
        invariant turns == startTurns ==> character.health == old(character.health) && enemy.health == old(enemy.health)
        decreases enemy.health
      {
        turns := turns + 1;
        var attack := PlayerTurn();
        if attack.Failure? {
          return Failure(attack.error);
        }
        var afterAttack := CheckBattleEnd(enemy.health, character.health);
        if afterAttack.Some? {
          result := afterAttack.value;
          break;
        }
        var strike := EnemyTurn();
        var afterStrike := CheckBattleEnd(enemy.health, character.health);
        if afterStrike.Some? {
          result := afterStrike.value;
          break;
        }
      }
      combatActive := false;
      return Success(OutcomeOf(result));
    }
  }

  /**
    A battle ends in victory exactly when the enemy is left at 0 health,
    and otherwise in defeat with the character at 0.
   */
  lemma BattleOutcomeSpec(characterHealth: int, enemyHealth: int, characterStrength: int, enemyStrength: int)
    requires characterHealth > 0
    ensures var f := Fight(characterHealth, enemyHealth, characterStrength, enemyStrength);
      && (OutcomeOf(f.winner) == Victory <==> f.enemyHealth == 0)
      && (OutcomeOf(f.winner) == Defeat <==> f.characterHealth == 0 && f.enemyHealth > 0)
  {
    FightSpec(characterHealth, enemyHealth, characterStrength, enemyStrength);
  }
}
