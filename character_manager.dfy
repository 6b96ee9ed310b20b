/**
  The character record and the character operations (character_manager.py):
  creation from the class table, experience and levelling, gold, healing,
  death and revival, and the record validator.

  The Python character is a dict passed by reference and updated in place;
  here it is a `Character` object with one field per key, and
  `CharacterData` is a snapshot of those fields as a value. The optional
  equipment keys of the dict (`equipped_weapon`, `equipped_weapon_val`,
  `equipped_armor`, `equipped_armor_val`) are fields too: an empty slot id
  stands for both an absent key and `None`, which the game tests with
  `if not weapon_id`.
 */
module CharacterManager {
  import opened Results
  import opened Text

  /** A stat bonus remembered for an equipment slot: the `(stat_name, value)` pair. */
  datatype Bonus = Bonus(stat: string, value: int)

  /** An equipment slot: the item id (empty for none) and the bonus it applied, if recorded. */
  datatype Equipment = Equipment(itemId: string, bonus: Option<Bonus>)

  const NoEquipment := Equipment("", None)

  /** The record's integer keys. */
  datatype Stats = Stats(
    level: int,
    health: int,
    maxHealth: int,
    strength: int,
    magic: int,
    experience: int,
    gold: int)

  datatype CharacterData = CharacterData(
    name: string,
    characterClass: string,
    stats: Stats,
    inventory: seq<string>,
    activeQuests: seq<string>,
    completedQuests: seq<string>,
    weapon: Equipment,
    armor: Equipment)

  class Character {
    var name: string
    var characterClass: string
    var level: int
    var health: int
    var maxHealth: int
    var strength: int
    var magic: int
    var experience: int
    var gold: int
    var inventory: seq<string>
    var activeQuests: seq<string>
    var completedQuests: seq<string>
    var equippedWeapon: string
    var weaponBonus: Option<Bonus>
    var equippedArmor: string
    var armorBonus: Option<Bonus>

    function StatsData(): Stats
      reads this
    {
      Stats(level, health, maxHealth, strength, magic, experience, gold)
    }

    /** The record's current contents. */
    function Data(): CharacterData
      reads this
    {
      CharacterData(name, characterClass, StatsData(), inventory, activeQuests, completedQuests,
                    Equipment(equippedWeapon, weaponBonus), Equipment(equippedArmor, armorBonus))
    }

    constructor (d: CharacterData)
      ensures Data() == d
    {
      name, characterClass := d.name, d.characterClass;
      level, health, maxHealth := d.stats.level, d.stats.health, d.stats.maxHealth;
      strength, magic, experience, gold := d.stats.strength, d.stats.magic, d.stats.experience, d.stats.gold;
      inventory, activeQuests, completedQuests := d.inventory, d.activeQuests, d.completedQuests;
      equippedWeapon, weaponBonus := d.weapon.itemId, d.weapon.bonus;
      equippedArmor, armorBonus := d.armor.itemId, d.armor.bonus;
    }
  }

  // ------------------------------------------------------------------ creation

  /** Starting health (also the maximum), strength and magic of a class. */
  datatype BaseStats = BaseStats(health: int, strength: int, magic: int)

  const CharacterClasses: set<string> := {"Warrior", "Mage", "Rogue", "Cleric"}

  /** The `class_stats` table. */
  function ClassStats(characterClass: string): (r: Option<BaseStats>)
    ensures r.Some? <==> characterClass in CharacterClasses
    ensures r.Some? ==> r.value.health > 0 && r.value.strength > 0 && r.value.magic > 0
  {
    if characterClass == "Warrior" then Some(BaseStats(120, 15, 5))
    else if characterClass == "Mage" then Some(BaseStats(80, 8, 20))
    else if characterClass == "Rogue" then Some(BaseStats(90, 12, 10))
    else if characterClass == "Cleric" then Some(BaseStats(100, 10, 15))
    else None
  }

  /**
    The class name as the table spells it. The source never defines the
    variable that should hold it; `capitalize()` is the normalisation that
    makes every spelling of a table entry ("warrior", "WARRIOR") valid.
   */
  function FormatClass(characterClass: string): string {
    Capitalize(characterClass)
  }

  /** `create_character` as intended: a fresh level-1 character of a known class. */
  function NewCharacter(name: string, characterClass: string): (r: Result<CharacterData>)
    ensures r.Failure? <==> FormatClass(characterClass) !in CharacterClasses
    ensures r.Failure? ==> r.error == InvalidCharacterClass(characterClass)
    ensures r.Success? ==>
      var d, base := r.value, ClassStats(FormatClass(characterClass)).value;
      && d.name == name && d.characterClass == FormatClass(characterClass)
      && d.stats == Stats(1, base.health, base.health, base.strength, base.magic, 0, 100)
      && d.inventory == [] && d.activeQuests == [] && d.completedQuests == []
      && d.weapon == NoEquipment && d.armor == NoEquipment
  {
    var formatted := FormatClass(characterClass);
    match ClassStats(formatted)
    case None => Failure(InvalidCharacterClass(characterClass))
    case Some(base) =>
      Success(CharacterData(name, formatted, Stats(1, base.health, base.health, base.strength, base.magic, 0, 100),
                            [], [], [], NoEquipment, NoEquipment))
  }

  /**
    `create_character` as written: the first statement reads the undefined
    name `formatted_class`, so every call raises `NameError`.
   */
  function CreateCharacterAsWritten(name: string, characterClass: string): (r: Result<CharacterData>)
    ensures r.Failure? && r.error.UndefinedName?
  {
    Failure(UndefinedName("formatted_class"))
  }

  /** The written code rejects even the table's own spelling, which the intended one accepts. */
  lemma CreateCharacterAsWrittenRejectsWarrior(name: string)
    ensures CreateCharacterAsWritten(name, "Warrior").Failure?
    ensures NewCharacter(name, "Warrior").Success?
    ensures NewCharacter(name, "Warrior").value.stats.maxHealth == 120
  {
    assert Capitalize("Warrior") == "Warrior";
  }

  /** Creation does not depend on the case of the class name. */
  lemma NewCharacterIgnoresCase(name: string)
    ensures NewCharacter(name, "mage") == NewCharacter(name, "MAGE") == NewCharacter(name, "Mage")
  {
    assert Capitalize("mage") == Capitalize("MAGE") == Capitalize("Mage") == "Mage";
  }

  // ---------------------------------------------------------------- validation

  /** The range checks of `validate_character_data`. */
  predicate Valid(s: Stats) {
    s.level >= 1 && s.maxHealth > 0 && 0 <= s.health <= s.maxHealth
  }

  /**
    `validate_character_data` on a typed record: the checks that can fail,
    in the source's order, each reporting the field it concerns. As written,
    the function's first statement is mis-indented (character_manager.py:231),
    so the module does not load; this models the evident intent.
   */
  function ValidateCharacter(d: CharacterData): (r: Result<bool>)
    ensures r.Success? <==> Valid(d.stats)
    ensures r.Success? ==> r.value
    ensures var s := d.stats;
      && (s.level < 1 ==> r == Failure(InvalidSaveData("level")))
      && (s.level >= 1 && s.maxHealth <= 0 ==> r == Failure(InvalidSaveData("max_health")))
      && (s.level >= 1 && s.maxHealth > 0 && !(0 <= s.health <= s.maxHealth) ==> r == Failure(InvalidSaveData("health")))
  {
    var s := d.stats;
    if s.level < 1 then Failure(InvalidSaveData("level"))
    else if s.maxHealth <= 0 then Failure(InvalidSaveData("max_health"))
    else if s.health < 0 || s.health > s.maxHealth then Failure(InvalidSaveData("health"))
    else Success(true)
  }

  /** Every character `create_character` makes passes validation. */
  lemma NewCharacterValid(name: string, characterClass: string)
    requires NewCharacter(name, characterClass).Success?
    ensures ValidateCharacter(NewCharacter(name, characterClass).value) == Success(true)
  {
  }

  // ---------------------------------------------------------------- experience

  /** `is_character_dead`. */
  predicate IsDead(d: CharacterData) {
    d.stats.health <= 0
  }

  /** One pass of the level-up loop body. */
  function LevelOnce(s: Stats): Stats {
    s.(experience := s.experience - s.level * 100,
       level := s.level + 1,
       maxHealth := s.maxHealth + 10,
       strength := s.strength + 2,
       magic := s.magic + 2,
       health := s.maxHealth + 10)
  }

  /**
    The level-up loop of `gain_experience` as a recursive function: level up
    while the experience reaches `level * 100`. While the level is below 1
    the threshold is not positive and each pass raises the level; from level
    1 on, each pass consumes at least 100 experience.
   */
  function LevelUp(s: Stats): Stats
    decreases if s.level >= 1 then 0 else 1 - s.level, s.experience
  {
    if s.experience >= s.level * 100 then LevelUp(LevelOnce(s)) else s
  }

  /** The experience needed to climb from level `from` to level `to`. */
  function XpForLevels(from: int, to: int): int
    decreases to - from
  {
    if from >= to then 0 else from * 100 + XpForLevels(from + 1, to)
  }

  /** After levelling, the experience left is below the next threshold. */
  lemma {:induction false} LevelUpSettled(s: Stats)
    ensures LevelUp(s).experience < LevelUp(s).level * 100
    decreases if s.level >= 1 then 0 else 1 - s.level, s.experience
  {
    if s.experience >= s.level * 100 {
      LevelUpSettled(LevelOnce(s));
    }
  }

  /**
    Each level gained adds 10 maximum health, 2 strength and 2 magic; a
    level-up refills health; gold does not change.
   */
  lemma {:induction false} LevelUpGains(s: Stats)
    ensures LevelUp(s).level >= s.level
    ensures var r, n := LevelUp(s), LevelUp(s).level - s.level;
      && r.maxHealth == s.maxHealth + 10 * n
      && r.strength == s.strength + 2 * n
      && r.magic == s.magic + 2 * n
      && r.health == (if n == 0 then s.health else r.maxHealth)
      && r.gold == s.gold
    decreases if s.level >= 1 then 0 else 1 - s.level, s.experience
  {
    if s.experience >= s.level * 100 {
      var t := LevelOnce(s);
      LevelUpGains(t);
      assert LevelUp(s) == LevelUp(t);
      assert t.health == t.maxHealth;
    }
  }

  /** No experience is lost: what was spent on levels plus what is left is what there was. */
  lemma {:induction false} LevelUpConserves(s: Stats)
    ensures s.experience == XpForLevels(s.level, LevelUp(s).level) + LevelUp(s).experience
    decreases if s.level >= 1 then 0 else 1 - s.level, s.experience
  {
    if s.experience >= s.level * 100 {
      var t := LevelOnce(s);
      LevelUpConserves(t);
      LevelUpGains(t);
      assert LevelUp(s) == LevelUp(t);
    }
  }

  /** Levelling keeps a valid record valid. */
  lemma {:induction false} LevelUpValid(s: Stats)
    requires Valid(s)
    ensures Valid(LevelUp(s))
    decreases if s.level >= 1 then 0 else 1 - s.level, s.experience
  {
    if s.experience >= s.level * 100 {
      LevelUpValid(LevelOnce(s));
    }
  }

  /**
    `gain_experience`: refuse a dead character, otherwise add the experience
    and level up; the result is the new level.
   */
  method GainExperience(c: Character, xp: int) returns (r: Result<int>)
    modifies c
    ensures IsDead(old(c.Data())) ==> r == Failure(CharacterDead) && c.Data() == old(c.Data())
    ensures !IsDead(old(c.Data())) ==>
      && c.Data() == old(c.Data()).(stats := LevelUp(old(c.Data()).stats.(experience := old(c.experience) + xp)))
      && r == Success(c.level)
  {
    if c.health <= 0 {
      return Failure(CharacterDead);
    }
    c.experience := c.experience + xp;
    // The loop works on copies of the six fields it changes and stores them once at the end.
    var start := c.StatsData();
    var level, experience, maxHealth, strength, magic, health :=
      c.level, c.experience, c.maxHealth, c.strength, c.magic, c.health;
    while experience >= level * 100
      invariant LevelUp(Stats(level, health, maxHealth, strength, magic, experience, start.gold)) == LevelUp(start)
      decreases if level >= 1 then 0 else 1 - level, experience
    {
      var needed := level * 100;
      experience := experience - needed;
      level := level + 1;
      maxHealth := maxHealth + 10;
      strength := strength + 2;
      magic := magic + 2;
      health := maxHealth;
    }
    SetStats(c, Stats(level, health, maxHealth, strength, magic, experience, start.gold));
    return Success(c.level);
  }

  /** Write back the integer keys. */
  method SetStats(c: Character, s: Stats)
    modifies c
    ensures c.Data() == old(c.Data()).(stats := s)
  {
    c.level, c.health, c.maxHealth, c.strength, c.magic, c.experience, c.gold :=
      s.level, s.health, s.maxHealth, s.strength, s.magic, s.experience, s.gold;
  }

  // ---------------------------------------------------------------------- gold

  /** `add_gold`: the new total, or `None` where it would be negative. */
  function GoldAfter(gold: int, amount: int): (r: Option<int>)
    ensures r.Some? ==> r.value >= 0 && r.value - gold == amount
    ensures r.None? ==> gold + amount < 0
  {
    if gold + amount < 0 then None else Some(gold + amount)
  }

  /** Taking back what was added restores the total. */
  lemma GoldAfterInverse(gold: int, amount: int)
    requires gold >= 0 && GoldAfter(gold, amount).Some?
    ensures GoldAfter(GoldAfter(gold, amount).value, -amount) == Some(gold)
  {
  }

  /** `add_gold`: a total that would go negative is refused and nothing changes. */
  method AddGold(c: Character, amount: int) returns (r: Result<int>)
    modifies c
    ensures GoldAfter(old(c.gold), amount).None? ==> r == Failure(NegativeGold) && c.Data() == old(c.Data())
    ensures GoldAfter(old(c.gold), amount).Some? ==>
      && r == Success(c.gold)
      && c.Data() == old(c.Data()).(stats := old(c.Data()).stats.(gold := GoldAfter(old(c.gold), amount).value))
  {
    var total := c.gold + amount;
    if total < 0 {
      return Failure(NegativeGold);
    }
    c.gold := total;
    return Success(c.gold);
  }

  // ------------------------------------------------------------------- healing

  /** The health after `heal_character(amount)`. */
  function HealedHealth(health: int, maxHealth: int, amount: int): int {
    if amount <= 0 then health
    else if health + amount > maxHealth then maxHealth
    else health + amount
  }

  /**
    Healing a record whose health is within bounds never lowers health, never
    passes the maximum, and adds at most `amount`.
   */
  lemma HealedHealthBounds(health: int, maxHealth: int, amount: int)
    requires health <= maxHealth
    ensures health <= HealedHealth(health, maxHealth, amount) <= maxHealth
    ensures HealedHealth(health, maxHealth, amount) - health <= (if amount > 0 then amount else 0)
    ensures amount > 0 && health + amount <= maxHealth ==> HealedHealth(health, maxHealth, amount) == health + amount
  {
  }

  /** `heal_character`: returns how much health was actually restored. */
  method HealCharacter(c: Character, amount: int) returns (healed: int)
    modifies c
    ensures c.Data() == old(c.Data()).(stats := old(c.Data()).stats.(health := HealedHealth(old(c.health), old(c.maxHealth), amount)))
    ensures amount <= 0 ==> healed == 0
    ensures healed == c.health - old(c.health)
  {
    if amount <= 0 {
      return 0;
    }
    var before := c.health;
    var newHealth := before + amount;
    if newHealth > c.maxHealth {
      newHealth := c.maxHealth;
    }
    c.health := newHealth;
    return c.health - before;
  }

  // ------------------------------------------------------------------- revival

  /** The health `revive_character` gives: half the maximum, rounded down, but at least 1. */
  function RevivedHealth(maxHealth: int): (h: int)
    ensures h >= 1
    ensures maxHealth >= 2 ==> h == maxHealth / 2
    ensures maxHealth < 2 ==> h == 1
  {
    // Python's // floors; Dafny's / agrees with it for a positive divisor.
    var half := maxHealth / 2;
    if half <= 0 then 1 else half
  }

  /** A dead valid character is revived alive and valid. */
  lemma RevivedValid(s: Stats)
    requires Valid(s) && s.health <= 0
    ensures Valid(s.(health := RevivedHealth(s.maxHealth)))
    ensures RevivedHealth(s.maxHealth) > 0
  {
  }

  /**
    `revive_character`: only a dead character is revived. As written, the
    function's first statement is mis-indented (character_manager.py:217), so
    the module does not load; this models the evident intent.
   */
  method ReviveCharacter(c: Character) returns (revived: bool)
    modifies c
    ensures revived == IsDead(old(c.Data()))
    ensures !revived ==> c.Data() == old(c.Data())
    ensures revived ==> c.Data() == old(c.Data()).(stats := old(c.Data()).stats.(health := RevivedHealth(old(c.maxHealth))))
  {
    if c.health > 0 {
      return false;
    }
    var half := c.maxHealth / 2;
    if half <= 0 {
      half := 1;
    }
    c.health := half;
    return true;
  }
}
