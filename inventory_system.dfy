/**
  The inventory, item use, equipment and shop rules (inventory_system.py).

  The inventory is the character's list of item ids, bounded by
  `MaxInventorySize` on every path that adds to it. Items are the records of
  the item catalog; their `effect` is a `"stat:value"` string that is parsed
  and applied to the character's integer stats.
 */
module InventorySystem {
  import opened Results
  import opened Text
  import opened Seqs
  import opened CharacterManager
  import opened GameData

  const MaxInventorySize := 20

  // ------------------------------------------------------------- management

  /** `has_item`. */
  predicate HasItem(d: CharacterData, itemId: string) {
    itemId in d.inventory
  }

  /** `count_item`. */
  function CountItem(d: CharacterData, itemId: string): nat {
    Count(d.inventory, itemId)
  }

  /** `get_inventory_space_remaining`. */
  function SpaceRemaining(d: CharacterData): int {
    MaxInventorySize - |d.inventory|
  }

  /** An item is present exactly when it is counted, and a bounded inventory never has negative space. */
  lemma InventoryQueries(d: CharacterData, itemId: string)
    ensures HasItem(d, itemId) <==> CountItem(d, itemId) > 0
    ensures |d.inventory| <= MaxInventorySize <==> SpaceRemaining(d) >= 0
    ensures CountItem(d, itemId) <= |d.inventory|
  {
    assert CountItem(d, itemId) <= |multiset(d.inventory)|;
  }

  /** `add_item_to_inventory`: append, unless the inventory is full. */
  method AddItem(c: Character, itemId: string) returns (r: Result<bool>)
    modifies c
    ensures |old(c.inventory)| >= MaxInventorySize ==> r == Failure(InventoryFull) && c.Data() == old(c.Data())
    ensures |old(c.inventory)| < MaxInventorySize ==>
      r == Success(true) && c.Data() == old(c.Data()).(inventory := old(c.inventory) + [itemId])
    ensures |old(c.inventory)| <= MaxInventorySize ==> |c.inventory| <= MaxInventorySize
  {
    if |c.inventory| >= MaxInventorySize {
      return Failure(InventoryFull);
    }
    c.inventory := c.inventory + [itemId];
    return Success(true);
  }

  /** `remove_item_from_inventory`: drop the first copy of the item. */
  method RemoveItem(c: Character, itemId: string) returns (r: Result<bool>)
    modifies c
    ensures itemId !in old(c.inventory) ==> r == Failure(ItemNotFound(itemId)) && c.Data() == old(c.Data())
    ensures itemId in old(c.inventory) ==>
      r == Success(true) && c.Data() == old(c.Data()).(inventory := RemoveFirst(old(c.inventory), itemId))
  {
    if itemId !in c.inventory {
      return Failure(ItemNotFound(itemId));
    }
    c.inventory := RemoveFirst(c.inventory, itemId);
    return Success(true);
  }

  /**
    Removing an item takes away exactly one copy of it: its count drops by
    one, every other count stays, and the remaining items keep their order.
   */
  lemma RemoveItemCounts(inventory: seq<string>, itemId: string, other: string)
    requires itemId in inventory
    ensures Count(RemoveFirst(inventory, itemId), itemId) == Count(inventory, itemId) - 1
    ensures other != itemId ==> Count(RemoveFirst(inventory, itemId), other) == Count(inventory, other)
    ensures RemoveFirst(inventory, itemId) == inventory[..IndexOf(inventory, itemId)] + inventory[IndexOf(inventory, itemId) + 1..]
  {
    RemoveFirstMultiset(inventory, itemId);
    RemoveFirstAt(inventory, itemId);
  }

  /** Adding then removing an item gives back the same collection of items. */
  lemma AddThenRemove(inventory: seq<string>, itemId: string)
    ensures multiset(RemoveFirst(inventory + [itemId], itemId)) == multiset(inventory)
  {
    RemoveFirstMultiset(inventory + [itemId], itemId);
  }

  /** `clear_inventory`: empty the list and hand back what it held. */
  method ClearInventory(c: Character) returns (removed: seq<string>)
    modifies c
    ensures removed == old(c.inventory)
    ensures c.Data() == old(c.Data()).(inventory := [])
  {
    removed := c.inventory;
    c.inventory := [];
  }

  // ---------------------------------------------------------------- effects

  /** The value part of an effect: `int(text.strip())`, and 0 where `int` raises `ValueError`. */
  function EffectValue(text: string): int {
    match ParseInt(Strip(text))
    case Some(n) => n
    case None => 0
  }

  /**
    `parse_item_effect`: the stripped text before the first colon and the
    integer between the first and second colon; `("none", 0)` without a
    colon.
   */
  function ParseItemEffect(effect: string): Bonus {
    if effect == [] || ':' !in effect then Bonus("none", 0)
    else
      var parts := Split(effect, ":");
      assert |parts| >= 2 by { SplitWithSep(effect, ':'); }
      Bonus(Strip(parts[0]), EffectValue(parts[1]))
  }

  /** The effect string an item file writes for a bonus. */
  function EffectText(b: Bonus): string {
    b.stat + ":" + IntToString(b.value)
  }

  /** A written effect splits at its one colon into the stat and the value text. */
  lemma SplitEffectText(b: Bonus)
    requires ':' !in b.stat
    ensures ':' in EffectText(b)
    ensures Split(EffectText(b), ":") == [b.stat, IntToString(b.value)]
  {
    var text := IntToString(b.value);
    assert EffectText(b) == b.stat + [':'] + text;
    assert EffectText(b)[|b.stat|] == ':';
    SplitAfterPiece(b.stat, ':', text);
    SplitWithoutSep(text, ':');
  }

  /** A written value reads back as itself. */
  lemma EffectValueOfString(n: int)
    ensures EffectValue(IntToString(n)) == n
  {
    StripOfStripped(IntToString(n));
    ParseIntOfString(n);
  }

  /** A value that is not an integer reads as 0 rather than failing. */
  lemma EffectValueNotDecimal(text: string)
    requires !IsDecimal(Strip(text))
    ensures EffectValue(text) == 0
  {
    ParseIntAccepts(Strip(text));
  }

  /** An effect that splits into two pieces reads as the stripped first piece and the second's value. */
  lemma ParseTwoPieces(effect: string, stat: string, text: string)
    requires ':' in effect && Split(effect, ":") == [stat, text]
    ensures ParseItemEffect(effect) == Bonus(Strip(stat), EffectValue(text))
  {
  }

  /** A written effect parses back to the bonus it was written from. */
  lemma ParseEffectText(b: Bonus)
    requires ':' !in b.stat && IsStripped(b.stat)
    ensures ParseItemEffect(EffectText(b)) == b
  {
    SplitEffectText(b);
    ParseTwoPieces(EffectText(b), b.stat, IntToString(b.value));
    StripOfStripped(b.stat);
    EffectValueOfString(b.value);
  }

  /** The integer keys of the record, the ones an effect can change. */
  const IntegerStats: set<string> := {"level", "health", "max_health", "strength", "magic", "experience", "gold"}

  /** The value under an integer key, `None` for any other name. */
  function StatValue(s: Stats, stat: string): (v: Option<int>)
    ensures v.Some? <==> stat in IntegerStats
  {
    if stat == "level" then Some(s.level)
    else if stat == "health" then Some(s.health)
    else if stat == "max_health" then Some(s.maxHealth)
    else if stat == "strength" then Some(s.strength)
    else if stat == "magic" then Some(s.magic)
    else if stat == "experience" then Some(s.experience)
    else if stat == "gold" then Some(s.gold)
    else None
  }

  /** `character[stat_name] += value` on an integer key; any other name changes nothing. */
  function AddToStat(s: Stats, stat: string, value: int): Stats {
    if stat == "level" then s.(level := s.level + value)
    else if stat == "health" then s.(health := s.health + value)
    else if stat == "max_health" then s.(maxHealth := s.maxHealth + value)
    else if stat == "strength" then s.(strength := s.strength + value)
    else if stat == "magic" then s.(magic := s.magic + value)
    else if stat == "experience" then s.(experience := s.experience + value)
    else if stat == "gold" then s.(gold := s.gold + value)
    else s
  }

  /** The update adds `value` under its own key and leaves every other key as it was. */
  lemma AddToStatSpec(s: Stats, stat: string, value: int, key: string)
    ensures StatValue(AddToStat(s, stat, value), key) ==
      if key == stat && stat in IntegerStats then Some(StatValue(s, key).value + value) else StatValue(s, key)
  {
  }

  /**
    `apply_stat_effect` on the integer keys: health goes through
    `heal_character`, a change of maximum health re-caps health, the other
    integer keys are adjusted by `value`, and anything else is left alone.
   */
  function ApplyToStats(s: Stats, stat: string, value: int): Stats {
    if stat == "health" then s.(health := HealedHealth(s.health, s.maxHealth, value))
    else if stat == "max_health" then
      var m := s.maxHealth + value;
      s.(maxHealth := m, health := if s.health > m then m else s.health)
    else AddToStat(s, stat, value)
  }

  /** `apply_stat_effect` on the whole record: only the integer keys change. */
  function ApplyEffect(d: CharacterData, stat: string, value: int): CharacterData {
    d.(stats := ApplyToStats(d.stats, stat, value))
  }

  /**
    An unknown stat changes nothing, a known one other than the two health
    keys changes only its own key, and health never ends above its maximum
    when it started within it.
   */
  lemma ApplyToStatsScope(s: Stats, stat: string, value: int)
    ensures stat !in IntegerStats ==> ApplyToStats(s, stat, value) == s
    ensures stat in IntegerStats - {"health", "max_health"} ==>
      forall key :: StatValue(ApplyToStats(s, stat, value), key) ==
        if key == stat then Some(StatValue(s, key).value + value) else StatValue(s, key)
    ensures s.health <= s.maxHealth ==> ApplyToStats(s, stat, value).health <= ApplyToStats(s, stat, value).maxHealth
  {
    if stat in IntegerStats - {"health", "max_health"} {
      forall key
        ensures StatValue(ApplyToStats(s, stat, value), key) ==
          if key == stat then Some(StatValue(s, key).value + value) else StatValue(s, key)
      {
        AddToStatSpec(s, stat, value, key);
      }
    }
  }

  /** A health effect keeps a valid record valid and never lowers health. */
  lemma HealthEffectKeepsValid(s: Stats, value: int)
    requires Valid(s)
    ensures Valid(ApplyToStats(s, "health", value))
    ensures s.health <= ApplyToStats(s, "health", value).health
  {
    HealedHealthBounds(s.health, s.maxHealth, value);
  }

  /**
    Applying the opposite value takes an effect back, except for healing
    (a negative heal does nothing) and a lowered maximum that cut health.
   */
  lemma ApplyEffectUndo(s: Stats, stat: string, value: int)
    requires stat != "health"
    requires stat == "max_health" ==> value >= 0 && s.health <= s.maxHealth
    ensures ApplyToStats(ApplyToStats(s, stat, value), stat, -value) == s
  {
  }

  /**
    Taking back a healing effect does not undo it. This is the source's own
    behaviour (inventory_system.py:266-268): a `health` effect always goes
    through `heal_character`, which ignores a non-positive amount, so
    unequipping an item with a `health:N` bonus keeps the health it gave.
   */
  lemma HealthEffectNotUndone()
    ensures var s := Stats(1, 50, 100, 10, 15, 0, 100);
      ApplyToStats(ApplyToStats(s, "health", 20), "health", -20).health == 70
  {
  }

  /** `apply_stat_effect`. */
  method ApplyStatEffect(c: Character, stat: string, value: int)
    modifies c
    ensures c.Data() == ApplyEffect(old(c.Data()), stat, value)
  {
    if stat == "health" {
      var _ := HealCharacter(c, value);
    } else if stat == "max_health" {
      c.maxHealth := c.maxHealth + value;
      if c.health > c.maxHealth {
        c.health := c.maxHealth;
      }
    } else if stat in IntegerStats {
      SetStats(c, AddToStat(c.StatsData(), stat, value));
    }
  }

  /** `use_item`: a consumable in the inventory is applied and used up. */
  method UseItem(c: Character, itemId: string, item: Item) returns (r: Result<string>)
    modifies c
    ensures itemId !in old(c.inventory) ==> r == Failure(ItemNotFound(itemId)) && c.Data() == old(c.Data())
    ensures itemId in old(c.inventory) && item.itemType != "consumable" ==>
      r == Failure(InvalidItemType(itemId)) && c.Data() == old(c.Data())
    ensures itemId in old(c.inventory) && item.itemType == "consumable" ==>
      var b := ParseItemEffect(item.effect);
      && r == Success("Used " + item.name + ". " + b.stat + " increased by " + IntToString(b.value) + ".")
      && c.Data() == ApplyEffect(old(c.Data()), b.stat, b.value).(inventory := RemoveFirst(old(c.inventory), itemId))
  {
    if itemId !in c.inventory {
      return Failure(ItemNotFound(itemId));
    }
    if item.itemType != "consumable" {
      return Failure(InvalidItemType(itemId));
    }
    var b := ParseItemEffect(item.effect);
    ApplyStatEffect(c, b.stat, b.value);
    var _ := RemoveItem(c, itemId);
    return Success("Used " + item.name + ". " + b.stat + " increased by " + IntToString(b.value) + ".");
  }

  // -------------------------------------------------------------- equipment

  /** The two equipment slots, `equipped_weapon` and `equipped_armor`. */
  datatype Slot = WeaponSlot | ArmorSlot

  /** The item type a slot takes. */
  function SlotType(slot: Slot): string {
    match slot
    case WeaponSlot => "weapon"
    case ArmorSlot => "armor"
  }

  function OtherSlot(slot: Slot): Slot {
    match slot
    case WeaponSlot => ArmorSlot
    case ArmorSlot => WeaponSlot
  }

  function SlotOf(d: CharacterData, slot: Slot): Equipment {
    match slot
    case WeaponSlot => d.weapon
    case ArmorSlot => d.armor
  }

  function WithSlot(d: CharacterData, slot: Slot, e: Equipment): CharacterData {
    match slot
    case WeaponSlot => d.(weapon := e)
    case ArmorSlot => d.(armor := e)
  }

  /**
    `unequip_weapon` / `unequip_armor` on a record: an empty slot is left as
    it is; otherwise the bonus is taken back and the item returns to the
    inventory, if there is room for it.
   */
  function Unequipped(d: CharacterData, slot: Slot): Result<CharacterData> {
    var e := SlotOf(d, slot);
    if e.itemId == "" then Success(d)
    else if |d.inventory| >= MaxInventorySize then Failure(InventoryFull)
    else
      var stats := match e.bonus
        case None => d.stats
        case Some(b) => ApplyToStats(d.stats, b.stat, -b.value);
      Success(WithSlot(d, slot, NoEquipment).(stats := stats, inventory := d.inventory + [e.itemId]))
  }

  /** The second half of equipping: apply the bonus, record it in the slot, take the item out of the inventory. */
  function Wear(d: CharacterData, slot: Slot, itemId: string, b: Bonus): CharacterData {
    WithSlot(d, slot, Equipment(itemId, Some(b))).(
      stats := ApplyToStats(d.stats, b.stat, b.value),
      inventory := RemoveFirst(d.inventory, itemId))
  }

  /**
    `equip_weapon` / `equip_armor` on a record: the item must be in the
    inventory and of the slot's type; whatever the slot held is unequipped
    first; then the item's parsed effect is worn.
   */
  function Equipped(d: CharacterData, slot: Slot, itemId: string, item: Item): Result<CharacterData> {
    if itemId !in d.inventory then Failure(ItemNotFound(itemId))
    else if item.itemType != SlotType(slot) then Failure(InvalidItemType(itemId))
    else
      match Unequipped(d, slot)
      case Failure(e) => Failure(e)
      case Success(free) => Success(Wear(free, slot, itemId, ParseItemEffect(item.effect)))
  }

  /** The message `equip_weapon` / `equip_armor` return. */
  function EquipMessage(d: CharacterData, slot: Slot, item: Item): string {
    var previous := SlotOf(d, slot).itemId;
    (if previous != "" then "Unequipped " + previous + ". " else "") + "Equipped " + item.name + "."
  }

  /**
    Unequipping leaves the slot empty, the quests and the other slot alone,
    gives the held item back to the inventory and never grows a bounded
    inventory past its bound; it fails exactly when a held item has no room
    to go back.
   */
  lemma UnequippedSpec(d: CharacterData, slot: Slot)
    ensures Unequipped(d, slot).Failure? <==> SlotOf(d, slot).itemId != "" && |d.inventory| >= MaxInventorySize
    ensures Unequipped(d, slot).Success? ==>
      var r := Unequipped(d, slot).value;
      && SlotOf(r, slot).itemId == ""
      && r.activeQuests == d.activeQuests && r.completedQuests == d.completedQuests
      && SlotOf(r, OtherSlot(slot)) == SlotOf(d, OtherSlot(slot))
      && (|d.inventory| <= MaxInventorySize ==> |r.inventory| <= MaxInventorySize)
      && multiset(r.inventory) == multiset(d.inventory) + (if SlotOf(d, slot).itemId == "" then multiset{} else multiset{SlotOf(d, slot).itemId})
  {
  }

  /**
    Equipping never grows a bounded inventory past its bound, and the slot
    then holds the item with its parsed bonus; it fails exactly when the
    item is missing, of the wrong type, or the old item has no room to go
    back.
   */
  lemma EquippedSpec(d: CharacterData, slot: Slot, itemId: string, item: Item)
    requires |d.inventory| <= MaxInventorySize
    ensures Equipped(d, slot, itemId, item).Success? ==>
      var r := Equipped(d, slot, itemId, item).value;
      && |r.inventory| <= MaxInventorySize
      && SlotOf(r, slot) == Equipment(itemId, Some(ParseItemEffect(item.effect)))
      && multiset(r.inventory) == multiset(d.inventory) - multiset{itemId}
           + (if SlotOf(d, slot).itemId == "" then multiset{} else multiset{SlotOf(d, slot).itemId})
    ensures Equipped(d, slot, itemId, item).Failure? <==>
      itemId !in d.inventory || item.itemType != SlotType(slot)
      || (SlotOf(d, slot).itemId != "" && |d.inventory| >= MaxInventorySize)
  {
    UnequippedSpec(d, slot);
    if itemId in d.inventory && item.itemType == SlotType(slot) && Unequipped(d, slot).Success? {
      var free := Unequipped(d, slot).value;
      assert itemId in free.inventory by {
        assert multiset(free.inventory)[itemId] >= multiset(d.inventory)[itemId];
      }
      RemoveFirstMultiset(free.inventory, itemId);
    }
  }

  /**
    Wearing an item in an empty slot and unequipping it again restores every
    stat, and the item is back in the inventory (now at the end). Healing
    bonuses are excluded, and so are negative maximum-health bonuses, which
    the source does not take back exactly.
   */
  lemma WearThenUnequip(d: CharacterData, slot: Slot, itemId: string, b: Bonus)
    requires SlotOf(d, slot) == NoEquipment && itemId != "" && itemId in d.inventory
    requires |d.inventory| <= MaxInventorySize && d.stats.health <= d.stats.maxHealth
    requires b.stat != "health" && (b.stat == "max_health" ==> b.value >= 0)
    ensures Unequipped(Wear(d, slot, itemId, b), slot) == Success(d.(inventory := RemoveFirst(d.inventory, itemId) + [itemId]))
  {
    ApplyEffectUndo(d.stats, b.stat, b.value);
    match slot {
      case WeaponSlot =>
      case ArmorSlot =>
    }
  }

  /**
    Equipping into an empty slot and unequipping again restores every stat,
    and the item is back in the inventory, as the same collection of items.
   */
  lemma EquipThenUnequip(d: CharacterData, slot: Slot, itemId: string, item: Item)
    requires SlotOf(d, slot) == NoEquipment
    requires itemId != "" && itemId in d.inventory && item.itemType == SlotType(slot)
    requires |d.inventory| <= MaxInventorySize && d.stats.health <= d.stats.maxHealth
    requires ParseItemEffect(item.effect).stat != "health"
    requires ParseItemEffect(item.effect).stat == "max_health" ==> ParseItemEffect(item.effect).value >= 0
    ensures Equipped(d, slot, itemId, item).Success?
    ensures Unequipped(Equipped(d, slot, itemId, item).value, slot)
         == Success(d.(inventory := RemoveFirst(d.inventory, itemId) + [itemId]))
    ensures multiset(RemoveFirst(d.inventory, itemId) + [itemId]) == multiset(d.inventory)
  {
    WearThenUnequip(d, slot, itemId, ParseItemEffect(item.effect));
    RemoveFirstMultiset(d.inventory, itemId);
  }

  /** Set what a slot holds. */
  method SetSlot(c: Character, slot: Slot, e: Equipment)
    modifies c
    ensures c.Data() == WithSlot(old(c.Data()), slot, e)
  {
    match slot {
      case WeaponSlot => c.equippedWeapon, c.weaponBonus := e.itemId, e.bonus;
      case ArmorSlot => c.equippedArmor, c.armorBonus := e.itemId, e.bonus;
    }
  }

  /** `unequip_weapon` / `unequip_armor`: the item taken off, `None` for an empty slot. */
  method Unequip(c: Character, slot: Slot) returns (r: Result<Option<string>>)
    modifies c
    ensures Unequipped(old(c.Data()), slot).Failure? ==>
      r == Failure(Unequipped(old(c.Data()), slot).error) && c.Data() == old(c.Data())
    ensures Unequipped(old(c.Data()), slot).Success? ==>
      && c.Data() == Unequipped(old(c.Data()), slot).value
      && r == Success(if SlotOf(old(c.Data()), slot).itemId == "" then None else Some(SlotOf(old(c.Data()), slot).itemId))
  {
    var e := SlotOf(c.Data(), slot);
    if e.itemId == "" {
      return Success(None);
    }
    if |c.inventory| >= MaxInventorySize {
      return Failure(InventoryFull);
    }
    if e.bonus.Some? {
      ApplyStatEffect(c, e.bonus.value.stat, -e.bonus.value.value);
    }
    SetSlot(c, slot, NoEquipment);
    c.inventory := c.inventory + [e.itemId];
    return Success(Some(e.itemId));
  }

  /** `equip_weapon` / `equip_armor`. */
  method Equip(c: Character, slot: Slot, itemId: string, item: Item) returns (r: Result<string>)
    modifies c
    ensures Equipped(old(c.Data()), slot, itemId, item).Failure? ==>
      r == Failure(Equipped(old(c.Data()), slot, itemId, item).error) && c.Data() == old(c.Data())
    ensures Equipped(old(c.Data()), slot, itemId, item).Success? ==>
      r == Success(EquipMessage(old(c.Data()), slot, item)) && c.Data() == Equipped(old(c.Data()), slot, itemId, item).value
  {
    if itemId !in c.inventory {
      return Failure(ItemNotFound(itemId));
    }
    if item.itemType != SlotType(slot) {
      return Failure(InvalidItemType(itemId));
    }
    var unequipMessage := "";
    if SlotOf(c.Data(), slot).itemId != "" {
      var taken := Unequip(c, slot);
      if taken.Failure? {
        return Failure(taken.error);
      }
      unequipMessage := "Unequipped " + (if taken.value.Some? then taken.value.value else "None") + ". ";
    }
    var b := ParseItemEffect(item.effect);
    ApplyStatEffect(c, b.stat, b.value);
    SetSlot(c, slot, Equipment(itemId, Some(b)));
    var _ := RemoveItem(c, itemId);
    return Success(unequipMessage + "Equipped " + item.name + ".");
  }

  // ------------------------------------------------------------------- shop

  /** `purchase_item` on a record: gold is checked before space; the gold pays for the item. */
  function Purchased(d: CharacterData, itemId: string, item: Item): Result<CharacterData> {
    if d.stats.gold < item.cost then Failure(InsufficientResources(item.cost, d.stats.gold))
    else if |d.inventory| >= MaxInventorySize then Failure(InventoryFull)
    else Success(d.(stats := d.stats.(gold := d.stats.gold - item.cost), inventory := d.inventory + [itemId]))
  }

  /**
    `sell_item` on a record: the outcome and the record afterwards. The item
    leaves the inventory before the gold is added, so a refused gold change
    (only possible with a negative cost) leaves the item sold for nothing.
   */
  function Sold(d: CharacterData, itemId: string, item: Item): (Result<int>, CharacterData) {
    if itemId !in d.inventory then (Failure(ItemNotFound(itemId)), d)
    else
      // Python's // floors; Dafny's / agrees with it for a positive divisor.
      var sellValue := item.cost / 2;
      var removed := d.(inventory := RemoveFirst(d.inventory, itemId));
      match GoldAfter(d.stats.gold, sellValue)
      case None => (Failure(NegativeGold), removed)
      case Some(g) => (Success(sellValue), removed.(stats := removed.stats.(gold := g)))
  }

  /**
    A purchase never leaves gold negative nor the inventory over its bound,
    adds one copy of the item, and fails exactly when the gold or the space
    is short.
   */
  lemma PurchasedSpec(d: CharacterData, itemId: string, item: Item)
    requires |d.inventory| <= MaxInventorySize
    ensures Purchased(d, itemId, item).Success? <==> d.stats.gold >= item.cost && |d.inventory| < MaxInventorySize
    ensures Purchased(d, itemId, item).Success? ==>
      var r := Purchased(d, itemId, item).value;
      r.stats.gold >= 0 && |r.inventory| <= MaxInventorySize && Count(r.inventory, itemId) == Count(d.inventory, itemId) + 1
  {
  }

  /**
    Buying an item and selling it straight back returns the same items and
    costs the half of the price that the sale does not refund.
   */
  lemma PurchaseThenSell(d: CharacterData, itemId: string, item: Item)
    requires item.cost >= 0 && Purchased(d, itemId, item).Success?
    ensures var (r, after) := Sold(Purchased(d, itemId, item).value, itemId, item);
      && r == Success(item.cost / 2)
      && after.stats == d.stats.(gold := d.stats.gold - item.cost + item.cost / 2)
      && after.stats.gold <= d.stats.gold
      && multiset(after.inventory) == multiset(d.inventory)
      && after.(inventory := d.inventory, stats := d.stats) == d
  {
    var p := Purchased(d, itemId, item).value;
    assert p.inventory[|d.inventory|] == itemId;
    AddThenRemove(d.inventory, itemId);
  }

  /** `purchase_item`. */
  method PurchaseItem(c: Character, itemId: string, item: Item) returns (r: Result<bool>)
    modifies c
    ensures Purchased(old(c.Data()), itemId, item).Failure? ==>
      r == Failure(Purchased(old(c.Data()), itemId, item).error) && c.Data() == old(c.Data())
    ensures Purchased(old(c.Data()), itemId, item).Success? ==>
      r == Success(true) && c.Data() == Purchased(old(c.Data()), itemId, item).value
  {
    var cost := item.cost;
    if c.gold < cost {
      return Failure(InsufficientResources(cost, c.gold));
    }
    if |c.inventory| >= MaxInventorySize {
      return Failure(InventoryFull);
    }
    var _ := AddGold(c, -cost);
    var _ := AddItem(c, itemId);
    return Success(true);
  }

  /** `sell_item`. */
  method SellItem(c: Character, itemId: string, item: Item) returns (r: Result<int>)
    modifies c
    ensures (r, c.Data()) == Sold(old(c.Data()), itemId, item)
  {
    if itemId !in c.inventory {
      return Failure(ItemNotFound(itemId));
    }
    var sellValue := item.cost / 2;
    var _ := RemoveItem(c, itemId);
    var added := AddGold(c, sellValue);
    if added.Failure? {
      return Failure(added.error);
    }
    return Success(sellValue);
  }
}
