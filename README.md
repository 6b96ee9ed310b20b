# Quest Chronicles game rules in Dafny

This project models the deterministic rules of the Quest Chronicles text RPG:

- one character record;
- the read-only quest and item catalogs;
- the five rule modules that act on them.

It proves properties of each.

| Dafny file | module | what it models |
|---|---|---|
| `results.dfy` | `Results` | `Option`, `Result` and one error constructor per exception the game raises |
| `seqs.dfy` | `Seqs` | list helpers: first-occurrence removal (`list.remove`), counting, reversal, distinctness |
| `text.dfy` | `Text` | the string operations the rules use: `strip`, `split`, a split at the first separator, `lower`, `capitalize`, `int()` and `str()` of integers |
| `catalogs.dfy` | `Catalogs` | a dict that keeps insertion order, since the catalog's iteration order is observable |
| `game_data.py` → `game_data.dfy` | `GameData` | the `KEY: value` block parsers, the field validators, the block split and the keyed loading of `load_quests` / `load_items` |
| `character_manager.py` → `character_manager.dfy` | `CharacterManager` | character creation from the class table, the experience/level-up loop, gold, healing, death and revival, and the record validator |
| `inventory_system.py` → `inventory_system.dfy` | `InventorySystem` | the 20-slot inventory, item use, the `stat:value` effect parser, stat effects, equip/unequip for both slots, and the shop |
| `quest_handler.py` → `quest_handler.dfy` | `QuestHandler` | accept / complete / abandon, the availability filter, quest lookups, reward totals, the prerequisite-chain walk and the catalog cross-check |
| `combat_system.py` → `combat_system.dfy` | `CombatSystem` | the enemy table, the level brackets, the damage rule, the end-of-battle test and the `SimpleBattle` loop |

How the Python objects map to Dafny:

- **Character.** The character is a Python dict updated in place. Here it is the class `CharacterManager.Character`, with one field per key. `CharacterData` is a value snapshot of those fields, which the specification functions work on.
- **Character operations.** An operation that changes the character is a method with `modifies c`. Its contract states the new snapshot as a function of the old one. A failing operation leaves the snapshot unchanged.
- **Enemy.** The enemy dict is the class `CombatSystem.Enemy`.
- **Battle.** The battle is the class `CombatSystem.SimpleBattle`, with the source's `combat_active` and `turns` fields.
- **Loops.** Loops in the source are `while` loops here. Each is proved against a recursive specification function:
  - `GainExperience` against `LevelUp`;
  - `StartBattle` against `Fight`;
  - `GetAvailableQuests` against `AvailableIds`;
  - `ParseBlock` against `ParseLines`;
  - `LoadCatalog` against `CatalogFrom`.
- **Errors.** An exception is a `Failure` with the matching `Error` constructor.

## Model

| member | source | states |
|---|---|---|
| Catalogs.Insert | game_data.py:49 | storing under a key replaces its value; a new key joins the end of the iteration order, an existing key keeps its place |
| Catalogs.InsertOverwrites | game_data.py:49 | storing twice under one key is storing the second value once |
| Catalogs.InsertAllFinds | game_data.py:49 | storing records whose keys all differ finds each one under its own key |
| Catalogs.ValuesAreEntries | quest_handler.py:221 | `values()` holds exactly the values stored in the dict |
| Seqs.RemoveFirstMultiset | inventory_system.py:53 | `list.remove` takes away exactly one copy of the item |
| Seqs.RemoveFirstAt | inventory_system.py:53 | `list.remove` deletes the first occurrence and keeps the order of everything else |
| Text.StripIdempotent | game_data.py:36 | stripping a stripped string changes nothing |
| Text.SplitOnceSpec | game_data.py:190 | `split(': ', 1)` fails exactly when there is no separator; otherwise key + separator + value is the line and the key holds no earlier separator |
| Text.ParseIntCanonical | game_data.py:200 | a string reads as `n` and is written the way `str()` writes integers (no `+`, no leading zero, no `-0`) exactly when it is `str(n)`: the converse of `int(str(n)) == n` |
| Text.ParseIntOfString | game_data.py:200 | the decimal text of any integer reads back as that integer |
| Text.SplitJoinLines | game_data.py:45 | `split('\n')` of lines joined by line breaks gives back the lines when none holds a line break |
| Text.JoinLinesNoBlank | game_data.py:36 | non-empty single lines joined by line breaks hold no blank line |
| Text.SplitJoinBlocks | game_data.py:36 | `split('\n\n')` of stripped blocks joined by blank lines gives back the blocks when none holds a blank line |
| GameData.StoreEntrySpec | game_data.py:193-204 | one entry fails only for a numeric field whose value is not an integer; an unknown key leaves the record unchanged |
| GameData.ParseLineSpec | game_data.py:190-204 | one line fails exactly when it has no `": "` or its entry is rejected |
| GameData.ParseBlock | game_data.py:180-210 | the parsing loop computes the fold `ParseLines` over the block's lines, starting from an empty record |
| GameData.ParseLinesFailsIff | game_data.py:188-208 | a block is rejected exactly when one of its lines is |
| GameData.ParseLinesWellTyped | game_data.py:198-204 | a parsed record holds ints in the numeric fields and text everywhere else |
| GameData.FirstFieldError | game_data.py:82-111 | the validator passes exactly when every required field is present and acceptable; otherwise it fails with a format error, and a missing or rejected first field gets the validators' own message ("Quest is missing required field: KEY", "Quest field 'reward_xp' must be a non-negative integer.", "Item type '…' is invalid. Must be one of: weapon, armor, consumable", "Item cost must be a non-negative integer.") |
| GameData.ValidateQuestData | game_data.py:73-92 | a quest record passes exactly when all seven fields are present and the three numeric ones are non-negative ints; it then yields the `Quest` of those fields |
| GameData.ValidateItemData | game_data.py:94-113 | an item record passes exactly when all six fields are present, the type is weapon, armor or consumable, and the cost is a non-negative int |
| GameData.StrippedNonEmpty | game_data.py:36 | the block split keeps only non-empty, stripped pieces, and no more of them than there were |
| GameData.ParseLinesFormatError | game_data.py:188-208 | every error the block parser raises is a format error whose message starts "Error parsing numeric or key/value pair: " |
| GameData.DecodeQuestError | game_data.py:45-52 | a quest block fails exactly when its lines fail to parse or validate, and is then re-raised as a format error with "Quests file format error: " in front of the block's message |
| GameData.DecodeItemError | game_data.py:62-69 | an item block fails exactly when its lines fail to parse or validate, and is then re-raised as a format error with "Items file format error: " in front of the block's message |
| GameData.CatalogFromFirstFailure | game_data.py:44-52 | the load fails exactly when some block fails, and then with the error of the first block that does |
| GameData.LoadQuestsError | game_data.py:39-54 | `load_quests` fails exactly when some block's lines fail to parse or validate; its error is then a format error whose message is "Quests file format error: " followed by the message of the first such block |
| GameData.LoadItemsError | game_data.py:56-71 | `load_items` fails exactly when some block's lines fail to parse or validate; its error is then a format error whose message is "Items file format error: " followed by the message of the first such block |
| GameData.LoadCatalog | game_data.py:44-54 | the loading loop computes `CatalogFrom`: each record in block order, stored under its own id; the first bad block fails the load |
| GameData.CatalogFromStep | game_data.py:44-52 | one turn of the loading loop either fails with that block's error or stores its record and goes on |
| GameData.LoadQuests | game_data.py:39-54 | every loaded quest is stored under its `quest_id` |
| GameData.LoadItems | game_data.py:56-71 | every loaded item is stored under its `item_id` |
| GameData.CatalogFromKeyed | game_data.py:49 | loading stores every record under its own id |
| GameData.CatalogFromAppend | game_data.py:66 | a later block with the same id overwrites the earlier record |
| GameData.KeyOfField | game_data.py:182-186 | every field's file key maps back to that field and splits cleanly at `": "` |
| GameData.ParseRenderedLines | game_data.py:189-204 | parsing `KEY: value` lines stores exactly the written entries |
| GameData.QuestRecordValid | game_data.py:73-92 | the record of a well-formed quest passes validation and gives the quest back |
| GameData.QuestLinesRoundTrip | game_data.py:130-146 | the `KEY: value` lines of a quest with stripped text fields and non-negative numbers parse and validate back to the same quest |
| GameData.QuestBlockRoundTrip | game_data.py:44-52 | a quest whose text fields are non-empty single lines, written as a block, comes back unchanged through the line split and strip, the parser and the validator; the block is non-empty, stripped and holds no blank line |
| GameData.QuestFileRoundTrip | game_data.py:36-54 | loading a file of such quest blocks separated by blank lines gives every quest stored in order under its id, a later one replacing an earlier one with the same id; with distinct ids each quest is found under its own |
| GameData.ItemRecordValid | game_data.py:94-113 | the record of a well-formed item passes validation and gives the item back |
| GameData.ItemLinesRoundTrip | game_data.py:155-169 | the `KEY: value` lines of an item with stripped text fields, a known type and a non-negative cost parse and validate back to the same item |
| GameData.ItemBlockRoundTrip | game_data.py:61-69 | an item whose text fields are non-empty single lines, written as a block, comes back unchanged through the line split and strip, the parser and the validator; the block is non-empty, stripped and holds no blank line |
| GameData.ItemFileRoundTrip | game_data.py:56-71 | loading a file of such item blocks separated by blank lines gives every item stored in order under its id, a later one replacing an earlier one with the same id; with distinct ids each item is found under its own |
| GameData.StrippedNonEmptyClean | game_data.py:36 | the block and line splits keep pieces that are already non-empty and stripped exactly as they are |
| GameData.CatalogFromDecoded | game_data.py:44-52 | loading blocks that all decode stores each decoded record under its id, in block order |
| CharacterManager.ClassStats | character_manager.py:29-34 | exactly the four classes have base stats, all positive |
| CharacterManager.NewCharacter | character_manager.py:28-55 | a known class gives level 1, experience 0, gold 100, empty lists, no equipment, and health = max health from the table; any other class is `InvalidCharacterClassError` |
| CharacterManager.CreateCharacterAsWritten | character_manager.py:35 | the written code fails on every call, with the undefined name `formatted_class` |
| CharacterManager.CreateCharacterAsWrittenRejectsWarrior | character_manager.py:35-38 | the written code rejects "Warrior", which the intended code accepts with 120 max health |
| CharacterManager.NewCharacterIgnoresCase | character_manager.py:35 | "mage", "MAGE" and "Mage" create the same character |
| CharacterManager.ValidateCharacter | character_manager.py:251-260 | validation passes exactly when level ≥ 1, max health > 0 and 0 ≤ health ≤ max health; each failure names its field, checked in source order |
| CharacterManager.NewCharacterValid | character_manager.py:40-53 | every created character passes validation |
| CharacterManager.LevelUpSettled | character_manager.py:179-186 | after the loop, experience is below `level * 100` |
| CharacterManager.LevelUpGains | character_manager.py:182-186 | each level gained adds 10 max health, 2 strength and 2 magic; a level-up refills health; gold is untouched |
| CharacterManager.LevelUpConserves | character_manager.py:179-181 | the experience spent on the levels gained plus what is left is the experience there was |
| CharacterManager.LevelUpValid | character_manager.py:179-186 | levelling keeps a valid record valid |
| CharacterManager.GainExperience | character_manager.py:169-188 | a dead character is refused with no change; otherwise experience is added, the loop levels up, and the new level is returned |
| CharacterManager.GoldAfter | character_manager.py:194-196 | a new total is the old total plus the amount and is never negative; refusal means it would have been negative |
| CharacterManager.GoldAfterInverse | character_manager.py:194-198 | taking back an accepted amount restores the total |
| CharacterManager.AddGold | character_manager.py:190-199 | a negative result is refused with gold unchanged; otherwise gold becomes the new total and is returned |
| CharacterManager.HealedHealthBounds | character_manager.py:201-211 | healing never lowers health or passes the maximum, and adds at most the amount |
| CharacterManager.HealCharacter | character_manager.py:201-211 | only health changes; a non-positive amount heals 0; the result is the actual increase |
| CharacterManager.RevivedHealth | character_manager.py:220-222 | revival health is `max(1, max_health // 2)`: half the maximum, rounded down, from a maximum of 2 up, and exactly 1 below it |
| CharacterManager.RevivedValid | character_manager.py:216-224 | a dead valid character comes back alive and valid |
| CharacterManager.ReviveCharacter | character_manager.py:216-224 | a living character is untouched and false is returned; a dead one gets the revival health |
| InventorySystem.InventoryQueries | inventory_system.py:56-63 | `has_item` iff the count is positive; space remaining is non-negative iff the inventory is within 20 |
| InventorySystem.AddItem | inventory_system.py:26-39 | a full inventory is refused with no change; otherwise exactly the item is appended; the size never passes 20 through this path |
| InventorySystem.RemoveItem | inventory_system.py:41-54 | a missing item is refused with no change; otherwise one copy is removed |
| InventorySystem.RemoveItemCounts | inventory_system.py:49-54 | removal lowers that item's count by one, keeps every other count, and keeps the order |
| InventorySystem.AddThenRemove | inventory_system.py:38-53 | adding then removing an item gives back the same items |
| InventorySystem.ClearInventory | inventory_system.py:65-72 | the old contents are returned and the inventory is left empty |
| InventorySystem.ParseTwoPieces | inventory_system.py:253-261 | an effect with a colon reads as the stripped text before it and the value of the second piece |
| InventorySystem.EffectValueNotDecimal | inventory_system.py:256-259 | a value that is not an integer reads as 0 |
| InventorySystem.ParseEffectText | inventory_system.py:248-261 | an effect written as `stat:value` parses back to that stat and value |
| InventorySystem.StatValue | inventory_system.py:264 | a name has a value exactly when it is an integer key of the record |
| InventorySystem.AddToStatSpec | inventory_system.py:276-278 | a plain stat effect adds the value under its own key and leaves every other key alone |
| InventorySystem.ApplyToStatsScope | inventory_system.py:263-278 | an unknown stat changes nothing; plain stats move by the value; health never ends above max health |
| InventorySystem.HealthEffectKeepsValid | inventory_system.py:267-269 | a health effect keeps a valid record valid and never lowers health |
| InventorySystem.ApplyEffectUndo | inventory_system.py:270-278 | applying a bonus and then its negation restores the stats; health is excluded, and `max_health` is included only for a non-negative bonus on a record with health within its maximum |
| InventorySystem.HealthEffectNotUndone | inventory_system.py:267-269 | taking back a healing bonus does not undo it |
| InventorySystem.ApplyStatEffect | inventory_system.py:263-278 | the method changes the character exactly as `ApplyEffect` says |
| InventorySystem.UseItem | inventory_system.py:78-96 | a missing item, then a non-consumable, is refused with no change; otherwise the effect is applied and one copy is used up |
| InventorySystem.UnequippedSpec | inventory_system.py:98-121 | unequipping fails exactly for an occupied slot with a full inventory; otherwise the slot is emptied, the held item rejoins the inventory's items, and the other slot and the quests are untouched |
| InventorySystem.EquippedSpec | inventory_system.py:148-174 | equipping fails exactly for a missing item, a wrong type, or an occupied slot with a full inventory; on success the slot holds the item with its parsed bonus, one copy of the item has left the inventory and any previously equipped item has joined it, and the inventory stays within 20 |
| InventorySystem.WearThenUnequip | inventory_system.py:166-172 | putting an item into an empty slot and taking it off again restores stats and slot, and moves the item to the end of the inventory (non-health bonuses, non-negative for `max_health`) |
| InventorySystem.EquipThenUnequip | inventory_system.py:148-174 | equipping into an empty slot and then unequipping restores the original stats and the same multiset of items |
| InventorySystem.Unequip | inventory_system.py:98-146 | the method does what `Unequipped` says and returns the id taken off, or none for an empty slot |
| InventorySystem.Equip | inventory_system.py:148-202 | the method does what `Equipped` says and returns the equip message |
| InventorySystem.PurchasedSpec | inventory_system.py:208-225 | a purchase succeeds exactly when gold covers the cost and there is space; it then leaves gold non-negative, the inventory within 20, and one more copy of the item |
| InventorySystem.PurchaseThenSell | inventory_system.py:208-242 | buying then selling leaves the items as they were and nets `cost // 2 - cost` gold |
| InventorySystem.PurchaseItem | inventory_system.py:208-225 | the method does what `Purchased` says, with no change on failure |
| InventorySystem.SellItem | inventory_system.py:227-242 | a missing item is refused; otherwise one copy is removed and `cost // 2` gold is added and returned |
| QuestHandler.CanAcceptIff | quest_handler.py:136-159 | `can_accept_quest` holds exactly when `accept_quest` succeeds |
| QuestHandler.AcceptQuest | quest_handler.py:21-47 | checks run in order: not found, already active or completed, level too low, prerequisite not done; a failure changes nothing; success appends exactly the id to the active list |
| QuestHandler.AcceptKeepsLogValid | quest_handler.py:31-45 | accepting keeps both lists duplicate-free and disjoint |
| QuestHandler.AcceptThenAbandon | quest_handler.py:45-87 | abandoning a quest just accepted gives back the original record |
| QuestHandler.CompleteQuest | quest_handler.py:49-75 | an unknown or inactive quest is refused with no change; otherwise one copy leaves active, the id joins completed, and the catalog rewards are returned |
| QuestHandler.CompleteKeepsLogValid | quest_handler.py:61-68 | completing keeps the log valid and moves the quest from active to completed |
| QuestHandler.AbandonQuest | quest_handler.py:77-88 | an inactive quest is refused with no change; otherwise one copy leaves the active list and completed is untouched |
| QuestHandler.AbandonKeepsLogValid | quest_handler.py:84-87 | abandoning keeps the log valid and the quest is no longer active |
| QuestHandler.QuestsOfSpec | quest_handler.py:90-104 | the active / completed lookups return catalog quests, no more than the ids, one per id when all are known |
| QuestHandler.AvailableIdsSpec | quest_handler.py:106-116 | the available quests are exactly the catalog quests `can_accept_quest` admits, with no duplicates, none active or completed |
| QuestHandler.GetAvailableQuests | quest_handler.py:106-116 | the loop returns the catalog entries of `AvailableIds` in catalog order |
| QuestHandler.QuestsByLevelSpec | quest_handler.py:216-223 | the result holds exactly the catalog's quests whose required level is in range, and no more entries than the catalog has |
| QuestHandler.TotalQuestRewards | quest_handler.py:201-214 | the loop returns the summed rewards of the completed quests found in the catalog |
| QuestHandler.CompleteAddsRewards | quest_handler.py:67-75 | completing a quest adds exactly its rewards to the total earned |
| QuestHandler.SumRewardsNonNegative | quest_handler.py:205-213 | non-negative rewards never sum to a negative total |
| QuestHandler.WalkFollowsChain | quest_handler.py:168-177 | every prerequisite chain, read backwards, starts with the walk so far |
| QuestHandler.ChainExtendsWalk | quest_handler.py:176-177 | until the walk reaches `NONE`, every chain holds the walk's next step |
| QuestHandler.NoChainWhenBroken | quest_handler.py:172-174 | a walk reaching a missing quest means no chain exists |
| QuestHandler.NoChainWhenCircular | quest_handler.py:179-180 | a walk revisiting a quest means no chain exists |
| QuestHandler.WalkIsChain | quest_handler.py:176-182 | a walk ending at a quest with no prerequisite, reversed, is the chain |
| QuestHandler.GetQuestPrerequisiteChain | quest_handler.py:161-182 | an unknown quest is not found; success returns a duplicate-free chain of catalog quests that starts at a quest with no prerequisite, links each quest to the one before and ends at the quest; failure (broken or circular) means no chain exists |
| QuestHandler.FirstMissingSpec | quest_handler.py:299-302 | the search finds a quest with a missing prerequisite exactly when one exists, and the first one in catalog order |
| QuestHandler.ValidatePrerequisitesSpec | quest_handler.py:295-304 | the check passes exactly when every prerequisite is `NONE` or a catalog quest; a failure names a quest whose prerequisite is missing |
| CombatSystem.CreateEnemySpec | combat_system.py:24-40 | exactly goblin, orc, dragon and skeleton, in any case, make an enemy at full positive health; anything else is `InvalidTargetError` naming the type |
| CombatSystem.CreateEnemyIgnoresCase | combat_system.py:29-31 | "goblin", "GOBLIN" and "Goblin" make the same goblin |
| CombatSystem.EnemyTable | combat_system.py:29-35 | the goblin, orc and dragon entries have the table's stats |
| CombatSystem.EnemyForLevelSpec | combat_system.py:43-52 | level ≤ 2 meets a goblin, 3–5 an orc, ≥ 6 a dragon; a higher level never meets a weaker enemy or a smaller reward |
| CombatSystem.VictoryRewardsSpec | combat_system.py:176-183 | defeating any created enemy earns positive experience and gold, never less at a higher level |
| CombatSystem.CalculateDamage | combat_system.py:140-149 | damage is at least 1 and is `atk - dfn // 4` whenever that is at least 1 |
| CombatSystem.DamageMonotone | combat_system.py:144-149 | a stronger attacker never deals less, and a stronger defender never takes more |
| CombatSystem.AfterDamage | combat_system.py:151-160 | health after a hit is `max(0, health - damage)` and never negative |
| CombatSystem.AfterDamageDecreases | combat_system.py:155-160 | a hit never heals, and a hit on a live target always hurts |
| CombatSystem.CheckBattleEndSpec | combat_system.py:162-170 | the player wins whenever the enemy is down, even if both are; the enemy wins only over a live enemy; otherwise the battle goes on |
| CombatSystem.FightSpec | combat_system.py:79-101 | a battle lasts at least one round; victory iff the enemy ends at 0, and the enemy does not strike in the round it dies; the exact hit counts follow |
| CombatSystem.WarriorBeatsGoblin | combat_system.py:79-107 | a new Warrior beats a goblin in 4 rounds and keeps 105 health |
| CombatSystem.OutcomeOf | combat_system.py:106-113 | a battle's outcome is never `FLED`, and it is victory iff the player won |
| CombatSystem.SimpleBattle.PlayerTurn | combat_system.py:115-126 | an inactive battle is refused with no change; otherwise the enemy's health drops by the damage, which is returned |
| CombatSystem.SimpleBattle.EnemyTurn | combat_system.py:128-138 | an inactive battle is refused with no change; otherwise the character's health drops by the damage, which is returned |
| CombatSystem.SimpleBattle.StartBattle | combat_system.py:70-113 | a dead character is refused with nothing touched; a finished battle counts a turn and stops at the player's turn; otherwise the battle runs as `Fight` says, then ends inactive with the rounds counted |
| CombatSystem.BattleOutcomeSpec | combat_system.py:103-113 | victory iff the enemy ends at 0 health; defeat iff the character ends at 0 with the enemy alive |

## Left out

- File I/O is not modelled. This covers `save_character`, `load_character`, `list_saved_characters` and `delete_character` (character_manager.py:58-163), and `_read_data_file` and `create_default_data_files` (game_data.py:22-37, 115-174). The loaders take the file content as a string; the default-file text appears only as the format the round-trip lemmas write.
- The indentation errors at character_manager.py:74, 138, 217 and 231 and the missing `json` import are not modelled. As written, Python rejects the whole module at import with its first `IndentationError`, so none of its functions can run. The model follows the evident intent for all of them. Two of the errors fall inside modelled functions: `revive_character` (line 217, CharacterManager.ReviveCharacter) and `validate_character_data` (line 231, CharacterManager.ValidateCharacter).
- The `display_*` functions and `display_battle_log` only print.
- `get_quest_completion_percentage` (quest_handler.py:188-199) is left out because it computes a rounded float.
- main.py is not part of this model. That covers its menus, input loops and random enemy choice, and its reads of `quest['id']` where the parser stores `quest_id`.
- Python's dynamic typing is not modelled: records are typed.
  - CharacterManager.GainExperience does not model the `ValueError` for a non-integer amount (character_manager.py:173-175). The same holds for the `isinstance` checks of `add_gold`.
  - CharacterManager.ValidateCharacter checks only the range conditions. The presence and type checks at character_manager.py:231-249 always pass on a typed record.
  - The `isinstance` checks of `validate_quest_data` / `validate_item_data` are modelled through the parsed record, which stores either an int or text.
- Text.ParseInt reads an optional sign followed by decimal digits. It does not accept the surrounding whitespace or underscores that Python's `int()` also accepts, except where the source strips first.
- GameData.QuestFileRoundTrip and GameData.ItemFileRoundTrip cover records whose text fields are non-empty single lines. An empty field is written as `TITLE: `, which the line strip turns into `TITLE:`, and the `": "` split then fails. A field holding a line break is cut in two by the line split.
- `dict.get` defaults are not modelled: the catalog records always have every field. These are `quest.get('required_level', 1)`, `item_data.get('cost', 0)`, `character.get('health', 0)` and the like.
- The parsers' messages wrap CPython's `ValueError` text. For `int()` that text holds `repr` of the value, which the model writes as the value between single quotes. Python's choice of double quotes, its escapes and its cut at 200 characters are not modelled.
- Strings are ASCII: `lower` / `capitalize` fold only A–Z, and `strip` removes only the ASCII whitespace (space, \t, \n, \v, \f, \r and \x1c–\x1f). Python also strips the Unicode spaces such as \x85 and \xa0.
- InventorySystem.ApplyStatEffect makes no change for a key that names a non-integer field (`name`, `class`, `inventory`, ...). The effect value is always an int, so in Python `+=` raises `TypeError` there.
- InventorySystem.UseItem therefore succeeds for a consumable whose effect names a non-integer field, where the source raises `TypeError` after the item checks and before the item is used up (inventory_system.py:91).
- InventorySystem.Equip likewise succeeds for such an effect, where the source raises `TypeError`. By then the source has already unequipped the item in the slot (inventory_system.py:161-167, 189-195), so its partial update is not modelled.
- An empty equipment slot is the empty id. This covers both a missing `equipped_weapon` / `equipped_armor` key and the `None` that unequipping stores, since the source tests only truthiness.
- The `FLED` outcome is kept in `CombatSystem.Outcome`, but `OutcomeOf` proves no battle returns it, because nothing clears `combat_active` inside the loop. Abilities, escape and the imported `random` are not in the source code and are not modelled.

## Findings

| source | as written | input that shows it | evidently intended | confidence | as-written member | corrected member |
|---|---|---|---|---|---|---|
| character_manager.py:35 | `create_character` tests `formatted_class`, a name never assigned, so every call raises `NameError` | `create_character("Hero", "Warrior")` | normalise the class name with `capitalize()` and look it up in the class table | high; not executed | CharacterManager.CreateCharacterAsWritten | CharacterManager.NewCharacter |
