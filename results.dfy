/**
  Failure-carrying results and the game's error taxonomy.

  Every exception the game modules raise on a checked condition becomes a
  `Failure` carrying one of the `Error` values below; the exception class it
  stands for is named beside each constructor.
 */
module Results {

  datatype Option<+T> = None | Some(value: T)

  datatype Result<+T> = Success(value: T) | Failure(error: Error) {
    predicate IsFailure() { Failure? }
    function PropagateFailure<U>(): Result<U>
      requires Failure?
    {
      Failure(error)
    }
    function Extract(): T
      requires Success?
    {
      value
    }
  }

  datatype Error =
    // quest_handler.py
    | QuestNotFound(questId: string)               // QuestNotFoundError
    | QuestAlreadyCompleted(questId: string)       // QuestAlreadyCompletedError (active or completed)
    | InsufficientLevel(level: int, required: int) // InsufficientLevelError
    | QuestRequirementsNotMet(prerequisite: string) // QuestRequirementsNotMetError
    | QuestNotActive(questId: string)              // QuestNotActiveError
    | BrokenChain(questId: string)                 // GameError: chain reaches a missing quest
    | CircularDependency(questId: string)          // GameError: chain revisits a quest
    | MissingPrerequisite(questId: string, prerequisite: string) // QuestNotFoundError from validate_quest_prerequisites
    // combat_system.py
    | InvalidTarget(enemyType: string)             // InvalidTargetError
    | CombatNotActive                              // CombatNotActiveError
    | CharacterDead                                // CharacterDeadError
    // inventory_system.py
    | InventoryFull                                // InventoryFullError
    | ItemNotFound(itemId: string)                 // ItemNotFoundError
    | InsufficientResources(needed: int, held: int) // InsufficientResourcesError
    | InvalidItemType(itemId: string)              // InvalidItemTypeError
    // character_manager.py
    | InvalidCharacterClass(characterClass: string) // InvalidCharacterClassError
    | NegativeGold                                 // ValueError raised by add_gold
    | InvalidSaveData(field: string)               // InvalidSaveDataError
    | UndefinedName(name: string)                  // NameError (see CharacterManager)
    // game_data.py
    | InvalidDataFormat(detail: string)            // InvalidDataFormatError
}
