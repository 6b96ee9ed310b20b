/**
  Quest management (quest_handler.py): accepting, completing and abandoning
  quests move quest ids between the character's `activeQuests` and
  `completedQuests` lists, guarded by the quest catalog. Also the queries
  over the catalog: availability, the prerequisite chain, reward totals,
  level ranges and the cross-reference check of prerequisites.
 */
module QuestHandler {
  import opened Results
  import opened Seqs
  import opened Catalogs
  import opened GameData
  import opened CharacterManager

  // ------------------------------------------------------------------ tracking

  /** `is_quest_completed`. */
  predicate IsQuestCompleted(d: CharacterData, questId: string) {
    questId in d.completedQuests
  }

  /** `is_quest_active`. */
  predicate IsQuestActive(d: CharacterData, questId: string) {
    questId in d.activeQuests
  }

  /** The shape the quest operations keep: no id twice in a list, and no id in both. */
  predicate QuestLogValid(d: CharacterData) {
    && NoDuplicates(d.activeQuests)
    && NoDuplicates(d.completedQuests)
    && (forall q :: q in d.activeQuests ==> q !in d.completedQuests)
  }

  /** `can_accept_quest`: the four requirements, without raising. */
  predicate CanAccept(d: CharacterData, questId: string, cat: QuestCatalog) {
    && questId in cat.entries
    && !(IsQuestCompleted(d, questId) || IsQuestActive(d, questId))
    && d.stats.level >= cat.entries[questId].requiredLevel
    && !(cat.entries[questId].prerequisite != NoPrerequisite && !IsQuestCompleted(d, cat.entries[questId].prerequisite))
  }

  // --------------------------------------------------------------- accepting

  /** The checks of `accept_quest`, in the order it makes them, and the error each raises. */
  function AcceptOutcome(d: CharacterData, questId: string, cat: QuestCatalog): Result<bool> {
    if questId !in cat.entries then Failure(QuestNotFound(questId))
    else
      var quest := cat.entries[questId];
      if IsQuestCompleted(d, questId) || IsQuestActive(d, questId) then Failure(QuestAlreadyCompleted(questId))
      else if d.stats.level < quest.requiredLevel then Failure(InsufficientLevel(d.stats.level, quest.requiredLevel))
      else if quest.prerequisite != NoPrerequisite && !IsQuestCompleted(d, quest.prerequisite) then
        Failure(QuestRequirementsNotMet(quest.prerequisite))
      else Success(true)
  }

  /** The record after a successful `accept_quest`. */
  function Accepted(d: CharacterData, questId: string): CharacterData {
    d.(activeQuests := d.activeQuests + [questId])
  }

  /** `can_accept_quest` answers yes exactly when `accept_quest` would succeed. */
  lemma CanAcceptIff(d: CharacterData, questId: string, cat: QuestCatalog)
    ensures CanAccept(d, questId, cat) <==> AcceptOutcome(d, questId, cat).Success?
    ensures AcceptOutcome(d, questId, cat).Success? ==> AcceptOutcome(d, questId, cat).value
  {
  }

  /** Accepting keeps the quest log well formed. */
  lemma AcceptKeepsLogValid(d: CharacterData, questId: string, cat: QuestCatalog)
    requires QuestLogValid(d) && AcceptOutcome(d, questId, cat).Success?
    ensures QuestLogValid(Accepted(d, questId))
  {
    var active := d.activeQuests + [questId];
    forall i, j | 0 <= i < j < |active| ensures active[i] != active[j] {
      if j == |d.activeQuests| {
        assert active[i] in d.activeQuests;
      }
    }
  }

  /** Abandoning a quest just accepted gives back the record as it was. */
  lemma AcceptThenAbandon(d: CharacterData, questId: string, cat: QuestCatalog)
    requires AcceptOutcome(d, questId, cat).Success?
    ensures Abandoned(Accepted(d, questId), questId) == d
  {
    RemoveFirstAppended(d.activeQuests, questId);
  }

  /** Removing an element that only the appended copy holds gives back the list. */
  lemma {:induction false} RemoveFirstAppended(s: seq<string>, x: string)
    requires x !in s
    ensures RemoveFirst(s + [x], x) == s
  {
    if s != [] {
      assert (s + [x])[1..] == s[1..] + [x];
      RemoveFirstAppended(s[1..], x);
    }
  }

  /** `accept_quest`. */
  method AcceptQuest(c: Character, questId: string, cat: QuestCatalog) returns (r: Result<bool>)
    modifies c
    ensures r == AcceptOutcome(old(c.Data()), questId, cat)
    ensures r.Failure? ==> c.Data() == old(c.Data())
    ensures r.Success? ==> c.Data() == Accepted(old(c.Data()), questId)
  {
    if questId !in cat.entries {
      return Failure(QuestNotFound(questId));
    }
    var quest := cat.entries[questId];
    if questId in c.completedQuests || questId in c.activeQuests {
      return Failure(QuestAlreadyCompleted(questId));
    }
    var requiredLevel := quest.requiredLevel;
    if c.level < requiredLevel {
      return Failure(InsufficientLevel(c.level, requiredLevel));
    }
    var prerequisite := quest.prerequisite;
    if prerequisite != NoPrerequisite && prerequisite !in c.completedQuests {
      return Failure(QuestRequirementsNotMet(prerequisite));
    }
    c.activeQuests := c.activeQuests + [questId];
    return Success(true);
  }

  // -------------------------------------------------------------- completing

  /** The reward summary `complete_quest` returns. */
  datatype Rewards = Rewards(xp: int, gold: int)

  /** The checks of `complete_quest` and the rewards it reports. */
  function CompleteOutcome(d: CharacterData, questId: string, cat: QuestCatalog): Result<Rewards> {
    if questId !in cat.entries then Failure(QuestNotFound(questId))
    else if questId !in d.activeQuests then Failure(QuestNotActive(questId))
    else Success(Rewards(cat.entries[questId].rewardXp, cat.entries[questId].rewardGold))
  }

  /** The record after a successful `complete_quest`: one copy leaves the active list, the id joins the completed one. */
  function Completed(d: CharacterData, questId: string): CharacterData {
    d.(activeQuests := RemoveFirst(d.activeQuests, questId), completedQuests := d.completedQuests + [questId])
  }

  /**
    Completing keeps the quest log well formed: the quest is no longer
    active, it is completed, and nothing else moves.
   */
  lemma CompleteKeepsLogValid(d: CharacterData, questId: string, cat: QuestCatalog)
    requires QuestLogValid(d) && CompleteOutcome(d, questId, cat).Success?
    ensures QuestLogValid(Completed(d, questId))
    ensures !IsQuestActive(Completed(d, questId), questId) && IsQuestCompleted(Completed(d, questId), questId)
    ensures multiset(Completed(d, questId).activeQuests) == multiset(d.activeQuests) - multiset{questId}
  {
    RemoveFirstKeepsNoDuplicates(d.activeQuests, questId);
    RemoveFirstMultiset(d.activeQuests, questId);
    var active := RemoveFirst(d.activeQuests, questId);
    var completed := d.completedQuests + [questId];
    assert forall q :: q in active ==> q in d.activeQuests by {
      forall q | q in active ensures q in d.activeQuests {
        assert q in multiset(active);
      }
    }
    forall i, j | 0 <= i < j < |completed| ensures completed[i] != completed[j] {
      if j == |d.completedQuests| {
        assert completed[i] in d.completedQuests;
      }
    }
  }

  /** `complete_quest`. */
  method CompleteQuest(c: Character, questId: string, cat: QuestCatalog) returns (r: Result<Rewards>)
    modifies c
    ensures r == CompleteOutcome(old(c.Data()), questId, cat)
    ensures r.Failure? ==> c.Data() == old(c.Data())
    ensures r.Success? ==> c.Data() == Completed(old(c.Data()), questId)
  {
    if questId !in cat.entries {
      return Failure(QuestNotFound(questId));
    }
    if questId !in c.activeQuests {
      return Failure(QuestNotActive(questId));
    }
    var quest := cat.entries[questId];
    c.activeQuests, c.completedQuests := RemoveFirst(c.activeQuests, questId), c.completedQuests + [questId];
    return Success(Rewards(quest.rewardXp, quest.rewardGold));
  }

  // -------------------------------------------------------------- abandoning

  /** The record after a successful `abandon_quest`. */
  function Abandoned(d: CharacterData, questId: string): CharacterData {
    d.(activeQuests := RemoveFirst(d.activeQuests, questId))
  }

  /** Abandoning keeps the quest log well formed and the quest is no longer active. */
  lemma AbandonKeepsLogValid(d: CharacterData, questId: string)
    requires QuestLogValid(d)
    ensures QuestLogValid(Abandoned(d, questId))
    ensures !IsQuestActive(Abandoned(d, questId), questId)
  {
    RemoveFirstKeepsNoDuplicates(d.activeQuests, questId);
    RemoveFirstMultiset(d.activeQuests, questId);
    var active := RemoveFirst(d.activeQuests, questId);
    forall q | q in active ensures q !in d.completedQuests {
      assert q in multiset(active);
    }
  }

  /** `abandon_quest`: only an active quest can be abandoned; completed quests are untouched. */
  method AbandonQuest(c: Character, questId: string) returns (r: Result<bool>)
    modifies c
    ensures questId !in old(c.activeQuests) ==> r == Failure(QuestNotActive(questId)) && c.Data() == old(c.Data())
    ensures questId in old(c.activeQuests) ==> r == Success(true) && c.Data() == Abandoned(old(c.Data()), questId)
  {
    if questId !in c.activeQuests {
      return Failure(QuestNotActive(questId));
    }
    c.activeQuests := RemoveFirst(c.activeQuests, questId);
    return Success(true);
  }

  // ----------------------------------------------------------------- queries

  /** `[quest_data_dict[qid] for qid in ids if qid in quest_data_dict]`. */
  function QuestsOf(ids: seq<string>, cat: QuestCatalog): seq<Quest> {
    if ids == [] then []
    else
      var last := ids[|ids| - 1];
      QuestsOf(ids[..|ids| - 1], cat) + if last in cat.entries then [cat.entries[last]] else []
  }

  /** `get_active_quests`. */
  function ActiveQuests(d: CharacterData, cat: QuestCatalog): seq<Quest> {
    QuestsOf(d.activeQuests, cat)
  }

  /** `get_completed_quests`. */
  function CompletedQuests(d: CharacterData, cat: QuestCatalog): seq<Quest> {
    QuestsOf(d.completedQuests, cat)
  }

  /**
    The lookup keeps only catalog quests, never yields more quests than
    ids, and where every id is in the catalog it is the catalog entry of
    each id in turn.
   */
  lemma {:induction false} QuestsOfSpec(ids: seq<string>, cat: QuestCatalog)
    ensures |QuestsOf(ids, cat)| <= |ids|
    ensures forall q :: q in QuestsOf(ids, cat) ==> q in cat.entries.Values
    ensures (forall i :: 0 <= i < |ids| ==> ids[i] in cat.entries) ==>
      |QuestsOf(ids, cat)| == |ids| && forall i :: 0 <= i < |ids| ==> QuestsOf(ids, cat)[i] == cat.entries[ids[i]]
  {
    if ids != [] {
      var init := ids[..|ids| - 1];
      QuestsOfSpec(init, cat);
      assert forall i :: 0 <= i < |init| ==> init[i] == ids[i];
    }
  }

  /** The ids of `keys`, in order, that `can_accept_quest` admits. */
  function AvailableIds(d: CharacterData, keys: seq<string>, cat: QuestCatalog): seq<string> {
    if keys == [] then []
    else
      var last := keys[|keys| - 1];
      AvailableIds(d, keys[..|keys| - 1], cat) + if CanAccept(d, last, cat) then [last] else []
  }

  /** The catalog entries of a list of catalog ids. */
  function Lookup(ids: seq<string>, cat: QuestCatalog): (qs: seq<Quest>)
    requires forall i :: 0 <= i < |ids| ==> ids[i] in cat.entries
    ensures |qs| == |ids|
  {
    seq(|ids|, i requires 0 <= i < |ids| => cat.entries[ids[i]])
  }

  /**
    The available ids are exactly the catalog keys that can be accepted,
    each once; so none of them is active or completed.
   */
  lemma {:induction false} AvailableIdsSpec(d: CharacterData, keys: seq<string>, cat: QuestCatalog)
    requires NoDuplicates(keys)
    ensures forall k :: k in AvailableIds(d, keys, cat) <==> k in keys && CanAccept(d, k, cat)
    ensures NoDuplicates(AvailableIds(d, keys, cat))
    ensures forall k :: k in AvailableIds(d, keys, cat) ==> !IsQuestActive(d, k) && !IsQuestCompleted(d, k)
  {
    if keys != [] {
      var init := keys[..|keys| - 1];
      var last := keys[|keys| - 1];
      assert keys == init + [last];
      assert NoDuplicates(init) by {
        forall i, j | 0 <= i < j < |init| ensures init[i] != init[j] {
          assert init[i] == keys[i] && init[j] == keys[j];
        }
      }
      assert last !in init by {
        forall i | 0 <= i < |init| ensures init[i] != last {
          assert init[i] == keys[i];
        }
      }
      AvailableIdsSpec(d, init, cat);
      var ids := AvailableIds(d, init, cat);
      var all := AvailableIds(d, keys, cat);
      assert all == ids + if CanAccept(d, last, cat) then [last] else [];
      forall i, j | 0 <= i < j < |all| ensures all[i] != all[j] {
        if j == |ids| {
          assert all[i] in ids;
        }
      }
    }
  }

  /** `get_available_quests`: the catalog, in its order, filtered by `can_accept_quest`. */
  method GetAvailableQuests(c: Character, cat: QuestCatalog) returns (available: seq<Quest>)
    ensures forall k :: k in AvailableIds(c.Data(), cat.order, cat) ==> k in cat.entries
    ensures available == Lookup(AvailableIds(c.Data(), cat.order, cat), cat)
  {
    ghost var d := c.Data();
    available := [];
    ghost var ids: seq<string> := [];
    var i := 0;
    while i < |cat.order|
      invariant 0 <= i <= |cat.order|
      invariant ids == AvailableIds(d, cat.order[..i], cat)
      invariant forall j :: 0 <= j < |ids| ==> ids[j] in cat.entries
      invariant available == Lookup(ids, cat)
    {
      var questId := cat.order[i];
      assert cat.order[..i + 1][..i] == cat.order[..i];
      if CanAccept(c.Data(), questId, cat) {
        available := available + [cat.entries[questId]];
        ids := ids + [questId];
      }
      i := i + 1;
    }
    assert cat.order[..i] == cat.order;
    AvailableIdsSpec(d, cat.order, cat);
  }

  /** The quests of a list, in order, whose required level lies in the range. */
  function FilterByLevel(quests: seq<Quest>, minLevel: int, maxLevel: int): seq<Quest> {
    if quests == [] then []
    else
      var last := quests[|quests| - 1];
      FilterByLevel(quests[..|quests| - 1], minLevel, maxLevel)
        + if minLevel <= last.requiredLevel <= maxLevel then [last] else []
  }

  lemma {:induction false} FilterByLevelSpec(quests: seq<Quest>, minLevel: int, maxLevel: int)
    ensures forall q :: q in FilterByLevel(quests, minLevel, maxLevel) <==> q in quests && minLevel <= q.requiredLevel <= maxLevel
    ensures |FilterByLevel(quests, minLevel, maxLevel)| <= |quests|
  {
    if quests != [] {
      var init := quests[..|quests| - 1];
      assert quests == init + [quests[|quests| - 1]];
      FilterByLevelSpec(init, minLevel, maxLevel);
    }
  }

  /** `get_quests_by_level`: the catalog's quests, in catalog order, whose required level lies in the range. */
  function QuestsByLevel(cat: QuestCatalog, minLevel: int, maxLevel: int): seq<Quest> {
    FilterByLevel(Values(cat), minLevel, maxLevel)
  }

  /** The level filter keeps exactly the catalog's quests in range, and no more of them than the catalog holds. */
  lemma QuestsByLevelSpec(cat: QuestCatalog, minLevel: int, maxLevel: int)
    ensures forall q :: q in QuestsByLevel(cat, minLevel, maxLevel) <==>
      q in cat.entries.Values && minLevel <= q.requiredLevel <= maxLevel
    ensures |QuestsByLevel(cat, minLevel, maxLevel)| <= |cat.order|
  {
    FilterByLevelSpec(Values(cat), minLevel, maxLevel);
    ValuesAreEntries(cat);
  }

  // ----------------------------------------------------------------- rewards

  /** The reward totals of a list of quests. */
  function SumRewards(quests: seq<Quest>): Rewards {
    if quests == [] then Rewards(0, 0)
    else
      var total := SumRewards(quests[..|quests| - 1]);
      var last := quests[|quests| - 1];
      Rewards(total.xp + last.rewardXp, total.gold + last.rewardGold)
  }

  /** `get_total_quest_rewards_earned`: the rewards of the completed quests found in the catalog. */
  method TotalQuestRewards(c: Character, cat: QuestCatalog) returns (total: Rewards)
    ensures total == SumRewards(CompletedQuests(c.Data(), cat))
  {
    var quests := CompletedQuests(c.Data(), cat);
    var totalXp, totalGold := 0, 0;
    var i := 0;
    while i < |quests|
      invariant 0 <= i <= |quests|
      invariant Rewards(totalXp, totalGold) == SumRewards(quests[..i])
    {
      assert quests[..i + 1][..i] == quests[..i];
      totalXp := totalXp + quests[i].rewardXp;
      totalGold := totalGold + quests[i].rewardGold;
      i := i + 1;
    }
    assert quests[..i] == quests;
    return Rewards(totalXp, totalGold);
  }

  /** Completing a catalog quest adds exactly its rewards to the total earned. */
  lemma CompleteAddsRewards(d: CharacterData, questId: string, cat: QuestCatalog)
    requires CompleteOutcome(d, questId, cat).Success?
    ensures var before, after, gained := SumRewards(CompletedQuests(d, cat)), SumRewards(CompletedQuests(Completed(d, questId), cat)), CompleteOutcome(d, questId, cat).value;
      after == Rewards(before.xp + gained.xp, before.gold + gained.gold)
  {
    var ids := d.completedQuests + [questId];
    assert ids[..|ids| - 1] == d.completedQuests;
    assert QuestsOf(ids, cat) == QuestsOf(d.completedQuests, cat) + [cat.entries[questId]];
  }

  /** Quests whose rewards are non-negative never add up to a negative total. */
  lemma {:induction false} SumRewardsNonNegative(quests: seq<Quest>)
    requires forall i :: 0 <= i < |quests| ==> quests[i].rewardXp >= 0 && quests[i].rewardGold >= 0
    ensures SumRewards(quests).xp >= 0 && SumRewards(quests).gold >= 0
  {
    if quests != [] {
      var init := quests[..|quests| - 1];
      assert forall i :: 0 <= i < |init| ==> init[i] == quests[i];
      SumRewardsNonNegative(init);
    }
  }

  // ------------------------------------------------------- prerequisite chain

  /**
    `chain` is the prerequisite chain of `questId`: catalog quests, each
    once, the first with no prerequisite, each later one requiring the one
    before it, and the last being `questId` itself (empty for `"NONE"`).
   */
  ghost predicate IsPrereqChain(chain: seq<string>, questId: string, cat: QuestCatalog) {
    && NoDuplicates(chain)
    && (forall i :: 0 <= i < |chain| ==> chain[i] in cat.entries && chain[i] != NoPrerequisite)
    && (questId == NoPrerequisite ==> chain == [])
    && (questId != NoPrerequisite ==> chain != [] && chain[|chain| - 1] == questId)
    && (chain != [] ==> cat.entries[chain[0]].prerequisite == NoPrerequisite)
    && (forall i :: 0 < i < |chain| ==> cat.entries[chain[i]].prerequisite == chain[i - 1])
  }

  /** The prerequisite of a catalog quest. */
  function PrereqOf(questId: string, cat: QuestCatalog): string
    requires questId in cat.entries
  {
    cat.entries[questId].prerequisite
  }

  /** The walk of the chain loop so far: `questId`, its prerequisite, that one's, and so on. */
  ghost predicate Walked(walk: seq<string>, questId: string, cat: QuestCatalog) {
    && walk != [] && walk[0] == questId
    && NoDuplicates(walk)
    && (forall j :: 0 <= j < |walk| ==> walk[j] in cat.entries && walk[j] != NoPrerequisite)
    && (forall j :: 0 < j < |walk| ==> walk[j] == PrereqOf(walk[j - 1], cat))
  }

  /** Every chain, read backwards, starts with the walk. */
  lemma {:induction false} WalkFollowsChain(walk: seq<string>, chain: seq<string>, questId: string, cat: QuestCatalog)
    requires Walked(walk, questId, cat) && IsPrereqChain(chain, questId, cat)
    ensures |walk| <= |chain|
    ensures forall j :: 0 <= j < |walk| ==> walk[j] == chain[|chain| - 1 - j]
  {
    if |walk| > 1 {
      var init := walk[..|walk| - 1];
      assert Walked(init, questId, cat);
      WalkFollowsChain(init, chain, questId, cat);
      assert init[|init| - 1] == walk[|init| - 1] && walk[|init|] == PrereqOf(walk[|init| - 1], cat);
      ChainExtendsWalk(init, chain, questId, cat);
    }
  }

  /** Where the walk has not reached `"NONE"` yet, every chain holds the walk's next step. */
  lemma ChainExtendsWalk(walk: seq<string>, chain: seq<string>, questId: string, cat: QuestCatalog)
    requires Walked(walk, questId, cat) && IsPrereqChain(chain, questId, cat)
    requires |walk| <= |chain| && forall j :: 0 <= j < |walk| ==> walk[j] == chain[|chain| - 1 - j]
    requires PrereqOf(walk[|walk| - 1], cat) != NoPrerequisite
    ensures |walk| < |chain| && chain[|chain| - 1 - |walk|] == PrereqOf(walk[|walk| - 1], cat)
  {
    var n := |walk|;
    assert walk[n - 1] == chain[|chain| - n];
    assert n < |chain|;
    assert chain[|chain| - 1 - n] == PrereqOf(chain[|chain| - n], cat);
  }

  /** A walk that reaches an id missing from the catalog rules out every chain. */
  lemma NoChainWhenBroken(walk: seq<string>, questId: string, cat: QuestCatalog)
    requires Walked(walk, questId, cat)
    requires PrereqOf(walk[|walk| - 1], cat) != NoPrerequisite && PrereqOf(walk[|walk| - 1], cat) !in cat.entries
    ensures forall chain :: !IsPrereqChain(chain, questId, cat)
  {
    forall chain | IsPrereqChain(chain, questId, cat) ensures false {
      WalkFollowsChain(walk, chain, questId, cat);
      ChainExtendsWalk(walk, chain, questId, cat);
    }
  }

  /** A walk that comes back to an id it has already visited rules out every chain. */
  lemma NoChainWhenCircular(walk: seq<string>, questId: string, cat: QuestCatalog)
    requires Walked(walk, questId, cat)
    requires PrereqOf(walk[|walk| - 1], cat) != NoPrerequisite && PrereqOf(walk[|walk| - 1], cat) in walk
    ensures forall chain :: !IsPrereqChain(chain, questId, cat)
  {
    forall chain | IsPrereqChain(chain, questId, cat) ensures false {
      WalkFollowsChain(walk, chain, questId, cat);
      ChainExtendsWalk(walk, chain, questId, cat);
    }
  }

  /** A walk that ends at a quest with no prerequisite is the chain, backwards. */
  lemma WalkIsChain(walk: seq<string>, questId: string, cat: QuestCatalog)
    requires Walked(walk, questId, cat) && PrereqOf(walk[|walk| - 1], cat) == NoPrerequisite
    ensures IsPrereqChain(Reverse(walk), questId, cat)
  {
    var chain := Reverse(walk);
    forall i, j | 0 <= i < j < |chain| ensures chain[i] != chain[j] {
      assert chain[i] == walk[|walk| - 1 - i] && chain[j] == walk[|walk| - 1 - j];
    }
    forall i | 0 < i < |chain| ensures PrereqOf(chain[i], cat) == chain[i - 1] {
      assert chain[i - 1] == walk[|walk| - i];
    }
  }

  /**
    `get_quest_prerequisite_chain`: follow the prerequisites back from
    `questId` until `"NONE"`, failing at an id missing from the catalog or
    at an id seen before, and return the walk reversed. It succeeds exactly
    when the quest has a chain, and then returns it.
   */
  method GetQuestPrerequisiteChain(questId: string, cat: QuestCatalog) returns (r: Result<seq<string>>)
    ensures questId !in cat.entries ==> r == Failure(QuestNotFound(questId))
    ensures r.Success? ==> IsPrereqChain(r.value, questId, cat)
    ensures r.Failure? && questId in cat.entries ==>
      && (r.error.BrokenChain? || r.error.CircularDependency?)
      && forall chain :: !IsPrereqChain(chain, questId, cat)
  {
    if questId !in cat.entries {
      return Failure(QuestNotFound(questId));
    }
    var chain: seq<string> := [];
    var current := questId;
    while current != NoPrerequisite
      invariant chain == [] ==> current == questId
      invariant chain != [] ==> Walked(chain, questId, cat) && current == PrereqOf(chain[|chain| - 1], cat)
      invariant current != NoPrerequisite ==> current !in chain
      invariant |chain| <= |cat.entries.Keys|
      decreases |cat.entries.Keys| - |chain|
    {
      if current !in cat.entries {
        NoChainWhenBroken(chain, questId, cat);
        return Failure(BrokenChain(current));
      }
      var quest := cat.entries[current];
      chain := chain + [current];
      NoDuplicatesBounded(chain, cat.entries.Keys);
      current := quest.prerequisite;
      if current in chain && current != NoPrerequisite {
        NoChainWhenCircular(chain, questId, cat);
        return Failure(CircularDependency(current));
      }
    }
    if chain != [] {
      WalkIsChain(chain, questId, cat);
    }
    return Success(Reverse(chain));
  }

  // -------------------------------------------------------------- validation

  /** The first quest, in catalog order, whose prerequisite is neither `"NONE"` nor in the catalog. */
  function FirstMissingPrerequisite(keys: seq<string>, cat: QuestCatalog): (r: Option<string>)
    requires forall k :: k in keys ==> k in cat.entries
    ensures r.Some? ==> r.value in keys
  {
    if keys == [] then None
    else
      var prerequisite := PrereqOf(keys[0], cat);
      if prerequisite != NoPrerequisite && prerequisite !in cat.entries then Some(keys[0])
      else FirstMissingPrerequisite(keys[1..], cat)
  }

  /** `validate_quest_prerequisites`: the first quest whose prerequisite does not exist is reported. */
  function ValidateQuestPrerequisites(cat: QuestCatalog): Result<bool> {
    match FirstMissingPrerequisite(cat.order, cat)
    case None => Success(true)
    case Some(questId) => Failure(MissingPrerequisite(questId, PrereqOf(questId, cat)))
  }

  /** The search finds a quest with a missing prerequisite exactly when there is one, and no earlier one. */
  lemma {:induction false} FirstMissingSpec(keys: seq<string>, cat: QuestCatalog)
    requires forall k :: k in keys ==> k in cat.entries
    ensures FirstMissingPrerequisite(keys, cat).None? <==>
      forall i :: 0 <= i < |keys| ==> PrereqOf(keys[i], cat) == NoPrerequisite || PrereqOf(keys[i], cat) in cat.entries
    ensures FirstMissingPrerequisite(keys, cat).Some? ==>
      exists i :: 0 <= i < |keys| && keys[i] == FirstMissingPrerequisite(keys, cat).value
        && (forall j :: 0 <= j < i ==> PrereqOf(keys[j], cat) == NoPrerequisite || PrereqOf(keys[j], cat) in cat.entries)
    ensures FirstMissingPrerequisite(keys, cat).Some? ==>
      var q := FirstMissingPrerequisite(keys, cat).value;
      PrereqOf(q, cat) != NoPrerequisite && PrereqOf(q, cat) !in cat.entries
  {
    if keys != [] {
      FirstMissingSpec(keys[1..], cat);
      if FirstMissingPrerequisite(keys, cat).Some? && FirstMissingPrerequisite(keys, cat) == FirstMissingPrerequisite(keys[1..], cat) {
        var i :| 0 <= i < |keys[1..]| && keys[1..][i] == FirstMissingPrerequisite(keys, cat).value
          && (forall j :: 0 <= j < i ==> PrereqOf(keys[1..][j], cat) == NoPrerequisite || PrereqOf(keys[1..][j], cat) in cat.entries);
        assert keys[i + 1] == keys[1..][i];
      }
    }
  }

  /**
    The check passes exactly when every prerequisite named in the catalog
    is `"NONE"` or a catalog quest; a failure names a quest whose
    prerequisite is missing.
   */
  lemma ValidatePrerequisitesSpec(cat: QuestCatalog)
    ensures ValidateQuestPrerequisites(cat).Success? <==>
      forall k :: k in cat.entries ==> PrereqOf(k, cat) == NoPrerequisite || PrereqOf(k, cat) in cat.entries
    ensures ValidateQuestPrerequisites(cat).Failure? ==>
      var e := ValidateQuestPrerequisites(cat).error;
      e.MissingPrerequisite? && e.questId in cat.entries && e.prerequisite == PrereqOf(e.questId, cat)
      && e.prerequisite != NoPrerequisite && e.prerequisite !in cat.entries
  {
    FirstMissingSpec(cat.order, cat);
    if ValidateQuestPrerequisites(cat).Success? {
      forall k | k in cat.entries ensures PrereqOf(k, cat) == NoPrerequisite || PrereqOf(k, cat) in cat.entries {
        var i :| 0 <= i < |cat.order| && cat.order[i] == k;
      }
    }
  }
}
