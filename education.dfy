/**
 * The education quest registry: quests with grace rewards, each player's
 * list of completed quests, and the grace a player earned from them.
 */
module Education {
  import opened Wrappers

  type PlayerId = string
  type QuestId = nat

  datatype QuestCategory = Science | Sustainability | Empathy | CriticalThinking | ArtCreativity | HistoryWisdom

  datatype EducationQuest = EducationQuest(
    id: QuestId,
    title: string,
    description: string,
    category: QuestCategory,
    difficulty: nat,
    graceReward: nat,
    completedBy: seq<PlayerId>)

  // The catalogue that `initialize_quests` registers.
  const BREATH_OF_LIFE_TITLE: string := "The Breath of Life"
  const BREATH_OF_LIFE_TEXT: string :=
    "Learn diaphragmatic breathing and its effects on nervous system regulation. Practice 10 mindful breaths."
  const WATER_IS_LIFE_TITLE: string := "Water is Life"
  const WATER_IS_LIFE_TEXT: string :=
    "Study local water cycles and design a simple rainwater collection system. Share your blueprint."
  const STELLAR_NAVIGATION_TITLE: string := "Stellar Navigation"
  const STELLAR_NAVIGATION_TEXT: string :=
    "Identify 5 constellations and explain how ancient cultures used them for timekeeping."
  const ART_OF_LISTENING_TITLE: string := "The Art of Listening"
  const ART_OF_LISTENING_TEXT: string :=
    "Practice active listening in 3 conversations. Reflect on what you learned about the speaker."
  const ZERO_WASTE_TITLE: string := "Zero Waste Challenge"
  const ZERO_WASTE_TEXT: string :=
    "Track your waste for 7 days and propose 3 practical reductions for your community."

  /** The quests a player completed, empty when the player has no record. */
  function ProgressOf(progress: map<PlayerId, seq<QuestId>>, player: PlayerId): seq<QuestId>
  {
    if player in progress then progress[player] else []
  }

  /** The sum of the rewards of the listed quests that exist. */
  function RewardSum(quests: map<QuestId, EducationQuest>, ids: seq<QuestId>): nat
    decreases |ids|
  {
    if ids == [] then 0
    else
      var last := ids[|ids| - 1];
      RewardSum(quests, ids[..|ids| - 1]) + (if last in quests then quests[last].graceReward else 0)
  }

  /** One more completed quest adds its reward to the sum. */
  lemma RewardSumAppend(quests: map<QuestId, EducationQuest>, ids: seq<QuestId>, id: QuestId)
    requires id in quests
    ensures RewardSum(quests, ids + [id]) == RewardSum(quests, ids) + quests[id].graceReward
  {
    assert (ids + [id])[..|ids|] == ids;
  }

  /** The sum reads only the rewards: recording who completed a quest does not change it. */
  lemma {:induction false} RewardSumReadsRewards(q1: map<QuestId, EducationQuest>, q2: map<QuestId, EducationQuest>, ids: seq<QuestId>)
    requires q1.Keys == q2.Keys
    requires forall id :: id in q1 ==> q1[id].graceReward == q2[id].graceReward
    ensures RewardSum(q1, ids) == RewardSum(q2, ids)
    decreases |ids|
  {
    if ids != [] {
      RewardSumReadsRewards(q1, q2, ids[..|ids| - 1]);
    }
  }

  /** The sum over quests 1 and 2 of the catalogue. */
  lemma ExampleEducationGrace(quests: map<QuestId, EducationQuest>)
    requires 1 in quests && 2 in quests
    requires quests[1].graceReward == 100 && quests[2].graceReward == 300
    ensures RewardSum(quests, [1, 2]) == 400
  {
    assert [1, 2][..1] == [1];
    assert [1][..0] == [];
  }

  ghost predicate NoDuplicates(ids: seq<QuestId>)
  {
    forall i, j :: 0 <= i < j < |ids| ==> ids[i] != ids[j]
  }

  /** Progress lists hold existing quests, each at most once. */
  ghost predicate ProgressValid(quests: map<QuestId, EducationQuest>, progress: map<PlayerId, seq<QuestId>>)
  {
    && (forall p :: p in progress ==> NoDuplicates(progress[p]))
    && (forall p, k :: p in progress && 0 <= k < |progress[p]| ==> progress[p][k] in quests)
  }

  /**
   * A completion of a quest not yet in the player's list keeps the progress
   * well formed, raises that player's sum by the quest's reward, and leaves
   * every other player's sum alone.
   */
  lemma CompletionEffect(
    quests: map<QuestId, EducationQuest>, progress: map<PlayerId, seq<QuestId>>,
    player: PlayerId, questId: QuestId)
    requires ProgressValid(quests, progress)
    requires questId in quests && questId !in ProgressOf(progress, player)
    ensures var q := quests[questId];
      var quests' := quests[questId := q.(completedBy := q.completedBy + [player])];
      var progress' := progress[player := ProgressOf(progress, player) + [questId]];
      && ProgressValid(quests', progress')
      && RewardSum(quests', ProgressOf(progress', player)) == RewardSum(quests, ProgressOf(progress, player)) + q.graceReward
      && forall p :: p != player ==> RewardSum(quests', ProgressOf(progress', p)) == RewardSum(quests, ProgressOf(progress, p))
  {
    var q := quests[questId];
    var quests' := quests[questId := q.(completedBy := q.completedBy + [player])];
    var progress' := progress[player := ProgressOf(progress, player) + [questId]];
    var old_ := ProgressOf(progress, player);
    RewardSumAppend(quests, old_, questId);
    RewardSumReadsRewards(quests, quests', old_ + [questId]);
    forall p | p != player
      ensures RewardSum(quests', ProgressOf(progress', p)) == RewardSum(quests, ProgressOf(progress, p))
    {
      RewardSumReadsRewards(quests, quests', ProgressOf(progress, p));
    }
    assert NoDuplicates(old_ + [questId]) by {
      forall i, j | 0 <= i < j < |old_ + [questId]|
        ensures (old_ + [questId])[i] != (old_ + [questId])[j]
      {
        if j == |old_| {
          assert (old_ + [questId])[i] == old_[i];
        }
      }
    }
  }

  class QuestSystem {
    var quests: map<QuestId, EducationQuest>
    var playerProgress: map<PlayerId, seq<QuestId>>
    var nextId: QuestId

    /**
     * Each quest is stored under its own id, below the counter; progress
     * lists hold existing quests, each at most once.
     */
    ghost predicate Valid()
      reads this
    {
      && nextId >= 1
      && (forall id :: id in quests ==> 1 <= id < nextId && quests[id].id == id)
      && ProgressValid(quests, playerProgress)
    }

    /** `QuestSystem::new`: the five catalogue quests under ids 1 to 5. */
    constructor ()
      ensures Valid()
      ensures quests.Keys == {1, 2, 3, 4, 5} && nextId == 6 && playerProgress == map[]
      ensures quests[1].graceReward == 100 && quests[2].graceReward == 300 && quests[3].graceReward == 250
      ensures quests[4].graceReward == 500 && quests[5].graceReward == 600
      ensures forall id :: id in quests ==> quests[id].completedBy == []
    {
      quests := map[];
      playerProgress := map[];
      nextId := 1;
      new;
      AddQuest(BREATH_OF_LIFE_TITLE, BREATH_OF_LIFE_TEXT, Empathy, 1, 100);
      AddQuest(WATER_IS_LIFE_TITLE, WATER_IS_LIFE_TEXT, Sustainability, 2, 300);
      AddQuest(STELLAR_NAVIGATION_TITLE, STELLAR_NAVIGATION_TEXT, Science, 2, 250);
      AddQuest(ART_OF_LISTENING_TITLE, ART_OF_LISTENING_TEXT, Empathy, 3, 500);
      AddQuest(ZERO_WASTE_TITLE, ZERO_WASTE_TEXT, Sustainability, 3, 600);
    }

    /** `add_quest`: the quest takes the counter's id, which no quest had, and the counter moves on. */
    method AddQuest(title: string, desc: string, cat: QuestCategory, diff: nat, reward: nat)
      requires Valid()
      modifies this`quests, this`nextId
      ensures Valid()
      ensures old(nextId) !in old(quests)
      ensures quests == old(quests)[old(nextId) := EducationQuest(old(nextId), title, desc, cat, diff, reward, [])]
      ensures nextId == old(nextId) + 1
    {
      var quest := EducationQuest(nextId, title, desc, cat, diff, reward, []);
      quests := quests[nextId := quest];
      nextId := nextId + 1;
    }

    /** `player_grace_from_quests`: the rewards of the player's completed quests. */
    function PlayerGraceFromQuests(player: PlayerId): (g: nat)
      reads this
      ensures player !in playerProgress ==> g == 0
    {
      RewardSum(quests, ProgressOf(playerProgress, player))
    }

    /**
     * `complete_quest`: refuses an unknown quest and a repeat completion
     * without changing anything; otherwise records the completion on both
     * sides and yields the reward.
     */
    method CompleteQuest(player: PlayerId, questId: QuestId) returns (r: Result<nat, string>)
      requires Valid()
      modifies this`quests, this`playerProgress
      ensures Valid()
      ensures questId !in old(quests) ==>
        r == Failure("Quest not found") && quests == old(quests) && playerProgress == old(playerProgress)
      ensures questId in old(quests) && questId in ProgressOf(old(playerProgress), player) ==>
        r == Failure("Quest already completed") && quests == old(quests) && playerProgress == old(playerProgress)
      ensures questId in old(quests) && questId !in ProgressOf(old(playerProgress), player) ==>
        var q := old(quests)[questId];
        && r == Success(q.graceReward)
        && playerProgress == old(playerProgress)[player := ProgressOf(old(playerProgress), player) + [questId]]
        && quests == old(quests)[questId := q.(completedBy := q.completedBy + [player])]
      ensures r.Success? ==> PlayerGraceFromQuests(player) == old(PlayerGraceFromQuests(player)) + r.value
      ensures forall p :: p != player ==> PlayerGraceFromQuests(p) == old(PlayerGraceFromQuests(p))
    {
      if questId in quests {
        var quest := quests[questId];
        var progress := if player in playerProgress then playerProgress[player] else [];
        if questId in progress {
          return Failure("Quest already completed");
        }
        CompletionEffect(quests, playerProgress, player, questId);
        playerProgress := playerProgress[player := progress + [questId]];
        quests := quests[questId := quest.(completedBy := quest.completedBy + [player])];
        r := Success(quest.graceReward);
      } else {
        r := Failure("Quest not found");
      }
    }
  }
}
