/** The learning journey: three levels unlocked by total XP, the quests of
    each level, whether a quest can be started, and the achievements count. */
module LearningJourney {
  import opened Common

  datatype Level = Level(id: string, number: nat, xpRequired: nat)

  datatype QuestEntry = QuestEntry(id: string, level: string, xpReward: nat, completed: bool)

  datatype Achievement = Achievement(id: string, earned: bool)

  /** The journey's starting XP; nothing on the page changes it. */
  const InitialXp := 1250

  const Levels: seq<Level> := [
    Level("beginner", 1, 0),
    Level("intermediate", 2, 2000),
    Level("advanced", 3, 5000)
  ]

  /** The `unlocked` flag each level is built with. */
  function UnlockedAt(i: nat, totalXp: nat): bool
    requires i < |Levels|
  {
    if i == 0 then true else if i == 1 then totalXp >= 2000 else totalXp >= 5000
  }

  /** The unlock rule agrees with each level's displayed XP requirement, so
      unlocking is monotone in XP. */
  lemma UnlockMatchesRequirement(i: nat, xp: nat, more: nat)
    requires i < |Levels| && xp <= more
    ensures UnlockedAt(i, xp) <==> xp >= Levels[i].xpRequired
    ensures UnlockedAt(i, xp) ==> UnlockedAt(i, more)
  {
  }

  const Quests: seq<QuestEntry> := [
    QuestEntry("debate-basics", "beginner", 150, true),
    QuestEntry("argument-builder", "beginner", 200, true),
    QuestEntry("fallacy-hunter", "beginner", 250, false),
    QuestEntry("rebuttal-master", "intermediate", 300, false),
    QuestEntry("format-specialist", "intermediate", 400, false),
    QuestEntry("strategy-tactician", "advanced", 500, false)
  ]

  const Achievements: seq<Achievement> := [
    Achievement("first-quest", true),
    Achievement("fallacy-hunter", true),
    Achievement("argument-master", false),
    Achievement("rebuttal-king", false),
    Achievement("logic-champion", false)
  ]

  function LevelIds(levels: seq<Level>): seq<string> {
    if levels == [] then [] else [levels[0].id] + LevelIds(levels[1..])
  }

  function QuestIds(quests: seq<QuestEntry>): seq<string> {
    if quests == [] then [] else [quests[0].id] + QuestIds(quests[1..])
  }

  predicate KnownLevel(q: QuestEntry) {
    q.level == "beginner" || q.level == "intermediate" || q.level == "advanced"
  }

  /** Every quest belongs to one of the three levels, and quest ids and
      level ids are distinct. */
  lemma DataWellFormed()
    ensures forall i :: 0 <= i < |Quests| ==> KnownLevel(Quests[i])
    ensures Distinct(QuestIds(Quests))
    ensures Distinct(LevelIds(Levels))
  {
  }

  /** `levels.find(l => l.id === id)`, as the index of the first match. */
  function FindLevel(id: string, from: nat): (r: Option<nat>)
    requires from <= |Levels|
    ensures r.Some? ==> from <= r.value < |Levels| && Levels[r.value].id == id
                        && forall j :: from <= j < r.value ==> Levels[j].id != id
    ensures r.None? ==> forall j :: from <= j < |Levels| ==> Levels[j].id != id
    decreases |Levels| - from
  {
    if from == |Levels| then None
    else if Levels[from].id == id then Some(from)
    else FindLevel(id, from + 1)
  }

  /** `isQuestUnlocked`: the quest's level exists and is unlocked. */
  function IsQuestUnlocked(q: QuestEntry, totalXp: nat): bool {
    match FindLevel(q.level, 0)
      case Some(i) => UnlockedAt(i, totalXp)
      case None => false
  }

  /** A quest can be started iff some level carries its level id and the XP
      reaches that level's requirement; a quest of an unknown level never can. */
  lemma QuestUnlockedIff(q: QuestEntry, totalXp: nat)
    ensures IsQuestUnlocked(q, totalXp) <==>
              exists i :: 0 <= i < |Levels| && Levels[i].id == q.level && totalXp >= Levels[i].xpRequired
    ensures !KnownLevel(q) ==> !IsQuestUnlocked(q, totalXp)
  {
    var r := FindLevel(q.level, 0);
    if IsQuestUnlocked(q, totalXp) {
      assert Levels[r.value].id == q.level;
    }
  }

  /** With the journey's starting 1250 XP exactly the beginner quests can be started. */
  lemma InitialUnlocks(q: QuestEntry)
    ensures IsQuestUnlocked(q, InitialXp) <==> q.level == "beginner"
  {
    QuestUnlockedIff(q, InitialXp);
    if q.level == "beginner" {
      assert Levels[0].id == q.level;
    }
  }

  /** `getQuestsByLevel(id)`. */
  function QuestsByLevel(id: string): seq<QuestEntry> {
    Filter(Quests, (q: QuestEntry) => q.level == id)
  }

  /** The quests of a level are exactly those with that level id, in their
      original order. */
  lemma QuestsByLevelFacts(id: string)
    ensures forall q :: q in QuestsByLevel(id) <==> q in Quests && q.level == id
    ensures IsSubsequence(QuestsByLevel(id), Quests)
  {
    FilterSubsequence(Quests, (q: QuestEntry) => q.level == id);
  }

  /** When every quest has a known level, the three level lists together
      hold every quest once. */
  lemma {:induction false} LevelsPartition(quests: seq<QuestEntry>)
    requires forall i :: 0 <= i < |quests| ==> KnownLevel(quests[i])
    ensures |Filter(quests, (q: QuestEntry) => q.level == "beginner")|
          + |Filter(quests, (q: QuestEntry) => q.level == "intermediate")|
          + |Filter(quests, (q: QuestEntry) => q.level == "advanced")| == |quests|
  {
    if quests != [] {
      LevelsPartition(quests[1..]);
    }
  }

  /** The achievements badge: the number of earned achievements. */
  function EarnedCount(achievements: seq<Achievement>): nat {
    |Filter(achievements, (a: Achievement) => a.earned)|
  }

  /** Two of the five achievements are earned. */
  lemma EarnedShown()
    ensures EarnedCount(Achievements) == 2
  {
    assert Achievements[2..][1..] == Achievements[3..];
  }
}
