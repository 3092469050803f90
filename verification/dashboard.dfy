/** The dashboard's view machine: the learning journey, a running quest and
    its completion screen, with the quest results held between the last two.
    The random score and badge of a completed quest are parameters. */
module Dashboard {
  import opened Common
  import QuestCompletion

  datatype View = DashboardView | LearningJourneyView | QuestView | CompletionView

  datatype QuestResults = QuestResults(questTitle: string, xpEarned: nat, score: nat, newAchievements: seq<string>)

  /** What is on screen. */
  datatype Screen = QuestScreen(questId: string) | CompletionScreen(results: QuestResults) | JourneyScreen | HomeScreen

  /** The titles the completion screen knows. */
  function QuestTitle(id: Option<string>): (title: string)
    ensures id == Some("fallacy-hunter") ==> title == "Fallacy Detective"
    ensures id == Some("argument-builder") ==> title == "Argument Architect"
    ensures id == Some("rebuttal-master") ==> title == "Rebuttal Workshop"
    ensures id != Some("fallacy-hunter") && id != Some("argument-builder") && id != Some("rebuttal-master")
            ==> title == "Unknown Quest"
  {
    var titles := map["fallacy-hunter" := "Fallacy Detective",
                      "argument-builder" := "Argument Architect",
                      "rebuttal-master" := "Rebuttal Workshop"];
    var key := if id.Some? then id.value else "";
    if key in titles then titles[key] else "Unknown Quest"
  }

  class Board {
    var currentView: View
    var activeQuest: Option<string>
    var questResults: Option<QuestResults>

    constructor ()
      ensures currentView == DashboardView && activeQuest == None && questResults == None
    {
      currentView := DashboardView;
      activeQuest := None;
      questResults := None;
    }

    /** `handleStartQuest`. */
    method StartQuest(questId: string)
      modifies this
      ensures activeQuest == Some(questId) && currentView == QuestView
      ensures questResults == old(questResults)
    {
      activeQuest := Some(questId);
      currentView := QuestView;
    }

    /** `handleQuestComplete`: `roll` stands for `Math.floor(Math.random() * 40)`
        and `badge` for `Math.random() > 0.5`. */
    method QuestComplete(xpEarned: nat, roll: nat, badge: bool)
      requires roll < 40
      modifies this
      ensures currentView == CompletionView && activeQuest == old(activeQuest)
      ensures questResults.Some?
      ensures questResults.value.questTitle == QuestTitle(old(activeQuest))
      ensures questResults.value.xpEarned == xpEarned
      ensures 60 <= questResults.value.score <= 99
      ensures questResults.value.newAchievements == if badge then ["Logic Champion"] else []
    {
      questResults := Some(QuestResults(QuestTitle(activeQuest), xpEarned, roll + 60,
                                        if badge then ["Logic Champion"] else []));
      currentView := CompletionView;
    }

    /** `handleBackToDashboard`. */
    method BackToDashboard()
      modifies this
      ensures currentView == DashboardView && activeQuest == None && questResults == None
    {
      currentView := DashboardView;
      activeQuest := None;
      questResults := None;
    }

    /** `handleBackToJourney`: only the view changes. */
    method BackToJourney()
      modifies this
      ensures currentView == LearningJourneyView
      ensures activeQuest == old(activeQuest) && questResults == old(questResults)
    {
      currentView := LearningJourneyView;
    }

    /** The render guards, in order; an empty quest id is falsy and falls through. */
    function Render(): (s: Screen)
      reads this
      ensures s.QuestScreen? <==> currentView == QuestView && activeQuest.Some? && activeQuest.value != ""
      ensures s.CompletionScreen? ==> currentView == CompletionView && questResults == Some(s.results)
      ensures s.JourneyScreen? ==> currentView == LearningJourneyView
      ensures s.QuestScreen? ==> s.questId == activeQuest.value
      ensures currentView == CompletionView && questResults.Some? ==> s == CompletionScreen(questResults.value)
      ensures currentView == LearningJourneyView ==> s == JourneyScreen
      ensures currentView == DashboardView ==> s == HomeScreen
      ensures currentView == QuestView && (activeQuest.None? || activeQuest.value == "") ==> s == HomeScreen
      ensures currentView == CompletionView && questResults.None? ==> s == HomeScreen
    {
      if currentView == QuestView && activeQuest.Some? && activeQuest.value != "" then QuestScreen(activeQuest.value)
      else if currentView == CompletionView && questResults.Some? then CompletionScreen(questResults.value)
      else if currentView == LearningJourneyView then JourneyScreen
      else HomeScreen
    }
  }

  /** The mock score always lands in a band that reads as at least Good on
      the completion screen. */
  lemma MockScoreNeverKeepPracticing(roll: nat)
    requires roll < 40
    ensures QuestCompletion.PerformanceLevel(roll + 60) != QuestCompletion.KeepPracticing
  {
  }
}
