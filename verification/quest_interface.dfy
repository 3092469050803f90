/** The quest stepper: a quest is a list of steps, each with an answer key;
    the player answers the current step, sees feedback, moves on, and after
    the last step earns experience points in proportion to the score. A
    five-minute countdown runs alongside; each second is an explicit `Tick`. */
module QuestInterface {
  import opened Common

  /** The kinds of step in the quest data. Only multiple-choice, scenario
      and synthesis steps have answer controls on screen. */
  datatype StepKind =
    MultipleChoice | DragDrop | Scenario | Interactive | Synthesis
    | Structure | Evidence | Warrant | Counter

  /** An answer key: one option index, or an ordered list of indices. */
  datatype Key = Single(index: nat) | Ordered(indices: seq<nat>)

  /** A given answer: a clicked option, or the checked boxes in click order. */
  datatype Answer = Choice(index: nat) | Picks(indices: seq<nat>)

  datatype Step = Step(kind: StepKind, key: Key)

  datatype QuestData = QuestData(totalSteps: nat, xpReward: nat, steps: seq<Step>)

  const FallacyHunter := QuestData(5, 250, [
    Step(MultipleChoice, Single(1)),
    Step(DragDrop, Ordered([0, 1, 2, 3])),
    Step(Scenario, Single(1)),
    Step(Interactive, Ordered([0, 1, 2])),
    Step(Synthesis, Ordered([0, 1, 2]))
  ])

  const ArgumentBuilderQuest := QuestData(4, 200, [
    Step(Structure, Single(1)),
    Step(Evidence, Single(1)),
    Step(Warrant, Single(1)),
    Step(Counter, Single(1))
  ])

  /** `questData[questId]`; any other id shows "Quest Not Found". */
  function Lookup(questId: string): Option<QuestData> {
    if questId == "fallacy-hunter" then Some(FallacyHunter)
    else if questId == "argument-builder" then Some(ArgumentBuilderQuest)
    else None
  }

  predicate QuestWellFormed(q: QuestData) {
    q.totalSteps == |q.steps| && q.totalSteps >= 1
  }

  /** Both quests declare as many steps as they list; every other id has no
      quest. */
  lemma QuestDataWellFormed(questId: string)
    ensures Lookup(questId).Some? ==> QuestWellFormed(Lookup(questId).value)
    ensures Lookup(questId).Some? <==> questId in ["fallacy-hunter", "argument-builder"]
  {
  }

  predicate Answerable(kind: StepKind) {
    kind == MultipleChoice || kind == Scenario || kind == Synthesis
  }

  /** Neither quest can be finished on screen: the second fallacy-hunter step
      and the first argument-builder step have no answer controls, so their
      Next button never appears. */
  lemma QuestsBlockedOnScreen()
    ensures !Answerable(FallacyHunter.steps[1].kind)
    ensures !Answerable(ArgumentBuilderQuest.steps[0].kind)
  {
  }

  /** `isCorrect`: a scalar key needs that option; a list key needs the same
      indices in the same order (the two are compared as JSON strings). */
  predicate IsCorrectAnswer(a: Answer, key: Key) {
    match key
    case Single(i) => a == Choice(i)
    case Ordered(order) => a == Picks(order)
  }

  /** The same checked boxes in another order are marked wrong. */
  lemma OrderMatters()
    ensures !IsCorrectAnswer(Picks([1, 0, 2, 3]), FallacyHunter.steps[1].key)
    ensures IsCorrectAnswer(Picks([0, 1, 2, 3]), FallacyHunter.steps[1].key)
  {
  }

  /** A synthesis step is answered by the first checkbox change, which
      records a single index, so it is never correct. */
  lemma SynthesisNeverCorrect(i: nat)
    ensures !IsCorrectAnswer(Picks([] + [i]), FallacyHunter.steps[4].key)
  {
  }

  /** XP for a final score, `Math.round(finalScore / 100 * xpReward)`. */
  function XpFor(finalScore: nat, xpReward: nat): nat {
    RoundHalfUp(finalScore * xpReward, 100)
  }

  /** The final score as written: the last step's 20 points are added again
      whatever the answer, because the test reads the `isCorrect` function
      itself, which is always truthy. */
  function FinalScoreAsWritten(score: nat): nat {
    score + 20
  }

  /** The final score as evidently intended: the score already includes the
      last step's points. */
  function FinalScore(score: nat): nat {
    score
  }

  /** With every one of its five steps right, the fallacy-hunter quest
      awards 300 XP as written, more than its 250 reward, and 50 XP with every
      step wrong. */
  lemma XpOverReward()
    ensures XpFor(FinalScoreAsWritten(100), FallacyHunter.xpReward) == 300
    ensures XpFor(FinalScoreAsWritten(0), FallacyHunter.xpReward) == 50
    ensures XpFor(FinalScore(100), FallacyHunter.xpReward) == 250
  {
  }

  /** Scoring each step once, the XP never exceeds the reward: a quest of at
      most five 20-point steps scores at most 100. */
  lemma XpWithinReward(score: nat, xpReward: nat)
    requires score <= 100
    ensures XpFor(FinalScore(score), xpReward) <= xpReward
  {
    var num := score * xpReward;
    assert num <= 100 * xpReward;
    var r := XpFor(FinalScore(score), xpReward);
    assert 2 * r * 100 <= 2 * num + 100;
  }

  const TimeLimit := 300

  class QuestRun {
    const quest: QuestData
    var currentStep: nat
    var answers: map<nat, Answer>
    var score: nat
    var showFeedback: bool
    var timeLeft: nat
    var isActive: bool

    /** The cursor is on a step, the countdown stays within five minutes and
        stops only at zero, and the score is 20 per correctly answered step so
        far: a multiple of 20, at most 20 per step answered. */
    ghost predicate Valid()
      reads this
    {
      && QuestWellFormed(quest)
      && currentStep < |quest.steps|
      && timeLeft <= TimeLimit
      && (!isActive ==> timeLeft == 0)
      && score % 20 == 0
      && score <= 20 * (currentStep + if showFeedback then 1 else 0)
    }

    constructor (questId: string)
      requires Lookup(questId).Some?
      ensures Valid() && quest == Lookup(questId).value
      ensures currentStep == 0 && answers == map[] && score == 0 && !showFeedback
      ensures timeLeft == TimeLimit && isActive
    {
      quest := Lookup(questId).value;
      currentStep := 0;
      answers := map[];
      score := 0;
      showFeedback := false;
      timeLeft := TimeLimit;
      isActive := true;
    }

    /** One second of the countdown: while running it counts down, and on
        reaching zero it stops. */
    method Tick()
      requires Valid()
      modifies this
      ensures Valid()
      ensures timeLeft == if old(isActive) && old(timeLeft) > 0 then old(timeLeft) - 1 else old(timeLeft)
      ensures isActive == (old(isActive) && timeLeft > 0)
      ensures currentStep == old(currentStep) && answers == old(answers)
      ensures score == old(score) && showFeedback == old(showFeedback)
    {
      if isActive && timeLeft > 0 {
        timeLeft := timeLeft - 1;
      }
      if timeLeft == 0 {
        isActive := false;
      }
    }

    /** `handleAnswer`: record the answer for the current step, show feedback,
        and score 20 if it is right. The answer controls are disabled while
        feedback shows, so this is only called before it. */
    method HandleAnswer(a: Answer)
      requires Valid() && !showFeedback
      modifies this
      ensures Valid()
      ensures answers == old(answers)[currentStep := a] && showFeedback
      ensures score == old(score) + if IsCorrectAnswer(a, quest.steps[currentStep].key) then 20 else 0
      ensures currentStep == old(currentStep) && timeLeft == old(timeLeft) && isActive == old(isActive)
    {
      answers := answers[currentStep := a];
      showFeedback := true;
      if IsCorrectAnswer(a, quest.steps[currentStep].key) {
        score := score + 20;
      }
    }

    /** `nextStep`, offered only while feedback shows: advance and hide the
        feedback, or after the last step report the XP earned. */
    method NextStep() returns (xpEarned: Option<nat>)
      requires Valid() && showFeedback
      modifies this
      ensures Valid()
      ensures old(currentStep) < quest.totalSteps - 1 ==>
                currentStep == old(currentStep) + 1 && !showFeedback && xpEarned == None
      ensures old(currentStep) == quest.totalSteps - 1 ==>
                currentStep == old(currentStep) && showFeedback
                && xpEarned == Some(XpFor(FinalScoreAsWritten(score), quest.xpReward))
      ensures answers == old(answers) && score == old(score)
      ensures timeLeft == old(timeLeft) && isActive == old(isActive)
    {
      if currentStep < quest.totalSteps - 1 {
        currentStep := currentStep + 1;
        showFeedback := false;
        xpEarned := None;
      } else {
        var finalScore := FinalScoreAsWritten(score);
        xpEarned := Some(XpFor(finalScore, quest.xpReward));
      }
    }

    /** What the feedback card shows: whether the recorded answer for the
        current step is right (no answer is wrong). */
    predicate CurrentAnswerCorrect()
      reads this
      requires Valid()
    {
      currentStep in answers && IsCorrectAnswer(answers[currentStep], quest.steps[currentStep].key)
    }

    /** At the end of a quest of at most five steps the score is at most 100,
        so scoring each step once keeps the XP within the reward. */
    lemma FinalXpBounded()
      requires Valid() && quest.totalSteps <= 5
      ensures score <= 100
      ensures XpFor(FinalScore(score), quest.xpReward) <= quest.xpReward
    {
      XpWithinReward(score, quest.xpReward);
    }
  }
}
