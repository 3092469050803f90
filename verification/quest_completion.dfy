/** The quest completion screen: a performance level from the score, a
    border colour and a feedback sentence chosen by the same thresholds, and
    the new-badge count. */
module QuestCompletion {

  datatype Performance = Excellent | Great | Good | KeepPracticing

  datatype Border = YellowBorder | GreenBorder | BlueBorder | GrayBorder

  datatype Feedback = Outstanding | GreatWork | GoodEffort | KeepTrying

  /** `getPerformanceLevel`. */
  function PerformanceLevel(score: int): Performance {
    if score >= 90 then Excellent
    else if score >= 75 then Great
    else if score >= 60 then Good
    else KeepPracticing
  }

  /** The feedback card's border, decided by its own chain of comparisons. */
  function BorderFor(score: int): Border {
    if score >= 90 then YellowBorder
    else if score >= 75 then GreenBorder
    else if score >= 60 then BlueBorder
    else GrayBorder
  }

  /** The feedback sentence, decided by its own chain of comparisons. */
  function FeedbackFor(score: int): Feedback {
    if score >= 90 then Outstanding
    else if score >= 75 then GreatWork
    else if score >= 60 then GoodEffort
    else KeepTrying
  }

  function BorderOf(p: Performance): Border {
    match p
      case Excellent => YellowBorder
      case Great => GreenBorder
      case Good => BlueBorder
      case KeepPracticing => GrayBorder
  }

  function FeedbackOf(p: Performance): Feedback {
    match p
      case Excellent => Outstanding
      case Great => GreatWork
      case Good => GoodEffort
      case KeepPracticing => KeepTrying
  }

  /** The level's score bands, both ways. */
  lemma PerformanceBands(score: int)
    ensures PerformanceLevel(score) == Excellent <==> score >= 90
    ensures PerformanceLevel(score) == Great <==> 75 <= score < 90
    ensures PerformanceLevel(score) == Good <==> 60 <= score < 75
    ensures PerformanceLevel(score) == KeepPracticing <==> score < 60
  {
  }

  /** Border and sentence always agree with the level shown above them. */
  lemma DisplayAgrees(score: int)
    ensures BorderFor(score) == BorderOf(PerformanceLevel(score))
    ensures FeedbackFor(score) == FeedbackOf(PerformanceLevel(score))
  {
  }

  /** A higher score never shows a lower level. */
  function Rank(p: Performance): nat {
    match p
      case KeepPracticing => 0
      case Good => 1
      case Great => 2
      case Excellent => 3
  }

  lemma PerformanceMonotone(a: int, b: int)
    requires a <= b
    ensures Rank(PerformanceLevel(a)) <= Rank(PerformanceLevel(b))
  {
  }

  /** The "New Badges" figure and whether the achievements list is shown. */
  function Badges(newAchievements: seq<string>): (r: (nat, bool))
    ensures r.0 == |newAchievements|
    ensures r.1 <==> newAchievements != []
  {
    (|newAchievements|, |newAchievements| > 0)
  }
}
