/** The British Parliamentary page: seven sections with per-section XP, an
    eight-question quiz scored over the answers in key order, a canned
    assistant reply chosen by keyword, and the video player's toggles. */
module BpPage {
  import opened Common
  import opened SectionProgress

  // ---------------------------------------------------------------------
  // Section XP

  const SectionXp: seq<nat> := [30, 40, 45, 35, 40, 50, 30]
  const XpReward := 250

  /** The sections' XP adds up to 270, more than the 250 XP the module
      advertises: a learner who completes everything sees 270/250. */
  lemma SectionXpExceedsReward()
    ensures |SectionXp| == BpPageTotal
    ensures SumAll(SectionXp, |SectionXp|) == 270 > XpReward
  {
  }

  // ---------------------------------------------------------------------
  // Quiz

  /** The index of the correct option of each quiz question. */
  const QuizKeys: seq<nat> := [2, 1, 2, 1, 1, 1, 1, 1]
  const QuizOptions := 4

  /** `Object.values(quizAnswers)` for a record whose keys are question
      indices below `n`: the answers in ascending key order, unanswered
      questions leaving no gap. */
  function AnswerValues(answers: map<nat, nat>, n: nat): (r: seq<nat>)
    ensures |r| <= n
  {
    if n == 0 then []
    else AnswerValues(answers, n - 1) + (if n - 1 in answers then [answers[n - 1]] else [])
  }

  /** The `filter((answer, index) => answer === quizQuestions[index].correct)`
      count over the first `k` values: position, not question, decides
      which key a value is compared with. */
  function PositionalMatches(values: seq<nat>, k: nat): nat
    requires k <= |values| <= |QuizKeys|
  {
    if k == 0 then 0
    else PositionalMatches(values, k - 1) + (if values[k - 1] == QuizKeys[k - 1] then 1 else 0)
  }

  function QuizScore(answers: map<nat, nat>): nat {
    var values := AnswerValues(answers, |QuizKeys|);
    PositionalMatches(values, |values|)
  }

  /** The questions below `k` answered with their key. */
  function CorrectBelow(answers: map<nat, nat>, k: nat): set<nat>
    requires k <= |QuizKeys|
  {
    set i | 0 <= i < k && i in answers && answers[i] == QuizKeys[i]
  }

  lemma {:induction false} AnswerValuesAligned(answers: map<nat, nat>, n: nat)
    requires forall i :: 0 <= i < n ==> i in answers
    ensures |AnswerValues(answers, n)| == n
    ensures forall i :: 0 <= i < n ==> AnswerValues(answers, n)[i] == answers[i]
  {
    if n > 0 {
      AnswerValuesAligned(answers, n - 1);
    }
  }

  lemma {:induction false} PositionalMatchesCount(answers: map<nat, nat>, values: seq<nat>, k: nat)
    requires k <= |values| <= |QuizKeys|
    requires forall i :: 0 <= i < |values| ==> i in answers && values[i] == answers[i]
    ensures PositionalMatches(values, k) == |CorrectBelow(answers, k)|
  {
    if k > 0 {
      PositionalMatchesCount(answers, values, k - 1);
      assert values[k - 1] == answers[k - 1];
      CorrectBelowStep(answers, k);
    }
  }

  /** One more question either adds itself to the correctly answered set or
      leaves the set as it was. */
  lemma CorrectBelowStep(answers: map<nat, nat>, k: nat)
    requires 0 < k <= |QuizKeys|
    ensures var prev := CorrectBelow(answers, k - 1);
            && k - 1 !in prev
            && CorrectBelow(answers, k)
               == if k - 1 in answers && answers[k - 1] == QuizKeys[k - 1] then prev + {k - 1} else prev
  {
  }

  /** Once every question has an answer, positions and questions line up:
      the score is the number of questions answered with their key. */
  lemma AllAnsweredScore(answers: map<nat, nat>)
    requires forall i :: 0 <= i < |QuizKeys| ==> i in answers
    ensures QuizScore(answers) == |CorrectBelow(answers, |QuizKeys|)|
    ensures QuizScore(answers) <= |QuizKeys|
  {
    AnswerValuesAligned(answers, |QuizKeys|);
    var values := AnswerValues(answers, |QuizKeys|);
    PositionalMatchesCount(answers, values, |values|);
    assert CorrectBelow(answers, |QuizKeys|) <= Range(|QuizKeys|);
    SubsetCard(CorrectBelow(answers, |QuizKeys|), Range(|QuizKeys|));
  }

  /** With a question skipped the positions shift: the single correct answer
      to question 1 is compared with question 0's key and scores nothing.
      Only the Submit button's guard keeps this from being reached. */
  lemma SkippedQuestionShiftsScore()
    ensures 1 in CorrectBelow(map[1 := 1], |QuizKeys|)
    ensures QuizScore(map[1 := 1]) == 0
  {
    var a := map[1 := 1];
    assert AnswerValues(a, 1) == [];
    assert AnswerValues(a, 2) == [1];
    assert AnswerValues(a, 8) == [1] by {
      assert AnswerValues(a, 3) == [1];
      assert AnswerValues(a, 4) == [1];
      assert AnswerValues(a, 5) == [1];
      assert AnswerValues(a, 6) == [1];
      assert AnswerValues(a, 7) == [1];
    }
    assert PositionalMatches([1], 1) == 0;
  }

  /** Every key points at one of the four options. */
  lemma QuizKeysInRange()
    ensures forall i :: 0 <= i < |QuizKeys| ==> QuizKeys[i] < QuizOptions
  {
  }

  // ---------------------------------------------------------------------
  // Assistant reply

  datatype Reply = PrimeMinisterReply | PointsOfInformationReply | WhipReply | ClosingReply | GeneralReply

  /** `handleAiMessage`'s choice: the first keyword group the lower-cased
      message contains decides the canned reply. */
  function ReplyFor(message: string): Reply {
    var lower := ToLower(message);
    if Contains(lower, "opening government") || Contains(lower, "prime minister") then PrimeMinisterReply
    else if Contains(lower, "poi") || Contains(lower, "point of information") then PointsOfInformationReply
    else if Contains(lower, "whip") then WhipReply
    else if Contains(lower, "closing") then ClosingReply
    else GeneralReply
  }

  /** "point of information" starts with "poi", so the second keyword of
      the second group never decides anything: the reply is the same with
      "poi" alone. */
  lemma PointOfInformationRedundant(message: string)
    ensures var lower := ToLower(message);
            ReplyFor(message) == PointsOfInformationReply <==>
              !(Contains(lower, "opening government") || Contains(lower, "prime minister"))
              && Contains(lower, "poi")
  {
    var lower := ToLower(message);
    if Contains(lower, "point of information") {
      ContainsPrefix(lower, "point of information", 3);
      PoiIsPrefix();
    }
  }

  lemma PoiIsPrefix()
    ensures "point of information"[..3] == "poi"
  {
    var p := "point of information";
    assert |p[..3]| == 3 && p[..3][0] == 'p' && p[..3][1] == 'o' && p[..3][2] == 'i';
  }

  /** Matching ignores case: a message and its lower-cased form get the same reply. */
  lemma ReplyIgnoresCase(message: string)
    ensures ReplyFor(ToLower(message)) == ReplyFor(message)
  {
    assert ToLower(ToLower(message)) == ToLower(message);
  }

  // ---------------------------------------------------------------------
  // The page

  datatype VideoState = VideoState(
    isPlaying: bool, currentTime: nat, duration: nat, isMuted: bool, showCaptions: bool, isFullscreen: bool)

  const InitialVideo := VideoState(false, 0, 720, false, true, false)

  datatype ChatMessage = ChatMessage(fromUser: bool, reply: Option<Reply>, text: string)

  class Page {
    const tracker: Tracker
    var quizAnswers: map<nat, nat>
    var showQuizResults: bool
    var video: VideoState
    var aiMessages: seq<ChatMessage>
    var aiInput: string

    ghost predicate Valid()
      reads this, tracker
    {
      && tracker.Valid() && tracker.sectionCount == BpPageTotal
      && (forall q :: q in quizAnswers ==> q < |QuizKeys| && quizAnswers[q] < QuizOptions)
    }

    constructor ()
      ensures Valid() && fresh(tracker)
      ensures tracker.currentSection == 0 && tracker.completedSections == []
      ensures quizAnswers == map[] && !showQuizResults && video == InitialVideo
      ensures aiMessages == [] && aiInput == ""
    {
      tracker := new Tracker(BpPageTotal);
      quizAnswers := map[];
      showQuizResults := false;
      video := InitialVideo;
      aiMessages := [];
      aiInput := "";
    }

    /** `handleSectionComplete` on this page. */
    method CompleteSection(sectionIndex: nat)
      requires Valid() && sectionIndex < BpPageTotal
      modifies tracker
      ensures Valid()
      ensures tracker.completedSections == WithSection(old(tracker.completedSections), sectionIndex)
      ensures tracker.currentSection ==
                if sectionIndex < BpPageTotal - 1 then sectionIndex + 1 else old(tracker.currentSection)
    {
      tracker.CompleteSection(sectionIndex);
    }

    /** The header's earned XP: at most the 270 XP of all sections, and all
        of it once every section is completed. */
    function TotalXpEarned(): (xp: nat)
      requires Valid()
      reads this, tracker
      ensures xp <= 270
      ensures (forall i :: 0 <= i < BpPageTotal ==> i in tracker.completedSections) ==> xp == 270
    {
      TotalXpBounds(tracker.completedSections, SectionXp);
      TotalXp(tracker.completedSections, SectionXp)
    }

    /** A radio button: record option `option` for question `question`; the
        radios are disabled once the results are shown. */
    method SelectQuizAnswer(question: nat, option: nat)
      requires Valid() && question < |QuizKeys| && option < QuizOptions
      modifies this
      ensures Valid()
      ensures quizAnswers == if old(showQuizResults) then old(quizAnswers)
                             else old(quizAnswers)[question := option]
      ensures showQuizResults == old(showQuizResults) && video == old(video)
      ensures aiMessages == old(aiMessages) && aiInput == old(aiInput)
    {
      if !showQuizResults {
        quizAnswers := quizAnswers[question := option];
      }
    }

    /** Submit is enabled once there are as many answers as questions. */
    predicate SubmitEnabled()
      reads this
    {
      |quizAnswers.Keys| == |QuizKeys|
    }

    /** An enabled Submit means every question is answered. */
    lemma SubmitEnabledAllAnswered()
      requires Valid() && SubmitEnabled()
      ensures forall i :: 0 <= i < |QuizKeys| ==> i in quizAnswers
    {
      assert quizAnswers.Keys <= Range(|QuizKeys|);
      SubsetSameCard(quizAnswers.Keys, Range(|QuizKeys|));
    }

    /** `handleQuizSubmit`: show the results and report the score. */
    method SubmitQuiz() returns (score: nat)
      requires Valid() && SubmitEnabled()
      modifies this
      ensures Valid()
      ensures showQuizResults && quizAnswers == old(quizAnswers)
      ensures score == |CorrectBelow(quizAnswers, |QuizKeys|)| && score <= |QuizKeys|
      ensures video == old(video) && aiMessages == old(aiMessages) && aiInput == old(aiInput)
    {
      showQuizResults := true;
      SubmitEnabledAllAnswered();
      AllAnsweredScore(quizAnswers);
      score := QuizScore(quizAnswers);
    }

    method ToggleVideo()
      modifies this
      ensures video == old(video).(isPlaying := !old(video).isPlaying)
      ensures quizAnswers == old(quizAnswers) && showQuizResults == old(showQuizResults)
      ensures aiMessages == old(aiMessages) && aiInput == old(aiInput)
    {
      video := video.(isPlaying := !video.isPlaying);
    }

    method ToggleMute()
      modifies this
      ensures video == old(video).(isMuted := !old(video).isMuted)
      ensures quizAnswers == old(quizAnswers) && showQuizResults == old(showQuizResults)
      ensures aiMessages == old(aiMessages) && aiInput == old(aiInput)
    {
      video := video.(isMuted := !video.isMuted);
    }

    method ToggleCaptions()
      modifies this
      ensures video == old(video).(showCaptions := !old(video).showCaptions)
      ensures quizAnswers == old(quizAnswers) && showQuizResults == old(showQuizResults)
      ensures aiMessages == old(aiMessages) && aiInput == old(aiInput)
    {
      video := video.(showCaptions := !video.showCaptions);
    }

    /** `handleAiMessage`, with the delayed reply delivered at once: the
        user's message, then the canned reply, and the input cleared. */
    method AiMessage(message: string)
      modifies this
      ensures aiMessages == old(aiMessages) + [ChatMessage(true, None, message),
                                              ChatMessage(false, Some(ReplyFor(message)), "")]
      ensures aiInput == ""
      ensures quizAnswers == old(quizAnswers) && showQuizResults == old(showQuizResults)
      ensures video == old(video)
    {
      aiMessages := aiMessages + [ChatMessage(true, None, message)];
      aiInput := "";
      aiMessages := aiMessages + [ChatMessage(false, Some(ReplyFor(message)), "")];
    }
  }
}
