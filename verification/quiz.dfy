/** The knowledge-check quiz: a fixed bank of fifteen multiple-choice
    questions, a session that records one answer per question and moves a
    cursor through the bank, the score (answers equal to the key) and the
    percentage tier shown on the results screen. */
module Quiz {
  import opened Common

  datatype Question = Question(id: nat, options: seq<string>, correctAnswer: nat)

  /** A question can be asked: it offers at least two options and its key
      points at one of them. */
  predicate WellFormed(q: Question) {
    |q.options| >= 2 && q.correctAnswer < |q.options|
  }

  /** The question bank (prompts and explanations are display text only). */
  const Bank: seq<Question> := [
    Question(1, ["Claim, Evidence, Warrant, Impact", "Introduction, Body, Conclusion", "Topic, Opinion, Facts", "Statement, Proof, Summary"], 0),
    Question(2, ["To provide statistical evidence", "To link evidence to the claim", "To conclude the argument", "To introduce the topic"], 1),
    Question(3, ["Personal anecdotes", "Statistical data", "Historical examples", "Emotional appeals"], 1),
    Question(4, ["To attack opponents", "To present your case framework", "To ask questions", "To summarize everything"], 1),
    Question(5, ["Your opening argument", "A response to opponent's arguments", "A closing summary", "A question to the opponent"], 1),
    Question(6, ["Celebrity status", "Relevant expertise and credentials", "Personal opinions", "Emotional delivery"], 1),
    Question(7, ["Using false statistics", "Attacking the person instead of their argument", "Making hasty generalizations", "Using circular reasoning"], 1),
    Question(8, ["The obligation to be polite", "The responsibility to prove your claims", "The duty to ask questions", "The need to speak loudly"], 1),
    Question(9, ["Parliamentary", "Policy", "Lincoln-Douglas", "Socratic Circle"], 3),
    Question(10, ["To make friends", "To clarify and challenge opponent's arguments", "To give a speech", "To present new evidence"], 1),
    Question(11, ["Using weak evidence", "Misrepresenting opponent's argument to attack it easily", "Being too emotional", "Speaking too quietly"], 1),
    Question(12, ["Speaking speed", "Physical appearance", "Quality of arguments and evidence", "Volume of voice"], 2),
    Question(13, ["No difference", "Inductive goes from specific to general, deductive from general to specific", "Inductive is always wrong", "Deductive uses emotions"], 1),
    Question(14, ["To sound impressive", "To explain why the argument matters and its consequences", "To repeat the claim", "To provide more evidence"], 1),
    Question(15, ["Make up an answer", "Admit uncertainty and offer to clarify", "Attack the questioner", "Change the subject"], 1)
  ]

  /** Every bank entry can be asked, and the ids are 1..15 in order, hence distinct. */
  lemma BankWellFormed()
    ensures |Bank| == 15
    ensures forall i :: 0 <= i < |Bank| ==> WellFormed(Bank[i]) && Bank[i].id == i + 1
  {
  }

  // ---------------------------------------------------------------------
  // Scoring

  /** Question `i` is answered with its key. */
  predicate AnsweredCorrectly(answers: map<nat, nat>, qs: seq<Question>, i: nat)
    requires i < |qs|
  {
    i in answers && answers[i] == qs[i].correctAnswer
  }

  /** Number of questions among the first `n` answered with their key. */
  function CorrectAmong(answers: map<nat, nat>, qs: seq<Question>, n: nat): nat
    requires n <= |qs|
  {
    if n == 0 then 0
    else CorrectAmong(answers, qs, n - 1) + (if AnsweredCorrectly(answers, qs, n - 1) then 1 else 0)
  }

  /** The set of questions answered with their key. */
  function CorrectSet(answers: map<nat, nat>, qs: seq<Question>, n: nat): set<nat>
    requires n <= |qs|
  {
    set i: nat | i < n && AnsweredCorrectly(answers, qs, i)
  }

  /** The running count is the size of the set of correctly answered
      questions; in particular it never exceeds the number of questions. */
  lemma {:induction false} CorrectAmongIsCard(answers: map<nat, nat>, qs: seq<Question>, n: nat)
    requires n <= |qs|
    ensures CorrectAmong(answers, qs, n) == |CorrectSet(answers, qs, n)|
    ensures CorrectAmong(answers, qs, n) <= n
  {
    if n > 0 {
      CorrectAmongIsCard(answers, qs, n - 1);
      var prev := CorrectSet(answers, qs, n - 1);
      if AnsweredCorrectly(answers, qs, n - 1) {
        assert CorrectSet(answers, qs, n) == prev + {n - 1};
      } else {
        assert CorrectSet(answers, qs, n) == prev;
      }
    }
  }

  /** `calculateScore`: walk the bank and count answers equal to the key; an
      unanswered question counts as wrong. */
  method CalculateScore(answers: map<nat, nat>, qs: seq<Question>) returns (correct: nat)
    ensures correct == |CorrectSet(answers, qs, |qs|)|
    ensures correct <= |qs|
  {
    correct := 0;
    var index := 0;
    while index < |qs|
      invariant index <= |qs|
      invariant correct == CorrectAmong(answers, qs, index)
    {
      if index in answers && answers[index] == qs[index].correctAnswer {
        correct := correct + 1;
      }
      index := index + 1;
    }
    CorrectAmongIsCard(answers, qs, |qs|);
  }

  /** Answering every question with its key scores full marks. */
  lemma {:induction false} AllCorrectScoresAll(answers: map<nat, nat>, qs: seq<Question>, n: nat)
    requires n <= |qs|
    requires forall i :: 0 <= i < n ==> i in answers && answers[i] == qs[i].correctAnswer
    ensures CorrectAmong(answers, qs, n) == n
  {
    if n > 0 {
      AllCorrectScoresAll(answers, qs, n - 1);
    }
  }

  // ---------------------------------------------------------------------
  // Results tier

  datatype Tier = Excellent | GoodJob | KeepPracticing

  function Percentage(score: nat, total: nat): real
    requires total > 0
  {
    (score as real / total as real) * 100.0
  }

  /** Badge on the results screen; ties go to the higher tier. */
  function TierOf(percentage: real): Tier {
    if percentage >= 80.0 then Excellent
    else if percentage >= 60.0 then GoodJob
    else KeepPracticing
  }

  /** Out of fifteen questions the tier needs no fractions: twelve correct
      answers are exactly 80%, nine exactly 60%. */
  lemma TierByCount(score: nat)
    ensures TierOf(Percentage(score, 15)) == Excellent <==> score >= 12
    ensures TierOf(Percentage(score, 15)) == GoodJob <==> 9 <= score < 12
    ensures TierOf(Percentage(score, 15)) == KeepPracticing <==> score < 9
  {
    var p := Percentage(score, 15);
    assert p == score as real * 100.0 / 15.0;
    assert p >= 80.0 <==> score as real >= 12.0;
    assert p >= 60.0 <==> score as real >= 9.0;
  }

  /** Tiers respect the order of percentages. */
  lemma TierMonotone(p: real, q: real)
    requires p <= q
    ensures TierOf(p) == Excellent ==> TierOf(q) == Excellent
    ensures TierOf(q) == KeepPracticing ==> TierOf(p) == KeepPracticing
  {
  }

  // ---------------------------------------------------------------------
  // The quiz screen

  datatype Mode = Normal | StoneBreaker

  class Session {
    var currentQuestion: nat
    var selectedAnswers: map<nat, nat>
    var showResults: bool
    var quizCompleted: bool
    var mode: Mode

    /** The cursor stays in the bank; since Next needs an answer, every
        question before the cursor is answered, and all fifteen are once the
        quiz is completed. */
    ghost predicate Valid()
      reads this
    {
      && currentQuestion < |Bank|
      && (forall i :: 0 <= i < currentQuestion ==> i in selectedAnswers)
      && (quizCompleted ==> forall i :: 0 <= i < |Bank| ==> i in selectedAnswers)
    }

    constructor ()
      ensures Valid()
      ensures currentQuestion == 0 && selectedAnswers == map[]
      ensures !showResults && !quizCompleted && mode == Normal
    {
      currentQuestion := 0;
      selectedAnswers := map[];
      showResults := false;
      quizCompleted := false;
      mode := Normal;
    }

    /** `handleAnswerSelect`: record (or overwrite) the answer to the current question only. */
    method SelectAnswer(answerIndex: nat)
      requires Valid()
      modifies this
      ensures Valid()
      ensures selectedAnswers == old(selectedAnswers)[old(currentQuestion) := answerIndex]
      ensures currentQuestion == old(currentQuestion) && quizCompleted == old(quizCompleted)
      ensures showResults == old(showResults) && mode == old(mode)
    {
      selectedAnswers := selectedAnswers[currentQuestion := answerIndex];
    }

    /** The Next button is enabled once the current question has an answer. */
    predicate NextEnabled()
      reads this
    {
      currentQuestion in selectedAnswers
    }

    /** `nextQuestion`: advance, or at the last question mark the quiz
        completed. The Next button is disabled until the current question
        has an answer, which is the only way the handler is reached. */
    method NextQuestion()
      requires Valid() && NextEnabled()
      modifies this
      ensures Valid()
      ensures old(currentQuestion) < |Bank| - 1 ==>
                currentQuestion == old(currentQuestion) + 1 && quizCompleted == old(quizCompleted)
      ensures old(currentQuestion) == |Bank| - 1 ==>
                currentQuestion == old(currentQuestion) && quizCompleted
      ensures selectedAnswers == old(selectedAnswers) && showResults == old(showResults)
      ensures mode == old(mode)
    {
      if currentQuestion < |Bank| - 1 {
        currentQuestion := currentQuestion + 1;
      } else {
        quizCompleted := true;
      }
    }

    /** `prevQuestion`: step back, never below the first question. */
    method PrevQuestion()
      requires Valid()
      modifies this
      ensures Valid()
      ensures currentQuestion == if old(currentQuestion) > 0 then old(currentQuestion) - 1 else 0
      ensures selectedAnswers == old(selectedAnswers) && quizCompleted == old(quizCompleted)
      ensures showResults == old(showResults) && mode == old(mode)
    {
      if currentQuestion > 0 {
        currentQuestion := currentQuestion - 1;
      }
    }

    method ViewResults()
      modifies this
      ensures showResults
      ensures currentQuestion == old(currentQuestion) && selectedAnswers == old(selectedAnswers)
      ensures quizCompleted == old(quizCompleted) && mode == old(mode)
    {
      showResults := true;
    }

    method SetMode(m: Mode)
      modifies this
      ensures mode == m
      ensures currentQuestion == old(currentQuestion) && selectedAnswers == old(selectedAnswers)
      ensures quizCompleted == old(quizCompleted) && showResults == old(showResults)
    {
      mode := m;
    }

    /** `resetQuiz`: back to the first question with nothing answered. */
    method ResetQuiz()
      modifies this
      ensures Valid()
      ensures currentQuestion == 0 && selectedAnswers == map[]
      ensures !showResults && !quizCompleted && mode == Normal
    {
      currentQuestion := 0;
      selectedAnswers := map[];
      showResults := false;
      quizCompleted := false;
      mode := Normal;
    }

    /** The results screen: score out of the bank and its tier. */
    method Results() returns (score: nat, tier: Tier)
      ensures score == |CorrectSet(selectedAnswers, Bank, |Bank|)| && score <= 15
      ensures tier == Excellent <==> score >= 12
      ensures tier == GoodJob <==> 9 <= score < 12
    {
      score := CalculateScore(selectedAnswers, Bank);
      tier := TierOf(Percentage(score, |Bank|));
      TierByCount(score);
    }
  }
}
