/** The StoneBreaker arcade round engine. One round per quiz question: the
    words of the answer options become falling "stones"; clicking a stone made
    from the correct option destroys it and scores with a streak bonus,
    clicking a decoy marks it hit and breaks the streak. A round ends when
    every correct stone is destroyed or some stone has fallen past the bottom
    edge; the game ends after the last question with an accuracy and a rank.

    Positions, speeds, rotation and particles are floating-point animation;
    the model keeps of a stone's position only whether it has passed the
    bottom edge (`pastBottom`), and a frame is told which stones cross it. */
module StoneBreaker {
  import opened Common
  import Quiz

  datatype Phase = QuestionShown | Falling | Complete | Final

  /** A stone. Its id is the number `i` of `stone-i`: ids are only ever
      compared, and `StoneIdInjective` shows the rendering keeps them apart.
      `speedBoosts` counts how often its (random) fall speed was
      multiplied by 1.3; `opacityTenths` is its opacity in tenths where a
      click sets it (the fade-in ramp is animation). */
  datatype Stone = Stone(
    id: nat,
    text: string,
    isCorrect: bool,
    destroyed: bool,
    hit: bool,
    pastBottom: bool,
    speedBoosts: nat,
    opacityTenths: nat)

  // ---------------------------------------------------------------------
  // Deriving the stones of a round from a question

  /** `.filter(word => word.length > 2)`, keeping the order. */
  function LongWords(words: seq<string>): (r: seq<string>)
    ensures |r| <= |words|
  {
    if words == [] then []
    else (if |words[0]| > 2 then [words[0]] else []) + LongWords(words[1..])
  }

  /** The filter keeps exactly the words longer than two characters. */
  lemma {:induction false} LongWordsMembers(words: seq<string>)
    ensures forall w :: w in LongWords(words) <==> w in words && |w| > 2
  {
    if words != [] {
      LongWordsMembers(words[1..]);
      assert words == [words[0]] + words[1..];
    }
  }

  /** The space-separated words of every option except the one at `skip`, in
      option order (`options.filter(index != correct).flatMap(split(' '))`). */
  function WordsExcept(options: seq<string>, skip: int): seq<string>
    decreases |options|
  {
    if options == [] then []
    else (if skip == 0 then [] else Split(options[0], ' ')) + WordsExcept(options[1..], skip - 1)
  }

  /** `.slice(0, k)`. */
  function Take(s: seq<string>, k: nat): seq<string> {
    if k <= |s| then s[..k] else s
  }

  function Max(a: int, b: int): int {
    if a >= b then a else b
  }

  /** `Math.max(8 - correctWords.length, 4)`. */
  function DecoyLimit(correctCount: nat): nat {
    Max(8 - correctCount, 4)
  }

  function CorrectWords(q: Quiz.Question): seq<string>
    requires Quiz.WellFormed(q)
  {
    LongWords(Split(q.options[q.correctAnswer], ' '))
  }

  function DecoyWords(q: Quiz.Question): seq<string>
    requires Quiz.WellFormed(q)
  {
    Take(LongWords(WordsExcept(q.options, q.correctAnswer)), DecoyLimit(|CorrectWords(q)|))
  }

  /** `stone-${index}`. */
  function StoneId(i: nat): string {
    "stone-" + NatToString(i)
  }

  function NewStone(i: nat, word: string, correctWords: seq<string>): Stone {
    Stone(i, word, word in correctWords, false, false, false, 0, 0)
  }

  /** `initializeStones`: correct words first, then decoys. */
  function InitialStones(q: Quiz.Question): seq<Stone>
    requires Quiz.WellFormed(q)
  {
    var correct := CorrectWords(q);
    var all := correct + DecoyWords(q);
    seq(|all|, i requires 0 <= i < |all| => NewStone(i, all[i], correct))
  }

  lemma StoneIdInjective(i: nat, j: nat)
    requires StoneId(i) == StoneId(j)
    ensures i == j
  {
    var p := "stone-";
    assert StoneId(i)[|p|..] == NatToString(i);
    assert StoneId(j)[|p|..] == NatToString(j);
    NatToStringInjective(i, j);
  }

  /** How many decoys a round gets: the first max(8 - |correct|, 4) of the
      longer-than-two-character words of the other options, or all of them
      when there are fewer; so a round has at most max(8, |correct| + 4)
      stones. */
  lemma DecoyCount(q: Quiz.Question)
    requires Quiz.WellFormed(q)
    ensures var correct := CorrectWords(q);
            var decoys := DecoyWords(q);
            var pool := LongWords(WordsExcept(q.options, q.correctAnswer));
            && |decoys| == (if DecoyLimit(|correct|) <= |pool| then DecoyLimit(|correct|) else |pool|)
            && decoys == pool[..|decoys|]
            && |InitialStones(q)| == |correct| + |decoys| <= Max(8, |correct| + 4)
  {
  }

  /** Starting a round: the correct words come first, then the decoys; every
      stone starts untouched and invisible, its id is its position, its word
      is longer than two characters and has no space, and it is correct
      exactly when its word is one of the correct words (a decoy equal to a
      correct word counts as correct). */
  lemma InitialStonesShape(q: Quiz.Question)
    requires Quiz.WellFormed(q)
    ensures var s := InitialStones(q);
            var correct := CorrectWords(q);
            && (forall i :: 0 <= i < |s| ==>
                  && s[i].id == i
                  && s[i].text == (correct + DecoyWords(q))[i]
                  && |s[i].text| > 2 && ' ' !in s[i].text
                  && (s[i].isCorrect <==> s[i].text in correct)
                  && !s[i].destroyed && !s[i].hit && !s[i].pastBottom
                  && s[i].speedBoosts == 0 && s[i].opacityTenths == 0)
            && (forall i :: 0 <= i < |correct| ==> s[i].isCorrect)
  {
    var correct := CorrectWords(q);
    var pool := LongWords(WordsExcept(q.options, q.correctAnswer));
    SplitPartsSeparatorFree(q.options[q.correctAnswer], ' ');
    WordsExceptSeparatorFree(q.options, q.correctAnswer);
    LongWordsMembers(Split(q.options[q.correctAnswer], ' '));
    LongWordsMembers(WordsExcept(q.options, q.correctAnswer));
    var s := InitialStones(q);
    forall i | 0 <= i < |s|
      ensures |s[i].text| > 2 && ' ' !in s[i].text
    {
      var w := (correct + DecoyWords(q))[i];
      if i < |correct| {
        assert w in correct;
      } else {
        assert w in DecoyWords(q);
        assert w in pool;
      }
    }
  }

  lemma InitialStonesWellFormed(q: Quiz.Question)
    requires Quiz.WellFormed(q)
    ensures StonesWellFormed(InitialStones(q))
  {
  }

  lemma {:induction false} WordsExceptSeparatorFree(options: seq<string>, skip: int)
    ensures forall w :: w in WordsExcept(options, skip) ==> ' ' !in w
    decreases |options|
  {
    if options != [] {
      SplitPartsSeparatorFree(options[0], ' ');
      WordsExceptSeparatorFree(options[1..], skip - 1);
    }
  }

  // ---------------------------------------------------------------------
  // Clicks

  predicate Live(st: Stone) {
    !st.destroyed && !st.hit
  }

  /** The per-stone callback of the click handler's `prev.map(...)`. */
  function Clicked(st: Stone, stoneId: nat): Stone {
    if st.id == stoneId && Live(st) then
      if st.isCorrect then st.(destroyed := true)
      else st.(hit := true, speedBoosts := st.speedBoosts + 1, opacityTenths := 8)
    else st
  }

  /** The stones after a click: `prev.map(...)` over the whole array. */
  function ClickAll(s: seq<Stone>, stoneId: nat): (r: seq<Stone>)
    ensures |r| == |s|
  {
    seq(|s|, i requires 0 <= i < |s| => Clicked(s[i], stoneId))
  }

  /** Each stone's id is its position and no stone is both destroyed and hit. */
  ghost predicate StonesWellFormed(s: seq<Stone>) {
    forall i :: 0 <= i < |s| ==> s[i].id == i && !(s[i].destroyed && s[i].hit)
  }

  /** With positional ids the whole-array map changes at most the one stone
      whose id was clicked, and keeps destroyed and hit exclusive. */
  lemma ClickAllTouchesOnlyTarget(s: seq<Stone>, k: nat)
    requires StonesWellFormed(s) && k < |s|
    ensures ClickAll(s, k) == s[k := Clicked(s[k], k)]
    ensures StonesWellFormed(ClickAll(s, k))
  {
  }

  /** A click on an id that is no stone's changes nothing. */
  lemma ClickUnknownId(s: seq<Stone>, stoneId: nat)
    requires forall j :: 0 <= j < |s| ==> s[j].id != stoneId
    ensures ClickAll(s, stoneId) == s
  {
  }

  // ---------------------------------------------------------------------
  // Frames and the end of a round

  /** The stones after one frame: every stone that is not destroyed keeps
      falling, and those in `crossed` pass the bottom edge. */
  function Advance(s: seq<Stone>, crossed: set<nat>): (r: seq<Stone>)
    ensures |r| == |s|
  {
    seq(|s|, i requires 0 <= i < |s| =>
      if !s[i].destroyed && i in crossed then s[i].(pastBottom := true) else s[i])
  }

  lemma AdvanceWellFormed(s: seq<Stone>, crossed: set<nat>)
    requires StonesWellFormed(s)
    ensures StonesWellFormed(Advance(s, crossed))
  {
  }

  /** Stones counted as missed in a frame: past the bottom, neither destroyed
      nor hit, and not correct. */
  function MissedCount(s: seq<Stone>): nat {
    if s == [] then 0
    else MissedCount(s[..|s| - 1])
         + (var st := s[|s| - 1]; if st.pastBottom && Live(st) && !st.isCorrect then 1 else 0)
  }

  /** Live decoys that pass the bottom edge during the frame `crossed`. */
  function NewlyMissed(s: seq<Stone>, crossed: set<nat>): nat {
    if s == [] then 0
    else NewlyMissed(s[..|s| - 1], crossed)
         + (var st := s[|s| - 1];
            if |s| - 1 in crossed && !st.pastBottom && Live(st) && !st.isCorrect then 1 else 0)
  }

  lemma {:induction false} MissedCountBound(s: seq<Stone>)
    ensures MissedCount(s) <= |s|
  {
    if s != [] {
      MissedCountBound(s[..|s| - 1]);
    }
  }

  /** A frame adds to the live decoys below the bottom exactly those that
      cross it in that frame. */
  lemma {:induction false} AdvanceMissed(s: seq<Stone>, crossed: set<nat>)
    ensures MissedCount(Advance(s, crossed)) == MissedCount(s) + NewlyMissed(s, crossed)
  {
    if s != [] {
      var init := s[..|s| - 1];
      AdvanceMissed(init, crossed);
      assert Advance(s, crossed)[..|s| - 1] == Advance(init, crossed);
    }
  }

  /** The stones after a sequence of frames. */
  function AfterFrames(s: seq<Stone>, frames: seq<set<nat>>): (r: seq<Stone>)
    ensures |r| == |s|
    decreases |frames|
  {
    if frames == [] then s else AfterFrames(Advance(s, frames[0]), frames[1..])
  }

  /** The missed counter as written: every frame adds every live decoy that
      is below the bottom after it. */
  function MissedAsWritten(s: seq<Stone>, frames: seq<set<nat>>): nat
    decreases |frames|
  {
    if frames == [] then 0
    else MissedCount(Advance(s, frames[0])) + MissedAsWritten(Advance(s, frames[0]), frames[1..])
  }

  /** The missed counter as its label means it: a frame adds the live decoys
      that cross the bottom in it. */
  function MissedCorrected(s: seq<Stone>, frames: seq<set<nat>>): nat
    decreases |frames|
  {
    if frames == [] then 0
    else NewlyMissed(s, frames[0]) + MissedCorrected(Advance(s, frames[0]), frames[1..])
  }

  /** Counting crossings, each missed decoy is counted once: over any frames
      the counter grows by exactly the number of new live decoys below the
      bottom, and so never exceeds the number of stones. */
  lemma {:induction false} MissedCorrectedCountsOnce(s: seq<Stone>, frames: seq<set<nat>>)
    ensures MissedCount(s) + MissedCorrected(s, frames) == MissedCount(AfterFrames(s, frames))
    ensures MissedCorrected(s, frames) <= |s|
    decreases |frames|
  {
    if frames != [] {
      AdvanceMissed(s, frames[0]);
      MissedCorrectedCountsOnce(Advance(s, frames[0]), frames[1..]);
    }
    MissedCountBound(AfterFrames(s, frames));
  }

  /** A round of one correct stone and one decoy, both above the bottom edge. */
  const TwoStones := [
    Stone(0, "Claim", true, false, false, false, 0, 0),
    Stone(1, "Statement", false, false, false, false, 0, 0)]

  /** As written, one decoy that falls off is reported twice: it is counted in
      the frame it crosses and again in the next one, whose stale check is the
      first to see it below and ends the round. */
  lemma MissedCountedTwice()
    ensures !RoundOver(TwoStones) && !RoundOver(Advance(TwoStones, {}))
    ensures RoundOver(Advance(TwoStones, {1}))
    ensures MissedAsWritten(TwoStones, [{1}, {}]) == 2
    ensures MissedCorrected(TwoStones, [{1}, {}]) == 1
  {
    var s := TwoStones;
    var s1 := Advance(s, {1});
    assert s1 == [s[0], s[1].(pastBottom := true)];
    assert Advance(s1, {}) == s1;
    assert Advance(s, {}) == s;
    assert !s[0].destroyed;
    assert MissedCount(s1) == 1 by {
      assert s1[..1] == [s[0]] && [s[0]][..0] == [];
      assert MissedCount([s[0]]) == 0;
    }
    assert NewlyMissed(s, {1}) == 1 by {
      assert s[..1][..0] == [];
    }
    assert NewlyMissed(s1, {}) == 0 by {
      assert s1[..1] == [s[0]] && [s[0]][..0] == [];
      assert NewlyMissed([s[0]], {}) == 0;
    }
    var frames: seq<set<nat>> := [{1}, {}];
    assert frames[1..] == [{}] && frames[1..][1..] == [];
    assert MissedAsWritten(s1, frames[1..]) == 1;
    assert MissedCorrected(s1, frames[1..]) == 0;
  }

  /** The game loop's round-complete test. */
  predicate RoundOver(s: seq<Stone>) {
    (forall i :: 0 <= i < |s| && s[i].isCorrect ==> s[i].destroyed)
    || (exists i :: 0 <= i < |s| && s[i].pastBottom)
  }

  /** A round whose correct option has no word longer than two characters is
      over at its first frame: the "all correct stones destroyed" test holds
      vacuously. */
  lemma NoCorrectWordsEndsAtOnce(q: Quiz.Question)
    requires Quiz.WellFormed(q) && CorrectWords(q) == []
    ensures RoundOver(InitialStones(q))
  {
    var s := InitialStones(q);
    forall i | 0 <= i < |s|
      ensures !s[i].isCorrect
    {
    }
  }

  /** A fresh round with at least one correct word is not over yet. */
  lemma FreshRoundRunning(q: Quiz.Question)
    requires Quiz.WellFormed(q) && CorrectWords(q) != []
    ensures !RoundOver(InitialStones(q))
  {
    InitialStonesShape(q);
    var s := InitialStones(q);
    assert s[0].isCorrect && !s[0].destroyed;
  }

  // ---------------------------------------------------------------------
  // Accuracy and rank

  datatype Rank = LogicMaster | TruthSeeker | FallacyHunter | StoneBreakerRank | Apprentice

  function MinReal(a: real, b: real): real {
    if a <= b then a else b
  }

  /** `calculateAccuracy` for a given divisor: score / (total * 100) * 100,
      capped at 100, and 0 when nothing was attempted. */
  function AccuracyOf(score: nat, total: nat): real {
    if total > 0 then MinReal(score as real / (total * 100) as real * 100.0, 100.0) else 0.0
  }

  /** `getPerformanceRank`. */
  function RankOf(accuracy: real): Rank {
    if accuracy >= 90.0 then LogicMaster
    else if accuracy >= 80.0 then TruthSeeker
    else if accuracy >= 70.0 then FallacyHunter
    else if accuracy >= 60.0 then StoneBreakerRank
    else Apprentice
  }

  lemma AccuracyAtLeast(score: nat, total: nat, t: real)
    requires total > 0 && 0.0 < t <= 100.0
    ensures AccuracyOf(score, total) >= t <==> score as real >= t * total as real
  {
    var d := (total * 100) as real;
    var q := score as real / d;
    assert q * d == score as real;
    assert score as real / d * 100.0 == score as real / total as real;
    var a := score as real / total as real;
    assert a * total as real == score as real;
    if a >= t {
      assert a * total as real >= t * total as real;
    } else {
      assert a * total as real < t * total as real;
    }
  }

  /** The rank needs no division: with `total` rounds counted it is decided
      by comparing the score with 90, 80, 70 and 60 points per round, and
      nothing counted means the lowest rank. */
  lemma RankByScore(score: nat, total: nat)
    ensures total == 0 ==> RankOf(AccuracyOf(score, total)) == Apprentice
    ensures total > 0 ==>
      && (RankOf(AccuracyOf(score, total)) == LogicMaster <==> score >= 90 * total)
      && (RankOf(AccuracyOf(score, total)) == TruthSeeker <==> 80 * total <= score < 90 * total)
      && (RankOf(AccuracyOf(score, total)) == FallacyHunter <==> 70 * total <= score < 80 * total)
      && (RankOf(AccuracyOf(score, total)) == StoneBreakerRank <==> 60 * total <= score < 70 * total)
      && (RankOf(AccuracyOf(score, total)) == Apprentice <==> score < 60 * total)
  {
    if total > 0 {
      AccuracyAtLeast(score, total, 90.0);
      AccuracyAtLeast(score, total, 80.0);
      AccuracyAtLeast(score, total, 70.0);
      AccuracyAtLeast(score, total, 60.0);
    }
  }

  /** Accuracy stays within 0..100 whatever the score. */
  lemma AccuracyBounded(score: nat, total: nat)
    ensures 0.0 <= AccuracyOf(score, total) <= 100.0
  {
    if total > 0 {
      var d := (total * 100) as real;
      assert score as real / d >= 0.0;
    }
  }

  // ---------------------------------------------------------------------
  // The game

  /** A fresh array holding the stones of a question, filled one by one. */
  method StonesArray(q: Quiz.Question) returns (a: array<Stone>)
    requires Quiz.WellFormed(q)
    ensures fresh(a) && a[..] == InitialStones(q) && StonesWellFormed(a[..])
  {
    var layout := InitialStones(q);
    InitialStonesWellFormed(q);
    a := new Stone[|layout|];
    var i := 0;
    while i < |layout|
      invariant 0 <= i <= |layout| && a.Length == |layout|
      invariant forall j :: 0 <= j < i ==> a[j] == layout[j]
      modifies a
    {
      a[i] := layout[i];
      i := i + 1;
    }
  }

  /** One frame's fall, in place: the stones of `crossed` that are not
      destroyed pass the bottom edge. */
  method AdvanceStones(a: array<Stone>, crossed: set<nat>)
    modifies a
    ensures a[..] == Advance(old(a[..]), crossed)
  {
    ghost var before := a[..];
    ghost var after := Advance(before, crossed);
    var i := 0;
    while i < a.Length
      invariant 0 <= i <= a.Length
      invariant a[..i] == after[..i]
      invariant a[i..] == before[i..]
    {
      var st := a[i];
      assert st == before[i];
      if !st.destroyed && i in crossed {
        a[i] := st.(pastBottom := true);
      }
      assert a[i] == after[i];
      assert a[..i + 1] == a[..i] + [a[i]];
      assert after[..i + 1] == after[..i] + [after[i]];
      i := i + 1;
    }
    assert a[..] == a[..a.Length];
  }

  class Game {
    const questions: seq<Quiz.Question>
    var currentQuestionIndex: nat
    var stones: array<Stone>
    var score: nat
    var streak: nat
    var maxStreak: nat
    var phase: Phase
    var correctStonesHit: nat
    var wrongStonesMissed: nat

    ghost predicate Valid()
      reads this, stones
    {
      && (forall i :: 0 <= i < |questions| ==> Quiz.WellFormed(questions[i]))
      && (if |questions| == 0 then currentQuestionIndex == 0 else currentQuestionIndex < |questions|)
      && (phase == Final ==> |questions| == 0 || currentQuestionIndex == |questions| - 1)
      && StonesWellFormed(stones[..])
    }

    constructor (questions: seq<Quiz.Question>)
      requires forall i :: 0 <= i < |questions| ==> Quiz.WellFormed(questions[i])
      ensures Valid() && fresh(stones)
      ensures this.questions == questions && currentQuestionIndex == 0 && stones[..] == []
      ensures score == 0 && streak == 0 && maxStreak == 0 && phase == QuestionShown
      ensures correctStonesHit == 0 && wrongStonesMissed == 0
    {
      this.questions := questions;
      currentQuestionIndex := 0;
      stones := new Stone[0];
      score, streak, maxStreak := 0, 0, 0;
      phase := QuestionShown;
      correctStonesHit, wrongStonesMissed := 0, 0;
    }

    /** `initializeStones`: lay out the stones of the current question and
      start it falling; without a current question nothing happens. */
    method InitializeStones()
      requires Valid()
      modifies this
      ensures Valid()
      ensures |questions| == 0 ==>
                stones == old(stones) && phase == old(phase)
                && correctStonesHit == old(correctStonesHit) && wrongStonesMissed == old(wrongStonesMissed)
      ensures |questions| > 0 ==>
                fresh(stones) && stones[..] == InitialStones(questions[currentQuestionIndex])
                && phase == Falling && correctStonesHit == 0 && wrongStonesMissed == 0
      ensures currentQuestionIndex == old(currentQuestionIndex)
      ensures score == old(score) && streak == old(streak) && maxStreak == old(maxStreak)
    {
      if |questions| == 0 {
        return;
      }
      var laid := StonesArray(questions[currentQuestionIndex]);
      stones := laid;
      phase := Falling;
      correctStonesHit, wrongStonesMissed := 0, 0;
    }

    /** The first stone with the given id, if any. */
    method FindStone(stoneId: nat) returns (k: Option<nat>)
      ensures k.Some? ==> k.value < stones.Length && stones[k.value].id == stoneId
      ensures k.None? ==> forall j :: 0 <= j < stones.Length ==> stones[j].id != stoneId
    {
      var i := 0;
      while i < stones.Length
        invariant 0 <= i <= stones.Length
        invariant forall j :: 0 <= j < i ==> stones[j].id != stoneId
      {
        if stones[i].id == stoneId {
          return Some(i);
        }
        i := i + 1;
      }
      return None;
    }

    /** `handleStoneClick`. Outside the falling phase nothing happens. Otherwise
        the clicked stone, if it exists and is neither destroyed nor hit, is
        destroyed (correct: +100 + 50 * streak, streak + 1) or hit (decoy: 1.3x
        speed, opacity 0.8, streak 0); and in every case the best streak
        becomes max(best, streak before the click + 1). */
    method HandleStoneClick(stoneId: nat)
      requires Valid()
      modifies this, stones
      ensures Valid() && stones == old(stones)
      ensures currentQuestionIndex == old(currentQuestionIndex) && phase == old(phase)
      ensures wrongStonesMissed == old(wrongStonesMissed)
      ensures old(phase) != Falling ==>
                stones[..] == old(stones[..]) && score == old(score) && streak == old(streak)
                && maxStreak == old(maxStreak) && correctStonesHit == old(correctStonesHit)
      ensures old(phase) == Falling ==>
                && stones[..] == ClickAll(old(stones[..]), stoneId)
                && maxStreak == Max(old(maxStreak), old(streak) + 1)
      ensures old(phase) == Falling ==>
                forall k :: 0 <= k < stones.Length && old(stones[k]).id == stoneId ==>
                  if Live(old(stones[k])) && old(stones[k]).isCorrect then
                    score == old(score) + 100 + 50 * old(streak) && streak == old(streak) + 1
                    && correctStonesHit == old(correctStonesHit) + 1
                  else if Live(old(stones[k])) then
                    score == old(score) && streak == 0 && correctStonesHit == old(correctStonesHit)
                  else
                    score == old(score) && streak == old(streak) && correctStonesHit == old(correctStonesHit)
      ensures (forall k :: 0 <= k < stones.Length ==> old(stones[k]).id != stoneId) ==>
                score == old(score) && streak == old(streak) && correctStonesHit == old(correctStonesHit)
      ensures score >= old(score)
    {
      if phase != Falling {
        return;
      }
      var oldStreak := streak;
      ghost var before := stones[..];
      var k := FindStone(stoneId);
      if k.Some? {
        ClickAllTouchesOnlyTarget(before, k.value);
        var st := stones[k.value];
        if Live(st) {
          if st.isCorrect {
            score := score + 100 + oldStreak * 50;
            streak := streak + 1;
            correctStonesHit := correctStonesHit + 1;
          } else {
            streak := 0;
          }
          stones[k.value] := Clicked(st, stoneId);
        }
        assert stones[..] == ClickAll(before, stoneId);
      } else {
        ClickUnknownId(before, stoneId);
      }
      maxStreak := Max(maxStreak, oldStreak + 1);
    }

    /** One animation frame while falling: the round-complete test reads the
        stones as they were before this frame, the stones fall (those in
        `crossed` pass the bottom), every live decoy below the bottom adds one
        to the missed count, and a finished round moves to `Complete`. */
    method Frame(crossed: set<nat>)
      requires Valid()
      modifies this, stones
      ensures Valid() && stones == old(stones)
      ensures currentQuestionIndex == old(currentQuestionIndex)
      ensures score == old(score) && streak == old(streak) && maxStreak == old(maxStreak)
      ensures correctStonesHit == old(correctStonesHit)
      ensures old(phase) != Falling ==>
                stones[..] == old(stones[..]) && phase == old(phase)
                && wrongStonesMissed == old(wrongStonesMissed)
      ensures old(phase) == Falling ==>
                && stones[..] == Advance(old(stones[..]), crossed)
                && wrongStonesMissed == old(wrongStonesMissed) + MissedCount(stones[..])
                && phase == if RoundOver(old(stones[..])) then Complete else Falling
    {
      if phase != Falling {
        return;
      }
      var over := RoundOver(stones[..]);
      AdvanceWellFormed(stones[..], crossed);
      AdvanceStones(stones, crossed);
      wrongStonesMissed := wrongStonesMissed + MissedCount(stones[..]);
      if over {
        phase := Complete;
      }
    }

    /** `nextQuestion`: advance to the next question, or after the last one
        show the final results without moving the index. */
    method NextQuestion()
      requires Valid()
      modifies this
      ensures Valid()
      ensures score == old(score) && streak == old(streak) && maxStreak == old(maxStreak)
      ensures correctStonesHit == old(correctStonesHit) && wrongStonesMissed == old(wrongStonesMissed)
      ensures old(currentQuestionIndex) + 1 < |questions| ==>
                currentQuestionIndex == old(currentQuestionIndex) + 1 && phase == QuestionShown
                && fresh(stones) && stones[..] == []
      ensures old(currentQuestionIndex) + 1 >= |questions| ==>
                currentQuestionIndex == old(currentQuestionIndex) && phase == Final
                && stones == old(stones)
    {
      if currentQuestionIndex + 1 < |questions| {
        currentQuestionIndex := currentQuestionIndex + 1;
        phase := QuestionShown;
        stones := new Stone[0];
      } else {
        phase := Final;
      }
    }

    /** `resetGame`: back to the first question with score and streaks zeroed. */
    method ResetGame()
      requires Valid()
      modifies this
      ensures Valid()
      ensures currentQuestionIndex == 0 && score == 0 && streak == 0 && maxStreak == 0
      ensures phase == QuestionShown && fresh(stones) && stones[..] == []
      ensures correctStonesHit == old(correctStonesHit) && wrongStonesMissed == old(wrongStonesMissed)
    {
      currentQuestionIndex := 0;
      score, streak, maxStreak := 0, 0, 0;
      phase := QuestionShown;
      stones := new Stone[0];
    }

    /** The divisor of `calculateAccuracy`: the current index, plus one unless
        the game is over. */
    function TotalQuestions(): nat
      reads this
    {
      currentQuestionIndex + (if phase == Final then 0 else 1)
    }

    function Accuracy(): real
      reads this
    {
      AccuracyOf(score, TotalQuestions())
    }

    function PerformanceRank(): Rank
      reads this
    {
      RankOf(Accuracy())
    }

    /** On the final screen of a non-empty game the divisor is the last index,
        one less than the number of questions played. */
    lemma FinalDivisor()
      requires Valid() && phase == Final && |questions| > 0
      ensures TotalQuestions() == |questions| - 1
    {
    }
  }

  /** The number of rounds played, as the accuracy formula evidently means it:
      the current round counts, and on the final screen that is every question. */
  function RoundsPlayed(currentQuestionIndex: nat): (n: nat)
    ensures n >= 1
  {
    currentQuestionIndex + 1
  }

  /** With rounds counted as played, the final accuracy of a game of `n`
      questions divides by `n`, so the rank compares the score with 90, 80,
      70 and 60 points for every question. */
  lemma RoundsPlayedAtFinal(n: nat, score: nat)
    requires n > 0
    ensures RoundsPlayed(n - 1) == n
    ensures RankOf(AccuracyOf(score, RoundsPlayed(n - 1))) == LogicMaster <==> score >= 90 * n
    ensures RankOf(AccuracyOf(score, RoundsPlayed(n - 1))) == Apprentice <==> score < 60 * n
  {
    RankByScore(score, n);
  }

  /** As written, fifteen rounds averaging 84 points (84%) are ranked Logic
      Master on the final screen, because the score is divided by 14. */
  lemma FinalDivisorOverstates()
    ensures RankOf(AccuracyOf(1260, 14)) == LogicMaster
    ensures RankOf(AccuracyOf(1260, RoundsPlayed(14))) == TruthSeeker
  {
    RankByScore(1260, 14);
    RankByScore(1260, 15);
  }
}
