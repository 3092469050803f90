/** The daily-challenge page: the reader picks the fallacies they see in an
    argument, submits, and each option is then marked correct, incorrect,
    missed or left plain. The challenge arrives after a short loading delay;
    that arrival is an explicit event here. */
module DailyChallenge {
  import opened Common
  import opened ChallengeBank

  datatype Status = Default | Correct | Incorrect | Missed

  datatype ResultMessage = Perfect | GoodEffort | KeepPracticing

  /** `s.filter(x => x !== id)`. */
  function Without(s: seq<string>, id: string): (r: seq<string>)
    ensures id !in r
    ensures forall x :: x in r <==> x in s && x != id
    ensures |r| <= |s|
  {
    if s == [] then []
    else (if s[0] == id then [] else [s[0]]) + Without(s[1..], id)
  }

  /** `s.filter(x => c.includes(x)).length`. */
  function CountIn(s: seq<string>, c: seq<string>): (n: nat)
    ensures n <= |s|
  {
    if s == [] then 0 else (if s[0] in c then 1 else 0) + CountIn(s[1..], c)
  }

  lemma {:induction false} WithoutKeepsDistinct(s: seq<string>, id: string)
    requires Distinct(s)
    ensures Distinct(Without(s, id))
  {
    if s != [] {
      WithoutKeepsDistinct(s[1..], id);
      var rest := Without(s[1..], id);
      assert s[0] !in s[1..];
    }
  }

  /** Without repetitions the count is the number of common elements. */
  lemma {:induction false} CountInIsCommonElements(s: seq<string>, c: seq<string>)
    requires Distinct(s)
    ensures CountIn(s, c) == |Elements(s) * Elements(c)|
  {
    if s != [] {
      assert Distinct(s[1..]);
      CountInIsCommonElements(s[1..], c);
      assert s[0] !in s[1..];
      CommonElementsCons(s, c);
    }
  }

  /** The common elements of a non-empty sequence: its head when shared,
      plus those of its tail. */
  lemma CommonElementsCons(s: seq<string>, c: seq<string>)
    requires s != []
    ensures Elements(s) * Elements(c)
            == (if s[0] in c then {s[0]} else {}) + Elements(s[1..]) * Elements(c)
  {
    forall x
      ensures x in Elements(s) <==> x == s[0] || x in Elements(s[1..])
    {
      if x in Elements(s) && x != s[0] {
        var j :| 0 <= j < |s| && s[j] == x;
        assert s[1..][j - 1] == x;
      }
    }
  }

  /** The count reaches the length exactly when every element is in `c`. */
  lemma {:induction false} CountInAll(s: seq<string>, c: seq<string>)
    ensures CountIn(s, c) == |s| <==> forall x :: x in s ==> x in c
  {
    if s != [] {
      CountInAll(s[1..], c);
      assert forall x :: x in s <==> x == s[0] || x in s[1..];
    }
  }

  /** Confetti test: with no repeated ids on either side, "as many hits as
      correct answers, and no more picks than that" means the selection is
      exactly the correct set. */
  lemma {:induction false} ConfettiIffExact(selected: seq<string>, correct: seq<string>)
    requires Distinct(selected) && Distinct(correct)
    ensures (CountIn(selected, correct) == |correct| && |selected| == |correct|)
            <==> Elements(selected) == Elements(correct)
  {
    DistinctCard(selected);
    DistinctCard(correct);
    CountInAll(selected, correct);
    if CountIn(selected, correct) == |correct| && |selected| == |correct| {
      assert Elements(selected) <= Elements(correct);
      SubsetSameCard(Elements(selected), Elements(correct));
    }
    if Elements(selected) == Elements(correct) {
      assert forall x :: x in selected ==> x in correct by {
        forall x | x in selected
          ensures x in correct
        {
          assert x in Elements(selected);
        }
      }
    }
  }

  /** `getOptionStatus` once submitted: by whether the option was picked and
      whether it is a correct answer. */
  function StatusOf(isSelected: bool, isCorrect: bool): Status {
    if isSelected && isCorrect then Correct
    else if isSelected && !isCorrect then Incorrect
    else if !isSelected && isCorrect then Missed
    else Default
  }

  /** The message under the score compares the hits with the number of
      correct answers only. */
  function MessageFor(correctCount: nat, totalCorrect: nat): ResultMessage {
    if correctCount == totalCorrect then Perfect
    else if correctCount > 0 then GoodEffort
    else KeepPracticing
  }

  /** Picking both answers of the first challenge plus a wrong one reads
      "Perfect!" although it earns no confetti. */
  lemma PerfectWithExtraPick()
    ensures var c := Bank[0];
            var picked := c.correctFallacies + ["strawman"];
            && MessageFor(CountIn(picked, c.correctFallacies), |c.correctFallacies|) == Perfect
            && !(CountIn(picked, c.correctFallacies) == |c.correctFallacies| && |picked| == |c.correctFallacies|)
  {
    var correct := ["ad-hominem", "false-cause"];
    assert Bank[0].correctFallacies == correct;
    var picked := correct + ["strawman"];
    assert picked == ["ad-hominem", "false-cause", "strawman"];
    assert "strawman" !in correct;
    assert CountIn(["strawman"], correct) == 0;
    assert CountIn(["false-cause", "strawman"], correct) == 1;
    assert CountIn(picked, correct) == 2;
  }

  class Page {
    var challenge: Option<Challenge>
    var selected: seq<string>
    var submitted: bool
    var showConfetti: bool
    var loading: bool

    ghost predicate Valid()
      reads this
    {
      && Distinct(selected)
      && (submitted ==> challenge.Some?)
      && (challenge.Some? ==> ChallengeWellFormed(challenge.value))
    }

    /** Mounting: nothing loaded yet, nothing picked. */
    constructor ()
      ensures Valid()
      ensures challenge == None && selected == [] && !submitted && !showConfetti && loading
    {
      challenge := None;
      selected := [];
      submitted := false;
      showConfetti := false;
      loading := true;
    }

    /** The loading delay ends and the challenge chosen for it (the pick of
        the day on mounting, a random bank entry after "new challenge") is
        shown. */
    method ChallengeArrived(c: Challenge)
      requires Valid() && ChallengeWellFormed(c)
      modifies this
      ensures Valid()
      ensures challenge == Some(c) && !loading
      ensures selected == old(selected) && submitted == old(submitted)
      ensures showConfetti == old(showConfetti)
    {
      challenge := Some(c);
      loading := false;
    }

    /** `loadNewChallenge`: back to loading with the picks, the submission and
        the confetti cleared; the old challenge stays until the new one arrives. */
    method LoadNewChallenge()
      requires Valid()
      modifies this
      ensures Valid()
      ensures loading && !submitted && selected == [] && !showConfetti
      ensures challenge == old(challenge)
    {
      loading := true;
      submitted := false;
      selected := [];
      showConfetti := false;
    }

    /** `handleFallacyToggle`: after submitting nothing changes; otherwise a
        picked id is removed and an unpicked one appended. */
    method Toggle(id: string)
      requires Valid()
      modifies this
      ensures Valid()
      ensures old(submitted) ==> selected == old(selected)
      ensures !old(submitted) ==>
                selected == if id in old(selected) then Without(old(selected), id) else old(selected) + [id]
      ensures !old(submitted) ==> (id in selected <==> id !in old(selected))
      ensures forall x :: x != id ==> (x in selected <==> x in old(selected))
      ensures challenge == old(challenge) && submitted == old(submitted)
      ensures showConfetti == old(showConfetti) && loading == old(loading)
    {
      if submitted {
        return;
      }
      if id in selected {
        WithoutKeepsDistinct(selected, id);
        selected := Without(selected, id);
      } else {
        selected := selected + [id];
      }
    }

    /** `handleSubmit`: without a challenge nothing happens; otherwise the
        answer is submitted, and the confetti starts exactly when the picks
        are the correct set. */
    method Submit()
      requires Valid()
      modifies this
      ensures Valid()
      ensures old(challenge).None? ==>
                submitted == old(submitted) && showConfetti == old(showConfetti)
      ensures old(challenge).Some? ==> submitted
      ensures old(challenge).Some? ==>
                (showConfetti <==>
                  old(showConfetti) || Elements(selected) == Elements(challenge.value.correctFallacies))
      ensures challenge == old(challenge) && selected == old(selected) && loading == old(loading)
    {
      if challenge.None? {
        return;
      }
      submitted := true;
      var correct := challenge.value.correctFallacies;
      var correctCount := CountIn(selected, correct);
      if correctCount == |correct| && |selected| == |correct| {
        showConfetti := true;
      }
      ConfettiIffExact(selected, correct);
    }

    /** The confetti timer runs out. */
    method ConfettiDone()
      modifies this
      ensures !showConfetti
      ensures challenge == old(challenge) && selected == old(selected)
      ensures submitted == old(submitted) && loading == old(loading)
    {
      showConfetti := false;
    }

    /** `getOptionStatus`. */
    function OptionStatus(id: string): (st: Status)
      reads this
      requires Valid()
      ensures !submitted ==> st == Default
      ensures submitted ==> (st == Correct <==> id in selected && id in challenge.value.correctFallacies)
      ensures submitted ==> (st == Incorrect <==> id in selected && id !in challenge.value.correctFallacies)
      ensures submitted ==> (st == Missed <==> id !in selected && id in challenge.value.correctFallacies)
    {
      if !submitted then Default
      else StatusOf(id in selected, id in challenge.value.correctFallacies)
    }

    /** The score shown: hits among the picks once submitted, 0 before. */
    function DisplayedCorrectCount(): (n: nat)
      reads this
      ensures n <= |selected|
      ensures n > 0 ==> submitted && challenge.Some?
    {
      if submitted && challenge.Some? then CountIn(selected, challenge.value.correctFallacies) else 0
    }

    /** The submit button is enabled only with at least one pick. */
    predicate SubmitEnabled()
      reads this
    {
      |selected| > 0
    }
  }

  /** The "correct" marks add up to the displayed score, provided the picks
      are among the offered options. */
  lemma {:induction false} CorrectMarksMatchScore(options: seq<string>, selected: seq<string>, correct: seq<string>)
    requires Distinct(options) && Distinct(selected)
    requires forall x :: x in selected ==> x in options
    ensures |set x | x in options && StatusOf(x in selected, x in correct) == Correct|
         == CountIn(selected, correct)
  {
    CountInIsCommonElements(selected, correct);
    assert (set x | x in options && StatusOf(x in selected, x in correct) == Correct)
        == Elements(selected) * Elements(correct);
  }
}
