/** Tournament mode: a bracket screen, a ten-minute debate whose clock ends
    in the results screen, 150 points per won match, rounds from the
    quarter-finals to the finals, and the leaderboard's avatar initials. */
module Tournament {
  import opened Common

  datatype Phase = Bracket | Debate | Results | Complete

  datatype Round = QuarterFinals | SemiFinals | Finals

  const InitialPoints := 1250
  const WinPoints := 150
  const MatchLength := 600

  /** The round after `r`; the finals are followed by the finals. */
  function NextRound(r: Round): (n: Round)
    ensures r == Finals <==> n == r
  {
    match r
      case QuarterFinals => SemiFinals
      case SemiFinals => Finals
      case Finals => Finals
  }

  function RoundNumber(r: Round): nat {
    match r
      case QuarterFinals => 0
      case SemiFinals => 1
      case Finals => 2
  }

  /** Advancing never goes back, moves at most one round, and reaches the
      finals within two steps from anywhere. */
  lemma NextRoundProgress(r: Round)
    ensures RoundNumber(NextRound(r)) == if r == Finals then 2 else RoundNumber(r) + 1
    ensures NextRound(NextRound(r)) == Finals
  {
  }

  class Session {
    var phase: Phase
    var round: Round
    var timer: nat
    const userRank: nat
    var userPoints: nat

    /** Points are the starting 1250 plus a whole number of wins, the clock
        never exceeds ten minutes, and the completion screen is never shown:
        no handler leaves the phase at `Complete`. */
    ghost predicate Valid()
      reads this
    {
      && userRank == 8
      && userPoints >= InitialPoints && (userPoints - InitialPoints) % WinPoints == 0
      && timer <= MatchLength
      && phase != Complete
    }

    constructor ()
      ensures Valid()
      ensures phase == Bracket && round == QuarterFinals && timer == MatchLength && userPoints == InitialPoints
    {
      phase := Bracket;
      round := QuarterFinals;
      timer := MatchLength;
      userRank := 8;
      userPoints := InitialPoints;
    }

    /** One firing of the timer effect: the debate clock ticks down, and at
        zero the debate ends in the results screen. */
    method TimerTick()
      requires Valid()
      modifies this
      ensures Valid()
      ensures old(phase) == Debate && old(timer) > 0 ==> phase == Debate && timer == old(timer) - 1
      ensures old(phase) == Debate && old(timer) == 0 ==> phase == Results && timer == 0
      ensures old(phase) != Debate ==> phase == old(phase) && timer == old(timer)
      ensures round == old(round) && userPoints == old(userPoints)
    {
      if phase == Debate && timer > 0 {
        timer := timer - 1;
      } else if phase == Debate && timer == 0 {
        phase := Results;
      }
    }

    /** `startMatch`: a ten-minute debate. */
    method StartMatch()
      requires Valid()
      modifies this
      ensures Valid()
      ensures phase == Debate && timer == MatchLength
      ensures round == old(round) && userPoints == old(userPoints)
    {
      phase := Debate;
      timer := MatchLength;
    }

    /** `completeMatch(won)`: the results screen, 150 points for a win. */
    method CompleteMatch(won: bool)
      requires Valid()
      modifies this
      ensures Valid()
      ensures phase == Results
      ensures userPoints == old(userPoints) + (if won then WinPoints else 0)
      ensures round == old(round) && timer == old(timer)
    {
      phase := Results;
      if won {
        userPoints := userPoints + WinPoints;
      }
    }

    /** `advanceToNextRound`: the next round, and back to the bracket. In the
        finals the handler first sets the completion phase, but the bracket
        phase it sets afterwards is the one that stays. */
    method AdvanceToNextRound()
      requires Valid()
      modifies this
      ensures Valid()
      ensures round == NextRound(old(round)) && phase == Bracket
      ensures timer == old(timer) && userPoints == old(userPoints)
    {
      if round == QuarterFinals {
        round := SemiFinals;
      } else if round == SemiFinals {
        round := Finals;
      } else {
        phase := Complete;
      }
      phase := Bracket;
    }

    /** The debate screen's "Back to Bracket" button: the bracket shows again
        with no result recorded, and the clock stops where it stood, since the
        timer effect only runs during a debate. */
    method BackToBracket()
      requires Valid()
      modifies this
      ensures Valid()
      ensures phase == Bracket
      ensures round == old(round) && timer == old(timer) && userPoints == old(userPoints)
    {
      phase := Bracket;
    }

    /** The number of matches won so far. */
    function Wins(): (w: nat)
      requires Valid()
      reads this
      ensures userPoints == InitialPoints + WinPoints * w
    {
      (userPoints - InitialPoints) / WinPoints
    }
  }

  // ---------------------------------------------------------------------
  // Avatar initials

  function Heads(parts: seq<string>): (r: string)
    ensures |r| <= |parts|
  {
    if parts == [] then [] else (if parts[0] == [] then [] else [parts[0][0]]) + Heads(parts[1..])
  }

  /** `name.split(' ').map(n => n[0]).join('')`: an empty part contributes
      nothing, since `undefined` joins as the empty string. */
  function Initials(name: string): string {
    Heads(Split(name, ' '))
  }

  /** For a name made of non-empty, space-free words joined by single
      spaces, the initials are the words' first letters in order. */
  lemma InitialsOfWords(words: seq<string>)
    requires |words| >= 1
    requires forall i :: 0 <= i < |words| ==> words[i] != [] && ' ' !in words[i]
    ensures |Initials(Join(words, ' '))| == |words|
    ensures forall i :: 0 <= i < |words| ==> Initials(Join(words, ' '))[i] == words[i][0]
  {
    SplitJoin(words, ' ');
    HeadsOfNonEmpty(words);
  }

  lemma {:induction false} HeadsOfNonEmpty(parts: seq<string>)
    requires forall i :: 0 <= i < |parts| ==> parts[i] != []
    ensures |Heads(parts)| == |parts|
    ensures forall i :: 0 <= i < |parts| ==> Heads(parts)[i] == parts[i][0]
  {
    if parts != [] {
      HeadsOfNonEmpty(parts[1..]);
    }
  }

  /** No initial is a space. */
  lemma {:induction false} InitialsHaveNoSpace(name: string)
    ensures ' ' !in Initials(name)
  {
    SplitPartsSeparatorFree(name, ' ');
    HeadsSeparatorFree(Split(name, ' '), ' ');
  }

  lemma {:induction false} HeadsSeparatorFree(parts: seq<string>, sep: char)
    requires forall p :: p in parts ==> sep !in p
    ensures sep !in Heads(parts)
  {
    if parts != [] {
      assert parts[0] in parts;
      HeadsSeparatorFree(parts[1..], sep);
    }
  }
}
