/** The daily-challenge bank: ten argument snippets, each with the fallacy
    options offered and the subset that is correct, and the deterministic
    pick of the day from the date string. Argument texts and option names and
    descriptions are display text and are not kept. */
module ChallengeBank {
  import opened Common

  datatype Difficulty = Beginner | Intermediate | Advanced

  datatype Challenge = Challenge(
    id: string,
    correctFallacies: seq<string>,
    difficulty: Difficulty,
    optionIds: seq<string>)

  const Bank: seq<Challenge> := [
    Challenge("climate-parking", ["ad-hominem", "false-cause"], Beginner,
      ["ad-hominem", "strawman", "false-cause", "slippery-slope", "appeal-authority", "bandwagon"]),
    Challenge("video-games-violence", ["false-cause", "hasty-generalization"], Intermediate,
      ["false-cause", "hasty-generalization", "ad-hominem", "strawman", "slippery-slope", "appeal-emotion"]),
    Challenge("organic-food", ["bandwagon", "appeal-authority", "false-cause"], Intermediate,
      ["bandwagon", "appeal-authority", "false-cause", "ad-hominem", "circular-reasoning", "red-herring"]),
    Challenge("homework-grades", ["slippery-slope"], Beginner,
      ["slippery-slope", "strawman", "false-dilemma", "appeal-emotion", "hasty-generalization", "bandwagon"]),
    Challenge("celebrity-politician", ["ad-hominem", "strawman"], Intermediate,
      ["ad-hominem", "strawman", "appeal-authority", "false-cause", "circular-reasoning", "red-herring"]),
    Challenge("social-media-ban", ["false-dilemma", "false-cause"], Advanced,
      ["false-dilemma", "false-cause", "slippery-slope", "hasty-generalization", "appeal-emotion", "strawman"]),
    Challenge("electric-cars", ["hasty-generalization", "ad-hominem"], Beginner,
      ["hasty-generalization", "ad-hominem", "strawman", "false-cause", "appeal-authority", "bandwagon"]),
    Challenge("vaccine-debate", ["false-equivalence", "appeal-authority"], Advanced,
      ["false-equivalence", "appeal-authority", "ad-hominem", "false-dilemma", "circular-reasoning", "red-herring"]),
    Challenge("student-protest", ["slippery-slope"], Beginner,
      ["slippery-slope", "strawman", "hasty-generalization", "appeal-emotion", "false-dilemma", "ad-hominem"]),
    Challenge("remote-work", ["appeal-authority", "false-cause", "hasty-generalization"], Intermediate,
      ["appeal-authority", "false-cause", "hasty-generalization", "bandwagon", "strawman", "ad-hominem"])
  ]

  /** A challenge can be graded: it has a correct answer, every correct id is
      non-empty and offered as an option, and neither list repeats an id. */
  predicate ChallengeWellFormed(c: Challenge) {
    && |c.correctFallacies| >= 1
    && (forall f :: f in c.correctFallacies ==> f != "" && f in c.optionIds)
    && Distinct(c.correctFallacies)
    && Distinct(c.optionIds)
  }

  /** The bank holds ten well-formed challenges with distinct ids. */
  lemma BankWellFormed()
    ensures |Bank| == 10
    ensures forall i :: 0 <= i < |Bank| ==> ChallengeWellFormed(Bank[i])
    ensures forall i, j :: 0 <= i < j < |Bank| ==> Bank[i].id != Bank[j].id
  {
    forall i | 0 <= i < |Bank|
      ensures ChallengeWellFormed(Bank[i])
    {
      ChallengeWellFormedAt(i);
    }
  }

  lemma ChallengeWellFormedAt(i: nat)
    requires i < |Bank|
    ensures ChallengeWellFormed(Bank[i])
  {
    if i == 0 { Entry0(); }
    else if i == 1 { Entry1(); }
    else if i == 2 { Entry2(); }
    else if i == 3 { Entry3(); }
    else if i == 4 { Entry4(); }
    else if i == 5 { Entry5(); }
    else if i == 6 { Entry6(); }
    else if i == 7 { Entry7(); }
    else if i == 8 { Entry8(); }
    else { Entry9(); }
  }

  // One entry per proof, so that each literal is checked on its own.
  lemma Entry0() ensures ChallengeWellFormed(Bank[0]) { }
  lemma Entry1() ensures ChallengeWellFormed(Bank[1]) { }
  lemma Entry2() ensures ChallengeWellFormed(Bank[2]) { }
  lemma Entry3() ensures ChallengeWellFormed(Bank[3]) { }
  lemma Entry4() ensures ChallengeWellFormed(Bank[4]) { }
  lemma Entry5() ensures ChallengeWellFormed(Bank[5]) { }
  lemma Entry6() ensures ChallengeWellFormed(Bank[6]) { }
  lemma Entry7() ensures ChallengeWellFormed(Bank[7]) { }
  lemma Entry8() ensures ChallengeWellFormed(Bank[8]) { }
  lemma Entry9() ensures ChallengeWellFormed(Bank[9]) { }

  /** `getChallengeDifficulties`. */
  function ChallengeDifficulties(): (r: seq<Difficulty>)
    ensures |r| == 3 && Distinct(r)
  {
    [Beginner, Intermediate, Advanced]
  }

  /** The list names every difficulty a challenge can have, each once. */
  lemma DifficultiesCoverUnion(d: Difficulty)
    ensures d in ChallengeDifficulties()
    ensures exists i :: 0 <= i < 3 && ChallengeDifficulties()[i] == d
  {
    match d {
      case Beginner => assert ChallengeDifficulties()[0] == d;
      case Intermediate => assert ChallengeDifficulties()[1] == d;
      case Advanced => assert ChallengeDifficulties()[2] == d;
    }
  }

  // ---------------------------------------------------------------------
  // Pick of the day

  /** `toISOString().split('T')[0]`. */
  function IsoDatePart(iso: string): string {
    Split(iso, 'T')[0]
  }

  /** Every instant of a UTC date yields that date's string. */
  lemma IsoDatePartOfInstant(date: string, time: string)
    requires 'T' !in date
    ensures IsoDatePart(date + ['T'] + time) == date
  {
    SplitFirstPart(date, 'T', time);
  }

  function Code(c: char): nat {
    c as nat
  }

  /** The polynomial hash, Horner style: each character multiplies what came
      before by 31. */
  function PolyHash(s: string): nat {
    if s == [] then 0 else PolyHash(s[..|s| - 1]) * 31 + Code(s[|s| - 1])
  }

  function Pow31(e: nat): nat {
    if e == 0 then 1 else 31 * Pow31(e - 1)
  }

  /** The same hash as a sum: the i-th of k characters weighs 31^(k-1-i). */
  function PolySum(s: string): nat {
    if s == [] then 0 else Code(s[0]) * Pow31(|s| - 1) + PolySum(s[1..])
  }

  lemma {:induction false} PolySumSnoc(s: string, c: char)
    ensures PolySum(s + [c]) == PolySum(s) * 31 + Code(c)
  {
    if s != [] {
      assert (s + [c])[1..] == s[1..] + [c];
      PolySumSnoc(s[1..], c);
      calc {
        PolySum(s + [c]);
        Code(s[0]) * Pow31(|s|) + PolySum(s[1..] + [c]);
        Code(s[0]) * (31 * Pow31(|s| - 1)) + PolySum(s[1..]) * 31 + Code(c);
        (Code(s[0]) * Pow31(|s| - 1) + PolySum(s[1..])) * 31 + Code(c);
      }
    }
  }

  /** The Horner fold is the weighted sum of the character codes. */
  lemma {:induction false} PolyHashIsSum(s: string)
    ensures PolyHash(s) == PolySum(s)
  {
    if s != [] {
      var init := s[..|s| - 1];
      PolyHashIsSum(init);
      assert init + [s[|s| - 1]] == s;
      PolySumSnoc(init, s[|s| - 1]);
    }
  }

  /** Reducing before the next Horner step does not change the residue. */
  lemma HornerMod(a: nat, c: nat, n: nat)
    requires n > 0
    ensures ((a % n) * 31 + c) % n == (a * 31 + c) % n
  {
    var q := a / n;
    assert a == q * n + a % n;
    assert a * 31 + c == (q * 31) * n + ((a % n) * 31 + c);
    ModAddMultiple((a % n) * 31 + c, q * 31, n);
  }

  lemma ModAddMultiple(x: nat, k: nat, n: nat)
    requires n > 0
    ensures (k * n + x) % n == x % n
  {
    var y := k * n + x;
    var q, r := x / n + k, x % n;
    assert y == q * n + r by {
      assert x == (x / n) * n + r;
    }
    ModUnique(y, q, r, n);
  }

  /** Euclidean division is unique. */
  lemma ModUnique(y: int, q: int, r: int, n: int)
    requires n > 0 && 0 <= r < n && y == q * n + r
    ensures y % n == r
  {
    var q', r' := y / n, y % n;
    assert q * n + r == q' * n + r';
    assert (q - q') * n == r' - r;
    if q > q' {
      MulAtLeast(q - q', n);
    } else if q < q' {
      MulAtLeast(q' - q, n);
    }
  }

  lemma {:induction false} MulAtLeast(a: int, n: int)
    requires a >= 1 && n > 0
    ensures a * n >= n
    decreases a
  {
    if a > 1 {
      MulAtLeast(a - 1, n);
      assert a * n == (a - 1) * n + n;
    }
  }

  /** `getDailyChallengeByDate` from the ISO timestamp: the seed fold over
      the date string, reduced modulo the bank size at every step. */
  method DailyIndex(iso: string, n: nat) returns (index: nat)
    requires n > 0
    ensures index < n
    ensures index == PolySum(IsoDatePart(iso)) % n
  {
    var dateString := IsoDatePart(iso);
    var seed := 0;
    var i := 0;
    while i < |dateString|
      invariant 0 <= i <= |dateString|
      invariant seed == PolyHash(dateString[..i]) % n
    {
      assert dateString[..i + 1][..i] == dateString[..i];
      HornerMod(PolyHash(dateString[..i]), Code(dateString[i]), n);
      seed := (seed * 31 + Code(dateString[i])) % n;
      i := i + 1;
    }
    assert dateString[..i] == dateString;
    PolyHashIsSum(dateString);
    index := Abs(seed);
  }

  /** `Math.abs`, a no-op here because the seed is never negative. */
  function Abs(x: int): (r: nat)
    ensures x >= 0 ==> r == x
    ensures r == x || r == -x
  {
    if x < 0 then -x else x
  }

  method DailyChallengeByDate(iso: string) returns (c: Challenge)
    ensures c == Bank[PolySum(IsoDatePart(iso)) % |Bank|]
    ensures c in Bank
  {
    var index := DailyIndex(iso, |Bank|);
    c := Bank[index];
  }

  /** Two instants of the same UTC date pick the same challenge. */
  lemma SameDateSameIndex(date: string, time1: string, time2: string, n: nat)
    requires 'T' !in date && n > 0
    ensures PolySum(IsoDatePart(date + ['T'] + time1)) % n
         == PolySum(IsoDatePart(date + ['T'] + time2)) % n
  {
    IsoDatePartOfInstant(date, time1);
    IsoDatePartOfInstant(date, time2);
  }
}
