/** The progress page: totals and counts over the module list, the weekly
    bar width, and the colour lookups for levels and statuses. */
module ProgressPage {
  import opened Common

  datatype ModuleProgress = ModuleProgress(id: string, completion: nat, timeSpent: nat, level: string, status: string)

  const Modules: seq<ModuleProgress> := [
    ModuleProgress("debate-fundamentals", 75, 45, "Beginner", "In Progress"),
    ModuleProgress("british-parliamentary", 60, 36, "Intermediate", "In Progress"),
    ModuleProgress("advanced-rebuttals", 30, 18, "Advanced", "Started"),
    ModuleProgress("fallacy-detection", 0, 0, "Intermediate", "Not Started")
  ]

  /** The completed-modules card divides by a literal 4. */
  const DisplayedModuleCount := 4

  lemma DisplayedCountMatches()
    ensures DisplayedModuleCount == |Modules|
  {
  }

  /** `reduce((sum, m) => sum + m.timeSpent, 0)`. */
  function TotalTime(ms: seq<ModuleProgress>): nat {
    if ms == [] then 0 else ms[0].timeSpent + TotalTime(ms[1..])
  }

  function TotalCompletion(ms: seq<ModuleProgress>): nat {
    if ms == [] then 0 else ms[0].completion + TotalCompletion(ms[1..])
  }

  predicate PercentagesValid(ms: seq<ModuleProgress>) {
    forall i :: 0 <= i < |ms| ==> ms[i].completion <= 100
  }

  lemma {:induction false} TotalCompletionBound(ms: seq<ModuleProgress>)
    requires PercentagesValid(ms)
    ensures TotalCompletion(ms) <= 100 * |ms|
  {
    if ms != [] {
      TotalCompletionBound(ms[1..]);
    }
  }

  /** `Math.round(totalCompletion / n)`: with every completion a percentage
      the average is one too. */
  function AverageCompletion(ms: seq<ModuleProgress>): (avg: nat)
    requires |ms| >= 1 && PercentagesValid(ms)
    ensures avg <= 100
  {
    TotalCompletionBound(ms);
    RoundHalfUpAtMost(TotalCompletion(ms), |ms|, 100);
    RoundHalfUp(TotalCompletion(ms), |ms|)
  }

  /** Rounding an average of values at most `cap` stays at most `cap`. */
  lemma RoundHalfUpAtMost(num: nat, den: nat, cap: nat)
    requires den > 0 && num <= cap * den
    ensures RoundHalfUp(num, den) <= cap
  {
    var r := RoundHalfUp(num, den);
    if r > cap {
      MulMono(cap + 1, r, 2 * den);
    }
  }

  lemma {:induction false} MulMono(a: nat, b: nat, c: nat)
    requires a <= b
    ensures a * c <= b * c
  {
    if c > 0 {
      MulMono(a, b, c - 1);
      assert a * c == a * (c - 1) + a;
      assert b * c == b * (c - 1) + b;
    }
  }

  predicate IsCompleted(m: ModuleProgress) {
    m.completion == 100
  }

  predicate IsInProgress(m: ModuleProgress) {
    0 < m.completion < 100
  }

  function ModulesCompleted(ms: seq<ModuleProgress>): nat {
    |Filter(ms, IsCompleted)|
  }

  function ModulesInProgress(ms: seq<ModuleProgress>): nat {
    |Filter(ms, IsInProgress)|
  }

  function ModulesNotStarted(ms: seq<ModuleProgress>): nat {
    |Filter(ms, (m: ModuleProgress) => m.completion == 0)|
  }

  /** Completed, in progress and not started partition the modules whose
      completion is a percentage. */
  lemma {:induction false} CountsPartition(ms: seq<ModuleProgress>)
    requires PercentagesValid(ms)
    ensures ModulesCompleted(ms) + ModulesInProgress(ms) + ModulesNotStarted(ms) == |ms|
  {
    if ms != [] {
      CountsPartition(ms[1..]);
    }
  }

  /** What the cards show for the module list: 99 minutes, an average of
      41%, nothing completed and three modules in progress. */
  lemma PageFigures()
    ensures TotalTime(Modules) == 99
    ensures AverageCompletion(Modules) == 41
    ensures ModulesCompleted(Modules) == 0 && ModulesInProgress(Modules) == 3
  {
    assert Modules[1..][1..][1..][1..] == [];
    assert TotalCompletion(Modules) == 165;
    assert RoundHalfUp(165, 4) == 41;
  }

  /** The weekly bar: `Math.min(hours / 15 * 100, 100)` percent. */
  function BarWidth(hours: nat): (w: real)
    ensures 0.0 <= w <= 100.0
    ensures w == 100.0 <==> hours >= 15
  {
    var raw := hours as real / 15.0 * 100.0;
    if raw < 100.0 then raw else 100.0
  }

  datatype Colour = Emerald | Amber | Red | Gray | Blue | Yellow | Green

  /** `getLevelColor`: unrecognised levels are gray. */
  function LevelColour(level: string): (c: Colour)
    ensures level != "Beginner" && level != "Intermediate" && level != "Advanced" ==> c == Gray
    ensures c == Gray ==> level != "Beginner" && level != "Intermediate" && level != "Advanced"
  {
    if level == "Beginner" then Emerald
    else if level == "Intermediate" then Amber
    else if level == "Advanced" then Red
    else Gray
  }

  /** `getStatusColor`: any status other than the three known ones is shown
      in the completed style, green. */
  function StatusColour(status: string): (c: Colour)
    ensures status != "In Progress" && status != "Started" && status != "Not Started" ==> c == Green
    ensures c == Green ==> status != "In Progress" && status != "Started" && status != "Not Started"
  {
    if status == "In Progress" then Blue
    else if status == "Started" then Yellow
    else if status == "Not Started" then Gray
    else Green
  }
}
