/** Section progress of the learning-module pages: the learning module, the
    three topic modules and the British Parliamentary page share one logic —
    a list of completed section indices that only ever gains an index it
    lacks, a cursor that advances on completion and clamps at zero on
    Previous, and a percentage of sections completed. The British
    Parliamentary page also sums per-section XP over the completed list. */
module SectionProgress {
  import opened Common

  /** Section kinds, as listed by each page (they choose only an icon). */
  datatype SectionKind = Video | YouTube | Interactive | Reading | Quiz | AiChat | Theory

  const LearningModuleSections: seq<SectionKind> :=
    [YouTube, YouTube, YouTube, Video, Interactive, Reading, Quiz, AiChat]
  const LearningModuleTotal := 8
  const FallacyDetectionSections: seq<SectionKind> :=
    [Video, Reading, Interactive, Interactive, Reading, Video, Quiz, AiChat]
  const FallacyDetectionTotal := 8
  const BpModuleSections: seq<SectionKind> := [Video, Reading, Interactive, Interactive, Reading, Quiz]
  const BpModuleTotal := 6
  const AdvancedRebuttalsSections: seq<SectionKind> :=
    [Video, Reading, Interactive, Interactive, Reading, Video, Quiz]
  const AdvancedRebuttalsTotal := 7
  const BpPageSections: seq<SectionKind> := [Video, Theory, Theory, Interactive, Theory, Quiz, AiChat]
  const BpPageTotal := 7

  /** Each page's declared section total is the length of its section list,
      so the percentage divides by the number of sections that can be completed. */
  lemma DeclaredTotalsMatch()
    ensures |LearningModuleSections| == LearningModuleTotal
    ensures |FallacyDetectionSections| == FallacyDetectionTotal
    ensures |BpModuleSections| == BpModuleTotal
    ensures |AdvancedRebuttalsSections| == AdvancedRebuttalsTotal
    ensures |BpPageSections| == BpPageTotal
  {
  }

  // ---------------------------------------------------------------------
  // The completed list

  /** `handleSectionComplete`'s update of the completed list: append the
      index unless it is already there. */
  function WithSection(completed: seq<nat>, i: nat): (r: seq<nat>)
    ensures i in r
    ensures forall x :: x in r <==> x in completed || x == i
    ensures |completed| <= |r| && r[..|completed|] == completed
  {
    if i in completed then completed else completed + [i]
  }

  /** Completing keeps the list free of repetitions, and completing the same
      section twice is the same as once. */
  lemma WithSectionDistinct(completed: seq<nat>, i: nat)
    requires Distinct(completed)
    ensures Distinct(WithSection(completed, i))
    ensures WithSection(WithSection(completed, i), i) == WithSection(completed, i)
    ensures |WithSection(completed, i)| == if i in completed then |completed| else |completed| + 1
  {
  }

  predicate InRange(completed: seq<nat>, n: nat) {
    forall k :: 0 <= k < |completed| ==> completed[k] < n
  }

  /** The indices below `n`. */
  function Range(n: nat): (r: set<nat>)
    ensures forall i: nat :: i in r <==> i < n
    ensures |r| == n
  {
    if n == 0 then {} else Range(n - 1) + {n - 1}
  }

  /** A repetition-free list of indices below `n` has at most `n` entries,
      and exactly `n` iff it holds every index below `n`. */
  lemma CompletedBound(completed: seq<nat>, n: nat)
    requires Distinct(completed) && InRange(completed, n)
    ensures |completed| <= n
    ensures |completed| == n <==> forall i :: 0 <= i < n ==> i in completed
  {
    DistinctCard(completed);
    assert Elements(completed) <= Range(n);
    SubsetCard(Elements(completed), Range(n));
    if |completed| == n {
      SubsetSameCard(Elements(completed), Range(n));
      forall i | 0 <= i < n
        ensures i in completed
      {
        assert i in Range(n);
      }
    }
    if forall i :: 0 <= i < n ==> i in completed {
      assert Range(n) <= Elements(completed);
      assert Elements(completed) == Range(n);
    }
  }

  /** `(completedSections.length / totalSections) * 100`. */
  function ProgressOf(completed: seq<nat>, n: nat): (p: real)
    requires n >= 1 && Distinct(completed) && InRange(completed, n)
    ensures 0.0 <= p <= 100.0
    ensures p == 100.0 <==> forall i :: 0 <= i < n ==> i in completed
    ensures p == 0.0 <==> completed == []
  {
    CompletedBound(completed, n);
    (|completed| as real / n as real) * 100.0
  }

  // ---------------------------------------------------------------------
  // XP over the completed list

  /** `completedSections.reduce((total, i) => total + sections[i].xp, 0)`. */
  function TotalXp(completed: seq<nat>, xp: seq<nat>): nat
    requires InRange(completed, |xp|)
  {
    if completed == [] then 0
    else TotalXp(completed[..|completed| - 1], xp) + xp[completed[|completed| - 1]]
  }

  /** XP of the sections below `k` that are in `s`. */
  function SumIn(xp: seq<nat>, s: set<nat>, k: nat): nat
    requires k <= |xp|
  {
    if k == 0 then 0 else SumIn(xp, s, k - 1) + (if k - 1 in s then xp[k - 1] else 0)
  }

  /** XP of all sections below `k`. */
  function SumAll(xp: seq<nat>, k: nat): nat
    requires k <= |xp|
  {
    if k == 0 then 0 else SumAll(xp, k - 1) + xp[k - 1]
  }

  lemma {:induction false} SumInInsert(xp: seq<nat>, s: set<nat>, x: nat, k: nat)
    requires k <= |xp| && x !in s
    ensures SumIn(xp, s + {x}, k) == SumIn(xp, s, k) + (if x < k then xp[x] else 0)
  {
    if k > 0 {
      SumInInsert(xp, s, x, k - 1);
    }
  }

  lemma {:induction false} SumInBounds(xp: seq<nat>, s: set<nat>, k: nat)
    requires k <= |xp|
    ensures SumIn(xp, s, k) <= SumAll(xp, k)
    ensures (forall i :: 0 <= i < k ==> i in s) ==> SumIn(xp, s, k) == SumAll(xp, k)
  {
    if k > 0 {
      SumInBounds(xp, s, k - 1);
    }
  }

  /** Summing over the list in completion order gives the XP of the set of
      completed sections, whatever the order. */
  lemma {:induction false} TotalXpIsSetSum(completed: seq<nat>, xp: seq<nat>)
    requires Distinct(completed) && InRange(completed, |xp|)
    ensures TotalXp(completed, xp) == SumIn(xp, Elements(completed), |xp|)
  {
    if completed != [] {
      var init := completed[..|completed| - 1];
      var last := completed[|completed| - 1];
      TotalXpIsSetSum(init, xp);
      assert TotalXp(completed, xp) == TotalXp(init, xp) + xp[last];
      assert completed == init + [last];
      assert Distinct(init) && InRange(init, |xp|);
      assert Elements(completed) == Elements(init) + {last};
      assert last !in Elements(init) by {
        forall k | 0 <= k < |init|
          ensures init[k] != last
        {
          assert init[k] == completed[k];
        }
      }
      SumInInsert(xp, Elements(init), last, |xp|);
    } else {
      assert Elements(completed) == {};
      SumInEmpty(xp, |xp|);
    }
  }

  lemma {:induction false} SumInEmpty(xp: seq<nat>, k: nat)
    requires k <= |xp|
    ensures SumIn(xp, {}, k) == 0
  {
    if k > 0 {
      SumInEmpty(xp, k - 1);
    }
  }

  /** The earned XP never exceeds the sum over all sections and reaches it
      exactly when every section is completed. */
  lemma TotalXpBounds(completed: seq<nat>, xp: seq<nat>)
    requires Distinct(completed) && InRange(completed, |xp|)
    ensures TotalXp(completed, xp) <= SumAll(xp, |xp|)
    ensures (forall i :: 0 <= i < |xp| ==> i in completed) ==> TotalXp(completed, xp) == SumAll(xp, |xp|)
  {
    TotalXpIsSetSum(completed, xp);
    SumInBounds(xp, Elements(completed), |xp|);
  }

  // ---------------------------------------------------------------------
  // The page state

  class Tracker {
    const sectionCount: nat
    var currentSection: nat
    var completedSections: seq<nat>

    ghost predicate Valid()
      reads this
    {
      && sectionCount >= 1
      && currentSection < sectionCount
      && Distinct(completedSections)
      && InRange(completedSections, sectionCount)
    }

    constructor (sections: nat)
      requires sections >= 1
      ensures Valid()
      ensures sectionCount == sections && currentSection == 0 && completedSections == []
    {
      sectionCount := sections;
      currentSection := 0;
      completedSections := [];
    }

    /** `handleSectionComplete(sectionIndex)`: mark the section completed and
        move the cursor past it, unless it is the last one. */
    method CompleteSection(sectionIndex: nat)
      requires Valid() && sectionIndex < sectionCount
      modifies this
      ensures Valid()
      ensures completedSections == WithSection(old(completedSections), sectionIndex)
      ensures currentSection == if sectionIndex < sectionCount - 1 then sectionIndex + 1 else old(currentSection)
    {
      WithSectionDistinct(completedSections, sectionIndex);
      if sectionIndex !in completedSections {
        completedSections := completedSections + [sectionIndex];
      }
      if sectionIndex < sectionCount - 1 {
        currentSection := sectionIndex + 1;
      }
    }

    /** The Previous button: one section back, never below the first. */
    method Previous()
      requires Valid()
      modifies this
      ensures Valid()
      ensures currentSection == if old(currentSection) > 0 then old(currentSection) - 1 else 0
      ensures completedSections == old(completedSections)
    {
      if currentSection > 0 {
        currentSection := currentSection - 1;
      }
    }

    /** A click on the sidebar entry of section `index`. */
    method Select(index: nat)
      requires Valid() && index < sectionCount
      modifies this
      ensures Valid()
      ensures currentSection == index && completedSections == old(completedSections)
    {
      currentSection := index;
    }

    /** The progress bar value. */
    function Progress(): (p: real)
      requires Valid()
      reads this
      ensures 0.0 <= p <= 100.0
      ensures p == 100.0 <==> forall i :: 0 <= i < sectionCount ==> i in completedSections
    {
      ProgressOf(completedSections, sectionCount)
    }
  }
}
