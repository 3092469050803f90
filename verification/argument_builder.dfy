/** The drag-and-drop argument builder: building blocks (claim, evidence,
    warrant, ...) are dragged from a palette into an ordered structure. A
    block can appear in the structure at most once; the structure counts as
    complete once it has four blocks including a core one. Only the effect of
    a finished drag on the list is modelled; labels, icons and colours are
    display data. */
module ArgumentBuilder {
  import opened Common

  const StructureId := "argument-structure"

  /** The ids of the palette, in palette order. */
  const Available: seq<string> := [
    "claim", "evidence", "warrant", "impact",
    "statistics", "expert-testimony", "historical-example",
    "counter-argument", "rebuttal",
    "fallacy-check", "credibility"
  ]

  const CoreIds: seq<string> := ["claim", "evidence", "warrant", "impact"]

  /** A block in the structure and the position recorded on it. */
  datatype Placed = Placed(id: string, position: nat)

  /** Where a drag ended: a droppable list and an index in it. */
  datatype Destination = Destination(droppableId: string, index: nat)

  function Ids(s: seq<Placed>): (r: seq<string>)
    ensures |r| == |s|
    ensures forall i :: 0 <= i < |s| ==> r[i] == s[i].id
  {
    seq(|s|, i requires 0 <= i < |s| => s[i].id)
  }

  /** `splice(index, 0, x)` on a copy: an index past the end appends. */
  function InsertAt(s: seq<Placed>, x: Placed, index: nat): (r: seq<Placed>)
    ensures |r| == |s| + 1
  {
    if index <= |s| then s[..index] + [x] + s[index..] else s + [x]
  }

  /** `.map((comp, index) => ({...comp, position: index}))`. */
  function Renumber(s: seq<Placed>): (r: seq<Placed>)
    ensures |r| == |s|
  {
    seq(|s|, i requires 0 <= i < |s| => s[i].(position := i))
  }

  /** `prev.filter(comp => comp.id !== id)`: exactly the blocks with another
      id are kept, positions included. */
  function RemoveId(s: seq<Placed>, id: string): (r: seq<Placed>)
    ensures |r| <= |s|
    ensures forall p :: p in r <==> p in s && p.id != id
  {
    if s == [] then []
    else (if s[0].id == id then [] else [s[0]]) + RemoveId(s[1..], id)
  }

  /** The completeness test after an insertion. */
  predicate CompleteStructure(s: seq<Placed>) {
    |s| >= 4 && exists i :: 0 <= i < |s| && s[i].id in CoreIds
  }

  /** Renumbering sets every position to its index and keeps the blocks. */
  lemma RenumberFacts(s: seq<Placed>)
    ensures Ids(Renumber(s)) == Ids(s)
    ensures forall i :: 0 <= i < |s| ==> Renumber(s)[i].position == i
  {
  }

  /** An insertion puts the block at the requested index, or last when the
      index is past the end, and keeps the other blocks in their order. */
  lemma InsertAtFacts(s: seq<Placed>, x: Placed, index: nat)
    ensures var r := InsertAt(s, x, index);
            var at := if index <= |s| then index else |s|;
            && r[at] == x
            && r[..at] == s[..at]
            && r[at + 1..] == s[at..]
  {
  }

  /** Removing the block that was just inserted gives back the old structure:
      an insertion changes nothing else. */
  lemma {:induction false} RemoveInserted(s: seq<Placed>, x: Placed, index: nat)
    requires x.id !in Ids(s)
    ensures RemoveId(InsertAt(s, x, index), x.id) == s
  {
    var at := if index <= |s| then index else |s|;
    var front, back := s[..at], s[at..];
    InsertAtSplit(s, x, index);
    IdAbsentFromSlices(s, x.id, at);
    calc {
      RemoveId(InsertAt(s, x, index), x.id);
      RemoveId(front + ([x] + back), x.id);
      { RemoveIdConcat(front, [x] + back, x.id); }
      RemoveId(front, x.id) + RemoveId([x] + back, x.id);
      { RemoveIdConcat([x], back, x.id); RemoveIdSingle(x); }
      RemoveId(front, x.id) + RemoveId(back, x.id);
      { RemoveIdAbsent(front, x.id); RemoveIdAbsent(back, x.id); }
      front + back;
      s;
    }
  }

  lemma RemoveIdSingle(x: Placed)
    ensures RemoveId([x], x.id) == []
  {
    assert [x][1..] == [];
  }

  /** An insertion splits the structure at the effective index. */
  lemma InsertAtSplit(s: seq<Placed>, x: Placed, index: nat)
    ensures var at := if index <= |s| then index else |s|;
            InsertAt(s, x, index) == s[..at] + ([x] + s[at..])
  {
    if index > |s| {
      assert s[..|s|] == s && s[|s|..] == [];
    }
  }

  /** An id absent from a structure is absent from both sides of any cut. */
  lemma IdAbsentFromSlices(s: seq<Placed>, id: string, at: nat)
    requires id !in Ids(s) && at <= |s|
    ensures forall i :: 0 <= i < |s[..at]| ==> s[..at][i].id != id
    ensures forall i :: 0 <= i < |s[at..]| ==> s[at..][i].id != id
  {
    forall i | 0 <= i < |s|
      ensures s[i].id != id
    {
      assert Ids(s)[i] == s[i].id;
    }
  }

  lemma {:induction false} RemoveIdConcat(a: seq<Placed>, b: seq<Placed>, id: string)
    ensures RemoveId(a + b, id) == RemoveId(a, id) + RemoveId(b, id)
  {
    if a != [] {
      assert (a + b)[1..] == a[1..] + b;
      RemoveIdConcat(a[1..], b, id);
    } else {
      assert a + b == b;
    }
  }

  lemma {:induction false} RemoveIdAbsent(s: seq<Placed>, id: string)
    requires forall i :: 0 <= i < |s| ==> s[i].id != id
    ensures RemoveId(s, id) == s
  {
    if s != [] {
      RemoveIdAbsent(s[1..], id);
    }
  }

  /** Removing the first of two renumbered blocks leaves the second with
      position 1 at index 0: removal does not renumber. */
  lemma RemoveKeepsStalePositions()
    ensures RemoveId([Placed("claim", 0), Placed("evidence", 1)], "claim") == [Placed("evidence", 1)]
  {
    assert [Placed("claim", 0), Placed("evidence", 1)][1..] == [Placed("evidence", 1)];
  }

  class Builder {
    var dropped: seq<Placed>
    var isComplete: bool

    /** Every block in the structure comes from the palette and appears once. */
    ghost predicate Valid()
      reads this
    {
      Distinct(Ids(dropped)) && forall i :: 0 <= i < |dropped| ==> dropped[i].id in Available
    }

    constructor ()
      ensures Valid() && dropped == [] && !isComplete
    {
      dropped := [];
      isComplete := false;
    }

    /** `onDragEnd`. A drag that ends on the structure inserts the dragged
        palette block at the drop index unless the block is already there;
        every other drag, including a reorder inside the structure (its
        branch lies behind a test that every drop on the structure already
        passed), leaves everything unchanged. */
    method OnDragEnd(destination: Option<Destination>, draggableId: string)
      requires Valid()
      modifies this
      ensures Valid()
      ensures |dropped| <= |Available|
      ensures (destination.None? || destination.value.droppableId != StructureId
               || draggableId !in Available || draggableId in Ids(old(dropped))) ==>
                dropped == old(dropped) && isComplete == old(isComplete)
      ensures destination.Some? && destination.value.droppableId == StructureId
              && draggableId in Available && draggableId !in Ids(old(dropped)) ==>
                && dropped == Renumber(InsertAt(old(dropped), Placed(draggableId, destination.value.index),
                                                destination.value.index))
                && isComplete == CompleteStructure(dropped)
                && |dropped| == |old(dropped)| + 1
    {
      if destination.Some? && destination.value.droppableId == StructureId {
        if draggableId in Available && draggableId !in Ids(dropped) {
          var index := destination.value.index;
          var inserted := InsertAt(dropped, Placed(draggableId, index), index);
          InsertAtFacts(dropped, Placed(draggableId, index), index);
          InsertedStaysValid(dropped, draggableId, index);
          dropped := Renumber(inserted);
          RenumberFacts(inserted);
          isComplete := |dropped| >= 4 && exists i :: 0 <= i < |dropped| && dropped[i].id in CoreIds;
        }
      }
      DistinctAvailableBound(dropped);
    }

    /** `removeComponent`: drop that block; the structure is then reported
        incomplete whatever remains. */
    method Remove(id: string)
      requires Valid()
      modifies this
      ensures Valid()
      ensures dropped == RemoveId(old(dropped), id) && !isComplete
    {
      RemoveKeepsValid(dropped, id);
      dropped := RemoveId(dropped, id);
      isComplete := false;
    }

    /** `resetArgument`. */
    method Reset()
      modifies this
      ensures Valid() && dropped == [] && !isComplete
    {
      dropped := [];
      isComplete := false;
    }
  }

  lemma InsertedStaysValid(s: seq<Placed>, id: string, index: nat)
    requires Distinct(Ids(s)) && id !in Ids(s)
    requires forall i :: 0 <= i < |s| ==> s[i].id in Available
    requires id in Available
    ensures var r := Renumber(InsertAt(s, Placed(id, index), index));
            Distinct(Ids(r)) && forall i :: 0 <= i < |r| ==> r[i].id in Available
  {
    var x := Placed(id, index);
    var at := if index <= |s| then index else |s|;
    var ins := InsertAt(s, x, index);
    var ids := Ids(s);
    InsertAtFacts(s, x, index);
    RenumberFacts(ins);
    assert Ids(ins) == ids[..at] + [id] + ids[at..];
    DistinctInsert(ids, at, id);
    forall i | 0 <= i < |ins|
      ensures ins[i].id in Available
    {
      if i > at {
        assert ins[i] == s[i - 1];
      } else if i < at {
        assert ins[i] == s[i];
      }
    }
  }

  lemma {:induction false} RemoveKeepsValid(s: seq<Placed>, id: string)
    requires Distinct(Ids(s))
    requires forall i :: 0 <= i < |s| ==> s[i].id in Available
    ensures Distinct(Ids(RemoveId(s, id)))
    ensures forall i :: 0 <= i < |RemoveId(s, id)| ==> RemoveId(s, id)[i].id in Available
  {
    var r := RemoveId(s, id);
    forall i | 0 <= i < |r|
      ensures r[i].id in Available
    {
      assert r[i] in s;
    }
    RemoveKeepsDistinct(s, id);
  }

  lemma {:induction false} RemoveKeepsDistinct(s: seq<Placed>, id: string)
    requires Distinct(Ids(s))
    ensures Distinct(Ids(RemoveId(s, id)))
  {
    if s != [] {
      assert Ids(s[1..]) == Ids(s)[1..];
      RemoveKeepsDistinct(s[1..], id);
      var t := RemoveId(s[1..], id);
      if s[0].id != id {
        HeadNotInRemainder(s, id);
        assert RemoveId(s, id) == [s[0]] + t;
        assert Ids([s[0]] + t) == [s[0].id] + Ids(t);
        DistinctCons(s[0].id, Ids(t));
      }
    }
  }

  /** In a duplicate-free structure the first block's id occurs nowhere in
      what removal leaves of the rest. */
  lemma HeadNotInRemainder(s: seq<Placed>, id: string)
    requires s != [] && Distinct(Ids(s))
    ensures forall k :: 0 <= k < |Ids(RemoveId(s[1..], id))| ==> Ids(RemoveId(s[1..], id))[k] != s[0].id
  {
    var t := RemoveId(s[1..], id);
    forall k | 0 <= k < |t|
      ensures Ids(t)[k] != s[0].id
    {
      assert t[k] in s[1..];
      var j :| 0 <= j < |s[1..]| && s[1..][j] == t[k];
      assert Ids(s)[j + 1] == t[k].id;
    }
  }

  /** A duplicate-free structure of palette blocks has at most eleven blocks. */
  lemma DistinctAvailableBound(s: seq<Placed>)
    requires Distinct(Ids(s)) && forall i :: 0 <= i < |s| ==> s[i].id in Available
    ensures |s| <= |Available|
  {
    assert Elements(Ids(s)) <= Elements(Available);
    DistinctCard(Ids(s));
    assert Distinct(Available);
    DistinctCard(Available);
    SubsetCard(Elements(Ids(s)), Elements(Available));
  }
}
