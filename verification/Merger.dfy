/** MergingIterator: a cursor over the sorted merge of its children, in both directions.  Going forward,
    every child but the current one stands after it; going back, before it. */
module Merger {
  import opened Keys
  import opened Lookup
  import opened Cursors

  /** The child stands at its first entry at or after position `p` of the merge. */
  ghost predicate Ahead(child: Cursor, all: seq<Entry>, p: nat)
    reads child
  {
    child.pos == Rank(child.items, all, p)
  }

  /** The child stands at its last entry before position `q` of the merge. */
  ghost predicate Behind(child: Cursor, all: seq<Entry>, q: nat)
    reads child
  {
    child.pos == Back(|child.items|, Rank(child.items, all, q))
  }

  ghost predicate CutAt(children: seq<Cursor>, all: seq<Entry>, p: nat)
    reads children
  {
    forall i :: 0 <= i < |children| ==> Ahead(children[i], all, p)
  }

  ghost predicate BackCutAt(children: seq<Cursor>, all: seq<Entry>, q: nat)
    reads children
  {
    forall i :: 0 <= i < |children| ==> Behind(children[i], all, q)
  }

  ghost predicate Separate(children: seq<Cursor>) {
    forall i, j :: 0 <= i < j < |children| ==> children[i] != children[j]
  }

  ghost predicate Parts(children: seq<Cursor>, all: seq<Entry>) {
    forall i :: 0 <= i < |children| ==> PartOf(children[i].items, all)
  }

  /** No entry of the run has this key. */
  ghost predicate Clear(part: seq<Entry>, e: Entry) {
    forall d :: d in part ==> d.Internal() != e.Internal()
  }

  /** Only child `c` holds the entry. */
  ghost predicate OnlyIn(children: seq<Cursor>, c: nat, e: Entry) {
    && c < |children| && e in children[c].items
    && forall i :: 0 <= i < |children| && i != c ==> Clear(children[i].items, e)
  }

  /** The merged run, and for each of its entries the child that holds it. */
  datatype Plan = Plan(all: seq<Entry>, owner: seq<nat>)

  /** The children are different objects, and each entry of the merged run is in one of them only. */
  ghost predicate Layout(children: seq<Cursor>, plan: Plan) {
    match plan
    case Plan(all, owner) =>
      && Separate(children)
      && Sorted(all) && Parts(children, all)
      && |owner| == |all|
      && forall p {:trigger owner[p]} :: 0 <= p < |owner| ==> OnlyIn(children, owner[p], all[p])
  }

  /** Moves a child to its first entry after the key. */
  method SeekPast(child: Cursor, key: IKey)
    modifies child`pos
    ensures var r := FirstAtOrAfter(child.items, key);
            child.pos == if r < |child.items| && child.items[r].Internal() == key then r + 1 else r
  {
    child.Seek(key);
    if child.Valid() && child.Current().Internal() == key {
      child.Next();
    }
  }

  /** Moves a child to its last entry before the key. */
  method SeekBefore(child: Cursor, key: IKey)
    modifies child`pos
    ensures child.pos == Back(|child.items|, FirstAtOrAfter(child.items, key))
  {
    child.Seek(key);
    if child.Valid() {
      child.Prev();
    } else {
      child.SeekToLast();
    }
  }

  method MoveAhead(child: Cursor, key: IKey, ghost all: seq<Entry>, ghost p: nat)
    requires p < |all| && key == all[p].Internal() && Clear(child.items, all[p])
    modifies child`pos
    ensures Ahead(child, all, p)
  {
    SeekPast(child, key);
  }

  method MoveBehind(child: Cursor, key: IKey, ghost all: seq<Entry>, ghost p: nat)
    requires p < |all| && key == all[p].Internal() && Clear(child.items, all[p]) && PartOf(child.items, all)
    modifies child`pos
    ensures Behind(child, all, p + 1)
  {
    RankStep(child.items, all, p);
    SeekBefore(child, key);
  }

  /** A child that does not hold the entry at `p` is ahead of both sides of it. */
  lemma AheadOfBoth(child: Cursor, all: seq<Entry>, p: nat)
    requires PartOf(child.items, all) && p < |all| && Clear(child.items, all[p])
    ensures Ahead(child, all, p) == Ahead(child, all, p + 1)
    ensures Behind(child, all, p) == Behind(child, all, p + 1)
  {
    RankStep(child.items, all, p);
  }

  /** Entries of a run are told apart by their keys. */
  lemma SameKeySameEntry(all: seq<Entry>, a: Entry, b: Entry)
    requires Sorted(all) && a in all && b in all
    ensures Less(a.Internal(), b.Internal()) || Less(b.Internal(), a.Internal()) || a == b
  {
    var i :| 0 <= i < |all| && all[i] == a;
    var j :| 0 <= j < |all| && all[j] == b;
    assert i < j ==> Less(all[i].Internal(), all[j].Internal());
    assert j < i ==> Less(all[j].Internal(), all[i].Internal());
  }

  /** A child at its cut shows nothing before the cut. */
  lemma ShownAfter(part: seq<Entry>, all: seq<Entry>, p: nat)
    requires PartOf(part, all) && p < |all|
    ensures var r := Rank(part, all, p); r < |part| ==> !Less(part[r].Internal(), all[p].Internal()) && part[r] in all
  {
    var r := Rank(part, all, p);
    if r < |part| {
      assert part[r] in Elems(part);
    }
  }

  /** A child at its backward cut shows nothing at or after the cut. */
  lemma ShownBefore(part: seq<Entry>, all: seq<Entry>, q: nat)
    requires PartOf(part, all) && 0 < q <= |all|
    ensures var r := Rank(part, all, q); r > 0 ==>
              !Less(all[q - 1].Internal(), part[r - 1].Internal()) && part[r - 1] in all
  {
    var r := Rank(part, all, q);
    if r > 0 {
      RankMoves(part, all, q - 1, r - 1);
      RankSplits(part, all, q - 1, r - 1);
      var s := IndexIn(part, all, r - 1);
    }
  }

  /** The smallest key shown at a cut is the entry at the cut. */
  lemma Smallest(children: seq<Cursor>, all: seq<Entry>, p: nat, o: nat, smallest: Option<nat>)
    requires Sorted(all) && Parts(children, all) && p <= |all| && CutAt(children, all, p)
    requires p < |all| ==> OnlyIn(children, o, all[p])
    requires smallest.Some? ==> smallest.value < |children| && children[smallest.value].Valid()
    requires forall j :: 0 <= j < |children| && children[j].Valid() ==>
               && smallest.Some?
               && !Less(children[j].Current().Internal(), children[smallest.value].Current().Internal())
    ensures smallest.None? <==> p == |all|
    ensures smallest.Some? ==> children[smallest.value].Current() == all[p]
  {
    assert smallest.Some? ==> Ahead(children[smallest.value], all, p);
    if p < |all| {
      RankStep(children[o].items, all, p);
      assert Ahead(children[o], all, p) && children[o].Valid() && children[o].Current() == all[p];
      ShownAfter(children[smallest.value].items, all, p);
      SameKeySameEntry(all, all[p], children[smallest.value].Current());
    }
  }

  /** The largest key shown at a backward cut is the entry before the cut. */
  lemma Largest(children: seq<Cursor>, all: seq<Entry>, q: nat, o: nat, largest: Option<nat>)
    requires Sorted(all) && Parts(children, all) && q <= |all| && BackCutAt(children, all, q)
    requires q > 0 ==> OnlyIn(children, o, all[q - 1])
    requires largest.Some? ==> largest.value < |children| && children[largest.value].Valid()
    requires forall j :: 0 <= j < |children| && children[j].Valid() ==>
               && largest.Some?
               && !Less(children[largest.value].Current().Internal(), children[j].Current().Internal())
    ensures largest.None? <==> q == 0
    ensures largest.Some? ==> children[largest.value].Current() == all[q - 1]
  {
    if largest.Some? {
      assert Behind(children[largest.value], all, q);
      RankEnds(children[largest.value].items, all);
    }
    if q > 0 {
      RankStep(children[o].items, all, q - 1);
      assert Behind(children[o], all, q) && children[o].Valid() && children[o].Current() == all[q - 1];
      ShownBefore(children[largest.value].items, all, q);
      SameKeySameEntry(all, all[q - 1], children[largest.value].Current());
    }
  }

  class MergingIterator {
    const children: seq<Cursor>
    var current: Option<nat>
    var forward: bool
    ghost const plan: Plan
    ghost var pos: nat

    /** `pos` is the position in the merge.  Going forward the other children stand after the current
        key; going backward they stand before it. */
    ghost predicate Valid()
      reads this, children
    {
      && Layout(children, plan)
      && pos <= |plan.all|
      && (current.None? <==> pos == |plan.all|)
      && (current.Some? ==>
            && current.value < |children|
            && children[current.value].Valid()
            && children[current.value].Current() == plan.all[pos]
            && (forward ==> CutAt(children, plan.all, pos))
            && (!forward ==> BackCutAt(children, plan.all, pos + 1)))
    }

    function Current(): Entry
      requires Valid() && current.Some?
      reads this, children
    {
      children[current.value].Current()
    }

    /** What a user of the iterator relies on. */
    lemma Shows()
      requires Valid()
      ensures Sorted(plan.all) && pos <= |plan.all| && (current.None? <==> pos == |plan.all|)
      ensures current.Some? ==> pos < |plan.all| && Current() == plan.all[pos]
    {
    }

    constructor (children: seq<Cursor>, ghost plan: Plan)
      requires Layout(children, plan)
      ensures Valid() && this.children == children && this.plan == plan && pos == |plan.all|
    {
      this.children, this.plan := children, plan;
      current, forward, pos := None, true, |plan.all|;
    }

    method FindSmallest(ghost p: nat)
      requires Layout(children, plan) && p <= |plan.all| && CutAt(children, plan.all, p)
      modifies this`current, this`pos
      ensures pos == p
      ensures current.None? <==> p == |plan.all|
      ensures current.Some? ==> && current.value < |children| && children[current.value].Valid()
                                && children[current.value].Current() == plan.all[p]
    {
      hide Sorted, OnlyIn, PartOf, Rank, FirstAtOrAfter;
      var smallest: Option<nat> := None;
      var i := 0;
      while i < |children|
        invariant i <= |children|
        invariant smallest.Some? ==> smallest.value < |children| && children[smallest.value].Valid()
        invariant forall j :: 0 <= j < i && children[j].Valid() ==>
                    && smallest.Some?
                    && !Less(children[j].Current().Internal(), children[smallest.value].Current().Internal())
      {
        var child := children[i];
        if child.Valid() {
          if smallest.None? {
            smallest := Some(i);
          } else if Less(child.Current().Internal(), children[smallest.value].Current().Internal()) {
            smallest := Some(i);
          }
        }
        i := i + 1;
      }
      current, pos := smallest, p;
      Smallest(children, plan.all, p, if p < |plan.all| then plan.owner[p] else 0, smallest);
    }

    method FindLargest(ghost q: nat)
      requires Layout(children, plan) && q <= |plan.all| && BackCutAt(children, plan.all, q)
      modifies this`current, this`pos
      ensures pos == if q == 0 then |plan.all| else q - 1
      ensures current.None? <==> q == 0
      ensures current.Some? ==> && current.value < |children| && children[current.value].Valid()
                                && children[current.value].Current() == plan.all[q - 1]
    {
      hide Sorted, OnlyIn, PartOf, Rank, FirstAtOrAfter;
      var largest: Option<nat> := None;
      var i := |children|;
      while i > 0
        invariant 0 <= i <= |children|
        invariant largest.Some? ==> largest.value < |children| && children[largest.value].Valid()
        invariant forall j :: i <= j < |children| && children[j].Valid() ==>
                    && largest.Some?
                    && !Less(children[largest.value].Current().Internal(), children[j].Current().Internal())
      {
        i := i - 1;
        var child := children[i];
        if child.Valid() {
          if largest.None? {
            largest := Some(i);
          } else if Less(children[largest.value].Current().Internal(), child.Current().Internal()) {
            largest := Some(i);
          }
        }
      }
      current := largest;
      pos := if q == 0 then |plan.all| else q - 1;
      Largest(children, plan.all, q, if q > 0 then plan.owner[q - 1] else 0, largest);
    }

    method AllToFirst()
      requires Separate(children) && Parts(children, plan.all)
      modifies children
      ensures CutAt(children, plan.all, 0)
    {
      var i := 0;
      while i < |children|
        invariant i <= |children|
        invariant forall j :: 0 <= j < i ==> Ahead(children[j], plan.all, 0)
        modifies children
      {
        assert forall j :: 0 <= j < i ==> children[j] != children[i];
        RankEnds(children[i].items, plan.all);
        children[i].SeekToFirst();
        i := i + 1;
      }
    }

    method AllToLast()
      requires Separate(children) && Parts(children, plan.all)
      modifies children
      ensures BackCutAt(children, plan.all, |plan.all|)
    {
      var i := 0;
      while i < |children|
        invariant i <= |children|
        invariant forall j :: 0 <= j < i ==> Behind(children[j], plan.all, |plan.all|)
        modifies children
      {
        assert forall j :: 0 <= j < i ==> children[j] != children[i];
        RankEnds(children[i].items, plan.all);
        children[i].SeekToLast();
        i := i + 1;
      }
    }

    method SeekAll(target: IKey)
      requires Separate(children) && Parts(children, plan.all)
      modifies children
      ensures CutAt(children, plan.all, FirstAtOrAfter(plan.all, target))
    {
      ghost var p := FirstAtOrAfter(plan.all, target);
      var i := 0;
      while i < |children|
        invariant i <= |children|
        invariant forall j :: 0 <= j < i ==> Ahead(children[j], plan.all, p)
        modifies children
      {
        assert forall j :: 0 <= j < i ==> children[j] != children[i];
        RankOfSeek(children[i].items, plan.all, target);
        children[i].Seek(target);
        i := i + 1;
      }
    }

    method SeekToFirst()
      requires Valid()
      modifies this, children
      ensures Valid() && pos == 0
    {
      AllToFirst();
      FindSmallest(0);
      forward := true;
    }

    method SeekToLast()
      requires Valid()
      modifies this, children
      ensures Valid() && pos == Final(|plan.all|)
    {
      AllToLast();
      FindLargest(|plan.all|);
      forward := false;
    }

    method Seek(target: IKey)
      requires Valid()
      modifies this, children
      ensures Valid() && pos == FirstAtOrAfter(plan.all, target)
    {
      SeekAll(target);
      FindSmallest(FirstAtOrAfter(plan.all, target));
      forward := true;
    }

    /** Brings the other children after the current key. */
    method TurnForward(c: nat, ghost p: nat)
      requires Separate(children) && Parts(children, plan.all) && p < |plan.all| && OnlyIn(children, c, plan.all[p])
      requires children[c].Valid() && children[c].Current() == plan.all[p] && Behind(children[c], plan.all, p + 1)
      modifies children
      ensures CutAt(children, plan.all, p)
      ensures children[c].pos == old(children[c].pos)
    {
      var i := 0;
      while i < |children|
        invariant i <= |children|
        invariant children[c].pos == old(children[c].pos)
        invariant forall j :: 0 <= j < i && j != c ==> Ahead(children[j], plan.all, p)
        modifies children
      {
        if i != c {
          assert children[i] != children[c];
          assert forall j :: 0 <= j < i ==> children[j] != children[i];
          MoveAhead(children[i], children[c].Current().Internal(), plan.all, p);
        }
        i := i + 1;
      }
      RankStep(children[c].items, plan.all, p);
    }

    /** Brings the other children before the current key. */
    method TurnBackward(c: nat, ghost p: nat)
      requires Separate(children) && Parts(children, plan.all) && p < |plan.all| && OnlyIn(children, c, plan.all[p])
      requires children[c].Valid() && children[c].Current() == plan.all[p] && Ahead(children[c], plan.all, p)
      modifies children
      ensures BackCutAt(children, plan.all, p + 1)
      ensures children[c].pos == old(children[c].pos)
    {
      var i := 0;
      while i < |children|
        invariant i <= |children|
        invariant children[c].pos == old(children[c].pos)
        invariant forall j :: 0 <= j < i && j != c ==> Behind(children[j], plan.all, p + 1)
        modifies children
      {
        if i != c {
          assert children[i] != children[c];
          assert forall j :: 0 <= j < i ==> children[j] != children[i];
          MoveBehind(children[i], children[c].Current().Internal(), plan.all, p);
        }
        i := i + 1;
      }
      RankStep(children[c].items, plan.all, p);
    }

    /** Moves the current child over the current entry. */
    method StepForward(c: nat, ghost p: nat)
      requires Separate(children) && Parts(children, plan.all) && p < |plan.all| && OnlyIn(children, c, plan.all[p])
      requires CutAt(children, plan.all, p) && children[c].Valid()
      modifies children
      ensures CutAt(children, plan.all, p + 1)
    {
      forall i | 0 <= i < |children| && i != c
          ensures Ahead(children[i], plan.all, p + 1) && children[i] != children[c] {
        AheadOfBoth(children[i], plan.all, p);
      }
      RankStep(children[c].items, plan.all, p);
      children[c].Next();
    }

    method StepBackward(c: nat, ghost p: nat)
      requires Separate(children) && Parts(children, plan.all) && p < |plan.all| && OnlyIn(children, c, plan.all[p])
      requires BackCutAt(children, plan.all, p + 1) && children[c].Valid()
      modifies children
      ensures BackCutAt(children, plan.all, p)
    {
      forall i | 0 <= i < |children| && i != c ensures Behind(children[i], plan.all, p) && children[i] != children[c] {
        AheadOfBoth(children[i], plan.all, p);
      }
      RankStep(children[c].items, plan.all, p);
      children[c].Prev();
    }

    /** The child that shows an entry is the one that holds it. */
    lemma Holder()
      requires Valid() && current.Some?
      ensures Separate(children) && Parts(children, plan.all) && OnlyIn(children, current.value, plan.all[pos])
    {
      assert OnlyIn(children, plan.owner[pos], plan.all[pos]);
      assert children[current.value].items[children[current.value].pos] == plan.all[pos];
    }

    method Advance(c: nat, ghost p: nat)
      requires Separate(children) && Parts(children, plan.all) && p < |plan.all| && OnlyIn(children, c, plan.all[p])
      requires children[c].Valid() && children[c].Current() == plan.all[p]
      requires forward ==> CutAt(children, plan.all, p)
      requires !forward ==> BackCutAt(children, plan.all, p + 1)
      modifies children, this`forward
      ensures CutAt(children, plan.all, p + 1) && forward
    {
      if !forward {
        TurnForward(c, p);
        forward := true;
      }
      StepForward(c, p);
    }

    method Retreat(c: nat, ghost p: nat)
      requires Separate(children) && Parts(children, plan.all) && p < |plan.all| && OnlyIn(children, c, plan.all[p])
      requires children[c].Valid() && children[c].Current() == plan.all[p]
      requires forward ==> CutAt(children, plan.all, p)
      requires !forward ==> BackCutAt(children, plan.all, p + 1)
      modifies children, this`forward
      ensures BackCutAt(children, plan.all, p) && !forward
    {
      if forward {
        TurnBackward(c, p);
        forward := false;
      }
      StepBackward(c, p);
    }

    method AdvanceCurrent()
      requires Valid() && current.Some?
      modifies children, this`forward
      ensures CutAt(children, plan.all, pos + 1) && forward
    {
      hide Sorted, OnlyIn, PartOf, Rank, FirstAtOrAfter;
      Holder();
      Advance(current.value, pos);
    }

    method RetreatCurrent()
      requires Valid() && current.Some?
      modifies children, this`forward
      ensures BackCutAt(children, plan.all, pos) && !forward
    {
      hide Sorted, OnlyIn, PartOf, Rank, FirstAtOrAfter;
      Holder();
      Retreat(current.value, pos);
    }

    method Next()
      requires Valid() && current.Some?
      modifies this, children
      ensures Valid() && pos == old(pos) + 1
    {
      hide Sorted, OnlyIn, PartOf, Rank, FirstAtOrAfter;
      AdvanceCurrent();
      FindSmallest(pos + 1);
    }

    method Prev()
      requires Valid() && current.Some?
      modifies this, children
      ensures Valid() && pos == Back(|plan.all|, old(pos))
    {
      hide Sorted, OnlyIn, PartOf, Rank, FirstAtOrAfter;
      RetreatCurrent();
      FindLargest(pos);
    }
  }
}
