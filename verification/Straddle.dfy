/** A concrete compaction that changes a read. */
module Straddle {
  // The selection closes the lower inputs under boundary files but not the upper ones.

  import opened Keys
  import opened Versions
  import opened Pick
  import opened Select
  import opened Compact
  import opened Install
  import opened Preserve

  /** Level 1 holds one file for key 1.  On level 2 key 2 straddles two files: its deletion ends the
      first, an older value makes up the second. */
  datatype Case = Case(a: Entry, b: Entry, c: Entry, d: Entry, lower: File, upper: File, rest: File, output: File)

  predicate Table(f: File, entries: seq<Entry>) {
    && entries != [] && f.entries == entries
    && f.smallest == entries[0].Internal() && f.largest == entries[|entries| - 1].Internal()
  }

  predicate IsCase(x: Case) {
    && x.a == Entry(1, 5, Put("new")) && x.b == Entry(1, 2, Put("mid"))
    && x.c == Entry(2, 4, Delete) && x.d == Entry(2, 3, Put("old"))
    && x.lower.number == 5 && x.upper.number == 3 && x.rest.number == 4 && x.output.number == 6
    && Table(x.lower, [x.a]) && Table(x.upper, [x.b, x.c]) && Table(x.rest, [x.d]) && Table(x.output, [x.a])
  }

  function Before(x: Case): Version { [[], [x.lower], [x.upper, x.rest], [], [], [], []] }

  function After(x: Case): Version { [[], [], [x.output, x.rest], [], [], [], []] }

  function Chosen(x: Case): Inputs { Inputs(1, [x.lower], [x.upper], []) }

  function Merged(x: Case): seq<Entry> { [x.a, x.b, x.c] }

  // ---------------------------------------------------------------- contents

  lemma OnlyLevels(v: Version)
    requires forall l :: 0 <= l < NUM_LEVELS && l != 1 && l != 2 ==> v[l] == []
    ensures Contents(v) == EntriesOf(v[1]) + EntriesOf(v[2])
  {
    forall e ensures e in Contents(v) <==> e in EntriesOf(v[1]) + EntriesOf(v[2]) {
      if e in Contents(v) {
        var l, f :| 0 <= l < NUM_LEVELS && f in v[l] && e in f.entries;
        assert l == 1 || l == 2;
      }
    }
  }

  lemma OneFile(f: File)
    ensures EntriesOf([f]) == Elems(f.entries)
  {
    assert f in [f];
  }

  lemma TwoFiles(f: File, g: File)
    ensures EntriesOf([f, g]) == Elems(f.entries) + Elems(g.entries)
  {
    assert f in [f, g] && g in [f, g];
  }

  lemma TableElems(x: Case)
    requires IsCase(x)
    ensures Elems(x.lower.entries) == {x.a} && Elems(x.upper.entries) == {x.b, x.c}
    ensures Elems(x.rest.entries) == {x.d} && Elems(x.output.entries) == {x.a}
  {
    assert x.a in [x.a] && x.b in [x.b, x.c] && x.c in [x.b, x.c] && x.d in [x.d];
  }

  lemma Entries(x: Case)
    requires IsCase(x)
    ensures EntriesOf(Before(x)[1]) == {x.a} && EntriesOf(Before(x)[2]) == {x.b, x.c, x.d}
    ensures Contents(Before(x)) == {x.a, x.b, x.c, x.d}
    ensures EntriesOf(Chosen(x).All()) == {x.a, x.b, x.c}
    ensures Contents(After(x)) == {x.a, x.d}
  {
    TableElems(x);
    OneFile(x.lower);
    TwoFiles(x.upper, x.rest);
    TwoFiles(x.lower, x.upper);
    TwoFiles(x.output, x.rest);
    OnlyLevels(Before(x));
    OnlyLevels(After(x));
    assert Chosen(x).All() == [x.lower, x.upper];
    assert EntriesOf([]) == {};
  }

  // ---------------------------------------------------------------- structure

  lemma FilesSorted(x: Case)
    requires IsCase(x)
    ensures FileOk(x.lower) && FileOk(x.upper) && FileOk(x.rest) && FileOk(x.output)
  {
  }

  lemma LevelsFine(x: Case)
    requires IsCase(x)
    ensures LevelsOk(Before(x))
  {
    FilesSorted(x);
    forall l | 0 <= l < NUM_LEVELS ensures FilesOk(Before(x)[l]) && SortedLevel(Before(x)[l]) {
      assert l != 1 && l != 2 ==> Before(x)[l] == [];
    }
  }

  lemma NumbersFine(x: Case)
    requires x.lower.number == 5 && x.upper.number == 3 && x.rest.number == 4
    ensures NumbersUnique(Before(x)) && NewerByNumber(Before(x)[0])
  {
    forall l, f | 0 <= l < NUM_LEVELS && f in Before(x)[l]
      ensures (l == 1 && f == x.lower) || (l == 2 && (f == x.upper || f == x.rest))
    {
    }
  }

  lemma Ordered(x: Case)
    requires IsCase(x)
    ensures LevelsOrdered(Before(x))
  {
    Entries(x);
    assert AllNewer({x.a}, {x.b, x.c, x.d});
    forall l, m | 0 <= l < m < NUM_LEVELS ensures AllNewer(EntriesOf(Before(x)[l]), EntriesOf(Before(x)[m])) {
      if !(l == 1 && m == 2) {
        assert Before(x)[l] == [] || Before(x)[m] == [];
      }
    }
  }

  lemma BeforeOk(x: Case)
    requires IsCase(x)
    ensures VersionOk(Before(x))
  {
    LevelsFine(x);
    Ordered(x);
    NumbersFine(x);
    DistinctBefore(x);
  }

  lemma DistinctBefore(x: Case)
    requires IsCase(x)
    ensures Distinct(Contents(Before(x)))
  {
    Entries(x);
    assert Distinct({x.a, x.b, x.c, x.d});
  }

  /** The inputs are those the selection makes of the level-1 file. */
  lemma InputsSelected(x: Case)
    requires IsCase(x)
    ensures Selected(Before(x), Chosen(x), x.lower.smallest, x.lower.largest, x.lower.smallest, x.upper.largest)
  {
    var inputs := Chosen(x);
    assert inputs.All() == [x.lower, x.upper];
    assert x.lower in inputs.All() && x.upper in inputs.All() && x.lower in inputs.lower;
    assert Before(x)[2][1..] == [x.rest] && [x.rest][1..] == [];
    assert Meeting([x.rest], Some(1), Some(1)) == [];
    assert Meeting(Before(x)[2], Some(1), Some(1)) == [x.upper];
    forall k | 1 <= k <= 2 ensures HeldBySome(inputs.All(), k) {
      assert Holds(x.upper, k);
    }
  }

  lemma LoopOutput(x: Case)
    requires IsCase(x)
    ensures Survivors(Before(x), Chosen(x), Merged(x), 5) == [x.a]
  {
    KeptStep(Merged(x), 0, 5, Before(x), 1);
    KeptStep(Merged(x), 1, 5, Before(x), 1);
    KeptStep(Merged(x), 2, 5, Before(x), 1);
    assert IsBase(Before(x), 1, 2);
  }

  lemma ReadsDiffer(x: Case)
    requires IsCase(x)
    ensures Read(Contents(Before(x)), 2, 5) == None
    ensures Read(Contents(After(x)), 2, 5) == Some("old")
  {
    Entries(x);
    ReadsInSets(x.a, x.b, x.c, x.d);
  }

  lemma ReadsInSets(a: Entry, b: Entry, c: Entry, d: Entry)
    requires a.key == 1 && b.key == 1 && c.key == 2 && d.key == 2
    requires a.seqno != b.seqno && 5 >= c.seqno > d.seqno && c.op.Delete? && d.op == Put("old")
    ensures Read({a, b, c, d}, 2, 5) == None
    ensures Read({a, d}, 2, 5) == Some("old")
  {
    assert Newest({a, b, c, d}, 2, 5, c);
    ReadOf({a, b, c, d}, 2, 5, c);
    assert Newest({a, d}, 2, 5, d);
    ReadOf({a, d}, 2, 5, d);
  }

  lemma Installed(x: Case)
    requires IsCase(x)
    ensures Replaced(Before(x), After(x), Chosen(x), [x.output])
    ensures !UpperClosed(Before(x), Chosen(x))
  {
    assert Less(x.output.smallest, x.rest.smallest);
    assert x.rest in Before(x)[2] && x.upper in Chosen(x).upper && IsBoundary(x.upper.largest, x.rest);
  }

  lemma InputsMerged(x: Case)
    requires IsCase(x)
    ensures Sorted(Merged(x)) && Elems(Merged(x)) == EntriesOf(Chosen(x).All())
    ensures EntriesOf([x.output]) == Elems([x.a])
    ensures Distinct({} + Contents(Before(x)))
  {
    Entries(x);
    OneFile(x.output);
    assert Elems(Merged(x)) == {x.a, x.b, x.c} by {
      assert x.a in Merged(x) && x.b in Merged(x) && x.c in Merged(x);
    }
    assert {} + Contents(Before(x)) == {x.a, x.b, x.c, x.d};
  }

  /** The compaction is well formed in every respect, yet at its own snapshot bound the deleted key
      comes back to life. */
  lemma DeletedKeyComesBack(x: Case)
    requires IsCase(x)
    ensures Selected(Before(x), Chosen(x), x.lower.smallest, x.lower.largest, x.lower.smallest, x.upper.largest)
    ensures Compacting({}, Before(x), Before(x), Chosen(x), Merged(x), 5)
    ensures EntriesOf([x.output]) == Elems(Survivors(Before(x), Chosen(x), Merged(x), 5))
    ensures Replaced(Before(x), After(x), Chosen(x), [x.output])
    ensures !UpperClosed(Before(x), Chosen(x))
    ensures Read(Contents(Before(x)), 2, 5) == None
    ensures Read(Contents(After(x)), 2, 5) == Some("old")
  {
    WellFormed(x);
    InputsMerged(x);
    LoopOutput(x);
    ReadsDiffer(x);
    Installed(x);
  }

  lemma WellFormed(x: Case)
    requires IsCase(x)
    ensures Selected(Before(x), Chosen(x), x.lower.smallest, x.lower.largest, x.lower.smallest, x.upper.largest)
    ensures Compacting({}, Before(x), Before(x), Chosen(x), Merged(x), 5)
  {
    BeforeOk(x);
    InputsSelected(x);
    InputsMerged(x);
    SelectionFits(Before(x), Chosen(x), x.lower.smallest, x.lower.largest, x.lower.smallest, x.upper.largest);
  }

  /** The case exists. */
  lemma TheCase() returns (x: Case)
    ensures IsCase(x)
  {
    var a, b, c, d := Entry(1, 5, Put("new")), Entry(1, 2, Put("mid")), Entry(2, 4, Delete), Entry(2, 3, Put("old"));
    x := Case(a, b, c, d,
              File(5, 1, a.Internal(), a.Internal(), [a]), File(3, 1, b.Internal(), c.Internal(), [b, c]),
              File(4, 1, d.Internal(), d.Internal(), [d]), File(6, 1, a.Internal(), a.Internal(), [a]));
  }
}
