/** What installing a flushed memtable does to a version and to a compaction that is running. */
module Flush {
  import opened Keys
  import opened Versions
  import opened Pick
  import opened Select
  import opened Compact
  import opened Install
  import Builders

  /** `v2` is `v` with the file `f` added to level `p`. */
  ghost predicate Added(v: Version, p: nat, f: File, v2: Version) {
    && p < NUM_LEVELS
    && (forall l :: 0 <= l < NUM_LEVELS ==> SortedLevel(v2[l]))
    && (forall l :: 0 <= l < NUM_LEVELS && l != p ==> v2[l] == v[l])
    && (forall g :: g in v2[p] <==> g in v[p] || g == f)
  }

  /** A flushed file: newer than the whole version, with a number above all of its numbers, on
      level 0 or on a level reached without meeting any file on the way. */
  ghost predicate Flushable(v: Version, p: nat, f: File) {
    && FileOk(f) && p < NUM_LEVELS
    && AllNewer(Elems(f.entries), Contents(v))
    && Distinct(Contents(v) + Elems(f.entries))
    && (forall l, g :: 0 <= l < NUM_LEVELS && g in v[l] ==> g.number < f.number)
    && (p > 0 ==> ClearThrough(v, p, f.smallest.key, f.largest.key))
  }

  lemma FlushContents(v: Version, p: nat, f: File, v2: Version)
    requires Added(v, p, f, v2)
    ensures Contents(v2) == Contents(v) + Elems(f.entries)
    ensures forall l :: 0 <= l < NUM_LEVELS ==>
              EntriesOf(v2[l]) == if l == p then EntriesOf(v[l]) + Elems(f.entries) else EntriesOf(v[l])
  {
    forall l | 0 <= l < NUM_LEVELS
      ensures EntriesOf(v2[l]) == if l == p then EntriesOf(v[l]) + Elems(f.entries) else EntriesOf(v[l])
    {
      if l == p {
        forall e ensures e in EntriesOf(v2[l]) <==> e in EntriesOf(v[l]) + Elems(f.entries) {
          assert f in v2[p];
        }
      }
    }
    forall e ensures e in Contents(v2) <==> e in Contents(v) + Elems(f.entries) {
      assert e in Contents(v2) <==> exists l :: 0 <= l < NUM_LEVELS && e in EntriesOf(v2[l]);
      assert e in Contents(v) <==> exists l :: 0 <= l < NUM_LEVELS && e in EntriesOf(v[l]);
      assert 0 <= p && EntriesOf(v2[p]) == EntriesOf(v[p]) + Elems(f.entries);
      if l :| 0 <= l < NUM_LEVELS && e in EntriesOf(v[l]) {
        assert e in EntriesOf(v2[l]);
      }
    }
  }

  lemma ClearOfUserKeys(v: Version, p: nat, f: File, l: nat, g: File)
    requires p < NUM_LEVELS && ClearThrough(v, p, f.smallest.key, f.largest.key)
    requires l <= p && g in v[l]
    ensures NoSharedKey(g, f)
  {
    assert !Meets(g, Some(f.smallest.key), Some(f.largest.key));
  }

  lemma FlushDisjoint(v: Version, p: nat, f: File, v2: Version)
    requires LevelsOk(v) && Flushable(v, p, f) && Added(v, p, f, v2)
    ensures LevelsOk(v2)
  {
    forall l | 0 <= l < NUM_LEVELS ensures FilesOk(v2[l]) {
      assert FilesOk(v[l]);
    }
    if p > 0 {
      FilesRanged(v2[p]);
      forall a, b | a in v2[p] && b in v2[p] && a != b
          ensures Less(a.largest, b.smallest) || Less(b.largest, a.smallest) {
        if a == f {
          ClearOfUserKeys(v, p, f, p, b);
        } else if b == f {
          ClearOfUserKeys(v, p, f, p, a);
        } else {
          DisjointFiles(v[p], a, b);
        }
      }
      SeparatedSorted(v2[p]);
    }
  }

  lemma FlushOrdered(v: Version, p: nat, f: File, v2: Version)
    requires (forall l :: 0 <= l < NUM_LEVELS ==> FilesOk(v[l])) && LevelsOrdered(v)
    requires Flushable(v, p, f) && Added(v, p, f, v2)
    ensures LevelsOrdered(v2)
  {
    FlushContents(v, p, f, v2);
    forall l, m | 0 <= l < m < NUM_LEVELS ensures AllNewer(EntriesOf(v2[l]), EntriesOf(v2[m])) {
      assert AllNewer(EntriesOf(v[l]), EntriesOf(v[m]));
      forall a, b | a in EntriesOf(v2[l]) && b in EntriesOf(v2[m]) && a.key == b.key ensures a.seqno > b.seqno {
        if l == p && a !in EntriesOf(v[l]) {
          assert b in Contents(v);
        } else if m == p && b !in EntriesOf(v[m]) {
          var g :| g in v[l] && a in g.entries;
          ClearOfUserKeys(v, p, f, l, g);
          EntryInRange(g, a);
          EntryInRange(f, b);
        }
      }
    }
  }

  lemma FlushNumbers(v: Version, p: nat, f: File, v2: Version)
    requires NumbersUnique(v) && NewerByNumber(v[0])
    requires Flushable(v, p, f) && Added(v, p, f, v2)
    ensures NumbersUnique(v2) && NewerByNumber(v2[0])
  {
    forall a, b | a in v2[0] && b in v2[0] && a.number > b.number
      ensures AllNewer(Elems(a.entries), Elems(b.entries))
    {
      if p == 0 && a == f && b in v[0] {
        assert Elems(b.entries) <= Contents(v);
      }
    }
  }

  /** A flush keeps the structure of the version and adds exactly the flushed entries. */
  lemma FlushKeepsOk(v: Version, p: nat, f: File, v2: Version)
    requires VersionOk(v) && Flushable(v, p, f) && Added(v, p, f, v2)
    ensures VersionOk(v2)
    ensures Contents(v2) == Contents(v) + Elems(f.entries)
  {
    FlushContents(v, p, f, v2);
    FlushDisjoint(v, p, f, v2);
    FlushOrdered(v, p, f, v2);
    FlushNumbers(v, p, f, v2);
  }

  // ---------------------------------------------------------------- flushes during a compaction

  /** The range of all inputs is covered by the inputs themselves, so a flushed file that reaches the
      output level or deeper misses that range. */
  lemma FlushMissesInputs(v: Version, p: nat, f: File, inputs: Inputs, allLo: IKey, allHi: IKey)
    requires inputs.level + 1 < NUM_LEVELS && InputsWithin(v, inputs)
    requires inputs.level < p < NUM_LEVELS && f.smallest.key <= f.largest.key
    requires ClearThrough(v, p, f.smallest.key, f.largest.key)
    requires CoveredBy(inputs.All(), allLo.key, allHi.key) && allLo.key <= allHi.key
    ensures f.largest.key < allLo.key || f.smallest.key > allHi.key
  {
    if f.largest.key >= allLo.key && f.smallest.key <= allHi.key {
      var x := if f.smallest.key > allLo.key then f.smallest.key else allLo.key;
      assert HeldBySome(inputs.All(), x);
      var g :| g in inputs.All() && Holds(g, x);
      var l := if g in inputs.lower then inputs.level else inputs.level + 1;
      ClearOfUserKeys(v, p, f, l, g);
    }
  }

  lemma RangeHolds(files: Level, lo: IKey, hi: IKey, e: Entry)
    requires FilesOk(files) && RangeOf(files, lo, hi) && e in EntriesOf(files)
    ensures lo.key <= e.key <= hi.key
  {
    var f :| f in files && e in f.entries;
    EntryInRange(f, e);
  }

  lemma FlushKeepsBase(v: Version, p: nat, f: File, v2: Version,
                       base: Version, inputs: Inputs, allLo: IKey, allHi: IKey)
    requires inputs.level + 1 < NUM_LEVELS && InputsWithin(v, inputs) && BaseExact(v, base, inputs)
    requires FilesOk(inputs.All()) && FileOk(f) && Added(v, p, f, v2)
    requires p > 0 ==> ClearThrough(v, p, f.smallest.key, f.largest.key)
    requires RangeOf(inputs.All(), allLo, allHi) && allLo.key <= allHi.key
    requires CoveredBy(inputs.All(), allLo.key, allHi.key)
    ensures BaseExact(v2, base, inputs)
  {
    hide IsBase, FilesOk, Sorted, Contents, ClearThrough, CoveredBy;
    FileBounds(f);
    FlushContents(v, p, f, v2);
    forall l, e, d | inputs.level + 2 <= l < NUM_LEVELS && e in EntriesOf(v2[l]) && d in EntriesOf(inputs.All())
      ensures e.key == d.key ==> !IsBase(base, inputs.level, e.key)
    {
      if l == p && e in Elems(f.entries) {
        FlushMissesInputs(v, p, f, inputs, allLo, allHi);
        RangeHolds(inputs.All(), allLo, allHi, d);
        EntryInRange(f, e);
      }
    }
  }

  lemma FlushKeepsUpper(v: Version, p: nat, f: File, v2: Version, inputs: Inputs, allLo: IKey, allHi: IKey)
    requires inputs.level + 1 < NUM_LEVELS && InputsWithin(v, inputs)
    requires UpperStays(v, inputs) && LowerKeysClear(v, inputs)
    requires Ranged(inputs.All()) && FileOk(f) && Added(v, p, f, v2)
    requires p > 0 ==> ClearThrough(v, p, f.smallest.key, f.largest.key)
    requires RangeOf(inputs.All(), allLo, allHi) && allLo.key <= allHi.key
    requires CoveredBy(inputs.All(), allLo.key, allHi.key)
    ensures UpperStays(v2, inputs) && LowerKeysClear(v2, inputs)
  {
    FileBounds(f);
    if p == inputs.level + 1 {
      FlushMissesInputs(v, p, f, inputs, allLo, allHi);
      assert Apart(f, inputs.All());
      forall g | g in inputs.lower ensures NoSharedKey(f, g) {
        assert g in inputs.All();
      }
    }
  }

  lemma FlushKeepsLower(v: Version, p: nat, f: File, v2: Version, inputs: Inputs)
    requires inputs.level + 1 < NUM_LEVELS && InputsWithin(v, inputs) && LowerStays(v, inputs)
    requires AllNewer(Elems(f.entries), Contents(v)) && Added(v, p, f, v2)
    ensures LowerStays(v2, inputs)
  {
    forall g | g in v2[inputs.level] && g !in inputs.lower ensures AllNewer(Elems(g.entries), EntriesOf(inputs.lower)) {
      if p == inputs.level && g == f {
        assert EntriesOf(inputs.lower) <= Contents(v);
      }
    }
  }

  lemma FlushKeepsWithin(v: Version, p: nat, f: File, v2: Version, inputs: Inputs)
    requires inputs.level + 1 < NUM_LEVELS && InputsWithin(v, inputs) && Added(v, p, f, v2)
    ensures InputsWithin(v2, inputs)
  {
  }

  /** A flush that lands while a compaction runs leaves the compaction fitting. */
  lemma FlushKeepsFits(v: Version, p: nat, f: File, v2: Version,
                       base: Version, inputs: Inputs, allLo: IKey, allHi: IKey)
    requires FilesOk(inputs.All()) && Flushable(v, p, f) && Added(v, p, f, v2) && Fits(v, base, inputs)
    requires RangeOf(inputs.All(), allLo, allHi) && CoveredBy(inputs.All(), allLo.key, allHi.key)
    ensures Fits(v2, base, inputs)
  {
    FilesRanged(inputs.All());
    RangeProper(inputs.All(), allLo, allHi);
    FlushKeepsWithin(v, p, f, v2, inputs);
    FlushKeepsLower(v, p, f, v2, inputs);
    FlushKeepsUpper(v, p, f, v2, inputs, allLo, allHi);
    FlushKeepsBase(v, p, f, v2, base, inputs, allLo, allHi);
  }

  lemma InputsFilesOk(v: Version, inputs: Inputs)
    requires inputs.level + 1 < NUM_LEVELS && InputsWithin(v, inputs) && LevelsOk(v)
    ensures FilesOk(inputs.All())
  {
    assert FilesOk(v[inputs.level]) && FilesOk(v[inputs.level + 1]);
  }
}
