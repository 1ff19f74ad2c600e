/** Installing a compaction. */
module Install {
  // The structure it keeps, and the entries it leaves where.

  import opened Keys
  import opened Versions
  import opened Pick
  import opened Select
  import opened Compact
  import Lookup

  /** All of `g` lies before, or all of it lies after, every one of the files. */
  ghost predicate Apart(g: File, files: Level) {
    || (forall f :: f in files ==> Less(g.largest, f.smallest))
    || (forall f :: f in files ==> Less(f.largest, g.smallest))
  }

  ghost predicate NoSharedKey(g: File, f: File) {
    g.largest.key < f.smallest.key || f.largest.key < g.smallest.key
  }

  /** How a running compaction sits in the current version `v`.  `base` is the version its inputs
      were picked from; flushes may have added files to `v` since. */
  ghost predicate Fits(v: Version, base: Version, inputs: Inputs) {
    && inputs.level + 1 < NUM_LEVELS
    && InputsWithin(v, inputs)
    && LowerStays(v, inputs)
    && UpperStays(v, inputs)
    && LowerKeysClear(v, inputs)
    && BaseExact(v, base, inputs)
  }

  ghost predicate InputsWithin(v: Version, inputs: Inputs)
    requires inputs.level + 1 < NUM_LEVELS
  {
    && (forall f :: f in inputs.lower ==> f in v[inputs.level])
    && (forall f :: f in inputs.upper ==> f in v[inputs.level + 1])
  }

  /** Files of the input level that stay behind are newer than the inputs. */
  ghost predicate LowerStays(v: Version, inputs: Inputs)
    requires inputs.level + 1 < NUM_LEVELS
  {
    forall g :: g in v[inputs.level] && g !in inputs.lower ==> AllNewer(Elems(g.entries), EntriesOf(inputs.lower))
  }

  /** Files of the output level that stay behind are clear of all inputs. */
  ghost predicate UpperStays(v: Version, inputs: Inputs)
    requires inputs.level + 1 < NUM_LEVELS
  {
    forall g :: g in v[inputs.level + 1] && g !in inputs.upper ==> Apart(g, inputs.All())
  }

  /** Those files share no user key with the lower inputs. */
  ghost predicate LowerKeysClear(v: Version, inputs: Inputs)
    requires inputs.level + 1 < NUM_LEVELS
  {
    forall g, f :: g in v[inputs.level + 1] && g !in inputs.upper && f in inputs.lower ==> NoSharedKey(g, f)
  }

  /** The base-level test never misses an entry of a deeper level for an input's user key. */
  ghost predicate BaseExact(v: Version, base: Version, inputs: Inputs) {
    forall l, e, d | inputs.level + 2 <= l < NUM_LEVELS && e in EntriesOf(v[l]) && d in EntriesOf(inputs.All()) ::
      e.key == d.key ==> !IsBase(base, inputs.level, e.key)
  }

  /** `v2` is `v` with the inputs replaced by `outputs` on the next level. */
  ghost predicate Replaced(v: Version, v2: Version, inputs: Inputs, outputs: Level) {
    && inputs.level + 1 < NUM_LEVELS
    && (forall l :: 0 <= l < NUM_LEVELS ==> SortedLevel(v2[l]))
    && (forall l :: 0 <= l < NUM_LEVELS && l != inputs.level && l != inputs.level + 1 ==> v2[l] == v[l])
    && (forall f :: f in v2[inputs.level] <==> f in v[inputs.level] && f !in inputs.lower)
    && (forall f :: f in v2[inputs.level + 1] <==>
                      (f in v[inputs.level + 1] && f !in inputs.upper) || f in outputs)
  }

  // ---------------------------------------------------------------- a selection fits its version

  lemma UpperApart(files: Level, upper: Level, lower: Level, lo: IKey, hi: IKey, g: File)
    requires Ranged(files) && Disjoint(files) && Ranged(lower)
    requires upper == Meeting(files, Some(lo.key), Some(hi.key))
    requires RangeOf(lower, lo, hi)
    requires g in files && g !in upper
    ensures Apart(g, lower + upper)
    ensures forall f :: f in lower ==> NoSharedKey(g, f)
  {
    RangeProper(lower, lo, hi);
    if g.largest.key < lo.key {
      forall f | f in lower + upper ensures Less(g.largest, f.smallest) {
        if f in lower {
          assert !Less(f.smallest, lo);
        } else {
          DisjointFiles(files, f, g);
        }
      }
    } else {
      forall f | f in lower + upper ensures Less(f.largest, g.smallest) {
        if f in lower {
          assert !Less(hi, f.largest);
        } else {
          DisjointFiles(files, f, g);
        }
      }
    }
  }

  lemma BehindIsNewer(v: Version, level: nat, lower: Level, lo: IKey, hi: IKey, g: File, a: Entry, f: File, b: Entry)
    requires level < NUM_LEVELS && LowerOk(v, level, lower, lo, hi)
    requires Ranged(v[level]) && (level > 0 ==> Disjoint(v[level]))
    requires g in v[level] && g !in lower && f in lower
    requires FileOk(g) && FileOk(f) && a in g.entries && b in f.entries && a.key == b.key
    ensures level > 0 && Less(a.Internal(), b.Internal())
  {
    EntryInRange(g, a);
    EntryInRange(f, b);
    assert !Less(f.smallest, lo) && !Less(hi, f.largest);
    assert level == 0 ==> MeetsKeys(g, lo, hi);
    assert level > 0;
    DisjointFiles(v[level], f, g);
    if Less(f.largest, g.smallest) {
      assert IsBoundary(f.largest, g);
    }
  }

  /** Files of the input level that stay behind hold newer data than the inputs. */
  lemma LowerNewer(v: Version, level: nat, lower: Level, lo: IKey, hi: IKey, g: File)
    requires level < NUM_LEVELS && FilesOk(v[level]) && (level > 0 ==> Disjoint(v[level]))
    requires Distinct(Contents(v)) && LowerOk(v, level, lower, lo, hi)
    requires g in v[level] && g !in lower
    ensures AllNewer(Elems(g.entries), EntriesOf(lower))
  {
    FilesRanged(v[level]);
    forall a, b | a in Elems(g.entries) && b in EntriesOf(lower) && a.key == b.key ensures a.seqno > b.seqno {
      var f :| f in lower && b in f.entries;
      BehindIsNewer(v, level, lower, lo, hi, g, a, f, b);
      LevelEntry(v, level, g, a);
      LevelEntry(v, level, f, b);
      LessIsNewer(Contents(v), a, b);
    }
  }

  lemma SelfExact(v: Version, inputs: Inputs)
    requires forall l :: 0 <= l < NUM_LEVELS ==> FilesOk(v[l])
    ensures BaseExact(v, v, inputs)
  {
    forall l, e, d | inputs.level + 2 <= l < NUM_LEVELS && e in EntriesOf(v[l]) && d in EntriesOf(inputs.All())
      ensures e.key == d.key ==> !IsBase(v, inputs.level, e.key)
    {
      var f :| f in v[l] && e in f.entries;
      EntryInRange(f, e);
    }
  }

  lemma StayingFiles(files: Level, upper: Level, lower: Level, lo: IKey, hi: IKey)
    requires Ranged(files) && Disjoint(files) && Ranged(lower)
    requires upper == Meeting(files, Some(lo.key), Some(hi.key)) && RangeOf(lower, lo, hi)
    ensures forall g :: g in files && g !in upper ==> Apart(g, lower + upper)
    ensures forall g, f :: g in files && g !in upper && f in lower ==> NoSharedKey(g, f)
  {
    forall g | g in files && g !in upper ensures Apart(g, lower + upper) {
      UpperApart(files, upper, lower, lo, hi, g);
    }
    forall g, f | g in files && g !in upper && f in lower ensures NoSharedKey(g, f) {
      UpperApart(files, upper, lower, lo, hi, g);
    }
  }

  lemma StayingLower(v: Version, level: nat, lower: Level, lo: IKey, hi: IKey)
    requires level < NUM_LEVELS && FilesOk(v[level]) && (level > 0 ==> Disjoint(v[level]))
    requires Distinct(Contents(v)) && LowerOk(v, level, lower, lo, hi)
    ensures forall g :: g in v[level] && g !in lower ==> AllNewer(Elems(g.entries), EntriesOf(lower))
  {
    forall g | g in v[level] && g !in lower ensures AllNewer(Elems(g.entries), EntriesOf(lower)) {
      LowerNewer(v, level, lower, lo, hi, g);
    }
  }

  /** A fresh selection fits the version it was made from. */
  lemma SelectionFits(v: Version, inputs: Inputs, lo: IKey, hi: IKey, allLo: IKey, allHi: IKey)
    requires VersionOk(v) && Selected(v, inputs, lo, hi, allLo, allHi)
    ensures Fits(v, v, inputs)
  {
    FilesRanged(v[inputs.level]);
    FilesRanged(v[inputs.level + 1]);
    StayingFiles(v[inputs.level + 1], inputs.upper, inputs.lower, lo, hi);
    StayingLower(v, inputs.level, inputs.lower, lo, hi);
    SelfExact(v, inputs);
  }

  // ---------------------------------------------------------------- structure

  lemma SeparatedSorted(files: Level)
    requires SortedLevel(files) && Ranged(files)
    requires forall f, g :: f in files && g in files && f != g ==>
               Less(f.largest, g.smallest) || Less(g.largest, f.smallest)
    ensures Disjoint(files)
  {
    forall i, j | 0 <= i < j < |files| ensures Less(files[i].largest, files[j].smallest) {
      assert BySmallest(files[i], files[j]);
      assert files[i] in files && files[j] in files;
      assert files[i] != files[j];
    }
  }

  /** Where the entries of the new version come from. */
  lemma Origin(v: Version, v2: Version, inputs: Inputs, outputs: Level, l: nat, e: Entry)
    requires Replaced(v, v2, inputs, outputs) && l < NUM_LEVELS
    requires forall f :: f in inputs.lower ==> f in v[inputs.level]
    requires forall f :: f in inputs.upper ==> f in v[inputs.level + 1]
    requires EntriesOf(outputs) <= EntriesOf(inputs.All())
    requires e in EntriesOf(v2[l])
    ensures e in EntriesOf(v[l]) || (l == inputs.level + 1 && e in EntriesOf(inputs.lower))
    ensures l == inputs.level ==> exists g :: g in v[l] && g !in inputs.lower && e in g.entries
    ensures e in EntriesOf(inputs.lower) ==> e in EntriesOf(v[inputs.level])
  {
    var g :| g in v2[l] && e in g.entries;
    if l == inputs.level + 1 && g in outputs {
      assert e in EntriesOf(outputs);
      var f :| f in inputs.All() && e in f.entries;
    }
  }

  lemma OrderedAfter(v: Version, v2: Version, inputs: Inputs, outputs: Level)
    requires Replaced(v, v2, inputs, outputs)
    requires LevelsOrdered(v) && InputsWithin(v, inputs) && LowerStays(v, inputs)
    requires EntriesOf(outputs) <= EntriesOf(inputs.All())
    ensures LevelsOrdered(v2)
  {
    var L := inputs.level;
    forall l, m | 0 <= l < m < NUM_LEVELS ensures AllNewer(EntriesOf(v2[l]), EntriesOf(v2[m])) {
      forall a, b | a in EntriesOf(v2[l]) && b in EntriesOf(v2[m]) && a.key == b.key ensures a.seqno > b.seqno {
        Origin(v, v2, inputs, outputs, l, a);
        Origin(v, v2, inputs, outputs, m, b);
        if m == L + 1 && b in EntriesOf(inputs.lower) && l == L {
          var g :| g in v[L] && g !in inputs.lower && a in g.entries;
          assert AllNewer(Elems(g.entries), EntriesOf(inputs.lower));
          assert a in Elems(g.entries);
        } else {
          var l' := if a in EntriesOf(v[l]) then l else L;
          var m' := if b in EntriesOf(v[m]) then m else L;
          assert AllNewer(EntriesOf(v[l']), EntriesOf(v[m']));
        }
      }
    }
  }

  lemma ApartFromOutput(g: File, o: File, inputs: Level)
    requires FilesOk(inputs) && FileOk(o) && Apart(g, inputs)
    requires forall e :: e in o.entries ==> e in EntriesOf(inputs)
    ensures Less(g.largest, o.smallest) || Less(o.largest, g.smallest)
  {
    FileBounds(o);
    var a, b := o.entries[0], o.entries[|o.entries| - 1];
    assert a in o.entries && b in o.entries;
    var f :| f in inputs && a in f.entries;
    var h :| h in inputs && b in h.entries;
    EntryInRange(f, a);
    EntryInRange(h, b);
  }

  lemma DisjointAfter(v: Version, v2: Version, base: Version, inputs: Inputs, outputs: Level)
    requires VersionOk(v) && Fits(v, base, inputs) && Replaced(v, v2, inputs, outputs)
    requires FilesOk(outputs) && Disjoint(outputs) && EntriesOf(outputs) <= EntriesOf(inputs.All())
    ensures LevelsOk(v2)
  {
    var L := inputs.level;
    forall l | 0 <= l < NUM_LEVELS ensures FilesOk(v2[l]) {
      assert FilesOk(v[l]);
    }
    assert FilesOk(inputs.All());
    forall l | 1 <= l < NUM_LEVELS ensures Disjoint(v2[l]) {
      FilesRanged(v2[l]);
      forall f, g | f in v2[l] && g in v2[l] && f != g
        ensures Less(f.largest, g.smallest) || Less(g.largest, f.smallest)
      {
        SeparateAfter(v, v2, base, inputs, outputs, l, f, g);
      }
      SeparatedSorted(v2[l]);
    }
  }

  lemma SeparateAfter(v: Version, v2: Version, base: Version, inputs: Inputs, outputs: Level, l: nat, f: File, g: File)
    requires LevelsOk(v) && Fits(v, base, inputs) && Replaced(v, v2, inputs, outputs)
    requires FilesOk(inputs.All()) && FilesOk(outputs) && Disjoint(outputs)
    requires EntriesOf(outputs) <= EntriesOf(inputs.All())
    requires 1 <= l < NUM_LEVELS && f in v2[l] && g in v2[l] && f != g
    ensures Less(f.largest, g.smallest) || Less(g.largest, f.smallest)
  {
    var isOut := l == inputs.level + 1;
    if isOut && f in outputs && g in outputs {
      DisjointFiles(outputs, f, g);
    } else if isOut && f in outputs {
      assert forall e :: e in f.entries ==> e in EntriesOf(outputs);
      ApartFromOutput(g, f, inputs.All());
    } else if isOut && g in outputs {
      assert forall e :: e in g.entries ==> e in EntriesOf(outputs);
      ApartFromOutput(f, g, inputs.All());
    } else {
      DisjointFiles(v[l], f, g);
    }
  }

  /** No number of an output is taken by a file that stays. */
  ghost predicate FreshNumbers(v: Version, inputs: Inputs, outputs: Level) {
    && (forall i, j :: 0 <= i < j < |outputs| ==> outputs[i].number != outputs[j].number)
    && (forall l, f, o :: 0 <= l < NUM_LEVELS && f in v[l] && o in outputs && f.number == o.number ==>
          (l == inputs.level && f in inputs.lower) || (l == inputs.level + 1 && f in inputs.upper))
  }

  lemma NumbersAfter(v: Version, v2: Version, inputs: Inputs, outputs: Level)
    requires NumbersUnique(v) && Replaced(v, v2, inputs, outputs) && FreshNumbers(v, inputs, outputs)
    ensures NumbersUnique(v2)
  {
    forall l, m, f, g | 0 <= l < NUM_LEVELS && 0 <= m < NUM_LEVELS && f in v2[l] && g in v2[m] && f.number == g.number
      ensures l == m && f == g
    {
      var fo := l == inputs.level + 1 && f in outputs;
      var go := m == inputs.level + 1 && g in outputs;
      if fo && go {
        var i :| 0 <= i < |outputs| && outputs[i] == f;
        var j :| 0 <= j < |outputs| && outputs[j] == g;
      }
    }
  }

  /** The entries of the new version were entries of the old one. */
  lemma ContentsAfter(v: Version, v2: Version, base: Version, inputs: Inputs, outputs: Level)
    requires Fits(v, base, inputs) && Replaced(v, v2, inputs, outputs)
    requires EntriesOf(outputs) <= EntriesOf(inputs.All())
    ensures Contents(v2) <= Contents(v)
  {
    forall e | e in Contents(v2) ensures e in Contents(v) {
      var l, g :| 0 <= l < NUM_LEVELS && g in v2[l] && e in g.entries;
      assert e in EntriesOf(v2[l]);
      Origin(v, v2, inputs, outputs, l, e);
    }
  }

  /** Replacing the inputs of a fitting compaction keeps the structure of the version. */
  lemma InstallKeepsOk(v: Version, v2: Version, base: Version, inputs: Inputs, outputs: Level)
    requires VersionOk(v) && Fits(v, base, inputs) && Replaced(v, v2, inputs, outputs)
    requires FilesOk(outputs) && Disjoint(outputs) && EntriesOf(outputs) <= EntriesOf(inputs.All())
    requires FreshNumbers(v, inputs, outputs)
    ensures VersionOk(v2)
    ensures Contents(v2) <= Contents(v)
  {
    DisjointAfter(v, v2, base, inputs, outputs);
    OrderedAfter(v, v2, inputs, outputs);
    NumbersAfter(v, v2, inputs, outputs);
    ContentsAfter(v, v2, base, inputs, outputs);
    assert forall f :: f in v2[0] ==> f in v[0];
  }
}
