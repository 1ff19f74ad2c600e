/** The merge-and-drop loop of a compaction. */
module Compact {
  import opened Keys
  import opened Versions
  import opened Pick
  import opened Select

  // ---------------------------------------------------------------- base level test

  /** No file below the output level has the user key in its range. */
  ghost predicate IsBase(v: Version, level: nat, k: UserKey) {
    forall l, f :: level + 2 <= l < NUM_LEVELS && f in v[l] ==> !Holds(f, k)
  }

  /** The mutable part of a compaction: one cursor per deeper level for the base-level test, and the
      running overlap with the grandparent files. */
  class Compaction {
    const base: Version
    const inputs: Inputs
    const target: nat
    var levelPtrs: seq<nat>
    var grandparentIndex: nat
    var seenKey: bool
    var overlappedBytes: nat

    constructor (base: Version, inputs: Inputs, target: nat)
      ensures this.base == base && this.inputs == inputs && this.target == target
      ensures levelPtrs == seq(NUM_LEVELS, i => 0)
      ensures grandparentIndex == 0 && !seenKey && overlappedBytes == 0
    {
      this.base, this.inputs, this.target := base, inputs, target;
      levelPtrs := seq(NUM_LEVELS, i => 0);
      grandparentIndex, seenKey, overlappedBytes := 0, false, 0;
    }

    /** Every file already passed by a cursor ends before `k`. */
    ghost predicate PtrsBehind(k: UserKey)
      reads this
    {
      && |levelPtrs| == NUM_LEVELS
      && (forall l :: 0 <= l < NUM_LEVELS ==> levelPtrs[l] <= |base[l]|)
      && forall l, i :: 0 <= l < NUM_LEVELS && 0 <= i < levelPtrs[l] ==> base[l][i].largest.key < k
    }

    /** Asked for non-decreasing keys, the cursor-based test is exact. */
    method IsBaseLevelForKey(k: UserKey) returns (r: bool)
      requires LevelsOk(base) && PtrsBehind(k)
      modifies this`levelPtrs
      ensures PtrsBehind(k)
      ensures r <==> IsBase(base, inputs.level, k)
    {
      var l := inputs.level + 2;
      while l < NUM_LEVELS
        invariant PtrsBehind(k)
        invariant forall m, f :: inputs.level + 2 <= m < l && m < NUM_LEVELS && f in base[m] ==> !Holds(f, k)
        modifies this`levelPtrs
      {
        var files := base[l];
        FilesRanged(files);
        while levelPtrs[l] < |files|
          invariant PtrsBehind(k)
          modifies this`levelPtrs
          decreases |files| - levelPtrs[l]
        {
          var f := files[levelPtrs[l]];
          if k <= f.largest.key {
            if k >= f.smallest.key {
              assert f in base[l] && Holds(f, k);
              return false;
            }
            break;
          }
          levelPtrs := levelPtrs[l := levelPtrs[l] + 1];
        }
        forall f | f in files ensures !Holds(f, k) {
          var i :| 0 <= i < |files| && files[i] == f;
          if i > levelPtrs[l] {
            assert Less(files[levelPtrs[l]].largest, files[i].smallest);
            assert files[levelPtrs[l]] in files;
          }
        }
        l := l + 1;
      }
      r := true;
    }

    /** Ends the current output file when it overlaps too many grandparent bytes. */
    method ShouldStopBefore(ik: IKey) returns (stop: bool)
      requires grandparentIndex <= |inputs.grandparents|
      modifies this`grandparentIndex, this`seenKey, this`overlappedBytes
      ensures old(grandparentIndex) <= grandparentIndex <= |inputs.grandparents|
      ensures forall i :: old(grandparentIndex) <= i < grandparentIndex ==> Less(inputs.grandparents[i].largest, ik)
      ensures grandparentIndex < |inputs.grandparents| ==> !Less(inputs.grandparents[grandparentIndex].largest, ik)
      ensures seenKey
      ensures var bytes := old(overlappedBytes)
                + (if old(seenKey) then TotalFileSize(inputs.grandparents[old(grandparentIndex)..grandparentIndex])
                    else 0);
              stop == (bytes > 10 * target) && overlappedBytes == if stop then 0 else bytes
    {
      ghost var start := grandparentIndex;
      while grandparentIndex < |inputs.grandparents| && Less(inputs.grandparents[grandparentIndex].largest, ik)
        invariant start <= grandparentIndex <= |inputs.grandparents|
        invariant forall i :: start <= i < grandparentIndex ==> Less(inputs.grandparents[i].largest, ik)
        invariant seenKey == old(seenKey)
        invariant overlappedBytes == old(overlappedBytes)
                    + (if seenKey then TotalFileSize(inputs.grandparents[start..grandparentIndex]) else 0)
      {
        SizeAppend(inputs.grandparents[start..grandparentIndex], inputs.grandparents[grandparentIndex]);
        assert inputs.grandparents[start..grandparentIndex + 1]
            == inputs.grandparents[start..grandparentIndex] + [inputs.grandparents[grandparentIndex]];
        if seenKey {
          overlappedBytes := overlappedBytes + inputs.grandparents[grandparentIndex].size;
        }
        grandparentIndex := grandparentIndex + 1;
      }
      seenKey := true;
      if overlappedBytes > 10 * target {
        overlappedBytes := 0;
        stop := true;
      } else {
        stop := false;
      }
    }
  }

  lemma {:induction false} SizeAppend(files: Level, f: File)
    ensures TotalFileSize(files + [f]) == TotalFileSize(files) + f.size
  {
    if files == [] {
      assert files + [f] == [f];
    } else {
      assert (files + [f])[1..] == files[1..] + [f];
      SizeAppend(files[1..], f);
    }
  }

  // ---------------------------------------------------------------- the drop rules

  /** `last_sequence_for_key`: the sequence number of the entry before, if it has the same user key. */
  ghost function PrevSeq(es: seq<Entry>, i: nat): nat
    requires i < |es|
  {
    if i > 0 && es[i - 1].key == es[i].key then es[i - 1].seqno else MAX_SEQ
  }

  /** Rule (A) hides an entry behind a newer one that every snapshot sees; the second rule drops a
      deletion that no deeper level needs. */
  ghost predicate Dropped(es: seq<Entry>, i: nat, snap: nat, v: Version, level: nat)
    requires i < |es|
  {
    || PrevSeq(es, i) <= snap
    || (es[i].op.Delete? && es[i].seqno <= snap && IsBase(v, level, es[i].key))
  }

  /** What survives of the first `n` input entries. */
  ghost function Kept(es: seq<Entry>, n: nat, snap: nat, v: Version, level: nat): seq<Entry>
    requires n <= |es|
  {
    KeptFrom(es, n, snap, v, level)
  }

  ghost function KeptFrom(es: seq<Entry>, n: nat, snap: nat, v: Version, level: nat): seq<Entry>
    requires n <= |es|
  {
    if n == 0 then []
    else
      var k := KeptFrom(es, n - 1, snap, v, level);
      if Dropped(es, n - 1, snap, v, level) then k else k + [es[n - 1]]
  }

  lemma KeptStep(es: seq<Entry>, n: nat, snap: nat, v: Version, level: nat)
    requires n < |es|
    ensures Kept(es, n + 1, snap, v, level) ==
            if Dropped(es, n, snap, v, level) then Kept(es, n, snap, v, level)
            else Kept(es, n, snap, v, level) + [es[n]]
  {
  }

  lemma {:induction false} KeptWithin(es: seq<Entry>, n: nat, snap: nat, v: Version, level: nat)
    requires n <= |es|
    ensures forall e :: e in Kept(es, n, snap, v, level) ==> e in es[..n]
  {
    if n > 0 {
      KeptWithin(es, n - 1, snap, v, level);
      assert es[..n] == es[..n - 1] + [es[n - 1]];
    }
  }

  lemma {:induction false} KeptSorted(es: seq<Entry>, n: nat, snap: nat, v: Version, level: nat)
    requires n <= |es| && Sorted(es)
    ensures Sorted(Kept(es, n, snap, v, level))
  {
    if n > 0 {
      KeptSorted(es, n - 1, snap, v, level);
      KeptWithin(es, n - 1, snap, v, level);
      var k := Kept(es, n - 1, snap, v, level);
      forall j | 0 <= j < |k| ensures Less(k[j].Internal(), es[n - 1].Internal()) {
        assert k[j] in es[..n - 1];
        var i :| 0 <= i < n - 1 && es[i] == k[j];
      }
    }
  }

  /** An input entry survives exactly when no rule drops it. */
  lemma {:induction false} KeptIff(es: seq<Entry>, n: nat, snap: nat, v: Version, level: nat, i: nat)
    requires i < n <= |es| && Sorted(es)
    ensures es[i] in Kept(es, n, snap, v, level) <==> !Dropped(es, i, snap, v, level)
  {
    KeptStep(es, n - 1, snap, v, level);
    if i < n - 1 {
      KeptIff(es, n - 1, snap, v, level, i);
      assert Less(es[i].Internal(), es[n - 1].Internal());
    } else {
      KeptWithin(es, n - 1, snap, v, level);
      forall j | 0 <= j < n - 1 ensures es[j] != es[i] {
        assert Less(es[j].Internal(), es[i].Internal());
      }
    }
  }

  // ---------------------------------------------------------------- output files

  ghost function Flatten(files: Level): seq<Entry> {
    if files == [] then [] else Flatten(files[..|files| - 1]) + files[|files| - 1].entries
  }

  /** Different numbers, all taken for outputs. */
  ghost predicate NumbersFrom(outputs: Level, taken: set<nat>) {
    && (forall f :: f in outputs ==> f.number in taken)
    && forall i, j :: 0 <= i < j < |outputs| ==> outputs[i].number != outputs[j].number
  }

  /** The outputs hold the entries, in order, in well-formed files with numbers of their own. */
  ghost predicate OutputsOk(outputs: Level, entries: seq<Entry>, taken: set<nat>) {
    FilesOk(outputs) && Flatten(outputs) == entries && NumbersFrom(outputs, taken)
  }

  lemma {:induction false} OutputsDisjoint(outputs: Level)
    requires FilesOk(outputs) && Sorted(Flatten(outputs))
    ensures Disjoint(outputs)
    ensures EntriesOf(outputs) == Elems(Flatten(outputs))
  {
    if outputs != [] {
      var n := |outputs| - 1;
      var D, f := outputs[..n], outputs[n];
      var pre := Flatten(D);
      assert outputs == D + [f] && f in outputs && FileOk(f);
      assert FilesOk(D);
      SortedParts(pre, f.entries);
      OutputsDisjoint(D);
      forall e ensures e in EntriesOf(outputs) <==> e in Elems(pre + f.entries) {
        assert e in EntriesOf(outputs) <==> e in EntriesOf(D) || e in f.entries;
      }
      forall i | 0 <= i < n ensures Less(outputs[i].largest, f.smallest) {
        assert outputs[i] in D;
        LastBefore(D, outputs[i], pre, f.entries);
      }
      forall i, j | 0 <= i < j < |outputs| ensures Less(outputs[i].largest, outputs[j].smallest) {
        assert j < n ==> outputs[i] == D[i] && outputs[j] == D[j];
      }
    }
  }

  lemma SortedParts(a: seq<Entry>, b: seq<Entry>)
    requires Sorted(a + b)
    ensures Sorted(a) && Sorted(b)
    ensures forall d, e :: d in a && e in b ==> Less(d.Internal(), e.Internal())
  {
    var all := a + b;
    forall i, j | 0 <= i < j < |a| ensures Less(a[i].Internal(), a[j].Internal()) {
      assert all[i] == a[i] && all[j] == a[j];
    }
    forall i, j | 0 <= i < j < |b| ensures Less(b[i].Internal(), b[j].Internal()) {
      assert all[|a| + i] == b[i] && all[|a| + j] == b[j];
    }
    forall i, j | 0 <= i < |a| && 0 <= j < |b| ensures Less(a[i].Internal(), b[j].Internal()) {
      assert all[i] == a[i] && all[|a| + j] == b[j];
    }
  }

  /** The last entry of an earlier file comes before the first of the last one. */
  lemma LastBefore(D: Level, g: File, pre: seq<Entry>, es: seq<Entry>)
    requires g in D && FileOk(g) && EntriesOf(D) == Elems(pre) && es != [] && Sorted(pre + es)
    ensures Less(g.largest, es[0].Internal())
  {
    var e := g.entries[|g.entries| - 1];
    assert e in g.entries && e in EntriesOf(D) && e in pre && es[0] in es;
    SortedParts(pre, es);
  }

  /** An output file under construction. */
  datatype Builder = Closed | Open(number: nat, entries: seq<Entry>, smallest: IKey, largest: IKey)
  {
    function Entries(): seq<Entry> { if Open? then entries else [] }
  }

  ghost predicate BuilderOk(b: Builder) {
    b.Open? ==> && |b.entries| > 0
                && b.smallest == b.entries[0].Internal()
                && b.largest == b.entries[|b.entries| - 1].Internal()
  }

  /** Everything produced so far. */
  ghost predicate Produced(outputs: Level, b: Builder, entries: seq<Entry>, taken: set<nat>) {
    && BuilderOk(b)
    && FilesOk(outputs)
    && Flatten(outputs) + b.Entries() == entries
    && NumbersFrom(outputs, taken)
    && (b.Open? ==> b.number in taken && forall f :: f in outputs ==> f.number != b.number)
  }

  lemma MoreTaken(outputs: Level, b: Builder, entries: seq<Entry>, taken: set<nat>, taken2: set<nat>)
    requires Produced(outputs, b, entries, taken) && taken <= taken2
    ensures Produced(outputs, b, entries, taken2)
  {
    hide Flatten, FilesOk, BuilderOk;
  }

  method FinishCompactionOutputFile(outputs: Level, b: Builder, size: nat, ghost entries: seq<Entry>,
                                    ghost taken: set<nat>)
    returns (r: Level)
    requires Produced(outputs, b, entries, taken) && b.Open? && Sorted(entries)
    ensures Produced(r, Closed, entries, taken)
  {
    var f := File(b.number, size, b.smallest, b.largest, b.entries);
    r := outputs + [f];
    assert r[..|r| - 1] == outputs;
    SortedParts(Flatten(outputs), b.entries);
    AppendedOk(outputs, f);
    assert Flatten(r) == Flatten(outputs) + f.entries;
    hide FilesOk, Flatten, Sorted;
    assert Flatten(r) + Closed.Entries() == Flatten(r);
  }

  lemma AppendedOk(outputs: Level, f: File)
    requires FilesOk(outputs) && FileOk(f)
    ensures FilesOk(outputs + [f])
  {
  }

  /** Adds a surviving entry, to a new output file with the given number if none is open. */
  method AddEntry(outputs: Level, b: Builder, e: Entry, number: nat, ghost entries: seq<Entry>, ghost taken: set<nat>)
    returns (b2: Builder)
    requires Produced(outputs, b, entries, taken) && (b.Closed? ==> number !in taken)
    ensures Produced(outputs, b2, entries + [e], if b.Closed? then taken + {number} else taken) && b2.Open?
  {
    if b.Closed? {
      b2 := Open(number, [e], e.Internal(), e.Internal());
    } else {
      b2 := b.(entries := b.entries + [e], largest := e.Internal());
    }
    assert Flatten(outputs) + b2.Entries() == entries + [e];
  }

  /** Ends the current output file if there is one and `cut` says so. */
  method MaybeFinish(outputs: Level, b: Builder, cut: bool, ghost entries: seq<Entry>, ghost taken: set<nat>)
    returns (outputs2: Level, b2: Builder)
    requires Produced(outputs, b, entries, taken) && Sorted(entries)
    ensures Produced(outputs2, b2, entries, taken)
    ensures cut ==> b2.Closed?
  {
    outputs2, b2 := outputs, b;
    if cut && b.Open? {
      var size: nat := *;
      outputs2 := FinishCompactionOutputFile(outputs, b, size, entries, taken);
      b2 := Closed;
    }
  }

  /** Writes a surviving entry and ends the output file when it is big enough. */
  method KeepEntry(outputs: Level, b: Builder, e: Entry, number: nat, ghost entries: seq<Entry>, ghost taken: set<nat>)
    returns (outputs2: Level, b2: Builder)
    requires Produced(outputs, b, entries, taken) && Sorted(entries + [e]) && (b.Closed? ==> number !in taken)
    ensures Produced(outputs2, b2, entries + [e], if b.Closed? then taken + {number} else taken)
  {
    b2 := AddEntry(outputs, b, e, number, entries, taken);
    var full: bool := *;
    outputs2, b2 := MaybeFinish(outputs, b2, full, entries + [e], if b.Closed? then taken + {number} else taken);
  }

  /** The file still open at the end becomes the last output. */
  method FinishLast(outputs: Level, b: Builder, ghost entries: seq<Entry>, ghost taken: set<nat>)
    returns (outputs2: Level)
    requires Produced(outputs, b, entries, taken) && Sorted(entries)
    ensures OutputsOk(outputs2, entries, taken)
  {
    var b2;
    outputs2, b2 := MaybeFinish(outputs, b, true, entries, taken);
  }

  /** What DoCompactionWork carries from one entry to the next. */
  datatype Work = Work(outputs: Level, b: Builder, currentUserKey: Option<UserKey>, lastSequenceForKey: nat)

  ghost predicate WorkOk(w: Work, input: seq<Entry>, i: nat, kept: seq<Entry>, taken: set<nat>)
    requires i <= |input|
  {
    && Produced(w.outputs, w.b, kept, taken)
    && Follows(w, input, i)
  }

  /** The remembered user key and sequence number are those of the entry before `i`. */
  ghost predicate Follows(w: Work, input: seq<Entry>, i: nat)
    requires i <= |input|
  {
    && w.currentUserKey == (if i == 0 then None else Some(input[i - 1].key))
    && (i > 0 ==> w.lastSequenceForKey == input[i - 1].seqno)
  }

  /** The drop decision for the next entry. */
  method ShouldDrop(c: Compaction, ghost input: seq<Entry>, ghost i: nat, e: Entry, w: Work, snap: nat)
                    returns (drop: bool)
    requires LevelsOk(c.base) && i < |input| && e == input[i] && c.PtrsBehind(e.key)
    requires Follows(w, input, i)
    modifies c`levelPtrs
    ensures c.PtrsBehind(e.key)
    ensures drop == Dropped(input, i, snap, c.base, c.inputs.level)
  {
    var lastSequenceForKey := if w.currentUserKey == Some(e.key) then w.lastSequenceForKey else MAX_SEQ;
    drop := false;
    if lastSequenceForKey <= snap {
      drop := true;
    } else if e.op.Delete? && e.seqno <= snap {
      drop := c.IsBaseLevelForKey(e.key);
    }
  }

  /** The part of a round of DoCompactionWork's loop that comes before an entry is written: the grandparent rule may
      end the current output, and the drop rules decide.  Where outputs are cut depends on sizes and is left open
      beyond the grandparent rule; what they hold together is not. */
  method JudgeEntry(c: Compaction, input: seq<Entry>, i: nat, snap: nat, w: Work, ghost taken: set<nat>)
    returns (outputs: Level, b: Builder, drop: bool)
    requires LevelsOk(c.base) && Sorted(input) && i < |input|
    requires c.PtrsBehind(input[i].key) && c.grandparentIndex <= |c.inputs.grandparents|
    requires WorkOk(w, input, i, Kept(input, i, snap, c.base, c.inputs.level), taken)
    modifies c
    ensures c.PtrsBehind(input[i].key) && c.grandparentIndex <= |c.inputs.grandparents|
    ensures Produced(outputs, b, Kept(input, i, snap, c.base, c.inputs.level), taken)
    ensures drop == Dropped(input, i, snap, c.base, c.inputs.level)
  {
    KeptSorted(input, i, snap, c.base, c.inputs.level);
    var e := input[i];
    var stop := c.ShouldStopBefore(e.Internal());
    outputs, b := MaybeFinish(w.outputs, w.b, stop, Kept(input, i, snap, c.base, c.inputs.level), taken);
    drop := ShouldDrop(c, input, i, e, w, snap);
  }

  /** The loop stands before entry `i`. */
  ghost predicate Midway(c: Compaction, input: seq<Entry>, i: nat, snap: nat, w: Work, taken: set<nat>)
    reads c
    requires i <= |input|
  {
    && WorkOk(w, input, i, Kept(input, i, snap, c.base, c.inputs.level), taken)
    && (i < |input| ==> c.PtrsBehind(input[i].key))
    && c.grandparentIndex <= |c.inputs.grandparents|
  }

  lemma MidwayStarts(c: Compaction, input: seq<Entry>, snap: nat, taken: set<nat>)
    requires c.levelPtrs == seq(NUM_LEVELS, i => 0) && c.grandparentIndex == 0
    ensures Midway(c, input, 0, snap, Work([], Closed, None, MAX_SEQ), taken)
  {
  }

  /** The loop's state does not depend on what other threads do. */
  lemma MidwayStill(c: Compaction, input: seq<Entry>, i: nat, snap: nat, w: Work, taken: set<nat>, taken2: set<nat>)
    requires i <= |input| && Midway(c, input, i, snap, w, taken) && taken <= taken2
    ensures Midway(c, input, i, snap, w, taken2)
  {
    hide Produced, Follows, Kept;
    MoreTaken(w.outputs, w.b, Kept(input, i, snap, c.base, c.inputs.level), taken, taken2);
  }

  lemma MidwayEnds(c: Compaction, input: seq<Entry>, snap: nat, w: Work, taken: set<nat>)
    requires Midway(c, input, |input|, snap, w, taken)
    ensures Produced(w.outputs, w.b, Kept(input, |input|, snap, c.base, c.inputs.level), taken)
  {
  }

  lemma NextEntry(c: Compaction, input: seq<Entry>, i: nat)
    requires Sorted(input) && i + 1 < |input| && c.PtrsBehind(input[i].key)
    ensures c.PtrsBehind(input[i + 1].key)
  {
    assert Less(input[i].Internal(), input[i + 1].Internal());
  }
}
