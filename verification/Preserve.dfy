/** What compactions do to reads. */
module Preserve {
  // Exactly when a compaction preserves every read.

  import opened Keys
  import opened Versions
  import opened Pick
  import opened Select
  import opened Compact
  import opened Install

  /** A compaction about to replace its inputs: `M` holds the entries of the memtables, `v` is the
      current version, `base` the one the inputs were picked from, `input` the merged inputs. */
  ghost predicate Compacting(M: set<Entry>, v: Version, base: Version, inputs: Inputs, input: seq<Entry>, snap: nat) {
    && VersionOk(v) && Fits(v, base, inputs)
    && Sorted(input) && Elems(input) == EntriesOf(inputs.All())
    && Distinct(M + Contents(v)) && AllNewer(M, Contents(v))
    && snap < MAX_SEQ
  }

  /** The loop drops the `i`th input entry. */
  ghost predicate Drops(base: Version, inputs: Inputs, input: seq<Entry>, snap: nat, i: int) {
    0 <= i < |input| && Dropped(input, i, snap, base, inputs.level)
  }

  ghost predicate DropsEntry(base: Version, inputs: Inputs, input: seq<Entry>, snap: nat, e: Entry) {
    exists i :: Drops(base, inputs, input, snap, i) && input[i] == e
  }

  ghost function Survivors(base: Version, inputs: Inputs, input: seq<Entry>, snap: nat): seq<Entry> {
    Kept(input, |input|, snap, base, inputs.level)
  }

  /** The files of the output level that are not inputs and lie behind all of them. */
  ghost function BehindFiles(v: Version, inputs: Inputs): set<File>
    requires inputs.level + 1 < NUM_LEVELS
  {
    set g | g in v[inputs.level + 1] && g !in inputs.upper && forall f :: f in inputs.All() ==>
          Less(f.largest, g.smallest)
  }

  // ---------------------------------------------------------------- the exact condition

  /** The deletion at `input[i]` is dropped at snapshot bound `snap` and decides reads of its key at
      `at`, but `g`, the file that boundary closing would add on the output level, starts with an older
      value of the same key. */
  ghost predicate Exposed(E: set<Entry>, B: set<File>, base: Version, inputs: Inputs, input: seq<Entry>, snap: nat,
                          at: nat, i: int, g: File)
  {
    && 0 <= i < |input| && input[i].op.Delete? && input[i].seqno <= snap
    && IsBase(base, inputs.level, input[i].key)
    && Newest(E, input[i].key, at, input[i])
    && g in B && |g.entries| > 0 && g.entries[0].key == input[i].key && g.entries[0].op.Put?
    && (forall h :: h in B && h.smallest.key == input[i].key ==> !Less(h.smallest, g.smallest))
  }

  /** Some deletion of this key is exposed. */
  ghost predicate ExposedKey(E: set<Entry>, B: set<File>, base: Version, inputs: Inputs, input: seq<Entry>, snap: nat,
                             at: nat, k: UserKey)
  {
    exists i, g :: 0 <= i < |input| && input[i].key == k && Exposed(E, B, base, inputs, input, snap, at, i, g)
  }

  ghost predicate SameReads(E: set<Entry>, F: set<Entry>, at: nat) {
    forall k, s :: s >= at ==> Read(E, k, s) == Read(F, k, s)
  }

  // ---------------------------------------------------------------- drop rules

  /** Once an entry of a user key is below the snapshot bound, all later ones are dropped. */
  lemma OlderDropped(base: Version, inputs: Inputs, input: seq<Entry>, snap: nat, i: int, j: int)
    requires Sorted(input) && 0 <= i < j < |input| && input[i].key == input[j].key && input[i].seqno <= snap
    ensures Drops(base, inputs, input, snap, j) && DropsEntry(base, inputs, input, snap, input[j])
  {
    assert i < j - 1 ==> Less(input[i].Internal(), input[j - 1].Internal());
    assert Less(input[j - 1].Internal(), input[j].Internal());
  }

  /** Rule (A) drops only entries with a newer one that every snapshot in question sees. */
  lemma HiddenByNewer(E: set<Entry>, input: seq<Entry>, snap: nat, i: int, s: nat)
    requires Sorted(input) && Elems(input) <= E && Distinct(E) && snap < MAX_SEQ
    requires 0 <= i < |input| && PrevSeq(input, i) <= snap <= s
    ensures i > 0 && Visible(E, input[i].key, s, input[i - 1]) && input[i].seqno < input[i - 1].seqno
  {
    assert input[i - 1] in Elems(input);
    assert Less(input[i - 1].Internal(), input[i].Internal());
    LessIsNewer(E, input[i - 1], input[i]);
  }

  // ---------------------------------------------------------------- reads, on sets of entries

  /** The facts about a compaction that reads depend on: `E` and `F` are all entries before and
      after, `B` the files behind the inputs. */
  ghost predicate Situation(E: set<Entry>, F: set<Entry>, B: set<File>, base: Version, inputs: Inputs,
                            input: seq<Entry>, snap: nat)
  {
    && Distinct(E) && Sorted(input) && Elems(input) <= E && snap < MAX_SEQ
    && (forall e :: e in F <==> e in E && !DropsEntry(base, inputs, input, snap, e))
    && OlderAreBehind(E, B, base, inputs, input)
    && (forall g :: g in B ==> |g.entries| > 0 && g.smallest == g.entries[0].Internal())
    && (forall g, e, y | g in B && e in Elems(input) && y in g.entries :: y.key == e.key ==> StartsOlder(F, g, e, y))
  }

  /** Older data of an input's user key, outside the inputs and not below the output level, can only
      be in files behind the inputs. */
  ghost predicate OlderAreBehind(E: set<Entry>, B: set<File>, base: Version, inputs: Inputs, input: seq<Entry>) {
    forall e, y | e in Elems(input) && y in E && y !in Elems(input) ::
      y.key == e.key && y.seqno < e.seqno && IsBase(base, inputs.level, e.key) ==> exists g :: g in B && y in g.entries
  }

  /** The file starts with the key of `e`, with an entry that stays, is older than `e` and no older
      than `y`. */
  ghost predicate StartsOlder(F: set<Entry>, g: File, e: Entry, y: Entry) {
    && |g.entries| > 0
    && g.entries[0].key == e.key && g.entries[0].seqno < e.seqno && g.entries[0] in F
    && y.seqno <= g.entries[0].seqno
  }

  /** A dropped entry that was newest for a snapshot is a deletion below the bound with no deeper
      data. */
  lemma NewestDropIsDeletion(E: set<Entry>, base: Version, inputs: Inputs, input: seq<Entry>, snap: nat, i: int, s: nat)
    requires Distinct(E) && Sorted(input) && Elems(input) <= E && snap < MAX_SEQ
    requires Drops(base, inputs, input, snap, i) && s >= snap
    requires Newest(E, input[i].key, s, input[i])
    ensures input[i].op.Delete? && input[i].seqno <= snap && IsBase(base, inputs.level, input[i].key)
  {
    if PrevSeq(input, i) <= snap {
      HiddenByNewer(E, input, snap, i, s);
    }
  }

  /** What a reader sees after the deletion `input[i]` is gone sits in a file behind the inputs. */
  lemma SeenIsBehind(E: set<Entry>, F: set<Entry>, B: set<File>, base: Version, inputs: Inputs, input: seq<Entry>,
                     snap: nat, i: int, s: nat, y: Entry)
    requires Situation(E, F, B, base, inputs, input, snap)
    requires 0 <= i < |input| && input[i].op.Delete? && input[i].seqno <= snap && s >= snap
    requires Newest(E, input[i].key, s, input[i]) && IsBase(base, inputs.level, input[i].key)
    requires Visible(F, input[i].key, s, y)
    ensures exists g :: g in B && y in g.entries && StartsOlder(F, g, input[i], y)
  {
    var e := input[i];
    assert Visible(E, e.key, s, y);
    assert e in Elems(input);
    assert Drops(base, inputs, input, snap, i);
    assert DropsEntry(base, inputs, input, snap, e);
    forall j | 0 <= j < |input| ensures input[j] != y {
      if input[j] == y {
        LessIsNewer(E, e, y);
        if i < j {
          OlderDropped(base, inputs, input, snap, i, j);
        }
      }
    }
    assert y.seqno < e.seqno;
    var g :| g in B && y in g.entries;
  }

  /** If removing entries changes a read, it removed the one that decided it. */
  lemma DecidedByRemoved(E: set<Entry>, F: set<Entry>, k: UserKey, s: nat) returns (e: Entry)
    requires Distinct(E) && F <= E && Read(E, k, s) != Read(F, k, s)
    ensures Newest(E, k, s, e) && e !in F && Read(E, k, s) == e.op.Result()
  {
    ReadCases(E, k, s);
    ReadCases(F, k, s);
    assert forall d :: Visible(F, k, s, d) ==> Visible(E, k, s, d);
    assert exists d :: Visible(E, k, s, d);
    e :| Newest(E, k, s, e) && Read(E, k, s) == e.op.Result();
    assert e in F ==> Newest(F, k, s, e);
    if e in F {
      ReadOf(F, k, s, e);
    }
  }

  lemma SeenInstead(F: set<Entry>, k: UserKey, s: nat) returns (y: Entry)
    requires Distinct(F) && Read(F, k, s) != None
    ensures Newest(F, k, s, y) && y.op.Put?
  {
    ReadCases(F, k, s);
    y :| Newest(F, k, s, y) && Read(F, k, s) == y.op.Result();
  }

  lemma RemainsWithin(E: set<Entry>, F: set<Entry>, B: set<File>, base: Version, inputs: Inputs, input: seq<Entry>,
                      snap: nat)
    requires Situation(E, F, B, base, inputs, input, snap)
    ensures Distinct(E) && Distinct(F) && F <= E && Sorted(input) && Elems(input) <= E && snap < MAX_SEQ
    ensures forall e :: e in E && e !in F ==> DropsEntry(base, inputs, input, snap, e)
  {
  }

  /** If reads differ, a dropped deletion exposed an older value. */
  lemma DifferenceIsExposed(E: set<Entry>, F: set<Entry>, B: set<File>, base: Version, inputs: Inputs,
                            input: seq<Entry>, snap: nat, at: nat, k: UserKey, s: nat)
    requires Situation(E, F, B, base, inputs, input, snap)
    requires s >= at >= snap && Read(E, k, s) != Read(F, k, s)
    ensures ExposedKey(E, B, base, inputs, input, snap, at, k)
  {
    RemainsWithin(E, F, B, base, inputs, input, snap);
    hide Situation, Read, Exposed, Distinct, Sorted, IsBase, Drops;
    var e := DecidedByRemoved(E, F, k, s);
    assert DropsEntry(base, inputs, input, snap, e);
    var i :| Drops(base, inputs, input, snap, i) && 0 <= i < |input| && input[i] == e;
    NewestDropIsDeletion(E, base, inputs, input, snap, i, s);
    var y := SeenInstead(F, k, s);
    ExposedBy(E, F, B, base, inputs, input, snap, at, i, s, y);
    var g :| Exposed(E, B, base, inputs, input, snap, at, i, g);
  }

  lemma ExposedBy(E: set<Entry>, F: set<Entry>, B: set<File>, base: Version, inputs: Inputs, input: seq<Entry>,
                  snap: nat, at: nat, i: int, s: nat, y: Entry)
    requires Situation(E, F, B, base, inputs, input, snap)
    requires 0 <= i < |input| && input[i].op.Delete? && input[i].seqno <= snap && s >= at >= snap
    requires Newest(E, input[i].key, s, input[i]) && IsBase(base, inputs.level, input[i].key)
    requires Newest(F, input[i].key, s, y) && y.op.Put?
    ensures exists g :: Exposed(E, B, base, inputs, input, snap, at, i, g)
  {
    var e := input[i];
    SeenIsBehind(E, F, B, base, inputs, input, snap, i, s, y);
    var g :| g in B && y in g.entries && StartsOlder(F, g, e, y);
    var x := g.entries[0];
    assert Visible(F, e.key, s, x);
    assert x == y;
    forall d | Visible(E, e.key, at, d) ensures d.seqno <= e.seqno {
      assert Visible(E, e.key, s, d);
    }
    forall h | h in B && h.smallest.key == e.key ensures !Less(h.smallest, g.smallest) {
      NoEarlierFile(E, F, B, base, inputs, input, snap, e, s, g, h);
    }
    assert Exposed(E, B, base, inputs, input, snap, at, i, g);
  }

  lemma NoEarlierFile(E: set<Entry>, F: set<Entry>, B: set<File>, base: Version, inputs: Inputs, input: seq<Entry>,
                      snap: nat, e: Entry, s: nat, g: File, h: File)
    requires Situation(E, F, B, base, inputs, input, snap)
    requires e in Elems(input) && e.seqno <= s
    requires g in B && g.entries[0].key == e.key && Newest(F, e.key, s, g.entries[0])
    requires h in B && h.smallest.key == e.key
    ensures !Less(h.smallest, g.smallest)
  {
    var z := h.entries[0];
    assert StartsOlder(F, h, e, z);
    assert Visible(F, e.key, s, z);
    LessIsNewer(E, z, g.entries[0]);
  }

  /** Conversely, an exposed value changes the read of its key. */
  lemma ExposedIsDifference(E: set<Entry>, F: set<Entry>, B: set<File>, base: Version, inputs: Inputs,
                            input: seq<Entry>, snap: nat, at: nat, i: int, g: File)
    requires Situation(E, F, B, base, inputs, input, snap) && at >= snap
    requires Exposed(E, B, base, inputs, input, snap, at, i, g)
    ensures Read(E, input[i].key, at) == None
    ensures Read(F, input[i].key, at) == Some(g.entries[0].op.value)
  {
    var e, x := input[i], g.entries[0];
    ReadOf(E, e.key, at, e);
    assert e in Elems(input) && x in g.entries;
    assert StartsOlder(F, g, e, x);
    forall y | Visible(F, e.key, at, y) ensures y.seqno <= x.seqno {
      SeenIsBehind(E, F, B, base, inputs, input, snap, i, at, y);
      var h :| h in B && y in h.entries && StartsOlder(F, h, e, y);
      LessIsNewer(E, h.entries[0], x);
      LessIsNewer(E, x, h.entries[0]);
      assert !Less(h.smallest, g.smallest);
    }
    assert Newest(F, e.key, at, x);
    ReadOf(F, e.key, at, x);
  }

  lemma SameReadsIff(E: set<Entry>, F: set<Entry>, B: set<File>, base: Version, inputs: Inputs,
                     input: seq<Entry>, snap: nat, at: nat)
    requires Situation(E, F, B, base, inputs, input, snap) && at >= snap
    ensures SameReads(E, F, at) <==> !exists i, g :: Exposed(E, B, base, inputs, input, snap, at, i, g)
  {
    if i, g :| Exposed(E, B, base, inputs, input, snap, at, i, g) {
      ExposedIsDifference(E, F, B, base, inputs, input, snap, at, i, g);
      assert Read(E, input[i].key, at) != Read(F, input[i].key, at);
    }
    forall k, s | s >= at && Read(E, k, s) != Read(F, k, s)
      ensures exists i, g :: Exposed(E, B, base, inputs, input, snap, at, i, g)
    {
      DifferenceIsExposed(E, F, B, base, inputs, input, snap, at, k, s);
    }
  }

  // ---------------------------------------------------------------- where entries live

  lemma InputOf(v: Version, inputs: Inputs, e: Entry) returns (m: nat, f: File)
    requires inputs.level + 1 < NUM_LEVELS && InputsWithin(v, inputs) && e in EntriesOf(inputs.All())
    ensures m < NUM_LEVELS && f in inputs.All() && e in f.entries && f in v[m]
    ensures (m == inputs.level && f in inputs.lower) || (m == inputs.level + 1 && f in inputs.upper)
    ensures e in EntriesOf(v[m]) && e in Contents(v)
    ensures m == inputs.level ==> e in EntriesOf(inputs.lower)
  {
    f :| f in inputs.All() && e in f.entries;
    m := if f in inputs.lower then inputs.level else inputs.level + 1;
    LevelEntry(v, m, f, e);
  }

  /** Data that is not newer lies no higher. */
  lemma NotNewerIsDeeper(v: Version, l: nat, m: nat, a: Entry, b: Entry)
    requires LevelsOrdered(v) && l < NUM_LEVELS && m < NUM_LEVELS
    requires a in EntriesOf(v[l]) && b in EntriesOf(v[m]) && a.key == b.key && a.seqno <= b.seqno
    ensures m <= l
  {
  }

  /** An input entry is nowhere but in input files. */
  lemma HomeOfInput(v: Version, inputs: Inputs, l: nat, g: File, e: Entry)
    requires inputs.level + 1 < NUM_LEVELS && InputsWithin(v, inputs) && LowerStays(v, inputs) && UpperStays(v, inputs)
    requires LevelsOrdered(v) && FilesOk(v[inputs.level + 1]) && FilesOk(v[inputs.level])
    requires l < NUM_LEVELS && g in v[l] && e in g.entries && e in EntriesOf(inputs.All())
    ensures (l == inputs.level && g in inputs.lower) || (l == inputs.level + 1 && g in inputs.upper)
  {
    var m, f := InputOf(v, inputs, e);
    LevelEntry(v, l, g, e);
    NotNewerIsDeeper(v, l, m, e, e);
    NotNewerIsDeeper(v, m, l, e, e);
    if l == inputs.level {
      assert e in Elems(g.entries);
      assert g !in inputs.lower ==> AllNewer(Elems(g.entries), EntriesOf(inputs.lower));
    } else {
      EntryInRange(f, e);
      EntryInRange(g, e);
      assert g !in inputs.upper ==> Apart(g, inputs.All());
    }
  }

  lemma OutputEntry(v: Version, v2: Version, inputs: Inputs, outputs: Level, e: Entry)
    requires Replaced(v, v2, inputs, outputs) && e in EntriesOf(outputs)
    ensures e in Contents(v2)
  {
    var f :| f in outputs && e in f.entries;
    LevelEntry(v2, inputs.level + 1, f, e);
  }

  lemma StayingEntry(v: Version, v2: Version, inputs: Inputs, outputs: Level, e: Entry)
    requires Replaced(v, v2, inputs, outputs) && e !in EntriesOf(inputs.All()) && e !in EntriesOf(outputs)
    ensures e in Contents(v2) <==> e in Contents(v)
  {
    if e in Contents(v2) {
      var l, g :| 0 <= l < NUM_LEVELS && g in v2[l] && e in g.entries;
      assert l == inputs.level + 1 ==> g !in outputs;
      LevelEntry(v, l, g, e);
    }
    if e in Contents(v) {
      var l, g :| 0 <= l < NUM_LEVELS && g in v[l] && e in g.entries;
      assert g !in inputs.All();
      LevelEntry(v2, l, g, e);
    }
  }

  /** An input entry survives in the new version exactly when it survives the loop. */
  lemma SurvivingEntry(v: Version, v2: Version, inputs: Inputs, outputs: Level, e: Entry)
    requires Replaced(v, v2, inputs, outputs)
    requires InputsWithin(v, inputs) && LowerStays(v, inputs) && UpperStays(v, inputs)
    requires LevelsOrdered(v) && FilesOk(v[inputs.level + 1]) && FilesOk(v[inputs.level])
    requires e in EntriesOf(inputs.All())
    ensures e in Contents(v2) <==> e in EntriesOf(outputs)
  {
    if e in EntriesOf(outputs) {
      OutputEntry(v, v2, inputs, outputs, e);
    }
    if e in Contents(v2) {
      var l, g :| 0 <= l < NUM_LEVELS && g in v2[l] && e in g.entries;
      if !(l == inputs.level + 1 && g in outputs) {
        HomeOfInput(v, inputs, l, g, e);
      }
    }
  }

  lemma DropsIff(base: Version, inputs: Inputs, input: seq<Entry>, snap: nat, e: Entry)
    requires Sorted(input)
    ensures e in Survivors(base, inputs, input, snap) <==>
            e in Elems(input) && !DropsEntry(base, inputs, input, snap, e)
  {
    KeptWithin(input, |input|, snap, base, inputs.level);
    assert input[..|input|] == input;
    if e in Elems(input) {
      var i :| 0 <= i < |input| && input[i] == e;
      KeptIff(input, |input|, snap, base, inputs.level, i);
      forall j | 0 <= j < |input| && j != i ensures input[j] != e {
        assert if i < j then Less(input[i].Internal(), input[j].Internal())
               else Less(input[j].Internal(), input[i].Internal());
      }
    }
  }

  /** The new contents are the old ones without the dropped entries. */
  lemma ExactlyDropped(v: Version, v2: Version, base: Version, inputs: Inputs, input: seq<Entry>,
                       snap: nat, outputs: Level, e: Entry)
    requires Replaced(v, v2, inputs, outputs)
    requires InputsWithin(v, inputs) && LowerStays(v, inputs) && UpperStays(v, inputs)
    requires LevelsOrdered(v) && FilesOk(v[inputs.level + 1]) && FilesOk(v[inputs.level])
    requires Sorted(input) && Elems(input) == EntriesOf(inputs.All())
    requires EntriesOf(outputs) == Elems(Survivors(base, inputs, input, snap))
    ensures e in Contents(v2) <==> e in Contents(v) && !DropsEntry(base, inputs, input, snap, e)
  {
    DropsIff(base, inputs, input, snap, e);
    if e in Elems(input) {
      SurvivingEntry(v, v2, inputs, outputs, e);
      var m, f := InputOf(v, inputs, e);
    } else {
      StayingEntry(v, v2, inputs, outputs, e);
    }
  }

  /** Older data outside the inputs and not below them is on the output level. */
  lemma OlderOnOutputLevel(v: Version, base: Version, inputs: Inputs, e: Entry, y: Entry) returns (g: File)
    requires inputs.level + 1 < NUM_LEVELS && InputsWithin(v, inputs) && LowerStays(v, inputs)
    requires LevelsOrdered(v) && BaseExact(v, base, inputs)
    requires e in EntriesOf(inputs.All()) && IsBase(base, inputs.level, e.key)
    requires y in Contents(v) && y !in EntriesOf(inputs.All()) && y.key == e.key && y.seqno < e.seqno
    ensures g in v[inputs.level + 1] && g !in inputs.upper && y in g.entries
  {
    var m, f := InputOf(v, inputs, e);
    var l, h :| 0 <= l < NUM_LEVELS && h in v[l] && y in h.entries;
    LevelEntry(v, l, h, y);
    NotNewerIsDeeper(v, l, m, y, e);
    assert h !in inputs.All();
    assert l == inputs.level ==> y in Elems(h.entries) && AllNewer(Elems(h.entries), EntriesOf(inputs.lower));
    g := h;
  }

  /** Older data outside the inputs sits behind them. */
  lemma OlderIsBehind(v: Version, base: Version, inputs: Inputs, e: Entry, y: Entry)
    requires inputs.level + 1 < NUM_LEVELS && InputsWithin(v, inputs) && LowerStays(v, inputs) && UpperStays(v, inputs)
    requires LevelsOrdered(v) && FilesOk(v[inputs.level + 1]) && FilesOk(v[inputs.level]) && BaseExact(v, base, inputs)
    requires Less(e.Internal(), y.Internal())
    requires e in EntriesOf(inputs.All()) && IsBase(base, inputs.level, e.key)
    requires y in Contents(v) && y !in EntriesOf(inputs.All()) && y.key == e.key && y.seqno < e.seqno
    ensures exists g :: g in BehindFiles(v, inputs) && y in g.entries
  {
    var g := OlderOnOutputLevel(v, base, inputs, e, y);
    AfterInput(v, inputs, e, g, y);
  }

  lemma AfterInput(v: Version, inputs: Inputs, e: Entry, g: File, y: Entry)
    requires inputs.level + 1 < NUM_LEVELS && InputsWithin(v, inputs) && UpperStays(v, inputs)
    requires FilesOk(v[inputs.level + 1]) && FilesOk(v[inputs.level])
    requires e in EntriesOf(inputs.All()) && Less(e.Internal(), y.Internal())
    requires g in v[inputs.level + 1] && g !in inputs.upper && y in g.entries
    ensures g in BehindFiles(v, inputs)
  {
    var m, f := InputOf(v, inputs, e);
    ApartAndAfter(g, y, f, e, inputs.All());
  }

  lemma ApartAndAfter(g: File, y: Entry, f: File, e: Entry, files: Level)
    requires FileOk(g) && FileOk(f) && f in files && Apart(g, files)
    requires e in f.entries && y in g.entries && Less(e.Internal(), y.Internal())
    ensures forall h :: h in files ==> Less(h.largest, g.smallest)
  {
    EntryInRange(f, e);
    EntryInRange(g, y);
  }

  /** A file behind the inputs that holds an input's user key starts with it. */
  lemma BehindStart(E: set<Entry>, v: Version, inputs: Inputs, e: Entry, g: File, y: Entry)
    requires inputs.level + 1 < NUM_LEVELS && InputsWithin(v, inputs)
    requires FilesOk(v[inputs.level + 1]) && FilesOk(v[inputs.level])
    requires Distinct(E) && Contents(v) <= E
    requires e in EntriesOf(inputs.All()) && g in BehindFiles(v, inputs) && y in g.entries && y.key == e.key
    ensures |g.entries| > 0 && g.entries[0].key == e.key && g.entries[0].seqno < e.seqno
    ensures y.seqno <= g.entries[0].seqno && g.entries[0] in Contents(v) && g.entries[0] !in EntriesOf(inputs.All())
  {
    FileBounds(g);
    var x := g.entries[0];
    var m, f := InputOf(v, inputs, e);
    EntryInRange(f, e);
    EntryInRange(g, y);
    EntryInRange(g, x);
    LevelEntry(v, inputs.level + 1, g, x);
    LevelEntry(v, inputs.level + 1, g, y);
    LessIsNewer(E, e, x);
    LessIsNewer(E, y, x);
    if x in EntriesOf(inputs.All()) {
      var m2, f2 := InputOf(v, inputs, x);
      EntryInRange(f2, x);
    }
  }

  // ---------------------------------------------------------------- the theorem

  lemma MakeSituation(M: set<Entry>, v: Version, v2: Version, base: Version, inputs: Inputs, input: seq<Entry>,
                      snap: nat, outputs: Level)
    requires inputs.level + 1 < NUM_LEVELS && InputsWithin(v, inputs) && LowerStays(v, inputs) && UpperStays(v, inputs)
    requires LevelsOrdered(v) && FilesOk(v[inputs.level + 1]) && FilesOk(v[inputs.level]) && BaseExact(v, base, inputs)
    requires Distinct(M + Contents(v)) && AllNewer(M, Contents(v))
    requires Sorted(input) && Elems(input) == EntriesOf(inputs.All()) && snap < MAX_SEQ
    requires Replaced(v, v2, inputs, outputs)
    requires EntriesOf(outputs) == Elems(Survivors(base, inputs, input, snap))
    ensures Situation(M + Contents(v), M + Contents(v2), BehindFiles(v, inputs), base, inputs, input, snap)
  {
    var E, F, B := M + Contents(v), M + Contents(v2), BehindFiles(v, inputs);
    forall e | e in Elems(input) ensures e in Contents(v) {
      var m, f := InputOf(v, inputs, e);
    }
    forall e ensures e in F <==> e in E && !DropsEntry(base, inputs, input, snap, e) {
      ExactlyDropped(v, v2, base, inputs, input, snap, outputs, e);
      assert DropsEntry(base, inputs, input, snap, e) ==> e in Elems(input);
    }
    forall e, y | e in Elems(input) && y in E && y !in Elems(input)
      ensures y.key == e.key && y.seqno < e.seqno && IsBase(base, inputs.level, e.key) ==>
                exists g :: g in B && y in g.entries
    {
      if y.key == e.key && y.seqno < e.seqno && IsBase(base, inputs.level, e.key) {
        LessIsNewer(E, e, y);
        assert y !in M;
        OlderIsBehind(v, base, inputs, e, y);
      }
    }
    forall g, e, y | g in B && e in Elems(input) && y in g.entries ensures y.key == e.key ==> StartsOlder(F, g, e, y) {
      if y.key == e.key {
        BehindStart(E, v, inputs, e, g, y);
        ExactlyDropped(v, v2, base, inputs, input, snap, outputs, g.entries[0]);
        assert !DropsEntry(base, inputs, input, snap, g.entries[0]);
      }
    }
    forall g | g in B ensures |g.entries| > 0 && g.smallest == g.entries[0].Internal() {
      FileBounds(g);
    }
  }

  /** The theorem: a compaction that dropped entries at snapshot bound `snap` preserves every read at
      or above `at`, the bound itself or any later one, exactly when no dropped deletion exposes an
      older value in an output-level file that boundary closing, had it been applied to the upper
      inputs, would have added. */
  lemma CompactionPreservesReadsIff(M: set<Entry>, v: Version, v2: Version, base: Version, inputs: Inputs,
                                    input: seq<Entry>, snap: nat, at: nat, outputs: Level)
    requires Compacting(M, v, base, inputs, input, snap) && Replaced(v, v2, inputs, outputs) && at >= snap
    requires EntriesOf(outputs) == Elems(Survivors(base, inputs, input, snap))
    ensures SameReads(M + Contents(v), M + Contents(v2), at) <==>
            !exists i, g :: Exposed(M + Contents(v), BehindFiles(v, inputs), base, inputs, input, snap, at, i, g)
  {
    MakeSituation(M, v, v2, base, inputs, input, snap, outputs);
    SameReadsIff(M + Contents(v), M + Contents(v2), BehindFiles(v, inputs), base, inputs, input, snap, at);
  }

  /** An exposed value changes a read at `at` itself. */
  lemma ExposureChangesRead(M: set<Entry>, v: Version, v2: Version, base: Version, inputs: Inputs, input: seq<Entry>,
                            snap: nat, at: nat, outputs: Level, i: int, g: File)
    requires Compacting(M, v, base, inputs, input, snap) && Replaced(v, v2, inputs, outputs) && at >= snap
    requires EntriesOf(outputs) == Elems(Survivors(base, inputs, input, snap))
    requires Exposed(M + Contents(v), BehindFiles(v, inputs), base, inputs, input, snap, at, i, g)
    ensures Read(M + Contents(v), input[i].key, at) != Read(M + Contents(v2), input[i].key, at)
  {
    MakeSituation(M, v, v2, base, inputs, input, snap, outputs);
    ExposedIsDifference(M + Contents(v), M + Contents(v2), BehindFiles(v, inputs), base, inputs, input, snap, at, i, g);
  }

  /** Key by key: a compaction changes the read of `k` at `at` exactly when it exposes a deletion of `k`. */
  lemma ReadChangesIff(M: set<Entry>, v: Version, v2: Version, base: Version, inputs: Inputs, input: seq<Entry>,
                       snap: nat, at: nat, outputs: Level, k: UserKey)
    requires Compacting(M, v, base, inputs, input, snap) && Replaced(v, v2, inputs, outputs) && at >= snap
    requires EntriesOf(outputs) == Elems(Survivors(base, inputs, input, snap))
    ensures Read(M + Contents(v), k, at) != Read(M + Contents(v2), k, at) <==>
            ExposedKey(M + Contents(v), BehindFiles(v, inputs), base, inputs, input, snap, at, k)
  {
    MakeSituation(M, v, v2, base, inputs, input, snap, outputs);
    var E, F, B := M + Contents(v), M + Contents(v2), BehindFiles(v, inputs);
    hide Compacting, Replaced, Situation, Exposed, Read;
    if Read(E, k, at) != Read(F, k, at) {
      DifferenceIsExposed(E, F, B, base, inputs, input, snap, at, k, at);
    }
    if ExposedKey(E, B, base, inputs, input, snap, at, k) {
      var i, g :| 0 <= i < |input| && input[i].key == k && Exposed(E, B, base, inputs, input, snap, at, i, g);
      ExposedIsDifference(E, F, B, base, inputs, input, snap, at, i, g);
    }
  }

  /** The named hypothesis: the upper inputs are closed under boundary files, which the selection
      enforces for the lower inputs only. */
  ghost predicate UpperClosed(v: Version, inputs: Inputs)
    requires inputs.level + 1 < NUM_LEVELS
  {
    BoundaryFull(v[inputs.level + 1], inputs.upper)
  }

  /** Closed upper inputs leave no file behind that shares a user key with an input. */
  lemma ClosedExposesNothing(M: set<Entry>, v: Version, base: Version, inputs: Inputs, input: seq<Entry>, snap: nat,
                             at: nat, i: int, g: File)
    requires Compacting(M, v, base, inputs, input, snap) && UpperClosed(v, inputs)
    ensures !Exposed(M + Contents(v), BehindFiles(v, inputs), base, inputs, input, snap, at, i, g)
  {
    if Exposed(M + Contents(v), BehindFiles(v, inputs), base, inputs, input, snap, at, i, g) {
      NoBoundaryBehind(v, inputs, input[i], g);
    }
  }

  lemma NoBoundaryBehind(v: Version, inputs: Inputs, e: Entry, g: File)
    requires inputs.level + 1 < NUM_LEVELS && InputsWithin(v, inputs) && UpperClosed(v, inputs)
    requires FilesOk(v[inputs.level + 1]) && FilesOk(v[inputs.level])
    requires LowerKeysClear(v, inputs)
    requires e in EntriesOf(inputs.All()) && g in BehindFiles(v, inputs)
    ensures forall y :: y in g.entries ==> y.key != e.key
  {
    var m, f := InputOf(v, inputs, e);
    EntryInRange(f, e);
    assert m == inputs.level + 1 ==> !IsBoundary(f.largest, g);
    forall y | y in g.entries ensures y.key != e.key {
      EntryInRange(g, y);
    }
  }

  /** Under the named hypothesis every compaction preserves reads. */
  lemma ClosedPreservesReads(M: set<Entry>, v: Version, v2: Version, base: Version, inputs: Inputs,
                             input: seq<Entry>, snap: nat, outputs: Level)
    requires Compacting(M, v, base, inputs, input, snap) && Replaced(v, v2, inputs, outputs)
    requires EntriesOf(outputs) == Elems(Survivors(base, inputs, input, snap))
    requires UpperClosed(v, inputs)
    ensures SameReads(M + Contents(v), M + Contents(v2), snap)
  {
    forall i, g ensures !Exposed(M + Contents(v), BehindFiles(v, inputs), base, inputs, input, snap, snap, i, g) {
      ClosedExposesNothing(M, v, base, inputs, input, snap, snap, i, g);
    }
    CompactionPreservesReadsIff(M, v, v2, base, inputs, input, snap, snap, outputs);
  }
}
