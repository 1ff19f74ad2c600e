/** Table files, levels and versions, and the invariant every installed version satisfies. */
module Versions {
  import opened Keys

  const NUM_LEVELS: nat := 7

  /** A table file: its metadata as recorded in the manifest, and the entries stored in it. */
  datatype File = File(number: nat, size: nat, smallest: IKey, largest: IKey, entries: seq<Entry>)

  type Level = seq<File>
  type Version = v: seq<Level> | |v| == NUM_LEVELS witness [[], [], [], [], [], [], []]

  ghost predicate FileOk(f: File) {
    && |f.entries| > 0
    && Sorted(f.entries)
    && f.smallest == f.entries[0].Internal()
    && f.largest == f.entries[|f.entries| - 1].Internal()
  }

  /** The order of files inside a level: smallest key first, ties broken by number. */
  predicate BySmallest(f: File, g: File) {
    Less(f.smallest, g.smallest) || (f.smallest == g.smallest && f.number < g.number)
  }

  ghost predicate SortedLevel(files: Level) {
    forall i, j :: 0 <= i < j < |files| ==> BySmallest(files[i], files[j])
  }

  ghost predicate FilesOk(files: Level) {
    forall f :: f in files ==> FileOk(f)
  }

  /** Levels above zero are runs of files with disjoint, increasing ranges of internal keys. */
  ghost predicate Disjoint(files: Level) {
    forall i, j :: 0 <= i < j < |files| ==> Less(files[i].largest, files[j].smallest)
  }

  ghost function EntriesOf(files: Level): set<Entry> {
    set f, e | f in files && e in f.entries :: e
  }

  /** All entries of the levels `l` and deeper. */
  ghost function EntriesFrom(v: Version, l: nat): set<Entry> {
    set m, f, e | l <= m < NUM_LEVELS && f in v[m] && e in f.entries :: e
  }

  ghost function Contents(v: Version): set<Entry> {
    EntriesFrom(v, 0)
  }

  /** Level-0 files may overlap; a higher file number means newer data. */
  ghost predicate NewerByNumber(files: Level) {
    forall f, g :: f in files && g in files && f.number > g.number ==>
                     AllNewer(Elems(f.entries), Elems(g.entries))
  }

  ghost predicate LevelsOrdered(v: Version) {
    forall l, m :: 0 <= l < m < NUM_LEVELS ==> AllNewer(EntriesOf(v[l]), EntriesOf(v[m]))
  }

  ghost predicate NumbersUnique(v: Version) {
    forall l, m, f, g | 0 <= l < NUM_LEVELS && 0 <= m < NUM_LEVELS && f in v[l] && g in v[m] ::
      f.number == g.number ==> l == m && f == g
  }

  ghost predicate LevelsOk(v: Version) {
    && (forall l :: 0 <= l < NUM_LEVELS ==> FilesOk(v[l]) && SortedLevel(v[l]))
    && (forall l :: 1 <= l < NUM_LEVELS ==> Disjoint(v[l]))
  }

  /** The structure a version keeps through every flush, move and compaction. */
  ghost predicate VersionOk(v: Version) {
    && LevelsOk(v)
    && LevelsOrdered(v)
    && NewerByNumber(v[0])
    && NumbersUnique(v)
    && Distinct(Contents(v))
  }

  // ---------------------------------------------------------------- user-key ranges

  /** The file's range of user keys meets `[lo, hi]`; a missing bound is unbounded. */
  predicate Meets(f: File, lo: Option<UserKey>, hi: Option<UserKey>) {
    && !(lo.Some? && f.largest.key < lo.value)
    && !(hi.Some? && f.smallest.key > hi.value)
  }

  predicate Holds(f: File, k: UserKey) {
    f.smallest.key <= k <= f.largest.key
  }

  // ---------------------------------------------------------------- basic facts

  lemma EntryInRange(f: File, e: Entry)
    requires FileOk(f) && e in f.entries
    ensures !Less(e.Internal(), f.smallest) && !Less(f.largest, e.Internal())
    ensures Holds(f, e.key)
  {
    var i :| 0 <= i < |f.entries| && f.entries[i] == e;
    assert i > 0 ==> Less(f.entries[0].Internal(), f.entries[i].Internal());
    assert i < |f.entries| - 1 ==> Less(f.entries[i].Internal(), f.entries[|f.entries| - 1].Internal());
  }

  lemma FileBounds(f: File)
    requires FileOk(f)
    ensures !Less(f.largest, f.smallest) && f.smallest.key <= f.largest.key
    ensures |f.entries| > 0
    ensures f.smallest == f.entries[0].Internal() && f.largest == f.entries[|f.entries| - 1].Internal()
  {
    EntryInRange(f, f.entries[0]);
  }

  /** The only fact about files that the selection of inputs relies on. */
  ghost predicate Ranged(files: Level) {
    forall f :: f in files ==> !Less(f.largest, f.smallest)
  }

  lemma FilesRanged(files: Level)
    requires FilesOk(files)
    ensures Ranged(files)
  {
    forall f | f in files ensures !Less(f.largest, f.smallest) {
      FileBounds(f);
    }
  }

  lemma LevelEntry(v: Version, l: nat, f: File, e: Entry)
    requires l < NUM_LEVELS && f in v[l] && e in f.entries
    ensures e in EntriesOf(v[l]) && e in Contents(v)
  {
  }

  lemma EntriesFromStep(v: Version, l: nat)
    requires l < NUM_LEVELS
    ensures EntriesFrom(v, l) == EntriesOf(v[l]) + EntriesFrom(v, l + 1)
  {
  }

  lemma DeeperIsOlder(v: Version, l: nat)
    requires VersionOk(v) && l < NUM_LEVELS
    ensures AllNewer(EntriesOf(v[l]), EntriesFrom(v, l + 1))
  {
    forall a, b | a in EntriesOf(v[l]) && b in EntriesFrom(v, l + 1) && a.key == b.key
      ensures a.seqno > b.seqno
    {
      var m, g :| l + 1 <= m < NUM_LEVELS && g in v[m] && b in g.entries;
      assert b in EntriesOf(v[m]);
    }
  }

  /** Files of a disjoint level are totally separated: one lies before the other. */
  lemma DisjointFiles(files: Level, f: File, g: File)
    requires Disjoint(files) && f in files && g in files && f != g
    ensures Less(f.largest, g.smallest) || Less(g.largest, f.smallest)
  {
    var i :| 0 <= i < |files| && files[i] == f;
    var j :| 0 <= j < |files| && files[j] == g;
  }
}
