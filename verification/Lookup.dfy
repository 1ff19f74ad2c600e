/** Point lookups. */
module Lookup {
  // One probe per memtable, level-0 files newest first, and a single binary-searched file per deeper level.

  import opened Keys
  import opened Versions

  /** The index of the first entry at or after `ik`: what a table or memtable seek lands on. */
  function FirstAtOrAfter(es: seq<Entry>, ik: IKey): (i: nat)
    ensures i <= |es|
    ensures forall j :: 0 <= j < i ==> Less(es[j].Internal(), ik)
    ensures i < |es| ==> !Less(es[i].Internal(), ik)
  {
    if es == [] || !Less(es[0].Internal(), ik) then 0
    else 1 + FirstAtOrAfter(es[1..], ik)
  }

  /** What the saver callback records about one probed table. */
  datatype Saved = NotFound | Found(value: string) | Deleted

  function Save(es: seq<Entry>, k: UserKey, s: SeqNum): Saved {
    var i := FirstAtOrAfter(es, SeekKey(k, s));
    if i < |es| && es[i].key == k then
      match es[i].op
      case Put(v) => Found(v)
      case Delete => Deleted
    else NotFound
  }

  function Outcome(r: Saved): Option<string> {
    if r.Found? then Some(r.value) else None
  }

  lemma VisibleIffAtOrAfter(e: Entry, k: UserKey, s: SeqNum)
    requires e.key == k
    ensures e.seqno <= s <==> !Less(e.Internal(), SeekKey(k, s))
  {
  }

  /** One seek decides a sorted run of entries: it lands on the newest visible entry of the user
      key, or there is none. */
  lemma ProbeDecides(es: seq<Entry>, k: UserKey, s: SeqNum)
    requires Sorted(es) && Distinct(Elems(es))
    ensures Save(es, k, s) == NotFound <==> forall d :: !Visible(Elems(es), k, s, d)
    ensures Read(Elems(es), k, s) == Outcome(Save(es, k, s))
  {
    var i := FirstAtOrAfter(es, SeekKey(k, s));
    forall d | Visible(Elems(es), k, s, d) ensures i < |es| && es[i].key == k && d.seqno <= es[i].seqno {
      VisibleIffAtOrAfter(d, k, s);
      var j :| 0 <= j < |es| && es[j] == d;
      assert i < j ==> Less(es[i].Internal(), es[j].Internal());
    }
    if i < |es| && es[i].key == k {
      VisibleIffAtOrAfter(es[i], k, s);
      assert Newest(Elems(es), k, s, es[i]);
      ReadOf(Elems(es), k, s, es[i]);
    } else {
      ReadCases(Elems(es), k, s);
    }
  }

  lemma ReadAgrees(E: set<Entry>, F: set<Entry>, k: UserKey, s: nat)
    requires Distinct(E) && Distinct(F)
    requires forall x :: Visible(E, k, s, x) <==> Visible(F, k, s, x)
    ensures Read(E, k, s) == Read(F, k, s)
  {
    ReadCases(E, k, s);
    ReadCases(F, k, s);
    if exists d :: Visible(E, k, s, d) {
      var e :| Newest(E, k, s, e) && Read(E, k, s) == e.op.Result();
      assert Newest(F, k, s, e);
      ReadOf(F, k, s, e);
    }
  }

  /** Binary search for the first file whose largest key is at or after `ik`. */
  method FindFile(files: Level, ik: IKey) returns (index: nat)
    requires FilesOk(files) && Disjoint(files)
    ensures SplitAt(files, index, ik)
  {
    var left, right := 0, |files|;
    while left < right
      invariant 0 <= left <= right <= |files|
      invariant forall i :: 0 <= i < left ==> Less(files[i].largest, ik)
      invariant forall i :: right <= i < |files| ==> !Less(files[i].largest, ik)
    {
      var mid := (left + right) / 2;
      forall i, j | 0 <= i < j < |files| ensures Less(files[i].largest, files[j].largest) {
        FileBounds(files[j]);
      }
      if Less(files[mid].largest, ik) {
        left := mid + 1;
      } else {
        right := mid;
      }
    }
    index := right;
  }

  /** The split that FindFile computes. */
  ghost predicate SplitAt(files: Level, index: nat, ik: IKey) {
    && index <= |files|
    && (forall i :: 0 <= i < index ==> Less(files[i].largest, ik))
    && (forall i :: index <= i < |files| ==> !Less(files[i].largest, ik))
  }

  /** Every visible entry of the level is at or below the one the seek lands on. */
  lemma SeekDominates(files: Level, index: nat, k: UserKey, s: SeqNum, d: Entry)
    requires FilesOk(files) && Disjoint(files) && SplitAt(files, index, SeekKey(k, s))
    requires Visible(EntriesOf(files), k, s, d)
    ensures index < |files| && files[index].smallest.key <= k
    ensures var es := files[index].entries;
            var i := FirstAtOrAfter(es, SeekKey(k, s));
            i < |es| && es[i].key == k && d.seqno <= es[i].seqno
  {
    VisibleIffAtOrAfter(d, k, s);
    var f :| f in files && d in f.entries;
    var j :| 0 <= j < |files| && files[j] == f;
    EntryInRange(f, d);
    assert j >= index;
    var g := files[index];
    FileBounds(g);
    var es := g.entries;
    var i := FirstAtOrAfter(es, SeekKey(k, s));
    assert i < |es|;
    EntryInRange(g, es[i]);
    if j == index {
      var n :| 0 <= n < |es| && es[n] == d;
      assert i < n ==> Less(es[i].Internal(), es[n].Internal());
    }
  }

  /** The file picked by the binary search decides a whole level. */
  lemma OneFileDecides(files: Level, index: nat, k: UserKey, s: SeqNum)
    requires FilesOk(files) && Disjoint(files) && Distinct(EntriesOf(files))
    requires SplitAt(files, index, SeekKey(k, s))
    ensures forall d :: Visible(EntriesOf(files), k, s, d) ==>
                          index < |files| && files[index].smallest.key <= k
    ensures index < |files| ==>
              var saved := Save(files[index].entries, k, s);
              && (saved == NotFound <==> forall d :: !Visible(EntriesOf(files), k, s, d))
              && Read(EntriesOf(files), k, s) == Outcome(saved)
  {
    var E := EntriesOf(files);
    forall d | Visible(E, k, s, d) ensures index < |files| && files[index].smallest.key <= k {
      SeekDominates(files, index, k, s, d);
    }
    if index < |files| {
      var es := files[index].entries;
      var i := FirstAtOrAfter(es, SeekKey(k, s));
      forall d | Visible(E, k, s, d) ensures i < |es| && es[i].key == k && d.seqno <= es[i].seqno {
        SeekDominates(files, index, k, s, d);
      }
      if i < |es| && es[i].key == k {
        VisibleIffAtOrAfter(es[i], k, s);
        assert files[index] in files && es[i] in es;
        assert Newest(E, k, s, es[i]);
        ReadOf(E, k, s, es[i]);
      } else {
        ReadCases(E, k, s);
      }
    }
  }

  // ---------------------------------------------------------------- level 0

  ghost predicate NewestFirst(files: Level) {
    forall i, j :: 0 <= i < j < |files| ==> files[i].number > files[j].number
  }

  ghost predicate DistinctNumbers(files: Level) {
    forall i, j :: 0 <= i < j < |files| ==> files[i].number != files[j].number
  }

  /** Sorts by decreasing file number; numbers are distinct. */
  method SortNewestFirst(files: Level) returns (r: Level)
    requires DistinctNumbers(files)
    ensures NewestFirst(r)
    ensures forall f :: f in r <==> f in files
  {
    r := [];
    for i := 0 to |files|
      invariant NewestFirst(r)
      invariant forall f :: f in r <==> f in files[..i]
    {
      var f := files[i];
      var p := 0;
      while p < |r| && r[p].number > f.number
        invariant p <= |r|
        invariant forall q :: 0 <= q < p ==> r[q].number > f.number
      {
        p := p + 1;
      }
      assert p < |r| ==> r[p].number < f.number by {
        if p < |r| {
          assert r[p] in files[..i];
        }
      }
      EnteredNewest(r, p, f);
      EnteredMembers(r, p, f);
      assert files[..i + 1] == files[..i] + [f];
      r := r[..p] + [f] + r[p..];
    }
    assert files[..|files|] == files;
  }

  /** Inserting a file between newer and older ones. */
  lemma EnteredNewest(r: Level, p: nat, f: File)
    requires NewestFirst(r) && p <= |r| && forall q :: 0 <= q < p ==> r[q].number > f.number
    requires p < |r| ==> r[p].number < f.number
    ensures NewestFirst(r[..p] + [f] + r[p..])
  {
    var s := r[..p] + [f] + r[p..];
    forall i, j | 0 <= i < j < |s| ensures s[i].number > s[j].number {
      assert s[i] == if i < p then r[i] else if i == p then f else r[i - 1];
      assert s[j] == if j < p then r[j] else if j == p then f else r[j - 1];
      assert p < j - 1 ==> r[p].number > r[j - 1].number;
    }
  }

  lemma EnteredMembers(r: Level, p: nat, f: File)
    requires p <= |r|
    ensures forall g :: g in r[..p] + [f] + r[p..] <==> g in r || g == f
  {
    assert r == r[..p] + r[p..];
  }

  lemma LevelZeroNumbers(v: Version)
    requires VersionOk(v)
    ensures DistinctNumbers(v[0])
  {
    forall i, j | 0 <= i < j < |v[0]| ensures v[0][i].number != v[0][j].number {
      assert BySmallest(v[0][i], v[0][j]);
    }
  }

  /** Probes the files in order until one of them knows the key. */
  method ProbeInOrder(files: Level, k: UserKey, s: SeqNum) returns (saved: Saved)
    requires FilesOk(files) && NewestFirst(files) && NewerByNumber(files) && Distinct(EntriesOf(files))
    ensures saved == NotFound <==> forall d :: !Visible(EntriesOf(files), k, s, d)
    ensures Read(EntriesOf(files), k, s) == Outcome(saved)
  {
    var i := 0;
    while i < |files|
      invariant i <= |files|
      invariant forall d :: Visible(EntriesOf(files), k, s, d) ==> Visible(EntriesOf(files[i..]), k, s, d)
    {
      saved := Save(files[i].entries, k, s);
      ProbeStep(files, i, k, s);
      if saved != NotFound {
        return;
      }
      i := i + 1;
    }
    saved := NotFound;
    assert EntriesOf(files[i..]) == {};
    ReadCases(EntriesOf(files), k, s);
  }

  lemma HeadTail(files: Level, i: nat)
    requires FilesOk(files) && NewestFirst(files) && NewerByNumber(files) && i < |files|
    ensures EntriesOf(files[i..]) == Elems(files[i].entries) + EntriesOf(files[i + 1..])
    ensures EntriesOf(files[i..]) <= EntriesOf(files)
    ensures AllNewer(Elems(files[i].entries), EntriesOf(files[i + 1..]))
  {
    assert files[i..] == [files[i]] + files[i + 1..];
    forall a, b | a in Elems(files[i].entries) && b in EntriesOf(files[i + 1..]) && a.key == b.key
      ensures a.seqno > b.seqno
    {
      var g :| g in files[i + 1..] && b in g.entries;
      assert AllNewer(Elems(files[i].entries), Elems(g.entries));
    }
  }

  lemma ProbeStep(files: Level, i: nat, k: UserKey, s: SeqNum)
    requires FilesOk(files) && NewestFirst(files) && NewerByNumber(files) && Distinct(EntriesOf(files))
    requires i < |files|
    requires forall d :: Visible(EntriesOf(files), k, s, d) ==> Visible(EntriesOf(files[i..]), k, s, d)
    ensures var saved := Save(files[i].entries, k, s);
            if saved == NotFound then
              forall d :: Visible(EntriesOf(files), k, s, d) ==> Visible(EntriesOf(files[i + 1..]), k, s, d)
            else
              && (exists d :: Visible(EntriesOf(files), k, s, d))
              && Read(EntriesOf(files), k, s) == Outcome(saved)
  {
    HeadTail(files, i);
    assert FileOk(files[i]);
    HeadDecides(EntriesOf(files), files[i].entries, EntriesOf(files[i + 1..]), k, s);
  }

  lemma HeadDecides(E: set<Entry>, es: seq<Entry>, B: set<Entry>, k: UserKey, s: SeqNum)
    requires Distinct(E) && Sorted(es) && Elems(es) + B <= E && AllNewer(Elems(es), B)
    requires forall d :: Visible(E, k, s, d) ==> Visible(Elems(es) + B, k, s, d)
    ensures var saved := Save(es, k, s);
            if saved == NotFound then
              forall d :: Visible(E, k, s, d) ==> Visible(B, k, s, d)
            else
              && (exists d :: Visible(E, k, s, d))
              && Read(E, k, s) == Outcome(saved)
  {
    var A := Elems(es);
    ProbeDecides(es, k, s);
    ReadSplit(A, B, k, s);
    ReadAgrees(E, A + B, k, s);
    if Save(es, k, s) == NotFound {
      forall d | Visible(E, k, s, d) ensures Visible(B, k, s, d) {
        assert !Visible(A, k, s, d);
      }
    } else {
      var d :| Visible(A, k, s, d);
      assert Visible(E, k, s, d);
    }
  }

  /** Searches level 0: the files whose range holds the key, newest first. */
  method SearchLevelZero(files: Level, k: UserKey, s: SeqNum) returns (saved: Saved)
    requires FilesOk(files) && NewerByNumber(files) && DistinctNumbers(files) && Distinct(EntriesOf(files))
    ensures saved == NotFound <==> forall d :: !Visible(EntriesOf(files), k, s, d)
    ensures Read(EntriesOf(files), k, s) == Outcome(saved)
  {
    var tmp: Level := [];
    for i := 0 to |files|
      invariant forall f :: f in tmp <==> f in files[..i] && Holds(f, k)
      invariant forall a, b :: 0 <= a < b < |tmp| ==> tmp[a].number != tmp[b].number
    {
      assert files[..i + 1] == files[..i] + [files[i]];
      if files[i].smallest.key <= k && files[i].largest.key >= k {
        forall a | 0 <= a < |tmp| ensures tmp[a].number != files[i].number {
          assert tmp[a] in files[..i];
          var n :| 0 <= n < i && files[n] == tmp[a];
        }
        tmp := tmp + [files[i]];
      }
    }
    assert files[..|files|] == files;
    var order := SortNewestFirst(tmp);
    assert EntriesOf(order) <= EntriesOf(files);
    forall x ensures Visible(EntriesOf(files), k, s, x) <==> Visible(EntriesOf(order), k, s, x) {
      if Visible(EntriesOf(files), k, s, x) {
        var f :| f in files && x in f.entries;
        EntryInRange(f, x);
        assert f in order;
      }
    }
    saved := ProbeInOrder(order, k, s);
    ReadAgrees(EntriesOf(files), EntriesOf(order), k, s);
  }

  /** Searches one level above zero. */
  method SearchDeepLevel(files: Level, k: UserKey, s: SeqNum) returns (saved: Saved)
    requires FilesOk(files) && Disjoint(files) && Distinct(EntriesOf(files))
    ensures saved == NotFound <==> forall d :: !Visible(EntriesOf(files), k, s, d)
    ensures Read(EntriesOf(files), k, s) == Outcome(saved)
  {
    var index := FindFile(files, SeekKey(k, s));
    OneFileDecides(files, index, k, s);
    ReadCases(EntriesOf(files), k, s);
    if index >= |files| {
      saved := NotFound;
    } else if k < files[index].smallest.key {
      saved := NotFound;
    } else {
      saved := Save(files[index].entries, k, s);
    }
  }

  /** Version::Get: level by level, stopping at the first level that knows the key, returns the
      newest visible entry among all entries of the version. */
  method VersionGet(v: Version, k: UserKey, s: SeqNum) returns (value: Option<string>)
    requires VersionOk(v)
    ensures value == Read(Contents(v), k, s)
  {
    var level := 0;
    while level < NUM_LEVELS
      invariant level <= NUM_LEVELS
      invariant Read(Contents(v), k, s) == Read(EntriesFrom(v, level), k, s)
    {
      assert EntriesOf(v[level]) <= Contents(v);
      var saved;
      if level == 0 {
        LevelZeroNumbers(v);
        saved := SearchLevelZero(v[0], k, s);
      } else {
        saved := SearchDeepLevel(v[level], k, s);
      }
      EntriesFromStep(v, level);
      DeeperIsOlder(v, level);
      assert EntriesFrom(v, level) <= Contents(v);
      ReadSplit(EntriesOf(v[level]), EntriesFrom(v, level + 1), k, s);
      if saved != NotFound {
        return Outcome(saved);
      }
      level := level + 1;
    }
    assert EntriesFrom(v, level) == {};
    ReadCases(EntriesFrom(v, level), k, s);
    value := None;
  }

  /** DBImpl::Get: memtable, then immutable memtable, then the current version.  The three parts
      together are read as one multi-version map. */
  method Get(mem: seq<Entry>, imm: Option<seq<Entry>>, v: Version, k: UserKey, s: SeqNum)
    returns (value: Option<string>)
    requires Sorted(mem) && (imm.Some? ==> Sorted(imm.value)) && VersionOk(v)
    requires var im := if imm.Some? then Elems(imm.value) else {};
             && Distinct(Elems(mem) + (im + Contents(v)))
             && AllNewer(Elems(mem), im + Contents(v))
             && AllNewer(im, Contents(v))
    ensures var im := if imm.Some? then Elems(imm.value) else {};
            value == Read(Elems(mem) + (im + Contents(v)), k, s)
  {
    ghost var im := if imm.Some? then Elems(imm.value) else {};
    ProbeDecides(mem, k, s);
    ReadSplit(Elems(mem), im + Contents(v), k, s);
    var saved := Save(mem, k, s);
    if saved != NotFound {
      return Outcome(saved);
    }
    ReadSplit(im, Contents(v), k, s);
    if imm.Some? {
      ProbeDecides(imm.value, k, s);
      saved := Save(imm.value, k, s);
      if saved != NotFound {
        return Outcome(saved);
      }
    }
    value := VersionGet(v, k, s);
  }
}
