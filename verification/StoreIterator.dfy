/** Iterating over the whole store. */
module StoreIterators {
  // What the store's iterator is assembled from, and that it shows exactly what point reads return.

  import opened Keys
  import opened Versions
  import opened Lookup
  import opened Cursors
  import opened TwoLevel
  import opened Merger
  import opened DbIter
  import MemTables

  // ---------------------------------------------------------------- runs without common keys

  ghost predicate Apart(A: set<Entry>, B: set<Entry>) {
    forall a, b :: a in A && b in B ==> a.Internal() != b.Internal()
  }

  lemma NewerApart(A: set<Entry>, B: set<Entry>)
    requires AllNewer(A, B)
    ensures Apart(A, B) && Apart(B, A)
  {
  }

  ghost predicate Held(parts: seq<seq<Entry>>, e: Entry) {
    exists i :: 0 <= i < |parts| && e in parts[i]
  }

  /** Sorted runs, no two of them with a key in common, that hold these entries together. */
  ghost predicate Runs(parts: seq<seq<Entry>>, E: set<Entry>) {
    && (forall i :: 0 <= i < |parts| ==> Sorted(parts[i]))
    && (forall i, j :: 0 <= i < j < |parts| ==> Apart(Elems(parts[i]), Elems(parts[j])))
    && (forall e :: e in E <==> Held(parts, e))
  }

  lemma NoRuns()
    ensures Runs([], {})
  {
  }

  /** The runs of two lots, if these share no key. */
  lemma AllRuns(parts: seq<seq<Entry>>, E: set<Entry>, more: seq<seq<Entry>>, F: set<Entry>)
    requires Runs(parts, E) && Runs(more, F) && Apart(E, F)
    ensures Runs(parts + more, E + F)
  {
    hide Sorted, Apart;
    var all, n := parts + more, |parts|;
    forall e ensures e in E + F <==> Held(all, e) {
      HeldByOne(parts, more, e);
    }
    forall i, j | 0 <= i < j < |all| ensures Apart(Elems(all[i]), Elems(all[j])) {
      if i < n <= j {
        InThere(parts, E, i);
        InThere(more, F, j - n);
        PartsApart(E, F, Elems(all[i]), Elems(all[j]));
      }
    }
  }

  lemma HeldByOne(parts: seq<seq<Entry>>, more: seq<seq<Entry>>, e: Entry)
    ensures Held(parts + more, e) <==> Held(parts, e) || Held(more, e)
  {
    var all, n := parts + more, |parts|;
    if Held(parts, e) {
      var i :| 0 <= i < n && e in parts[i];
      assert e in all[i];
    }
    if Held(more, e) {
      var i :| 0 <= i < |more| && e in more[i];
      assert e in all[n + i];
    }
    if Held(all, e) {
      var i :| 0 <= i < |all| && e in all[i];
      assert e in if i < n then parts[i] else more[i - n];
    }
  }

  lemma PartsApart(E: set<Entry>, F: set<Entry>, A: set<Entry>, B: set<Entry>)
    requires Apart(E, F) && A <= E && B <= F
    ensures Apart(A, B)
  {
  }

  lemma OneRun(run: seq<Entry>)
    requires Sorted(run)
    ensures Runs([run], Elems(run))
  {
    forall e ensures e in Elems(run) <==> Held([run], e) {
      assert [run][0] == run;
    }
  }

  /** One more run that shares no key with those before it. */
  lemma OneMoreRun(parts: seq<seq<Entry>>, E: set<Entry>, run: seq<Entry>)
    requires Runs(parts, E) && Sorted(run) && Apart(E, Elems(run))
    ensures Runs(parts + [run], E + Elems(run))
  {
    OneRun(run);
    hide Runs, Sorted, Apart;
    AllRuns(parts, E, [run], Elems(run));
  }

  lemma InThere(parts: seq<seq<Entry>>, E: set<Entry>, i: nat)
    requires Runs(parts, E) && i < |parts|
    ensures Elems(parts[i]) <= E
  {
    forall e | e in Elems(parts[i]) ensures e in E {
      assert Held(parts, e);
    }
  }

  // ---------------------------------------------------------------- the runs of a version

  function Blocks(files: Level): seq<seq<Entry>> {
    seq(|files|, i requires 0 <= i < |files| => files[i].entries)
  }

  lemma {:induction false} FlatHas(blocks: seq<seq<Entry>>)
    ensures forall e :: e in Flat(blocks) <==> Held(blocks, e)
  {
    if blocks != [] {
      var n := |blocks| - 1;
      FlatHas(blocks[..n]);
      forall e ensures e in Flat(blocks) <==> Held(blocks, e) {
        if Held(blocks[..n], e) {
          var i :| 0 <= i < n && e in blocks[..n][i];
          assert e in blocks[i];
        }
        if Held(blocks, e) {
          var i :| 0 <= i < |blocks| && e in blocks[i];
          assert i < n ==> e in blocks[..n][i];
        }
      }
    }
  }

  /** A level above zero is one run. */
  lemma LevelRun(files: Level)
    requires FilesOk(files) && Disjoint(files)
    ensures Sorted(Flat(Blocks(files))) && Elems(Flat(Blocks(files))) == EntriesOf(files)
  {
    LevelIndex(files);
    FlatHas(Blocks(files));
    hide FilesOk, Disjoint, Sorted, Flat;
    var blocks := Blocks(files);
    forall e ensures e in Elems(Flat(blocks)) <==> e in EntriesOf(files) {
      if Held(blocks, e) {
        var i :| 0 <= i < |blocks| && e in blocks[i];
        assert files[i] in files && e in files[i].entries;
      }
      if e in EntriesOf(files) {
        var f :| f in files && e in f.entries;
        var i :| 0 <= i < |files| && files[i] == f;
        assert e in blocks[i];
      }
    }
  }

  /** The table iterators of level 0: one for each file. */
  method LevelZero(files: Level) returns (parts: seq<seq<Entry>>)
    requires FilesOk(files) && NewerByNumber(files)
    requires forall i, j :: 0 <= i < j < |files| ==> files[i].number != files[j].number
    ensures Runs(parts, EntriesOf(files))
  {
    hide Runs;
    parts := [];
    NoRuns();
    assert EntriesOf(files[..0]) == {};
    for i := 0 to |files|
      invariant Runs(parts, EntriesOf(files[..i]))
    {
      OneMoreFile(files, i);
      OneMoreRun(parts, EntriesOf(files[..i]), files[i].entries);
      parts := parts + [files[i].entries];
    }
    assert files[..|files|] == files;
  }

  lemma OneMoreFile(files: Level, i: nat)
    requires FilesOk(files) && NewerByNumber(files) && i < |files|
    requires forall a, b :: 0 <= a < b < |files| ==> files[a].number != files[b].number
    ensures EntriesOf(files[..i + 1]) == EntriesOf(files[..i]) + Elems(files[i].entries)
    ensures Apart(EntriesOf(files[..i]), Elems(files[i].entries)) && Sorted(files[i].entries)
  {
    var f := files[i];
    assert files[..i + 1] == files[..i] + [f] && f in files && FileOk(f);
    forall a, b | a in EntriesOf(files[..i]) && b in Elems(f.entries) ensures a.Internal() != b.Internal() {
      var g :| g in files[..i] && a in g.entries;
      assert g in files && a in Elems(g.entries);
      if f.number > g.number {
        NewerApart(Elems(f.entries), Elems(g.entries));
      } else {
        NewerApart(Elems(g.entries), Elems(f.entries));
      }
    }
  }

  /** The entries of the levels above `l`. */
  ghost function Above(v: Version, l: nat): set<Entry>
    requires l <= NUM_LEVELS
  {
    set m, f, e | 0 <= m < l && f in v[m] && e in f.entries :: e
  }

  lemma OneMoreLevel(v: Version, l: nat)
    requires VersionOk(v) && 1 <= l < NUM_LEVELS
    ensures FilesOk(v[l]) && Disjoint(v[l])
    ensures Above(v, l + 1) == Above(v, l) + EntriesOf(v[l]) && Apart(Above(v, l), EntriesOf(v[l]))
  {
    forall a, b | a in Above(v, l) && b in EntriesOf(v[l]) ensures a.Internal() != b.Internal() {
      var m, f :| 0 <= m < l && f in v[m] && a in f.entries;
      assert a in EntriesOf(v[m]);
      NewerApart(EntriesOf(v[m]), EntriesOf(v[l]));
    }
  }

  lemma VersionParts(v: Version)
    requires VersionOk(v)
    ensures FilesOk(v[0]) && NewerByNumber(v[0]) && Above(v, 1) == EntriesOf(v[0])
    ensures Above(v, NUM_LEVELS) == Contents(v)
  {
  }

  /** Version::AddIterators: the files of level 0, and for each deeper level that has files one run over all
      of them. */
  method AddIterators(v: Version) returns (parts: seq<seq<Entry>>)
    requires VersionOk(v)
    ensures Runs(parts, Contents(v))
  {
    LevelZeroNumbers(v);
    VersionParts(v);
    hide VersionOk, Runs, FilesOk, Disjoint, Flat, NewerByNumber;
    parts := LevelZero(v[0]);
    for l := 1 to NUM_LEVELS
      invariant Runs(parts, Above(v, l))
    {
      OneMoreLevel(v, l);
      if v[l] != [] {
        LevelRun(v[l]);
        OneMoreRun(parts, Above(v, l), Flat(Blocks(v[l])));
        parts := parts + [Flat(Blocks(v[l]))];
      } else {
        assert EntriesOf(v[l]) == {} && Above(v, l) + {} == Above(v, l);
      }
    }
  }

  // ---------------------------------------------------------------- the merged run

  /** Every finite set of entries in which a sequence number names one entry can be put in order. */
  lemma {:induction false} InOrder(E: set<Entry>) returns (all: seq<Entry>)
    requires Distinct(E)
    ensures Sorted(all) && Elems(all) == E
    decreases E
  {
    if E == {} {
      all := [];
    } else {
      var e :| e in E;
      var rest := InOrder(E - {e});
      forall d | d in rest ensures d.Internal() != e.Internal() {
        assert d in Elems(rest);
      }
      var i := FirstAtOrAfter(rest, e.Internal());
      MemTables.InsertedSorted(rest, e, i);
      all := rest[..i] + [e] + rest[i..];
      assert Elems(rest) + {e} == E;
    }
  }

  ghost function Owner(parts: seq<seq<Entry>>, e: Entry): (i: nat)
    requires Held(parts, e)
    ensures i < |parts| && e in parts[i]
  {
    var i :| 0 <= i < |parts| && e in parts[i];
    i
  }

  /** The plan of the merge of runs without common keys. */
  lemma PlanOf(parts: seq<seq<Entry>>, E: set<Entry>) returns (plan: Plan)
    requires Runs(parts, E) && Distinct(E)
    ensures Sorted(plan.all) && Elems(plan.all) == E && |plan.owner| == |plan.all|
    ensures forall i :: 0 <= i < |parts| ==> PartOf(parts[i], plan.all)
    ensures forall p :: 0 <= p < |plan.all| ==>
              && plan.owner[p] < |parts| && plan.all[p] in parts[plan.owner[p]]
              && forall i :: 0 <= i < |parts| && i != plan.owner[p] ==> Clear(parts[i], plan.all[p])
  {
    var all := InOrder(E);
    hide Sorted, Distinct;
    forall p | 0 <= p < |all| ensures Held(parts, all[p]) {
      assert all[p] in Elems(all);
    }
    plan := Plan(all, seq(|all|, p requires 0 <= p < |all| => Owner(parts, all[p])));
    forall i | 0 <= i < |parts| ensures PartOf(parts[i], all) {
      InThere(parts, E, i);
    }
    forall p, i | 0 <= p < |all| && 0 <= i < |parts| && i != plan.owner[p] ensures Clear(parts[i], all[p]) {
      OnlyThere(parts, E, plan.owner[p], i, all[p]);
    }
  }

  lemma OnlyThere(parts: seq<seq<Entry>>, E: set<Entry>, o: nat, i: nat, e: Entry)
    requires Runs(parts, E) && o < |parts| && i < |parts| && i != o && e in parts[o]
    ensures Clear(parts[i], e)
  {
    assert if i < o then Apart(Elems(parts[i]), Elems(parts[o])) else Apart(Elems(parts[o]), Elems(parts[i]));
    assert e in Elems(parts[o]);
    forall d | d in parts[i] ensures d.Internal() != e.Internal() {
      assert d in Elems(parts[i]);
    }
  }

  /** One cursor for each run. */
  method MakeCursors(parts: seq<seq<Entry>>) returns (children: seq<Cursor>)
    ensures |children| == |parts| && Separate(children)
    ensures forall i :: 0 <= i < |parts| ==> fresh(children[i]) && children[i].items == parts[i]
  {
    children := [];
    while |children| < |parts|
      invariant |children| <= |parts| && Separate(children)
      invariant forall i :: 0 <= i < |children| ==> fresh(children[i]) && children[i].items == parts[i]
    {
      var c := new Cursor(parts[|children|]);
      children := children + [c];
    }
  }

  // ---------------------------------------------------------------- the iterators

  ghost function Imm(imm: Option<seq<Entry>>): set<Entry> {
    if imm.Some? then Elems(imm.value) else {}
  }

  /** What a reader finds in memory and in the version. */
  ghost function Everything(mem: seq<Entry>, imm: Option<seq<Entry>>, v: Version): set<Entry> {
    Elems(mem) + (Imm(imm) + Contents(v))
  }

  /** The memtable is newer than the immutable one, and that is newer than the version. */
  ghost predicate Stacked(mem: seq<Entry>, imm: Option<seq<Entry>>, v: Version) {
    && Sorted(mem) && (imm.Some? ==> Sorted(imm.value)) && VersionOk(v)
    && Distinct(Everything(mem, imm, v))
    && AllNewer(Elems(mem), Imm(imm) + Contents(v)) && AllNewer(Imm(imm), Contents(v))
  }

  lemma StackApart(mem: seq<Entry>, imm: Option<seq<Entry>>, v: Version)
    requires Stacked(mem, imm, v)
    ensures Sorted(mem) && (imm.Some? ==> Sorted(imm.value)) && VersionOk(v)
    ensures Apart(Elems(mem), Imm(imm)) && Apart(Elems(mem) + Imm(imm), Contents(v))
    ensures Distinct(Everything(mem, imm, v))
  {
    NewerApart(Elems(mem), Imm(imm) + Contents(v));
    NewerApart(Imm(imm), Contents(v));
  }

  /** DBImpl::NewInternalIterator: the merge of the memtables and the version. */
  method NewInternalIterator(mem: seq<Entry>, imm: Option<seq<Entry>>, v: Version) returns (it: MergingIterator)
    requires Stacked(mem, imm, v)
    ensures fresh(it) && fresh(it.children) && it.Valid()
    ensures Sorted(it.plan.all) && Elems(it.plan.all) == Everything(mem, imm, v)
  {
    StackApart(mem, imm, v);
    hide Stacked, VersionOk, Runs, Sorted, Distinct, Apart;
    OneRun(mem);
    var parts := [mem];
    ghost var E := Elems(mem);
    if imm.Some? {
      OneMoreRun(parts, E, imm.value);
      parts := parts + [imm.value];
    } else {
      assert E + Imm(imm) == E;
    }
    E := E + Imm(imm);
    var files := AddIterators(v);
    AllRuns(parts, E, files, Contents(v));
    assert E + Contents(v) == Everything(mem, imm, v);
    it := Merge(parts + files, Everything(mem, imm, v));
  }

  method Merge(parts: seq<seq<Entry>>, ghost E: set<Entry>) returns (it: MergingIterator)
    requires Runs(parts, E) && Distinct(E)
    ensures fresh(it) && fresh(it.children) && it.Valid() && Sorted(it.plan.all) && Elems(it.plan.all) == E
  {
    ghost var plan := PlanOf(parts, E);
    hide Runs, Distinct, Sorted, PartOf, Clear;
    var children := MakeCursors(parts);
    assert Layout(children, plan);
    it := new MergingIterator(children, plan);
  }

  /** The pairs of a map, as a snapshot reads it, by increasing key. */
  ghost predicate ShowsReads(shown: seq<(UserKey, string)>, E: set<Entry>, s: SeqNum) {
    && (forall k, v :: (k, v) in shown <==> Read(E, k, s) == Some(v))
    && forall i, j :: 0 <= i < j < |shown| ==> shown[i].0 < shown[j].0
  }

  /** DBImpl::NewIterator: what it shows, in whatever way it is moved, is what point reads at its snapshot
      return. */
  method NewIterator(mem: seq<Entry>, imm: Option<seq<Entry>>, v: Version, s: SeqNum) returns (it: DBIter)
    requires Stacked(mem, imm, v)
    ensures fresh(it) && it.Valid() && !it.valid && ShowsReads(it.Shown(), Everything(mem, imm, v), s)
  {
    var merged := NewInternalIterator(mem, imm, v);
    it := new DBIter(merged, s);
    StackApart(mem, imm, v);
    ViewShowsReads(merged.plan.all, Everything(mem, imm, v), s);
  }

  lemma ViewShowsReads(all: seq<Entry>, E: set<Entry>, s: SeqNum)
    requires Sorted(all) && Distinct(E) && Elems(all) == E
    ensures ShowsReads(View(all, s, |all|), E, s)
  {
    hide View, Read;
    forall k, v ensures (k, v) in View(all, s, |all|) <==> Read(E, k, s) == Some(v) {
      ViewIsRead(all, s, k, v);
    }
    ViewSorted(all, s, |all|);
  }
}
