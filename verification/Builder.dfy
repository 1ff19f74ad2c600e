/** Applying edits to a version. */
module Builders {
  import opened Keys
  import opened Versions

  /** The part of a VersionEdit that changes files: deletions by level and number, additions. */
  datatype Edit = Edit(deleted: set<(nat, nat)>, added: seq<(nat, File)>)

  ghost predicate EditOk(e: Edit) {
    && (forall d :: d in e.deleted ==> d.0 < NUM_LEVELS)
    && (forall a :: a in e.added ==> a.0 < NUM_LEVELS)
  }

  /** `v2` is `v` after the edit: in every level the files that were there and are not deleted, and
      the added ones, sorted. */
  ghost predicate EditedTo(v: Version, e: Edit, v2: Version) {
    forall l :: 0 <= l < NUM_LEVELS ==> EditedLevel(v[l], e, l, v2[l])
  }

  ghost predicate EditedLevel(files: Level, e: Edit, l: nat, files2: Level) {
    && SortedLevel(files2)
    && forall f :: f in files2 <==> (f in files && (l, f.number) !in e.deleted) || (l, f) in e.added
  }

  // ---------------------------------------------------------------- sorted levels

  /** A sorted level is determined by its members. */
  lemma {:induction false} SortedUnique(a: Level, b: Level)
    requires SortedLevel(a) && SortedLevel(b)
    requires forall f :: f in a <==> f in b
    ensures a == b
  {
    assert b != [] ==> b[0] in a;
    if a != [] {
      assert a[0] in b;
      assert b != [] && b[0] in a;
      HeadLeast(a, b[0]);
      HeadLeast(b, a[0]);
      assert a[0] == b[0];
      var p, q := a[1..], b[1..];
      assert a == [a[0]] + p && b == [b[0]] + q;
      NotTwice(a);
      NotTwice(b);
      forall f ensures f in p <==> f in q {
        assert f in a <==> f == a[0] || f in p;
        assert f in b <==> f == b[0] || f in q;
      }
      SortedUnique(p, q);
    }
  }

  lemma HeadLeast(a: Level, f: File)
    requires SortedLevel(a) && f in a
    ensures f == a[0] || BySmallest(a[0], f)
  {
  }

  lemma NotTwice(a: Level)
    requires SortedLevel(a) && a != []
    ensures a[0] !in a[1..]
  {
    forall i | 0 <= i < |a[1..]| ensures a[1..][i] != a[0] {
      assert BySmallest(a[0], a[i + 1]);
    }
  }

  /** Files with different numbers are comparable. */
  lemma Comparable(f: File, g: File)
    requires f.number != g.number
    ensures BySmallest(f, g) || BySmallest(g, f)
  {
  }

  /** The ordered set of added files: a file that compares equal to a member is not inserted. */
  method InsertAdded(added: Level, f: File) returns (r: Level)
    requires SortedLevel(added)
    ensures SortedLevel(r)
    ensures forall g :: g in added ==> g in r
    ensures forall g :: g in r ==> g in added || g == f
    ensures (forall g :: g in added ==> g.number != f.number) ==> f in r
  {
    var i := 0;
    while i < |added| && BySmallest(added[i], f)
      invariant i <= |added|
      invariant forall j :: 0 <= j < i ==> BySmallest(added[j], f)
    {
      i := i + 1;
    }
    if i < |added| && !BySmallest(f, added[i]) {
      r := added;
      if forall g :: g in added ==> g.number != f.number {
        Comparable(f, added[i]);
      }
    } else {
      r := added[..i] + [f] + added[i..];
      InsertedSorted(added, f, i);
    }
  }

  lemma InsertedSorted(added: Level, f: File, i: nat)
    requires SortedLevel(added) && i <= |added|
    requires forall j :: 0 <= j < i ==> BySmallest(added[j], f)
    requires i < |added| ==> BySmallest(f, added[i])
    ensures var r := added[..i] + [f] + added[i..];
            SortedLevel(r) && forall g :: g in r <==> g in added || g == f
  {
    var r := added[..i] + [f] + added[i..];
    assert added == added[..i] + added[i..];
    forall j | i <= j < |added| ensures BySmallest(f, added[j]) {
      assert i < j ==> BySmallest(added[i], added[j]);
    }
    forall p, q | 0 <= p < q < |r| ensures BySmallest(r[p], r[q]) {
      assert r[p] == if p < i then added[p] else if p == i then f else added[p - 1];
      assert r[q] == if q < i then added[q] else if q == i then f else added[q - 1];
    }
  }

  /** One level of SaveTo: merges the base files with the added ones, skipping deleted numbers. */
  method SaveLevel(base: Level, added: Level, deleted: set<nat>) returns (files: Level)
    requires SortedLevel(base) && SortedLevel(added)
    requires forall b, a :: b in base && a in added ==> b.number != a.number
    ensures SortedLevel(files)
    ensures forall f :: f in files <==> (f in base || f in added) && f.number !in deleted
  {
    files := [];
    var i, j := 0, 0;
    while j < |added|
      invariant Merged(base, added, deleted, i, j, files)
    {
      while i < |base| && !BySmallest(added[j], base[i])
        invariant Merged(base, added, deleted, i, j, files)
      {
        assert base[i] in base && added[j] in added;
        Comparable(base[i], added[j]);
        MergeBase(base, added, deleted, i, j, files);
        if base[i].number !in deleted {
          files := files + [base[i]];
        }
        i := i + 1;
      }
      MergeAdded(base, added, deleted, i, j, files);
      if added[j].number !in deleted {
        files := files + [added[j]];
      }
      j := j + 1;
    }
    while i < |base|
      invariant Merged(base, added, deleted, i, j, files) && j == |added|
    {
      MergeBase(base, added, deleted, i, j, files);
      if base[i].number !in deleted {
        files := files + [base[i]];
      }
      i := i + 1;
    }
    assert base[..|base|] == base && added[..|added|] == added;
  }

  /** The first `i` base files and the first `j` added files are merged into `files`; everything left
      comes after them. */
  ghost predicate Merged(base: Level, added: Level, deleted: set<nat>, i: nat, j: nat, files: Level) {
    && i <= |base| && j <= |added|
    && SortedLevel(files)
    && (forall f :: f in files <==> (f in base[..i] || f in added[..j]) && f.number !in deleted)
    && (forall f, n :: f in files && i <= n < |base| ==> BySmallest(f, base[n]))
    && (forall f, n :: f in files && j <= n < |added| ==> BySmallest(f, added[n]))
  }

  lemma MergeBase(base: Level, added: Level, deleted: set<nat>, i: nat, j: nat, files: Level)
    requires SortedLevel(base) && SortedLevel(added) && Merged(base, added, deleted, i, j, files) && i < |base|
    requires forall n :: j <= n < |added| ==> BySmallest(base[i], added[n])
    ensures Merged(base, added, deleted, i + 1, j, if base[i].number in deleted then files else files + [base[i]])
  {
    assert base[..i + 1] == base[..i] + [base[i]];
  }

  lemma MergeAdded(base: Level, added: Level, deleted: set<nat>, i: nat, j: nat, files: Level)
    requires SortedLevel(base) && SortedLevel(added) && Merged(base, added, deleted, i, j, files) && j < |added|
    requires i < |base| ==> BySmallest(added[j], base[i])
    ensures Merged(base, added, deleted, i, j + 1, if added[j].number in deleted then files else files + [added[j]])
  {
    assert added[..j + 1] == added[..j] + [added[j]];
    forall n | i <= n < |base| ensures BySmallest(added[j], base[n]) {
      assert i < n ==> BySmallest(base[i], base[n]);
    }
  }

  // ---------------------------------------------------------------- the builder

  ghost function DeletedAt(e: Edit, l: nat): set<nat> {
    set d | d in e.deleted && d.0 == l :: d.1
  }

  ghost function NumbersAt(e: Edit, l: nat): set<nat> {
    set a | a in e.added && a.0 == l :: a.1.number
  }

  /** What the builder has collected for a level after the edits: which files it added and which
      numbers it will skip. */
  ghost predicate Collected(edits: seq<Edit>, l: nat, added: Level, deleted: set<nat>) {
    && HoldsAdded(edits, l, added)
    && deleted == SkippedAt(edits, l)
  }

  ghost function SkippedAt(edits: seq<Edit>, l: nat): set<nat> {
    if edits == [] then {}
    else
      var e := edits[|edits| - 1];
      (SkippedAt(edits[..|edits| - 1], l) + DeletedAt(e, l)) - NumbersAt(e, l)
  }

  /** No file is added with a number that some file already had on that level. */
  ghost predicate NeverReadded(base: Version, edits: seq<Edit>) {
    forall i | 0 <= i < |edits| :: EditOk(edits[i]) && AddsNew(base, edits, i)
  }

  ghost predicate AddsNew(base: Version, edits: seq<Edit>, i: nat)
    requires i < |edits|
  {
    var e := edits[i];
    && (forall a, b :: 0 <= a < b < |e.added| && e.added[a].0 == e.added[b].0 ==>
          e.added[a].1.number != e.added[b].1.number)
    && forall a, f :: a in e.added && a.0 < NUM_LEVELS
                      && (f in base[a.0] || exists j :: 0 <= j < i && (a.0, f) in edits[j].added) ==>
                        f.number != a.1.number
  }

  ghost predicate HoldsAdded(edits: seq<Edit>, l: nat, files: Level) {
    && SortedLevel(files)
    && forall f :: f in files <==> exists i :: 0 <= i < |edits| && (l, f) in edits[i].added
  }

  /** `files2` is `files` with the additions for level `l`. */
  ghost predicate GrownBy(files: Level, added: seq<(nat, File)>, l: nat, files2: Level) {
    && SortedLevel(files2)
    && forall f :: f in files2 <==> f in files || (l, f) in added
  }

  class Builder {
    const base: Version
    var deleted: seq<set<nat>>
    var added: seq<Level>
    ghost var edits: seq<Edit>

    ghost predicate Valid()
      reads this
    {
      && |deleted| == NUM_LEVELS && |added| == NUM_LEVELS
      && NeverReadded(base, edits)
      && forall l :: 0 <= l < NUM_LEVELS ==> Collected(edits, l, added[l], deleted[l])
    }

    constructor (base: Version)
      ensures Valid() && this.base == base && edits == []
    {
      this.base := base;
      deleted := seq(NUM_LEVELS, i => {});
      added := seq(NUM_LEVELS, i => []);
      edits := [];
    }

    method MarkDeleted(e: Edit)
      requires |deleted| == NUM_LEVELS
      modifies this`deleted
      ensures |deleted| == NUM_LEVELS
      ensures forall l :: 0 <= l < NUM_LEVELS ==> deleted[l] == old(deleted)[l] + DeletedAt(e, l)
    {
      var l := 0;
      while l < NUM_LEVELS
        invariant l <= NUM_LEVELS && |deleted| == NUM_LEVELS
        invariant forall m :: 0 <= m < NUM_LEVELS ==>
                    deleted[m] == if m < l then old(deleted)[m] + DeletedAt(e, m) else old(deleted)[m]
      {
        deleted := deleted[l := deleted[l] + set d | d in e.deleted && d.0 == l :: d.1];
        l := l + 1;
      }
    }

    method AddFiles(e: Edit)
      requires |deleted| == NUM_LEVELS && |added| == NUM_LEVELS && EditOk(e) && NeverReadded(base, edits + [e])
      requires forall l :: 0 <= l < NUM_LEVELS ==> HoldsAdded(edits, l, added[l])
      modifies this`deleted, this`added
      ensures |deleted| == NUM_LEVELS && |added| == NUM_LEVELS
      ensures forall l :: 0 <= l < NUM_LEVELS ==> deleted[l] == old(deleted)[l] - NumbersAt(e, l)
      ensures forall l :: 0 <= l < NUM_LEVELS ==> GrownBy(old(added)[l], e.added, l, added[l])
    {
      var i := 0;
      while i < |e.added|
        invariant i <= |e.added| && |deleted| == NUM_LEVELS && |added| == NUM_LEVELS
        invariant forall m :: 0 <= m < NUM_LEVELS ==>
                    deleted[m] == old(deleted)[m] - NumbersAt(Edit({}, e.added[..i]), m)
        invariant forall m :: 0 <= m < NUM_LEVELS ==> GrownBy(old(added)[m], e.added[..i], m, added[m])
      {
        var a := e.added[i];
        assert a in e.added && e.added[..i + 1] == e.added[..i] + [a];
        forall g | g in added[a.0] ensures g.number != a.1.number {
          assert HoldsAdded(edits, a.0, old(added)[a.0]);
          NewNumber(base, edits, e, i, added[a.0], g);
        }
        var r := InsertAdded(added[a.0], a.1);
        deleted := deleted[a.0 := deleted[a.0] - {a.1.number}];
        added := added[a.0 := r];
        i := i + 1;
      }
      assert e.added[..|e.added|] == e.added;
    }

    /** Applies one more edit. */
    method Apply(e: Edit)
      requires Valid() && NeverReadded(base, edits + [e])
      modifies this
      ensures Valid() && edits == old(edits) + [e]
    {
      assert e == (edits + [e])[|edits|] && EditOk(e);
      MarkDeleted(e);
      AddFiles(e);
      forall l | 0 <= l < NUM_LEVELS ensures Collected(edits + [e], l, added[l], deleted[l]) {
        CollectedStep(edits, e, l, old(added)[l], old(deleted)[l], added[l], deleted[l]);
      }
      edits := edits + [e];
    }

    /** SaveTo: the version that all applied edits make of the base. */
    method SaveTo() returns (v: Version)
      requires Valid() && forall l :: 0 <= l < NUM_LEVELS ==> SortedLevel(base[l])
      ensures forall l :: 0 <= l < NUM_LEVELS ==>
                && SortedLevel(v[l])
                && forall f :: f in v[l] <==> InResult(base, edits, l, f)
    {
      var r: seq<Level> := [];
      var l := 0;
      while l < NUM_LEVELS
        invariant l <= NUM_LEVELS && |r| == l
        invariant forall m :: 0 <= m < l ==>
                    && SortedLevel(r[m])
                    && forall f :: f in r[m] <==> InResult(base, edits, m, f)
      {
        assert Collected(edits, l, added[l], deleted[l]);
        forall b, a | b in base[l] && a in added[l] ensures b.number != a.number {
          AddedIsNew(base, edits, l, b, a);
        }
        var files := SaveLevel(base[l], added[l], deleted[l]);
        r := r + [files];
        l := l + 1;
      }
      v := r;
    }
  }

  /** A file of the base or added by some edit, whose number is not skipped. */
  ghost predicate InResult(base: Version, edits: seq<Edit>, l: nat, f: File)
    requires l < NUM_LEVELS
  {
    && (f in base[l] || exists i :: 0 <= i < |edits| && (l, f) in edits[i].added)
    && f.number !in SkippedAt(edits, l)
  }

  lemma AddedIsNew(base: Version, edits: seq<Edit>, l: nat, b: File, a: File)
    requires NeverReadded(base, edits) && l < NUM_LEVELS && b in base[l]
    requires exists i :: 0 <= i < |edits| && (l, a) in edits[i].added
    ensures b.number != a.number
  {
    var i :| 0 <= i < |edits| && (l, a) in edits[i].added;
    assert AddsNew(base, edits, i);
  }

  lemma CollectedStep(edits: seq<Edit>, e: Edit, l: nat, added: Level,
                      deleted: set<nat>, added2: Level, deleted2: set<nat>)
    requires Collected(edits, l, added, deleted) && SortedLevel(added2)
    requires deleted2 == (deleted + DeletedAt(e, l)) - NumbersAt(e, l)
    requires forall f :: f in added2 <==> f in added || (l, f) in e.added
    ensures Collected(edits + [e], l, added2, deleted2)
  {
    var all := edits + [e];
    assert all[..|all| - 1] == edits;
    forall f ensures f in added2 <==> exists i :: 0 <= i < |all| && (l, f) in all[i].added {
      if f in added {
        var i :| 0 <= i < |edits| && (l, f) in edits[i].added;
        assert all[i] == edits[i];
      }
      if (l, f) in e.added {
        assert all[|edits|] == e;
      }
      if i :| 0 <= i < |all| && (l, f) in all[i].added {
        assert all[i] == if i < |edits| then edits[i] else e;
      }
    }
  }

  lemma NewNumber(base: Version, edits: seq<Edit>, e: Edit, i: nat, files: Level, g: File)
    requires NeverReadded(base, edits + [e]) && i < |e.added| && e.added[i].0 < NUM_LEVELS
    requires forall f :: f in files ==>
               (exists j :: 0 <= j < |edits| && (e.added[i].0, f) in edits[j].added)
                   || (e.added[i].0, f) in e.added[..i]
    requires g in files
    ensures g.number != e.added[i].1.number
  {
    var all := edits + [e];
    assert AddsNew(base, all, |edits|);
    assert all[|edits|] == e;
    var l := e.added[i].0;
    if (l, g) in e.added[..i] {
      var k :| 0 <= k < i && e.added[k] == (l, g);
    } else {
      var j :| 0 <= j < |edits| && (l, g) in edits[j].added;
      assert all[j] == edits[j];
      assert e.added[i] in e.added;
    }
  }

  // ---------------------------------------------------------------- one builder or many versions

  lemma ReaddedPrefix(base: Version, edits: seq<Edit>, n: nat)
    requires NeverReadded(base, edits) && n <= |edits|
    ensures NeverReadded(base, edits[..n])
  {
    forall i | 0 <= i < n ensures EditOk(edits[..n][i]) && AddsNew(base, edits[..n], i) {
      assert EditOk(edits[i]) && AddsNew(base, edits, i);
      assert forall j :: 0 <= j < n ==> edits[..n][j] == edits[j];
    }
  }

  /** The version the edits lead to, one edit at a time. */
  ghost predicate Successive(versions: seq<Version>, edits: seq<Edit>) {
    && |versions| == |edits| + 1
    && forall i :: 0 <= i < |edits| ==> EditedTo(versions[i], edits[i], versions[i + 1])
  }

  /** Membership after the edits, one at a time, is membership in the builder's result. */
  lemma {:induction false} ReplayMembers(versions: seq<Version>, edits: seq<Edit>, l: nat, f: File)
    requires Successive(versions, edits) && NeverReadded(versions[0], edits) && l < NUM_LEVELS
    ensures f in versions[|edits|][l] <==> InResult(versions[0], edits, l, f)
  {
    if edits != [] {
      var n := |edits| - 1;
      var before, e := edits[..n], edits[n];
      var vs := versions[..n + 1];
      assert Successive(vs, before) by {
        forall i | 0 <= i < n ensures EditedTo(vs[i], before[i], vs[i + 1]) {
          assert EditedTo(versions[i], edits[i], versions[i + 1]);
        }
      }
      ReaddedPrefix(versions[0], edits, n);
      ReplayMembers(vs, before, l, f);
      assert EditedTo(versions[n], edits[n], versions[n + 1]);
      assert EditedLevel(versions[n][l], e, l, versions[n + 1][l]);
      ReplayStep(versions[0], edits, l, f);
    }
  }

  /** How one more edit changes the builder's result. */
  lemma ReplayStep(base: Version, edits: seq<Edit>, l: nat, f: File)
    requires edits != [] && NeverReadded(base, edits) && l < NUM_LEVELS
    ensures var n := |edits| - 1;
            InResult(base, edits, l, f) <==>
            (InResult(base, edits[..n], l, f) && (l, f.number) !in edits[n].deleted) || (l, f) in edits[n].added
  {
    var n := |edits| - 1;
    var before, e := edits[..n], edits[n];
    assert AddsNew(base, edits, n);
    assert f.number in DeletedAt(e, l) <==> (l, f.number) in e.deleted by {
      if (l, f.number) in e.deleted {
        assert (l, f.number).1 in DeletedAt(e, l);
      }
    }
    var was := f in base[l] || exists i :: 0 <= i < n && (l, f) in before[i].added;
    assert was <==> f in base[l] || exists j :: 0 <= j < n && (l, f) in edits[j].added by {
      assert forall i :: 0 <= i < n ==> before[i] == edits[i];
    }
    assert (exists i :: 0 <= i < |edits| && (l, f) in edits[i].added)
        <==> (exists i :: 0 <= i < n && (l, f) in edits[i].added) || (l, f) in e.added;
    if (l, f) in e.added {
      assert (l, f).1.number in NumbersAt(e, l);
    }
  }

  /** Manifest recovery: one builder folded over all edits reaches the version that installing them
      one at a time reached. */
  method Replay(base: Version, edits: seq<Edit>, ghost versions: seq<Version>) returns (v: Version)
    requires Successive(versions, edits) && versions[0] == base
    requires forall l :: 0 <= l < NUM_LEVELS ==> SortedLevel(base[l])
    requires NeverReadded(base, edits)
    ensures v == versions[|edits|]
  {
    var builder := new Builder(base);
    var i := 0;
    while i < |edits|
      invariant i <= |edits| && builder.Valid() && builder.base == base && builder.edits == edits[..i]
      invariant fresh(builder)
    {
      assert edits[..i] + [edits[i]] == edits[..i + 1];
      ReaddedPrefix(base, edits, i + 1);
      builder.Apply(edits[i]);
      i := i + 1;
    }
    assert edits[..|edits|] == edits;
    v := builder.SaveTo();
    ghost var last := versions[|edits|];
    assert v == last by {
      forall l | 0 <= l < NUM_LEVELS ensures v[l] == last[l] {
        forall f ensures f in v[l] <==> f in last[l] {
          ReplayMembers(versions, edits, l, f);
        }
        if |edits| > 0 {
          assert EditedTo(versions[|edits| - 1], edits[|edits| - 1], versions[|edits|]);
          assert EditedLevel(versions[|edits| - 1][l], edits[|edits| - 1], l, last[l]);
        }
        SortedUnique(v[l], last[l]);
      }
    }
  }

  /** One edit applied to a version: what LogAndApply installs. */
  method ApplyEdit(v: Version, e: Edit) returns (v2: Version)
    requires forall l :: 0 <= l < NUM_LEVELS ==> SortedLevel(v[l])
    requires NeverReadded(v, [e])
    ensures EditedTo(v, e, v2)
  {
    var builder := new Builder(v);
    assert [] + [e] == [e];
    builder.Apply(e);
    v2 := builder.SaveTo();
    forall l | 0 <= l < NUM_LEVELS ensures EditedLevel(v[l], e, l, v2[l]) {
      forall f ensures f in v2[l] <==> (f in v[l] && (l, f.number) !in e.deleted) || (l, f) in e.added {
        ReplayStep(v, [e], l, f);
        assert [e][..0] == [];
      }
    }
  }
}
