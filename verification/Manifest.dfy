/** The manifest as a list of edits: over every run of the store with its disk, crashes included, one
    builder folded over the edits gives the version that was installed last. */
module Manifest {
  import opened Keys
  import opened Versions
  import opened Pick
  import opened Select
  import opened Install
  import opened Flush
  import opened Lsm
  import opened Recovery
  import opened Durable
  import opened Builders
  import Db

  const EMPTY: Version := [[], [], [], [], [], [], []]

  // ---------------------------------------------------------------- the snapshot of a version

  function LevelAdds(l: nat, files: Level): (r: seq<(nat, File)>)
    ensures |r| == |files| && forall i :: 0 <= i < |r| ==> r[i] == (l, files[i])
  {
    seq(|files|, i requires 0 <= i < |files| => (l, files[i]))
  }

  function SnapshotFrom(v: Version, l: nat): seq<(nat, File)>
    decreases NUM_LEVELS - l
  {
    if l >= NUM_LEVELS then [] else LevelAdds(l, v[l]) + SnapshotFrom(v, l + 1)
  }

  /** WriteSnapshot: all files of a version as additions. */
  function Snapshot(v: Version): Edit {
    Edit({}, SnapshotFrom(v, 0))
  }

  lemma LevelMembers(l: nat, files: Level, m: nat, f: File)
    ensures (m, f) in LevelAdds(l, files) <==> m == l && f in files
  {
    if f in files {
      var i :| 0 <= i < |files| && files[i] == f;
      assert LevelAdds(l, files)[i] == (l, f);
    }
  }

  lemma {:induction false} SnapshotMembers(v: Version, l: nat, m: nat, f: File)
    ensures (m, f) in SnapshotFrom(v, l) <==> l <= m < NUM_LEVELS && f in v[m]
    decreases NUM_LEVELS - l
  {
    hide LevelAdds;
    if l < NUM_LEVELS {
      SnapshotMembers(v, l + 1, m, f);
      LevelMembers(l, v[l], m, f);
    }
  }

  lemma HeadNumbers(v: Version, l: nat, a: nat, b: nat)
    requires LevelsOk(v) && NumbersUnique(v) && l < NUM_LEVELS && a < b < |v[l]|
    ensures v[l][a].number != v[l][b].number
  {
    assert SortedLevel(v[l]);
    assert v[l][a] in v[l] && v[l][b] in v[l];
  }

  lemma {:induction false} SnapshotNumbers(v: Version, l: nat, a: nat, b: nat)
    requires LevelsOk(v) && NumbersUnique(v) && a < b < |SnapshotFrom(v, l)|
    ensures SnapshotFrom(v, l)[a].0 == SnapshotFrom(v, l)[b].0 ==>
              SnapshotFrom(v, l)[a].1.number != SnapshotFrom(v, l)[b].1.number
    decreases NUM_LEVELS - l
  {
    hide LevelsOk, NumbersUnique;
    var adds, rest := LevelAdds(l, v[l]), SnapshotFrom(v, l + 1);
    var n := |adds|;
    if n <= a {
      SnapshotNumbers(v, l + 1, a - n, b - n);
    } else if b < n {
      HeadNumbers(v, l, a, b);
    } else {
      var x := rest[b - n];
      assert x in rest;
      SnapshotMembers(v, l + 1, x.0, x.1);
    }
  }

  lemma SnapshotLevel(v: Version, l: nat)
    requires l < NUM_LEVELS && SortedLevel(v[l])
    ensures EditedLevel([], Snapshot(v), l, v[l])
  {
    hide SnapshotFrom, SortedLevel;
    forall f ensures f in v[l] <==> (l, f) in Snapshot(v).added {
      SnapshotMembers(v, 0, l, f);
    }
  }

  lemma SnapshotEdits(v: Version)
    requires LevelsOk(v)
    ensures EditedTo(EMPTY, Snapshot(v), v)
  {
    hide EditedLevel, Snapshot;
    forall l | 0 <= l < NUM_LEVELS ensures EditedLevel(EMPTY[l], Snapshot(v), l, v[l]) {
      SnapshotLevel(v, l);
      assert EMPTY[l] == [];
    }
  }

  // ---------------------------------------------------------------- the edit of each installation

  /** What the manifest record of an installation says about files. */
  ghost function EditFor(s: State, a: Action): Edit {
    match a
    case FlushTable(p, f) => Edit({}, [(p, f)])
    case Install(_, outputs) =>
      if s.running.Some? then Db.CompactionEdit(s.running.value.inputs, outputs) else Edit({}, [])
    case TrivialMove(inputs, _, _, _, _) => Db.CompactionEdit(inputs, inputs.lower)
    case _ => Edit({}, [])
  }

  lemma AddedEdits(v: Version, p: nat, f: File, v2: Version)
    requires Added(v, p, f, v2)
    ensures EditedTo(v, Edit({}, [(p, f)]), v2)
  {
    var e := Edit({}, [(p, f)]);
    forall l | 0 <= l < NUM_LEVELS ensures EditedLevel(v[l], e, l, v2[l]) {
      forall g ensures (l, g) in e.added <==> l == p && g == f {
        assert e.added[0] == (p, f);
      }
    }
  }

  lemma ReplacedEdits(v: Version, v2: Version, inputs: Inputs, outputs: Level)
    requires inputs.level + 1 < NUM_LEVELS && InputsWithin(v, inputs) && NumbersUnique(v)
    requires Replaced(v, v2, inputs, outputs)
    ensures EditedTo(v, Db.CompactionEdit(inputs, outputs), v2)
  {
    var e := Db.CompactionEdit(inputs, outputs);
    forall l | 0 <= l < NUM_LEVELS ensures EditedLevel(v[l], e, l, v2[l]) {
      forall f ensures f in v2[l] <==> (f in v[l] && (l, f.number) !in e.deleted) || (l, f) in e.added {
        hide NumbersUnique, SortedLevel, Db.CompactionEdit;
        Db.EditAdded(inputs, outputs, l, f);
        if f in v[l] {
          Db.EditMembers(v, inputs, outputs, l, f);
        }
      }
    }
  }

  lemma SameEdits(v: Version)
    requires LevelsOk(v)
    ensures EditedTo(v, Edit({}, []), v)
  {
    forall l | 0 <= l < NUM_LEVELS ensures EditedLevel(v[l], Edit({}, []), l, v[l]) {
    }
  }

  /** The record of an installation describes it. */
  lemma EditForEdits(s: State, a: Action, t: State)
    requires Inv(s) && Does(s, a, t) && (IsFlush(a) || a.Install? || a.TrivialMove?)
    ensures EditedTo(s.v, EditFor(s, a), t.v)
  {
    match a {
      case FlushTable(p, f) => AddedEdits(s.v, p, f, t.v);
      case FlushEmpty => SameEdits(s.v);
      case Install(_, outputs) =>
        assert RunningOk(s);
        ReplacedEdits(s.v, t.v, s.running.value.inputs, outputs);
      case TrivialMove(inputs, lo, hi, allLo, allHi) =>
        SelectionFits(s.v, inputs, lo, hi, allLo, allHi);
        ReplacedEdits(s.v, t.v, inputs, inputs.lower);
      case _ =>
    }
  }

  // ---------------------------------------------------------------- the state

  /** The store with its disk, the edits in the manifest, and the versions they went through. */
  datatype MState = MState(d: DState, edits: seq<Edit>, versions: seq<Version>)

  ghost predicate MNext(m: MState, step: Step, m2: MState) {
    && Next(m.d, step, m2.d)
    && match step
       case AppendManifest(a, t) => m2.edits == m.edits + [EditFor(m.d.s, a)] && m2.versions == m.versions + [t.v]
       case Crash =>
         exists files :: ReopenedWith(m.d, files, m2.d) && m2.edits == [Snapshot(m.d.disk.version), RecoveryEdit(files)]
                         && m2.versions == [EMPTY, m.d.disk.version, m2.d.s.v]
       case _ => m2.edits == m.edits && m2.versions == m.versions
  }

  /** The edit added a file with this number to the level. */
  ghost predicate Adds(e: Edit, l: nat, n: nat) {
    exists a :: a in e.added && a.0 == l && a.1.number == n
  }

  ghost predicate Ever(edits: seq<Edit>, l: nat, n: nat) {
    exists j :: 0 <= j < |edits| && Adds(edits[j], l, n)
  }

  lemma EverMore(edits: seq<Edit>, e: Edit, l: nat, n: nat)
    ensures Ever(edits + [e], l, n) <==> Ever(edits, l, n) || Adds(e, l, n)
  {
    var all := edits + [e];
    if Ever(edits, l, n) {
      var j :| 0 <= j < |edits| && Adds(edits[j], l, n);
      assert Adds(all[j], l, n);
    }
    if Adds(e, l, n) {
      assert Adds(all[|edits|], l, n);
    }
  }

  /** The manifest leads to the version on disk, and no record adds a file number twice to a level. */
  ghost predicate Replays(m: MState) {
    && Successive(m.versions, m.edits) && m.versions[0] == EMPTY && m.versions[|m.edits|] == m.d.disk.version
    && NeverReadded(EMPTY, m.edits)
  }

  /** Numbers below this have been handed out, also as the manifest sees it. */
  function Bound(d: DState): nat {
    if d.applying.Some? then NextFile(d.s, d.applying.value.a) else d.s.nextFile
  }

  /** Numbers in the manifest have been handed out, are not those of outputs still being written, and
      have not been on a deeper level than they are now. */
  ghost predicate FreshAhead(d: DState, edits: seq<Edit>) {
    && (forall l: nat, n: nat :: Ever(edits, l, n) ==> n < Bound(d))
    && (d.applying.None? || !d.applying.value.a.Install? ==>
         forall l: nat, n: nat :: Ever(edits, l, n) ==> n !in Pending(d))
    && (forall l, f, k :: 0 <= l < k < NUM_LEVELS && f in d.disk.version[l] ==> !Ever(edits, k, f.number))
  }

  ghost predicate MInv(m: MState) {
    DInv(m.d) && Replays(m) && FreshAhead(m.d, m.edits)
  }

  // ---------------------------------------------------------------- appending a record

  lemma SuccessiveMore(versions: seq<Version>, edits: seq<Edit>, e: Edit, v: Version)
    requires Successive(versions, edits) && EditedTo(versions[|edits|], e, v)
    ensures Successive(versions + [v], edits + [e])
  {
    var vs, es := versions + [v], edits + [e];
    forall i | 0 <= i < |es| ensures EditedTo(vs[i], es[i], vs[i + 1]) {
      assert i < |edits| ==> EditedTo(versions[i], edits[i], versions[i + 1]);
    }
  }

  lemma NeverMore(edits: seq<Edit>, e: Edit)
    requires NeverReadded(EMPTY, edits) && EditOk(e)
    requires forall a, b :: 0 <= a < b < |e.added| && e.added[a].0 == e.added[b].0 ==>
               e.added[a].1.number != e.added[b].1.number
    requires forall a :: a in e.added ==> !Ever(edits, a.0, a.1.number)
    ensures NeverReadded(EMPTY, edits + [e])
  {
    var all, n := edits + [e], |edits|;
    forall i | 0 <= i < |all| ensures EditOk(all[i]) && AddsNew(EMPTY, all, i) {
      assert i < n ==> EditOk(edits[i]) && AddsNew(EMPTY, edits, i);
      if i == n {
        forall a, f | a in e.added && a.0 < NUM_LEVELS
            && (f in EMPTY[a.0] || exists j :: 0 <= j < i && (a.0, f) in all[j].added)
          ensures f.number != a.1.number
        {
          assert EMPTY[a.0] == [];
          var j :| 0 <= j < i && (a.0, f) in all[j].added;
          assert (a.0, f) in edits[j].added && Adds(edits[j], a.0, f.number);
        }
      } else {
        assert forall j :: 0 <= j < n ==> all[j] == edits[j];
      }
    }
  }

  /** What the record of an installation adds: files with numbers the manifest has not seen on that
      level, nor on a deeper one. */
  ghost predicate RecordFresh(d: DState, edits: seq<Edit>, a: Action, e: Edit) {
    && EditOk(e)
    && (forall x, y :: 0 <= x < y < |e.added| && e.added[x].0 == e.added[y].0 ==>
         e.added[x].1.number != e.added[y].1.number)
    && forall x :: x in e.added ==> FileFresh(d, edits, a, x.0, x.1.number)
  }

  ghost predicate FileFresh(d: DState, edits: seq<Edit>, a: Action, l: nat, n: nat) {
    && n < NextFile(d.s, a) && (!a.Install? ==> n !in Pending(d))
    && forall k :: l <= k < NUM_LEVELS ==> !Ever(edits, k, n)
  }

  /** A number that has not been handed out, or only for an output. */
  lemma NewNumber(d: DState, edits: seq<Edit>, a: Action, l: nat, n: nat)
    requires FreshAhead(d, edits) && d.applying.None?
    requires (n == d.s.nextFile && IsFlush(a) && a.FlushTable? && n !in Pending(d))
             || (a.Install? && n in Pending(d) && n < d.s.nextFile)
    ensures FileFresh(d, edits, a, l, n)
  {
    hide Ever;
  }

  lemma FlushFresh(d: DState, edits: seq<Edit>, a: Action, t: State)
    requires NumbersOk(d.s) && FreshAhead(d, edits) && d.applying.None? && a.FlushTable? && Does(d.s, a, t)
    ensures RecordFresh(d, edits, a, EditFor(d.s, a))
  {
    hide Ever, FreshAhead, FileFresh, Added, FileOk, ClearThrough;
    NewNumber(d, edits, a, a.p, a.f.number);
  }

  lemma InstallFresh(d: DState, edits: seq<Edit>, a: Action, t: State)
    requires NumbersOk(d.s) && RunningOk(d.s) && FreshAhead(d, edits)
             && d.applying.None? && a.Install? && Does(d.s, a, t)
    ensures RecordFresh(d, edits, a, EditFor(d.s, a))
  {
    hide Ever, FreshAhead, FileFresh, Replaced, FilesOk, Sorted, Disjoint;
    var inputs := d.s.running.value.inputs;
    var e := EditFor(d.s, a);
    assert inputs.level + 1 < NUM_LEVELS;
    forall x | x in e.added ensures x.0 == inputs.level + 1
        && x.1 in a.outputs && FileFresh(d, edits, a, x.0, x.1.number) {
      Db.EditAdded(inputs, a.outputs, x.0, x.1);
      NewNumber(d, edits, a, x.0, x.1.number);
    }
  }

  lemma MovedFile(d: DState, a: Action, t: State)
    requires VersionOk(d.s.v) && a.TrivialMove? && Does(d.s, a, t)
    ensures a.inputs.level + 1 < NUM_LEVELS && |a.inputs.lower| == 1
            && a.inputs.lower[0] in d.s.v[a.inputs.level] && d.s.running.None?
  {
    SelectionFits(d.s.v, a.inputs, a.lo, a.hi, a.allLo, a.allHi);
    hide Replaced, Selected, VersionOk;
    assert a.inputs.lower[0] in a.inputs.lower;
  }

  /** A file that moves down one level has not been there. */
  lemma MovedFresh(d: DState, edits: seq<Edit>, a: Action, l: nat, f: File)
    requires NumbersOk(d.s) && FreshAhead(d, edits) && d.disk.version == d.s.v && d.s.running.None? && a.TrivialMove?
    requires l + 1 < NUM_LEVELS && f in d.s.v[l]
    ensures FileFresh(d, edits, a, l + 1, f.number)
  {
    hide Ever;
  }

  lemma MoveFresh(d: DState, edits: seq<Edit>, a: Action, t: State)
    requires VersionOk(d.s.v) && NumbersOk(d.s) && FreshAhead(d, edits) && d.applying.None? && d.disk.version == d.s.v
    requires a.TrivialMove? && Does(d.s, a, t)
    ensures RecordFresh(d, edits, a, EditFor(d.s, a))
  {
    hide FreshAhead, FileFresh, Does, VersionOk, NumbersOk;
    MovedFile(d, a, t);
    var inputs := a.inputs;
    var e, f := EditFor(d.s, a), inputs.lower[0];
    MovedFresh(d, edits, a, inputs.level, f);
    forall x | x in e.added ensures x == (inputs.level + 1, f) {
      Db.EditAdded(inputs, inputs.lower, x.0, x.1);
    }
  }

  lemma EditForFresh(d: DState, edits: seq<Edit>, a: Action, t: State)
    requires Inv(d.s) && d.applying.None? && d.disk.version == d.s.v && FreshAhead(d, edits)
    requires Does(d.s, a, t) && (IsFlush(a) || a.Install? || a.TrivialMove?)
    ensures RecordFresh(d, edits, a, EditFor(d.s, a))
  {
    hide VersionOk, MemoryOk, SequenceOk, NumbersOk, RunningOk, Does, FreshAhead;
    match a {
      case FlushTable(_, _) => FlushFresh(d, edits, a, t);
      case FlushEmpty =>
      case Install(_, _) => InstallFresh(d, edits, a, t);
      case TrivialMove(_, _, _, _, _) => MoveFresh(d, edits, a, t);
      case _ =>
    }
  }

  /** The files of the new version have not been deeper. */
  lemma NotDeeper(d: DState, edits: seq<Edit>, a: Action, t: State, l: nat, f: File, k: nat)
    requires Inv(d.s) && Inv(t) && d.applying.None? && d.disk.version == d.s.v && FreshAhead(d, edits)
    requires EditedTo(d.s.v, EditFor(d.s, a), t.v) && RecordFresh(d, edits, a, EditFor(d.s, a))
    requires l < k < NUM_LEVELS && f in t.v[l]
    ensures !Ever(edits + [EditFor(d.s, a)], k, f.number)
  {
    var e := EditFor(d.s, a);
    EverMore(edits, e, k, f.number);
    assert EditedLevel(d.s.v[l], e, l, t.v[l]) && EditedLevel(d.s.v[k], e, k, t.v[k]);
    hide Inv, FreshAhead, Ever, EditFor, EditedTo;
    OldOrAdded(d, edits, a, e, l, f, k);
    forall x | x in e.added && x.0 == k ensures x.1.number != f.number {
      assert (k, x.1) in e.added && x.1 in t.v[k];
      UniqueNumbers(t, l, f, k, x.1);
    }
  }

  lemma UniqueNumbers(t: State, l: nat, f: File, k: nat, g: File)
    requires Inv(t) && l < k < NUM_LEVELS && f in t.v[l] && g in t.v[k]
    ensures f.number != g.number
  {
    assert NumbersUnique(t.v);
  }

  lemma OldOrAdded(d: DState, edits: seq<Edit>, a: Action, e: Edit, l: nat, f: File, k: nat)
    requires FreshAhead(d, edits) && d.disk.version == d.s.v && l < k < NUM_LEVELS && RecordFresh(d, edits, a, e)
    requires f in d.s.v[l] || (l, f) in e.added
    ensures !Ever(edits, k, f.number)
  {
    hide Ever;
    assert (l, f) in e.added ==> FileFresh(d, edits, a, l, f.number);
  }

  lemma AppendReplays(m: MState, step: Step, m2: MState)
    requires MInv(m) && step.AppendManifest? && MNext(m, step, m2)
    ensures Replays(m2) && FreshAhead(m2.d, m2.edits)
  {
    hide DInv, Next, Inv, Does, Ever, FreshAhead, Successive, NeverReadded, EditedTo, EditFor;
    var d, a, t := m.d, step.a, step.t;
    AppendFacts(d, step, m2.d);
    var e := EditFor(d.s, a);
    EditForEdits(d.s, a, t);
    EditForFresh(d, m.edits, a, t);
    SuccessiveMore(m.versions, m.edits, e, t.v);
    assert forall x :: x in e.added ==> FileFresh(d, m.edits, a, x.0, x.1.number);
    assert EditOk(e);
    NeverMore(m.edits, e);
    assert Replays(m2) by { SuccessiveLength(m.versions, m.edits); }
    StepInv(d.s, a, t);
    AppendAhead(d, m.edits, a, t, m2.d);
  }

  lemma SuccessiveLength(versions: seq<Version>, edits: seq<Edit>)
    requires Successive(versions, edits)
    ensures |versions| == |edits| + 1
  {
  }

  lemma AppendAhead(d: DState, edits: seq<Edit>, a: Action, t: State, d2: DState)
    requires Inv(d.s) && Inv(t) && d.applying.None? && d.disk.version == d.s.v && FreshAhead(d, edits)
    requires EditedTo(d.s.v, EditFor(d.s, a), t.v) && RecordFresh(d, edits, a, EditFor(d.s, a))
    requires d2.s == d.s && d2.disk.version == t.v && d2.applying == Some(Applying(a, t.v))
    ensures FreshAhead(d2, edits + [EditFor(d.s, a)])
  {
    hide Inv, Ever, EditedTo, EditFor;
    var e := EditFor(d.s, a);
    forall l, f, k | 0 <= l < k < NUM_LEVELS && f in t.v[l] ensures !Ever(edits + [e], k, f.number) {
      NotDeeper(d, edits, a, t, l, f, k);
    }
    forall l: nat, n: nat | Ever(edits + [e], l, n) ensures n < Bound(d2) && (!a.Install? ==> n !in Pending(d2)) {
      EverMore(edits, e, l, n);
      if Adds(e, l, n) {
        var x :| x in e.added && x.0 == l && x.1.number == n;
        assert FileFresh(d, edits, a, x.0, x.1.number);
      }
    }
  }

  lemma AppendFacts(d: DState, step: Step, d2: DState)
    requires DInv(d) && step.AppendManifest? && Next(d, step, d2)
    ensures Inv(d.s) && d.applying.None? && d.disk.version == d.s.v && Does(d.s, step.a, step.t)
    ensures IsFlush(step.a) || step.a.Install? || step.a.TrivialMove?
    ensures d2.s == d.s && d2.disk.version == step.t.v && d2.applying == Some(Applying(step.a, step.t.v))
  {
    hide Inv, Does, LogsBack, TablesKept, Recorded;
  }

  // ---------------------------------------------------------------- the other steps

  lemma QuietNumbers(d: DState, step: Step, d2: DState)
    requires DInv(d) && Next(d, step, d2) && !step.AppendManifest? && !step.Crash?
    ensures d2.disk.version == d.disk.version
    ensures step.FinishApply? ==> d.applying.Some? && d2.applying.None? && d2.s.nextFile == Bound(d)
                                  && (if d.applying.value.a.Install?
                                     then Pending(d2) == {} else Pending(d2) == Pending(d))
    ensures !step.FinishApply? ==>
              d2.applying == d.applying && Bound(d) <= Bound(d2) && Pending(d2) <= Pending(d) + {Bound(d)}
                                   && (d.applying.Some? ==> Pending(d2) == Pending(d))
  {
    hide Inv, LogsBack, TablesKept, Recorded, Contents, Added, Replaced, Selected, BatchEntries, LiveNumber;
    assert d.applying.Some? ==> CanFinish(d.s, d.applying.value.a, d.applying.value.v);
  }

  lemma OtherReplays(m: MState, step: Step, m2: MState)
    requires MInv(m) && !step.AppendManifest? && !step.Crash? && MNext(m, step, m2)
    ensures Replays(m2) && FreshAhead(m2.d, m2.edits)
  {
    QuietNumbers(m.d, step, m2.d);
    hide DInv, Next, Ever, Successive, NeverReadded;
  }

  /** What recovery adds is numbered beyond everything in the manifest. */
  lemma RecoveryFresh(disk: Disk, files: seq<File>, w: Version, newLog: nat, lastSeq: nat)
    requires DiskOk(disk) && Opened(disk, files, w, newLog, lastSeq)
    ensures var e := RecoveryEdit(files);
            && EditOk(e) && EditedTo(disk.version, e, w) && disk.nextFile < newLog
            && (forall a, b :: 0 <= a < b < |e.added| ==> e.added[a].1.number != e.added[b].1.number)
            && forall a :: a in e.added ==> a.0 == 0 && disk.nextFile < a.1.number < newLog
    ensures LevelsOk(disk.version) && NumbersUnique(disk.version)
    ensures forall l, f :: 0 <= l < NUM_LEVELS && f in disk.version[l] ==> f.number < disk.nextFile
    ensures forall l :: 1 <= l < NUM_LEVELS ==> w[l] == disk.version[l]
  {
    hide Logged, Distinct, Contents, AllNewer, LogsOrdered;
    var e := RecoveryEdit(files);
    RecoveredLevels(disk.version, files, w);
    forall a | a in e.added ensures a.0 == 0 && disk.nextFile < a.1.number < newLog {
      var i :| 0 <= i < |files| && e.added[i] == a;
    }
    forall a, b | 0 <= a < b < |e.added| ensures e.added[a].1.number != e.added[b].1.number {
      assert files[a].number < files[b].number;
    }
  }

  lemma CrashFacts(d: DState, step: Step, files: seq<File>, d2: DState)
    requires DInv(d) && step.Crash? && Next(d, step, d2) && ReopenedWith(d, files, d2)
    ensures DiskOk(d.disk) && Opened(d.disk, files, d2.s.v, d2.logFile, d2.s.lastSeq)
    ensures d2.disk.version == d2.s.v && d2.applying.None? && Pending(d2) == {} && Bound(d2) == d2.logFile + 1
    ensures NumbersUnique(d2.s.v)
  {
    hide Opened, AddedTables, DiskOk;
    var m := DiskAlwaysOk(d);
    StepKeeps(d, step, d2);
    assert Inv(d2.s);
  }

  lemma {:induction false} CrashReplays(m: MState, step: Step, m2: MState)
    requires MInv(m) && step.Crash? && MNext(m, step, m2)
    ensures Replays(m2) && FreshAhead(m2.d, m2.edits)
  {
    hide DInv, Next, ReopenedWith, DiskOk, Opened, EditedTo, Ever, SnapshotFrom;
    var files :| ReopenedWith(m.d, files, m2.d) && m2.edits == [Snapshot(m.d.disk.version), RecoveryEdit(files)]
                 && m2.versions == [EMPTY, m.d.disk.version, m2.d.s.v];
    CrashFacts(m.d, step, files, m2.d);
    var v, w, newLog := m.d.disk.version, m2.d.s.v, m2.d.logFile;
    RecoveryFresh(m.d.disk, files, w, newLog, m2.d.s.lastSeq);
    SnapshotEdits(v);
    SnapshotOk(v);
    var first, second := Snapshot(v), RecoveryEdit(files);
    forall l: nat, n: nat ensures Ever([first], l, n) <==> Adds(first, l, n) {
      NoEdits();
      EverMore([], first, l, n);
      assert [] + [first] == [first];
    }
    TwoEdits(first, second, v, w, newLog);
    assert [first] + [second] == m2.edits;
    assert Successive(m2.versions, m2.edits);
    hide NumbersUnique, LevelsOk, RecoveryEdit, Snapshot, Adds;
    forall l: nat, n: nat ensures Ever(m2.edits, l, n) <==> Adds(first, l, n) || Adds(second, l, n) {
      EverMore([first], second, l, n);
    }
    CrashAhead(m.d.disk, first, second, v, w, newLog, m2.d, m2.edits);
  }

  lemma TwoEdits(first: Edit, second: Edit, v: Version, w: Version, newLog: nat)
    requires EditOk(first) && EditOk(second)
    requires forall a, b :: 0 <= a < b < |first.added| && first.added[a].0 == first.added[b].0 ==>
               first.added[a].1.number != first.added[b].1.number
    requires forall a, b :: 0 <= a < b < |second.added| ==> second.added[a].1.number != second.added[b].1.number
    requires forall l: nat, n: nat :: Ever([first], l, n) <==> Adds(first, l, n)
    requires forall l: nat, n: nat :: Adds(first, l, n) ==> !Adds(second, l, n)
    ensures NeverReadded(EMPTY, [first] + [second])
  {
    hide Ever;
    NoEdits();
    NeverMore([], first);
    assert [] + [first] == [first];
    forall x | x in second.added ensures !Ever([first], x.0, x.1.number) {
      assert Adds(second, x.0, x.1.number);
    }
    NeverMore([first], second);
  }

  lemma CrashAhead(disk: Disk, first: Edit, second: Edit, v: Version,
                   w: Version, newLog: nat, d2: DState, edits: seq<Edit>)
    requires forall l: nat, n: nat :: Ever(edits, l, n) <==> Adds(first, l, n) || Adds(second, l, n)
    requires forall l: nat, n: nat :: Adds(first, l, n) ==> l < NUM_LEVELS && exists f :: f in v[l] && f.number == n
    requires forall a :: a in second.added ==> a.0 == 0 && disk.nextFile < a.1.number < newLog
    requires forall l, f :: 0 <= l < NUM_LEVELS && f in v[l] ==> f.number < disk.nextFile
    requires forall l :: 1 <= l < NUM_LEVELS ==> w[l] == v[l]
    requires NumbersUnique(w) && disk.nextFile < newLog
    requires d2.disk.version == w && d2.applying.None? && Pending(d2) == {} && Bound(d2) == newLog + 1
    ensures FreshAhead(d2, edits)
  {
    hide Ever;
    forall l, f, k | 0 <= l < k < NUM_LEVELS && f in w[l] ensures !Ever(edits, k, f.number) {
      forall g | g in v[k] ensures g.number != f.number {
        assert g in w[k];
      }
    }
  }

  lemma NoEdits()
    ensures NeverReadded(EMPTY, []) && forall l: nat, n: nat :: !Ever([], l, n)
  {
  }

  lemma SnapshotOk(v: Version)
    requires LevelsOk(v) && NumbersUnique(v)
    ensures var e := Snapshot(v);
            && EditOk(e)
            && (forall a, b :: 0 <= a < b < |e.added| && e.added[a].0 == e.added[b].0 ==>
                 e.added[a].1.number != e.added[b].1.number)
            && forall l: nat, n: nat :: Adds(e, l, n) ==> l < NUM_LEVELS && exists f :: f in v[l] && f.number == n
  {
    var e := Snapshot(v);
    forall a | a in e.added ensures a.0 < NUM_LEVELS && a.1 in v[a.0] {
      SnapshotMembers(v, 0, a.0, a.1);
    }
    forall a, b | 0 <= a < b < |e.added| && e.added[a].0 == e.added[b].0
        ensures e.added[a].1.number != e.added[b].1.number {
      SnapshotNumbers(v, 0, a, b);
    }
  }

  // ---------------------------------------------------------------- every run

  lemma StepReplays(m: MState, step: Step, m2: MState)
    requires MInv(m) && MNext(m, step, m2)
    ensures MInv(m2)
  {
    StepKeeps(m.d, step, m2.d);
    hide DInv, Next, Replays, FreshAhead;
    if step.AppendManifest? {
      AppendReplays(m, step, m2);
    } else if step.Crash? {
      CrashReplays(m, step, m2);
    } else {
      OtherReplays(m, step, m2);
    }
  }

  /** A new store: the manifest holds the snapshot of the empty version and the record of opening it. */
  ghost predicate MInit(m: MState) {
    DInit(m.d) && m.edits == [Edit({}, []), Edit({}, [])] && m.versions == [EMPTY, EMPTY, EMPTY]
  }

  /** An edit without files. */
  lemma NothingAdded(edits: seq<Edit>, versions: seq<Version>, e: Edit, v: Version)
    requires NeverReadded(EMPTY, edits) && Successive(versions, edits) && e == Edit({}, [])
    requires (forall l: nat, n: nat :: !Ever(edits, l, n)) && versions[|edits|] == v && LevelsOk(v)
    ensures NeverReadded(EMPTY, edits + [e]) && Successive(versions + [v], edits + [e])
    ensures forall l: nat, n: nat :: !Ever(edits + [e], l, n)
  {
    SameEdits(v);
    hide Ever, NeverReadded, EditedTo, Successive;
    NeverMore(edits, e);
    SuccessiveMore(versions, edits, e, v);
    forall l: nat, n: nat ensures !Ever(edits + [e], l, n) {
      EverMore(edits, e, l, n);
    }
  }

  lemma NewManifest(edits: seq<Edit>, versions: seq<Version>)
    requires edits == [Edit({}, []), Edit({}, [])] && versions == [EMPTY, EMPTY, EMPTY]
    ensures NeverReadded(EMPTY, edits) && Successive(versions, edits)
    ensures forall l: nat, n: nat :: !Ever(edits, l, n)
  {
    NoEdits();
    assert LevelsOk(EMPTY);
    var v := EMPTY;
    assert Successive([v], []);
    hide *;
    var e := edits[0];
    NothingAdded([], [v], e, v);
    assert [] + [e] == [e] && [v] + [v] == [v, v];
    NothingAdded([e], [v, v], e, v);
    assert [e] + [e] == edits && [v, v] + [v] == versions;
  }

  lemma InitReplays(m: MState)
    requires MInit(m)
    ensures MInv(m)
  {
    InitKeeps(m.d);
    assert m.d.s.v == EMPTY by {
      assert forall l :: 0 <= l < NUM_LEVELS ==> m.d.s.v[l] == EMPTY[l];
    }
    hide DInv, Ever, NeverReadded, Successive;
    NewManifest(m.edits, m.versions);
  }

  ghost predicate MRun(states: seq<MState>, steps: seq<Step>) {
    && |states| == |steps| + 1
    && MInit(states[0])
    && forall i :: 0 <= i < |steps| ==> MNext(states[i], steps[i], states[i + 1])
  }

  /** In every state of every run, crashes included, the manifest's edits lead from the empty version to
      the version on disk, one at a time, and no file number comes back to a level. */
  lemma {:induction false} RunReplays(states: seq<MState>, steps: seq<Step>, n: nat)
    requires MRun(states, steps) && n < |states|
    ensures MInv(states[n])
  {
    hide MInv, MNext, MInit;
    if n == 0 {
      InitReplays(states[0]);
    } else {
      RunReplays(states, steps, n - 1);
      StepReplays(states[n - 1], steps[n - 1], states[n]);
    }
  }

  /** Opening the store from the edits, the logs and the counters alone. */
  method OpenFromEdits(edits: seq<Edit>, logs: map<nat, seq<Record>>,
                       names: seq<nat>, logNumber: nat, nextFile: nat, lastSequence: nat,
                       ghost m: MState)
    returns (files: seq<File>, w: Version, newLog: nat, lastSeq: nat)
    requires MInv(m) && m.edits == edits && (forall n :: n in names <==> n in logs)
    requires m.d.disk.logs == logs && m.d.disk.logNumber == logNumber
             && m.d.disk.nextFile == nextFile && m.d.disk.lastSeq == lastSequence
    ensures Opened(m.d.disk, files, w, newLog, lastSeq)
  {
    hide DInv, DiskOk, Opened, NeverReadded, Successive;
    ghost var settled := DiskAlwaysOk(m.d);
    var v := Replay([[], [], [], [], [], [], []], edits, m.versions);
    var disk := Disk(logs, map[], v, logNumber, nextFile, lastSequence);
    SameDisk(m.d.disk, disk);
    files, w, newLog, lastSeq := Open(disk, names);
    SameOpened(m.d.disk, disk, files, w, newLog, lastSeq);
  }

  /** Recovery does not look at the tables. */
  lemma SameDisk(disk: Disk, other: Disk)
    requires DiskOk(disk) && other == disk.(tables := other.tables)
    ensures DiskOk(other)
  {
  }

  lemma SameOpened(disk: Disk, other: Disk, files: seq<File>, w: Version, newLog: nat, lastSeq: nat)
    requires other == disk.(tables := other.tables) && Opened(other, files, w, newLog, lastSeq)
    ensures Opened(disk, files, w, newLog, lastSeq)
  {
  }
}
