/** Opening the store from the bytes of its files. */
module DiskImages {
  // Over every run of the store with its disk and manifest: whatever byte the files were cut off at, what is read
  // from them is the disk of the state, so the store opened from them is one the recovery theorems speak of.

  import opened Keys
  import opened Bytes
  import opened Versions
  import opened Lsm
  import opened Recovery
  import opened Durable
  import opened Builders
  import opened Manifest
  import opened LogFormat
  import opened LogReader
  import opened DiskBytes

  // ---------------------------------------------------------------- versions without the files' contents

  function BareLevel(files: Level): (r: Level)
    ensures |r| == |files| && forall i :: 0 <= i < |r| ==> r[i] == Bare(files[i])
  {
    seq(|files|, i requires 0 <= i < |files| => Bare(files[i]))
  }

  function BareVersion(v: Version): (r: Version)
    ensures forall l :: 0 <= l < NUM_LEVELS ==> r[l] == BareLevel(v[l])
  {
    seq(NUM_LEVELS, l requires 0 <= l < NUM_LEVELS => BareLevel(v[l]))
  }

  function BareVersions(vs: seq<Version>): (r: seq<Version>)
    ensures |r| == |vs| && forall i :: 0 <= i < |r| ==> r[i] == BareVersion(vs[i])
  {
    seq(|vs|, i requires 0 <= i < |vs| => BareVersion(vs[i]))
  }

  lemma BareMember(files: Level, g: File)
    ensures g in BareLevel(files) <==> exists f :: f in files && Bare(f) == g
  {
    if g in BareLevel(files) {
      var i :| 0 <= i < |files| && BareLevel(files)[i] == g;
      assert files[i] in files;
    }
    if f :| f in files && Bare(f) == g {
      var i :| 0 <= i < |files| && files[i] == f;
      assert BareLevel(files)[i] == g;
    }
  }

  lemma BareAddition(e: Edit, l: nat, g: File)
    ensures (l, g) in BareEdit(e).added <==> exists f :: (l, f) in e.added && Bare(f) == g
  {
    if (l, g) in BareEdit(e).added {
      var i :| 0 <= i < |e.added| && BareEdit(e).added[i] == (l, g);
      assert (l, e.added[i].1) in e.added;
    }
    if f :| (l, f) in e.added && Bare(f) == g {
      var i :| 0 <= i < |e.added| && e.added[i] == (l, f);
      assert BareEdit(e).added[i] == (l, g);
    }
  }

  /** What an edit does to a level does not depend on what the files hold. */
  lemma BareEditedLevel(files: Level, e: Edit, l: nat, files2: Level)
    requires EditedLevel(files, e, l, files2)
    ensures EditedLevel(BareLevel(files), BareEdit(e), l, BareLevel(files2))
  {
    var bare, was, b := BareLevel(files2), BareLevel(files), BareEdit(e);
    forall i, j | 0 <= i < j < |bare| ensures BySmallest(bare[i], bare[j]) {
      assert BySmallest(files2[i], files2[j]);
    }
    forall g ensures g in bare <==> (g in was && (l, g.number) !in b.deleted) || (l, g) in b.added {
      BareMember(files2, g);
      BareMember(files, g);
      BareAddition(e, l, g);
      hide BareLevel, BareEdit;
    }
  }

  lemma BareEdited(v: Version, e: Edit, v2: Version)
    requires EditedTo(v, e, v2)
    ensures EditedTo(BareVersion(v), BareEdit(e), BareVersion(v2))
  {
    hide EditedLevel, BareLevel, BareEdit;
    forall l | 0 <= l < NUM_LEVELS ensures EditedLevel(BareVersion(v)[l], BareEdit(e), l, BareVersion(v2)[l]) {
      BareEditedLevel(v[l], e, l, v2[l]);
    }
  }

  lemma BareSuccessive(versions: seq<Version>, edits: seq<Edit>)
    requires Successive(versions, edits)
    ensures Successive(BareVersions(versions), BareEdits(edits))
  {
    hide EditedTo, BareVersion, BareEdit;
    forall i | 0 <= i < |edits|
      ensures EditedTo(BareVersions(versions)[i], BareEdits(edits)[i], BareVersions(versions)[i + 1])
    {
      BareEdited(versions[i], edits[i], versions[i + 1]);
    }
  }

  lemma BareNever(edits: seq<Edit>)
    requires NeverReadded(EMPTY, edits)
    ensures NeverReadded(EMPTY, BareEdits(edits))
  {
    forall i | 0 <= i < |edits| ensures EditOk(BareEdits(edits)[i]) && AddsNew(EMPTY, BareEdits(edits), i) {
      BareAddsNew(edits, i);
    }
  }

  lemma BareAddsNew(edits: seq<Edit>, i: nat)
    requires i < |edits| && EditOk(edits[i]) && AddsNew(EMPTY, edits, i)
    ensures EditOk(BareEdits(edits)[i]) && AddsNew(EMPTY, BareEdits(edits), i)
  {
    var bare, e := BareEdits(edits), edits[i];
    assert bare[i] == BareEdit(e);
    forall a | a in bare[i].added ensures a.0 < NUM_LEVELS && exists x :: x in e.added && a == (x.0, Bare(x.1)) {
      var k :| 0 <= k < |e.added| && bare[i].added[k] == a;
      assert e.added[k] in e.added;
    }
    forall a, g | a in bare[i].added && (g in EMPTY[a.0] || exists j :: 0 <= j < i && (a.0, g) in bare[j].added)
      ensures g.number != a.1.number
    {
      assert EMPTY[a.0] == [];
      var j :| 0 <= j < i && (a.0, g) in bare[j].added;
      BareAddition(edits[j], a.0, g);
      var f :| (a.0, f) in edits[j].added && Bare(f) == g;
      var x :| x in e.added && a == (x.0, Bare(x.1));
      assert f.number != x.1.number;
    }
  }

  /** The files again, from the tables with their numbers. */
  function FilledLevel(files: Level, tables: map<nat, File>): (r: Level)
    ensures |r| == |files|
    ensures forall i :: 0 <= i < |r| && files[i].number in tables ==> r[i] == tables[files[i].number]
  {
    seq(|files|, i requires 0 <= i < |files| =>
      if files[i].number in tables then tables[files[i].number] else files[i])
  }

  function Filled(v: Version, tables: map<nat, File>): (r: Version)
    ensures forall l :: 0 <= l < NUM_LEVELS ==> r[l] == FilledLevel(v[l], tables)
  {
    seq(NUM_LEVELS, l requires 0 <= l < NUM_LEVELS => FilledLevel(v[l], tables))
  }

  lemma FilledBack(v: Version, tables: map<nat, File>)
    requires HasFiles(tables, v)
    ensures Filled(BareVersion(v), tables) == v
  {
    forall l | 0 <= l < NUM_LEVELS ensures Filled(BareVersion(v), tables)[l] == v[l] {
      forall i | 0 <= i < |v[l]| ensures FilledLevel(BareLevel(v[l]), tables)[i] == v[l][i] {
        assert v[l][i] in v[l];
        assert HasFile(tables, v[l][i]);
      }
    }
  }

  // ---------------------------------------------------------------- the counters in the manifest

  /** The store, its disk and manifest, and the counters each record carries; a snapshot carries none. */
  datatype BState = BState(m: MState, marks: seq<Option<Marks>>)

  function MarksOf(disk: Disk): Marks {
    Marks(disk.logNumber, disk.nextFile, disk.lastSeq)
  }

  ghost predicate BNext(b: BState, step: Step, b2: BState) {
    && MNext(b.m, step, b2.m)
    && match step
       case AppendManifest(_, _) => b2.marks == b.marks + [Some(MarksOf(b2.m.d.disk))]
       case Crash => b2.marks == [None, Some(MarksOf(b2.m.d.disk))]
       case _ => b2.marks == b.marks
  }

  ghost predicate BInit(b: BState) {
    MInit(b.m) && b.marks == [None, Some(MarksOf(b.m.d.disk))]
  }

  /** The last counters in the manifest are those of the disk. */
  ghost predicate BInv(b: BState) {
    MInv(b.m) && |b.marks| == |b.m.edits| && LastMarks(b.marks) == Some(MarksOf(b.m.d.disk))
  }

  lemma SameMarks(d: DState, step: Step, d2: DState)
    requires Next(d, step, d2) && !step.AppendManifest? && !step.Crash?
    ensures MarksOf(d2.disk) == MarksOf(d.disk)
  {
    hide Does, Prepared, LiveNumber, Reopened;
  }

  lemma CrashEdits(m: MState, step: Step, m2: MState)
    requires MNext(m, step, m2) && step.Crash?
    ensures |m2.edits| == 2
  {
    hide Next, ReopenedWith, Snapshot, RecoveryEdit;
  }

  lemma MarksMore(marks: seq<Option<Marks>>, k: Marks)
    ensures LastMarks(marks + [Some(k)]) == Some(k)
  {
  }

  lemma MarksKept(b: BState, step: Step, b2: BState)
    requires BInv(b) && BNext(b, step, b2)
    ensures |b2.marks| == |b2.m.edits| && LastMarks(b2.marks) == Some(MarksOf(b2.m.d.disk))
  {
    hide MInv, Next, LastMarks, MarksOf, ReopenedWith, EditFor, Snapshot, RecoveryEdit;
    if step.AppendManifest? {
      MarksMore(b.marks, MarksOf(b2.m.d.disk));
    } else if step.Crash? {
      CrashEdits(b.m, step, b2.m);
      MarksMore([None], MarksOf(b2.m.d.disk));
      assert [None] + [Some(MarksOf(b2.m.d.disk))] == b2.marks;
    } else {
      SameMarks(b.m.d, step, b2.m.d);
    }
  }

  ghost predicate BRun(states: seq<BState>, steps: seq<Step>) {
    && |states| == |steps| + 1
    && BInit(states[0])
    && forall i :: 0 <= i < |steps| ==> BNext(states[i], steps[i], states[i + 1])
  }

  /** In every state of every run, crashes included, the manifest's edits lead to the version on disk and its last
      counters are the disk's. */
  lemma {:induction false} RunMarks(states: seq<BState>, steps: seq<Step>, n: nat)
    requires BRun(states, steps) && n < |states|
    ensures BInv(states[n])
  {
    hide MInv, MNext, DInit, LastMarks, MarksOf;
    if n == 0 {
      InitReplays(states[0].m);
      MarksMore([None], MarksOf(states[0].m.d.disk));
      assert [None] + [Some(MarksOf(states[0].m.d.disk))] == states[0].marks;
    } else {
      RunMarks(states, steps, n - 1);
      StepReplays(states[n - 1].m, steps[n - 1], states[n].m);
      MarksKept(states[n - 1], steps[n - 1], states[n]);
    }
  }

  // ---------------------------------------------------------------- files as bytes

  /** What is on disk: the current manifest and the logs as bytes, the tables by number. */
  datatype Image = Image(manifest: seq<Byte>, logs: map<nat, seq<Byte>>, tables: map<nat, File>)

  ghost predicate LogStored(ns: Names, crc: seq<Byte> -> Word, file: seq<Byte>, records: seq<Record>) {
    AllStorable(ns, records) && InFull(crc, file, LogBytes(ns, records))
  }

  ghost predicate LogsStored(ns: Names, crc: seq<Byte> -> Word, files: map<nat, seq<Byte>>,
                             logs: map<nat, seq<Record>>) {
    && files.Keys == logs.Keys
    && forall n :: n in files ==> LogStored(ns, crc, files[n], logs[n])
  }

  ghost predicate ManifestStored(ns: Names, crc: seq<Byte> -> Word, file: seq<Byte>, ws: seq<Written>, b: BState) {
    AllDescribed(ns, ws, b.m.edits, b.marks) && InFull(crc, file, ManifestBytes(ws))
  }

  /** The bytes are those of the state's disk, with the last record of each file possibly cut off. */
  ghost predicate Stores(ns: Names, crc: seq<Byte> -> Word, img: Image, ws: seq<Written>, b: BState) {
    && ManifestStored(ns, crc, img.manifest, ws, b)
    && LogsStored(ns, crc, img.logs, b.m.d.disk.logs)
    && img.tables == b.m.d.disk.tables
  }

  method ReadLogs(ns: Names, crc: seq<Byte> -> Word, files: map<nat, seq<Byte>>, names: seq<nat>)
    returns (logs: map<nat, seq<Rec>>)
    requires forall n :: n in names <==> n in files
    ensures logs.Keys == files.Keys && forall n :: n in logs ==> logs[n] == LogIn(ns, crc, files[n])
  {
    logs := map[];
    var i := 0;
    while i < |names|
      invariant i <= |names| && forall n :: n in logs <==> n in names[..i]
      invariant forall n :: n in logs ==> n in files && logs[n] == LogIn(ns, crc, files[n])
    {
      hide LogIn;
      var records := ReadLog(ns, crc, files[names[i]]);
      logs := logs[names[i] := records];
      assert names[..i + 1] == names[..i] + [names[i]];
      i := i + 1;
    }
    assert names[..i] == names;
  }

  lemma LogsReadBack(ns: Names, crc: seq<Byte> -> Word, files: map<nat, seq<Byte>>, logs: map<nat, seq<Record>>,
                 found: map<nat, seq<Rec>>)
    requires NamesOk(ns) && LogsStored(ns, crc, files, logs)
    requires found.Keys == files.Keys && forall n :: n in found ==> found[n] == LogIn(ns, crc, files[n])
    ensures found == logs
  {
    hide NamesOk, LogIn, AllStorable, InFull, LogBytes;
    forall n | n in logs ensures found[n] == logs[n] {
      assert LogStored(ns, crc, files[n], logs[n]);
      DiskBytes.LogBack(ns, crc, files[n], logs[n]);
    }
  }

  lemma ReplayParts(b: BState)
    requires BInv(b)
    ensures Successive(BareVersions(b.m.versions), BareEdits(b.m.edits))
    ensures NeverReadded(EMPTY, BareEdits(b.m.edits))
    ensures BareVersions(b.m.versions)[0] == EMPTY
    ensures BareVersions(b.m.versions)[|b.m.edits|] == BareVersion(b.m.d.disk.version)
    ensures HasFiles(b.m.d.disk.tables, b.m.d.disk.version)
  {
    ReplayFacts(b.m);
    hide MInv, NeverReadded, Successive, HasFiles, BareEdits, BareVersion, LastMarks;
    BareSuccessive(b.m.versions, b.m.edits);
    BareNever(b.m.edits);
    EmptyIsBare();
  }

  lemma ReplayFacts(m: MState)
    requires MInv(m)
    ensures Successive(m.versions, m.edits) && NeverReadded(EMPTY, m.edits)
    ensures m.versions[0] == EMPTY && m.versions[|m.edits|] == m.d.disk.version
    ensures HasFiles(m.d.disk.tables, m.d.disk.version)
  {
    hide Inv, LogsBack, ManifestOk, Guarded, AllGuarded, FlushReady, FreshAhead, HasFiles, NeverReadded, EditedTo;
  }

  lemma EmptyIsBare()
    ensures BareVersion(EMPTY) == EMPTY
  {
    forall l | 0 <= l < NUM_LEVELS ensures BareVersion(EMPTY)[l] == EMPTY[l] {
    }
  }

  lemma EmptySorted()
    ensures forall l :: 0 <= l < NUM_LEVELS ==> SortedLevel(EMPTY[l])
  {
  }

  /** The version after the edits in the manifest, with the tables' contents put in. */
  method ReplayFiles(edits: seq<Edit>, tables: map<nat, File>, ghost b: BState) returns (v: Version)
    requires BInv(b) && edits == BareEdits(b.m.edits) && tables == b.m.d.disk.tables
    ensures v == b.m.d.disk.version
  {
    hide BInv, HasFiles, NeverReadded, Successive, BareEdits, BareVersions, BareVersion, Filled;
    ReplayParts(b);
    EmptySorted();
    hide SortedLevel;
    var bare := Replay(EMPTY, edits, BareVersions(b.m.versions));
    FilledBack(b.m.d.disk.version, tables);
    v := Filled(bare, tables);
  }

  /** Reading the files gives back the disk, wherever they were cut off: the manifest's edits lead to the version
      once the tables are put in, the counters are the last ones recorded, and the logs hold their groups. */
  method ReadDisk(ns: Names, crc: seq<Byte> -> Word, img: Image, names: seq<nat>, ghost ws: seq<Written>,
                  ghost b: BState)
    returns (disk: Disk)
    requires NamesOk(ns) && BInv(b) && Stores(ns, crc, img, ws, b)
    requires forall n :: n in names <==> n in img.logs
    ensures disk == b.m.d.disk
  {
    MarksAre(b);
    hide NamesOk, BInv, AllDescribed, InFull, LogsStored, LastMarks, ManifestFile, LogIn;
    ManifestFileBack(ns, crc, img.manifest, ws, b.m.edits, b.marks);
    var read := RecoverManifest(ns, crc, img.manifest);
    var (edits, marks) := read.value;
    var v := ReplayFiles(edits, img.tables, b);
    var found := ReadLogs(ns, crc, img.logs, names);
    LogsReadBack(ns, crc, img.logs, b.m.d.disk.logs, found);
    disk := Disk(found, img.tables, v, marks.logNumber, marks.nextFile, marks.lastSeq);
  }

  lemma MarksAre(b: BState)
    requires BInv(b)
    ensures LastMarks(b.marks) == Some(MarksOf(b.m.d.disk))
  {
  }

  /** DB::Open from nothing but the files. */
  method OpenFromBytes(ns: Names, crc: seq<Byte> -> Word, img: Image, names: seq<nat>, ghost ws: seq<Written>,
                       ghost b: BState)
    returns (files: seq<File>, w: Version, newLog: nat, lastSeq: nat)
    requires NamesOk(ns) && BInv(b) && Stores(ns, crc, img, ws, b)
    requires forall n :: n in names <==> n in img.logs
    ensures Opened(b.m.d.disk, files, w, newLog, lastSeq)
  {
    ghost var settled := DiskAlwaysOk(b.m.d);
    assert img.logs.Keys == b.m.d.disk.logs.Keys;
    hide *;
    var disk := ReadDisk(ns, crc, img, names, ws, b);
    files, w, newLog, lastSeq := Open(disk, names);
  }

  // ---------------------------------------------------------------- a crash in the middle of a write

  /** What logging a group does to the bytes' state. */
  lemma GroupLogged(b: BState, step: Step, b2: BState) returns (r: Record)
    requires step.LogGroup? && BNext(b, step, b2)
    ensures b.m.d.logFile in b.m.d.disk.logs && b2.m.d.disk.tables == b.m.d.disk.tables
    ensures b2.m.edits == b.m.edits && b2.marks == b.marks
    ensures var n := b.m.d.logFile;
            b2.m.d.disk.logs == b.m.d.disk.logs[n := b.m.d.disk.logs[n] + [r]]
  {
    r := Rec(b.m.d.s.lastSeq + 1, step.ops);
  }

  lemma OneLogCut(ns: Names, crc: seq<Byte> -> Word, before: seq<Record>, r: Record, file: seq<Byte>)
    requires AllStorable(ns, before + [r])
    requires Log(crc, LogBytes(ns, before)) <= file <= Log(crc, LogBytes(ns, before + [r]))
    ensures LogStored(ns, crc, file, if file == Log(crc, LogBytes(ns, before + [r])) then before + [r] else before)
  {
    hide InFull, LogBytes, Log, RecordBytes, Storable;
    OneMoreLogged(ns, before, r);
    CutAnywhere(crc, LogBytes(ns, before), RecordBytes(ns, r), file);
  }

  lemma LogReplaced(ns: Names, crc: seq<Byte> -> Word, files: map<nat, seq<Byte>>, logs: map<nat, seq<Record>>, n: nat,
                    file: seq<Byte>, records: seq<Record>)
    requires LogsStored(ns, crc, files, logs) && n in logs && LogStored(ns, crc, file, records)
    ensures LogsStored(ns, crc, files[n := file], logs[n := records])
  {
    hide LogStored;
  }

  lemma LogCut(ns: Names, crc: seq<Byte> -> Word, files: map<nat, seq<Byte>>, logs: map<nat, seq<Record>>, n: nat,
               r: Record, file: seq<Byte>)
    requires LogsStored(ns, crc, files, logs) && n in logs && AllStorable(ns, logs[n] + [r])
    requires Log(crc, LogBytes(ns, logs[n])) <= file <= Log(crc, LogBytes(ns, logs[n] + [r]))
    ensures LogsStored(ns, crc, files[n := file],
              if file == Log(crc, LogBytes(ns, logs[n] + [r])) then logs[n := logs[n] + [r]] else logs)
  {
    hide *;
    OneLogCut(ns, crc, logs[n], r, file);
    var whole := file == Log(crc, LogBytes(ns, logs[n] + [r]));
    LogReplaced(ns, crc, files, logs, n, file, if whole then logs[n] + [r] else logs[n]);
    assert logs[n := logs[n]] == logs;
  }

  /** The process dies while a group is being logged: what is on disk is the state before it, or the state after it
      if its last byte was written. */
  lemma GroupCut(ns: Names, crc: seq<Byte> -> Word, img: Image, ws: seq<Written>, b: BState, step: Step, b2: BState,
                 file: seq<Byte>)
    requires Stores(ns, crc, img, ws, b) && step.LogGroup? && BNext(b, step, b2)
    requires AllStorable(ns, b2.m.d.disk.logs[b.m.d.logFile])
    requires Log(crc, LogBytes(ns, b.m.d.disk.logs[b.m.d.logFile])) <= file
    requires file <= Log(crc, LogBytes(ns, b2.m.d.disk.logs[b.m.d.logFile]))
    ensures var whole := file == Log(crc, LogBytes(ns, b2.m.d.disk.logs[b.m.d.logFile]));
            Stores(ns, crc, img.(logs := img.logs[b.m.d.logFile := file]), ws, if whole then b2 else b)
  {
    hide BNext, AllDescribed, InFull, LogBytes, Log, LogsStored, AllStorable;
    var r := GroupLogged(b, step, b2);
    LogCut(ns, crc, img.logs, b.m.d.disk.logs, b.m.d.logFile, r, file);
  }

  /** What appending a record does to the bytes' state. */
  lemma RecordAppended(b: BState, step: Step, b2: BState)
    requires step.AppendManifest? && BNext(b, step, b2)
    ensures b2.m.edits == b.m.edits + [EditFor(b.m.d.s, step.a)]
    ensures b2.marks == b.marks + [Some(MarksOf(b2.m.d.disk))]
    ensures b2.m.d.disk.logs == b.m.d.disk.logs && b2.m.d.disk.tables == b.m.d.disk.tables
  {
    hide EditFor, MarksOf, Does, Prepared;
  }

  lemma OneMoreDescribed(ns: Names, ws: seq<Written>, b: BState, b2: BState, w: Written, e: Edit, k: Marks)
    requires AllDescribed(ns, ws, b.m.edits, b.marks) && WrittenOk(w) && Describes(ns, w.edit, e, Some(k))
    requires b2.m.edits == b.m.edits + [e] && b2.marks == b.marks + [Some(k)]
    ensures AllDescribed(ns, ws + [w], b2.m.edits, b2.marks)
  {
    hide WrittenOk, Describes;
  }

  lemma ManifestCut(ns: Names, crc: seq<Byte> -> Word, file: seq<Byte>, ws: seq<Written>, b: BState, b2: BState,
                    w: Written, e: Edit, k: Marks, file2: seq<Byte>)
    requires ManifestStored(ns, crc, file, ws, b)
    requires b2.m.edits == b.m.edits + [e] && b2.marks == b.marks + [Some(k)]
    requires WrittenOk(w) && Describes(ns, w.edit, e, Some(k))
    requires Log(crc, ManifestBytes(ws)) <= file2 <= Log(crc, ManifestBytes(ws + [w]))
    ensures if file2 == Log(crc, ManifestBytes(ws + [w])) then ManifestStored(ns, crc, file2, ws + [w], b2)
            else ManifestStored(ns, crc, file2, ws, b)
  {
    hide AllDescribed, Describes, InFull, ManifestBytes, Log, EditBytes, WrittenOk;
    OneMoreWritten(ws, w);
    OneMoreDescribed(ns, ws, b, b2, w, e, k);
    CutAnywhere(crc, ManifestBytes(ws), EditBytes(w), file2);
  }

  /** The same while the manifest is being appended to. */
  lemma RecordCut(ns: Names, crc: seq<Byte> -> Word, img: Image, ws: seq<Written>, b: BState, step: Step, b2: BState,
                  w: Written, file: seq<Byte>)
    requires Stores(ns, crc, img, ws, b) && step.AppendManifest? && BNext(b, step, b2)
    requires WrittenOk(w) && Describes(ns, w.edit, EditFor(b.m.d.s, step.a), Some(MarksOf(b2.m.d.disk)))
    requires Log(crc, ManifestBytes(ws)) <= file <= Log(crc, ManifestBytes(ws + [w]))
    ensures var whole := file == Log(crc, ManifestBytes(ws + [w]));
            Stores(ns, crc, img.(manifest := file), if whole then ws + [w] else ws, if whole then b2 else b)
  {
    hide BNext, ManifestStored, LogsStored, ManifestBytes, Log, EditFor, MarksOf, WrittenOk, Describes;
    RecordAppended(b, step, b2);
    ManifestCut(ns, crc, img.manifest, ws, b, b2, w, EditFor(b.m.d.s, step.a), MarksOf(b2.m.d.disk), file);
  }
}
