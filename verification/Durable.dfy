/** The store with its disk. */
module Durable {
  // Group logging, log switches, table writes, manifest appends, garbage collection and crashes, interleaved
  // with everything module Lsm does.

  import opened Keys
  import opened Versions
  import opened Pick
  import opened Select
  import opened Install
  import opened Flush
  import opened Lsm
  import opened Recovery
  import Builders

  /** A manifest record that is on disk while the version it leads to is not yet installed. */
  datatype Applying = Applying(a: Action, v: Version)

  /** `logFile` is the log of the memtable; `logNumber` is the oldest log that is still needed.  A group
      that has been logged but not inserted is in flight.  `flushing` is a finished table that has left
      the pending outputs and waits for installation.  `pinned` are the versions readers hold. */
  datatype DState = DState(s: State, disk: Disk, logFile: nat, logNumber: nat, inflight: Option<Record>,
                           flushing: Option<File>, applying: Option<Applying>, pinned: set<Version>)

  datatype Step =
    | LogGroup(ops: seq<(UserKey, Op)>)
    | Commit
    | SwitchLog
    | Quiet(a: Action)
    | WriteFlush(f: File)
    | WriteOutput(f: File)
    | AppendManifest(a: Action, t: State)
    | FinishApply
    | Pin
    | Unpin(v: Version)
    | Collect
    | Crash

  ghost function InFlight(d: DState): set<Entry> {
    if d.inflight.Some? then BatchEntries(d.inflight.value.ops, d.inflight.value.first) else {}
  }

  /** The pending outputs: numbers of tables a compaction is writing. */
  function Pending(d: DState): set<nat> {
    if d.s.running.Some? then d.s.running.value.reserved else {}
  }

  /** The version a running compaction holds. */
  ghost function Held(d: DState): set<Version> {
    if d.s.running.Some? then {d.s.running.value.base} else {}
  }

  ghost predicate NumberIn(v: Version, n: nat) {
    exists l, f :: 0 <= l < NUM_LEVELS && f in v[l] && f.number == n
  }

  /** What AddLiveFiles and the pending outputs protect. */
  ghost predicate LiveNumber(d: DState, n: nat) {
    n in Pending(d) || NumberIn(d.s.v, n) || exists v :: v in d.pinned + Held(d) && NumberIn(v, n)
  }

  /** The worker does one thing at a time. */
  predicate WorkerFree(d: DState) {
    d.flushing.None? && d.applying.None?
  }

  predicate IsFlush(a: Action) {
    a.FlushTable? || a.FlushEmpty?
  }

  /** The actions with no part on disk; those of the worker wait until it is free. */
  predicate IsQuiet(d: DState, a: Action) {
    || a.TakeSnapshot? || a.ReleaseSnapshot?
    || (WorkerFree(d) && (a.BeginCompaction? || a.OpenOutput? || a.Abandon?))
  }

  ghost predicate HasFile(tables: map<nat, File>, f: File) {
    f.number in tables && tables[f.number] == f
  }

  ghost predicate HasFiles(tables: map<nat, File>, v: Version) {
    forall l, f :: 0 <= l < NUM_LEVELS && f in v[l] ==> HasFile(tables, f)
  }

  /** The tables an installation needs are there. */
  ghost predicate Prepared(d: DState, a: Action) {
    match a
    case FlushTable(_, f) => d.flushing == Some(f)
    case FlushEmpty => d.flushing.None?
    case Install(_, outputs) => d.flushing.None? && forall f :: f in outputs ==> HasFile(d.disk.tables, f)
    case TrivialMove(_, _, _, _, _) => d.flushing.None?
    case _ => false
  }

  /** The file number the manifest records: a flushed table has already taken one. */
  function NextFile(s: State, a: Action): nat {
    if a.FlushTable? then s.nextFile + 1 else s.nextFile
  }

  ghost predicate Next(d: DState, step: Step, e: DState) {
    match step
    case LogGroup(ops) =>
      && d.inflight.None? && d.s.lastSeq + |ops| < MAX_SEQ && d.logFile in d.disk.logs
      && var r := Rec(d.s.lastSeq + 1, ops);
      && e == d.(inflight := Some(r), disk := d.disk.(logs := d.disk.logs[d.logFile := d.disk.logs[d.logFile] + [r]]))
    case Commit =>
      && d.inflight.Some?
      && Does(d.s, Action.Write(d.inflight.value.ops), e.s)
      && e == d.(s := e.s, inflight := None)
    case SwitchLog =>
      && d.inflight.None? && d.s.imm.None?
      && e == d.(s := d.s.(mem := [], imm := Some(d.s.mem), nextFile := d.s.nextFile + 1),
                 logFile := d.s.nextFile,
                 disk := d.disk.(logs := d.disk.logs[d.s.nextFile := []]))
    case Quiet(a) =>
      IsQuiet(d, a) && Does(d.s, a, e.s) && e == d.(s := e.s)
    case WriteFlush(f) =>
      && WorkerFree(d) && d.s.imm == Some(f.entries) && FileOk(f) && f.number == d.s.nextFile
      && e == d.(flushing := Some(f), disk := d.disk.(tables := d.disk.tables[f.number := f]))
    case WriteOutput(f) =>
      && WorkerFree(d) && f.number in Pending(d)
      && e == d.(disk := d.disk.(tables := d.disk.tables[f.number := f]))
    case AppendManifest(a, t) =>
      && d.applying.None? && Prepared(d, a) && Does(d.s, a, t)
      && e == d.(applying := Some(Applying(a, t.v)),
                 disk := d.disk.(version := t.v, logNumber := if IsFlush(a) then d.logFile else d.logNumber,
                                 nextFile := NextFile(d.s, a), lastSeq := d.s.lastSeq))
    case FinishApply =>
      && d.applying.Some?
      && Does(d.s, d.applying.value.a, e.s) && e.s.v == d.applying.value.v
      && e == d.(s := e.s, applying := None, flushing := None, logNumber := d.disk.logNumber)
    case Pin =>
      e == d.(pinned := d.pinned + {d.s.v})
    case Unpin(v) =>
      e == d.(pinned := d.pinned - {v})
    case Collect =>
      WorkerFree(d) && Collected(d, e)
    case Crash =>
      Reopened(d, e)
  }

  /** DeleteObsoleteFiles. */
  ghost predicate Collected(d: DState, e: DState) {
    && (forall n :: n in e.disk.tables <==> n in d.disk.tables && LiveNumber(d, n))
    && (forall n :: n in e.disk.tables ==> e.disk.tables[n] == d.disk.tables[n])
    && (forall n :: n in e.disk.logs <==> n in d.disk.logs && d.logNumber <= n)
    && (forall n :: n in e.disk.logs ==> e.disk.logs[n] == d.disk.logs[n])
    && e == d.(disk := d.disk.(tables := e.disk.tables, logs := e.disk.logs))
  }

  /** What opening the store makes of the disk: the new version, counters and log. */
  ghost predicate Opened(disk: Disk, files: seq<File>, w: Version, newLog: nat, lastSeq: nat) {
    && TablesOk(files, disk.nextFile + 1, newLog)
    && EntriesOf(files) == Logged(disk.logs, disk.logNumber) && Distinct(EntriesOf(files))
    && Builders.EditedTo(disk.version, RecoveryEdit(files), w)
    && disk.nextFile < newLog && (forall n :: n in disk.logs && disk.logNumber <= n ==> n < newLog)
    && disk.lastSeq <= lastSeq < MAX_SEQ && Below(EntriesOf(files), lastSeq + 1)
  }

  /** The process dies and the store is opened again from the disk.  Attempts to open it that were cut short in
      between may have left tables and empty logs with numbers the manifest does not know. */
  ghost predicate Reopened(d: DState, e: DState) {
    exists files :: ReopenedWith(d, files, e)
  }

  ghost predicate ReopenedWith(d: DState, files: seq<File>, e: DState) {
    && Opened(d.disk, files, e.s.v, e.logFile, e.s.lastSeq)
    && e.s == State([], None, e.s.v, e.s.lastSeq, [], e.logFile + 1, None, d.s.history + InFlight(d))
    && AddedTables(d.disk.tables, d.disk.nextFile, files, e.disk.tables)
    && AddedLogs(d.disk.logs, e.logFile, e.disk.logs)
    && e.disk == Disk(e.disk.logs, e.disk.tables, e.s.v, e.logFile, e.logFile + 1, e.s.lastSeq)
    && e == DState(e.s, e.disk, e.logFile, e.logFile, None, None, None, {})
  }

  /** The new tables are there, and none the manifest may know has changed. */
  ghost predicate AddedTables(tables: map<nat, File>, nextFile: nat, files: seq<File>, tables2: map<nat, File>) {
    && (forall i :: 0 <= i < |files| ==> HasFile(tables2, files[i]))
    && forall n :: n in tables && n <= nextFile ==> n in tables2 && tables2[n] == tables[n]
  }

  /** The new log is there, the old ones are as they were, and any others are empty. */
  ghost predicate AddedLogs(logs: map<nat, seq<Record>>, newLog: nat, logs2: map<nat, seq<Record>>) {
    && newLog in logs2 && logs2[newLog] == []
    && (forall n :: n in logs && n != newLog ==> n in logs2 && logs2[n] == logs[n])
    && (forall n :: n in logs2 && n !in logs ==> n <= newLog && logs2[n] == [])
  }

  // ---------------------------------------------------------------- openings that are cut short

  /** What opening does to the disk before the manifest is written: it writes a level-0 table or creates the new
      log, under a number that nothing recorded has. */
  ghost predicate Opening(disk: Disk, after: Disk) {
    || (exists f: File :: f.number > disk.nextFile && after == disk.(tables := disk.tables[f.number := f]))
    || (exists n: nat :: n !in disk.logs && n >= disk.logNumber && after == disk.(logs := disk.logs[n := []]))
  }

  /** What any number of such steps may leave behind. */
  ghost predicate Leftover(disk: Disk, after: Disk) {
    && after == disk.(logs := after.logs, tables := after.tables)
    && (forall n :: n in disk.tables && n <= disk.nextFile ==> n in after.tables && after.tables[n] == disk.tables[n])
    && (forall n :: n in disk.logs ==> n in after.logs && after.logs[n] == disk.logs[n])
    && (forall n :: n in after.logs && n !in disk.logs ==> n >= disk.logNumber && after.logs[n] == [])
  }

  lemma LeftoverStarts(disk: Disk)
    ensures Leftover(disk, disk)
  {
  }

  lemma LeftoverGrows(disk: Disk, after: Disk, later: Disk)
    requires Leftover(disk, after) && Opening(after, later)
    ensures Leftover(disk, later)
  {
  }

  ghost predicate Openings(disks: seq<Disk>) {
    disks != [] && forall i :: 0 <= i < |disks| - 1 ==> Opening(disks[i], disks[i + 1])
  }

  lemma {:induction false} OpeningsLeave(disks: seq<Disk>)
    requires Openings(disks)
    ensures Leftover(disks[0], disks[|disks| - 1])
  {
    hide Leftover, Opening;
    var n := |disks| - 1;
    if n == 0 {
      LeftoverStarts(disks[0]);
    } else {
      OpeningsLeave(disks[..n]);
      LeftoverGrows(disks[0], disks[n - 1], disks[n]);
    }
  }

  /** After openings that were cut short the disk can still be opened: nothing to replay was added or lost. */
  lemma LeftoverOk(disk: Disk, after: Disk)
    requires DiskOk(disk) && Leftover(disk, after)
    ensures DiskOk(after) && Logged(after.logs, after.logNumber) == Logged(disk.logs, disk.logNumber)
  {
    hide VersionOk, AllNewer, Contents, Increasing, AllEarlier;
    SameLogs(disk, after);
    forall n | n in after.logs && disk.logNumber <= n ensures Increasing(after.logs[n]) {
      if n !in disk.logs { EmptyLog([]); }
    }
    forall m, n | m in after.logs && n in after.logs && disk.logNumber <= m < n
      ensures AllEarlier(after.logs[m], after.logs[n])
    {
      if m !in disk.logs { EmptyLog(after.logs[n]); }
      if n !in disk.logs { EmptyLog(after.logs[m]); }
    }
  }

  lemma EmptyLog(log: seq<Record>)
    ensures Increasing([]) && AllEarlier([], log) && AllEarlier(log, []) && Entries([]) == {}
  {
  }

  lemma SameLogs(disk: Disk, after: Disk)
    requires Leftover(disk, after)
    ensures Logged(after.logs, after.logNumber) == Logged(disk.logs, disk.logNumber)
  {
    EmptyLog([]);
    hide Entries;
  }

  // ---------------------------------------------------------------- opening the store

  /** DB::Open with its recovery: from the disk alone. */
  method Open(disk: Disk, names: seq<nat>) returns (files: seq<File>, w: Version, newLog: nat, lastSeq: nat)
    requires DiskOk(disk)
    requires forall n :: n in names <==> n in disk.logs
    ensures Opened(disk, files, w, newLog, lastSeq)
  {
    var next, maxSeq;
    files, next, maxSeq := ReplayLogs(disk, names);
    newLog := next;
    lastSeq := if disk.lastSeq < maxSeq then maxSeq else disk.lastSeq;
    OpenPrepared(disk, files, next);
    w := Builders.ApplyEdit(disk.version, RecoveryEdit(files));
  }

  lemma OpenPrepared(disk: Disk, files: seq<File>, next: nat)
    requires DiskOk(disk) && TablesOk(files, disk.nextFile + 1, next)
    ensures forall l :: 0 <= l < NUM_LEVELS ==> SortedLevel(disk.version[l])
    ensures Builders.NeverReadded(disk.version, [RecoveryEdit(files)])
  {
    var e := RecoveryEdit(files);
    assert LevelsOk(disk.version);
    forall a | a in e.added ensures a.0 == 0 && a.1.number > disk.nextFile {
      var i :| 0 <= i < |e.added| && e.added[i] == a;
    }
    forall a, b | 0 <= a < b < |e.added| ensures e.added[a].1.number != e.added[b].1.number {
      assert files[a].number < files[b].number;
    }
    assert Builders.AddsNew(disk.version, [e], 0);
  }

  // ---------------------------------------------------------------- the invariant

  ghost function Older(logs: map<nat, seq<Record>>, from: nat, to: nat): set<Entry> {
    set n, e | n in logs && from <= n < to && e in Entries(logs[n]) :: e
  }

  /** The sequence number the next group gets. */
  ghost function End(d: DState): nat {
    if d.inflight.Some? then d.inflight.value.Next() else d.s.lastSeq + 1
  }

  ghost predicate RecordsEnd(logs: map<nat, seq<Record>>, from: nat, bound: nat) {
    forall n, r :: n in logs && from <= n && r in logs[n] ==> r.Next() <= bound
  }

  /** The current log backs the memtable and the group in flight, the older needed logs back the
      immutable memtable. */
  ghost predicate LogsBack(d: DState) {
    && d.logFile in d.disk.logs && d.logNumber <= d.logFile < d.s.nextFile
    && (forall n :: n in d.disk.logs ==> n <= d.logFile)
    && (d.s.imm.None? ==> d.logNumber == d.logFile)
    && Elems(d.s.mem) + InFlight(d) == Entries(d.disk.logs[d.logFile])
    && d.s.Imm() == Older(d.disk.logs, d.logNumber, d.logFile)
    && (d.inflight.Some? ==> d.inflight.value.first == d.s.lastSeq + 1)
    && LogsOrdered(d.disk.logs, d.logNumber) && RecordsEnd(d.disk.logs, d.logNumber, End(d))
  }

  ghost predicate CanFinish(s: State, a: Action, v: Version) {
    (a.FlushTable? || a.FlushEmpty? || a.Install? || a.TrivialMove?) && exists t :: Does(s, a, t) && t.v == v
  }

  /** Nothing written is forgotten: it is covered by the manifest's sequence number or logged. */
  ghost predicate Recorded(d: DState) {
    forall e :: e in d.s.history + InFlight(d) ==>
      e.seqno <= d.disk.lastSeq || e in Logged(d.disk.logs, d.disk.logNumber)
  }

  ghost predicate ManifestOk(d: DState) {
    && (d.applying.None? ==> d.disk.version == d.s.v && d.disk.logNumber == d.logNumber)
    && (d.applying.Some? ==>
          && d.disk.version == d.applying.value.v
          && d.disk.logNumber == (if IsFlush(d.applying.value.a) then d.logFile else d.logNumber)
          && CanFinish(d.s, d.applying.value.a, d.applying.value.v))
    && d.disk.lastSeq <= d.s.lastSeq
    && (forall e :: e in Contents(d.disk.version) ==> e.seqno <= d.disk.lastSeq)
    && (forall l, f :: 0 <= l < NUM_LEVELS && f in d.disk.version[l] ==> f.number < d.disk.nextFile)
    && Recorded(d)
  }

  /** The version's tables are there, and no table about to be written takes one of their numbers. */
  ghost predicate Guarded(tables: map<nat, File>, nextFile: nat, pending: set<nat>, v: Version) {
    && HasFiles(tables, v)
    && forall l, f :: 0 <= l < NUM_LEVELS && f in v[l] ==> f.number < nextFile && f.number !in pending
  }

  ghost predicate AllGuarded(tables: map<nat, File>, nextFile: nat, pending: set<nat>, vs: set<Version>) {
    forall v :: v in vs ==> Guarded(tables, nextFile, pending, v)
  }

  ghost predicate FlushReady(tables: map<nat, File>, nextFile: nat, imm: Option<seq<Entry>>, flushing: Option<File>) {
    flushing.Some? ==>
      && HasFile(tables, flushing.value)
      && flushing.value.number == nextFile && imm == Some(flushing.value.entries)
  }

  ghost predicate TablesKept(d: DState) {
    && Guarded(d.disk.tables, d.s.nextFile, Pending(d), d.s.v)
    && HasFiles(d.disk.tables, d.disk.version)
    && AllGuarded(d.disk.tables, d.s.nextFile, Pending(d), d.pinned + Held(d))
    && FlushReady(d.disk.tables, d.s.nextFile, d.s.imm, d.flushing)
  }

  ghost predicate DInv(d: DState) {
    Inv(d.s) && LogsBack(d) && ManifestOk(d) && TablesKept(d)
  }

  // ---------------------------------------------------------------- writing

  lemma EntriesAppend(records: seq<Record>, r: Record)
    ensures Entries(records + [r]) == Entries(records) + BatchEntries(r.ops, r.first)
  {
    var all := records + [r];
    assert all[..|records|] == records && all[..|records| + 1] == all;
    EntriesStep(all, |records|);
  }

  lemma LoggedMonotone(logs: map<nat, seq<Record>>, logs2: map<nat, seq<Record>>, from: nat)
    requires forall n :: n in logs && from <= n ==> n in logs2 && Entries(logs[n]) <= Entries(logs2[n])
    ensures Logged(logs, from) <= Logged(logs2, from)
  {
  }

  lemma InLogged(logs: map<nat, seq<Record>>, from: nat, n: nat)
    requires n in logs && from <= n
    ensures Entries(logs[n]) <= Logged(logs, from)
  {
  }

  lemma OlderSame(logs: map<nat, seq<Record>>, logs2: map<nat, seq<Record>>, from: nat, to: nat)
    requires forall n :: from <= n < to ==> (n in logs <==> n in logs2) && (n in logs ==> logs2[n] == logs[n])
    ensures Older(logs2, from, to) == Older(logs, from, to)
  {
    hide Entries;
    forall e ensures e in Older(logs2, from, to) <==> e in Older(logs, from, to) {
      if e in Older(logs2, from, to) {
        var n :| n in logs2 && from <= n < to && e in Entries(logs2[n]);
        assert n in logs && e in Entries(logs[n]);
      }
      if e in Older(logs, from, to) {
        var n :| n in logs && from <= n < to && e in Entries(logs[n]);
        assert n in logs2 && e in Entries(logs2[n]);
      }
    }
  }

  /** A step that leaves tables, versions and file numbers alone keeps the tables. */
  lemma TablesFrame(d: DState, e: DState)
    requires TablesKept(d)
    requires e.disk.tables == d.disk.tables && e.disk.version == d.disk.version
             && e.pinned == d.pinned && e.flushing == d.flushing
    requires e.s.v == d.s.v && e.s.running == d.s.running && e.s.nextFile == d.s.nextFile && e.s.imm == d.s.imm
    ensures TablesKept(e)
  {
    hide Guarded, HasFiles, AllGuarded, FlushReady;
  }

  lemma LogGroupLogs(d: DState, step: Step, e: DState)
    requires LogsBack(d) && step.LogGroup? && Next(d, step, e)
    ensures LogsBack(e)
  {
    var r := e.inflight.value;
    EntriesAppend(d.disk.logs[d.logFile], r);
    OlderSame(d.disk.logs, e.disk.logs, d.logNumber, d.logFile);
    GroupOrdered(d.disk.logs, d.logFile, d.logNumber, r);
    hide LogsOrdered, RecordsEnd, Entries, Older;
  }

  lemma LogGroupRecorded(d: DState, step: Step, e: DState)
    requires Recorded(d) && d.logFile in d.disk.logs && d.disk.logNumber <= d.logFile
    requires step.LogGroup? && Next(d, step, e)
    ensures Recorded(e)
  {
    EntriesAppend(d.disk.logs[d.logFile], e.inflight.value);
    hide Entries;
    LoggedMonotone(d.disk.logs, e.disk.logs, d.disk.logNumber);
    InLogged(e.disk.logs, d.disk.logNumber, d.logFile);
    hide Logged;
  }

  /** The part of ManifestOk that does not look at the logs. */
  lemma LogNumbers(d: DState)
    requires LogsBack(d) && ManifestOk(d)
    ensures d.logFile in d.disk.logs && d.logNumber <= d.disk.logNumber <= d.logFile
  {
  }

  lemma ManifestFrame(d: DState, e: DState)
    requires ManifestOk(d) && Recorded(e)
    requires e.disk == d.disk.(logs := e.disk.logs, tables := e.disk.tables) && e.applying == d.applying
    requires e.logFile == d.logFile && e.logNumber == d.logNumber
    requires e.s.v == d.s.v && d.s.lastSeq <= e.s.lastSeq
    requires d.applying.Some? ==> CanFinish(e.s, d.applying.value.a, d.applying.value.v)
    ensures ManifestOk(e)
  {
    hide Recorded, CanFinish, Contents;
  }

  lemma LogGroupKeeps(d: DState, step: Step, e: DState)
    requires DInv(d) && step.LogGroup? && Next(d, step, e)
    ensures DInv(e)
  {
    LogNumbers(d);
    LogGroupLogs(d, step, e);
    LogGroupRecorded(d, step, e);
    hide Inv, LogsBack, Recorded, CanFinish;
    ManifestFrame(d, e);
    TablesFrame(d, e);
  }

  lemma GroupOrdered(logs: map<nat, seq<Record>>, logFile: nat, from: nat, r: Record)
    requires logFile in logs && from <= logFile && (forall n :: n in logs ==> n <= logFile)
    requires LogsOrdered(logs, from) && RecordsEnd(logs, from, r.first)
    ensures var logs2 := logs[logFile := logs[logFile] + [r]];
            LogsOrdered(logs2, from) && RecordsEnd(logs2, from, r.Next())
  {
    var logs2 := logs[logFile := logs[logFile] + [r]];
    assert Increasing(logs2[logFile]) by {
      assert Increasing(logs[logFile]);
      forall i | 0 <= i < |logs[logFile]| ensures logs[logFile][i].Next() <= r.first {
        assert logs[logFile][i] in logs[logFile];
      }
    }
    forall m, n | m in logs2 && n in logs2 && from <= m < n ensures AllEarlier(logs2[m], logs2[n]) {
      assert AllEarlier(logs[m], logs[n]);
    }
  }

  lemma CommitLogs(d: DState, step: Step, e: DState)
    requires LogsBack(d) && step.Commit? && Next(d, step, e)
    ensures LogsBack(e)
    ensures e.s.history + InFlight(e) == d.s.history + InFlight(d)
  {
    hide LogsOrdered, RecordsEnd, Entries, Older;
    assert e.s.Imm() == d.s.Imm();
    assert InFlight(e) == {};
  }

  lemma CommitKeeps(d: DState, step: Step, e: DState)
    requires DInv(d) && step.Commit? && Next(d, step, e)
    ensures DInv(e)
  {
    var a := Action.Write(d.inflight.value.ops);
    StepInv(d.s, a, e.s);
    hide Inv;
    CommitLogs(d, step, e);
    hide LogsBack;
    if d.applying.Some? {
      FinishLater(d.s, e.s, d.applying.value.a, d.applying.value.v);
    }
    assert Recorded(e);
    hide Recorded, CanFinish;
    ManifestFrame(d, e);
    TablesFrame(d, e);
  }

  /** Writes and snapshots leave a half-installed version installable. */
  lemma FinishLater(s: State, s2: State, a: Action, v: Version)
    requires CanFinish(s, a, v)
    requires s2.imm == s.imm && s2.v == s.v && s2.running == s.running && s2.nextFile == s.nextFile
    ensures CanFinish(s2, a, v)
  {
    var t :| Does(s, a, t) && t.v == v;
    var t2 := s2.(imm := t.imm, v := v, nextFile := t.nextFile, running := t.running);
    assert Does(s2, a, t2);
  }

  // ---------------------------------------------------------------- switching logs

  lemma SwitchLogs(d: DState, step: Step, e: DState)
    requires LogsBack(d) && step.SwitchLog? && Next(d, step, e)
    ensures LogsBack(e)
    ensures Logged(e.disk.logs, d.logNumber) == Logged(d.disk.logs, d.logNumber)
  {
    var logs, logs2 := d.disk.logs, e.disk.logs;
    assert Entries([]) == {};
    SwitchOrdered(logs, d.s.nextFile, d.logNumber, d.s.lastSeq + 1);
    hide LogsOrdered, RecordsEnd;
    forall x ensures x in Older(logs2, d.logNumber, d.s.nextFile) <==> x in Entries(logs[d.logFile]) {
      if x in Older(logs2, d.logNumber, d.s.nextFile) {
        var n :| n in logs2 && d.logNumber <= n < d.s.nextFile && x in Entries(logs2[n]);
        assert n == d.logFile;
      }
      if x in Entries(logs[d.logFile]) {
        assert d.logFile in logs2 && logs2[d.logFile] == logs[d.logFile];
      }
    }
    SameLogged(logs, logs2, d.logNumber, d.s.nextFile);
    hide Entries;
    assert InFlight(d) == {} && InFlight(e) == {};
    assert e.s.Imm() == Elems(d.s.mem) && Elems(e.s.mem) == {};
  }

  lemma SameLogged(logs: map<nat, seq<Record>>, logs2: map<nat, seq<Record>>, from: nat, fresh_: nat)
    requires fresh_ !in logs && logs2 == logs[fresh_ := []]
    ensures Logged(logs2, from) == Logged(logs, from)
  {
    assert Entries([]) == {};
    forall e ensures e in Logged(logs2, from) <==> e in Logged(logs, from) {
      if e in Logged(logs2, from) {
        var n :| n in logs2 && from <= n && e in Entries(logs2[n]);
        assert n in logs && e in Entries(logs[n]);
      }
      if e in Logged(logs, from) {
        var n :| n in logs && from <= n && e in Entries(logs[n]);
        assert n in logs2 && e in Entries(logs2[n]);
      }
    }
  }

  lemma SwitchOrdered(logs: map<nat, seq<Record>>, n: nat, from: nat, bound: nat)
    requires LogsOrdered(logs, from) && RecordsEnd(logs, from, bound) && forall m :: m in logs ==> m < n
    ensures LogsOrdered(logs[n := []], from) && RecordsEnd(logs[n := []], from, bound)
  {
    var logs2 := logs[n := []];
    assert forall m :: m in logs2 && from <= m ==> m == n || (m in logs && logs2[m] == logs[m]);
    forall a, b | a in logs2 && b in logs2 && from <= a < b ensures AllEarlier(logs2[a], logs2[b]) {
      if b != n {
        assert AllEarlier(logs[a], logs[b]);
      }
    }
  }

  lemma SwitchSteps(s: State, t: State)
    requires Inv(s) && s.imm.None? && t == s.(mem := [], imm := Some(s.mem), nextFile := s.nextFile + 1)
    ensures Inv(t)
  {
    var m := s.(mem := [], imm := Some(s.mem));
    StepInv(s, SwitchMemTable, m);
    StepInv(m, TakeNumber, t);
  }

  /** Without an immutable memtable the pending installation, if any, is not a flush and does not look at
      memtables or file numbers. */
  lemma FinishAfterSwitch(s: State, s2: State, a: Action, v: Version)
    requires CanFinish(s, a, v) && !IsFlush(a)
    requires s2.v == s.v && s2.running == s.running
    ensures CanFinish(s2, a, v)
  {
    var t :| Does(s, a, t) && t.v == v;
    var t2 := s2.(v := v, running := t.running);
    assert Does(s2, a, t2);
  }

  lemma TablesWider(d: DState, e: DState)
    requires TablesKept(d)
    requires e.disk.tables == d.disk.tables && e.disk.version == d.disk.version && e.pinned == d.pinned
    requires e.s.v == d.s.v && e.s.running == d.s.running && e.s.nextFile >= d.s.nextFile
    requires d.flushing.None? && e.flushing.None?
    ensures TablesKept(e)
  {
    hide HasFiles;
  }

  lemma SwitchKeeps(d: DState, step: Step, e: DState)
    requires DInv(d) && step.SwitchLog? && Next(d, step, e)
    ensures DInv(e)
  {
    SwitchSteps(d.s, e.s);
    LogNumbers(d);
    SwitchLogs(d, step, e);
    hide Inv, LogsBack;
    if d.applying.Some? {
      FlushNeedsImm(d.s, d.applying.value.a, d.applying.value.v);
      FinishAfterSwitch(d.s, e.s, d.applying.value.a, d.applying.value.v);
    }
    assert Recorded(e);
    hide Recorded, CanFinish;
    assert ManifestOk(e);
    TablesWider(d, e);
  }

  lemma FlushNeedsImm(s: State, a: Action, v: Version)
    requires CanFinish(s, a, v) && s.imm.None?
    ensures !IsFlush(a)
  {
  }

  // ---------------------------------------------------------------- quiet actions

  lemma QuietFrame(s: State, a: Action, t: State)
    requires (a.TakeSnapshot? || a.ReleaseSnapshot? || a.BeginCompaction? || a.OpenOutput? || a.Abandon?)
             && Does(s, a, t)
    ensures t.mem == s.mem && t.imm == s.imm && t.v == s.v && t.lastSeq == s.lastSeq && t.history == s.history
    ensures s.nextFile <= t.nextFile
    ensures a.TakeSnapshot? || a.ReleaseSnapshot? ==> t.running == s.running && t.nextFile == s.nextFile
    ensures a.BeginCompaction? ==> t.running.Some? && t.running.value.base == s.v && t.running.value.reserved == {}
    ensures a.OpenOutput? ==> && s.running.Some? && t.running.Some? && t.running.value.base == s.running.value.base
                              && t.running.value.reserved == s.running.value.reserved + {s.nextFile}
                                 && t.nextFile == s.nextFile + 1
    ensures a.Abandon? ==> t.running.None?
  {
  }

  lemma LogsFrame(d: DState, e: DState)
    requires LogsBack(d)
    requires e.disk.logs == d.disk.logs && e.logFile == d.logFile
             && e.logNumber == d.logNumber && e.inflight == d.inflight
    requires e.s.mem == d.s.mem && e.s.imm == d.s.imm && e.s.lastSeq == d.s.lastSeq && e.s.nextFile >= d.s.nextFile
    ensures LogsBack(e)
  {
    hide LogsOrdered, RecordsEnd, Entries, Older;
  }

  /** The current version's files have numbers that were given out and are not pending. */
  lemma CurrentGuarded(d: DState)
    requires Inv(d.s) && HasFiles(d.disk.tables, d.s.v)
    ensures Guarded(d.disk.tables, d.s.nextFile, Pending(d), d.s.v)
  {
    assert NumbersOk(d.s);
    hide VersionOk, MemoryOk, SequenceOk, RunningOk;
  }

  lemma QuietTables(d: DState, a: Action, e: DState)
    requires TablesKept(d) && IsQuiet(d, a) && Does(d.s, a, e.s) && e == d.(s := e.s)
    requires Inv(e.s)
    ensures TablesKept(e)
  {
    QuietFrame(d.s, a, e.s);
    CurrentGuarded(e);
    hide Inv, Does;
    if a.TakeSnapshot? || a.ReleaseSnapshot? {
      TablesFrame(d, e);
    } else {
      forall v | v in e.pinned + Held(e) ensures Guarded(e.disk.tables, e.s.nextFile, Pending(e), v) {
        assert v in d.pinned + Held(d) || v == d.s.v;
        hide HasFiles;
      }
    }
  }

  lemma QuietKeeps(d: DState, step: Step, e: DState)
    requires DInv(d) && step.Quiet? && Next(d, step, e)
    ensures DInv(e)
  {
    StepInv(d.s, step.a, e.s);
    QuietFrame(d.s, step.a, e.s);
    QuietTables(d, step.a, e);
    LogsFrame(d, e);
    hide Inv, LogsBack, TablesKept, Does;
    if d.applying.Some? {
      FinishLater(d.s, e.s, d.applying.value.a, d.applying.value.v);
    }
    assert Recorded(e);
    hide Recorded, CanFinish;
    ManifestFrame(d, e);
  }

  // ---------------------------------------------------------------- tables

  lemma WrittenGuarded(tables: map<nat, File>, nextFile: nat, pending: set<nat>, v: Version, f: File)
    requires Guarded(tables, nextFile, pending, v) && (f.number >= nextFile || f.number in pending)
    ensures Guarded(tables[f.number := f], nextFile, pending, v)
  {
    forall l, g | 0 <= l < NUM_LEVELS && g in v[l] ensures HasFile(tables[f.number := f], g) {
      assert HasFile(tables, g);
    }
  }

  lemma WriteKeeps(d: DState, step: Step, e: DState)
    requires DInv(d) && (step.WriteFlush? || step.WriteOutput?) && Next(d, step, e)
    ensures DInv(e)
  {
    LogsFrame(d, e);
    WriteTables(d, step, e);
    assert Recorded(e);
    hide Inv, LogsBack, TablesKept, Recorded, CanFinish;
    ManifestFrame(d, e);
  }

  lemma WriteTables(d: DState, step: Step, e: DState)
    requires TablesKept(d) && d.disk.version == d.s.v
    requires (step.WriteFlush? || step.WriteOutput?) && Next(d, step, e)
    ensures TablesKept(e)
  {
    var tables, n, pending := d.disk.tables, d.s.nextFile, Pending(d);
    WrittenGuarded(tables, n, pending, d.s.v, step.f);
    forall v | v in d.pinned + Held(d) ensures Guarded(e.disk.tables, n, pending, v) {
      WrittenGuarded(tables, n, pending, v, step.f);
    }
    hide HasFiles;
  }

  // ---------------------------------------------------------------- installing versions

  lemma PreparedFiles(d: DState, a: Action, t: State)
    requires Prepared(d, a) && Does(d.s, a, t) && HasFiles(d.disk.tables, d.s.v)
    requires FlushReady(d.disk.tables, d.s.nextFile, d.s.imm, d.flushing)
    ensures HasFiles(d.disk.tables, t.v)
  {
    forall l, f | 0 <= l < NUM_LEVELS && f in t.v[l] ensures HasFile(d.disk.tables, f) {
      NewFile(d.s, a, t, l, f);
    }
  }

  /** Where a file of the new version comes from. */
  lemma NewFile(s: State, a: Action, t: State, l: nat, f: File)
    requires Does(s, a, t) && (a.FlushTable? || a.FlushEmpty? || a.Install? || a.TrivialMove?)
    requires l < NUM_LEVELS && f in t.v[l]
    ensures (exists m :: 0 <= m < NUM_LEVELS && f in s.v[m])
            || (a.FlushTable? && f == a.f) || (a.Install? && f in a.outputs)
  {
    match a
    case FlushTable(p, g) =>
      hide FileOk, ClearThrough, SortedLevel;
      assert l == p || t.v[l] == s.v[l];
      assert f == g || f in s.v[l];
    case FlushEmpty =>
      assert f in s.v[l];
    case Install(_, outputs) =>
      ReplacedFile(s.v, t.v, s.running.value.inputs, outputs, l, f);
    case TrivialMove(inputs, lo, hi, allLo, allHi) =>
      ReplacedFile(s.v, t.v, inputs, inputs.lower, l, f);
      MovedFile(s.v, inputs, lo, hi, allLo, allHi, f);
  }

  lemma ReplacedFile(v: Version, v2: Version, inputs: Inputs, outputs: Level, l: nat, f: File)
    requires Replaced(v, v2, inputs, outputs) && l < NUM_LEVELS && f in v2[l]
    ensures f in v[l] || f in outputs
  {
  }

  lemma MovedFile(v: Version, inputs: Inputs, lo: IKey, hi: IKey, allLo: IKey, allHi: IKey, f: File)
    requires Selected(v, inputs, lo, hi, allLo, allHi)
    ensures inputs.level < NUM_LEVELS && (f in inputs.lower ==> f in v[inputs.level])
  {
  }

  /** What an installation does beside the version. */
  lemma InstallFrame(s: State, a: Action, t: State)
    requires Does(s, a, t) && (a.FlushTable? || a.FlushEmpty? || a.Install? || a.TrivialMove?)
    ensures t.mem == s.mem && t.lastSeq == s.lastSeq && t.history == s.history
    ensures t.nextFile == NextFile(s, a) >= s.nextFile
    ensures IsFlush(a) ==> s.imm.Some? && t.imm.None? && t.running == s.running
    ensures a.FlushEmpty? ==> s.imm == Some([])
    ensures a.FlushTable? ==> s.imm == Some(a.f.entries)
    ensures !IsFlush(a) ==> t.imm == s.imm && (t.running == s.running || t.running.None?)
  {
  }

  lemma AppendManifestOk(d: DState, a: Action, t: State, e: DState)
    requires Inv(d.s) && Inv(t) && LogsBack(d) && Does(d.s, a, t)
             && (a.FlushTable? || a.FlushEmpty? || a.Install? || a.TrivialMove?)
    requires e == d.(applying := Some(Applying(a, t.v)),
                     disk := d.disk.(version := t.v, logNumber := if IsFlush(a) then d.logFile else d.logNumber,
                                     nextFile := NextFile(d.s, a), lastSeq := d.s.lastSeq))
    ensures ManifestOk(e)
  {
    assert CanFinish(e.s, a, t.v);
    hide Inv, Does, CanFinish, LogsOrdered, RecordsEnd, Entries, Older;
    InstallFrame(d.s, a, t);
    VersionBelow(t);
    AppendRecorded(d, e);
    hide Recorded, Contents;
  }

  lemma AppendRecorded(d: DState, e: DState)
    requires Inv(d.s) && LogsBack(d)
    requires e.disk.lastSeq == d.s.lastSeq && e.s == d.s && e.inflight == d.inflight
    requires e.disk.logs == d.disk.logs && e.disk.logNumber <= d.logFile
    ensures Recorded(e)
  {
    EntriesBelow(d.s);
    InLogged(d.disk.logs, e.disk.logNumber, d.logFile);
    hide Inv, Entries, Logged, Older, LogsOrdered, RecordsEnd;
  }

  lemma VersionBelow(t: State)
    requires Inv(t)
    ensures forall e :: e in Contents(t.v) ==> e.seqno <= t.lastSeq
    ensures forall l, f :: 0 <= l < NUM_LEVELS && f in t.v[l] ==> f.number < t.nextFile
  {
    assert SequenceOk(t) && NumbersOk(t);
  }

  lemma EntriesBelow(s: State)
    requires Inv(s)
    ensures forall e :: e in s.history ==> e.seqno <= s.lastSeq
  {
    assert SequenceOk(s);
  }

  lemma AppendKeeps(d: DState, step: Step, e: DState)
    requires DInv(d) && step.AppendManifest? && Next(d, step, e)
    ensures DInv(e)
  {
    hide Inv, LogsBack, ManifestOk, Does, Guarded, AllGuarded, FlushReady;
    StepInv(d.s, step.a, step.t);
    AppendTables(d, step.a, step.t, e);
    AppendManifestOk(d, step.a, step.t, e);
    LogsFrame(d, e);
  }

  lemma AppendTables(d: DState, a: Action, t: State, e: DState)
    requires TablesKept(d) && Prepared(d, a) && Does(d.s, a, t)
    requires e.s == d.s && e.pinned == d.pinned && e.flushing == d.flushing
    requires e.disk.tables == d.disk.tables && e.disk.version == t.v
    ensures TablesKept(e)
  {
    hide Does;
    PreparedFiles(d, a, t);
    hide HasFiles, AllGuarded, FlushReady;
  }

  lemma FinishLogs(d: DState, e: DState)
    requires LogsBack(d) && d.applying.Some?
    requires d.disk.logNumber == if IsFlush(d.applying.value.a) then d.logFile else d.logNumber
    requires Does(d.s, d.applying.value.a, e.s)
    requires d.applying.value.a.FlushTable? || d.applying.value.a.FlushEmpty?
             || d.applying.value.a.Install? || d.applying.value.a.TrivialMove?
    requires e == d.(s := e.s, applying := None, flushing := None, logNumber := d.disk.logNumber)
    ensures LogsBack(e)
  {
    var a := d.applying.value.a;
    InstallFrame(d.s, a, e.s);
    hide Does;
    if IsFlush(a) {
      assert Older(d.disk.logs, d.logFile, d.logFile) == {};
      NarrowLogs(d.disk.logs, d.logNumber, d.logFile, End(d));
    }
    assert InFlight(e) == InFlight(d) && End(e) == End(d);
    hide LogsOrdered, RecordsEnd, Entries, Older;
  }

  lemma NarrowLogs(logs: map<nat, seq<Record>>, from: nat, to: nat, bound: nat)
    requires from <= to && LogsOrdered(logs, from) && RecordsEnd(logs, from, bound)
    ensures LogsOrdered(logs, to) && RecordsEnd(logs, to, bound)
  {
  }

  lemma FinishTables(d: DState, e: DState)
    requires TablesKept(d) && d.applying.Some? && Inv(e.s)
    requires d.disk.version == e.s.v && (e.s.running == d.s.running || e.s.running.None?)
             && d.s.nextFile <= e.s.nextFile
    requires e == d.(s := e.s, applying := None, flushing := None, logNumber := d.disk.logNumber)
    ensures TablesKept(e)
  {
    CurrentGuarded(e);
    hide Inv, HasFiles;
  }

  lemma FinishKeeps(d: DState, step: Step, e: DState)
    requires DInv(d) && step.FinishApply? && Next(d, step, e)
    ensures DInv(e)
  {
    hide Inv, LogsBack, TablesKept, ManifestOk, Does;
    FinishAll(d, e);
  }

  lemma FinishAll(d: DState, e: DState)
    requires Inv(d.s) && LogsBack(d) && ManifestOk(d) && TablesKept(d) && d.applying.Some?
    requires Does(d.s, d.applying.value.a, e.s) && e.s.v == d.applying.value.v
    requires e == d.(s := e.s, applying := None, flushing := None, logNumber := d.disk.logNumber)
    ensures Inv(e.s) && LogsBack(e) && ManifestOk(e) && TablesKept(e)
  {
    hide *;
    var a := d.applying.value.a;
    ApplyingFacts(d);
    StepInv(d.s, a, e.s);
    InstallFrame(d.s, a, e.s);
    FinishLogs(d, e);
    FinishTables(d, e);
    FinishManifest(d, e);
  }

  lemma ApplyingFacts(d: DState)
    requires ManifestOk(d) && d.applying.Some?
    ensures var a := d.applying.value.a;
            && (a.FlushTable? || a.FlushEmpty? || a.Install? || a.TrivialMove?)
            && d.disk.version == d.applying.value.v
            && d.disk.logNumber == (if IsFlush(a) then d.logFile else d.logNumber)
  {
  }

  lemma FinishManifest(d: DState, e: DState)
    requires ManifestOk(d) && d.applying.Some? && e.s.v == d.disk.version
    requires e.s.lastSeq == d.s.lastSeq && e.s.history == d.s.history
    requires e == d.(s := e.s, applying := None, flushing := None, logNumber := d.disk.logNumber)
    ensures ManifestOk(e)
  {
    assert Recorded(e);
    hide Recorded, CanFinish, Contents;
  }

  // ---------------------------------------------------------------- garbage collection

  lemma PinTables(d: DState, e: DState)
    requires TablesKept(d) && e == d.(pinned := e.pinned) && e.pinned <= d.pinned + {d.s.v}
    ensures TablesKept(e)
  {
    hide Guarded, HasFiles, FlushReady;
  }

  lemma PinKeeps(d: DState, step: Step, e: DState)
    requires DInv(d) && (step.Pin? || step.Unpin?) && Next(d, step, e)
    ensures DInv(e)
  {
    hide Inv, LogsBack, TablesKept, Recorded, CanFinish, Contents;
    LogsFrame(d, e);
    PinTables(d, e);
    assert Recorded(e) by {
      PinRecorded(d, e);
    }
    ManifestFrame(d, e);
  }

  lemma PinRecorded(d: DState, e: DState)
    requires Recorded(d) && e == d.(pinned := e.pinned)
    ensures Recorded(e)
  {
  }

  /** A collected state still has every table of a version that was protected. */
  lemma CollectedFiles(d: DState, e: DState, v: Version)
    requires Collected(d, e) && HasFiles(d.disk.tables, v)
    requires v == d.s.v || v in d.pinned + Held(d)
    ensures HasFiles(e.disk.tables, v)
  {
    forall l, f | 0 <= l < NUM_LEVELS && f in v[l] ensures HasFile(e.disk.tables, f) {
      assert HasFile(d.disk.tables, f) && NumberIn(v, f.number);
      assert LiveNumber(d, f.number);
    }
  }

  lemma CollectedLogs(d: DState, e: DState)
    requires LogsBack(d) && Collected(d, e)
    ensures LogsBack(e) && Logged(e.disk.logs, d.logNumber) == Logged(d.disk.logs, d.logNumber)
  {
    hide LiveNumber;
    OlderSame(d.disk.logs, e.disk.logs, d.logNumber, d.logFile);
    SameFrom(d.disk.logs, e.disk.logs, d.logNumber);
    FewerLogs(d.disk.logs, e.disk.logs, d.logNumber, End(d));
    hide LogsOrdered, RecordsEnd, Entries, Older;
  }

  lemma SameFrom(logs: map<nat, seq<Record>>, logs2: map<nat, seq<Record>>, from: nat)
    requires forall n :: from <= n ==> (n in logs <==> n in logs2) && (n in logs ==> logs2[n] == logs[n])
    ensures Logged(logs2, from) == Logged(logs, from)
  {
    hide Entries;
    forall e ensures e in Logged(logs2, from) <==> e in Logged(logs, from) {
      if e in Logged(logs2, from) {
        var n :| n in logs2 && from <= n && e in Entries(logs2[n]);
        assert n in logs && e in Entries(logs[n]);
      }
      if e in Logged(logs, from) {
        var n :| n in logs && from <= n && e in Entries(logs[n]);
        assert n in logs2 && e in Entries(logs2[n]);
      }
    }
  }

  lemma FewerLogs(logs: map<nat, seq<Record>>, logs2: map<nat, seq<Record>>, from: nat, bound: nat)
    requires forall n :: n in logs2 ==> n in logs && logs2[n] == logs[n]
    requires LogsOrdered(logs, from) && RecordsEnd(logs, from, bound)
    ensures LogsOrdered(logs2, from) && RecordsEnd(logs2, from, bound)
  {
  }

  lemma CollectKeeps(d: DState, step: Step, e: DState)
    requires DInv(d) && step.Collect? && Next(d, step, e)
    ensures DInv(e)
  {
    hide Next, Inv, LogsBack, TablesKept, Recorded, CanFinish, Collected;
    CollectParts(d, step, e);
    CollectedLogs(d, e);
    CollectedTables(d, e);
    CollectedRecorded(d, e);
    ManifestFrame(d, e);
  }

  lemma CollectParts(d: DState, step: Step, e: DState)
    requires step.Collect? && Next(d, step, e)
    ensures WorkerFree(d) && Collected(d, e)
    ensures e == d.(disk := d.disk.(tables := e.disk.tables, logs := e.disk.logs))
  {
  }

  lemma CollectedRecorded(d: DState, e: DState)
    requires Recorded(d) && d.disk.logNumber == d.logNumber
    requires e == d.(disk := d.disk.(tables := e.disk.tables, logs := e.disk.logs))
    requires Logged(e.disk.logs, d.logNumber) == Logged(d.disk.logs, d.logNumber)
    ensures Recorded(e)
  {
    hide Logged;
  }

  /** Collecting while the worker is free keeps every table that a version in use needs. */
  lemma CollectedTables(d: DState, e: DState)
    requires TablesKept(d) && WorkerFree(d) && d.disk.version == d.s.v && Collected(d, e)
    ensures TablesKept(e)
  {
    CollectedFiles(d, e, d.s.v);
    forall v | v in d.pinned + Held(d) ensures Guarded(e.disk.tables, e.s.nextFile, Pending(e), v) {
      assert Guarded(d.disk.tables, d.s.nextFile, Pending(d), v);
      CollectedFiles(d, e, v);
    }
    hide Collected, HasFiles;
  }

  /** Why the collector must not run while a flushed table waits for its installation: that table has
      left the pending outputs and is in no version yet. */
  lemma CollectingTooEarly(d: DState, e: DState)
    requires DInv(d) && d.flushing.Some? && d.applying.None? && Collected(d, e)
    ensures d.flushing.value.number !in e.disk.tables
  {
    var n := d.flushing.value.number;
    assert !LiveNumber(d, n) by {
      assert n == d.s.nextFile && NumbersOk(d.s);
      forall v | v in d.pinned + Held(d) ensures !NumberIn(v, n) {
        assert Guarded(d.disk.tables, d.s.nextFile, Pending(d), v);
      }
    }
  }

  // ---------------------------------------------------------------- crashes

  lemma LoggedParts(logs: map<nat, seq<Record>>, from: nat, logFile: nat)
    requires logFile in logs && from <= logFile && forall n :: n in logs ==> n <= logFile
    ensures Logged(logs, from) == Older(logs, from, logFile) + Entries(logs[logFile])
  {
    hide Entries;
    forall e ensures e in Logged(logs, from) <==> e in Older(logs, from, logFile) || e in Entries(logs[logFile]) {
      if e in Logged(logs, from) {
        var n :| n in logs && from <= n && e in Entries(logs[n]);
        assert n == logFile || n < logFile;
      }
      if e in Older(logs, from, logFile) {
        var n :| n in logs && from <= n < logFile && e in Entries(logs[n]);
        assert n in logs && from <= n;
      }
    }
  }

  /** The logs on disk hold exactly the memtables and the group in flight. */
  lemma LoggedIsMemory(d: DState)
    requires LogsBack(d)
    ensures Logged(d.disk.logs, d.logNumber) == d.s.Memory() + InFlight(d)
  {
    LoggedParts(d.disk.logs, d.logNumber, d.logFile);
  }

  lemma InFlightNewer(d: DState)
    requires Inv(d.s) && LogsBack(d)
    ensures forall e :: e in InFlight(d) ==> e.seqno > d.s.lastSeq
    ensures Distinct(InFlight(d) + d.s.history) && AllNewer(InFlight(d), d.s.history)
    ensures d.s.All() <= d.s.history && d.s.lastSeq < MAX_SEQ
  {
    assert SequenceOk(d.s);
    hide LogsOrdered, RecordsEnd, Entries, Older;
    if d.inflight.Some? {
      BatchFacts(d.inflight.value.ops, d.inflight.value.first, d.s.history);
      assert InFlight(d) + d.s.history == d.s.history + InFlight(d);
    } else {
      assert InFlight(d) + d.s.history == d.s.history;
    }
  }

  /** Between installations the disk is well-formed and holds what the store can read. */
  lemma DiskOfIdle(d: DState)
    requires DInv(d) && d.applying.None?
    ensures DiskOk(d.disk)
    ensures Contents(d.disk.version) + Logged(d.disk.logs, d.disk.logNumber) == d.s.All() + InFlight(d)
  {
    LoggedIsMemory(d);
    InFlightNewer(d);
    MemoryNewer(d.s);
    DiskVersion(d);
    hide Inv, TablesKept, RecordsEnd, LogsOrdered, Entries, Older, Recorded;
    assert AllNewer(Logged(d.disk.logs, d.disk.logNumber), Contents(d.s.v)) by {
      hide LogsBack, ManifestOk, InFlight, Logged;
    }
    assert d.s.All() + InFlight(d) == Contents(d.s.v) + (d.s.Memory() + InFlight(d));
  }

  lemma MemoryNewer(s: State)
    requires Inv(s)
    ensures AllNewer(s.Memory(), Contents(s.v)) && Contents(s.v) <= s.history && VersionOk(s.v)
  {
    assert MemoryOk(s) && SequenceOk(s);
  }

  lemma DiskVersion(d: DState)
    requires ManifestOk(d) && LogsBack(d) && d.applying.None?
    ensures d.disk.version == d.s.v && d.disk.logNumber == d.logNumber && LogsOrdered(d.disk.logs, d.disk.logNumber)
  {
  }

  /** The state in which a half-done installation is complete.  It has the same disk. */
  lemma Settle(d: DState) returns (e: DState)
    requires DInv(d)
    ensures DInv(e) && e.applying.None? && e.disk == d.disk && e.logFile == d.logFile
    ensures e.s.history == d.s.history && InFlight(e) == InFlight(d)
    ensures d.applying.None? ==> e == d
    ensures d.applying.Some? ==> Next(d, FinishApply, e)
  {
    if d.applying.None? {
      e := d;
    } else {
      hide Inv, LogsBack, ManifestOk, TablesKept, Does, Next;
      var t := Finishable(d);
      e := d.(s := t, applying := None, flushing := None, logNumber := d.disk.logNumber);
      FinishAll(d, e);
      FinishParts(d, e);
      FinishIsNext(d, e);
    }
  }

  lemma FinishIsNext(d: DState, e: DState)
    requires d.applying.Some? && Does(d.s, d.applying.value.a, e.s) && e.s.v == d.applying.value.v
    requires e == d.(s := e.s, applying := None, flushing := None, logNumber := d.disk.logNumber)
    ensures Next(d, FinishApply, e)
  {
    hide Does;
  }

  lemma Finishable(d: DState) returns (t: State)
    requires ManifestOk(d) && d.applying.Some?
    ensures Does(d.s, d.applying.value.a, t) && t.v == d.applying.value.v
  {
    hide Does;
    assert CanFinish(d.s, d.applying.value.a, d.applying.value.v);
    t :| Does(d.s, d.applying.value.a, t) && t.v == d.applying.value.v;
  }

  lemma FinishParts(d: DState, e: DState)
    requires ManifestOk(d) && d.applying.Some? && Does(d.s, d.applying.value.a, e.s)
    requires e == d.(s := e.s, applying := None, flushing := None, logNumber := d.disk.logNumber)
    ensures e.s.history == d.s.history && InFlight(e) == InFlight(d)
  {
    ApplyingFacts(d);
    InstallFrame(d.s, d.applying.value.a, e.s);
    hide Does, ManifestOk;
  }

  /** At every moment the disk can be recovered, and recovery finds exactly what the store holds, with
      a half-done installation completed, plus the group in flight. */
  lemma DiskAlwaysOk(d: DState) returns (e: DState)
    requires DInv(d)
    ensures DiskOk(d.disk)
    ensures DInv(e) && e.applying.None? && (d.applying.None? ==> e == d)
            && (d.applying.Some? ==> Next(d, FinishApply, e))
    ensures Contents(d.disk.version) + Logged(d.disk.logs, d.disk.logNumber) == e.s.All() + InFlight(d)
    ensures e.disk == d.disk && e.s.history == d.s.history && InFlight(e) == InFlight(d)
  {
    e := Settle(d);
    DiskOfIdle(e);
  }

  /** What reopening yields, in terms of the settled state before the crash. */
  lemma ReopenedVersion(d: DState, files: seq<File>, e: DState)
    requires DiskOk(d.disk) && Opened(d.disk, files, e.s.v, e.logFile, e.s.lastSeq)
    ensures VersionOk(e.s.v)
    ensures Contents(e.s.v) == Contents(d.disk.version) + Logged(d.disk.logs, d.disk.logNumber)
    ensures forall l, f :: 0 <= l < NUM_LEVELS && f in e.s.v[l] ==> f.number < e.logFile
  {
    RecoveredOk(d.disk, files, e.s.v, e.logFile);
  }

  lemma ReopenedSeq(d: DState, files: seq<File>, e: DState)
    requires Recorded(d) && Opened(d.disk, files, e.s.v, e.logFile, e.s.lastSeq)
    ensures forall x :: x in d.s.history + InFlight(d) ==> x.seqno <= e.s.lastSeq
  {
  }

  lemma FreshInv(s: State)
    requires s == State([], None, s.v, s.lastSeq, [], s.nextFile, None, s.history)
    requires VersionOk(s.v) && Contents(s.v) <= s.history && Distinct(s.history) && s.lastSeq < MAX_SEQ
    requires forall e :: e in s.history ==> e.seqno <= s.lastSeq
    requires forall l, f :: 0 <= l < NUM_LEVELS && f in s.v[l] ==> f.number < s.nextFile
    ensures Inv(s) && s.All() == Contents(s.v) && s.Floor() == s.lastSeq
  {
    hide VersionOk;
    assert Elems(s.mem) == {} && s.Imm() == {};
    assert s.All() == Contents(s.v);
  }

  lemma ReopenedTables(tables: map<nat, File>, disk: Disk, files: seq<File>,
                       w: Version, tables2: map<nat, File>, newLog: nat, lastSeq: nat)
    requires HasFiles(tables, disk.version) && AddedTables(tables, disk.nextFile, files, tables2)
    requires DiskOk(disk) && Opened(disk, files, w, newLog, lastSeq)
    ensures HasFiles(tables2, w)
  {
    assert LevelsOk(disk.version);
    RecoveredLevels(disk.version, files, w);
    hide DiskOk, LevelsOk;
    forall l, f | 0 <= l < NUM_LEVELS && f in w[l] ensures HasFile(tables2, f) {
      if l == 0 && f in files {
        var i :| 0 <= i < |files| && files[i] == f;
      } else {
        assert f in disk.version[l];
        assert HasFile(tables, f);
        OldNumbers(disk, l, f);
      }
    }
  }

  lemma OldNumbers(disk: Disk, l: nat, f: File)
    requires l < NUM_LEVELS && f in disk.version[l]
    ensures DiskOk(disk) ==> f.number < disk.nextFile
  {
  }

  lemma ReopenedLogs(d: DState, files: seq<File>, e: DState)
    requires LogsBack(d) && d.disk.logNumber <= d.logFile
    requires Opened(d.disk, files, e.s.v, e.logFile, e.s.lastSeq)
    requires AddedLogs(d.disk.logs, e.logFile, e.disk.logs) && e.logNumber == e.logFile && e.inflight.None?
    requires e.s.mem == [] && e.s.imm.None? && e.s.nextFile == e.logFile + 1
    ensures LogsBack(e)
  {
    assert d.logFile < e.logFile;
    assert Entries([]) == {} && Elems(e.s.mem) == {} && InFlight(e) == {};
    assert Older(e.disk.logs, e.logFile, e.logFile) == {};
    hide Opened;
  }

  lemma ReopenedManifest(d: DState, e: DState)
    requires e.applying.None? && e.disk.version == e.s.v && e.disk.logNumber == e.logNumber
    requires e.disk.lastSeq == e.s.lastSeq && e.inflight.None?
    requires forall x :: x in e.s.history ==> x.seqno <= e.s.lastSeq
    requires Contents(e.s.v) <= e.s.history
    requires forall l, f :: 0 <= l < NUM_LEVELS && f in e.s.v[l] ==> f.number < e.disk.nextFile
    ensures ManifestOk(e)
  {
    assert InFlight(e) == {};
    assert Recorded(e);
    hide Recorded;
  }

  lemma ReopenedTablesKept(e: DState)
    requires Inv(e.s) && HasFiles(e.disk.tables, e.s.v) && e.disk.version == e.s.v
    requires e.pinned == {} && e.s.running.None? && e.flushing.None?
    ensures TablesKept(e)
  {
    CurrentGuarded(e);
    hide Inv, HasFiles;
  }

  lemma ReopenedParts(d: DState, files: seq<File>, e: DState)
    requires ReopenedWith(d, files, e)
    ensures e.s.snapshots == [] && e.s.history == d.s.history + InFlight(d)
  {
  }

  lemma CrashKeepsWith(d: DState, files: seq<File>, m: DState, e: DState)
    requires DInv(d) && DiskOk(d.disk) && ReopenedWith(d, files, e)
    requires Contents(d.disk.version) + Logged(d.disk.logs, d.disk.logNumber) == m.s.All() + InFlight(d)
    requires Inv(m.s) && m.s.history == d.s.history
    ensures DInv(e) && e.s.All() == m.s.All() + InFlight(d)
  {
    hide Inv, LogsBack, TablesKept, DiskOk, Logged, Contents, Opened, AddedTables, ManifestOk;
    LogNumbers(d);
    InFlightNewer(d);
    HistoryHas(m.s);
    ReopenedVersion(d, files, e);
    RecordedOf(d);
    hide Recorded;
    ReopenedSeq(d, files, e);
    assert Contents(e.s.v) == m.s.All() + InFlight(d);
    assert InFlight(d) + d.s.history == e.s.history;
    hide InFlight;
    OpenedSeq(d.disk, files, e.s.v, e.logFile, e.s.lastSeq);
    FreshInv(e.s);
    KeptFiles(d);
    ReopenedTables(d.disk.tables, d.disk, files, e.s.v, e.disk.tables, e.logFile, e.s.lastSeq);
    ReopenedLogs(d, files, e);
    ReopenedManifest(d, e);
    ReopenedTablesKept(e);
  }

  lemma RecordedOf(d: DState)
    ensures ManifestOk(d) ==> Recorded(d)
  {
  }

  lemma KeptFiles(d: DState)
    ensures TablesKept(d) ==> HasFiles(d.disk.tables, d.disk.version)
  {
  }

  lemma OpenedSeq(disk: Disk, files: seq<File>, w: Version, newLog: nat, lastSeq: nat)
    ensures Opened(disk, files, w, newLog, lastSeq) ==> lastSeq < MAX_SEQ
  {
  }

  lemma HistoryHas(s: State)
    requires Inv(s)
    ensures s.All() <= s.history
  {
    assert SequenceOk(s);
  }

  lemma ReopenedFiles(d: DState, step: Step, e: DState) returns (files: seq<File>)
    requires step.Crash? && Next(d, step, e)
    ensures ReopenedWith(d, files, e)
  {
    assert Reopened(d, e);
    hide ReopenedWith;
    files :| ReopenedWith(d, files, e);
  }

  /** A crash, any number of openings that are cut short, and one that is not are together one crash with its
      reopening, and the disk could be opened all along. */
  lemma InterruptedReopens(d: DState, disks: seq<Disk>, files: seq<File>, e: DState)
    requires DInv(d) && Openings(disks) && disks[0] == d.disk
    requires ReopenedWith(d.(disk := disks[|disks| - 1]), files, e)
    ensures Next(d, Crash, e)
    ensures forall i :: 0 <= i < |disks| ==> DiskOk(disks[i])
  {
    hide DInv, DiskOk, Leftover, ReopenedWith, LogsBack, Opening;
    var m := DiskAlwaysOk(d);
    forall i | 0 <= i < |disks| ensures Leftover(d.disk, disks[i]) && DiskOk(disks[i]) {
      OpeningsLeave(disks[..i + 1]);
      LeftoverOk(d.disk, disks[i]);
    }
    LeftoverReopens(d, disks[|disks| - 1], files, e);
  }

  lemma LeftoverReopens(d: DState, after: Disk, files: seq<File>, e: DState)
    requires DInv(d) && Leftover(d.disk, after) && ReopenedWith(d.(disk := after), files, e)
    ensures Next(d, Crash, e)
  {
    hide DInv, Leftover, ReopenedWith, LogsBack, ManifestOk, Inv, TablesKept;
    InvOf(d);
    ManifestOf(d);
    LogNumbers(d);
    LogsAreOld(d);
    SameReopening(d, after, files, e);
    assert Reopened(d, e);
  }

  lemma ManifestOf(d: DState)
    ensures DInv(d) ==> ManifestOk(d)
  {
    hide Inv, LogsBack, ManifestOk, TablesKept;
  }

  lemma LogsAreOld(d: DState)
    ensures LogsBack(d) ==> forall n :: n in d.disk.logs ==> n <= d.logFile
  {
    hide Entries, Older, LogsOrdered, RecordsEnd, InFlight;
  }

  lemma SameReopening(d: DState, after: Disk, files: seq<File>, e: DState)
    requires Leftover(d.disk, after) && ReopenedWith(d.(disk := after), files, e)
    requires d.logFile in d.disk.logs && d.disk.logNumber <= d.logFile
    requires forall n :: n in d.disk.logs ==> n <= d.logFile
    ensures ReopenedWith(d, files, e)
  {
    SameLogs(d.disk, after);
    hide TablesOk, Distinct, Below, Builders.EditedTo, Logged, EntriesOf;
    assert InFlight(d) == InFlight(d.(disk := after));
    assert d.logFile < e.logFile;
    assert AddedTables(d.disk.tables, d.disk.nextFile, files, e.disk.tables);
    assert AddedLogs(d.disk.logs, e.logFile, e.disk.logs);
  }

  /** Reopening after a crash keeps the invariant, and the store then holds what the settled state held
      plus the group in flight. */
  lemma CrashKeeps(d: DState, step: Step, e: DState) returns (m: DState)
    requires DInv(d) && step.Crash? && Next(d, step, e)
    ensures DInv(e) && e.s.All() == m.s.All() + InFlight(d) && e.s.history == d.s.history + InFlight(d)
    ensures DInv(m) && m.s.history == d.s.history && InFlight(m) == InFlight(d)
    ensures (d.applying.None? ==> m == d) && (d.applying.Some? ==> Next(d, FinishApply, m))
    ensures e.s.snapshots == [] && forall x :: x in e.s.history ==> x.seqno <= e.s.lastSeq
  {
    m := DiskAlwaysOk(d);
    var files := ReopenedFiles(d, step, e);
    assert Inv(m.s);
    hide Inv, DiskOk, ReopenedWith, Next;
    CrashKeepsWith(d, files, m, e);
    ReopenedParts(d, files, e);
    EntriesBelow(e.s);
  }

  // ---------------------------------------------------------------- every step, every run

  lemma StepKeeps(d: DState, step: Step, e: DState)
    requires DInv(d) && Next(d, step, e)
    ensures DInv(e)
  {
    hide DInv, Next;
    match step {
      case LogGroup(_) => LogGroupKeeps(d, step, e);
      case Commit => CommitKeeps(d, step, e);
      case SwitchLog => SwitchKeeps(d, step, e);
      case Quiet(_) => QuietKeeps(d, step, e);
      case WriteFlush(_) => WriteKeeps(d, step, e);
      case WriteOutput(_) => WriteKeeps(d, step, e);
      case AppendManifest(_, _) => AppendKeeps(d, step, e);
      case FinishApply => FinishKeeps(d, step, e);
      case Pin => PinKeeps(d, step, e);
      case Unpin(_) => PinKeeps(d, step, e);
      case Collect => CollectKeeps(d, step, e);
      case Crash => var m := CrashKeeps(d, step, e);
    }
  }

  // ---------------------------------------------------------------- reads across crashes

  /** Once a reader sees everything, a later sequence number shows nothing more. */
  lemma ReadBeyond(E: set<Entry>, k: UserKey, q: nat, later: nat)
    requires Distinct(E) && q <= later && forall e :: e in E ==> e.seqno <= q
    ensures Read(E, k, later) == Read(E, k, q)
  {
    ReadCases(E, k, q);
    ReadCases(E, k, later);
    assert forall d :: Visible(E, k, q, d) <==> Visible(E, k, later, d);
    if exists d :: Visible(E, k, q, d) {
      var e :| Newest(E, k, q, e) && Read(E, k, q) == e.op.Result();
      assert Newest(E, k, later, e);
      ReadOf(E, k, later, e);
    }
  }

  /** Adding newest entries hides a disagreement about their keys and no other. */
  lemma NewestHide(E: set<Entry>, H: set<Entry>, N: set<Entry>, k: UserKey, q: nat)
    requires E <= H && Distinct(N + H) && AllNewer(N, H) && forall x :: x in N + H ==> x.seqno <= q
    ensures Read(N + E, k, q) == Read(N + H, k, q) <==> Writes(N, k) || Read(E, k, q) == Read(H, k, q)
  {
    assert N + E <= N + H && AllNewer(N, E) && Distinct(N + E);
    hide AllNewer, Distinct, Read;
    ReadSplit(N, E, k, q);
    ReadSplit(N, H, k, q);
    assert Writes(N, k) <==> exists d :: Visible(N, k, q, d) by {
      if x :| x in N && x.key == k {
        assert Visible(N, k, q, x);
      }
    }
  }

  ghost predicate Writes(N: set<Entry>, k: UserKey) {
    exists x :: x in N && x.key == k
  }

  /** What a crash must not do to a reader: expose a value of a key, unless the group in flight wrote the
      key anew. */
  ghost predicate CrashPermitted(d: DState, a: Action) {
    forall k :: ExposesKey(d.s, a, d.s.lastSeq, k) ==> Writes(InFlight(d), k)
  }

  /** The condition on the step that completes an installation: while the store runs, every reader that may
      still ask counts; after a crash, only reads of everything do. */
  ghost predicate Permitted(d: DState, step: Step) {
    && (step.FinishApply? && d.applying.Some? ==> Unexposed(d.s, d.applying.value.a))
    && (step.Crash? && d.applying.Some? ==> CrashPermitted(d, d.applying.value.a))
  }

  /** All sequence numbers from which everything is seen read alike. */
  lemma SeesEverything(E: set<Entry>, k: UserKey, p: nat, q: nat)
    requires Distinct(E) && forall e :: e in E ==> e.seqno <= p && e.seqno <= q
    ensures Read(E, k, p) == Read(E, k, q)
  {
    if p <= q {
      ReadBeyond(E, k, p, q);
    } else {
      ReadBeyond(E, k, q, p);
    }
  }

  /** Completing the installation before the crash changes the read of a key exactly when it exposes it. */
  lemma SettledRead(d: DState, m: DState, k: UserKey)
    requires DInv(d)
    requires (d.applying.None? ==> m == d) && (d.applying.Some? ==> Next(d, FinishApply, m))
    ensures Read(m.s.All(), k, d.s.lastSeq) == Read(d.s.All(), k, d.s.lastSeq) <==>
            (d.applying.Some? ==> !ExposesKey(d.s, d.applying.value.a, d.s.lastSeq, k))
  {
    hide DInv, Inv, Does, Read, ExposesKey, Unexposed;
    InvOf(d);
    LastSeen(d.s);
    if d.applying.Some? {
      ApplyingParts(d);
      MaintenanceReadIff(d.s, d.applying.value.a, m.s, k, d.s.lastSeq);
    }
  }

  lemma SwitchSound(s: State, t: State)
    requires Sound(s) && s.imm.None? && t == s.(mem := [], imm := Some(s.mem), nextFile := s.nextFile + 1)
    ensures Sound(t)
  {
    hide Sound;
    var m := s.(mem := [], imm := Some(s.mem));
    NothingInstalled(s, SwitchMemTable);
    NothingInstalled(m, TakeNumber);
    StepSound(s, SwitchMemTable, m);
    StepSound(m, TakeNumber, t);
  }

  lemma LastSeen(s: State)
    requires Inv(s)
    ensures s.Floor() <= s.lastSeq && s.All() <= s.history && Distinct(s.history)
    ensures forall x :: x in s.history ==> x.seqno <= s.lastSeq
  {
  }

  lemma ApplyingParts(d: DState)
    requires DInv(d) && d.applying.Some?
    ensures !d.applying.value.a.Write?
  {
    ApplyingFacts(d);
  }

  /** Key by key: what a crash makes of a read. */
  lemma CrashReadIff(d: DState, m: DState, e: DState, k: UserKey, q: nat)
    requires DInv(d) && DInv(m) && ReadsOk(d.s)
    requires (d.applying.None? ==> m == d) && (d.applying.Some? ==> Next(d, FinishApply, m))
    requires m.s.history == d.s.history && InFlight(m) == InFlight(d)
    requires e.s.All() == m.s.All() + InFlight(d) && e.s.history == d.s.history + InFlight(d)
    requires q >= e.s.lastSeq && forall x :: x in e.s.history ==> x.seqno <= e.s.lastSeq
    ensures Read(e.s.All(), k, q) == Read(e.s.history, k, q) <==>
            (d.applying.Some? && ExposesKey(d.s, d.applying.value.a, d.s.lastSeq, k) ==> Writes(InFlight(d), k))
  {
    hide DInv, Inv, Next, Does, Read, ExposesKey, Distinct, AllNewer, Writes;
    InvOf(d);
    LastSeen(d.s);
    CrashFacts(m);
    SettledRead(d, m, k);
    LastRead(d.s, k);
    var E, H, N, l := m.s.All(), d.s.history, InFlight(d), d.s.lastSeq;
    assert e.s.All() == N + E && e.s.history == N + H;
    HiddenByNewest(E, d.s.All(), H, N, k, q, l);
  }

  lemma LastRead(s: State, k: UserKey)
    requires ReadsOk(s) && s.Floor() <= s.lastSeq
    ensures Read(s.All(), k, s.lastSeq) == Read(s.history, k, s.lastSeq)
  {
  }

  /** `was` read right; what is left of it and the newest entries do if the change does not show. */
  lemma HiddenByNewest(E: set<Entry>, was: set<Entry>, H: set<Entry>, N: set<Entry>, k: UserKey, q: nat, l: nat)
    requires E <= H && Distinct(N + H) && AllNewer(N, H) && forall x :: x in N + H ==> x.seqno <= q
    requires Read(was, k, l) == Read(H, k, l) && forall x :: x in H ==> x.seqno <= l
    ensures Read(N + E, k, q) == Read(N + H, k, q) <==> Writes(N, k) || Read(E, k, l) == Read(was, k, l)
  {
    assert Distinct(H) && Distinct(E);
    hide Read, Writes, Distinct, AllNewer;
    NewestHide(E, H, N, k, q);
    SeesEverything(E, k, q, l);
    SeesEverything(H, k, q, l);
  }

  lemma CrashReadsIff(d: DState, m: DState, e: DState)
    requires DInv(d) && DInv(m) && ReadsOk(d.s)
    requires (d.applying.None? ==> m == d) && (d.applying.Some? ==> Next(d, FinishApply, m))
    requires m.s.history == d.s.history && InFlight(m) == InFlight(d)
    requires e.s.All() == m.s.All() + InFlight(d) && e.s.history == d.s.history + InFlight(d)
    requires e.s.snapshots == [] && forall x :: x in e.s.history ==> x.seqno <= e.s.lastSeq
    ensures ReadsOk(e.s) <==> (d.applying.Some? ==> CrashPermitted(d, d.applying.value.a))
  {
    hide DInv, Next, ExposesKey, Writes, Read;
    var f := e.s.lastSeq;
    assert e.s.Floor() == f;
    forall k, q | q >= f
      ensures Read(e.s.All(), k, q) == Read(e.s.history, k, q) <==>
              (d.applying.Some? && ExposesKey(d.s, d.applying.value.a, d.s.lastSeq, k) ==> Writes(InFlight(d), k))
    {
      CrashReadIff(d, m, e, k, q);
    }
    forall k | ReadsOk(e.s) && d.applying.Some? && ExposesKey(d.s, d.applying.value.a, d.s.lastSeq, k)
      ensures Writes(InFlight(d), k)
    {
      assert Read(e.s.All(), k, f) == Read(e.s.history, k, f);
    }
  }

  /** Reads are right after a crash exactly when the crash was permitted. */
  lemma CrashSound(d: DState, step: Step, e: DState)
    requires DInv(d) && Sound(d.s) && step.Crash? && Next(d, step, e)
    ensures Sound(e.s) <==> Permitted(d, step)
  {
    hide DInv, Next, Sound, CrashPermitted, Unexposed, ReadsOk, Inv;
    var m := CrashKeeps(d, step, e);
    SoundParts(d.s);
    CrashReadsIff(d, m, e);
    InvOf(e);
    SoundParts(e.s);
    MakeSound(e.s);
  }

  lemma SoundParts(s: State)
    ensures Sound(s) ==> ReadsOk(s) && Inv(s)
  {
  }

  lemma MakeSound(s: State)
    ensures Inv(s) && ReadsOk(s) ==> Sound(s)
  {
  }

  lemma InvOf(d: DState)
    ensures DInv(d) ==> Inv(d.s) && LogsBack(d)
  {
  }

  lemma CrashFacts(m: DState)
    requires DInv(m)
    ensures m.s.All() <= m.s.history && Distinct(InFlight(m) + m.s.history) && AllNewer(InFlight(m), m.s.history)
  {
    InFlightNewer(m);
  }

  /** A step, be it a crash, keeps the store answering reads from what has been written exactly when it is
      permitted. */
  lemma StepReadsSound(d: DState, step: Step, e: DState)
    requires DInv(d) && Sound(d.s) && Next(d, step, e)
    ensures Sound(e.s) <==> Permitted(d, step)
  {
    hide DInv, Sound, Does, Unexposed, Reopened, Collected, Prepared;
    match step {
      case Commit =>
        NothingInstalled(d.s, Action.Write(d.inflight.value.ops));
        StepSound(d.s, Action.Write(d.inflight.value.ops), e.s);
      case SwitchLog => SwitchSound(d.s, e.s);
      case Quiet(a) =>
        NothingInstalled(d.s, a);
        StepSound(d.s, a, e.s);
      case FinishApply =>
        StepSound(d.s, d.applying.value.a, e.s);
        StepUnexposed(d, e);
      case Crash => CrashSound(d, step, e);
      case _ =>
        hide LiveNumber;
        assert e.s == d.s by { SameState(d, step, e); }
    }
  }

  lemma StepUnexposed(d: DState, e: DState)
    requires d.applying.Some? && Next(d, FinishApply, e)
    ensures Sound(d.s) && Sound(e.s) ==> Unexposed(d.s, d.applying.value.a)
  {
    SoundParts(d.s);
    SoundParts(e.s);
    hide Sound, Inv, Does, Unexposed, ReadsOk;
    if Sound(d.s) && Sound(e.s) {
      BothReadsOk(d.s, d.applying.value.a, e.s);
    }
  }

  lemma NothingInstalled(s: State, a: Action)
    ensures !a.Install? ==> Unexposed(s, a) && forall q, k :: !ExposesKey(s, a, q, k)
  {
  }

  lemma SameState(d: DState, step: Step, e: DState)
    requires Next(d, step, e)
    requires !step.Commit? && !step.SwitchLog? && !step.Quiet? && !step.FinishApply? && !step.Crash?
    ensures e.s == d.s
  {
    hide Does, Prepared, HasFiles, LiveNumber;
  }

  /** A new store: an empty version, one empty log, a manifest that names it. */
  ghost predicate DInit(d: DState) {
    && Init(d.s) && d.logFile < d.s.nextFile
    && d == DState(d.s, Disk(map[d.logFile := []], map[], d.s.v, d.logFile, d.s.nextFile, 0),
       d.logFile, d.logFile, None, None, None, {})
  }

  lemma InitKeeps(d: DState)
    requires DInit(d)
    ensures DInv(d) && Sound(d.s)
  {
    InitInv(d.s);
    assert Entries([]) == {} && InFlight(d) == {} && Elems(d.s.mem) == {};
    assert Older(d.disk.logs, d.logFile, d.logFile) == {};
    assert LogsBack(d);
    EmptyVersionOk(d.s.v);
    assert ManifestOk(d);
    assert TablesKept(d);
  }

  ghost predicate DRun(states: seq<DState>, steps: seq<Step>) {
    && |states| == |steps| + 1
    && DInit(states[0])
    && forall i :: 0 <= i < |steps| ==> Next(states[i], steps[i], states[i + 1])
  }

  /** In every state of every run, whatever crashed before: tables in use exist, the logs back the
      memory, and the disk can be recovered. */
  lemma {:induction false} RunKeeps(states: seq<DState>, steps: seq<Step>, n: nat)
    requires DRun(states, steps) && n < |states|
    ensures DInv(states[n])
  {
    hide DInv, Next, DInit;
    if n == 0 {
      InitKeeps(states[0]);
    } else {
      RunKeeps(states, steps, n - 1);
      StepKeeps(states[n - 1], steps[n - 1], states[n]);
    }
  }

  /** In every such state reads are answered from everything that was ever acknowledged, and from at
      most one unacknowledged group per crash. */
  lemma {:induction false} RunSoundAcrossCrashes(states: seq<DState>, steps: seq<Step>, n: nat)
    requires DRun(states, steps) && n < |states|
    requires forall i :: 0 <= i < n ==> Permitted(states[i], steps[i])
    ensures Sound(states[n].s)
  {
    hide DInv, Next, DInit, Sound, Permitted;
    if n == 0 {
      InitKeeps(states[0]);
    } else {
      RunSoundAcrossCrashes(states, steps, n - 1);
      RunKeeps(states, steps, n - 1);
      StepReadsSound(states[n - 1], steps[n - 1], states[n]);
    }
  }

  ghost predicate AllSound(states: seq<DState>) {
    forall n :: 0 <= n < |states| ==> Sound(states[n].s)
  }

  ghost predicate AllPermitted(states: seq<DState>, steps: seq<Step>)
    requires |states| == |steps| + 1
  {
    forall i :: 0 <= i < |steps| ==> Permitted(states[i], steps[i])
  }

  /** A run, with all its crashes, answers every read right exactly when none of its installations exposes
      anything. */
  lemma RunSoundIff(states: seq<DState>, steps: seq<Step>)
    requires DRun(states, steps)
    ensures AllSound(states) <==> AllPermitted(states, steps)
  {
    hide DInv, Next, DInit, Sound, Permitted;
    if AllPermitted(states, steps) {
      forall n | 0 <= n < |states| ensures Sound(states[n].s) {
        RunSoundAcrossCrashes(states, steps, n);
      }
    }
    if AllSound(states) {
      forall i | 0 <= i < |steps| ensures Permitted(states[i], steps[i]) {
        RunKeeps(states, steps, i);
        StepReadsSound(states[i], steps[i], states[i + 1]);
      }
    }
  }

  /** A crash loses nothing: every later read is answered from all acknowledged writes and the group in
      flight, exactly when the crash was permitted, and the store reads all their sequence numbers. */
  lemma CrashLosesNothing(d: DState, step: Step, e: DState)
    requires DInv(d) && Sound(d.s) && step.Crash? && Next(d, step, e)
    ensures (forall k, q :: q >= e.s.lastSeq ==> Read(e.s.All(), k, q) == Read(d.s.history + InFlight(d), k, q))
            <==> Permitted(d, step)
    ensures forall x :: x in d.s.history + InFlight(d) ==> x.seqno <= e.s.lastSeq
  {
    hide DInv, Next, Sound, Permitted, Read, Inv;
    CrashSound(d, step, e);
    SoundParts(e.s);
    MakeSound(e.s);
    var m := CrashKeeps(d, step, e);
    InvOf(e);
    assert e.s.Floor() == e.s.lastSeq;
  }

  /** The reopened store holds exactly what the settled store held and the group in flight. */
  lemma CrashContents(d: DState, step: Step, e: DState) returns (m: DState)
    requires DInv(d) && step.Crash? && Next(d, step, e)
    ensures (d.applying.None? ==> m == d) && (d.applying.Some? ==> Next(d, FinishApply, m))
    ensures e.s.All() == m.s.All() + InFlight(d)
  {
    hide DInv, Next;
    m := CrashKeeps(d, step, e);
  }
}
