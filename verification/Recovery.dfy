/** Opening a store from its manifest and logs. */
module Recovery {
  import opened Keys
  import opened Versions
  import opened Lsm
  import opened MemTables
  import Builders

  // ---------------------------------------------------------------- what is on disk

  /** A log record: a group of writes under consecutive sequence numbers. */
  datatype Rec = Rec(first: nat, ops: seq<(UserKey, Op)>)
  {
    function Next(): nat { first + |ops| }
  }

  type Record = r: Rec | 1 <= r.first && r.Next() <= MAX_SEQ witness Rec(1, [])

  ghost function Entries(records: seq<Record>): set<Entry> {
    set r, e | r in records && e in BatchEntries(r.ops, r.first) :: e
  }

  /** The entries in the logs numbered `from` and above. */
  ghost function Logged(logs: map<nat, seq<Record>>, from: nat): set<Entry> {
    set n, e | n in logs && from <= n && e in Entries(logs[n]) :: e
  }

  /** What survives a crash of the process: the logs, the tables, and what the manifest says. */
  datatype Disk = Disk(logs: map<nat, seq<Record>>, tables: map<nat, File>, version: Version,
                       logNumber: nat, nextFile: nat, lastSeq: nat)

  ghost predicate Increasing(records: seq<Record>) {
    forall i, j :: 0 <= i < j < |records| ==> records[i].Next() <= records[j].first
  }

  /** Later logs hold later records. */
  ghost predicate LogsOrdered(logs: map<nat, seq<Record>>, from: nat) {
    && (forall n :: n in logs && from <= n ==> Increasing(logs[n]))
    && (forall m, n :: m in logs && n in logs && from <= m < n ==> AllEarlier(logs[m], logs[n]))
  }

  ghost predicate AllEarlier(older: seq<Record>, newer: seq<Record>) {
    forall a, b :: a in older && b in newer ==> a.Next() <= b.first
  }

  /** The logs that recovery replays are newer than the tables, and the file numbers are in step. */
  ghost predicate DiskOk(d: Disk) {
    && VersionOk(d.version)
    && LogsOrdered(d.logs, d.logNumber)
    && AllNewer(Logged(d.logs, d.logNumber), Contents(d.version))
    && (forall e :: e in Contents(d.version) ==> e.seqno <= d.lastSeq)
    && d.lastSeq < MAX_SEQ
    && (forall l, f :: 0 <= l < NUM_LEVELS && f in d.version[l] ==> f.number < d.nextFile)
  }

  // ---------------------------------------------------------------- tables made while replaying

  /** All of `A` was written before all of `B`. */
  ghost predicate Before(A: set<Entry>, B: set<Entry>) {
    forall a, b :: a in A && b in B ==> a.seqno < b.seqno
  }

  ghost predicate Below(A: set<Entry>, bound: nat) {
    forall a :: a in A ==> a.seqno < bound
  }

  /** The new level-0 tables, oldest first, with increasing numbers below `next`. */
  ghost predicate TablesOk(files: seq<File>, start: nat, next: nat) {
    && (forall i :: 0 <= i < |files| ==> FileOk(files[i]) && start <= files[i].number < next)
    && (forall i, j :: 0 <= i < j < |files| ==> files[i].number < files[j].number)
    && (forall i, j :: 0 <= i < j < |files| ==> Before(Elems(files[i].entries), Elems(files[j].entries)))
  }

  /** The replay so far: `done` has been read, it sits in the new tables and the current memtable, and
      all of it lies below `bound`. */
  ghost predicate Replayed(files: seq<File>, mem: seq<Entry>, done: set<Entry>,
                           bound: nat, start: nat, next: nat, maxSeq: nat) {
    && start <= next && TablesOk(files, start, next)
    && Sorted(mem)
    && EntriesOf(files) + Elems(mem) == done
    && Before(EntriesOf(files), Elems(mem))
    && Below(done, bound) && Below(done, maxSeq + 1) && maxSeq < MAX_SEQ
    && Distinct(done)
  }

  lemma FileEntries(files: seq<File>, i: nat)
    requires i < |files|
    ensures Elems(files[i].entries) <= EntriesOf(files)
  {
    assert files[i] in files;
  }

  lemma AppendFile(files: seq<File>, f: File)
    ensures EntriesOf(files + [f]) == EntriesOf(files) + Elems(f.entries)
  {
    forall e ensures e in EntriesOf(files + [f]) <==> e in EntriesOf(files) + Elems(f.entries) {
      if e in Elems(f.entries) {
        assert f in files + [f];
      }
    }
  }

  /** WriteLevel0Table without a base version: the table goes to level 0; an empty memtable leaves no
      table. */
  method WriteTable(files: seq<File>, mem: seq<Entry>, next: nat, ghost done: set<Entry>, ghost bound: nat,
                    ghost start: nat, ghost maxSeq: nat)
    returns (files2: seq<File>, next2: nat)
    requires Replayed(files, mem, done, bound, start, next, maxSeq)
    ensures Replayed(files2, [], done, bound, start, next2, maxSeq) && next <= next2
  {
    files2, next2 := files, next + 1;
    if mem != [] {
      var f := BuildTable(mem, next);
      files2 := files + [f];
      TableAdded(files, f, mem, done, bound, start, next, maxSeq);
    } else {
      assert Elems(mem) == {};
    }
  }

  lemma TableAdded(files: seq<File>, f: File, mem: seq<Entry>,
                   done: set<Entry>, bound: nat, start: nat, next: nat, maxSeq: nat)
    requires Replayed(files, mem, done, bound, start, next, maxSeq)
    requires FileOk(f) && f.entries == mem && f.number == next
    ensures Replayed(files + [f], [], done, bound, start, next + 1, maxSeq)
  {
    hide FileOk, Distinct, Below;
    AppendFile(files, f);
    var all := files + [f];
    forall i, j | 0 <= i < j < |all| ensures Before(Elems(all[i].entries), Elems(all[j].entries)) {
      FileEntries(files, i);
    }
    assert Elems([]) == {};
  }

  /** Replays one record into the memtable. */
  lemma ReplayRecord(files: seq<File>, mem: seq<Entry>, mem2: seq<Entry>, done: set<Entry>, bound: nat, start: nat,
                     next: nat, maxSeq: nat, maxSeq2: nat, r: Record)
    requires Replayed(files, mem, done, bound, start, next, maxSeq) && bound <= r.first
    requires Sorted(mem2) && Elems(mem2) == Elems(mem) + BatchEntries(r.ops, r.first)
    requires maxSeq <= maxSeq2 && r.Next() - 1 <= maxSeq2 < MAX_SEQ
    ensures Replayed(files, mem2, done + BatchEntries(r.ops, r.first), r.Next(), start, next, maxSeq2)
  {
    BatchFacts(r.ops, r.first, done);
  }

  lemma EntriesStep(records: seq<Record>, i: nat)
    requires i < |records|
    ensures Entries(records[..i + 1]) == Entries(records[..i]) + BatchEntries(records[i].ops, records[i].first)
  {
    var A, B, N := Entries(records[..i + 1]), Entries(records[..i]), BatchEntries(records[i].ops, records[i].first);
    assert records[..i + 1] == records[..i] + [records[i]];
    forall e ensures e in A <==> e in B || e in N {
      if e in N {
        assert records[i] in records[..i + 1];
      }
    }
  }

  /** The sequence number after the records, if there are any. */
  ghost function NextAfter(records: seq<Record>, bound: nat): nat {
    if records == [] then bound else records[|records| - 1].Next()
  }

  ghost predicate StartsAfter(records: seq<Record>, bound: nat) {
    forall i :: 0 <= i < |records| ==> bound <= records[i].first
  }

  /** Replays one record, and writes a table if the memtable is full. */
  method ReplayOne(r: Record, files: seq<File>, mem: seq<Entry>, next: nat, maxSeq: nat, ghost done: set<Entry>,
                   ghost bound: nat, ghost start: nat)
    returns (files2: seq<File>, mem2: Option<seq<Entry>>, next2: nat, maxSeq2: nat)
    requires Replayed(files, mem, done, bound, start, next, maxSeq) && bound <= r.first
    ensures Replayed(files2, if mem2.Some? then mem2.value else [], done + BatchEntries(r.ops, r.first),
                     r.Next(), start, next2, maxSeq2)
    ensures maxSeq <= maxSeq2 && next <= next2
  {
    files2, next2, maxSeq2 := files, next, maxSeq;
    MemBelow(files, mem, done, bound, start, next, maxSeq);
    hide Replayed;
    var m := InsertBatch(mem, r.ops, r.first);
    var last := r.first + |r.ops| - 1;
    if last > maxSeq2 {
      maxSeq2 := last;
    }
    ReplayRecord(files, mem, m, done, bound, start, next, maxSeq, maxSeq2, r);
    mem2 := Some(m);
    var full: bool := *;
    if full {
      files2, next2 := WriteTable(files, m, next, done + BatchEntries(r.ops, r.first), r.Next(), start, maxSeq2);
      mem2 := None;
    }
  }

  lemma MemBelow(files: seq<File>, mem: seq<Entry>, done: set<Entry>, bound: nat, start: nat, next: nat, maxSeq: nat)
    requires Replayed(files, mem, done, bound, start, next, maxSeq)
    ensures Sorted(mem) && maxSeq < MAX_SEQ && forall e :: e in mem ==> e.seqno < bound
  {
    assert forall e :: e in mem ==> e in Elems(mem);
  }

  /** What is left to do after the first `i` records. */
  lemma StepTo(records: seq<Record>, i: nat, done: set<Entry>, bound: nat)
    requires i < |records| && Increasing(records) && StartsAfter(records, bound)
    ensures NextAfter(records[..i], bound) <= records[i].first
    ensures NextAfter(records[..i + 1], bound) == records[i].Next()
    ensures done + Entries(records[..i + 1]) ==
            (done + Entries(records[..i])) + BatchEntries(records[i].ops, records[i].first)
  {
    EntriesStep(records, i);
  }

  /** RecoverLogFile: replays the records of a log, writing tables whenever the memtable is full and at
      the end. */
  method RecoverLogFile(records: seq<Record>, files: seq<File>, next: nat, maxSeq: nat, ghost done: set<Entry>,
                        ghost bound: nat, ghost start: nat)
    returns (files2: seq<File>, next2: nat, maxSeq2: nat)
    requires Replayed(files, [], done, bound, start, next, maxSeq)
    requires Increasing(records) && StartsAfter(records, bound)
    ensures Replayed(files2, [], done + Entries(records), NextAfter(records, bound), start, next2, maxSeq2)
    ensures maxSeq <= maxSeq2 && next <= next2
  {
    files2, next2, maxSeq2 := files, next, maxSeq;
    var mem: Option<seq<Entry>> := None;
    var i := 0;
    hide Replayed, Entries, NextAfter, Increasing, StartsAfter;
    NextOfNone(records, bound, done);
    assert records[..|records|] == records;
    while i < |records|
      invariant i <= |records| && maxSeq <= maxSeq2 && next <= next2
      invariant Replayed(files2, if mem.Some? then mem.value else [], done + Entries(records[..i]),
                         NextAfter(records[..i], bound), start, next2, maxSeq2)
    {
      StepTo(records, i, done, bound);
      files2, mem, next2, maxSeq2 := ReplayOne(records[i], files2, if mem.Some? then mem.value else [], next2, maxSeq2,
        done + Entries(records[..i]), NextAfter(records[..i], bound), start);
      i := i + 1;
    }
    if mem.Some? {
      files2, next2 := WriteTable(files2, mem.value, next2,
          done + Entries(records), NextAfter(records, bound), start, maxSeq2);
    }
  }

  lemma NextOfNone(records: seq<Record>, bound: nat, done: set<Entry>)
    ensures NextAfter(records[..0], bound) == bound && done + Entries(records[..0]) == done
  {
  }

  // ---------------------------------------------------------------- all logs

  predicate Ascending(ns: seq<nat>) {
    forall i, j :: 0 <= i < j < |ns| ==> ns[i] < ns[j]
  }

  /** The logs to replay: those the manifest does not cover, in the order they were generated. */
  method LogsToReplay(names: seq<nat>, minLog: nat) returns (r: seq<nat>)
    ensures Ascending(r)
    ensures forall n :: n in r <==> n in names && minLog <= n
  {
    r := [];
    var i := 0;
    while i < |names|
      invariant i <= |names| && Ascending(r)
      invariant forall n :: n in r <==> n in names[..i] && minLog <= n
    {
      if minLog <= names[i] {
        r := InsertNumber(r, names[i]);
      }
      assert names[..i + 1] == names[..i] + [names[i]];
      i := i + 1;
    }
    assert names[..i] == names;
  }

  method InsertNumber(ns: seq<nat>, n: nat) returns (r: seq<nat>)
    requires Ascending(ns)
    ensures Ascending(r) && forall m :: m in r <==> m in ns || m == n
  {
    var i := 0;
    while i < |ns| && ns[i] < n
      invariant i <= |ns| && forall j :: 0 <= j < i ==> ns[j] < n
    {
      i := i + 1;
    }
    if i < |ns| && ns[i] == n {
      return ns;
    }
    r := ns[..i] + [n] + ns[i..];
    NumberInserted(ns, n, i);
  }

  lemma NumberInserted(ns: seq<nat>, n: nat, i: nat)
    requires Ascending(ns) && i <= |ns| && (forall j :: 0 <= j < i ==> ns[j] < n) && (i < |ns| ==> n < ns[i])
    ensures var r := ns[..i] + [n] + ns[i..];
            Ascending(r) && forall m :: m in r <==> m in ns || m == n
  {
    NumberMembers(ns, n, i);
    var r := ns[..i] + [n] + ns[i..];
    forall p, q | 0 <= p < q < |r| ensures r[p] < r[q] {
      assert r[p] == if p < i then ns[p] else if p == i then n else ns[p - 1];
      assert r[q] == if q < i then ns[q] else if q == i then n else ns[q - 1];
    }
  }

  lemma NumberMembers(ns: seq<nat>, n: nat, i: nat)
    requires i <= |ns|
    ensures forall m :: m in ns[..i] + [n] + ns[i..] <==> m in ns || m == n
  {
    assert ns == ns[..i] + ns[i..];
  }

  ghost function LoggedIn(logs: map<nat, seq<Record>>, ns: seq<nat>): set<Entry> {
    set n, e | n in ns && n in logs && e in Entries(logs[n]) :: e
  }

  /** The bound reached after the logs `ns`: where one of their records ended. */
  ghost predicate Reached(logs: map<nat, seq<Record>>, ns: seq<nat>, bound: nat) {
    bound == 0 || exists n, r :: n in ns && n in logs && r in logs[n] && bound == r.Next()
  }

  lemma NextLog(logs: map<nat, seq<Record>>, from: nat, ns: seq<nat>, i: nat, bound: nat)
    requires LogsOrdered(logs, from) && Ascending(ns) && i < |ns|
    requires forall n :: n in ns ==> from <= n && n in logs
    requires Reached(logs, ns[..i], bound)
    ensures Increasing(logs[ns[i]]) && StartsAfter(logs[ns[i]], bound)
    ensures Reached(logs, ns[..i + 1], NextAfter(logs[ns[i]], bound))
    ensures LoggedIn(logs, ns[..i + 1]) == LoggedIn(logs, ns[..i]) + Entries(logs[ns[i]])
  {
    hide *;
    LoggedStep(logs, ns, i);
    LogStarts(logs, from, ns, i, bound);
    LogReaches(logs, ns, i, bound);
  }

  lemma LogStarts(logs: map<nat, seq<Record>>, from: nat, ns: seq<nat>, i: nat, bound: nat)
    requires LogsOrdered(logs, from) && Ascending(ns) && i < |ns|
    requires forall n :: n in ns ==> from <= n && n in logs
    requires Reached(logs, ns[..i], bound)
    ensures Increasing(logs[ns[i]]) && StartsAfter(logs[ns[i]], bound)
  {
    hide Increasing;
    assert ns[i] in ns;
    if bound != 0 {
      var n, r :| n in ns[..i] && n in logs && r in logs[n] && bound == r.Next();
      var j :| 0 <= j < i && ns[..i][j] == n;
      assert n == ns[j] && n < ns[i] && n in ns;
      assert AllEarlier(logs[n], logs[ns[i]]);
      forall k | 0 <= k < |logs[ns[i]]| ensures bound <= logs[ns[i]][k].first {
        assert logs[ns[i]][k] in logs[ns[i]];
      }
    }
  }

  lemma LogReaches(logs: map<nat, seq<Record>>, ns: seq<nat>, i: nat, bound: nat)
    requires i < |ns| && ns[i] in logs && Reached(logs, ns[..i], bound)
    ensures Reached(logs, ns[..i + 1], NextAfter(logs[ns[i]], bound))
  {
    assert ns[..i + 1] == ns[..i] + [ns[i]];
    var records := logs[ns[i]];
    if records != [] {
      var r := records[|records| - 1];
      assert r in logs[ns[i]] && ns[i] in ns[..i + 1];
    } else if bound != 0 {
      var n, r :| n in ns[..i] && n in logs && r in logs[n] && bound == r.Next();
      assert n in ns[..i + 1];
    }
  }

  lemma LoggedStep(logs: map<nat, seq<Record>>, ns: seq<nat>, i: nat)
    requires i < |ns| && ns[i] in logs
    ensures LoggedIn(logs, ns[..i + 1]) == LoggedIn(logs, ns[..i]) + Entries(logs[ns[i]])
  {
    assert ns[..i + 1] == ns[..i] + [ns[i]];
    var A, B, N := LoggedIn(logs, ns[..i + 1]), LoggedIn(logs, ns[..i]), Entries(logs[ns[i]]);
    forall e ensures e in A <==> e in B || e in N {
      if e in N {
        assert ns[i] in ns[..i + 1];
      }
      if e in B {
        var n :| n in ns[..i] && n in logs && e in Entries(logs[n]);
        assert n in ns[..i + 1];
      }
    }
  }

  method ReplayLog(logs: map<nat, seq<Record>>, ghost from: nat, ns: seq<nat>, i: nat, files: seq<File>, next: nat,
                   maxSeq: nat, ghost bound: nat, ghost start: nat)
    returns (files2: seq<File>, next2: nat, maxSeq2: nat, ghost bound2: nat)
    requires LogsOrdered(logs, from) && Ascending(ns) && i < |ns|
    requires forall n :: n in ns ==> from <= n && n in logs
    requires Replayed(files, [], LoggedIn(logs, ns[..i]), bound, start, next, maxSeq) && Reached(logs, ns[..i], bound)
    ensures Replayed(files2, [], LoggedIn(logs, ns[..i + 1]), bound2, start, next2, maxSeq2)
    ensures Reached(logs, ns[..i + 1], bound2)
    ensures next <= next2 && ns[i] < next2
  {
    NextLog(logs, from, ns, i, bound);
    hide *;
    assert ns[i] in ns;
    files2, next2, maxSeq2 := RecoverLogFile(logs[ns[i]], files, next, maxSeq, LoggedIn(logs, ns[..i]), bound, start);
    bound2 := NextAfter(logs[ns[i]], bound);
    if next2 <= ns[i] {
      next2 := WidenNumbers(files2, LoggedIn(logs, ns[..i + 1]), bound2, start, next2, maxSeq2, ns[i] + 1);
    }
  }

  /** Replays all logs above the manifest's log number. */
  method ReplayLogs(d: Disk, names: seq<nat>) returns (files: seq<File>, next: nat, maxSeq: nat)
    requires DiskOk(d)
    requires forall n :: n in names <==> n in d.logs
    ensures TablesOk(files, d.nextFile + 1, next) && EntriesOf(files) == Logged(d.logs, d.logNumber)
    ensures d.nextFile < next && (forall n :: n in names && d.logNumber <= n ==> n < next)
    ensures Below(EntriesOf(files), maxSeq + 1) && Distinct(EntriesOf(files)) && maxSeq < MAX_SEQ
  {
    var logs: seq<nat> := LogsToReplay(names, d.logNumber);
    files, next, maxSeq := [], d.nextFile + 1, 0;
    ghost var bound := 0;
    var i := 0;
    ReplayStarts(d, logs, next);
    hide Replayed, Logged, Reached, LoggedIn, DiskOk, LogsOrdered, Increasing, StartsAfter;
    while i < |logs|
      invariant i <= |logs| && d.nextFile < next
      invariant Replayed(files, [], LoggedIn(d.logs, logs[..i]), bound, d.nextFile + 1, next, maxSeq)
      invariant Reached(d.logs, logs[..i], bound)
      invariant forall j :: 0 <= j < i ==> logs[j] < next
    {
      files, next, maxSeq, bound := ReplayLog(d.logs, d.logNumber, logs, i, files, next, maxSeq, bound, d.nextFile + 1);
      i := i + 1;
    }
    ReplayDone(files, LoggedIn(d.logs, logs), bound, d.nextFile + 1, next, maxSeq);
  }

  lemma ReplayStarts(d: Disk, logs: seq<nat>, next: nat)
    requires DiskOk(d) && forall n :: n in logs <==> n in d.logs && d.logNumber <= n
    ensures LogsOrdered(d.logs, d.logNumber) && logs[..|logs|] == logs
    ensures Replayed([], [], LoggedIn(d.logs, logs[..0]), 0, next, next, 0)
    ensures Reached(d.logs, logs[..0], 0)
    ensures LoggedIn(d.logs, logs) == Logged(d.logs, d.logNumber)
  {
    assert LoggedIn(d.logs, logs[..0]) == {};
  }

  lemma ReplayDone(files: seq<File>, done: set<Entry>, bound: nat, start: nat, next: nat, maxSeq: nat)
    requires Replayed(files, [], done, bound, start, next, maxSeq)
    ensures TablesOk(files, start, next) && EntriesOf(files) == done && Below(done, maxSeq + 1) && Distinct(done)
    ensures maxSeq < MAX_SEQ
  {
    assert Elems([]) == {};
    assert EntriesOf(files) + {} == EntriesOf(files);
  }

  /** MarkFileNumberUsed. */
  method WidenNumbers(files: seq<File>, ghost done: set<Entry>, ghost bound: nat, ghost start: nat, ghost next: nat,
                      ghost maxSeq: nat, to: nat)
    returns (next2: nat)
    requires Replayed(files, [], done, bound, start, next, maxSeq) && next <= to
    ensures Replayed(files, [], done, bound, start, next2, maxSeq) && next2 == to
  {
    next2 := to;
  }

  // ---------------------------------------------------------------- the recovered version

  /** The edit that adds the new tables to level 0. */
  function RecoveryEdit(files: seq<File>): Builders.Edit {
    Builders.Edit({}, seq(|files|, i requires 0 <= i < |files| => (0, files[i])))
  }

  lemma RecoveredLevels(v: Version, files: seq<File>, w: Version)
    requires LevelsOk(v) && Builders.EditedTo(v, RecoveryEdit(files), w)
    ensures forall l :: 1 <= l < NUM_LEVELS ==> w[l] == v[l]
    ensures SortedLevel(w[0]) && forall f :: f in w[0] <==> f in v[0] || f in files
  {
    var e := RecoveryEdit(files);
    forall l | 1 <= l < NUM_LEVELS ensures w[l] == v[l] {
      assert Builders.EditedLevel(v[l], e, l, w[l]);
      Builders.SortedUnique(w[l], v[l]);
    }
    assert Builders.EditedLevel(v[0], e, 0, w[0]);
    forall f ensures (0, f) in e.added <==> f in files {
      if f in files {
        var i :| 0 <= i < |files| && files[i] == f;
        assert e.added[i] == (0, f);
      }
    }
  }

  /** Adding the replayed tables to level 0 gives a well-formed version with all replayed entries. */
  lemma RecoveredOk(d: Disk, files: seq<File>, w: Version, next: nat)
    requires DiskOk(d) && TablesOk(files, d.nextFile + 1, next) && Distinct(EntriesOf(files))
    requires EntriesOf(files) == Logged(d.logs, d.logNumber)
    requires Builders.EditedTo(d.version, RecoveryEdit(files), w)
    ensures VersionOk(w) && Contents(w) == Contents(d.version) + Logged(d.logs, d.logNumber)
    ensures forall l, f :: 0 <= l < NUM_LEVELS && f in w[l] ==> f.number < next || f.number < d.nextFile
  {
    var v := d.version;
    RecoveryParts(d, files);
    hide DiskOk, LevelsOk, LevelsOrdered, NumbersUnique, NewerByNumber, AllNewer, Distinct, TablesOk, Contents, Logged;
    RecoveredLevels(v, files, w);
    RecoveredContents(v, files, w);
    RecoveredFiles(v, files, w, d.nextFile + 1, next);
    RecoveredOrdered(v, files, w);
    RecoveredZero(v, files, w, d.nextFile + 1, next);
    RecoveredNumbers(v, files, w, d.nextFile + 1, next);
    TwoDistinct(EntriesOf(files), Contents(v));
  }

  lemma RecoveryParts(d: Disk, files: seq<File>)
    requires DiskOk(d) && EntriesOf(files) == Logged(d.logs, d.logNumber)
    ensures VersionOk(d.version) && AllNewer(EntriesOf(files), Contents(d.version))
    ensures forall l, f :: 0 <= l < NUM_LEVELS && f in d.version[l] ==> f.number < d.nextFile
  {
  }

  lemma TwoDistinct(A: set<Entry>, B: set<Entry>)
    requires Distinct(A) && Distinct(B) && AllNewer(A, B)
    ensures Distinct(B + A)
  {
  }

  lemma RecoveredContents(v: Version, files: seq<File>, w: Version)
    requires forall l :: 1 <= l < NUM_LEVELS ==> w[l] == v[l]
    requires forall f :: f in w[0] <==> f in v[0] || f in files
    ensures EntriesOf(w[0]) == EntriesOf(v[0]) + EntriesOf(files)
    ensures Contents(w) == Contents(v) + EntriesOf(files)
  {
    EntriesFromStep(v, 0);
    EntriesFromStep(w, 0);
    assert EntriesFrom(v, 1) == EntriesFrom(w, 1);
  }

  lemma RecoveredFiles(v: Version, files: seq<File>, w: Version, start: nat, next: nat)
    requires LevelsOk(v) && SortedLevel(w[0]) && TablesOk(files, start, next)
    requires forall l :: 1 <= l < NUM_LEVELS ==> w[l] == v[l]
    requires forall f :: f in w[0] <==> f in v[0] || f in files
    ensures LevelsOk(w)
  {
    assert FilesOk(v[0]);
    forall f | f in w[0] ensures FileOk(f) {
      if f in files {
        var i :| 0 <= i < |files| && files[i] == f;
      }
    }
    hide FileOk;
  }

  lemma RecoveredOrdered(v: Version, files: seq<File>, w: Version)
    requires LevelsOrdered(v) && AllNewer(EntriesOf(files), Contents(v))
    requires forall l :: 1 <= l < NUM_LEVELS ==> w[l] == v[l]
    requires EntriesOf(w[0]) == EntriesOf(v[0]) + EntriesOf(files)
    ensures LevelsOrdered(w)
  {
    forall l, m | 0 <= l < m < NUM_LEVELS ensures AllNewer(EntriesOf(w[l]), EntriesOf(w[m])) {
      assert AllNewer(EntriesOf(v[l]), EntriesOf(v[m]));
      assert EntriesOf(v[m]) <= Contents(v);
    }
  }

  lemma RecoveredZero(v: Version, files: seq<File>, w: Version, start: nat, next: nat)
    requires NewerByNumber(v[0]) && TablesOk(files, start, next)
    requires AllNewer(EntriesOf(files), Contents(v))
    requires forall f :: f in v[0] ==> f.number < start
    requires forall f :: f in w[0] <==> f in v[0] || f in files
    ensures NewerByNumber(w[0])
  {
    hide FileOk;
    forall f | f in files ensures start <= f.number {
      var i :| 0 <= i < |files| && files[i] == f;
    }
    forall f, g | f in w[0] && g in w[0] && f.number > g.number ensures AllNewer(Elems(f.entries), Elems(g.entries)) {
      if f in files {
        var i :| 0 <= i < |files| && files[i] == f;
        if g in files {
          var j :| 0 <= j < |files| && files[j] == g;
          TablesNewer(files, start, next, j, i);
        } else {
          FileEntries(files, i);
          LevelHas(v, 0, g);
        }
      }
    }
  }

  lemma TablesNewer(files: seq<File>, start: nat, next: nat, j: nat, i: nat)
    requires TablesOk(files, start, next) && i < |files| && j < |files| && files[j].number < files[i].number
    ensures AllNewer(Elems(files[i].entries), Elems(files[j].entries))
  {
    assert j < i;
    assert Before(Elems(files[j].entries), Elems(files[i].entries));
  }

  lemma LevelHas(v: Version, l: nat, g: File)
    requires l < NUM_LEVELS && g in v[l]
    ensures Elems(g.entries) <= Contents(v)
  {
  }

  lemma NewNumbers(files: seq<File>, start: nat, next: nat)
    requires TablesOk(files, start, next)
    ensures forall f :: f in files ==> start <= f.number < next
    ensures forall f, g :: f in files && g in files && f.number == g.number ==> f == g
  {
    hide FileOk, Before;
    forall f | f in files ensures start <= f.number < next {
      var i :| 0 <= i < |files| && files[i] == f;
    }
    forall f, g | f in files && g in files && f.number == g.number ensures f == g {
      var i :| 0 <= i < |files| && files[i] == f;
      var j :| 0 <= j < |files| && files[j] == g;
    }
  }

  lemma RecoveredNumbers(v: Version, files: seq<File>, w: Version, start: nat, next: nat)
    requires NumbersUnique(v) && TablesOk(files, start, next)
    requires forall l, f :: 0 <= l < NUM_LEVELS && f in v[l] ==> f.number < start
    requires forall l :: 1 <= l < NUM_LEVELS ==> w[l] == v[l]
    requires forall f :: f in w[0] <==> f in v[0] || f in files
    ensures NumbersUnique(w)
    ensures forall l, f :: 0 <= l < NUM_LEVELS && f in w[l] ==> f.number < next || f.number < start
  {
    hide TablesOk;
    NewNumbers(files, start, next);
  }
}
