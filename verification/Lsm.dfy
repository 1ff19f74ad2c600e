/** The store as a state machine. */
module Lsm {
  // Writes, memtable switches, flushes, snapshots, trivial moves and compactions, with flushes landing while
  // a compaction runs.

  import opened Keys
  import opened Versions
  import opened Pick
  import opened Select
  import opened Compact
  import opened Install
  import opened Preserve
  import opened Flush

  /** A compaction between picking its inputs and installing its outputs: the version it was picked
      from, the range of its inputs, its snapshot bound and the numbers given to its outputs. */
  datatype Running = Running(base: Version, inputs: Inputs, allLo: IKey, allHi: IKey, snap: nat, reserved: set<nat>)

  /** `history` records every entry ever written; nothing else refers to it but the claims. */
  datatype State = State(mem: seq<Entry>, imm: Option<seq<Entry>>, v: Version, lastSeq: nat, snapshots: seq<nat>,
                         nextFile: nat, running: Option<Running>, history: set<Entry>)
  {
    ghost function Imm(): set<Entry> { if imm.Some? then Elems(imm.value) else {} }

    ghost function Memory(): set<Entry> { Elems(mem) + Imm() }

    /** Every entry the store can read. */
    ghost function All(): set<Entry> { Memory() + Contents(v) }

    /** The oldest sequence number that a reader can ask for. */
    function Floor(): nat { if snapshots == [] then lastSeq else snapshots[0] }
  }

  datatype Action =
    | Write(batch: seq<(UserKey, Op)>)
    | SwitchMemTable
    | TakeNumber
    | FlushEmpty
    | FlushTable(p: nat, f: File)
    | TakeSnapshot
    | ReleaseSnapshot(i: nat)
    | BeginCompaction(inputs: Inputs, lo: IKey, hi: IKey, allLo: IKey, allHi: IKey)
    | OpenOutput
    | Install(input: seq<Entry>, outputs: Level)
    | Abandon
    | TrivialMove(inputs: Inputs, lo: IKey, hi: IKey, allLo: IKey, allHi: IKey)

  /** The entries of a batch, numbered consecutively from `first`. */
  ghost function BatchEntries(batch: seq<(UserKey, Op)>, first: nat): set<Entry>
    requires first + |batch| <= MAX_SEQ
  {
    set i | 0 <= i < |batch| :: Entry(batch[i].0, first + i, batch[i].1)
  }

  ghost predicate Does(s: State, a: Action, t: State) {
    match a
    case Write(batch) =>
      && s.lastSeq + |batch| < MAX_SEQ
      && var new_ := BatchEntries(batch, s.lastSeq + 1);
      && Sorted(t.mem) && Elems(t.mem) == Elems(s.mem) + new_
      && t == s.(mem := t.mem, lastSeq := s.lastSeq + |batch|, history := s.history + new_)
    case SwitchMemTable =>
      s.imm.None? && t == s.(mem := [], imm := Some(s.mem))
    case TakeNumber =>
      t == s.(nextFile := s.nextFile + 1)
    case FlushEmpty =>
      s.imm == Some([]) && t == s.(imm := None)
    case FlushTable(p, f) =>
      && s.imm == Some(f.entries) && FileOk(f) && f.number == s.nextFile
      && p <= MAX_MEM_COMPACT_LEVEL
      && (p > 0 ==> ClearThrough(s.v, p, f.smallest.key, f.largest.key))
      && Added(s.v, p, f, t.v)
      && t == s.(imm := None, v := t.v, nextFile := s.nextFile + 1)
    case TakeSnapshot =>
      t == s.(snapshots := s.snapshots + [s.lastSeq])
    case ReleaseSnapshot(i) =>
      i < |s.snapshots| && t == s.(snapshots := s.snapshots[..i] + s.snapshots[i + 1..])
    case BeginCompaction(inputs, lo, hi, allLo, allHi) =>
      && s.running.None? && Selected(s.v, inputs, lo, hi, allLo, allHi)
      && t == s.(running := Some(Running(s.v, inputs, allLo, allHi, s.Floor(), {})))
    case OpenOutput =>
      && s.running.Some?
      && t == s.(nextFile := s.nextFile + 1,
                 running := Some(s.running.value.(reserved := s.running.value.reserved + {s.nextFile})))
    case Install(input, outputs) =>
      && s.running.Some?
      && var r := s.running.value;
      && Sorted(input) && Elems(input) == EntriesOf(r.inputs.All())
      && FilesOk(outputs) && Disjoint(outputs)
      && EntriesOf(outputs) == Elems(Survivors(r.base, r.inputs, input, r.snap))
      && (forall i, j :: 0 <= i < j < |outputs| ==> outputs[i].number != outputs[j].number)
      && (forall f :: f in outputs ==> f.number in r.reserved)
      && Replaced(s.v, t.v, r.inputs, outputs)
      && t == s.(v := t.v, running := None)
    case Abandon =>
      s.running.Some? && t == s.(running := None)
    case TrivialMove(inputs, lo, hi, allLo, allHi) =>
      && s.running.None? && Selected(s.v, inputs, lo, hi, allLo, allHi)
      && |inputs.lower| == 1 && inputs.upper == []
      && Replaced(s.v, t.v, inputs, inputs.lower)
      && t == s.(v := t.v)
  }

  ghost predicate Init(s: State) {
    s == State([], None, s.v, 0, [], s.nextFile, None, {}) && EmptyVersion(s.v)
  }

  ghost predicate EmptyVersion(v: Version) {
    forall l :: 0 <= l < NUM_LEVELS ==> v[l] == []
  }

  // ---------------------------------------------------------------- the invariant

  ghost predicate MemoryOk(s: State) {
    && Sorted(s.mem) && (s.imm.Some? ==> Sorted(s.imm.value))
    && AllNewer(Elems(s.mem), s.Imm() + Contents(s.v))
    && AllNewer(s.Imm(), Contents(s.v))
  }

  /** The list of snapshots: none from the future, the oldest first. */
  ghost predicate SnapshotsOk(snapshots: seq<nat>, last: nat) {
    && (forall i :: 0 <= i < |snapshots| ==> snapshots[i] <= last)
    && forall i, j :: 0 <= i < j < |snapshots| ==> snapshots[i] <= snapshots[j]
  }

  ghost predicate SequenceOk(s: State) {
    && Distinct(s.history) && s.All() <= s.history
    && (forall e :: e in s.history ==> e.seqno <= s.lastSeq)
    && s.lastSeq < MAX_SEQ
    && SnapshotsOk(s.snapshots, s.lastSeq)
  }

  ghost predicate NumbersOk(s: State) {
    && (forall l, f :: 0 <= l < NUM_LEVELS && f in s.v[l] ==> f.number < s.nextFile)
    && (s.running.Some? ==> ReservedOk(s.v, s.nextFile, s.running.value.reserved))
  }

  /** Reserved numbers were handed out and belong to no file of the version. */
  ghost predicate ReservedOk(v: Version, nextFile: nat, reserved: set<nat>) {
    && (forall n :: n in reserved ==> n < nextFile)
    && (forall l, f :: 0 <= l < NUM_LEVELS && f in v[l] ==> f.number !in reserved)
  }

  ghost predicate RunningOk(s: State) {
    s.running.Some? ==>
      var r := s.running.value;
      && r.snap <= s.Floor()
      && Fits(s.v, r.base, r.inputs)
      && RangeOf(r.inputs.All(), r.allLo, r.allHi) && CoveredBy(r.inputs.All(), r.allLo.key, r.allHi.key)
  }

  ghost predicate Inv(s: State) {
    VersionOk(s.v) && MemoryOk(s) && SequenceOk(s) && NumbersOk(s) && RunningOk(s)
  }

  /** Reads of the store agree with the history for every snapshot a reader can hold. */
  ghost predicate ReadsOk(s: State) {
    forall k, t :: t >= s.Floor() ==> Read(s.All(), k, t) == Read(s.history, k, t)
  }

  /** The one thing the selection of inputs does not enforce: this installation exposes no older
      value behind a dropped deletion, to a reader that may still ask. */
  ghost predicate Unexposed(s: State, a: Action) {
    a.Install? && s.running.Some? && s.running.value.inputs.level + 1 < NUM_LEVELS ==>
      var r := s.running.value;
      forall i, g :: !Exposed(s.All(), BehindFiles(s.v, r.inputs), r.base, r.inputs, a.input, r.snap, s.Floor(), i, g)
  }

  /** The installation exposes an older value of this key to reads at `q`. */
  ghost predicate ExposesKey(s: State, a: Action, q: nat, k: UserKey) {
    a.Install? && s.running.Some? && s.running.value.inputs.level + 1 < NUM_LEVELS &&
    var r := s.running.value;
    ExposedKey(s.All(), BehindFiles(s.v, r.inputs), r.base, r.inputs, a.input, r.snap, q, k)
  }

  /** Inputs closed under boundary files on the output level expose nothing. */
  lemma ClosedIsUnexposed(s: State, a: Action)
    requires Inv(s) && a.Install? && s.running.Some?
    requires Sorted(a.input) && Elems(a.input) == EntriesOf(s.running.value.inputs.All())
    requires s.running.value.inputs.level + 1 < NUM_LEVELS && UpperClosed(s.v, s.running.value.inputs)
    ensures Unexposed(s, a)
  {
    var r := s.running.value;
    assert Compacting(s.Memory(), s.v, r.base, r.inputs, a.input, r.snap) by {
      assert AllNewer(s.Memory(), Contents(s.v));
      assert s.Floor() <= s.lastSeq;
    }
    var at := s.Floor();
    forall i, g ensures !Exposed(s.All(), BehindFiles(s.v, r.inputs), r.base, r.inputs, a.input, r.snap, at, i, g) {
      ClosedExposesNothing(s.Memory(), s.v, r.base, r.inputs, a.input, r.snap, at, i, g);
    }
  }

  // ---------------------------------------------------------------- steps keep the invariant

  lemma EmptyVersionOk(v: Version)
    requires EmptyVersion(v)
    ensures VersionOk(v) && Contents(v) == {}
  {
    assert forall l :: 0 <= l < NUM_LEVELS ==> EntriesOf(v[l]) == {};
  }

  lemma InitInv(s: State)
    requires Init(s)
    ensures Inv(s) && ReadsOk(s)
  {
    EmptyVersionOk(s.v);
    assert s.All() == s.history;
  }

  lemma BatchFacts(batch: seq<(UserKey, Op)>, first: nat, old_: set<Entry>)
    requires first + |batch| <= MAX_SEQ
    requires Distinct(old_) && forall e :: e in old_ ==> e.seqno < first
    ensures Distinct(old_ + BatchEntries(batch, first))
    ensures AllNewer(BatchEntries(batch, first), old_)
    ensures forall e :: e in BatchEntries(batch, first) ==> first <= e.seqno < first + |batch|
  {
  }

  lemma WriteInv(s: State, a: Action, t: State)
    requires Inv(s) && a.Write? && Does(s, a, t)
    ensures Inv(t)
  {
    var N := BatchEntries(a.batch, s.lastSeq + 1);
    BatchFacts(a.batch, s.lastSeq + 1, s.history);
    assert t.Floor() >= s.Floor();
    assert AllNewer(Elems(t.mem), t.Imm() + Contents(t.v)) by {
      assert t.Imm() + Contents(t.v) <= s.history;
    }
  }

  lemma SwitchInv(s: State, a: Action, t: State)
    requires Inv(s) && a.SwitchMemTable? && Does(s, a, t)
    ensures Inv(t) && t.All() == s.All()
  {
    assert t.Imm() == Elems(s.mem) && Elems(t.mem) == {} && s.Imm() == {};
  }

  lemma FlushEmptyInv(s: State, a: Action, t: State)
    requires Inv(s) && a.FlushEmpty? && Does(s, a, t)
    ensures Inv(t) && t.All() == s.All()
  {
    assert s.Imm() == {};
  }

  lemma FlushIsFlushable(s: State, a: Action, t: State)
    requires MemoryOk(s) && SequenceOk(s) && NumbersOk(s)
    requires a.FlushTable? && Does(s, a, t)
    ensures Flushable(s.v, a.p, a.f)
  {
    assert Elems(a.f.entries) == s.Imm();
    assert Contents(s.v) + Elems(a.f.entries) <= s.history;
  }

  lemma FlushInv(s: State, a: Action, t: State)
    requires Inv(s) && a.FlushTable? && Does(s, a, t)
    ensures Inv(t) && t.All() == s.All()
  {
    FlushIsFlushable(s, a, t);
    FlushKeepsOk(s.v, a.p, a.f, t.v);
    assert t.Imm() == {} && s.Imm() == Elems(a.f.entries);
    assert t.All() == s.All();
    FlushRunning(s, a, t);
    FlushNumbersOk(s, a, t);
  }

  lemma FlushRunning(s: State, a: Action, t: State)
    requires a.FlushTable? && Does(s, a, t)
    requires RunningOk(s) && VersionOk(s.v) && Flushable(s.v, a.p, a.f)
    ensures RunningOk(t)
  {
    hide VersionOk, Fits, Flushable, RangeOf, CoveredBy, Added, FileOk, ClearThrough;
    assert t.running == s.running && t.Floor() == s.Floor() && Added(s.v, a.p, a.f, t.v);
    if s.running.Some? {
      var r := s.running.value;
      FitsFilesOk(s.v, r.base, r.inputs);
      FlushKeepsFits(s.v, a.p, a.f, t.v, r.base, r.inputs, r.allLo, r.allHi);
    }
  }

  lemma FitsFilesOk(v: Version, base: Version, inputs: Inputs)
    requires VersionOk(v) && Fits(v, base, inputs)
    ensures FilesOk(inputs.All())
  {
    InputsFilesOk(v, inputs);
  }

  lemma FlushNumbersOk(s: State, a: Action, t: State)
    requires NumbersOk(s) && a.FlushTable? && Does(s, a, t)
    ensures NumbersOk(t)
  {
    assert t.nextFile == s.nextFile + 1 && t.running == s.running;
    forall l, f | 0 <= l < NUM_LEVELS && f in t.v[l]
      ensures f.number < t.nextFile && (s.running.Some? ==> f.number !in s.running.value.reserved)
    {
      assert f in s.v[l] || f == a.f;
    }
  }

  lemma SnapshotInv(s: State, a: Action, t: State)
    requires Inv(s) && (a.TakeSnapshot? || a.ReleaseSnapshot?) && Does(s, a, t)
    ensures Inv(t) && t.All() == s.All() && t.Floor() >= s.Floor()
  {
    SnapshotSequence(s, a, t);
    assert t == s.(snapshots := t.snapshots);
    SnapshotRest(s, t);
  }

  lemma LaterAdded(snapshots: seq<nat>, last: nat)
    requires SnapshotsOk(snapshots, last)
    ensures SnapshotsOk(snapshots + [last], last)
  {
  }

  lemma OneRemoved(snapshots: seq<nat>, last: nat, i: nat)
    requires SnapshotsOk(snapshots, last) && i < |snapshots|
    ensures SnapshotsOk(snapshots[..i] + snapshots[i + 1..], last)
  {
    var left := snapshots[..i] + snapshots[i + 1..];
    assert forall j :: 0 <= j < |left| ==> left[j] == snapshots[if j < i then j else j + 1];
  }

  lemma SnapshotSequence(s: State, a: Action, t: State)
    requires SequenceOk(s) && (a.TakeSnapshot? || a.ReleaseSnapshot?) && Does(s, a, t)
    ensures SequenceOk(t) && t.Floor() >= s.Floor()
  {
    hide Distinct, Contents, Elems, VersionOk, Fits;
    assert t.Memory() == s.Memory();
    if a.ReleaseSnapshot? {
      OneRemoved(s.snapshots, s.lastSeq, a.i);
    } else {
      LaterAdded(s.snapshots, s.lastSeq);
    }
  }

  lemma SnapshotRest(s: State, t: State)
    requires VersionOk(s.v) && MemoryOk(s) && NumbersOk(s) && RunningOk(s)
    requires t == s.(snapshots := t.snapshots) && t.Floor() >= s.Floor()
    ensures VersionOk(t.v) && MemoryOk(t) && NumbersOk(t) && RunningOk(t) && t.All() == s.All()
  {
    hide VersionOk, AllNewer, Sorted, Contents, Elems, Fits, ReservedOk, State.Floor;
    assert t.Memory() == s.Memory();
  }

  /** The parts of the invariant that do not look at the running compaction or the file counter. */
  lemma KeepRest(s: State, t: State)
    requires VersionOk(s.v) && MemoryOk(s) && SequenceOk(s)
    requires t == s.(nextFile := t.nextFile, running := t.running)
    ensures VersionOk(t.v) && MemoryOk(t) && SequenceOk(t)
    ensures t.All() == s.All() && t.Floor() == s.Floor()
  {
    assert t.Memory() == s.Memory();
  }

  lemma NumberInv(s: State, a: Action, t: State)
    requires Inv(s) && a.TakeNumber? && Does(s, a, t)
    ensures Inv(t) && t.All() == s.All()
  {
    KeepRest(s, t);
    assert NumbersOk(t) && RunningOk(t);
  }

  lemma BeginRunning(s: State, a: Action, t: State)
    requires VersionOk(s.v) && a.BeginCompaction? && Does(s, a, t) && t.Floor() == s.Floor()
    ensures RunningOk(t)
  {
    hide VersionOk, Fits, RangeOf, CoveredBy, State.Floor, LowerOk, Meeting;
    SelectionFits(s.v, a.inputs, a.lo, a.hi, a.allLo, a.allHi);
  }

  lemma BeginInv(s: State, a: Action, t: State)
    requires Inv(s) && a.BeginCompaction? && Does(s, a, t)
    ensures Inv(t) && t.All() == s.All()
  {
    KeepRest(s, t);
    BeginRunning(s, a, t);
  }

  lemma OutputInv(s: State, a: Action, t: State)
    requires Inv(s) && (a.OpenOutput? || a.Abandon?) && Does(s, a, t)
    ensures Inv(t) && t.All() == s.All()
  {
    KeepRest(s, t);
    OutputRunning(s, a, t);
  }

  lemma OutputRunning(s: State, a: Action, t: State)
    requires RunningOk(s) && NumbersOk(s) && (a.OpenOutput? || a.Abandon?) && Does(s, a, t)
    ensures RunningOk(t) && NumbersOk(t)
  {
    assert t.Floor() == s.Floor();
  }

  /** What both ways of installing files on the next level share. */
  lemma ReplaceInv(s: State, t: State, base: Version, inputs: Inputs, outputs: Level)
    requires Inv(s) && Fits(s.v, base, inputs) && Replaced(s.v, t.v, inputs, outputs)
    requires FilesOk(outputs) && Disjoint(outputs) && EntriesOf(outputs) <= EntriesOf(inputs.All())
    requires FreshNumbers(s.v, inputs, outputs)
    requires forall f :: f in outputs ==> f.number < s.nextFile
    requires t == s.(v := t.v, running := None)
    ensures Inv(t) && t.All() <= s.All()
  {
    InstallKeepsOk(s.v, t.v, base, inputs, outputs);
    assert t.Memory() == s.Memory() && t.Imm() == s.Imm();
    assert t.All() <= s.All();
    assert MemoryOk(t) by {
      assert t.Imm() + Contents(t.v) <= s.Imm() + Contents(s.v);
    }
    assert NumbersOk(t) by {
      forall l, f | 0 <= l < NUM_LEVELS && f in t.v[l] ensures f.number < t.nextFile {
        assert f in outputs || f in s.v[l];
      }
    }
  }

  lemma InstallInv(s: State, a: Action, t: State)
    requires Inv(s) && a.Install? && Does(s, a, t)
    ensures Inv(t) && t.All() <= s.All()
  {
    var r := s.running.value;
    KeptWithin(a.input, |a.input|, r.snap, r.base, r.inputs.level);
    assert a.input[..|a.input|] == a.input;
    assert EntriesOf(a.outputs) <= EntriesOf(r.inputs.All());
    ReplaceInv(s, t, r.base, r.inputs, a.outputs);
  }

  lemma MoveInv(s: State, a: Action, t: State)
    requires Inv(s) && a.TrivialMove? && Does(s, a, t)
    ensures Inv(t) && t.All() == s.All()
  {
    SelectionFits(s.v, a.inputs, a.lo, a.hi, a.allLo, a.allHi);
    MoveNumbers(s.v, a.inputs);
    ReplaceInv(s, t, s.v, a.inputs, a.inputs.lower);
    MoveContents(s.v, t.v, a.inputs);
    assert t.Memory() == s.Memory();
  }

  lemma MoveNumbers(v: Version, inputs: Inputs)
    requires VersionOk(v) && inputs.level + 1 < NUM_LEVELS && InputsWithin(v, inputs) && |inputs.lower| == 1
    ensures FreshNumbers(v, inputs, inputs.lower) && FilesOk(inputs.lower) && Disjoint(inputs.lower)
    ensures EntriesOf(inputs.lower) <= EntriesOf(inputs.All())
  {
    assert inputs.lower[0] in inputs.lower;
    assert FilesOk(v[inputs.level]);
  }

  lemma MoveContents(v: Version, v2: Version, inputs: Inputs)
    requires inputs.level + 1 < NUM_LEVELS && InputsWithin(v, inputs) && inputs.upper == []
    requires Replaced(v, v2, inputs, inputs.lower)
    ensures Contents(v) == Contents(v2)
  {
    forall e ensures e in Contents(v) <==> e in Contents(v2) {
      if e in EntriesOf(inputs.lower) {
        OutputEntry(v, v2, inputs, inputs.lower, e);
        var f :| f in inputs.lower && e in f.entries;
        LevelEntry(v, inputs.level, f, e);
      } else {
        assert inputs.All() == inputs.lower;
        StayingEntry(v, v2, inputs, inputs.lower, e);
      }
    }
  }

  /** Every step keeps the invariant. */
  lemma StepInv(s: State, a: Action, t: State)
    requires Inv(s) && Does(s, a, t)
    ensures Inv(t)
  {
    match a {
      case Write(_) => WriteInv(s, a, t);
      case SwitchMemTable => SwitchInv(s, a, t);
      case TakeNumber => NumberInv(s, a, t);
      case FlushEmpty => FlushEmptyInv(s, a, t);
      case FlushTable(_, _) => FlushInv(s, a, t);
      case TakeSnapshot => SnapshotInv(s, a, t);
      case ReleaseSnapshot(_) => SnapshotInv(s, a, t);
      case BeginCompaction(_, _, _, _, _) => BeginInv(s, a, t);
      case OpenOutput => OutputInv(s, a, t);
      case Install(_, _) => InstallInv(s, a, t);
      case Abandon => OutputInv(s, a, t);
      case TrivialMove(_, _, _, _, _) => MoveInv(s, a, t);
    }
  }

  // ---------------------------------------------------------------- reads

  /** Entries newer than everything in two sets change their reads alike. */
  lemma ReadsExtend(E: set<Entry>, H: set<Entry>, N: set<Entry>, k: UserKey, t: nat)
    requires Distinct(N + E) && Distinct(N + H) && AllNewer(N, E) && AllNewer(N, H)
    requires Read(E, k, t) == Read(H, k, t)
    ensures Read(N + E, k, t) == Read(N + H, k, t)
  {
    ReadSplit(N, E, k, t);
    ReadSplit(N, H, k, t);
  }

  lemma HistoryHasAll(s: State)
    requires Inv(s)
    ensures s.All() <= s.history && Distinct(s.history) && forall e :: e in s.history ==> e.seqno <= s.lastSeq
  {
    assert SequenceOk(s);
  }

  /** Adding newest entries on both sides keeps two sets in agreement. */
  lemma StillAgree(E: set<Entry>, H: set<Entry>, N: set<Entry>, k: UserKey, q: nat)
    requires E <= H && Distinct(N + H) && AllNewer(N, H) && Read(E, k, q) == Read(H, k, q)
    ensures Read(N + E, k, q) == Read(N + H, k, q)
  {
    assert AllNewer(N, E) && Distinct(N + E) by {
      assert N + E <= N + H;
    }
    ReadsExtend(E, H, N, k, q);
  }

  /** What a write changes. */
  ghost predicate Wrote(s: State, batch: seq<(UserKey, Op)>, t: State) {
    match s
    case State(_, _, _, _, _, _, _, _) =>
      && s.lastSeq + |batch| < MAX_SEQ && Sorted(t.mem)
      && var entries := BatchEntries(batch, s.lastSeq + 1);
      && Elems(t.mem) == Elems(s.mem) + entries
      && t == s.(mem := t.mem, lastSeq := s.lastSeq + |batch|, history := s.history + entries)
  }

  lemma WriteIs(s: State, a: Action, t: State)
    requires a.Write? && Does(s, a, t)
    ensures Wrote(s, a.batch, t)
  {
    hide BatchEntries, Sorted, Elems;
  }

  lemma WriteAdds(s: State, batch: seq<(UserKey, Op)>, t: State, N: set<Entry>)
    requires Wrote(s, batch, t) && Distinct(s.history) && forall e :: e in s.history ==> e.seqno <= s.lastSeq
    requires N == BatchEntries(batch, s.lastSeq + 1)
    ensures t.All() == N + s.All() && t.history == N + s.history
    ensures Distinct(N + s.history) && AllNewer(N, s.history)
  {
    hide BatchEntries, Distinct, AllNewer, Sorted, Elems, Contents, EntriesFrom;
    BatchFacts(batch, s.lastSeq + 1, s.history);
    assert t.Imm() == s.Imm() && t.v == s.v && t.history == s.history + N && Elems(t.mem) == Elems(s.mem) + N;
    hide Wrote;
    Reordered(Elems(s.mem), N, s.Imm(), Contents(s.v), s.history);
  }

  lemma Reordered(M: set<Entry>, N: set<Entry>, I: set<Entry>, C: set<Entry>, H: set<Entry>)
    ensures ((M + N) + I) + C == N + ((M + I) + C) && N + H == H + N
  {
  }

  lemma WriteReads(s: State, a: Action, t: State)
    requires Inv(s) && ReadsOk(s) && a.Write? && Does(s, a, t)
    ensures ReadsOk(t)
  {
    hide Inv, Read, Distinct, AllNewer, BatchEntries, Does;
    HistoryHasAll(s);
    FloorGrows(s, a, t);
    WriteIs(s, a, t);
    var N := BatchEntries(a.batch, s.lastSeq + 1);
    WriteAdds(s, a.batch, t, N);
    hide Wrote;
    forall k, q | q >= t.Floor() ensures Read(t.All(), k, q) == Read(t.history, k, q) {
      assert Read(s.All(), k, q) == Read(s.history, k, q);
      StillAgree(s.All(), s.history, N, k, q);
    }
  }

  /** An installation is a compaction of the current version. */
  lemma InstallCompacts(s: State, a: Action, t: State)
    requires Inv(s) && a.Install? && Does(s, a, t)
    ensures s.running.Some? && s.running.value.inputs.level + 1 < NUM_LEVELS
    ensures var r := s.running.value;
            && Compacting(s.Memory(), s.v, r.base, r.inputs, a.input, r.snap) && r.snap <= s.Floor()
            && Replaced(s.v, t.v, r.inputs, a.outputs)
            && EntriesOf(a.outputs) == Elems(Survivors(r.base, r.inputs, a.input, r.snap))
            && t.All() == s.Memory() + Contents(t.v) && t.Floor() == s.Floor() && t.history == s.history
  {
    hide VersionOk, Sorted, Survivors, Replaced, FilesOk, Disjoint;
    assert AllNewer(s.Memory(), Contents(s.v));
    assert s.Floor() <= s.lastSeq;
    assert t.Memory() == s.Memory();
  }

  /** An installation changes no read that a reader may still ask for exactly when it exposes nothing. */
  lemma InstallReads(s: State, a: Action, t: State)
    requires Inv(s) && a.Install? && Does(s, a, t)
    ensures SameReads(s.All(), t.All(), s.Floor()) <==> Unexposed(s, a)
  {
    hide Inv, Does, Compacting, Exposed, SameReads, Replaced, Survivors;
    InstallCompacts(s, a, t);
    var r := s.running.value;
    CompactionPreservesReadsIff(s.Memory(), s.v, t.v, r.base, r.inputs, a.input, r.snap, s.Floor(), a.outputs);
  }

  /** Key by key, at any sequence number that a reader may still ask for. */
  lemma InstallReadIff(s: State, a: Action, t: State, k: UserKey, q: nat)
    requires Inv(s) && a.Install? && Does(s, a, t) && q >= s.Floor()
    ensures Read(s.All(), k, q) == Read(t.All(), k, q) <==> !ExposesKey(s, a, q, k)
  {
    hide Inv, Does, Compacting, ExposedKey, Read, Replaced, Survivors;
    InstallCompacts(s, a, t);
    var r := s.running.value;
    ReadChangesIff(s.Memory(), s.v, t.v, r.base, r.inputs, a.input, r.snap, q, a.outputs, k);
  }

  lemma InstallRead(s: State, a: Action, t: State, k: UserKey, q: nat)
    requires Inv(s) && a.Install? && Does(s, a, t) && Unexposed(s, a) && q >= s.Floor()
    ensures Read(t.All(), k, q) == Read(s.All(), k, q)
  {
    InstallReads(s, a, t);
    hide Inv, Does, Unexposed, Read;
  }

  lemma OnlyInstallsExpose(s: State, a: Action, q: nat, k: UserKey)
    ensures !a.Install? ==> !ExposesKey(s, a, q, k)
  {
  }

  /** Maintenance: an action other than a write leaves the read of a key as it is, at any sequence number that a
      reader may still ask for, exactly when it does not expose the key; only installations ever do. */
  lemma MaintenanceReadIff(s: State, a: Action, t: State, k: UserKey, q: nat)
    requires Inv(s) && Does(s, a, t) && !a.Write? && q >= s.Floor()
    ensures Read(t.All(), k, q) == Read(s.All(), k, q) <==> !ExposesKey(s, a, q, k)
    ensures ExposesKey(s, a, q, k) ==> a.Install?
  {
    hide Inv, Does, Read, Unexposed, ExposesKey;
    OnlyInstallsExpose(s, a, q, k);
    match a {
      case Write(_) =>
      case SwitchMemTable => SwitchInv(s, a, t);
      case TakeNumber => NumberInv(s, a, t);
      case FlushEmpty => FlushEmptyInv(s, a, t);
      case FlushTable(_, _) => FlushInv(s, a, t);
      case TakeSnapshot => SnapshotInv(s, a, t);
      case ReleaseSnapshot(_) => SnapshotInv(s, a, t);
      case BeginCompaction(_, _, _, _, _) => BeginInv(s, a, t);
      case OpenOutput => OutputInv(s, a, t);
      case Install(_, _) => InstallReadIff(s, a, t, k, q);
      case Abandon => OutputInv(s, a, t);
      case TrivialMove(_, _, _, _, _) => MoveInv(s, a, t);
    }
  }

  lemma FloorGrows(s: State, a: Action, t: State)
    requires Inv(s) && Does(s, a, t)
    ensures t.Floor() >= s.Floor() && t.lastSeq >= s.lastSeq
    ensures !a.Write? ==> t.history == s.history
  {
  }

  lemma StepReads(s: State, a: Action, t: State)
    requires Inv(s) && ReadsOk(s) && Does(s, a, t) && Unexposed(s, a)
    ensures ReadsOk(t)
  {
    if a.Write? {
      WriteReads(s, a, t);
    } else {
      FloorGrows(s, a, t);
      forall k, q | q >= t.Floor() ensures Read(t.All(), k, q) == Read(t.history, k, q) {
        if a.Install? {
          InstallRead(s, a, t, k, q);
        } else {
          MaintenanceReadIff(s, a, t, k, q);
        }
        assert Read(s.All(), k, q) == Read(s.history, k, q);
      }
    }
  }

  /** The invariant together with correct reads.  The match keeps the predicate folded where it is only
      passed on. */
  ghost predicate Sound(s: State) {
    match s
    case State(_, _, _, _, _, _, _, _) => Inv(s) && ReadsOk(s)
  }

  lemma StepSound(s: State, a: Action, t: State)
    ensures Sound(s) && Does(s, a, t) && Unexposed(s, a) ==> Sound(t)
  {
    if Sound(s) && Does(s, a, t) && Unexposed(s, a) {
      StepInv(s, a, t);
      StepReads(s, a, t);
    }
  }

  // ---------------------------------------------------------------- runs

  ghost predicate Run(states: seq<State>, actions: seq<Action>) {
    && |states| == |actions| + 1
    && Init(states[0])
    && forall i :: 0 <= i < |actions| ==> Does(states[i], actions[i], states[i + 1])
  }

  /** The structural invariant holds in every state of every run, with no further hypothesis. */
  lemma {:induction false} RunInv(states: seq<State>, actions: seq<Action>, n: nat)
    requires Run(states, actions) && n < |states|
    ensures Inv(states[n])
  {
    if n == 0 {
      InitInv(states[0]);
    } else {
      RunInv(states, actions, n - 1);
      StepInv(states[n - 1], actions[n - 1], states[n]);
    }
  }

  ghost predicate AllUnexposed(states: seq<State>, actions: seq<Action>)
    requires |states| == |actions| + 1
  {
    forall i :: 0 <= i < |actions| ==> Unexposed(states[i], actions[i])
  }

  lemma InitSound(s: State)
    ensures Init(s) ==> Sound(s)
  {
    if Init(s) {
      InitInv(s);
    }
  }

  lemma {:induction false} RunSound(states: seq<State>, actions: seq<Action>, n: nat)
    requires Run(states, actions) && n < |states| && AllUnexposed(states, actions)
    ensures Sound(states[n])
  {
    if n == 0 {
      InitSound(states[0]);
    } else {
      RunSound(states, actions, n - 1);
      StepSound(states[n - 1], actions[n - 1], states[n]);
    }
  }

  /** In every run whose installations expose nothing, every state answers every read that a reader
      can ask from the full history. */
  lemma RunReads(states: seq<State>, actions: seq<Action>, n: nat)
    requires Run(states, actions) && n < |states|
    requires forall i :: 0 <= i < |actions| ==> Unexposed(states[i], actions[i])
    ensures ReadsOk(states[n])
  {
    RunSound(states, actions, n);
  }

  /** An installation that exposes a value changes the read of some key at the oldest sequence number
      that a reader may ask for. */
  lemma ExposureShows(s: State, a: Action, t: State)
    requires Inv(s) && Does(s, a, t) && !Unexposed(s, a)
    ensures a.Install? && t.Floor() == s.Floor() && t.history == s.history
    ensures exists k :: Read(s.All(), k, s.Floor()) != Read(t.All(), k, s.Floor())
  {
    hide Inv, Does, Compacting, Exposed, Replaced, Survivors, Read;
    InstallCompacts(s, a, t);
    var r := s.running.value;
    var at := s.Floor();
    var i, g :| Exposed(s.All(), BehindFiles(s.v, r.inputs), r.base, r.inputs, a.input, r.snap, at, i, g);
    ExposedIndex(s.All(), BehindFiles(s.v, r.inputs), r.base, r.inputs, a.input, r.snap, at, i, g);
    ExposureChangesRead(s.Memory(), s.v, t.v, r.base, r.inputs, a.input, r.snap, at, a.outputs, i, g);
    assert Read(s.All(), a.input[i].key, at) != Read(t.All(), a.input[i].key, at);
  }

  lemma ExposedIndex(E: set<Entry>, B: set<File>, base: Version, inputs: Inputs,
                     input: seq<Entry>, snap: nat, at: nat, i: int, g: File)
    requires Exposed(E, B, base, inputs, input, snap, at, i, g)
    ensures 0 <= i < |input|
  {
  }

  ghost predicate AllReadsOk(states: seq<State>) {
    forall n :: 0 <= n < |states| ==> ReadsOk(states[n])
  }

  /** A run answers every read that a reader may ask for from the full history exactly when none of its
      installations exposes anything. */
  lemma RunReadsIff(states: seq<State>, actions: seq<Action>)
    requires Run(states, actions)
    ensures AllReadsOk(states) <==> AllUnexposed(states, actions)
  {
    hide Inv, Does, Unexposed, ReadsOk;
    if AllUnexposed(states, actions) {
      forall n | 0 <= n < |states| ensures ReadsOk(states[n]) {
        RunReads(states, actions, n);
      }
    }
    if AllReadsOk(states) {
      forall i | 0 <= i < |actions| ensures Unexposed(states[i], actions[i]) {
        RunInv(states, actions, i);
        BothReadsOk(states[i], actions[i], states[i + 1]);
      }
    }
  }

  lemma BothReadsOk(s: State, a: Action, t: State)
    requires Inv(s) && Does(s, a, t) && ReadsOk(s) && ReadsOk(t)
    ensures Unexposed(s, a)
  {
    hide Inv, Does, Unexposed, Read;
    forall k | t.Floor() == s.Floor() && t.history == s.history
      ensures Read(s.All(), k, s.Floor()) == Read(t.All(), k, s.Floor())
    {
      assert Read(s.All(), k, s.Floor()) == Read(s.history, k, s.Floor());
    }
    if !Unexposed(s, a) {
      ExposureShows(s, a, t);
    }
  }

  lemma WriteHistory(s: State, a: Action, t: State, k: UserKey, q: nat)
    requires SequenceOk(s) && a.Write? && Does(s, a, t) && q <= s.lastSeq
    ensures Read(t.history, k, q) == Read(s.history, k, q)
  {
    var N := BatchEntries(a.batch, s.lastSeq + 1);
    BatchFacts(a.batch, s.lastSeq + 1, s.history);
    assert t.history == N + s.history && N + s.history == s.history + N;
    ReadSplit(N, s.history, k, q);
  }

  /** What was written up to a sequence number is not rewritten later. */
  lemma StepHistory(s: State, a: Action, t: State, k: UserKey, q: nat)
    ensures Inv(s) && Does(s, a, t) ==> s.lastSeq <= t.lastSeq
    ensures Inv(s) && Does(s, a, t) && q <= s.lastSeq ==> Read(t.history, k, q) == Read(s.history, k, q)
  {
    if Inv(s) && Does(s, a, t) {
      FloorGrows(s, a, t);
      if a.Write? && q <= s.lastSeq {
        WriteHistory(s, a, t, k, q);
      }
    }
  }

  lemma RunHistoryStep(states: seq<State>, actions: seq<Action>, n: nat, k: UserKey, q: nat)
    requires Run(states, actions) && 0 < n < |states|
    ensures states[n - 1].lastSeq <= states[n].lastSeq
    ensures q <= states[n - 1].lastSeq ==> Read(states[n].history, k, q) == Read(states[n - 1].history, k, q)
  {
    RunInv(states, actions, n - 1);
    StepHistory(states[n - 1], actions[n - 1], states[n], k, q);
  }

  lemma {:induction false} HistoryAtSnapshot(states: seq<State>,
                                             actions: seq<Action>, m: nat, n: nat, k: UserKey, q: nat)
    requires Run(states, actions) && m <= n < |states| && q <= states[m].lastSeq
    ensures Read(states[n].history, k, q) == Read(states[m].history, k, q)
    ensures states[m].lastSeq <= states[n].lastSeq
  {
    hide Run, Read;
    if m < n {
      HistoryAtSnapshot(states, actions, m, n - 1, k, q);
      RunHistoryStep(states, actions, n, k, q);
    }
  }

  /** Snapshot isolation: a snapshot taken in state `m` and still allowed in state `n` reads in `n`
      exactly what had been written when it was taken. */
  lemma SnapshotIsolation(states: seq<State>, actions: seq<Action>, m: nat, n: nat, k: UserKey)
    requires Run(states, actions) && m <= n < |states|
    requires forall i :: 0 <= i < |actions| ==> Unexposed(states[i], actions[i])
    requires states[m].lastSeq >= states[n].Floor()
    ensures Read(states[n].All(), k, states[m].lastSeq) == Read(states[m].history, k, states[m].lastSeq)
  {
    RunReads(states, actions, n);
    HistoryAtSnapshot(states, actions, m, n, k, states[m].lastSeq);
  }

  /** Every snapshot was the last sequence number of an earlier state. */
  lemma {:induction false} SnapshotTaken(states: seq<State>, actions: seq<Action>, n: nat, x: nat) returns (m: nat)
    requires Run(states, actions) && n < |states| && x in states[n].snapshots
    ensures m <= n && states[m].lastSeq == x
  {
    if n == 0 {
      assert false;
    } else if x in states[n - 1].snapshots {
      m := SnapshotTaken(states, actions, n - 1, x);
    } else {
      m := n - 1;
      assert Does(states[n - 1], actions[n - 1], states[n]);
    }
  }

  lemma FloorTaken(states: seq<State>, actions: seq<Action>, n: nat) returns (m: nat)
    requires Run(states, actions) && n < |states|
    ensures m <= n && states[m].lastSeq == states[n].Floor()
  {
    hide Does;
    if states[n].snapshots == [] {
      m := n;
    } else {
      m := SnapshotTaken(states, actions, n, states[n].snapshots[0]);
    }
  }

  /** What was written when a snapshot was taken is what it reads for as long as it is allowed. */
  ghost predicate Isolated(states: seq<State>) {
    forall m, n, k :: 0 <= m <= n < |states| && states[m].lastSeq >= states[n].Floor() ==>
      Read(states[n].All(), k, states[m].lastSeq) == Read(states[m].history, k, states[m].lastSeq)
  }

  /** Snapshot isolation holds of a run exactly when none of its installations exposes anything. */
  lemma SnapshotIsolationIff(states: seq<State>, actions: seq<Action>)
    requires Run(states, actions)
    ensures Isolated(states) <==> AllUnexposed(states, actions)
  {
    hide Inv, Does, Unexposed, ReadsOk, Read;
    if AllUnexposed(states, actions) {
      forall m, n, k | 0 <= m <= n < |states| && states[m].lastSeq >= states[n].Floor()
        ensures Read(states[n].All(), k, states[m].lastSeq) == Read(states[m].history, k, states[m].lastSeq)
      {
        SnapshotIsolation(states, actions, m, n, k);
      }
    }
    if Isolated(states) {
      forall i | 0 <= i < |actions| ensures Unexposed(states[i], actions[i]) {
        IsolatedStep(states, actions, i);
      }
    }
  }

  lemma IsolatedStep(states: seq<State>, actions: seq<Action>, i: nat)
    requires Run(states, actions) && Isolated(states) && i < |actions|
    ensures Unexposed(states[i], actions[i])
  {
    hide Inv, Does, Unexposed, Read;
    RunInv(states, actions, i);
    var s, t := states[i], states[i + 1];
    var m := FloorTaken(states, actions, i);
    forall k | t.Floor() == s.Floor() ensures Read(s.All(), k, s.Floor()) == Read(t.All(), k, s.Floor()) {
      assert Read(s.All(), k, states[m].lastSeq) == Read(states[m].history, k, states[m].lastSeq);
    }
    if !Unexposed(s, actions[i]) {
      ExposureShows(s, actions[i], t);
    }
  }
}
