/** The objects that carry the store's state.  Each operation is a step of the state machine of module Lsm:
    its contract names the action, and the invariant of the machine is the object's. */
module Db {
  import opened Keys
  import opened Versions
  import opened Pick
  import opened Select
  import opened Compact
  import opened Install
  import opened Preserve
  import opened Flush
  import opened Lsm
  import opened MemTables
  import Builders
  import Lookup
  import DbIter
  import StoreIterators

  // ---------------------------------------------------------------- edits as steps

  lemma SameLevel(v: Version, e: Builders.Edit, v2: Version, l: nat)
    requires l < NUM_LEVELS && Builders.EditedTo(v, e, v2) && SortedLevel(v[l])
    requires forall d :: d in e.deleted ==> d.0 != l
    requires forall a :: a in e.added ==> a.0 != l
    ensures v2[l] == v[l]
  {
    assert Builders.EditedLevel(v[l], e, l, v2[l]);
    Builders.SortedUnique(v2[l], v[l]);
  }

  lemma EditAdds(v: Version, p: nat, f: File, v2: Version)
    requires LevelsOk(v) && p < NUM_LEVELS
    requires Builders.EditedTo(v, Builders.Edit({}, [(p, f)]), v2)
    ensures Added(v, p, f, v2)
  {
    var e := Builders.Edit({}, [(p, f)]);
    forall l | 0 <= l < NUM_LEVELS ensures SortedLevel(v2[l]) {
      assert Builders.EditedLevel(v[l], e, l, v2[l]);
    }
    forall l | 0 <= l < NUM_LEVELS && l != p ensures v2[l] == v[l] {
      SameLevel(v, e, v2, l);
    }
    assert Builders.EditedLevel(v[p], e, p, v2[p]);
    assert (p, f) in e.added;
  }

  /** The edit of a compaction: its inputs are deleted, its outputs added one level down. */
  function CompactionEdit(inputs: Inputs, outputs: Level): Builders.Edit {
    Builders.Edit((set f | f in inputs.lower :: (inputs.level, f.number))
        + (set f | f in inputs.upper :: (inputs.level + 1, f.number)),
                  seq(|outputs|, i requires 0 <= i < |outputs| => (inputs.level + 1, outputs[i])))
  }

  lemma EditMembers(v: Version, inputs: Inputs, outputs: Level, l: nat, f: File)
    requires inputs.level + 1 < NUM_LEVELS && InputsWithin(v, inputs) && NumbersUnique(v)
    requires l < NUM_LEVELS && f in v[l]
    ensures (l, f.number) in CompactionEdit(inputs, outputs).deleted <==>
            (l == inputs.level && f in inputs.lower) || (l == inputs.level + 1 && f in inputs.upper)
  {
  }

  lemma EditAdded(inputs: Inputs, outputs: Level, l: nat, f: File)
    ensures (l, f) in CompactionEdit(inputs, outputs).added <==> l == inputs.level + 1 && f in outputs
  {
    var e := CompactionEdit(inputs, outputs);
    if f in outputs && l == inputs.level + 1 {
      var i :| 0 <= i < |outputs| && outputs[i] == f;
      assert e.added[i] == (l, f);
    }
  }

  lemma EditReplaces(v: Version, inputs: Inputs, outputs: Level, v2: Version)
    requires inputs.level + 1 < NUM_LEVELS && InputsWithin(v, inputs) && NumbersUnique(v) && LevelsOk(v)
    requires Builders.EditedTo(v, CompactionEdit(inputs, outputs), v2)
    ensures Replaced(v, v2, inputs, outputs)
  {
    var e := CompactionEdit(inputs, outputs);
    forall l | 0 <= l < NUM_LEVELS ensures SortedLevel(v2[l]) {
      assert Builders.EditedLevel(v[l], e, l, v2[l]);
    }
    forall l | 0 <= l < NUM_LEVELS && l != inputs.level && l != inputs.level + 1 ensures v2[l] == v[l] {
      SameLevel(v, e, v2, l);
    }
    forall l, f | (l == inputs.level || l == inputs.level + 1)
      ensures f in v2[l] <==>
              (&& f in v[l]
               && !(l == inputs.level && f in inputs.lower)
               && !(l == inputs.level + 1 && f in inputs.upper))
                              || (l == inputs.level + 1 && f in outputs)
    {
      assert Builders.EditedLevel(v[l], e, l, v2[l]);
      EditAdded(inputs, outputs, l, f);
      if f in v[l] {
        EditMembers(v, inputs, outputs, l, f);
      }
    }
  }

  lemma EditNeverReadded(v: Version, inputs: Inputs, outputs: Level)
    requires inputs.level + 1 < NUM_LEVELS
    requires forall i, j :: 0 <= i < j < |outputs| ==> outputs[i].number != outputs[j].number
    requires forall f, o :: f in v[inputs.level + 1] && o in outputs ==> f.number != o.number
    ensures Builders.NeverReadded(v, [CompactionEdit(inputs, outputs)])
  {
    var e := CompactionEdit(inputs, outputs);
    forall a | a in e.added ensures a.0 == inputs.level + 1 && a.1 in outputs {
      EditAdded(inputs, outputs, a.0, a.1);
    }
    assert Builders.AddsNew(v, [e], 0);
  }

  // ---------------------------------------------------------------- picking a compaction

  /** Why a compaction runs: a level is too big, a file was probed too often, or not at all.  The
      scores and seek counts behind it are not modelled. */
  datatype Trigger = SizeTrigger(level: nat) | SeekTrigger(level: nat, file: File) | NoTrigger

  ghost predicate TriggerOk(v: Version, t: Trigger) {
    match t
    case SizeTrigger(level) => level + 1 < NUM_LEVELS && v[level] != []
    case SeekTrigger(level, file) => level + 1 < NUM_LEVELS && file in v[level]
    case NoTrigger => true
  }

  /** The first file that ends after the compaction pointer, or else the first file of the level. */
  ghost predicate RoundRobin(files: Level, pointer: Option<IKey>, f: File) {
    exists i :: PickedAt(files, pointer, i) && f == files[i]
  }

  /** The file ends at or before the compaction pointer. */
  predicate Passed(pointer: Option<IKey>, f: File) {
    pointer.Some? && !Less(pointer.value, f.largest)
  }

  ghost predicate PickedAt(files: Level, pointer: Option<IKey>, i: int) {
    && 0 <= i < |files|
    && (forall j :: 0 <= j < i ==> Passed(pointer, files[j]))
    && (Passed(pointer, files[i]) ==> i == 0 && forall f :: f in files ==> Passed(pointer, f))
  }

  method PickFile(files: Level, pointer: Option<IKey>) returns (f: File)
    requires files != []
    ensures RoundRobin(files, pointer, f) && f in files
  {
    var i := 0;
    while i < |files|
      invariant i <= |files|
      invariant forall j :: 0 <= j < i ==> Passed(pointer, files[j])
    {
      if pointer.None? || Less(pointer.value, files[i].largest) {
        f := files[i];
        assert PickedAt(files, pointer, i);
        return;
      }
      i := i + 1;
    }
    f := files[0];
    assert PickedAt(files, pointer, 0);
  }

  lemma SingleSeed(v: Version, level: nat, f: File)
    requires LevelsOk(v) && 0 < level < NUM_LEVELS && f in v[level]
    ensures SeedOk(v, level, [f], f.smallest.key, f.largest.key)
  {
    FilesRanged(v[level]);
    forall x | f.smallest.key <= x <= f.largest.key ensures HeldBySome([f], x) {
      assert f in [f] && Holds(f, x);
    }
  }

  lemma ZeroSeed(v: Version, f: File, seed: Level, lo: Option<UserKey>, hi: Option<UserKey>)
    requires LevelsOk(v) && f in v[0]
    requires seed == Meeting(v[0], lo, hi)
    requires LeastClosed(v[0], Some(f.smallest.key), Some(f.largest.key), lo, hi)
    ensures f in seed && lo.Some? && hi.Some? && SeedOk(v, 0, seed, lo.value, hi.value)
  {
    FilesRanged(v[0]);
    forall x | lo.value <= x <= hi.value ensures HeldBySome(seed, x) {
      assert InRange(x, lo, hi);
      if InRange(x, Some(f.smallest.key), Some(f.largest.key)) {
        assert f in seed && Holds(f, x);
      } else {
        assert HeldBySome(v[0], x);
        var g :| g in v[0] && Holds(g, x);
        assert g in seed;
      }
    }
  }

  /** The files a compaction of `level` starts from: the picked file alone, or on level 0 every file
      its closed range meets. */
  method SeedFor(v: Version, level: nat, f: File) returns (seed: Level, ghost lo: UserKey, ghost hi: UserKey)
    requires LevelsOk(v) && level < NUM_LEVELS && f in v[level]
    ensures SeedOk(v, level, seed, lo, hi) && f in seed
  {
    seed := [f];
    lo, hi := f.smallest.key, f.largest.key;
    if level == 0 {
      ghost var glo, ghi;
      seed, glo, ghi := GetOverlappingInputs(v[0], true, Some(f.smallest.key), Some(f.largest.key));
      ZeroSeed(v, f, seed, glo, ghi);
      lo, hi := glo.value, ghi.value;
    } else {
      SingleSeed(v, level, f);
    }
  }

  lemma PrefixMember(seed: Level, first: Level, f: File)
    requires f in seed && seed <= first
    ensures f in first
  {
    var i :| 0 <= i < |seed| && seed[i] == f;
    assert first[i] == f;
  }

  class VersionSet {
    var current: Version
    var compactPointer: seq<Option<IKey>>
    var nextFileNumber: nat
    var lastSequence: nat

    constructor (next: nat)
      ensures EmptyVersion(current) && nextFileNumber == next && lastSequence == 0
      ensures |compactPointer| == NUM_LEVELS
    {
      current := [[], [], [], [], [], [], []];
      compactPointer := seq(NUM_LEVELS, i => None);
      nextFileNumber, lastSequence := next, 0;
    }

    method NewFileNumber() returns (n: nat)
      modifies this`nextFileNumber
      ensures n == old(nextFileNumber) && nextFileNumber == n + 1
    {
      n := nextFileNumber;
      nextFileNumber := nextFileNumber + 1;
    }

    /** Applies an edit to the current version. */
    method LogAndApply(e: Builders.Edit)
      requires LevelsOk(current) && Builders.NeverReadded(current, [e])
      modifies this`current
      ensures Builders.EditedTo(old(current), e, current)
    {
      var v := Builders.ApplyEdit(current, e);
      current := v;
    }

    /** Picks the inputs of the next compaction and advances the pointer of its level to the end of
        the lower inputs. */
    method PickCompaction(t: Trigger, target: nat)
      returns (r: Option<Inputs>, ghost lo: IKey, ghost hi: IKey, ghost allLo: IKey, ghost allHi: IKey)
      requires LevelsOk(current) && TriggerOk(current, t) && |compactPointer| == NUM_LEVELS
      modifies this`compactPointer
      ensures r.None? <==> t.NoTrigger?
      ensures r.None? ==> compactPointer == old(compactPointer)
      ensures r.Some? ==>
                && r.value.level == t.level
                && Selected(current, r.value, lo, hi, allLo, allHi)
                && compactPointer == old(compactPointer)[t.level := Some(hi)]
      ensures t.SizeTrigger? ==>
                exists f :: f in r.value.lower && RoundRobin(current[t.level], old(compactPointer)[t.level], f)
      ensures t.SeekTrigger? ==> t.file in r.value.lower
    {
      lo, hi, allLo, allHi := IKey(0, 0), IKey(0, 0), IKey(0, 0), IKey(0, 0);
      if t.NoTrigger? {
        return None, lo, hi, allLo, allHi;
      }
      var level := t.level;
      var f;
      if t.SizeTrigger? {
        f := PickFile(current[level], compactPointer[level]);
      } else {
        f := t.file;
      }
      var seed;
      ghost var slo, shi;
      seed, slo, shi := SeedFor(current, level, f);
      var inputs, largest;
      ghost var first, firstLo, firstHi;
      inputs, largest, lo, allLo, allHi, first, firstLo, firstHi :=
        SetupOtherInputs(current, level, seed, target, slo, shi);
      PrefixMember(seed, first, f);
      hi := largest;
      compactPointer := compactPointer[level := Some(largest)];
      r := Some(inputs);
    }
  }

  // ---------------------------------------------------------------- the store

  // Each lemma below turns the equations an operation establishes into a sound step.

  lemma MemoryBelow(s: State)
    ensures Sound(s) ==> Sorted(s.mem) && forall e :: e in s.mem ==> e.seqno < s.lastSeq + 1
  {
    if Sound(s) {
      assert SequenceOk(s);
      forall e | e in s.mem ensures e.seqno <= s.lastSeq {
        assert e in Elems(s.mem) && e in s.All();
      }
    }
  }

  lemma StateStacked(s: State, q: nat)
    requires Sound(s) && (q in s.snapshots || q == s.lastSeq)
    ensures StoreIterators.Stacked(s.mem, s.imm, s.v) && s.Floor() <= q <= s.lastSeq <= MAX_SEQ
  {
    hide VersionOk, ReadsOk;
    assert Elems(s.mem) + (s.Imm() + Contents(s.v)) == s.All();
    assert Distinct(s.All());
    if q in s.snapshots {
      var i :| 0 <= i < |s.snapshots| && s.snapshots[i] == q;
    }
  }

  lemma SameShown(shown: seq<(UserKey, string)>, s: State, q: SeqNum)
    requires Sound(s) && q >= s.Floor()
    requires StoreIterators.ShowsReads(shown, StoreIterators.Everything(s.mem, s.imm, s.v), q)
    ensures StoreIterators.ShowsReads(shown, s.history, q)
  {
    hide Inv, Read;
    assert StoreIterators.Everything(s.mem, s.imm, s.v) == s.All();
  }

  lemma WriteStep(s: State, batch: seq<(UserKey, Op)>, t: State)
    requires Wrote(s, batch, t)
    ensures Does(s, Action.Write(batch), t)
    ensures Sound(s) ==> Sound(t)
  {
    assert Does(s, Action.Write(batch), t) by {
      hide Sound;
    }
    hide Does, Sound, Wrote;
    StepSound(s, Action.Write(batch), t);
  }

  ghost predicate Flushed(s: State, p: nat, f: File, t: State) {
    match s
    case State(_, _, _, _, _, _, _, _) =>
      && s.imm == Some(f.entries) && FileOk(f) && f.number == s.nextFile && p <= MAX_MEM_COMPACT_LEVEL
      && (p > 0 ==> ClearThrough(s.v, p, f.smallest.key, f.largest.key))
      && Builders.EditedTo(s.v, Builders.Edit({}, [(p, f)]), t.v)
      && t == s.(imm := None, v := t.v, nextFile := s.nextFile + 1)
  }

  lemma FlushStep(s: State, p: nat, f: File, t: State)
    requires Flushed(s, p, f, t) && LevelsOk(s.v)
    ensures Does(s, FlushTable(p, f), t)
    ensures Sound(s) ==> Sound(t)
  {
    EditAdds(s.v, p, f, t.v);
    StepSound(s, FlushTable(p, f), t);
  }

  lemma FlushPrepared(s: State, p: nat, f: File)
    requires f.number == s.nextFile && p < NUM_LEVELS
    ensures Sound(s) ==> LevelsOk(s.v) && Builders.NeverReadded(s.v, [Builders.Edit({}, [(p, f)])])
  {
    if Sound(s) {
      assert NumbersOk(s);
      assert Builders.AddsNew(s.v, [Builders.Edit({}, [(p, f)])], 0);
    }
  }

  lemma BeginStep(s: State, inputs: Inputs, lo: IKey, hi: IKey, allLo: IKey, allHi: IKey, t: State)
    requires s.running.None? && Selected(s.v, inputs, lo, hi, allLo, allHi)
    requires t == s.(running := Some(Running(s.v, inputs, allLo, allHi, s.Floor(), {})))
    ensures Does(s, BeginCompaction(inputs, lo, hi, allLo, allHi), t)
    ensures Sound(s) ==> Sound(t)
  {
    StepSound(s, BeginCompaction(inputs, lo, hi, allLo, allHi), t);
  }

  lemma MoveStep(s: State, inputs: Inputs, lo: IKey, hi: IKey, allLo: IKey, allHi: IKey, t: State)
    requires s.running.None? && Selected(s.v, inputs, lo, hi, allLo, allHi)
    requires |inputs.lower| == 1 && inputs.upper == [] && Replaced(s.v, t.v, inputs, inputs.lower)
    requires t == s.(v := t.v)
    ensures Does(s, TrivialMove(inputs, lo, hi, allLo, allHi), t)
    ensures Sound(s) ==> Sound(t)
  {
    StepSound(s, TrivialMove(inputs, lo, hi, allLo, allHi), t);
  }

  // ---------------------------------------------------------------- what happens during a compaction

  /** What other threads do while a compaction has given up the mutex. */
  datatype Interlude = Writing(batch: seq<(UserKey, Op)>) | Switching | Snapshotting | Releasing(i: nat)

  /** The steps that may come between the start of a compaction and its installation. */
  predicate Meanwhile(a: Action) {
    || a.Write? || a.SwitchMemTable? || a.TakeSnapshot? || a.ReleaseSnapshot?
    || a.FlushTable? || a.FlushEmpty? || a.OpenOutput?
  }

  /** A run from `s` to `t` of such steps. */
  ghost predicate Steps(s: State, states: seq<State>, acts: seq<Action>, t: State) {
    && |states| == |acts| + 1 && states[0] == s && states[|acts|] == t
    && forall i :: 0 <= i < |acts| ==> Meanwhile(acts[i]) && Does(states[i], acts[i], states[i + 1])
  }

  /** The same compaction is running; it may have opened more outputs. */
  ghost predicate SameTask(r: Option<Running>, r2: Option<Running>) {
    r.Some? && r2.Some? && r2.value == r.value.(reserved := r2.value.reserved) && r.value.reserved <= r2.value.reserved
  }

  /** The store has come from `s` to `t` while the compaction went on. */
  ghost predicate Since(s: State, states: seq<State>, acts: seq<Action>, t: State) {
    Steps(s, states, acts, t) && SameTask(s.running, t.running)
  }

  lemma SinceStart(s: State)
    requires s.running.Some?
    ensures Since(s, [s], [], s)
  {
  }

  lemma SinceStep(s: State, states: seq<State>, acts: seq<Action>, t: State, a: Action, u: State)
    requires Since(s, states, acts, t) && Meanwhile(a) && Does(t, a, u)
    ensures Since(s, states + [u], acts + [a], u)
    ensures t.running.value.reserved <= u.running.value.reserved
  {
    TaskKept(t, a, u);
    hide Does;
    var states2, acts2 := states + [u], acts + [a];
    forall i | 0 <= i < |acts2| ensures Meanwhile(acts2[i]) && Does(states2[i], acts2[i], states2[i + 1]) {
      assert i < |acts| ==> Meanwhile(acts[i]) && Does(states[i], acts[i], states[i + 1]);
    }
  }

  lemma TaskKept(s: State, a: Action, t: State)
    requires Does(s, a, t) && Meanwhile(a) && s.running.Some?
    ensures SameTask(s.running, t.running)
  {
  }

  lemma OpenStep(s: State, t: State)
    requires s.running.Some?
    requires t == s.(nextFile := s.nextFile + 1,
                     running := Some(s.running.value.(reserved := s.running.value.reserved + {s.nextFile})))
    ensures Does(s, OpenOutput, t)
    ensures Sound(s) ==> Sound(t) && s.nextFile !in s.running.value.reserved
  {
    assert Unexposed(s, OpenOutput);
    if Sound(s) {
      assert NumbersOk(s);
    }
    hide Sound, Unexposed;
    StepSound(s, OpenOutput, t);
  }

  /** What the loop of a compaction hands over for installation. */
  ghost predicate Ready(r: Running, input: seq<Entry>, outputs: Level) {
    && Sorted(input) && Elems(input) == EntriesOf(r.inputs.All())
    && FilesOk(outputs) && Disjoint(outputs)
    && EntriesOf(outputs) == Elems(Survivors(r.base, r.inputs, input, r.snap))
    && (forall i, j :: 0 <= i < j < |outputs| ==> outputs[i].number != outputs[j].number)
    && (forall f :: f in outputs ==> f.number in r.reserved)
  }

  lemma OutputsReady(r: Running, input: seq<Entry>, outputs: Level)
    requires Sorted(input) && Elems(input) == EntriesOf(r.inputs.All())
    requires OutputsOk(outputs, Survivors(r.base, r.inputs, input, r.snap), r.reserved)
    ensures Ready(r, input, outputs)
  {
    KeptSorted(input, |input|, r.snap, r.base, r.inputs.level);
    OutputsDisjoint(outputs);
  }

  /** The outputs of a compaction replace its inputs. */
  ghost predicate Installed(s: State, input: seq<Entry>, outputs: Level, t: State) {
    match s
    case State(_, _, _, _, _, _, _, _) =>
      && s.running.Some? && Ready(s.running.value, input, outputs)
      && Replaced(s.v, t.v, s.running.value.inputs, outputs)
      && t == s.(v := t.v, running := None)
  }

  lemma InstallStep(s: State, input: seq<Entry>, outputs: Level, t: State)
    requires Installed(s, input, outputs, t)
    ensures Does(s, Action.Install(input, outputs), t)
    ensures Sound(s) && Unexposed(s, Action.Install(input, outputs)) ==> Sound(t)
  {
    StepSound(s, Action.Install(input, outputs), t);
  }

  lemma ReadyNumbers(r: Running, input: seq<Entry>, outputs: Level)
    requires Ready(r, input, outputs)
    ensures forall i, j :: 0 <= i < j < |outputs| ==> outputs[i].number != outputs[j].number
    ensures forall f :: f in outputs ==> f.number in r.reserved
  {
  }

  /** Outputs have numbers that no file of the version has. */
  lemma InstallPrepared(s: State, outputs: Level)
    requires Sound(s) && s.running.Some?
    requires forall i, j :: 0 <= i < j < |outputs| ==> outputs[i].number != outputs[j].number
    requires forall f :: f in outputs ==> f.number in s.running.value.reserved
    ensures var inputs := s.running.value.inputs;
            && inputs.level + 1 < NUM_LEVELS && InputsWithin(s.v, inputs) && NumbersUnique(s.v) && LevelsOk(s.v)
            && Builders.NeverReadded(s.v, [CompactionEdit(inputs, outputs)])
  {
    var inputs := s.running.value.inputs;
    assert RunningOk(s) && NumbersOk(s) && VersionOk(s.v);
    assert ReservedOk(s.v, s.nextFile, s.running.value.reserved);
    EditNeverReadded(s.v, inputs, outputs);
  }

  class Store {
    const versions: VersionSet
    const target: nat
    var mem: seq<Entry>
    var imm: Option<seq<Entry>>
    var snapshots: seq<nat>
    ghost var running: Option<Running>
    ghost var history: set<Entry>

    ghost function Abs(): State
      reads this, versions
    {
      State(mem, imm, versions.current, versions.lastSequence, snapshots, versions.nextFileNumber, running, history)
    }

    /** The state satisfies the invariant and answers reads from the history. */
    ghost predicate Valid()
      reads this, versions
    {
      Sound(Abs()) && |versions.compactPointer| == NUM_LEVELS
    }

    constructor (firstFile: nat, target: nat)
      ensures Valid() && Init(Abs())
    {
      versions := new VersionSet(firstFile);
      this.target := target;
      mem, imm, snapshots, running, history := [], None, [], None, {};
      new;
      InitInv(Abs());
    }

    /** Returns exactly what was last written to the key as of the snapshot. */
    method Get(k: UserKey, snapshot: Option<nat>) returns (value: Option<string>)
      requires Valid() && (snapshot.Some? ==> snapshot.value in snapshots)
      ensures value == Read(history, k, if snapshot.Some? then snapshot.value else versions.lastSequence)
    {
      var s := if snapshot.Some? then snapshot.value else versions.lastSequence;
      ghost var st := Abs();
      assert st.Memory() + Contents(st.v) == Elems(mem) + (st.Imm() + Contents(versions.current));
      assert Distinct(st.All());
      value := Lookup.Get(mem, imm, versions.current, k, s);
      assert s >= st.Floor();
      assert Read(st.All(), k, s) == Read(history, k, s);
    }

    /** An iterator over what was last written to each key as of the snapshot, deleted keys left out.  It keeps
        showing that, whatever the store does meanwhile. */
    method NewIterator(snapshot: Option<nat>) returns (it: DbIter.DBIter)
      requires Valid() && (snapshot.Some? ==> snapshot.value in snapshots)
      ensures fresh(it) && it.Valid() && !it.valid
      ensures var s: nat := if snapshot.Some? then snapshot.value else versions.lastSequence;
              s <= MAX_SEQ && StoreIterators.ShowsReads(it.Shown(), history, s)
    {
      var s := if snapshot.Some? then snapshot.value else versions.lastSequence;
      ghost var st := Abs();
      StateStacked(st, s);
      it := StoreIterators.NewIterator(mem, imm, versions.current, s);
      SameShown(it.Shown(), st, s);
    }

    /** Applies a batch: its entries get the next sequence numbers. */
    method Write(batch: seq<(UserKey, Op)>)
      requires Valid() && versions.lastSequence + |batch| < MAX_SEQ
      modifies this, versions
      ensures Valid() && Does(old(Abs()), Action.Write(batch), Abs())
    {
      ghost var s := Abs();
      MemoryBelow(s);
      Insert(batch);
      WriteStep(s, batch, Abs());
    }

    method Insert(batch: seq<(UserKey, Op)>)
      requires versions.lastSequence + |batch| < MAX_SEQ
      requires Sorted(mem) && forall e :: e in mem ==> e.seqno < versions.lastSequence + 1
      modifies this`mem, this`history, versions`lastSequence
      ensures Wrote(old(Abs()), batch, Abs())
    {
      var r := InsertBatch(mem, batch, versions.lastSequence + 1);
      history := history + BatchEntries(batch, versions.lastSequence + 1);
      mem := r;
      versions.lastSequence := versions.lastSequence + |batch|;
    }

    /** Makes the memtable immutable. */
    method SwitchMemTable()
      requires Valid() && imm.None?
      modifies this
      ensures Valid() && Does(old(Abs()), Action.SwitchMemTable, Abs())
    {
      ghost var s := Abs();
      imm := Some(mem);
      mem := [];
      StepSound(s, Action.SwitchMemTable, Abs());
    }

    /** CompactMemTable: flushes the immutable memtable to the level that PickLevel chooses. */
    method CompactMemTable() returns (ghost a: Action)
      requires Valid() && imm.Some?
      modifies this, versions
      ensures a.FlushEmpty? || a.FlushTable?
      ensures Valid() && Does(old(Abs()), a, Abs())
    {
      ghost var s := Abs();
      if imm.value == [] {
        imm := None;
        a := FlushEmpty;
        StepSound(s, a, Abs());
      } else {
        a := WriteLevel0Table();
      }
    }

    method WriteLevel0Table() returns (ghost a: Action)
      requires Valid() && imm.Some? && imm.value != []
      modifies this, versions
      ensures a.FlushTable?
      ensures Valid() && Does(old(Abs()), a, Abs())
    {
      ghost var s := Abs();
      var f := BuildTable(imm.value, versions.nextFileNumber);
      FlushPrepared(s, 0, f);
      var p := PickLevelForMemTableOutput(versions.current, f.smallest.key, f.largest.key, target);
      FlushPrepared(s, p, f);
      AddTable(p, f);
      a := FlushTable(p, f);
      FlushStep(s, p, f, Abs());
    }

    method AddTable(p: nat, f: File)
      requires imm == Some(f.entries) && FileOk(f) && f.number == versions.nextFileNumber && p <= MAX_MEM_COMPACT_LEVEL
      requires p > 0 ==> ClearThrough(versions.current, p, f.smallest.key, f.largest.key)
      requires LevelsOk(versions.current) && Builders.NeverReadded(versions.current, [Builders.Edit({}, [(p, f)])])
      modifies this`imm, versions`current, versions`nextFileNumber
      ensures Flushed(old(Abs()), p, f, Abs())
    {
      var number := versions.NewFileNumber();
      versions.LogAndApply(Builders.Edit({}, [(p, f)]));
      imm := None;
    }

    method GetSnapshot() returns (s: nat)
      requires Valid()
      modifies this
      ensures s == versions.lastSequence
      ensures Valid() && Does(old(Abs()), TakeSnapshot, Abs())
    {
      ghost var st := Abs();
      s := versions.lastSequence;
      snapshots := snapshots + [s];
      StepSound(st, TakeSnapshot, Abs());
    }

    method DropSnapshot(i: nat)
      requires Valid() && i < |snapshots|
      modifies this
      ensures Valid() && Does(old(Abs()), ReleaseSnapshot(i), Abs())
    {
      ghost var s := Abs();
      snapshots := snapshots[..i] + snapshots[i + 1..];
      StepSound(s, ReleaseSnapshot(i), Abs());
    }

    /** The part of BackgroundCompaction that moves a single file that meets nothing on the next level.
        When it does not apply, the picked inputs start a merging compaction. */
    method StartCompaction(t: Trigger) returns (moved: bool, c: Option<Compaction>, ghost a: Action)
      requires Valid() && running.None? && TriggerOk(versions.current, t) && !t.NoTrigger?
      modifies this, versions
      ensures Valid() && Does(old(Abs()), a, Abs())
      ensures moved <==> a.TrivialMove?
      ensures moved <==> c.None?
      ensures !moved ==> a.BeginCompaction? && c.value.inputs == a.inputs && c.value.base == versions.current
      ensures moved <==> && |a.inputs.lower| == 1 && a.inputs.upper == []
                         && TotalFileSize(a.inputs.grandparents) <= 10 * target
    {
      ghost var s := Abs();
      ghost var lo, hi, allLo, allHi;
      var picked;
      picked, lo, hi, allLo, allHi := versions.PickCompaction(t, target);
      assert Abs() == s;
      var inputs := picked.value;
      if |inputs.lower| == 1 && |inputs.upper| == 0 && TotalFileSize(inputs.grandparents) <= 10 * target {
        a := MoveFile(inputs, lo, hi, allLo, allHi);
        moved, c := true, None;
      } else {
        var compaction := new Compaction(versions.current, inputs, target);
        moved, c := false, Some(compaction);
        a := BeginMerge(inputs, lo, hi, allLo, allHi);
      }
    }

    ghost method BeginMerge(inputs: Inputs, lo: IKey, hi: IKey, allLo: IKey, allHi: IKey) returns (a: Action)
      requires Sound(Abs()) && running.None? && Selected(versions.current, inputs, lo, hi, allLo, allHi)
      modifies this`running
      ensures Sound(Abs()) && Does(old(Abs()), a, Abs())
      ensures a == BeginCompaction(inputs, lo, hi, allLo, allHi)
    {
      ghost var s := Abs();
      running := Some(Running(versions.current, inputs, allLo, allHi, s.Floor(), {}));
      a := BeginCompaction(inputs, lo, hi, allLo, allHi);
      BeginStep(s, inputs, lo, hi, allLo, allHi, Abs());
    }

    /** OpenCompactionOutputFile: the number joins the pending outputs. */
    method OpenCompactionOutputFile() returns (number: nat)
      requires Valid() && running.Some?
      modifies this`running, versions`nextFileNumber
      ensures Valid() && Does(old(Abs()), OpenOutput, Abs()) && running.Some?
      ensures number !in old(running.value.reserved) && running.value.reserved == old(running.value.reserved) + {number}
    {
      hide Sound, Does;
      ghost var s := Abs();
      number := versions.NewFileNumber();
      running := Some(running.value.(reserved := running.value.reserved + {number}));
      OpenStep(s, Abs());
    }

    /** One thing another thread does, if it can be done now. */
    method Interrupt(x: Interlude, ghost s: State, ghost states: seq<State>, ghost acts: seq<Action>)
      returns (ghost states2: seq<State>, ghost acts2: seq<Action>)
      requires Valid() && Since(s, states, acts, Abs())
      modifies this, versions
      ensures Valid() && Since(s, states2, acts2, Abs()) && old(running.value.reserved) <= running.value.reserved
    {
      hide Sound, Does, Since;
      ghost var t, a := Abs(), FlushEmpty;
      var done := true;
      match x {
        case Writing(batch) =>
          if versions.lastSequence + |batch| < MAX_SEQ {
            Write(batch);
            a := Action.Write(batch);
          } else {
            done := false;
          }
        case Switching =>
          if imm.None? {
            SwitchMemTable();
            a := Action.SwitchMemTable;
          } else {
            done := false;
          }
        case Snapshotting =>
          var n := GetSnapshot();
          a := TakeSnapshot;
        case Releasing(i) =>
          if i < |snapshots| {
            DropSnapshot(i);
            a := ReleaseSnapshot(i);
          } else {
            done := false;
          }
      }
      states2, acts2 := states, acts;
      if done {
        SinceStep(s, states, acts, t, a, Abs());
        states2, acts2 := states + [Abs()], acts + [a];
      }
    }

    method OthersRun(xs: seq<Interlude>, ghost s: State, ghost states: seq<State>, ghost acts: seq<Action>)
      returns (ghost states2: seq<State>, ghost acts2: seq<Action>)
      requires Valid() && Since(s, states, acts, Abs())
      modifies this, versions
      ensures Valid() && Since(s, states2, acts2, Abs()) && old(running.value.reserved) <= running.value.reserved
    {
      hide Sound, Steps;
      states2, acts2 := states, acts;
      var j := 0;
      while j < |xs|
        invariant j <= |xs| && Valid() && Since(s, states2, acts2, Abs())
        invariant old(running.value.reserved) <= running.value.reserved
      {
        states2, acts2 := Interrupt(xs[j], s, states2, acts2);
        j := j + 1;
      }
    }

    /** The immutable memtable goes first. */
    method FlushFirst(ghost s: State, ghost states: seq<State>, ghost acts: seq<Action>)
      returns (ghost states2: seq<State>, ghost acts2: seq<Action>)
      requires Valid() && Since(s, states, acts, Abs())
      modifies this, versions
      ensures Valid() && Since(s, states2, acts2, Abs()) && old(running.value.reserved) <= running.value.reserved
      ensures imm.None? || old(imm).None?
    {
      hide Sound, Does, Since;
      states2, acts2 := states, acts;
      if imm.Some? {
        ghost var t := Abs();
        ghost var a := CompactMemTable();
        SinceStep(s, states, acts, t, a, Abs());
        states2, acts2 := states + [Abs()], acts + [a];
      }
    }

    /** One entry of the merged inputs: it is dropped, or goes to the open output or a new one. */
    method CompactEntry(c: Compaction, input: seq<Entry>, i: nat, snap: nat, w: Work,
                        ghost s: State, ghost states: seq<State>, ghost acts: seq<Action>)
      returns (w2: Work, ghost states2: seq<State>, ghost acts2: seq<Action>)
      requires Valid() && Since(s, states, acts, Abs())
      requires LevelsOk(c.base) && Sorted(input) && i < |input|
      requires running.Some? && Midway(c, input, i, snap, w, running.value.reserved)
      modifies this`running, versions`nextFileNumber, c
      ensures Valid() && Since(s, states2, acts2, Abs())
      ensures running.Some? && Midway(c, input, i + 1, snap, w2, running.value.reserved)
    {
      hide Sound, Does, Since, Produced, Sorted, LevelsOk, Dropped, Kept;
      KeptSorted(input, i + 1, snap, c.base, c.inputs.level);
      KeptStep(input, i, snap, c.base, c.inputs.level);
      ghost var kept := Kept(input, i, snap, c.base, c.inputs.level);
      var e := input[i];
      var outputs, b, drop := JudgeEntry(c, input, i, snap, w, running.value.reserved);
      states2, acts2 := states, acts;
      if !drop {
        var number := 0;
        ghost var taken := running.value.reserved;
        if b.Closed? {
          ghost var t := Abs();
          number := OpenCompactionOutputFile();
          SinceStep(s, states, acts, t, OpenOutput, Abs());
          states2, acts2 := states + [Abs()], acts + [OpenOutput];
        }
        outputs, b := KeepEntry(outputs, b, e, number, kept, taken);
      }
      w2 := Work(outputs, b, Some(e.key), e.seqno);
      if i + 1 < |input| {
        NextEntry(c, input, i);
      }
    }

    /** DoCompactionWork: before each entry other threads may have written, switched the memtable or taken and released
        snapshots, and an immutable memtable is flushed first; the surviving entries go to new files.  All of this is
        a run of the store, at the end of which the outputs are ready to be installed. */
    method DoCompactionWork(c: Compaction, input: seq<Entry>, snap: nat, interludes: seq<seq<Interlude>>)
      returns (outputs: Level, ghost states: seq<State>, ghost acts: seq<Action>)
      requires Valid() && running.Some? && LevelsOk(c.base)
      requires running.value.base == c.base && running.value.inputs == c.inputs && running.value.snap == snap
      requires Sorted(input) && Elems(input) == EntriesOf(c.inputs.All())
      requires c.levelPtrs == seq(NUM_LEVELS, i => 0) && c.grandparentIndex == 0
      modifies this, versions, c
      ensures Valid() && Steps(old(Abs()), states, acts, Abs()) && SameTask(old(running), running)
      ensures Ready(running.value, input, outputs)
      ensures OutputsOk(outputs, Kept(input, |input|, snap, c.base, c.inputs.level), running.value.reserved)
    {
      hide Sound, Ready, LevelsOk, Sorted, Steps, Midway;
      ghost var s := Abs();
      states, acts := [s], [];
      SinceStart(s);
      var w := Work([], Closed, None, MAX_SEQ);
      MidwayStarts(c, input, snap, running.value.reserved);
      var i := 0;
      while i < |input|
        invariant i <= |input| && Valid() && Since(s, states, acts, Abs())
        invariant running.Some? && Midway(c, input, i, snap, w, running.value.reserved)
      {
        ghost var taken := running.value.reserved;
        if i < |interludes| {
          states, acts := OthersRun(interludes[i], s, states, acts);
        }
        states, acts := FlushFirst(s, states, acts);
        MidwayStill(c, input, i, snap, w, taken, running.value.reserved);
        w, states, acts := CompactEntry(c, input, i, snap, w, s, states, acts);
        i := i + 1;
      }
      ghost var kept := Kept(input, |input|, snap, c.base, c.inputs.level);
      KeptSorted(input, |input|, snap, c.base, c.inputs.level);
      MidwayEnds(c, input, snap, w, running.value.reserved);
      outputs := FinishLast(w.outputs, w.b, kept, running.value.reserved);
      OutputsReady(running.value, input, outputs);
    }

    /** InstallCompactionResults: after any number of flushes, replaces the inputs by the outputs. */
    method InstallCompactionResults(inputs: Inputs, ghost input: seq<Entry>, outputs: Level)
      requires Sound(Abs()) && running.Some? && running.value.inputs == inputs && Ready(running.value, input, outputs)
      modifies versions`current, this`running
      ensures Does(old(Abs()), Action.Install(input, outputs), Abs())
      ensures Unexposed(old(Abs()), Action.Install(input, outputs)) ==> Sound(Abs())
    {
      ReadyNumbers(running.value, input, outputs);
      hide Sound, Does, Unexposed, Ready, Builders.NeverReadded, LevelsOk, NumbersUnique, InputsWithin, Replaced;
      ghost var s := Abs();
      InstallPrepared(s, outputs);
      ApplyCompaction(inputs, outputs);
      running := None;
      InstallStep(s, input, outputs, Abs());
    }

    /** The edit of a compaction replaces its inputs by its outputs. */
    method ApplyCompaction(inputs: Inputs, outputs: Level)
      requires inputs.level + 1 < NUM_LEVELS && InputsWithin(versions.current, inputs) && LevelsOk(versions.current)
      requires NumbersUnique(versions.current)
      requires Builders.NeverReadded(versions.current, [CompactionEdit(inputs, outputs)])
      modifies versions`current
      ensures Replaced(old(versions.current), versions.current, inputs, outputs)
    {
      hide Builders.NeverReadded, Builders.EditedTo, LevelsOk, NumbersUnique, InputsWithin, Replaced;
      ghost var v := versions.current;
      versions.LogAndApply(CompactionEdit(inputs, outputs));
      EditReplaces(v, inputs, outputs, versions.current);
    }

    method MoveFile(inputs: Inputs, ghost lo: IKey, ghost hi: IKey, ghost allLo: IKey, ghost allHi: IKey)
      returns (ghost a: Action)
      requires Sound(Abs()) && running.None? && Selected(versions.current, inputs, lo, hi, allLo, allHi)
      requires |inputs.lower| == 1 && inputs.upper == []
      modifies versions`current
      ensures Sound(Abs()) && Does(old(Abs()), a, Abs())
      ensures a == TrivialMove(inputs, lo, hi, allLo, allHi)
    {
      hide Does, Selected, Builders.NeverReadded, Builders.EditedTo, InputsWithin, Replaced;
      ghost var s := Abs();
      ghost var v := versions.current;
      MoveVersion(s);
      hide Sound, VersionOk;
      MovePrepared(v, inputs, lo, hi, allLo, allHi);
      ApplyCompaction(inputs, inputs.lower);
      a := TrivialMove(inputs, lo, hi, allLo, allHi);
      MoveStep(s, inputs, lo, hi, allLo, allHi, Abs());
    }
  }

  lemma MoveVersion(s: State)
    requires Sound(s)
    ensures VersionOk(s.v)
  {
  }

  /** A moved file keeps its number, which no file of the next level has. */
  lemma MovePrepared(v: Version, inputs: Inputs, lo: IKey, hi: IKey, allLo: IKey, allHi: IKey)
    requires VersionOk(v) && Selected(v, inputs, lo, hi, allLo, allHi) && |inputs.lower| == 1
    ensures inputs.level + 1 < NUM_LEVELS && InputsWithin(v, inputs)
    ensures Builders.NeverReadded(v, [CompactionEdit(inputs, inputs.lower)])
  {
    assert inputs.lower[0] in inputs.lower && inputs.lower[0] in v[inputs.level];
    EditNeverReadded(v, inputs, inputs.lower);
  }
}
