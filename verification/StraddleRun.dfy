/** A run from the empty state that loses a deletion. */
module StraddleRun {
  // It ends in the compaction of `Straddle`: a snapshot held while level 2 is written keeps both versions of
  // a key apart in two files, and is then released.

  import opened Keys
  import opened Versions
  import opened Pick
  import opened Select
  import opened Compact
  import opened Install
  import opened Preserve
  import opened Flush
  import opened Lsm
  import opened Straddle

  /** The first value of key 1, its table on level 2, and the table that the first compaction merges with it. */
  datatype Story = Story(x: Case, z: Entry, first: File, second: File)

  predicate IsStory(y: Story) {
    && IsCase(y.x) && y.z == Entry(1, 1, Put("first"))
    && Table(y.first, [y.z]) && y.first.number == 1
    && Table(y.second, [y.x.b, y.x.c, y.x.d]) && y.second.number == 2
  }

  lemma TheStory() returns (y: Story)
    ensures IsStory(y)
  {
    var x := TheCase();
    var z := Entry(1, 1, Put("first"));
    y := Story(x, z, File(1, 1, z.Internal(), z.Internal(), [z]),
               File(2, 1, x.b.Internal(), x.d.Internal(), [x.b, x.c, x.d]));
  }

  // ---------------------------------------------------------------- versions and states

  function Empty(): Version { [[], [], [], [], [], [], []] }

  function WithFirst(y: Story): Version { [[], [], [y.first], [], [], [], []] }

  function WithSecond(y: Story): Version { [[], [y.second], [y.first], [], [], [], []] }

  function Merged2(y: Story): Version { [[], [], [y.x.upper, y.x.rest], [], [], [], []] }

  function FirstInputs(y: Story): Inputs { Inputs(1, [y.second], [y.first], []) }

  function FirstMerge(y: Story): seq<Entry> { [y.x.b, y.z, y.x.c, y.x.d] }

  function FirstRun(y: Story, reserved: set<nat>): Running {
    Running(WithSecond(y), FirstInputs(y), y.second.smallest, y.second.largest, 3, reserved)
  }

  function LastRun(y: Story, reserved: set<nat>): Running {
    Running(Before(y.x), Chosen(y.x), y.x.lower.smallest, y.x.upper.largest, 5, reserved)
  }

  function Upto(y: Story, n: nat): set<Entry> {
    (if n >= 1 then {y.z} else {}) + (if n >= 3 then {y.x.b, y.x.d} else {})
    + (if n >= 4 then {y.x.c} else {}) + (if n >= 5 then {y.x.a} else {})
  }

  function StateAt(y: Story, n: nat): State {
    match n
    case 0 => State([], None, Empty(), 0, [], 1, None, {})
    case 1 => State([y.z], None, Empty(), 1, [], 1, None, Upto(y, 1))
    case 2 => State([], Some([y.z]), Empty(), 1, [], 1, None, Upto(y, 1))
    case 3 => State([], None, WithFirst(y), 1, [], 2, None, Upto(y, 1))
    case 4 => State([y.x.b, y.x.d], None, WithFirst(y), 3, [], 2, None, Upto(y, 3))
    case 5 => State([y.x.b, y.x.d], None, WithFirst(y), 3, [3], 2, None, Upto(y, 3))
    case 6 => State([y.x.b, y.x.c, y.x.d], None, WithFirst(y), 4, [3], 2, None, Upto(y, 4))
    case 7 => State([], Some([y.x.b, y.x.c, y.x.d]), WithFirst(y), 4, [3], 2, None, Upto(y, 4))
    case 8 => State([], None, WithSecond(y), 4, [3], 3, None, Upto(y, 4))
    case 9 => State([], None, WithSecond(y), 4, [3], 3, Some(FirstRun(y, {})), Upto(y, 4))
    case 10 => State([], None, WithSecond(y), 4, [3], 4, Some(FirstRun(y, {} + {3})), Upto(y, 4))
    case 11 => State([], None, WithSecond(y), 4, [3], 5, Some(FirstRun(y, {} + {3} + {4})), Upto(y, 4))
    case 12 => State([], None, Merged2(y), 4, [3], 5, None, Upto(y, 4))
    case 13 => State([], None, Merged2(y), 4, [], 5, None, Upto(y, 4))
    case 14 => State([y.x.a], None, Merged2(y), 5, [], 5, None, Upto(y, 5))
    case 15 => State([], Some([y.x.a]), Merged2(y), 5, [], 5, None, Upto(y, 5))
    case 16 => State([], None, Before(y.x), 5, [], 6, None, Upto(y, 5))
    case 17 => State([], None, Before(y.x), 5, [], 6, Some(LastRun(y, {})), Upto(y, 5))
    case 18 => State([], None, Before(y.x), 5, [], 7, Some(LastRun(y, {} + {6})), Upto(y, 5))
    case _ => State([], None, After(y.x), 5, [], 7, None, Upto(y, 5))
  }

  function ActionAt(y: Story, n: nat): Action {
    match n
    case 0 => Write([(1, Put("first"))])
    case 1 => SwitchMemTable
    case 2 => FlushTable(2, y.first)
    case 3 => Write([(1, Put("mid")), (2, Put("old"))])
    case 4 => TakeSnapshot
    case 5 => Write([(2, Delete)])
    case 6 => SwitchMemTable
    case 7 => FlushTable(1, y.second)
    case 8 => BeginCompaction(FirstInputs(y), y.second.smallest, y.second.largest, y.second.smallest, y.second.largest)
    case 9 => OpenOutput
    case 10 => OpenOutput
    case 11 => Install(FirstMerge(y), [y.x.upper, y.x.rest])
    case 12 => ReleaseSnapshot(0)
    case 13 => Write([(1, Put("new"))])
    case 14 => SwitchMemTable
    case 15 => FlushTable(1, y.x.lower)
    case 16 => BeginCompaction(Chosen(y.x), y.x.lower.smallest,
        y.x.lower.largest, y.x.lower.smallest, y.x.upper.largest)
    case 17 => OpenOutput
    case _ => Install(Merged(y.x), [y.x.output])
  }

  // ---------------------------------------------------------------- writes

  lemma OneWrite(k: UserKey, op: Op, first: nat)
    requires first < MAX_SEQ
    ensures BatchEntries([(k, op)], first) == {Entry(k, first, op)}
  {
    var batch := [(k, op)];
    assert Entry(batch[0].0, first + 0, batch[0].1) in BatchEntries(batch, first);
  }

  lemma TwoWrites(k: UserKey, op: Op, k2: UserKey, op2: Op, first: nat)
    requires first + 1 < MAX_SEQ
    ensures BatchEntries([(k, op), (k2, op2)], first) == {Entry(k, first, op), Entry(k2, first + 1, op2)}
  {
    var batch := [(k, op), (k2, op2)];
    assert Entry(batch[0].0, first + 0, batch[0].1) in BatchEntries(batch, first);
    assert Entry(batch[1].0, first + 1, batch[1].1) in BatchEntries(batch, first);
  }

  lemma ElemsOf1(a: Entry)
    ensures Elems([a]) == {a}
  {
    assert a in [a];
  }

  lemma ElemsOf2(a: Entry, b: Entry)
    ensures Elems([a, b]) == {a, b}
  {
    assert a in [a, b] && b in [a, b];
  }

  lemma ElemsOf3(a: Entry, b: Entry, c: Entry)
    ensures Elems([a, b, c]) == {a, b, c}
  {
    assert a in [a, b, c] && b in [a, b, c] && c in [a, b, c];
  }

  lemma ElemsOf4(a: Entry, b: Entry, c: Entry, d: Entry)
    ensures Elems([a, b, c, d]) == {a, b, c, d}
  {
    var s := [a, b, c, d];
    assert s[0] in s && s[1] in s && s[2] in s && s[3] in s;
  }

  lemma FirstWrites(y: Story)
    requires IsStory(y)
    ensures Does(StateAt(y, 0), ActionAt(y, 0), StateAt(y, 1)) && Does(StateAt(y, 3), ActionAt(y, 3), StateAt(y, 4))
  {
    hide BatchEntries, Elems;
    OneWrite(1, Put("first"), 1);
    TwoWrites(1, Put("mid"), 2, Put("old"), 2);
    ElemsOf0();
    ElemsOf1(y.z);
    ElemsOf2(y.x.b, y.x.d);
  }

  lemma LastWrites(y: Story)
    requires IsStory(y)
    ensures Does(StateAt(y, 5), ActionAt(y, 5), StateAt(y, 6)) && Does(StateAt(y, 13), ActionAt(y, 13), StateAt(y, 14))
  {
    hide BatchEntries, Elems;
    OneWrite(2, Delete, 4);
    OneWrite(1, Put("new"), 5);
    ElemsOf0();
    ElemsOf1(y.x.a);
    ElemsOf2(y.x.b, y.x.d);
    ElemsOf3(y.x.b, y.x.c, y.x.d);
  }

  lemma ElemsOf0()
    ensures Elems([]) == {}
  {
  }

  lemma Switches(y: Story)
    requires IsStory(y)
    ensures Does(StateAt(y, 1), ActionAt(y, 1), StateAt(y, 2)) && Does(StateAt(y, 6), ActionAt(y, 6), StateAt(y, 7))
    ensures Does(StateAt(y, 14), ActionAt(y, 14), StateAt(y, 15))
  {
    hide Upto, IsStory;
  }

  lemma Snapshots(y: Story)
    requires IsStory(y)
    ensures Does(StateAt(y, 4), ActionAt(y, 4), StateAt(y, 5)) && Does(StateAt(y, 12), ActionAt(y, 12), StateAt(y, 13))
  {
    hide Upto, IsStory;
  }

  lemma Outputs(y: Story)
    requires IsStory(y)
    ensures Does(StateAt(y, 9), ActionAt(y, 9), StateAt(y, 10)) && Does(StateAt(y, 10), ActionAt(y, 10), StateAt(y, 11))
    ensures Does(StateAt(y, 17), ActionAt(y, 17), StateAt(y, 18))
  {
    hide Upto, IsStory;
  }

  // ---------------------------------------------------------------- flushes

  lemma VersionsSorted(y: Story, l: nat)
    requires IsStory(y) && l < NUM_LEVELS
    ensures SortedLevel(WithFirst(y)[l]) && SortedLevel(WithSecond(y)[l]) && SortedLevel(Merged2(y)[l])
    ensures SortedLevel(Before(y.x)[l]) && SortedLevel(After(y.x)[l])
  {
    assert BySmallest(y.x.upper, y.x.rest) && BySmallest(y.x.output, y.x.rest);
  }

  lemma Installable(y: Story)
    requires IsStory(y)
    ensures Added(Empty(), 2, y.first, WithFirst(y)) && Added(WithFirst(y), 1, y.second, WithSecond(y))
    ensures Added(Merged2(y), 1, y.x.lower, Before(y.x))
  {
    hide SortedLevel, IsStory;
    forall l | 0 <= l < NUM_LEVELS
      ensures SortedLevel(WithFirst(y)[l]) && SortedLevel(WithSecond(y)[l]) && SortedLevel(Before(y.x)[l])
    {
      VersionsSorted(y, l);
    }
  }

  lemma TablesOk(y: Story)
    requires IsStory(y)
    ensures FileOk(y.first) && FileOk(y.second) && FileOk(y.x.lower)
            && FileOk(y.x.upper) && FileOk(y.x.rest) && FileOk(y.x.output)
  {
  }

  lemma Clear(y: Story)
    requires IsStory(y)
    ensures ClearThrough(Empty(), 2, 1, 1) && ClearThrough(WithFirst(y), 1, 1, 2) && ClearThrough(Merged2(y), 1, 1, 1)
  {
    forall l | 0 <= l <= 2 ensures Empty()[l] == [] {
    }
    forall l | 0 <= l <= 1 ensures WithFirst(y)[l] == [] && Merged2(y)[l] == [] {
    }
  }

  lemma Flushes(y: Story)
    requires IsStory(y)
    ensures Does(StateAt(y, 2), ActionAt(y, 2), StateAt(y, 3)) && Does(StateAt(y, 7), ActionAt(y, 7), StateAt(y, 8))
    ensures Does(StateAt(y, 15), ActionAt(y, 15), StateAt(y, 16))
  {
    hide Added, FileOk, ClearThrough, Upto;
    Installable(y);
    TablesOk(y);
    Clear(y);
  }

  // ---------------------------------------------------------------- compactions

  lemma FirstSelected(y: Story)
    requires IsStory(y)
    ensures Selected(WithSecond(y), FirstInputs(y), y.second.smallest,
            y.second.largest, y.second.smallest, y.second.largest)
  {
    var files := [y.second] + [y.first];
    assert files == [y.second, y.first] && y.second in files && y.first in files && y.second in [y.second];
    assert WithSecond(y)[2][1..] == [] && Meeting([], Some(1), Some(2)) == [];
    assert Meeting(WithSecond(y)[2], Some(1), Some(2)) == [y.first];
    forall k | 1 <= k <= 2 ensures HeldBySome(files, k) {
      assert Holds(y.second, k);
    }
  }

  lemma Begins(y: Story)
    requires IsStory(y)
    ensures Does(StateAt(y, 8), ActionAt(y, 8), StateAt(y, 9)) && Does(StateAt(y, 16), ActionAt(y, 16), StateAt(y, 17))
  {
    hide Selected, Upto;
    FirstSelected(y);
    InputsSelected(y.x);
  }

  /** At snapshot bound 3 only the first value of key 1 goes. */
  lemma FirstSurvivors(y: Story)
    requires IsStory(y)
    ensures Survivors(WithSecond(y), FirstInputs(y), FirstMerge(y), 3) == [y.x.b, y.x.c, y.x.d]
  {
    KeptStep(FirstMerge(y), 0, 3, WithSecond(y), 1);
    KeptStep(FirstMerge(y), 1, 3, WithSecond(y), 1);
    KeptStep(FirstMerge(y), 2, 3, WithSecond(y), 1);
    KeptStep(FirstMerge(y), 3, 3, WithSecond(y), 1);
  }

  lemma FirstMerged(y: Story)
    requires IsStory(y)
    ensures Sorted(FirstMerge(y)) && Elems(FirstMerge(y)) == EntriesOf(FirstInputs(y).All())
    ensures EntriesOf([y.x.upper, y.x.rest]) == Elems([y.x.b, y.x.c, y.x.d])
  {
    TwoFiles(y.second, y.first);
    assert FirstInputs(y).All() == [y.second, y.first];
    ElemsOf4(y.x.b, y.z, y.x.c, y.x.d);
    ElemsOf3(y.x.b, y.x.c, y.x.d);
    ElemsOf1(y.z);
    TwoFiles(y.x.upper, y.x.rest);
    TableElems(y.x);
  }

  lemma FirstReplaced(y: Story)
    requires IsStory(y)
    ensures Replaced(WithSecond(y), Merged2(y), FirstInputs(y), [y.x.upper, y.x.rest])
  {
    hide SortedLevel;
    forall l | 0 <= l < NUM_LEVELS ensures SortedLevel(Merged2(y)[l]) {
      VersionsSorted(y, l);
    }
  }

  lemma FirstInstall(y: Story)
    requires IsStory(y)
    ensures Does(StateAt(y, 11), ActionAt(y, 11), StateAt(y, 12))
  {
    hide Sorted, Elems, EntriesOf, Survivors, Replaced, FileOk, Upto;
    FirstSurvivors(y);
    FirstMerged(y);
    FirstReplaced(y);
    TablesOk(y);
    assert Less(y.x.upper.largest, y.x.rest.smallest);
  }

  lemma LastInstall(y: Story)
    requires IsStory(y)
    ensures Does(StateAt(y, 18), ActionAt(y, 18), StateAt(y, 19))
  {
    hide Sorted, Elems, EntriesOf, Survivors, Replaced, FileOk, Upto;
    InputsMerged(y.x);
    LoopOutput(y.x);
    Installed(y.x);
    TablesOk(y);
  }

  // ---------------------------------------------------------------- the run

  function States(y: Story): seq<State> {
    seq(20, n requires 0 <= n < 20 => StateAt(y, n))
  }

  function Actions(y: Story): seq<Action> {
    seq(19, n requires 0 <= n < 19 => ActionAt(y, n))
  }

  lemma IsRun(y: Story)
    requires IsStory(y)
    ensures Run(States(y), Actions(y))
  {
    hide Does, IsStory, StateAt, ActionAt;
    FirstWrites(y);
    LastWrites(y);
    Switches(y);
    Snapshots(y);
    Outputs(y);
    Flushes(y);
    Begins(y);
    FirstInstall(y);
    LastInstall(y);
    Starts(y);
  }

  lemma Starts(y: Story)
    ensures Init(StateAt(y, 0))
  {
    assert forall l :: 0 <= l < NUM_LEVELS ==> Empty()[l] == [];
  }

  lemma DeletionExposed(x: Case)
    requires IsCase(x)
    ensures x.rest in BehindFiles(Before(x), Chosen(x))
    ensures Exposed({x.a, x.b, x.c, x.d}, BehindFiles(Before(x), Chosen(x)),
            Before(x), Chosen(x), Merged(x), 5, 5, 2, x.rest)
  {
    assert Newest({x.a, x.b, x.c, x.d}, 2, 5, x.c);
    assert IsBase(Before(x), 1, 2);
    assert Chosen(x).All() == [x.lower, x.upper];
  }

  lemma LastExposes(y: Story)
    requires IsStory(y)
    ensures !Unexposed(StateAt(y, 18), ActionAt(y, 18))
  {
    hide Exposed, BehindFiles, Contents, Upto;
    var s := StateAt(y, 18);
    Entries(y.x);
    DeletionExposed(y.x);
    assert s.Memory() == {};
    assert s.All() == {y.x.a, y.x.b, y.x.c, y.x.d};
    var r, a := s.running.value, ActionAt(y, 18);
    assert Exposed(s.All(), BehindFiles(s.v, r.inputs), r.base, r.inputs, a.input, r.snap, s.Floor(), 2, y.x.rest);
  }

  /** The store itself, with no fault of any kind, can lose a deletion: a run from the empty state
      exists that does not isolate snapshots. */
  lemma IsolationCanFail() returns (states: seq<State>, actions: seq<Action>)
    ensures Run(states, actions) && !AllUnexposed(states, actions) && !Isolated(states) && !AllReadsOk(states)
  {
    var y := TheStory();
    states, actions := States(y), Actions(y);
    IsRun(y);
    LastExposes(y);
    SnapshotIsolationIff(states, actions);
    RunReadsIff(states, actions);
    hide Run, Unexposed, Isolated, AllReadsOk, StateAt, ActionAt;
    assert states[18] == StateAt(y, 18) && actions[18] == ActionAt(y, 18);
  }
}
