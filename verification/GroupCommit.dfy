/** The write queue. */
module GroupCommit {
  // The writer at the front logs and inserts a group of batches for the writers behind it.

  import opened Keys

  type Operation = (UserKey, Op)

  /** A queued writer; a missing batch asks for a new memtable only.  `size` is the batch's byte size. */
  datatype Writer = Writer(batch: Option<seq<Operation>>, size: nat, sync: bool)
  {
    function Ops(): seq<Operation> { if batch.Some? then batch.value else [] }
    function Bytes(): nat { if batch.Some? then size else 0 }
  }

  ghost function AllOps(ws: seq<Writer>): seq<Operation> {
    if ws == [] then [] else AllOps(ws[..|ws| - 1]) + ws[|ws| - 1].Ops()
  }

  function TotalBytes(ws: seq<Writer>): nat {
    if ws == [] then 0 else TotalBytes(ws[..|ws| - 1]) + ws[|ws| - 1].Bytes()
  }

  /** How big a group may get: small first writes are not slowed down much. */
  function MaxBytes(first: Writer): nat {
    if first.size <= 0x2_0000 then first.size + 0x2_0000 else 0x10_0000
  }

  /** The group for the first `n` writers is as long as the rules allow: no synchronous write behind an
      asynchronous leader, no batch that makes the group too big. */
  ghost predicate IsGroup(queue: seq<Writer>, n: nat, ops: seq<Operation>) {
    && 0 < n <= |queue| && queue[0].batch.Some?
    && ops == AllOps(queue[..n])
    && (forall i :: 0 <= i < n && queue[i].sync ==> queue[0].sync)
    && (forall i :: 1 <= i < n ==> FitsGroup(queue, i))
    && (n < |queue| ==> (queue[n].sync && !queue[0].sync) || !FitsGroup(queue, n))
  }

  /** With the batch of the `i`th writer the group is not too big. */
  ghost predicate FitsGroup(queue: seq<Writer>, i: nat)
    requires i < |queue|
  {
    queue[i].batch.Some? ==> TotalBytes(queue[..i + 1]) <= MaxBytes(queue[0])
  }

  method BuildBatchGroup(queue: seq<Writer>) returns (n: nat, ops: seq<Operation>)
    requires queue != [] && queue[0].batch.Some?
    ensures IsGroup(queue, n, ops)
  {
    var first := queue[0];
    var size: nat := first.size;
    var maxSize := 0x10_0000;
    if size <= 0x2_0000 {
      maxSize := size + 0x2_0000;
    }
    ops, n := first.batch.value, 1;
    GroupStarts(queue);
    while n < |queue|
      invariant GroupSoFar(queue, n, ops, size)
    {
      var w := queue[n];
      GroupGrows(queue, n, ops, size);
      hide GroupSoFar;
      if w.sync && !first.sync {
        break;
      }
      if w.batch.Some? {
        size := size + w.size;
        if size > maxSize {
          break;
        }
        ops := ops + w.batch.value;
      }
      n := n + 1;
    }
  }

  ghost predicate GroupSoFar(queue: seq<Writer>, n: nat, ops: seq<Operation>, size: nat) {
    && 0 < n <= |queue| && ops == AllOps(queue[..n]) && size == TotalBytes(queue[..n])
    && (forall i :: 0 <= i < n && queue[i].sync ==> queue[0].sync)
    && (forall i :: 1 <= i < n ==> FitsGroup(queue, i))
  }

  lemma GroupStarts(queue: seq<Writer>)
    requires queue != [] && queue[0].batch.Some?
    ensures GroupSoFar(queue, 1, queue[0].batch.value, queue[0].size)
  {
    hide AllOps, TotalBytes;
    OneMore(queue, 0);
    NoneYet(queue);
    assert [] + queue[0].batch.value == queue[0].batch.value;
  }

  /** What looking at the next writer leads to. */
  lemma GroupGrows(queue: seq<Writer>, n: nat, ops: seq<Operation>, size: nat)
    requires GroupSoFar(queue, n, ops, size) && n < |queue|
    ensures FitsGroup(queue, n) <==> queue[n].batch.Some? ==> size + queue[n].size <= MaxBytes(queue[0])
    ensures FitsGroup(queue, n) && (queue[n].sync ==> queue[0].sync) ==>
              GroupSoFar(queue, n + 1,
                         if queue[n].batch.Some? then ops + queue[n].batch.value else ops,
                         size + queue[n].Bytes())
  {
    hide AllOps, TotalBytes;
    OneMore(queue, n);
  }

  lemma NoneYet(queue: seq<Writer>)
    ensures AllOps(queue[..0]) == [] && TotalBytes(queue[..0]) == 0
  {
  }

  lemma OneMore(queue: seq<Writer>, n: nat)
    requires n < |queue|
    ensures AllOps(queue[..n + 1]) == AllOps(queue[..n]) + queue[n].Ops()
    ensures queue[n].batch.None? ==> AllOps(queue[..n + 1]) == AllOps(queue[..n])
    ensures TotalBytes(queue[..n + 1]) == TotalBytes(queue[..n]) + queue[n].Bytes()
  {
    assert queue[..n + 1][..n] == queue[..n];
    assert AllOps(queue[..n]) + [] == AllOps(queue[..n]);
  }

  // ---------------------------------------------------------------- the protocol

  datatype Status = Ok | Failed

  /** A write that has returned: its status, and for a group that was written the sequence number of its
      first operation and the index of the group's log record. */
  datatype Returned = Returned(w: Writer, status: Status, first: nat, record: nat)
  {
    function Written(): Writer { if status.Ok? then w else Writer(None, 0, w.sync) }
  }

  datatype Record = Record(first: nat, ops: seq<Operation>)

  /** What the writer at the front is doing.  The lock is free while it logs and inserts. */
  datatype Leader =
    | Nobody
    | MakingRoom
    | Leading(n: nat, ops: seq<Operation>, logged: bool, inserted: bool)

  /** `arrived` lists all writers in the order they entered the queue, `memory` what has been inserted
      into the memtable with its sequence numbers, `synced` how many records are known to be on disk. */
  datatype GState = GState(arrived: seq<Writer>, queue: seq<Writer>, leader: Leader, log: seq<Record>, synced: nat,
                           memory: seq<(nat, Operation)>, lastSeq: nat, returned: seq<Returned>)

  datatype Event = Enqueue(w: Writer) | Lead | Refuse | Skip | Build | AddRecord | InsertInto | Publish

  ghost function Numbered(ops: seq<Operation>, first: nat): seq<(nat, Operation)> {
    seq(|ops|, i requires 0 <= i < |ops| => (first + i, ops[i]))
  }

  /** The writers of a finished group with the sequence numbers their batches got. */
  ghost function GroupReturned(ws: seq<Writer>, n: nat, first: nat, record: nat): seq<Returned>
    requires n <= |ws|
  {
    seq(n, i requires 0 <= i < n => Returned(ws[i], Ok, first + |AllOps(ws[..i])|, record))
  }

  ghost predicate Takes(s: GState, ev: Event, t: GState) {
    match ev
    case Enqueue(w) => t == s.(arrived := s.arrived + [w], queue := s.queue + [w])
    case Lead => s.leader.Nobody? && s.queue != [] && t == s.(leader := MakingRoom)
    case Refuse =>
      && s.leader.MakingRoom? && s.queue != []
      && t == s.(leader := Nobody, queue := s.queue[1..], returned := s.returned + [Returned(s.queue[0], Failed, 0, 0)])
    case Skip =>
      && s.leader.MakingRoom? && s.queue != [] && s.queue[0].batch.None?
      && t == s.(leader := Nobody, queue := s.queue[1..],
                 returned := s.returned + [Returned(s.queue[0], Ok, s.lastSeq + 1, |s.log|)])
    case Build =>
      && s.leader.MakingRoom? && t.leader.Leading?
      && IsGroup(s.queue, t.leader.n, t.leader.ops)
      && t == s.(leader := Leading(t.leader.n, t.leader.ops, false, false))
    case AddRecord =>
      && s.leader.Leading? && !s.leader.logged && s.queue != []
      && t == s.(leader := s.leader.(logged := true), log := s.log + [Record(s.lastSeq + 1, s.leader.ops)],
                 synced := if s.queue[0].sync then |s.log| + 1 else s.synced)
    case InsertInto =>
      && s.leader.Leading? && s.leader.logged && !s.leader.inserted
      && t == s.(leader := s.leader.(inserted := true), memory := s.memory + Numbered(s.leader.ops, s.lastSeq + 1))
    case Publish =>
      && s.leader.Leading? && s.leader.logged && s.leader.inserted && s.leader.n <= |s.queue| && s.log != []
      && t == s.(leader := Nobody, lastSeq := s.lastSeq + |s.leader.ops|, queue := s.queue[s.leader.n..],
                 returned := s.returned + GroupReturned(s.queue, s.leader.n, s.lastSeq + 1, |s.log| - 1))
  }

  ghost function WritersOf(rs: seq<Returned>): seq<Writer> {
    seq(|rs|, i requires 0 <= i < |rs| => rs[i].w)
  }

  /** The returned writers with the batches that were really written. */
  ghost function WrittenOf(rs: seq<Returned>): seq<Writer> {
    seq(|rs|, i requires 0 <= i < |rs| => rs[i].Written())
  }

  ghost function LogOps(log: seq<Record>): seq<Operation> {
    if log == [] then [] else LogOps(log[..|log| - 1]) + log[|log| - 1].ops
  }

  /** Each record starts where the one before ended. */
  ghost predicate LogConsecutive(log: seq<Record>) {
    forall i :: 0 <= i < |log| ==> log[i].first == 1 + |LogOps(log[..i])|
  }

  /** The operations of the group that is being written, if it has come that far. */
  ghost function Ahead(s: GState, far: bool): seq<Operation> {
    if s.leader.Leading? && far then s.leader.ops else []
  }

  /** Returned writers left in arrival order; their batches follow each other in sequence number
      order. */
  ghost predicate QueueOk(s: GState) {
    && s.arrived == WritersOf(s.returned) + s.queue
    && s.lastSeq == |AllOps(WrittenOf(s.returned))|
    && FirstsOk(s.returned) && SyncsOk(s.returned, s.synced)
    && s.synced <= |s.log|
  }

  /** Each batch starts where those returned before it ended. */
  ghost predicate FirstsOk(rs: seq<Returned>) {
    forall i :: 0 <= i < |rs| && rs[i].status.Ok? ==> rs[i].first == 1 + |AllOps(WrittenOf(rs[..i]))|
  }

  ghost predicate SyncsOk(rs: seq<Returned>, synced: nat) {
    forall i :: 0 <= i < |rs| ==> SyncOk(rs[i], synced)
  }

  /** A synchronous write that succeeded is on disk. */
  ghost predicate SyncOk(r: Returned, synced: nat) {
    r.status.Ok? && r.w.sync && r.w.batch.Some? ==> r.record < synced
  }

  ghost predicate LeaderOk(s: GState) {
    s.leader.Leading? ==>
      && 0 < s.leader.n <= |s.queue| && s.leader.ops == AllOps(s.queue[..s.leader.n])
      && (forall i :: 0 <= i < s.leader.n && s.queue[i].sync ==> s.queue[0].sync)
      && (s.leader.inserted ==> s.leader.logged)
      && (s.leader.logged ==> s.log != [] && (s.queue[0].sync ==> s.synced == |s.log|))
  }

  /** The log and the memtable hold exactly the returned writers' operations, in order, and those of the
      group being written once it got there. */
  ghost predicate ContentsOk(s: GState) {
    var done := AllOps(WrittenOf(s.returned));
    && LogConsecutive(s.log)
    && LogOps(s.log) == done + Ahead(s, s.leader.Leading? && s.leader.logged)
    && s.memory == Numbered(done + Ahead(s, s.leader.Leading? && s.leader.inserted), 1)
  }

  ghost predicate GInv(s: GState) {
    QueueOk(s) && LeaderOk(s) && ContentsOk(s)
  }

  ghost predicate GInit(s: GState) {
    s == GState([], [], Nobody, [], 0, [], 0, [])
  }

  // ---------------------------------------------------------------- sequences of operations

  lemma {:induction false} AllOpsAppend(a: seq<Writer>, b: seq<Writer>)
    ensures AllOps(a + b) == AllOps(a) + AllOps(b)
  {
    if b == [] {
      assert a + b == a;
    } else {
      var n := |b| - 1;
      assert (a + b)[..|a + b| - 1] == a + b[..n];
      AllOpsAppend(a, b[..n]);
    }
  }

  lemma LogOpsAppend(log: seq<Record>, r: Record)
    ensures LogOps(log + [r]) == LogOps(log) + r.ops
    ensures LogConsecutive(log) && r.first == 1 + |LogOps(log)| ==> LogConsecutive(log + [r])
  {
    var all := log + [r];
    assert all[..|log|] == log;
    forall i | 0 <= i < |log| ensures all[..i] == log[..i] && all[i] == log[i] {
    }
  }

  lemma NumberedAppend(a: seq<Operation>, b: seq<Operation>)
    ensures Numbered(a, 1) + Numbered(b, 1 + |a|) == Numbered(a + b, 1)
  {
  }

  lemma WrittenAppend(rs: seq<Returned>, more: seq<Returned>)
    ensures WrittenOf(rs + more) == WrittenOf(rs) + WrittenOf(more)
    ensures WritersOf(rs + more) == WritersOf(rs) + WritersOf(more)
    ensures AllOps(WrittenOf(rs + more)) == AllOps(WrittenOf(rs)) + AllOps(WrittenOf(more))
  {
    AllOpsAppend(WrittenOf(rs), WrittenOf(more));
  }

  // ---------------------------------------------------------------- steps

  lemma EnqueueKeeps(s: GState, ev: Event, t: GState)
    requires GInv(s) && ev.Enqueue? && Takes(s, ev, t)
    ensures GInv(t)
  {
    assert t.arrived == WritersOf(t.returned) + t.queue;
    if s.leader.Leading? {
      assert t.queue[..t.leader.n] == s.queue[..s.leader.n];
    }
  }

  /** Sequence numbers recorded for the writers returned so far stay right when more return. */
  lemma FirstsAppend(rs: seq<Returned>, more: seq<Returned>, synced: nat)
    requires FirstsOk(rs) && SyncsOk(rs, synced) && LeavesWell(rs, more, synced)
    ensures FirstsOk(rs + more) && SyncsOk(rs + more, synced)
  {
    var all := rs + more;
    forall i | 0 <= i < |all| ensures SyncOk(all[i], synced)
        && (all[i].status.Ok? ==> all[i].first == 1 + |AllOps(WrittenOf(all[..i]))|) {
      if i < |rs| {
        assert all[..i] == rs[..i] && all[i] == rs[i];
      } else {
        var j := i - |rs|;
        assert all[..i] == rs + more[..j] && all[i] == more[j];
        assert SyncOk(more[j], synced);
        WrittenAppend(rs, more[..j]);
        hide AllOps, WrittenOf, WritersOf;
      }
    }
  }

  /** What the writers leaving the queue together must bring along. */
  ghost predicate LeavesWell(rs: seq<Returned>, more: seq<Returned>, synced: nat) {
    && (forall i :: 0 <= i < |more| && more[i].status.Ok? ==>
          more[i].first == 1 + |AllOps(WrittenOf(rs))| + |AllOps(WrittenOf(more[..i]))|)
    && SyncsOk(more, synced)
  }

  lemma QueueMoves(s: GState, t: GState, n: nat, more: seq<Returned>)
    requires QueueOk(s) && n <= |s.queue| && WritersOf(more) == s.queue[..n] && LeavesWell(s.returned, more, s.synced)
    requires t.arrived == s.arrived && t.queue == s.queue[n..] && t.returned == s.returned + more
    requires t.lastSeq == s.lastSeq + |AllOps(WrittenOf(more))| && t.synced == s.synced && t.log == s.log
    ensures QueueOk(t)
    ensures AllOps(WrittenOf(t.returned)) == AllOps(WrittenOf(s.returned)) + AllOps(WrittenOf(more))
  {
    hide AllOps, WrittenOf, WritersOf, FirstsOk, SyncsOk, LeavesWell;
    WrittenAppend(s.returned, more);
    FirstsAppend(s.returned, more, s.synced);
    assert s.queue == s.queue[..n] + t.queue;
    assert WritersOf(s.returned) + s.queue == (WritersOf(s.returned) + s.queue[..n]) + t.queue;
  }

  lemma SingleLeaves(s: GState, r: Returned)
    requires s.queue != [] && r.w == s.queue[0] && r.Written().Ops() == []
    requires r.status.Ok? ==> r.first == s.lastSeq + 1 && r.w.batch.None?
    requires s.lastSeq == |AllOps(WrittenOf(s.returned))|
    ensures WritersOf([r]) == s.queue[..1] && AllOps(WrittenOf([r])) == [] && LeavesWell(s.returned, [r], s.synced)
  {
    assert WrittenOf([r]) == [r.Written()];
    assert [r.Written()][..0] == [];
    assert WrittenOf([r][..0]) == [];
  }

  lemma SingleKeeps(s: GState, ev: Event, t: GState)
    requires GInv(s) && (ev.Refuse? || ev.Skip?) && Takes(s, ev, t)
    ensures GInv(t)
  {
    hide AllOps, WrittenOf, WritersOf, LogConsecutive, LogOps, Numbered, FirstsOk, SyncsOk, LeavesWell;
    var r := t.returned[|s.returned|];
    assert t.returned == s.returned + [r];
    SingleLeaves(s, r);
    hide QueueOk;
    QueueMoves(s, t, 1, [r]);
    assert AllOps(WrittenOf(s.returned)) + [] == AllOps(WrittenOf(s.returned));
  }

  lemma AddRecordKeeps(s: GState, ev: Event, t: GState)
    requires GInv(s) && ev.AddRecord? && Takes(s, ev, t)
    ensures GInv(t)
  {
    var done := AllOps(WrittenOf(s.returned));
    assert done + [] == done;
    LogOpsAppend(s.log, Record(s.lastSeq + 1, s.leader.ops));
  }

  lemma InsertKeeps(s: GState, ev: Event, t: GState)
    requires GInv(s) && ev.InsertInto? && Takes(s, ev, t)
    ensures GInv(t)
  {
    var done := AllOps(WrittenOf(s.returned));
    assert done + [] == done;
    NumberedAppend(done, s.leader.ops);
  }

  lemma GroupLeaves(s: GState)
    requires QueueOk(s) && LeaderOk(s) && s.leader.Leading? && s.leader.logged
    ensures var n := s.leader.n;
            var more := GroupReturned(s.queue, n, s.lastSeq + 1, |s.log| - 1);
            && WritersOf(more) == s.queue[..n] && AllOps(WrittenOf(more)) == s.leader.ops
            && LeavesWell(s.returned, more, s.synced)
  {
    var n := s.leader.n;
    var more := GroupReturned(s.queue, n, s.lastSeq + 1, |s.log| - 1);
    assert WrittenOf(more) == s.queue[..n] && WritersOf(more) == s.queue[..n];
    forall i | 0 <= i < |more| ensures WrittenOf(more[..i]) == s.queue[..i] {
    }
    hide AllOps, QueueOk;
    assert s.lastSeq == |AllOps(WrittenOf(s.returned))| by { LastSeqOf(s); }
  }

  lemma LastSeqOf(s: GState)
    ensures QueueOk(s) ==> s.lastSeq == |AllOps(WrittenOf(s.returned))|
  {
  }

  lemma PublishKeeps(s: GState, ev: Event, t: GState)
    requires GInv(s) && ev.Publish? && Takes(s, ev, t)
    ensures GInv(t)
  {
    hide AllOps, WrittenOf, WritersOf, QueueOk, LogConsecutive, LogOps, Numbered, GroupReturned, LeavesWell;
    GroupLeaves(s);
    QueueMoves(s, t, s.leader.n, GroupReturned(s.queue, s.leader.n, s.lastSeq + 1, |s.log| - 1));
    var done := AllOps(WrittenOf(t.returned));
    assert done + [] == done;
  }

  lemma TakesKeeps(s: GState, ev: Event, t: GState)
    requires GInv(s) && Takes(s, ev, t)
    ensures GInv(t)
  {
    match ev {
      case Enqueue(_) => EnqueueKeeps(s, ev, t);
      case Lead =>
      case Refuse => SingleKeeps(s, ev, t);
      case Skip => SingleKeeps(s, ev, t);
      case Build =>
      case AddRecord => AddRecordKeeps(s, ev, t);
      case InsertInto => InsertKeeps(s, ev, t);
      case Publish => PublishKeeps(s, ev, t);
    }
  }

  ghost predicate GRun(states: seq<GState>, events: seq<Event>) {
    && |states| == |events| + 1
    && GInit(states[0])
    && forall i :: 0 <= i < |events| ==> Takes(states[i], events[i], states[i + 1])
  }

  /** In every interleaving: batches are logged and inserted once each, in queue order, under
      consecutive sequence numbers. */
  lemma {:induction false} RunKeeps(states: seq<GState>, events: seq<Event>, n: nat)
    requires GRun(states, events) && n < |states|
    ensures GInv(states[n])
  {
    if n == 0 {
      assert GInv(states[0]) by {
        assert WritersOf([]) == [] && WrittenOf([]) == [];
      }
    } else {
      hide GInv, Takes;
      RunKeeps(states, events, n - 1);
      TakesKeeps(states[n - 1], events[n - 1], states[n]);
    }
  }

  // ---------------------------------------------------------------- what readers see

  lemma {:induction false} PrefixOps(ws: seq<Writer>, i: nat, j: nat)
    requires i <= j <= |ws|
    ensures |AllOps(ws[..i])| <= |AllOps(ws[..j])|
    ensures i < j ==> |AllOps(ws[..i])| + |ws[i].Ops()| <= |AllOps(ws[..j])|
  {
    if i < j {
      assert ws[..j][..j - 1] == ws[..j - 1];
      PrefixOps(ws, i, j - 1);
    }
  }

  /** The last sequence number never lies inside a batch: of every write that returned, before or after,
      a snapshot of it sees all or nothing. */
  lemma NoPartialBatch(states: seq<GState>, events: seq<Event>, m: nat, n: nat, i: nat)
    requires GRun(states, events) && m < |states| && n < |states|
    requires i < |states[n].returned| && states[n].returned[i].status.Ok?
    ensures var r := states[n].returned[i];
            r.first + |r.w.Ops()| <= states[m].lastSeq + 1 || states[m].lastSeq < r.first
  {
    RunKeeps(states, events, m);
    RunKeeps(states, events, n);
    LastSeqOf(states[m]);
    FirstOf(states[n], i);
    if m <= n {
      ReturnedGrows(states, events, m, n);
    } else {
      ReturnedGrows(states, events, n, m);
    }
    hide GInv, GRun;
    BatchOnOneSide(states[m].returned, states[n].returned, i);
  }

  lemma FirstOf(s: GState, i: nat)
    requires i < |s.returned| && s.returned[i].status.Ok?
    ensures GInv(s) ==> s.returned[i].first == 1 + |AllOps(WrittenOf(s.returned[..i]))|
  {
    hide AllOps, WrittenOf, LogOps, Numbered;
  }

  lemma BatchOnOneSide(rm: seq<Returned>, rn: seq<Returned>, i: nat)
    requires rm <= rn || rn <= rm
    requires i < |rn| && rn[i].status.Ok?
    ensures var first := 1 + |AllOps(WrittenOf(rn[..i]))|;
            var last := |AllOps(WrittenOf(rm))|;
            first + |rn[i].w.Ops()| <= last + 1 || last < first
  {
    if i < |rm| {
      assert rm[i] == rn[i] && rm[..i] == rn[..i];
      assert WrittenOf(rm)[..|rm|] == WrittenOf(rm) && WrittenOf(rm)[..i] == WrittenOf(rn[..i]);
      PrefixOps(WrittenOf(rm), i, |rm|);
    } else {
      assert rm <= rn && rm == rn[..|rm|];
      assert WrittenOf(rn)[..i] == WrittenOf(rn[..i]) && WrittenOf(rn)[..|rm|] == WrittenOf(rm);
      PrefixOps(WrittenOf(rn), |rm|, i);
    }
  }

  lemma {:induction false} ReturnedGrows(states: seq<GState>, events: seq<Event>, m: nat, n: nat)
    requires GRun(states, events) && m <= n < |states|
    ensures states[m].returned <= states[n].returned
  {
    if m < n {
      ReturnedGrows(states, events, m, n - 1);
      assert Takes(states[n - 1], events[n - 1], states[n]);
      assert states[n - 1].returned <= states[n].returned;
    }
  }
}
