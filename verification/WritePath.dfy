/** Writers, store and disk together. */
module WritePath {
  // The write queue drives the store: logging a group and publishing it are steps of the store with its disk,
  // and in between the worker, readers and crashes do theirs.

  import opened Keys
  import opened Lsm
  import opened Durable
  import opened GroupCommit
  import Recovery
  import StoreIterators

  /** `base` is the last sequence number when the process started, `kept` what the store held then. */
  datatype WState = WState(g: GState, d: DState, base: nat, kept: set<Entry>)

  datatype Move = Queue(ev: Event) | Store(step: Step)

  /** The store's part in a step of the queue. */
  ghost predicate Answers(w: WState, ev: Event, w2: WState) {
    match ev
    case AddRecord => w.g.leader.Leading? && Next(w.d, LogGroup(w.g.leader.ops), w2.d)
    case Publish => Next(w.d, Commit, w2.d)
    case _ => w2.d == w.d
  }

  /** Only the queue logs and commits; only its leader, making room, switches the log; a crash empties it. */
  ghost predicate Moves(w: WState, move: Move, w2: WState) {
    match move
    case Queue(ev) => Takes(w.g, ev, w2.g) && Answers(w, ev, w2) && w2.base == w.base && w2.kept == w.kept
    case Store(step) =>
      && !step.LogGroup? && !step.Commit? && (step.SwitchLog? ==> w.g.leader.MakingRoom?) && Next(w.d, step, w2.d)
      && if step.Crash? then GInit(w2.g) && w2.base == w2.d.s.lastSeq && w2.kept == w2.d.s.history
         else w2.g == w.g && w2.base == w.base && w2.kept == w.kept
  }

  /** The operations of the writers that were told their writes succeeded, in queue order. */
  ghost function Acked(g: GState): seq<Operation> {
    AllOps(WrittenOf(g.returned))
  }

  ghost function Batch(ops: seq<Operation>, first: nat): set<Entry> {
    if first + |ops| <= MAX_SEQ then BatchEntries(ops, first) else {}
  }

  /** What the group being written has logged. */
  ghost function Logged(g: GState, first: nat): Option<Recovery.Rec> {
    if g.leader.Leading? && g.leader.logged then Some(Recovery.Rec(first, g.leader.ops)) else None
  }

  /** The snapshot was taken between two groups. */
  ghost predicate Between(g: GState, base: nat, q: nat) {
    exists m :: 0 <= m <= |g.returned| && q == base + |AllOps(WrittenOf(g.returned[..m]))|
  }

  /** The store has written exactly what the queue's writers were told, after what it held at the start, and
      what is in flight is what the leader has logged. */
  ghost predicate Matches(w: WState) {
    && w.d.s.lastSeq == w.base + w.g.lastSeq
    && w.d.s.history == w.kept + Batch(Acked(w.g), w.base + 1)
    && w.d.inflight == Logged(w.g, w.d.s.lastSeq + 1)
  }

  /** Every snapshot a reader holds was taken between two groups. */
  ghost predicate WholeBatches(w: WState) {
    forall q :: q in w.d.s.snapshots ==> Between(w.g, w.base, q) || q <= w.base
  }

  ghost predicate WInv(w: WState) {
    GInv(w.g) && DInv(w.d) && Matches(w) && WholeBatches(w)
  }

  ghost predicate WInit(w: WState) {
    GInit(w.g) && DInit(w.d) && w.base == 0 && w.kept == {}
  }

  // ---------------------------------------------------------------- batches

  lemma BatchSplit(a: seq<Operation>, b: seq<Operation>, first: nat)
    requires first + |a| + |b| <= MAX_SEQ
    ensures Batch(a + b, first) == Batch(a, first) + Batch(b, first + |a|)
  {
    var c := a + b;
    forall e | e in Batch(a, first) + Batch(b, first + |a|) ensures e in Batch(c, first) {
      if e in Batch(a, first) {
        var i :| 0 <= i < |a| && e == Entry(a[i].0, first + i, a[i].1);
        assert c[i] == a[i];
      } else {
        var i :| 0 <= i < |b| && e == Entry(b[i].0, first + |a| + i, b[i].1);
        assert c[|a| + i] == b[i];
      }
    }
    forall e | e in Batch(c, first) ensures e in Batch(a, first) + Batch(b, first + |a|) {
      var i :| 0 <= i < |c| && e == Entry(c[i].0, first + i, c[i].1);
      if i < |a| {
        assert c[i] == a[i];
      } else {
        assert c[i] == b[i - |a|] && e == Entry(b[i - |a|].0, first + |a| + (i - |a|), b[i - |a|].1);
      }
    }
  }

  /** What a step of the queue adds to what was acknowledged. */
  lemma EventAcks(g: GState, ev: Event, g2: GState)
    requires GInv(g) && Takes(g, ev, g2)
    ensures g.returned <= g2.returned
    ensures g2.lastSeq == g.lastSeq + (if ev.Publish? then |g.leader.ops| else 0)
    ensures Acked(g2) == if ev.Publish? then Acked(g) + g.leader.ops else Acked(g)
  {
    hide AllOps, WrittenOf, WritersOf, LogConsecutive, LogOps, Numbered, LeavesWell;
    if ev.Publish? {
      GroupLeaves(g);
      WrittenAppend(g.returned, GroupReturned(g.queue, g.leader.n, g.lastSeq + 1, |g.log| - 1));
    } else if ev.Refuse? || ev.Skip? {
      var r := g2.returned[|g.returned|];
      assert g2.returned == g.returned + [r];
      SingleLeaves(g, r);
      WrittenAppend(g.returned, [r]);
      assert Acked(g) + [] == Acked(g);
    }
  }

  // ---------------------------------------------------------------- steps

  lemma CommitIs(d: DState, e: DState)
    requires d.inflight.Some? && DInv(d) && Next(d, Commit, e)
    ensures var r := d.inflight.value;
            && r.first == d.s.lastSeq + 1 && d.s.lastSeq + |r.ops| < MAX_SEQ
            && e.s.lastSeq == d.s.lastSeq + |r.ops| && e.s.history == d.s.history + BatchEntries(r.ops, r.first)
            && e.inflight == None && e.s.snapshots == d.s.snapshots
  {
    InvOf(d);
    hide DInv, Inv, LogsBack, BatchEntries, Sorted;
    InFlightFirst(d);
  }

  lemma InFlightFirst(d: DState)
    ensures LogsBack(d) && d.inflight.Some? ==> d.inflight.value.first == d.s.lastSeq + 1
  {
    hide Recovery.Entries, Older, Recovery.LogsOrdered, RecordsEnd, InFlight;
  }

  lemma LogIs(d: DState, ops: seq<Operation>, e: DState)
    ensures Next(d, LogGroup(ops), e) ==>
              d.inflight.None? && e.s == d.s && e.inflight == Some(Recovery.Rec(d.s.lastSeq + 1, ops))
  {
  }

  lemma LoggedIs(g: GState, g2: GState)
    ensures Takes(g, AddRecord, g2) ==>
              && g.leader.Leading? && g2.leader.Leading? && g2.leader.logged && g2.leader.ops == g.leader.ops
              && g2.returned == g.returned && g2.lastSeq == g.lastSeq
  {
  }

  lemma LogMatches(w: WState, w2: WState)
    requires Matches(w) && Moves(w, Queue(AddRecord), w2)
    ensures Matches(w2) && w2.d.s == w.d.s
  {
    LoggedIs(w.g, w2.g);
    LogIs(w.d, w.g.leader.ops, w2.d);
    hide Acked, Batch, Next, Takes;
    assert Acked(w2.g) == Acked(w.g) by { SameAcked(w.g, w2.g); }
  }

  lemma SameAcked(g: GState, g2: GState)
    requires g2.returned == g.returned
    ensures Acked(g2) == Acked(g)
  {
  }

  /** What is in flight is what the leader logged. */
  lemma PublishMatches(w: WState, w2: WState)
    requires GInv(w.g) && DInv(w.d) && Matches(w) && Moves(w, Queue(Publish), w2)
    ensures Matches(w2) && w2.d.s.snapshots == w.d.s.snapshots
  {
    hide GInv, DInv, AllOps, BatchEntries, Takes, Next, Acked, Batch;
    PublishEnds(w.g, w2.g);
    EventAcks(w.g, Publish, w2.g);
    CommitIs(w.d, w2.d);
    AckedCount(w.g);
    BatchSplit(Acked(w.g), w.g.leader.ops, w.base + 1);
    BatchIs(w.g.leader.ops, w.d.s.lastSeq + 1);
    assert w2.kept + (Batch(Acked(w.g), w.base + 1) + Batch(w.g.leader.ops, w.d.s.lastSeq + 1)) == w2.d.s.history;
  }

  lemma BatchIs(ops: seq<Operation>, first: nat)
    requires first + |ops| <= MAX_SEQ
    ensures Batch(ops, first) == BatchEntries(ops, first)
  {
  }

  /** The other steps of the queue leave store and log alone. */
  lemma OtherMatches(w: WState, ev: Event, w2: WState)
    requires Matches(w) && Moves(w, Queue(ev), w2) && !ev.AddRecord? && !ev.Publish?
    requires Acked(w2.g) == Acked(w.g) && w2.g.lastSeq == w.g.lastSeq
    ensures Matches(w2) && w2.d == w.d
  {
    hide Acked, Batch;
  }

  lemma QueueMatches(w: WState, ev: Event, w2: WState)
    requires WInv(w) && Moves(w, Queue(ev), w2)
    ensures GInv(w2.g) && Matches(w2) && w2.d.s.snapshots == w.d.s.snapshots && w.g.returned <= w2.g.returned
  {
    hide GInv, DInv, Matches, Takes, Next, Acked, WholeBatches;
    EventAcks(w.g, ev, w2.g);
    TakesKeeps(w.g, ev, w2.g);
    match ev {
      case AddRecord => LogMatches(w, w2);
      case Publish => PublishMatches(w, w2);
      case _ => OtherMatches(w, ev, w2);
    }
  }

  lemma AckedCount(g: GState)
    ensures GInv(g) ==> g.lastSeq == |Acked(g)|
  {
    hide AllOps, WrittenOf, LogOps, Numbered;
  }

  lemma PublishEnds(g: GState, g2: GState)
    ensures Takes(g, Publish, g2) ==> g.leader.Leading? && g.leader.logged && g2.leader.Nobody?
  {
  }

  // ---------------------------------------------------------------- the store's own steps

  /** Steps of the worker and of readers write nothing. */
  lemma StepWritesNothing(d: DState, step: Step, e: DState)
    requires DInv(d) && Next(d, step, e) && !step.LogGroup? && !step.Commit? && !step.Crash?
    ensures e.s.lastSeq == d.s.lastSeq && e.s.history == d.s.history && e.inflight == d.inflight
    ensures forall q :: q in e.s.snapshots ==> q in d.s.snapshots || q == d.s.lastSeq
  {
    hide DInv, Does, Prepared, LiveNumber;
    match step {
      case Quiet(a) => ActionWritesNothing(d.s, a, e.s);
      case FinishApply =>
        ApplyingParts(d);
        ActionWritesNothing(d.s, d.applying.value.a, e.s);
      case _ =>
    }
  }

  lemma ActionWritesNothing(s: State, a: Action, t: State)
    requires Does(s, a, t) && !a.Write?
    ensures t.lastSeq == s.lastSeq && t.history == s.history
    ensures forall q :: q in t.snapshots ==> q in s.snapshots || q == s.lastSeq
  {
  }

  lemma StoreMatches(w: WState, step: Step, w2: WState)
    requires WInv(w) && Moves(w, Store(step), w2)
    ensures GInv(w2.g) && Matches(w2) && WholeBatches(w2)
  {
    if step.Crash? {
      CrashMatches(w, w2);
    } else {
      hide GInv, DInv, Next, Matches, WholeBatches;
      StepWritesNothing(w.d, step, w2.d);
      SameMatches(w, w2);
      LastIsBetween(w);
      SnapshotsWhole(w, w2);
    }
  }

  lemma SameMatches(w: WState, w2: WState)
    requires Matches(w) && w2.g == w.g && w2.base == w.base && w2.kept == w.kept
    requires w2.d.s.lastSeq == w.d.s.lastSeq && w2.d.s.history == w.d.s.history && w2.d.inflight == w.d.inflight
    ensures Matches(w2)
  {
    hide Acked, Batch;
  }

  lemma SnapshotsWhole(w: WState, w2: WState)
    requires WholeBatches(w) && w2.g == w.g && w2.base == w.base && Between(w.g, w.base, w.d.s.lastSeq)
    requires forall q :: q in w2.d.s.snapshots ==> q in w.d.s.snapshots || q == w.d.s.lastSeq
    ensures WholeBatches(w2)
  {
    hide Between;
  }

  lemma LastIsBetween(w: WState)
    requires GInv(w.g) && Matches(w)
    ensures Between(w.g, w.base, w.d.s.lastSeq)
  {
    AckedCount(w.g);
    hide AllOps, WrittenOf, GInv;
    assert w.g.returned[..|w.g.returned|] == w.g.returned;
  }

  /** The new process has acknowledged nothing yet, and keeps what was acknowledged and what was in flight. */
  lemma CrashMatches(w: WState, w2: WState)
    requires WInv(w) && Moves(w, Store(Crash), w2)
    ensures GInv(w2.g) && Matches(w2) && WholeBatches(w2)
    ensures w2.kept == w.kept + Batch(Acked(w.g), w.base + 1) + InFlight(w.d)
  {
    hide DInv, Next, GInv, Matches, WholeBatches, Acked, Batch;
    InvMatches(w);
    WrittenIs(w);
    var m := CrashKeeps(w.d, Crash, w2.d);
    FreshQueue(w2.g);
    CrashInFlight(w.d, w2.d);
    FreshMatches(w2);
  }

  lemma FreshMatches(w: WState)
    requires Acked(w.g) == [] && w.g.lastSeq == 0 && w.g.leader.Nobody? && w.d.inflight.None?
    requires w.base == w.d.s.lastSeq && w.kept == w.d.s.history && w.d.s.snapshots == []
    ensures Matches(w) && WholeBatches(w)
  {
    hide Acked, Between;
    assert Batch([], w.base + 1) == {};
  }

  lemma FreshQueue(g: GState)
    requires GInit(g)
    ensures GInv(g) && Acked(g) == [] && g.lastSeq == 0 && Logged(g, 1).None? && g.leader.Nobody?
  {
    assert WritersOf([]) == [] && WrittenOf([]) == [];
  }

  lemma CrashInFlight(d: DState, e: DState)
    ensures Next(d, Crash, e) ==> e.inflight.None?
  {
    hide Opened, AddedTables;
  }

  // ---------------------------------------------------------------- runs

  lemma MoveKeeps(w: WState, move: Move, w2: WState)
    requires WInv(w) && Moves(w, move, w2)
    ensures WInv(w2)
  {
    hide GInv, DInv, Matches, WholeBatches, Takes, Next;
    match move {
      case Queue(ev) =>
        QueueMatches(w, ev, w2);
        StillWhole(w, w2);
        AnswerKeeps(w, ev, w2);
      case Store(step) =>
        StoreMatches(w, step, w2);
        StepKeeps(w.d, step, w2.d);
    }
  }

  lemma AnswerKeeps(w: WState, ev: Event, w2: WState)
    requires DInv(w.d) && Answers(w, ev, w2)
    ensures DInv(w2.d)
  {
    hide DInv, Next;
    match ev {
      case AddRecord => StepKeeps(w.d, LogGroup(w.g.leader.ops), w2.d);
      case Publish => StepKeeps(w.d, Commit, w2.d);
      case _ =>
    }
  }

  /** Where groups ended stays where it was when more writers return. */
  lemma StillWhole(w: WState, w2: WState)
    requires WholeBatches(w) && w2.d.s.snapshots == w.d.s.snapshots && w2.base == w.base
    requires w.g.returned <= w2.g.returned
    ensures WholeBatches(w2)
  {
    forall q | q in w2.d.s.snapshots && q > w2.base ensures Between(w2.g, w2.base, q) {
      var m :| 0 <= m <= |w.g.returned| && q == w.base + |AllOps(WrittenOf(w.g.returned[..m]))|;
      assert w2.g.returned[..m] == w.g.returned[..m];
    }
  }

  ghost predicate WRun(ws: seq<WState>, moves: seq<Move>) {
    && |ws| == |moves| + 1
    && WInit(ws[0])
    && forall i :: 0 <= i < |moves| ==> Moves(ws[i], moves[i], ws[i + 1])
  }

  /** In every state of every run of writers, worker, readers and crashes: the store has written what it held
      when the process started, and after that exactly the batches whose writers were told so, in queue order
      under consecutive sequence numbers; what is in flight is what the leader has logged. */
  lemma {:induction false} WRunKeeps(ws: seq<WState>, moves: seq<Move>, n: nat)
    requires WRun(ws, moves) && n < |ws|
    ensures WInv(ws[n])
  {
    hide WInv, Moves;
    if n == 0 {
      StartMatches(ws[0]);
    } else {
      WRunKeeps(ws, moves, n - 1);
      MoveKeeps(ws[n - 1], moves[n - 1], ws[n]);
    }
  }

  lemma StartMatches(w: WState)
    requires WInit(w)
    ensures WInv(w)
  {
    FreshQueue(w.g);
    InitKeeps(w.d);
    hide GInv, DInv, AllOps, WrittenOf;
    assert Batch([], 1) == {};
  }

  // ---------------------------------------------------------------- what readers and writers see

  /** The condition on installations, move by move. */
  ghost predicate Fair(w: WState, move: Move) {
    move.Store? ==> Permitted(w.d, move.step)
  }

  lemma MoveSound(w: WState, move: Move, w2: WState)
    requires WInv(w) && Sound(w.d.s) && Moves(w, move, w2)
    ensures Sound(w2.d.s) <==> Fair(w, move)
  {
    hide GInv, DInv, Matches, WholeBatches, Takes, Next, Sound;
    match move {
      case Queue(ev) =>
        match ev {
          case AddRecord =>
            WritesAreFair(w.d, LogGroup(w.g.leader.ops));
            StepReadsSound(w.d, LogGroup(w.g.leader.ops), w2.d);
          case Publish =>
            WritesAreFair(w.d, Commit);
            StepReadsSound(w.d, Commit, w2.d);
          case _ =>
        }
      case Store(step) => StepReadsSound(w.d, step, w2.d);
    }
  }

  lemma WritesAreFair(d: DState, step: Step)
    ensures step.LogGroup? || step.Commit? ==> Permitted(d, step)
  {
    hide Unexposed, CrashPermitted;
  }

  lemma {:induction false} WRunSound(ws: seq<WState>, moves: seq<Move>, n: nat)
    requires WRun(ws, moves) && n < |ws| && forall i :: 0 <= i < n ==> Fair(ws[i], moves[i])
    ensures Sound(ws[n].d.s)
  {
    hide WInv, Moves, Sound, Fair;
    if n == 0 {
      InitKeeps(ws[0].d);
    } else {
      WRunSound(ws, moves, n - 1);
      WRunKeeps(ws, moves, n - 1);
      MoveSound(ws[n - 1], moves[n - 1], ws[n]);
    }
  }

  /** Reads are decided by what the store held when the process started and by the batches whose writers were told
      that they succeeded. */
  ghost predicate Acknowledged(w: WState) {
    forall k, q :: q >= w.d.s.Floor() ==>
      Read(w.d.s.All(), k, q) == Read(w.kept + Batch(Acked(w.g), w.base + 1), k, q)
  }

  lemma AcknowledgedIsSound(w: WState)
    requires WInv(w)
    ensures Acknowledged(w) <==> Sound(w.d.s)
  {
    hide WInv, DInv, Inv, Read, Batch, Acked, Matches, LogsBack;
    InvMatches(w);
    WrittenIs(w);
    StoreInv(w);
    InvOf(w.d);
    SameSound(w.d.s, w.kept + Batch(Acked(w.g), w.base + 1));
  }

  lemma StoreInv(w: WState)
    ensures WInv(w) ==> DInv(w.d)
  {
    hide GInv, DInv, Matches, WholeBatches;
  }

  lemma SameSound(s: State, H: set<Entry>)
    requires Inv(s) && s.history == H
    ensures Sound(s) <==> forall k, q :: q >= s.Floor() ==> Read(s.All(), k, q) == Read(H, k, q)
  {
    hide Read, Inv;
  }

  ghost predicate AllAcknowledged(ws: seq<WState>) {
    forall n :: 0 <= n < |ws| ==> Acknowledged(ws[n])
  }

  ghost predicate AllFair(ws: seq<WState>, moves: seq<Move>)
    requires |ws| == |moves| + 1
  {
    forall i :: 0 <= i < |moves| ==> Fair(ws[i], moves[i])
  }

  /** In all states of a run reads are decided by the acknowledged writes exactly when no installation of the run
      exposes anything. */
  lemma ReadsAreAcknowledged(ws: seq<WState>, moves: seq<Move>)
    requires WRun(ws, moves)
    ensures AllAcknowledged(ws) <==> AllFair(ws, moves)
  {
    hide WInv, Moves, Sound, Fair, Acknowledged, WInit;
    forall n | 0 <= n < |ws| ensures Acknowledged(ws[n]) <==> Sound(ws[n].d.s) {
      WRunKeeps(ws, moves, n);
      AcknowledgedIsSound(ws[n]);
    }
    if AllFair(ws, moves) {
      forall n | 0 <= n < |ws| ensures Sound(ws[n].d.s) {
        WRunSound(ws, moves, n);
      }
    }
    if AllAcknowledged(ws) {
      forall i | 0 <= i < |moves| ensures Fair(ws[i], moves[i]) {
        WRunKeeps(ws, moves, i);
        MoveSound(ws[i], moves[i], ws[i + 1]);
      }
    }
  }

  lemma WrittenIs(w: WState)
    requires Matches(w)
    ensures w.d.s.history == w.kept + Batch(Acked(w.g), w.base + 1)
    ensures w.d.inflight.Some? ==> w.g.leader.Leading? && w.g.leader.logged
  {
    hide Acked, Batch;
  }

  /** A snapshot that a reader holds sees all of a batch or nothing of it. */
  lemma SnapshotSeesWhole(ws: seq<WState>, moves: seq<Move>, n: nat, q: nat, i: nat)
    requires WRun(ws, moves) && n < |ws| && q in ws[n].d.s.snapshots
    requires i < |ws[n].g.returned| && ws[n].g.returned[i].status.Ok?
    ensures var r := ws[n].g.returned[i];
            ws[n].base + r.first + |r.w.Ops()| <= q + 1 || q < ws[n].base + r.first
  {
    WRunKeeps(ws, moves, n);
    var w := ws[n];
    FirstOf(w.g, i);
    hide WRun, GInv, DInv, Matches;
    if q > w.base {
      var m :| 0 <= m <= |w.g.returned| && q == w.base + |AllOps(WrittenOf(w.g.returned[..m]))|;
      BatchOnOneSide(w.g.returned[..m], w.g.returned, i);
    }
  }

  /** A crash keeps every acknowledged write; the one group it may add was logged and not yet acknowledged. */
  lemma CrashKeepsAcknowledged(ws: seq<WState>, moves: seq<Move>, n: nat)
    requires WRun(ws, moves) && n < |moves| && moves[n] == Store(Crash)
    ensures ws[n + 1].kept == ws[n].kept + Batch(Acked(ws[n].g), ws[n].base + 1) + InFlight(ws[n].d)
    ensures InFlight(ws[n].d) != {} ==> ws[n].g.leader.Leading? && ws[n].g.leader.logged
  {
    hide WInv, Moves, Acked, Batch;
    WRunKeeps(ws, moves, n);
    assert Moves(ws[n], moves[n], ws[n + 1]);
    CrashMatches(ws[n], ws[n + 1]);
    InvMatches(ws[n]);
    hide Matches;
    WrittenIs(ws[n]);
  }

  lemma InvMatches(w: WState)
    ensures WInv(w) ==> Matches(w)
  {
    hide GInv, DInv, Matches, WholeBatches;
  }

  // ---------------------------------------------------------------- the store never refuses

  /** Whatever the queue does next, the store can answer, unless the sequence numbers are used up. */
  lemma StoreCanAnswer(w: WState, ev: Event, g2: GState) returns (w2: WState)
    requires WInv(w) && Takes(w.g, ev, g2) && (ev.AddRecord? ==> w.d.s.lastSeq + |w.g.leader.ops| < MAX_SEQ)
    ensures Moves(w, Queue(ev), w2) && w2.g == g2
  {
    hide GInv, WholeBatches;
    w2 := w.(g := g2);
    match ev {
      case AddRecord =>
        var e := CanLog(w.d, w.g.leader.ops);
        w2 := WState(g2, e, w.base, w.kept);
      case Publish =>
        PublishEnds(w.g, g2);
        var e := CanCommit(w.d);
        w2 := WState(g2, e, w.base, w.kept);
      case _ =>
    }
  }

  lemma CanLog(d: DState, ops: seq<Operation>) returns (e: DState)
    requires DInv(d) && d.inflight.None? && d.s.lastSeq + |ops| < MAX_SEQ
    ensures Next(d, LogGroup(ops), e)
  {
    InvOf(d);
    hide DInv, Inv;
    var r: Recovery.Record := Recovery.Rec(d.s.lastSeq + 1, ops);
    e := d.(inflight := Some(r), disk := d.disk.(logs := d.disk.logs[d.logFile := d.disk.logs[d.logFile] + [r]]));
  }

  lemma CanCommit(d: DState) returns (e: DState)
    requires DInv(d) && d.inflight.Some?
    ensures Next(d, Commit, e)
  {
    InvOf(d);
    InFlightFirst(d);
    InFlightFits(d);
    hide DInv, LogsBack, Inv, Does;
    var t := CanWrite(d.s, d.inflight.value.ops);
    e := d.(s := t, inflight := None);
  }

  lemma InFlightFits(d: DState)
    requires d.inflight.Some? && d.inflight.value.first == d.s.lastSeq + 1
    ensures d.s.lastSeq + |d.inflight.value.ops| < MAX_SEQ
  {
  }

  lemma CanWrite(s: State, ops: seq<Operation>) returns (t: State)
    requires Inv(s) && s.lastSeq + |ops| < MAX_SEQ
    ensures Does(s, Action.Write(ops), t)
  {
    hide Inv, Distinct, Sorted;
    MemoryDistinct(s, ops);
    var new_ := BatchEntries(ops, s.lastSeq + 1);
    var mem := StoreIterators.InOrder(Elems(s.mem) + new_);
    t := s.(mem := mem, lastSeq := s.lastSeq + |ops|, history := s.history + new_);
  }

  lemma MemoryDistinct(s: State, ops: seq<Operation>)
    requires Inv(s) && s.lastSeq + |ops| < MAX_SEQ
    ensures Distinct(Elems(s.mem) + BatchEntries(ops, s.lastSeq + 1))
  {
    LastSeen(s);
    BatchFacts(ops, s.lastSeq + 1, s.history);
    assert Elems(s.mem) <= s.All();
  }
}
