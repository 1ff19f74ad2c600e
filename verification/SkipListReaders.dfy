/** Readers during an insertion. */
module SkipListReaders {
  // Every load and every store of a link is one step, in any order the scheduler likes.

  import opened Keys
  import opened SkipLists

  /** An insertion under way: the node is linked on the levels below `level`, and on that level its own
      link is set once `prepared`. */
  datatype Insertion = Insertion(key: int, height: nat, prev: seq<Ref>, level: nat, prepared: bool)

  datatype ListState = ListState(next: Links, maxHeight: nat, lists: seq<seq<int>>, inserting: Option<Insertion>)

  /** A search: it stands on a node, on a level, and ends with the two nodes around the target. */
  datatype Search = Search(target: Option<int>, x: Ref, level: nat, found: Option<(Ref, Option<int>)>)

  datatype Store = BeginInsert(key: int, height: nat) | RaiseHeight | SetOwnLink | SetPrevLink | EndInsert

  ghost predicate Stores(s: ListState, st: Store, t: ListState) {
    match st
    case BeginInsert(key, height) =>
      && s.inserting.None? && 1 <= height <= MAX_HEIGHT && |s.lists| == MAX_HEIGHT && key !in s.lists[0]
      && t.inserting.Some? && |t.inserting.value.prev| == MAX_HEIGHT
      && (forall l :: 0 <= l < MAX_HEIGHT ==>
            t.inserting.value.prev[l] == RefAt(s.lists[l], Count(s.lists[l], Some(key))))
      && t == s.(inserting := Some(Insertion(key, height, t.inserting.value.prev, 0, false)))
    case RaiseHeight =>
      && s.inserting.Some? && s.inserting.value.height > s.maxHeight
      && t == s.(maxHeight := s.inserting.value.height)
    case SetOwnLink =>
      && s.inserting.Some? && var n := s.inserting.value;
      && n.level < n.height && n.height <= s.maxHeight && !n.prepared
      && n.level < |n.prev| && (n.prev[n.level], n.level) in s.next
      && t == s.(next := s.next[(Node(n.key), n.level) := s.next[(n.prev[n.level], n.level)]],
                 inserting := Some(n.(prepared := true)))
    case SetPrevLink =>
      && s.inserting.Some? && var n := s.inserting.value;
      && n.level < n.height && n.prepared && n.level < |n.prev| && n.level < |s.lists|
      && t == s.(next := s.next[(n.prev[n.level], n.level) := Some(n.key)],
                 lists := s.lists[n.level := Inserted(s.lists[n.level], n.key)],
                 inserting := Some(n.(level := n.level + 1, prepared := false)))
    case EndInsert =>
      s.inserting.Some? && s.inserting.value.level == s.inserting.value.height && t == s.(inserting := None)
  }

  /** One load of a reader: it looks at the next node of the level it is on. */
  ghost predicate Loads(s: ListState, r: Search, r2: Search) {
    && r.found.None? && (r.x, r.level) in s.next
    && var nx := s.next[(r.x, r.level)];
    && r2 == if nx.Some? && Before(nx.value, r.target) then r.(x := Node(nx.value))
             else if r.level == 0 then r.(found := Some((r.x, nx)))
             else r.(level := r.level - 1)
  }

  /** A search starts at the head, on any level: the height it reads may be out of date. */
  predicate Starts(r: Search) {
    r.x == Head && r.level < MAX_HEIGHT && r.found.None?
  }

  // ---------------------------------------------------------------- invariants

  ghost predicate InsertionOk(s: ListState) {
    s.inserting.Some? ==>
      var n := s.inserting.value;
      && n.level <= n.height <= MAX_HEIGHT && |n.prev| == |s.lists| == MAX_HEIGHT
      && (forall l :: 0 <= l < MAX_HEIGHT ==> (n.key in s.lists[l] <==> l < n.level))
      && (forall l :: n.level <= l < MAX_HEIGHT ==> n.prev[l] == RefAt(s.lists[l], Count(s.lists[l], Some(n.key))))
      && (n.prepared ==> n.level < MAX_HEIGHT
                         && Link(s.next, n.level, Node(n.key),
                            NextOf(s.lists[n.level], Count(s.lists[n.level], Some(n.key)))))
  }

  /** In every intermediate state each level is sorted and a sublist of the one below. */
  ghost predicate SInv(s: ListState) {
    LevelsOk(s.next, s.lists) && InsertionOk(s)
  }

  ghost predicate Grown(a: seq<seq<int>>, b: seq<seq<int>>) {
    |a| == |b| && forall l, k :: 0 <= l < |a| && k in a[l] ==> k in b[l]
  }

  lemma StoreKeeps(s: ListState, st: Store, t: ListState)
    requires SInv(s) && Stores(s, st, t)
    ensures SInv(t) && Grown(s.lists, t.lists)
  {
    match st {
      case BeginInsert(key, height) =>
        hide Count, RefAt;
        assert forall l :: 0 <= l < MAX_HEIGHT ==> key !in s.lists[l];
      case RaiseHeight =>
      case SetOwnLink => OwnLinkKeeps(s, t);
      case SetPrevLink => PrevLinkKeeps(s, t);
      case EndInsert =>
    }
  }

  lemma OwnLinkKeeps(s: ListState, t: ListState)
    requires SInv(s) && Stores(s, SetOwnLink, t)
    ensures SInv(t) && t.lists == s.lists
  {
    var n := s.inserting.value;
    var c := Count(s.lists[n.level], Some(n.key));
    assert Link(s.next, n.level, RefAt(s.lists[n.level], c), NextOf(s.lists[n.level], c));
    PrepareKeeps(s.next, s.lists, n.key, n.level, s.next[(n.prev[n.level], n.level)]);
    hide LevelsOk, Count, RefAt;
  }

  lemma PrevLinkKeeps(s: ListState, t: ListState)
    requires SInv(s) && Stores(s, SetPrevLink, t)
    ensures SInv(t) && Grown(s.lists, t.lists)
  {
    var n := s.inserting.value;
    PublishKeeps(s.next, s.lists, n.key, n.level);
    InsertedMembers(s.lists[n.level], n.key);
    hide LevelsOk, Count, RefAt, NextOf, Inserted, Link;
  }

  /** A reader never overtakes its target, and stands on a node of its level. */
  ghost predicate RInv(s: ListState, r: Search) {
    && |s.lists| == MAX_HEIGHT && r.level < MAX_HEIGHT
    && (r.x.Node? ==> r.x.key in s.lists[r.level] && Before(r.x.key, r.target))
  }

  /** `x` and `nx` are neighbours, with the target between them. */
  ghost predicate Around(list: seq<int>, target: Option<int>, x: Ref, nx: Option<int>) {
    && x == RefAt(list, Count(list, target))
    && nx == NextOf(list, Count(list, target))
  }

  lemma StoreKeepsReader(s: ListState, t: ListState, r: Search)
    requires RInv(s, r) && Grown(s.lists, t.lists)
    ensures RInv(t, r)
  {
  }

  lemma LoadKeeps(s: ListState, r: Search, r2: Search)
    requires SInv(s) && RInv(s, r) && Loads(s, r, r2)
    ensures RInv(s, r2) && r2.target == r.target
    ensures r2.found.Some? ==> Around(s.lists[0], r.target, r2.found.value.0, r2.found.value.1)
  {
    var list := s.lists[r.level];
    var i: nat := 0;
    if r.x.Node? {
      var j :| 0 <= j < |list| && list[j] == r.x.key;
      i := j + 1;
    }
    assert RefAt(list, i) == r.x;
    assert Link(s.next, r.level, RefAt(list, i), NextOf(list, i));
    var nx := s.next[(r.x, r.level)];
    if !(nx.Some? && Before(nx.value, r.target)) {
      CountIs(list, r.target, i);
    }
  }

  // ---------------------------------------------------------------- runs

  /** Stores and the loads of one reader, interleaved; other readers change nothing. */
  datatype Move = Storing(st: Store) | Loading

  ghost predicate RaceStep(s: ListState, r: Search, m: Move, t: ListState, r2: Search) {
    match m
    case Storing(st) => Stores(s, st, t) && r2 == r
    case Loading => t == s && Loads(s, r, r2)
  }

  ghost predicate Race(ss: seq<ListState>, rs: seq<Search>, ms: seq<Move>) {
    && |ss| == |rs| == |ms| + 1
    && SInv(ss[0]) && Starts(rs[0])
    && forall i :: 0 <= i < |ms| ==> RaceStep(ss[i], rs[i], ms[i], ss[i + 1], rs[i + 1])
  }

  lemma {:induction false} RaceKeeps(ss: seq<ListState>, rs: seq<Search>, ms: seq<Move>, n: nat)
    requires Race(ss, rs, ms) && n < |ss|
    ensures SInv(ss[n]) && RInv(ss[n], rs[n]) && rs[n].target == rs[0].target
    ensures Grown(ss[0].lists, ss[n].lists)
  {
    if n > 0 {
      RaceKeeps(ss, rs, ms, n - 1);
      assert RaceStep(ss[n - 1], rs[n - 1], ms[n - 1], ss[n], rs[n]);
      hide Race, SInv, RInv, Stores, Loads;
      match ms[n - 1] {
        case Storing(st) =>
          StoreKeeps(ss[n - 1], st, ss[n]);
          StoreKeepsReader(ss[n - 1], ss[n], rs[n - 1]);
        case Loading =>
          LoadKeeps(ss[n - 1], rs[n - 1], rs[n]);
      }
    }
  }

  /** A search that ends with a load in state `n` ends with the exact neighbours of its target in the
      list as it is at that moment. */
  lemma SearchIsExact(ss: seq<ListState>, rs: seq<Search>, ms: seq<Move>, n: nat)
    requires Race(ss, rs, ms) && n < |ms| && ms[n].Loading? && rs[n + 1].found.Some?
    ensures |ss[n].lists| == MAX_HEIGHT
    ensures Around(ss[n].lists[0], rs[0].target, rs[n + 1].found.value.0, rs[n + 1].found.value.1)
  {
    RaceKeeps(ss, rs, ms, n);
    assert RaceStep(ss[n], rs[n], ms[n], ss[n + 1], rs[n + 1]);
    LoadKeeps(ss[n], rs[n], rs[n + 1]);
  }

  lemma AroundBounds(list: seq<int>, target: Option<int>, x: Ref, nx: Option<int>, k: int)
    requires Ascending(list) && Around(list, target, x, nx) && k in list && !Before(k, target)
    ensures nx.Some? && nx.value <= k && nx.value in list && !Before(nx.value, target)
  {
    var i :| 0 <= i < |list| && list[i] == k;
    CountSplits(list, target, i);
    var c := Count(list, target);
    CountSplits(list, target, c);
  }

  /** A key that was there when the search began is not missed: looking for it finds it, whatever is
      inserted meanwhile. */
  lemma NeverMissed(ss: seq<ListState>, rs: seq<Search>, ms: seq<Move>, n: nat, key: int)
    requires Race(ss, rs, ms) && n < |ms| && ms[n].Loading? && rs[n + 1].found.Some?
    requires rs[0].target == Some(key) && |ss[0].lists| == MAX_HEIGHT && key in ss[0].lists[0]
    ensures rs[n + 1].found.value.1 == Some(key)
  {
    RaceKeeps(ss, rs, ms, n);
    SearchIsExact(ss, rs, ms, n);
    assert LevelsOk(ss[n].next, ss[n].lists);
    AroundBounds(ss[n].lists[0], Some(key), rs[n + 1].found.value.0, rs[n + 1].found.value.1, key);
  }
}
