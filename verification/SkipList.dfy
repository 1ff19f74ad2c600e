/** The skip list of the memtable. */
module SkipLists {
  // One inserter that sets one link at a time, and readers that take no lock.  A key stands for its rank in
  // the comparator's order, and names its node.

  import opened Keys

  const MAX_HEIGHT: nat := 12

  datatype Ref = Head | Node(key: int)

  /** The links: the next key of a node on a level. */
  type Links = map<(Ref, nat), Option<int>>

  // ---------------------------------------------------------------- levels as lists

  ghost predicate Ascending(list: seq<int>) {
    forall i, j :: 0 <= i < j < |list| ==> list[i] < list[j]
  }

  ghost function RefAt(list: seq<int>, i: nat): Ref
    requires i <= |list|
  {
    if i == 0 then Head else Node(list[i - 1])
  }

  ghost function NextOf(list: seq<int>, i: nat): Option<int>
    requires i <= |list|
  {
    if i < |list| then Some(list[i]) else None
  }

  ghost predicate Link(next: Links, l: nat, r: Ref, k: Option<int>) {
    (r, l) in next && next[(r, l)] == k
  }

  /** Following the links of level `l` from the head yields the list. */
  ghost predicate Linked(next: Links, l: nat, list: seq<int>) {
    forall i :: 0 <= i <= |list| ==> Link(next, l, RefAt(list, i), NextOf(list, i))
  }

  /** Every level is a sorted list, and a sublist of the one below. */
  ghost predicate LevelsOk(next: Links, lists: seq<seq<int>>) {
    && |lists| == MAX_HEIGHT
    && (forall l :: 0 <= l < MAX_HEIGHT ==> Ascending(lists[l]) && Linked(next, l, lists[l]))
    && forall l, m, k :: 0 <= l <= m < MAX_HEIGHT && k in lists[m] ==> k in lists[l]
  }

  /** A target of a search; without one, every key comes before it. */
  predicate Before(k: int, target: Option<int>) {
    target.None? || k < target.value
  }

  /** How many keys of the list come before the target. */
  ghost function Count(list: seq<int>, target: Option<int>): (c: nat)
    ensures c <= |list|
  {
    if list == [] || !Before(list[0], target) then 0 else 1 + Count(list[1..], target)
  }

  lemma {:induction false} CountSplits(list: seq<int>, target: Option<int>, i: nat)
    requires Ascending(list) && i < |list|
    ensures i < Count(list, target) <==> Before(list[i], target)
  {
    if i > 0 {
      assert list[0] < list[i];
      CountSplits(list[1..], target, i - 1);
    }
  }

  /** A position with everything on the left before the target and nothing on the right is the count. */
  lemma CountIs(list: seq<int>, target: Option<int>, i: nat)
    requires Ascending(list) && i <= |list|
    requires i > 0 ==> Before(list[i - 1], target)
    requires i < |list| ==> !Before(list[i], target)
    ensures Count(list, target) == i
  {
    if i > 0 {
      CountSplits(list, target, i - 1);
    }
    if i < |list| {
      CountSplits(list, target, i);
    }
  }

  ghost function Inserted(list: seq<int>, key: int): seq<int> {
    var c := Count(list, Some(key));
    list[..c] + [key] + list[c..]
  }

  lemma InsertedAscending(list: seq<int>, key: int)
    requires Ascending(list) && key !in list
    ensures Ascending(Inserted(list, key))
    ensures forall k :: k in Inserted(list, key) <==> k in list || k == key
  {
    InsertedMembers(list, key);
    var c := Count(list, Some(key));
    var r := Inserted(list, key);
    forall i | 0 <= i < |list| ensures (i < c ==> list[i] < key) && (i >= c ==> key < list[i]) {
      CountSplits(list, Some(key), i);
    }
    hide Count;
    forall i, j | 0 <= i < j < |r| ensures r[i] < r[j] {
      assert r[i] == if i < c then list[i] else if i == c then key else list[i - 1];
      assert r[j] == if j < c then list[j] else if j == c then key else list[j - 1];
    }
  }

  lemma InsertedMembers(list: seq<int>, key: int)
    ensures forall k :: k in Inserted(list, key) <==> k in list || k == key
  {
    var c := Count(list, Some(key));
    assert list == list[..c] + list[c..];
    hide Count;
  }

  /** Where the search enters the level below. */
  lemma EnterBelow(upper: seq<int>, lower: seq<int>, i: nat, target: Option<int>) returns (j: nat)
    requires Ascending(upper) && Ascending(lower) && (forall k :: k in upper ==> k in lower)
    requires i <= |upper| && (i > 0 ==> Before(upper[i - 1], target))
    ensures j <= |lower| && RefAt(lower, j) == RefAt(upper, i) && (j > 0 ==> Before(lower[j - 1], target))
  {
    if i == 0 {
      j := 0;
    } else {
      assert upper[i - 1] in upper;
      var n :| 0 <= n < |lower| && lower[n] == upper[i - 1];
      j := n + 1;
    }
  }

  // ---------------------------------------------------------------- setting links

  /** The first half of linking a node: its own link, which nobody follows yet. */
  lemma PrepareKeeps(next: Links, lists: seq<seq<int>>, key: int, l: nat, k: Option<int>)
    requires LevelsOk(next, lists) && l < MAX_HEIGHT && key !in lists[l]
    ensures LevelsOk(next[(Node(key), l) := k], lists)
  {
    var next2 := next[(Node(key), l) := k];
    forall m | 0 <= m < MAX_HEIGHT ensures Linked(next2, m, lists[m]) {
      forall i | 0 <= i <= |lists[m]| ensures Link(next2, m, RefAt(lists[m], i), NextOf(lists[m], i)) {
        assert Link(next, m, RefAt(lists[m], i), NextOf(lists[m], i));
      }
    }
  }

  /** The second half publishes the node on one level. */
  lemma PublishLinks(next: Links, l: nat, list: seq<int>, key: int)
    requires Ascending(list) && Linked(next, l, list) && key !in list
    requires Link(next, l, Node(key), NextOf(list, Count(list, Some(key))))
    ensures Linked(next[(RefAt(list, Count(list, Some(key))), l) := Some(key)], l, Inserted(list, key))
  {
    var c := Count(list, Some(key));
    var r := Inserted(list, key);
    var next2 := next[(RefAt(list, c), l) := Some(key)];
    forall i | 0 <= i <= |r| ensures Link(next2, l, RefAt(r, i), NextOf(r, i)) {
      if i < c {
        assert RefAt(r, i) == RefAt(list, i) && NextOf(r, i) == NextOf(list, i);
        assert Link(next, l, RefAt(list, i), NextOf(list, i));
        RefsDiffer(list, i, c);
      } else if i == c {
        assert RefAt(r, i) == RefAt(list, c);
      } else if i == c + 1 {
        assert RefAt(r, i) == Node(key) && NextOf(r, i) == NextOf(list, c);
      } else {
        assert RefAt(r, i) == RefAt(list, i - 1) && NextOf(r, i) == NextOf(list, i - 1);
        assert Link(next, l, RefAt(list, i - 1), NextOf(list, i - 1));
        RefsDiffer(list, c, i - 1);
      }
    }
  }

  lemma RefsDiffer(list: seq<int>, i: nat, j: nat)
    requires Ascending(list) && i < j <= |list|
    ensures RefAt(list, i) != RefAt(list, j)
  {
  }

  lemma PublishKeeps(next: Links, lists: seq<seq<int>>, key: int, l: nat)
    requires LevelsOk(next, lists) && l < MAX_HEIGHT
             && (forall m :: 0 <= m < MAX_HEIGHT ==> (key in lists[m] <==> m < l))
    requires Link(next, l, Node(key), NextOf(lists[l], Count(lists[l], Some(key))))
    ensures LevelsOk(next[(RefAt(lists[l], Count(lists[l], Some(key))), l) := Some(key)],
            lists[l := Inserted(lists[l], key)])
  {
    var r := RefAt(lists[l], Count(lists[l], Some(key)));
    var next2, lists2 := next[(r, l) := Some(key)], lists[l := Inserted(lists[l], key)];
    InsertedAscending(lists[l], key);
    forall m | 0 <= m < MAX_HEIGHT ensures Ascending(lists2[m]) && Linked(next2, m, lists2[m]) {
      if m == l {
        PublishLinks(next, l, lists[l], key);
      } else {
        forall i | 0 <= i <= |lists[m]| ensures Link(next2, m, RefAt(lists[m], i), NextOf(lists[m], i)) {
          assert Link(next, m, RefAt(lists[m], i), NextOf(lists[m], i));
        }
      }
    }
  }

  // ---------------------------------------------------------------- the list as an object

  class SkipList {
    var next: Links
    var maxHeight: nat
    /** The keys of each level, in order. */
    ghost var lists: seq<seq<int>>

    ghost predicate Valid()
      reads this
    {
      && LevelsOk(next, lists)
      && 1 <= maxHeight <= MAX_HEIGHT
      && forall l :: maxHeight <= l < MAX_HEIGHT ==> lists[l] == []
    }

    constructor ()
      ensures Valid() && lists == seq(MAX_HEIGHT, i => [])
    {
      next := map l | 0 <= l < MAX_HEIGHT :: (Head, l) := None;
      maxHeight := 1;
      lists := seq(MAX_HEIGHT, i => []);
    }

    /** The common walk: goes right while the next key comes before the target, and down otherwise. */
    method Walk(target: Option<int>) returns (x: Ref, nx: Option<int>, prev: seq<Ref>)
      requires Valid()
      ensures x == RefAt(lists[0], Count(lists[0], target)) && nx == NextOf(lists[0], Count(lists[0], target))
      ensures |prev| == MAX_HEIGHT
      ensures forall l :: 0 <= l < MAX_HEIGHT ==> prev[l] == RefAt(lists[l], Count(lists[l], target))
    {
      x := Head;
      var level := maxHeight - 1;
      prev := seq(MAX_HEIGHT, i => Head);
      ghost var i: nat := 0;
      while true
        invariant 0 <= level < maxHeight && i <= |lists[level]| && x == RefAt(lists[level], i)
        invariant i > 0 ==> Before(lists[level][i - 1], target)
        invariant |prev| == MAX_HEIGHT
        invariant forall l :: level < l < MAX_HEIGHT ==> prev[l] == RefAt(lists[l], Count(lists[l], target))
        decreases level, |lists[level]| - i
      {
        assert Link(next, level, RefAt(lists[level], i), NextOf(lists[level], i));
        nx := next[(x, level)];
        if nx.Some? && Before(nx.value, target) {
          x := Node(nx.value);
          i := i + 1;
        } else {
          CountIs(lists[level], target, i);
          prev := prev[level := x];
          if level == 0 {
            return;
          }
          i := EnterBelow(lists[level], lists[level - 1], i, target);
          level := level - 1;
        }
      }
    }

    method FindGreaterOrEqual(key: int) returns (node: Option<int>, prev: seq<Ref>)
      requires Valid()
      ensures node == NextOf(lists[0], Count(lists[0], Some(key)))
      ensures |prev| == MAX_HEIGHT
      ensures forall l :: 0 <= l < MAX_HEIGHT ==> prev[l] == RefAt(lists[l], Count(lists[l], Some(key)))
    {
      var x;
      x, node, prev := Walk(Some(key));
    }

    method FindLessThan(key: int) returns (node: Ref)
      requires Valid()
      ensures node == RefAt(lists[0], Count(lists[0], Some(key)))
    {
      var nx, prev;
      node, nx, prev := Walk(Some(key));
    }

    method FindLast() returns (node: Ref)
      requires Valid()
      ensures node == RefAt(lists[0], |lists[0]|)
    {
      var nx, prev;
      node, nx, prev := Walk(None);
      CountIs(lists[0], None, |lists[0]|);
    }

    method Contains(key: int) returns (found: bool)
      requires Valid()
      ensures found <==> key in lists[0]
    {
      var node, prev := FindGreaterOrEqual(key);
      found := node.Some? && node.value == key;
      ghost var c := Count(lists[0], Some(key));
      forall i | 0 <= i < |lists[0]| && lists[0][i] == key ensures i == c && found {
        CountSplits(lists[0], Some(key), i);
        assert c < i ==> lists[0][c] < lists[0][i];
        if c < |lists[0]| {
          CountSplits(lists[0], Some(key), c);
        }
      }
    }

    method Insert(key: int, height: nat)
      requires Valid() && key !in lists[0] && 1 <= height <= MAX_HEIGHT
      modifies this
      ensures Valid()
      ensures forall l :: 0 <= l < MAX_HEIGHT ==>
                lists[l] == if l < height then Inserted(old(lists)[l], key) else old(lists)[l]
    {
      var node, prev := FindGreaterOrEqual(key);
      if height > maxHeight {
        maxHeight := height;
      }
      ghost var was := lists;
      var i := 0;
      while i < height
        invariant i <= height <= maxHeight && Valid()
        invariant forall l :: 0 <= l < MAX_HEIGHT ==> lists[l] == if l < i then Inserted(was[l], key) else was[l]
        invariant forall l :: 0 <= l < MAX_HEIGHT ==> (key in lists[l] <==> l < i)
      {
        LinkLevel(key, i, prev[i]);
        InsertedAscending(was[i], key);
        i := i + 1;
      }
    }

    method LinkLevel(key: int, l: nat, prev: Ref)
      requires LevelsOk(next, lists) && l < MAX_HEIGHT && prev == RefAt(lists[l], Count(lists[l], Some(key)))
      requires forall m :: 0 <= m < MAX_HEIGHT ==> (key in lists[m] <==> m < l)
      modifies this`next, this`lists
      ensures LevelsOk(next, lists) && lists == old(lists)[l := Inserted(old(lists)[l], key)]
    {
      assert Link(next, l, RefAt(lists[l], Count(lists[l], Some(key))), NextOf(lists[l], Count(lists[l], Some(key))));
      PrepareKeeps(next, lists, key, l, next[(prev, l)]);
      next := next[(Node(key), l) := next[(prev, l)]];
      PublishKeeps(next, lists, key, l);
      next := next[(prev, l) := Some(key)];
      lists := lists[l := Inserted(lists[l], key)];
    }
  }
}
