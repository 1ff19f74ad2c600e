/** The hash table of the cache: chains of handles in a power-of-two number of buckets.  To its user it is
    a finite map from names to handles, and a resize is invisible. */
module HandleTables {
  import opened Keys

  /** A handle as the table sees it; `id` stands for its address. */
  datatype Handle = Handle(id: nat, key: string, hash: nat)
  {
    function Name(): (string, nat) { (key, hash) }
  }

  type Bucket = seq<Handle>

  /** The bucket of a hash value.  The length is a power of two, so masking with length - 1 takes the
      remainder. */
  function Slot(hash: nat, length: nat): (b: nat)
    requires length > 0
    ensures b < length
  {
    hash % length
  }

  ghost predicate PowerOfTwo(n: nat) {
    n == 4 || (n > 4 && n % 2 == 0 && PowerOfTwo(n / 2))
  }

  function Total(list: seq<Bucket>): nat {
    if list == [] then 0 else Total(list[..|list| - 1]) + |list[|list| - 1]|
  }

  lemma {:induction false} TotalUpdate(list: seq<Bucket>, b: nat, bucket: Bucket)
    requires b < |list|
    ensures Total(list[b := bucket]) + |list[b]| == Total(list) + |bucket|
  {
    var n := |list| - 1;
    if b < n {
      assert list[b := bucket][..n] == list[..n][b := bucket];
      TotalUpdate(list[..n], b, bucket);
    } else {
      assert list[b := bucket][..n] == list[..n];
    }
  }

  lemma {:induction false} TotalEmpty(n: nat)
    ensures Total(seq(n, i => [])) == 0
  {
    if n > 0 {
      assert seq<Bucket>(n, i => [])[..n - 1] == seq<Bucket>(n - 1, i => []);
      TotalEmpty(n - 1);
    }
  }

  /** The chain holds handles of its own slot only, with different names. */
  ghost predicate ChainOk(chain: Bucket, b: nat, length: nat)
    requires length > 0
  {
    && (forall i :: 0 <= i < |chain| ==> Slot(chain[i].hash, length) == b)
    && (forall i, j :: 0 <= i < j < |chain| ==> chain[i].Name() != chain[j].Name())
  }

  ghost predicate ChainsOk(list: seq<Bucket>, length: nat)
    requires length > 0
  {
    forall b :: 0 <= b < |list| ==> ChainOk(list[b], b, length)
  }

  /** The table holds the handle. */
  ghost predicate Holds(list: seq<Bucket>, h: Handle) {
    exists b :: 0 <= b < |list| && h in list[b]
  }

  /** The table is the map: its handles are the map's entries. */
  ghost predicate Represents(list: seq<Bucket>, contents: map<(string, nat), nat>) {
    && (forall h :: Holds(list, h) ==> h.Name() in contents && contents[h.Name()] == h.id)
    && (forall n :: n in contents ==> Holds(list, Handle(contents[n], n.0, n.1)))
  }

  /** Where a handle lives is determined by its hash. */
  lemma HeldInSlot(list: seq<Bucket>, h: Handle)
    requires |list| > 0 && ChainsOk(list, |list|)
    ensures Holds(list, h) <==> h in list[Slot(h.hash, |list|)]
  {
    if Holds(list, h) {
      var b :| 0 <= b < |list| && h in list[b];
      assert ChainOk(list[b], b, |list|);
    }
  }

  lemma BucketUpdated(list: seq<Bucket>, b: nat, bucket: Bucket, h: Handle)
    requires b < |list| && ChainsOk(list, |list|) && ChainOk(bucket, b, |list|)
    ensures ChainsOk(list[b := bucket], |list|)
    ensures Holds(list[b := bucket], h) <==> if Slot(h.hash, |list|) == b then h in bucket else Holds(list, h)
  {
    var list2 := list[b := bucket];
    HeldInSlot(list, h);
    forall c | 0 <= c < |list2| ensures ChainOk(list2[c], c, |list|) {
      assert ChainOk(list[c], c, |list|);
    }
    HeldInSlot(list2, h);
  }

  lemma Doubled(n: nat)
    requires PowerOfTwo(n)
    ensures n >= 4 && PowerOfTwo(n * 2)
  {
    assert n * 2 / 2 == n && n * 2 % 2 == 0;
  }

  lemma Smallest()
    ensures PowerOfTwo(4)
  {
  }

  /** The next length: a power of two, at least the number of elements. */
  method LengthFor(elems: nat) returns (length: nat)
    ensures PowerOfTwo(length) && length >= elems
  {
    hide PowerOfTwo;
    Smallest();
    length := 4;
    while length < elems
      invariant PowerOfTwo(length)
      decreases elems - length
    {
      Doubled(length);
      length := length * 2;
    }
  }

  class HandleTable {
    var length: nat
    var elems: nat
    var list: seq<Bucket>
    ghost var contents: map<(string, nat), nat>

    ghost predicate Valid()
      reads this
    {
      && |list| == length && PowerOfTwo(length)
      && ChainsOk(list, length) && Represents(list, contents)
      && elems == Total(list) == |contents|
    }

    constructor ()
      ensures Valid() && contents == map[]
    {
      length, elems, list := 4, 0, [[], [], [], []];
      contents := map[];
      new;
      assert list == seq(4, i => []);
      TotalEmpty(4);
    }

    /** The position of the handle with this name in its chain, or the end of the chain. */
    method FindPointer(key: string, hash: nat) returns (b: nat, i: nat)
      requires Valid()
      ensures b == Slot(hash, length) && i <= |list[b]|
      ensures i < |list[b]| ==> list[b][i].Name() == (key, hash)
      ensures i == |list[b]| ==> forall j :: 0 <= j < |list[b]| ==> list[b][j].Name() != (key, hash)
      ensures i < |list[b]| <==> (key, hash) in contents
      ensures i < |list[b]| ==> list[b][i].id == contents[(key, hash)]
    {
      b, i := Slot(hash, length), 0;
      while i < |list[b]| && (list[b][i].hash != hash || key != list[b][i].key)
        invariant i <= |list[b]|
        invariant forall j :: 0 <= j < i ==> list[b][j].Name() != (key, hash)
      {
        i := i + 1;
      }
      if i < |list[b]| {
        assert Holds(list, list[b][i]);
      } else if (key, hash) in contents {
        HeldInSlot(list, Handle(contents[(key, hash)], key, hash));
      }
    }

    method Lookup(key: string, hash: nat) returns (id: Option<nat>)
      requires Valid()
      ensures id == if (key, hash) in contents then Some(contents[(key, hash)]) else None
    {
      var b, i := FindPointer(key, hash);
      id := if i < |list[b]| then Some(list[b][i].id) else None;
    }

    /** Enters the handle, in place of one with the same name if there is one. */
    method Insert(h: Handle) returns (previous: Option<nat>)
      requires Valid()
      modifies this
      ensures Valid() && contents == old(contents)[h.Name() := h.id]
      ensures previous == if h.Name() in old(contents) then Some(old(contents)[h.Name()]) else None
    {
      var b, i := FindPointer(h.key, h.hash);
      var chain := list[b];
      previous := if i < |chain| then Some(chain[i].id) else None;
      var chain2 := if i < |chain| then chain[i := h] else chain + [h];
      InsertKeeps(list, contents, b, i, h, chain2);
      list := list[b := chain2];
      contents := contents[h.Name() := h.id];
      if previous.None? {
        elems := elems + 1;
        if elems > length {
          Resize();
        }
      }
    }

    method Remove(key: string, hash: nat) returns (id: Option<nat>)
      requires Valid()
      modifies this
      ensures Valid() && contents == old(contents) - {(key, hash)}
      ensures id == if (key, hash) in old(contents) then Some(old(contents)[(key, hash)]) else None
    {
      hide PowerOfTwo, Total, Represents, ChainsOk, Slot;
      var b, i := FindPointer(key, hash);
      var chain := list[b];
      if i < |chain| {
        id := Some(chain[i].id);
        RemoveKeeps(list, contents, b, i, chain[..i] + chain[i + 1..]);
        list := list[b := chain[..i] + chain[i + 1..]];
        contents := contents - {(key, hash)};
        elems := elems - 1;
      } else {
        id := None;
        assert contents - {(key, hash)} == contents;
      }
    }

    /** Doubles the number of buckets until it is at least the number of elements, and moves every
        handle to the front of its new chain. */
    method Resize()
      requires |list| == length && PowerOfTwo(length) && ChainsOk(list, length)
      requires Represents(list, contents) && elems == Total(list) == |contents|
      modifies this`list, this`length
      ensures Valid() && length >= elems
    {
      var newLength := LengthFor(elems);
      var newList: seq<Bucket> := seq(newLength, i => []);
      TotalEmpty(newLength);
      newList := MoveAll(newList, list);
      SameHandles(list, newList, contents);
      list, length := newList, newLength;
    }
  }

  lemma SameHandles(list: seq<Bucket>, list2: seq<Bucket>, contents: map<(string, nat), nat>)
    requires Represents(list, contents) && forall h :: Holds(list2, h) <==> Holds(list, h)
    ensures Represents(list2, contents)
  {
    hide Holds;
  }

  method MoveAll(empty: seq<Bucket>, list: seq<Bucket>) returns (r: seq<Bucket>)
    requires |empty| > 0 && |list| > 0 && ChainsOk(list, |list|)
    requires forall b :: 0 <= b < |empty| ==> empty[b] == []
    requires Total(empty) == 0
    ensures |r| == |empty| && ChainsOk(r, |r|) && Total(r) == Total(list)
    ensures forall h :: Holds(r, h) <==> Holds(list, h)
  {
    r := empty;
    var i := 0;
    assert list[..|list|] == list;
    while i < |list|
      invariant i <= |list| && |r| == |empty| && ChainsOk(r, |r|)
      invariant Total(r) == Total(list[..i])
      invariant forall h :: Holds(r, h) <==> Holds(list[..i], h)
    {
      r := MoveChain(r, list, i);
      i := i + 1;
    }
  }

  /** Moves one chain of the old table. */
  method MoveChain(newList: seq<Bucket>, list: seq<Bucket>, i: nat) returns (r: seq<Bucket>)
    requires i < |list| && |newList| > 0 && ChainsOk(newList, |newList|) && ChainsOk(list, |list|)
    requires Total(newList) == Total(list[..i])
    requires forall h :: Holds(newList, h) <==> Holds(list[..i], h)
    ensures |r| == |newList| && ChainsOk(r, |r|) && Total(r) == Total(list[..i + 1])
    ensures forall h :: Holds(r, h) <==> Holds(list[..i + 1], h)
  {
    var chain := list[i];
    r := newList;
    var j := 0;
    NotYetMoved(list, i);
    while j < |chain|
      invariant j <= |chain| && |r| == |newList| && ChainsOk(r, |r|) && Total(r) == Total(list[..i]) + j
      invariant forall h :: Holds(r, h) <==> Holds(list[..i], h) || h in chain[..j]
    {
      var h := chain[j];
      var b := Slot(h.hash, |r|);
      MoveOne(r, list, i, j, b);
      TotalUpdate(r, b, [h] + r[b]);
      r := r[b := [h] + r[b]];
      j := j + 1;
    }
    assert chain[..j] == chain;
    HoldsPrefix(list, i);
    assert list[..i + 1][..i] == list[..i];
  }

  lemma HoldsPrefix(list: seq<Bucket>, i: nat)
    requires i < |list|
    ensures forall h :: Holds(list[..i + 1], h) <==> Holds(list[..i], h) || h in list[i]
  {
    var p, q := list[..i + 1], list[..i];
    forall h ensures Holds(p, h) <==> Holds(q, h) || h in list[i] {
      if Holds(p, h) {
        var b :| 0 <= b < |p| && h in p[b];
        assert b < i ==> h in q[b];
      }
      if Holds(q, h) {
        var b :| 0 <= b < |q| && h in q[b];
        assert h in p[b];
      }
      if h in list[i] {
        assert h in p[i];
      }
    }
  }

  /** Names of the chain do not occur before it. */
  lemma NotYetMoved(list: seq<Bucket>, i: nat)
    requires i < |list| && ChainsOk(list, |list|)
    ensures forall h, g :: h in list[i] && Holds(list[..i], g) ==> g.Name() != h.Name()
  {
    forall h, g | h in list[i] && Holds(list[..i], g) ensures g.Name() != h.Name() {
      var b :| 0 <= b < |list[..i]| && g in list[..i][b];
      assert ChainOk(list[i], i, |list|) && ChainOk(list[b], b, |list|);
      assert Slot(h.hash, |list|) == i && Slot(g.hash, |list|) == b;
    }
  }

  lemma MoveOne(r: seq<Bucket>, list: seq<Bucket>, i: nat, j: nat, b: nat)
    requires i < |list| && ChainsOk(list, |list|) && j < |list[i]| && |r| > 0 && ChainsOk(r, |r|)
    requires b == Slot(list[i][j].hash, |r|)
    requires forall h :: Holds(r, h) <==> Holds(list[..i], h) || h in list[i][..j]
    requires forall h, g :: h in list[i] && Holds(list[..i], g) ==> g.Name() != h.Name()
    ensures var r2 := r[b := [list[i][j]] + r[b]];
            ChainsOk(r2, |r2|) && forall h :: Holds(r2, h) <==> Holds(list[..i], h) || h in list[i][..j + 1]
  {
    var h := list[i][j];
    var bucket := [h] + r[b];
    assert ChainOk(list[i], i, |list|) && ChainOk(r[b], b, |r|);
    forall g | g in r[b] ensures g.Name() != h.Name() {
      assert Holds(r, g);
      if g in list[i][..j] {
        var k :| 0 <= k < j && list[i][k] == g;
      }
    }
    assert ChainOk(bucket, b, |r|);
    assert list[i][..j + 1] == list[i][..j] + [h];
    forall g ensures Holds(r[b := bucket], g) <==> Holds(list[..i], g) || g in list[i][..j + 1] {
      BucketUpdated(r, b, bucket, g);
      HeldInSlot(r, g);
    }
  }

  lemma InsertKeeps(list: seq<Bucket>, contents: map<(string, nat), nat>, b: nat, i: nat, h: Handle, chain2: Bucket)
    requires |list| > 0 && ChainsOk(list, |list|) && Represents(list, contents) && Total(list) == |contents|
    requires b == Slot(h.hash, |list|) && i <= |list[b]|
    requires i < |list[b]| ==> list[b][i].Name() == h.Name()
    requires i == |list[b]| ==> forall j :: 0 <= j < |list[b]| ==> list[b][j].Name() != h.Name()
    requires i < |list[b]| <==> h.Name() in contents
    requires chain2 == if i < |list[b]| then list[b][i := h] else list[b] + [h]
    ensures ChainsOk(list[b := chain2], |list|) && Represents(list[b := chain2], contents[h.Name() := h.id])
    ensures Total(list[b := chain2]) == |contents[h.Name() := h.id]| ==
            |contents| + (if h.Name() in contents then 0 else 1)
  {
    InsertedChain(list[b], b, |list|, i, h, chain2);
    TotalUpdate(list, b, chain2);
    InsertedHolds(list, b, h, chain2);
    EnteredRepresents(list, list[b := chain2], contents, h);
    hide *;
    assert contents[h.Name() := h.id].Keys == contents.Keys + {h.Name()};
  }

  lemma InsertedHolds(list: seq<Bucket>, b: nat, h: Handle, chain2: Bucket)
    requires |list| > 0 && ChainsOk(list, |list|) && b == Slot(h.hash, |list|) && ChainOk(chain2, b, |list|)
    requires forall g :: g in chain2 <==> g == h || (g in list[b] && g.Name() != h.Name())
    ensures ChainsOk(list[b := chain2], |list|)
    ensures forall g :: Holds(list[b := chain2], g) <==> g == h || (Holds(list, g) && g.Name() != h.Name())
  {
    forall g ensures Holds(list[b := chain2], g) <==> g == h || (Holds(list, g) && g.Name() != h.Name()) {
      BucketUpdated(list, b, chain2, g);
      HeldInSlot(list, g);
      hide Holds, ChainsOk, ChainOk;
    }
    BucketUpdated(list, b, chain2, h);
  }

  lemma EnteredRepresents(list: seq<Bucket>, list2: seq<Bucket>, contents: map<(string, nat), nat>, h: Handle)
    requires Represents(list, contents)
    requires forall g :: Holds(list2, g) <==> g == h || (Holds(list, g) && g.Name() != h.Name())
    ensures Represents(list2, contents[h.Name() := h.id])
  {
    hide Holds;
    var contents2 := contents[h.Name() := h.id];
    forall n | n in contents2 ensures Holds(list2, Handle(contents2[n], n.0, n.1)) {
      if n == h.Name() {
        assert Handle(contents2[n], n.0, n.1) == h;
      } else {
        assert Holds(list, Handle(contents[n], n.0, n.1));
      }
    }
  }

  lemma InsertedChain(chain: Bucket, b: nat, length: nat, i: nat, h: Handle, chain2: Bucket)
    requires length > 0 && ChainOk(chain, b, length) && b == Slot(h.hash, length) && i <= |chain|
    requires i < |chain| ==> chain[i].Name() == h.Name()
    requires i == |chain| ==> forall j :: 0 <= j < |chain| ==> chain[j].Name() != h.Name()
    requires chain2 == if i < |chain| then chain[i := h] else chain + [h]
    ensures ChainOk(chain2, b, length)
    ensures forall g :: g in chain2 <==> g == h || (g in chain && g.Name() != h.Name())
  {
    forall g ensures g in chain2 <==> g == h || (g in chain && g.Name() != h.Name()) {
      if g in chain && g.Name() != h.Name() {
        var j :| 0 <= j < |chain| && chain[j] == g;
        assert chain2[j] == g;
      }
      if g == h {
        assert chain2[i] == h;
      }
    }
  }

  lemma RemoveKeeps(list: seq<Bucket>, contents: map<(string, nat), nat>, b: nat, i: nat, chain2: Bucket)
    requires |list| > 0 && ChainsOk(list, |list|) && Represents(list, contents) && Total(list) == |contents|
    requires b < |list| && i < |list[b]| && chain2 == list[b][..i] + list[b][i + 1..]
    ensures list[b][i].Name() in contents
    ensures ChainsOk(list[b := chain2], |list|) && Represents(list[b := chain2], contents - {list[b][i].Name()})
    ensures Total(list[b := chain2]) == |contents - {list[b][i].Name()}| == |contents| - 1
  {
    var h := list[b][i];
    assert ChainOk(list[b], b, |list|);
    assert Holds(list, h);
    RemovedChain(list[b], b, |list|, i, chain2);
    TotalUpdate(list, b, chain2);
    RemovedHolds(list, b, h, chain2);
    RemovedRepresents(list, list[b := chain2], contents, h);
    assert h.Name() in contents;
    hide *;
    assert (contents - {h.Name()}).Keys == contents.Keys - {h.Name()};
  }

  lemma RemovedChain(chain: Bucket, b: nat, length: nat, i: nat, chain2: Bucket)
    requires length > 0 && ChainOk(chain, b, length) && i < |chain| && chain2 == chain[..i] + chain[i + 1..]
    ensures ChainOk(chain2, b, length)
    ensures forall g :: g in chain2 <==> g in chain && g.Name() != chain[i].Name()
  {
    forall g ensures g in chain2 <==> g in chain && g.Name() != chain[i].Name() {
      if g in chain && g.Name() != chain[i].Name() {
        var j :| 0 <= j < |chain| && chain[j] == g;
        assert j < i ==> chain2[j] == g;
        assert j > i ==> chain2[j - 1] == g;
      }
    }
  }

  lemma RemovedHolds(list: seq<Bucket>, b: nat, h: Handle, chain2: Bucket)
    requires |list| > 0 && ChainsOk(list, |list|) && b < |list|
             && b == Slot(h.hash, |list|) && ChainOk(chain2, b, |list|)
    requires forall g :: g in chain2 <==> g in list[b] && g.Name() != h.Name()
    ensures ChainsOk(list[b := chain2], |list|)
    ensures forall g :: Holds(list[b := chain2], g) <==> Holds(list, g) && g.Name() != h.Name()
  {
    forall g ensures Holds(list[b := chain2], g) <==> Holds(list, g) && g.Name() != h.Name() {
      BucketUpdated(list, b, chain2, g);
      HeldInSlot(list, g);
      hide Holds, ChainsOk, ChainOk;
    }
    BucketUpdated(list, b, chain2, h);
  }

  lemma RemovedRepresents(list: seq<Bucket>, list2: seq<Bucket>, contents: map<(string, nat), nat>, h: Handle)
    requires Represents(list, contents)
    requires forall g :: Holds(list2, g) <==> Holds(list, g) && g.Name() != h.Name()
    ensures Represents(list2, contents - {h.Name()})
  {
    hide Holds;
    forall n | n in contents && n != h.Name() ensures Holds(list2, Handle(contents[n], n.0, n.1)) {
      assert Holds(list, Handle(contents[n], n.0, n.1));
    }
  }
}
