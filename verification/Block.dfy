/** Blocks: prefix-compressed entries with restart points, and their builder.  A key is stored as the length
    it shares with the key before it and the rest; at a restart point it is stored in full. */
module Blocks {
  import opened Keys
  import opened Bytes
  import opened Coding

  datatype KV = KV(key: seq<Byte>, value: seq<Byte>)

  /** An entry as stored: how many bytes its key shares with the one before, and the rest of the key. */
  datatype Item = Item(shared: nat, tail: seq<Byte>, value: seq<Byte>)

  /** The key/value list, the entries that store it, and which entries are restart points. */
  datatype Layout = Layout(kvs: seq<KV>, items: seq<Item>, restarts: seq<nat>)

  ghost function EntryBytes(it: Item): seq<Byte> {
    Varint(it.shared) + (Varint(|it.tail|) + (Varint(|it.value|) + (it.tail + it.value)))
  }

  ghost function Data(items: seq<Item>): seq<Byte> {
    if items == [] then [] else Data(items[..|items| - 1]) + EntryBytes(items[|items| - 1])
  }

  /** Where entry `i` starts. */
  ghost function Off(items: seq<Item>, i: nat): nat
    requires i <= |items|
  {
    |Data(items[..i])|
  }

  /** The entry stores this pair, given the key before it. */
  ghost predicate Stores(it: Item, before: seq<Byte>, kv: KV) {
    it.shared <= |before| && kv == KV(before[..it.shared] + it.tail, it.value)
  }

  ghost function KeyBefore(kvs: seq<KV>, i: nat): seq<Byte>
    requires i <= |kvs|
  {
    if i == 0 then [] else kvs[i - 1].key
  }

  ghost predicate ItemsOk(l: Layout) {
    |l.items| == |l.kvs| && forall i :: 0 <= i < |l.kvs| ==> Stores(l.items[i], KeyBefore(l.kvs, i), l.kvs[i])
  }

  /** The first restart point is entry 0; a restart point shares nothing. */
  ghost predicate RestartsOk(l: Layout) {
    && l.restarts != [] && l.restarts[0] == 0
    && (forall j, k :: 0 <= j < k < |l.restarts| ==> l.restarts[j] < l.restarts[k])
    && (forall j :: 0 <= j < |l.restarts| ==>
          l.restarts[j] <= |l.items| && (l.restarts[j] < |l.items| ==> l.items[l.restarts[j]].shared == 0))
  }

  ghost predicate LayoutOk(l: Layout) {
    ItemsOk(l) && RestartsOk(l) && (l.items != [] ==> forall j :: 0 <= j < |l.restarts| ==> l.restarts[j] < |l.items|)
  }

  ghost function Point(items: seq<Item>, at: nat): nat {
    if at <= |items| then Off(items, at) else 0
  }

  ghost predicate PointsAre(l: Layout, points: seq<nat>) {
    |points| == |l.restarts| && forall j :: 0 <= j < |points| ==> points[j] == Point(l.items, l.restarts[j])
  }

  function Words(ws: seq<nat>): (r: seq<Byte>)
    ensures |r| == 4 * |ws|
  {
    if ws == [] then [] else Words(ws[..|ws| - 1]) + Fixed32(ws[|ws| - 1] % 0x1_0000_0000)
  }

  /** The bytes of a finished block. */
  ghost predicate Encodes(l: Layout, block: seq<Byte>) {
    LayoutOk(l) && exists points: seq<nat> :: PointsAre(l, points) && block == Finished(l, points)
  }

  /** Offsets in a block fit in 32 bits. */
  ghost predicate BlockIs(l: Layout, block: seq<Byte>) {
    Encodes(l, block) && |block| < 0x1_0000_0000
  }

  ghost function Finished(l: Layout, points: seq<nat>): seq<Byte> {
    Data(l.items) + Words(points) + Fixed32(|points| % 0x1_0000_0000)
  }

  // ---------------------------------------------------------------- growing a layout

  ghost function Grown(l: Layout, kv: KV, it: Item, restart: bool): Layout {
    Layout(l.kvs + [kv], l.items + [it], if restart then l.restarts + [|l.items|] else l.restarts)
  }

  lemma GrownItems(l: Layout, kv: KV, it: Item, restart: bool)
    requires ItemsOk(l) && Stores(it, KeyBefore(l.kvs, |l.kvs|), kv)
    ensures ItemsOk(Grown(l, kv, it, restart))
  {
    hide Stores;
    var g := Grown(l, kv, it, restart);
    forall i | 0 <= i < |g.kvs| ensures Stores(g.items[i], KeyBefore(g.kvs, i), g.kvs[i]) {
      assert KeyBefore(g.kvs, i) == KeyBefore(l.kvs, i);
      assert i < |l.kvs| ==> g.items[i] == l.items[i] && g.kvs[i] == l.kvs[i];
    }
  }

  lemma GrownRestarts(l: Layout, kv: KV, it: Item, restart: bool)
    requires LayoutOk(l)
    requires restart ==> it.shared == 0 && l.items != []
    requires l.items == [] ==> it.shared == 0
    ensures RestartsOk(Grown(l, kv, it, restart))
    ensures var g := Grown(l, kv, it, restart); forall j :: 0 <= j < |g.restarts| ==> g.restarts[j] < |g.items|
  {
    hide ItemsOk;
  }

  lemma GrownData(items: seq<Item>, it: Item)
    ensures Data(items + [it]) == Data(items) + EntryBytes(it)
    ensures forall i :: 0 <= i <= |items| ==> Off(items + [it], i) == Off(items, i)
  {
    assert (items + [it])[..|items|] == items;
    assert forall i :: 0 <= i <= |items| ==> (items + [it])[..i] == items[..i];
  }

  lemma GrownPoints(l: Layout, kv: KV, it: Item, restart: bool, points: seq<nat>)
    requires PointsAre(l, points) && RestartsOk(l)
    ensures PointsAre(Grown(l, kv, it, restart), if restart then points + [|Data(l.items)|] else points)
  {
    GrownData(l.items, it);
    assert l.items[..|l.items|] == l.items;
    hide Data, EntryBytes;
  }

  class BlockBuilder {
    const interval: nat
    var buffer: seq<Byte>
    var restarts: seq<nat>
    var counter: nat
    var finished: bool
    var lastKey: seq<Byte>
    ghost var l: Layout

    ghost predicate Valid()
      reads this
    {
      && interval >= 1 && LayoutOk(l) && PointsAre(l, restarts)
      && buffer == (if finished then Finished(l, restarts) else Data(l.items))
      && lastKey == KeyBefore(l.kvs, |l.kvs|)
      && counter <= interval && (l.kvs == [] ==> counter == 0)
    }

    constructor (interval: nat)
      requires interval >= 1
      ensures Valid() && !finished && l.kvs == [] && this.interval == interval
    {
      this.interval := interval;
      buffer, restarts, counter, finished, lastKey := [], [0], 0, false, [];
      l := Layout([], [], [0]);
    }

    method Reset()
      requires Valid()
      modifies this
      ensures Valid() && !finished && l.kvs == []
    {
      buffer := [];
      restarts := [0];
      counter := 0;
      finished := false;
      lastKey := [];
      l := Layout([], [], [0]);
    }

    /** No bytes means no entries. */
    lemma EmptyIs()
      requires Valid() && !finished
      ensures buffer == [] <==> l.kvs == []
    {
      hide RestartsOk, Stores, PointsAre;
      assert |l.items| == |l.kvs|;
    }

    /** The size of the block if it were finished now. */
    method CurrentSizeEstimate() returns (r: nat)
      requires Valid() && !finished
      ensures r == |Finished(l, restarts)|
    {
      r := |buffer| + 4 * |restarts| + 4;
    }

    /** How many bytes two keys have in common at the front. */
    static method SharedPrefix(a: seq<Byte>, b: seq<Byte>) returns (shared: nat)
      ensures shared <= |a| && shared <= |b| && a[..shared] == b[..shared]
      ensures shared < |a| && shared < |b| ==> a[shared] != b[shared]
    {
      shared := 0;
      var minLength := if |a| < |b| then |a| else |b|;
      while shared < minLength && a[shared] == b[shared]
        invariant shared <= minLength && a[..shared] == b[..shared]
      {
        assert a[..shared + 1] == a[..shared] + [a[shared]] && b[..shared + 1] == b[..shared] + [b[shared]];
        shared := shared + 1;
      }
    }

    /** Appends an entry, compressed against the one before unless a restart is due. */
    method Add(key: seq<Byte>, value: seq<Byte>)
      requires Valid() && !finished && |key| < 0x1_0000_0000 && |value| < 0x1_0000_0000
      modifies this
      ensures Valid() && !finished && l.kvs == old(l.kvs) + [KV(key, value)]
    {
      hide LayoutOk, PointsAre, Data, EntryBytes, Varint;
      var shared: nat := 0;
      var restart := false;
      if counter < interval {
        shared := SharedPrefix(lastKey, key);
      } else {
        restarts := restarts + [|buffer|];
        counter := 0;
        restart := true;
      }
      var nonShared := |key| - shared;
      ghost var was, kv, it := l, KV(key, value), Item(shared, key[shared..], value);
      buffer := PutVarint32(buffer, shared);
      buffer := PutVarint32(buffer, nonShared);
      buffer := PutVarint32(buffer, |value|);
      buffer := buffer + key[shared..];
      buffer := buffer + value;
      EntryWritten(Data(l.items), it, buffer);
      lastKey := lastKey[..shared] + key[shared..];
      assert lastKey == key;
      counter := counter + 1;
      l := Grown(l, kv, it, restart);
      Added(was, kv, it, restart, old(restarts));
    }

    /** Appends the restart array and its length. */
    method Finish() returns (block: seq<Byte>)
      requires Valid() && !finished
      modifies this`buffer, this`finished
      ensures Valid() && finished && Encodes(l, block)
    {
      hide LayoutOk, PointsAre, Data;
      var i := 0;
      ghost var data := buffer;
      while i < |restarts|
        invariant i <= |restarts| && buffer == data + Words(restarts[..i])
      {
        assert restarts[..i + 1][..i] == restarts[..i];
        Join(data, Words(restarts[..i]), Fixed32(restarts[i] % 0x1_0000_0000));
        buffer := buffer + Fixed32(restarts[i] % 0x1_0000_0000);
        i := i + 1;
      }
      assert restarts[..i] == restarts;
      buffer := buffer + Fixed32(|restarts| % 0x1_0000_0000);
      finished := true;
      block := buffer;
    }
  }

  lemma Join(a: seq<Byte>, b: seq<Byte>, c: seq<Byte>)
    ensures (a + b) + c == a + (b + c)
  {
  }

  lemma EntryWritten(before: seq<Byte>, it: Item, after: seq<Byte>)
    requires after == before + Varint(it.shared) + Varint(|it.tail|) + Varint(|it.value|) + it.tail + it.value
    ensures after == before + EntryBytes(it)
  {
    var a, b, c, d, e := Varint(it.shared), Varint(|it.tail|), Varint(|it.value|), it.tail, it.value;
    hide Varint;
    assert before + a + b + c + d + e == before + (a + (b + (c + (d + e))));
  }

  /** What adding an entry does to the layout. */
  lemma Added(l: Layout, kv: KV, it: Item, restart: bool, points: seq<nat>)
    requires LayoutOk(l) && PointsAre(l, points) && Stores(it, KeyBefore(l.kvs, |l.kvs|), kv)
    requires restart ==> it.shared == 0 && l.kvs != []
    ensures var g := Grown(l, kv, it, restart);
            && LayoutOk(g) && Data(g.items) == Data(l.items) + EntryBytes(it)
            && PointsAre(g, if restart then points + [|Data(l.items)|] else points)
  {
    GrownItems(l, kv, it, restart);
    GrownRestarts(l, kv, it, restart);
    GrownData(l.items, it);
    GrownPoints(l, kv, it, restart, points);
    hide Data, EntryBytes, PointsAre, RestartsOk, ItemsOk;
  }
}
