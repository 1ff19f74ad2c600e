/** Reading a block: the iterator over its entries.  On the bytes of a block that was built, it is an index
    into the list it was built from.  On other bytes it stays inside the block unless the lengths in an entry's
    header add up to 2^32 or more: the bound is checked on their 32-bit sum, which then wraps. */
module BlockIters {
  import opened Keys
  import opened Bytes
  import opened Coding
  import opened Blocks

  // ---------------------------------------------------------------- one entry

  /** The three lengths of an entry, and how many bytes they took. */
  datatype Header = Header(shared: nat, nonShared: nat, valueLength: nat, used: nat)

  const TWO32: nat := 0x1_0000_0000

  function Low32(v: nat): nat {
    v % TWO32
  }

  /** The final test of `n` bytes: it compares 32-bit numbers, and the sum of the two lengths is one. */
  function Accepted(n: nat, h: Header): (r: Option<Header>)
    requires h.used <= n
  {
    if Low32(n - h.used) < Low32(h.nonShared + h.valueLength) then None else Some(h)
  }

  /** Three varints, cut to 32 bits. */
  function Lengths(s: seq<Byte>): (r: Option<Header>)
    ensures r.Some? ==> 0 < r.value.used <= |s| && r.value.nonShared < TWO32 && r.value.valueLength < TWO32
  {
    match ReadVarint(s, 5)
    case None => None
    case Some(a) =>
      match ReadVarint(s[a.used..], 5)
      case None => None
      case Some(b) =>
        match ReadVarint(s[a.used + b.used..], 5)
        case None => None
        case Some(c) =>
          Some(Header(Low32(a.value), Low32(b.value), Low32(c.value), a.used + b.used + c.used))
  }

  function ReadHeader(s: seq<Byte>): (r: Option<Header>)
    ensures r.Some? ==> 0 < r.value.used <= |s| && r.value.nonShared < TWO32 && r.value.valueLength < TWO32
  {
    if |s| < 3 || Lengths(s).None? then None else Accepted(|s|, Lengths(s).value)
  }

  /** The lengths do not fit in 32 bits together. */
  predicate Wraps(h: Header) {
    h.nonShared + h.valueLength >= TWO32
  }

  /** No offset of the entries holds an accepted header that wraps. */
  ghost predicate NoneWraps(data: seq<Byte>, restarts: nat)
    requires restarts <= |data|
  {
    forall o: nat | o <= restarts :: var h := ReadHeader(data[o..restarts]); h.Some? ==> !Wraps(h.value)
  }

  /** What an accepted header promises lies inside the bytes exactly when its lengths do not wrap. */
  lemma InsideIffNoWrap(s: seq<Byte>)
    requires |s| < TWO32 && ReadHeader(s).Some?
    ensures var h := ReadHeader(s).value; h.used + h.nonShared + h.valueLength <= |s| <==> !Wraps(h)
  {
    hide ReadVarint;
  }

  /** Nothing shared, a tail of 2^32 - 1 bytes and a value of one. */
  const WRAPPED: seq<Byte> := [0, 0xff, 0xff, 0xff, 0xff, 0x0f, 1]

  /** An entry that is accepted although it ends far outside the bytes. */
  lemma WrappedIsAccepted(rest: seq<Byte>)
    requires |rest| < TWO32 - 7
    ensures ReadHeader(WRAPPED + rest) == Some(Header(0, TWO32 - 1, 1, 7))
    ensures 7 + (TWO32 - 1) + 1 > |WRAPPED + rest|
  {
    var s := WRAPPED + rest;
    assert Varint(0) == [0] && Varint(1) == [1];
    MaxIsVarint();
    hide Varint, ReadVarint;
    var r1 := WRAPPED[1..] + rest;
    var r6 := WRAPPED[6..] + rest;
    assert s == Varint(0) + r1;
    VarintRoundTrip(0, r1, 5);
    assert s[1..] == Varint(TWO32 - 1) + r6;
    VarintRoundTrip(TWO32 - 1, r6, 5);
    assert s[6..] == Varint(1) + rest;
    VarintRoundTrip(1, rest, 5);
  }

  lemma MaxIsVarint()
    ensures Varint(TWO32 - 1) == [0xff, 0xff, 0xff, 0xff, 0x0f]
  {
    VarintStep(TWO32 - 1);
    VarintStep(0x1ff_ffff);
    VarintStep(0x3_ffff);
    VarintStep(0x7ff);
  }

  /** Bytes below 128 are their own varints. */
  lemma OneByteEach(s: seq<Byte>)
    requires |s| >= 3 && s[0] < 128 && s[1] < 128 && s[2] < 128
    ensures Lengths(s) == Some(Header(s[0], s[1], s[2], 3))
  {
    assert ReadVarint(s, 5) == Some(Number(s[0], 1));
    assert s[1..][0] == s[1] && ReadVarint(s[1..], 5) == Some(Number(s[1], 1));
    assert s[2..][0] == s[2] && ReadVarint(s[2..], 5) == Some(Number(s[2], 1));
  }

  method ReadLengths(s: seq<Byte>) returns (r: Option<Header>)
    ensures r == Lengths(s)
  {
    hide ReadVarint;
    var a := GetVarint(s, 5, TWO32);
    if a.None? { return None; }
    var b := GetVarint(s[a.value.used..], 5, TWO32);
    if b.None? { return None; }
    var c := GetVarint(s[a.value.used + b.value.used..], 5, TWO32);
    if c.None? { return None; }
    var used := a.value.used + b.value.used + c.value.used;
    r := Some(Header(a.value.value, b.value.value, c.value.value, used));
  }

  /** DecodeEntry: three one-byte lengths are read directly, others as varints. */
  method DecodeEntry(s: seq<Byte>) returns (r: Option<Header>)
    ensures r == ReadHeader(s)
  {
    hide Lengths, Accepted;
    if |s| < 3 {
      return None;
    }
    var h: Option<Header>;
    if s[0] < 128 && s[1] < 128 && s[2] < 128 {
      OneByteEach(s);
      h := Some(Header(s[0], s[1], s[2], 3));
    } else {
      h := ReadLengths(s);
    }
    if h.None? {
      return None;
    }
    r := Accepted(|s|, h.value);
  }

  lemma Regroup(a: seq<Byte>, b: seq<Byte>, c: seq<Byte>, t: seq<Byte>, v: seq<Byte>, rest: seq<Byte>)
    ensures var s := (a + (b + (c + (t + v)))) + rest;
            && s == a + (b + (c + (t + v + rest)))
            && s[|a|..] == b + (c + (t + v + rest)) && s[|a| + |b|..] == c + (t + v + rest)
            && var n := |a| + |b| + |c|; s[n..n + |t|] == t && s[n + |t|..n + |t| + |v|] == v
  {
    var s := (a + (b + (c + (t + v)))) + rest;
    assert s == a + (b + (c + (t + v + rest)));
  }

  /** Three numbers in a row and room for the strings make a header. */
  lemma HeaderFrom(s: seq<Byte>, a: Number, b: Number, c: Number)
    requires 0 < a.used && 0 < b.used && 0 < c.used && a.used + b.used + c.used + b.value + c.value <= |s| < TWO32
    requires a.value < 0x1_0000_0000 && b.value < 0x1_0000_0000 && c.value < 0x1_0000_0000
    requires ReadVarint(s, 5) == Some(a) && ReadVarint(s[a.used..], 5) == Some(b)
             && ReadVarint(s[a.used + b.used..], 5) == Some(c)
    ensures ReadHeader(s) == Some(Header(a.value, b.value, c.value, a.used + b.used + c.used))
  {
    hide ReadVarint, Low32;
    LowSame(a.value);
    LowSame(b.value);
    LowSame(c.value);
    LowSame(b.value + c.value);
    LowSame(|s| - (a.used + b.used + c.used));
  }

  lemma LowSame(v: nat)
    requires v < 0x1_0000_0000
    ensures Low32(v) == v
  {
  }

  lemma HeaderRoundTrip(it: Item, rest: seq<Byte>)
    requires it.shared < TWO32 && |EntryBytes(it) + rest| < TWO32
    ensures var used := |EntryBytes(it)| - |it.tail| - |it.value|; var s := EntryBytes(it) + rest;
            && used >= 3 && ReadHeader(s) == Some(Header(it.shared, |it.tail|, |it.value|, used))
            && s[used..used + |it.tail|] == it.tail && s[used + |it.tail|..|EntryBytes(it)|] == it.value
  {
    hide Varint, ReadVarint, ReadHeader;
    assert |it.tail| < TWO32 && |it.value| < TWO32;
    var a, b, c := Varint(it.shared), Varint(|it.tail|), Varint(|it.value|);
    Varint32Size(it.shared);
    Varint32Size(|it.tail|);
    Varint32Size(|it.value|);
    Regroup(a, b, c, it.tail, it.value, rest);
    VarintRoundTrip(it.shared, b + (c + (it.tail + it.value + rest)), 5);
    VarintRoundTrip(|it.tail|, c + (it.tail + it.value + rest), 5);
    VarintRoundTrip(|it.value|, it.tail + it.value + rest, 5);
    HeaderFrom(EntryBytes(it) + rest, Number(it.shared, |a|), Number(|it.tail|, |b|), Number(|it.value|, |c|));
  }

  // ---------------------------------------------------------------- where things are in a block

  lemma {:induction false} DataSplit(items: seq<Item>, p: nat) returns (rest: seq<Byte>)
    requires p < |items|
    ensures Data(items) == Data(items[..p]) + (EntryBytes(items[p]) + rest)
    decreases |items|
  {
    hide EntryBytes;
    var n := |items| - 1;
    if p == n {
      rest := [];
      assert EntryBytes(items[p]) + [] == EntryBytes(items[p]);
    } else {
      var r := DataSplit(items[..n], p);
      assert items[..n][..p] == items[..p];
      rest := r + EntryBytes(items[n]);
      Group(Data(items[..p]), EntryBytes(items[p]), r, EntryBytes(items[n]));
    }
  }

  lemma Group(a: seq<Byte>, b: seq<Byte>, c: seq<Byte>, d: seq<Byte>)
    ensures a + (b + c) + d == a + (b + (c + d))
  {
  }

  lemma OffStep(items: seq<Item>, p: nat)
    requires p < |items|
    ensures Off(items, p + 1) == Off(items, p) + |EntryBytes(items[p])| && |EntryBytes(items[p])| > 0
  {
    assert items[..p + 1][..p] == items[..p];
  }

  lemma {:induction false} OffGrows(items: seq<Item>, a: nat, b: nat)
    requires a < b <= |items|
    ensures Off(items, a) < Off(items, b)
    decreases b
  {
    OffStep(items, b - 1);
    hide Data, EntryBytes;
    if a < b - 1 {
      OffGrows(items, a, b - 1);
    }
  }

  /** Offsets are in the order of the entries. */
  lemma OffOrder(items: seq<Item>, a: nat, b: nat)
    requires a <= |items| && b <= |items|
    ensures Off(items, a) < Off(items, b) <==> a < b
  {
    hide Data;
    if a < b {
      OffGrows(items, a, b);
    } else if b < a {
      OffGrows(items, b, a);
    }
  }

  lemma BlockHas(l: Layout, block: seq<Byte>)
    requires BlockIs(l, block)
    ensures LayoutOk(l) && ItemsOk(l) && |l.items| == |l.kvs| && |block| < 0x1_0000_0000
  {
    hide Stores, Data, RestartsOk, PointsAre;
  }

  lemma DataCut(l: Layout, block: seq<Byte>)
    requires BlockIs(l, block)
    ensures |Data(l.items)| + 4 * |l.restarts| + 4 == |block| && block[..|Data(l.items)|] == Data(l.items)
  {
    var points: seq<nat> :| PointsAre(l, points) && block == Finished(l, points);
    hide Data, BlockIs, LayoutOk;
  }

  /** The bytes from entry `p` on. */
  lemma EntryHere(l: Layout, block: seq<Byte>, p: nat) returns (rest: seq<Byte>)
    requires BlockIs(l, block) && p < |l.items|
    ensures var o, d := Off(l.items, p), |Data(l.items)|;
            o < d <= |block| && block[o..d] == EntryBytes(l.items[p]) + rest
                && Off(l.items, p + 1) == o + |EntryBytes(l.items[p])|
  {
    DataCut(l, block);
    rest := DataSplit(l.items, p);
    OffStep(l.items, p);
    hide Data, EntryBytes, BlockIs;
    var o, d := Off(l.items, p), |Data(l.items)|;
    assert block[o..d] == block[..d][o..];
  }

  /** Reading entry `p` of a block. */
  lemma EntryRead(l: Layout, block: seq<Byte>, p: nat)
    requires BlockIs(l, block) && p < |l.items|
    ensures var o, d, it := Off(l.items, p), |Data(l.items)|, l.items[p];
            && o < d <= |block|
            && var h := ReadHeader(block[o..d]);
            && h.Some? && h.value.shared == it.shared
               && h.value.nonShared == |it.tail| && h.value.valueLength == |it.value|
            && o + h.value.used + |it.tail| + |it.value| == Off(l.items, p + 1) <= d
            && block[o + h.value.used..o + h.value.used + |it.tail|] == it.tail
            && block[o + h.value.used + |it.tail|..o + h.value.used + |it.tail| + |it.value|] == it.value
  {
    hide Data, EntryBytes, ReadHeader, BlockIs;
    var rest := EntryHere(l, block, p);
    BlockHas(l, block);
    ItemSmall(l, block, p);
    var o, d, it := Off(l.items, p), |Data(l.items)|, l.items[p];
    HeaderRoundTrip(it, rest);
    var used := |EntryBytes(it)| - |it.tail| - |it.value|;
    CutOfCut(block, o, d, used, used + |it.tail|);
    CutOfCut(block, o, d, used + |it.tail|, used + |it.tail| + |it.value|);
  }

  lemma CutOfCut(s: seq<Byte>, o: nat, d: nat, i: nat, j: nat)
    requires o <= d <= |s| && i <= j <= d - o
    ensures s[o..d][i..j] == s[o + i..o + j]
  {
    assert forall k :: 0 <= k < j - i ==> s[o..d][i..j][k] == s[o + i..o + j][k];
  }

  /** A key is no longer than what stores it and what was stored before. */
  lemma {:induction false} KeySmall(l: Layout, i: nat)
    requires ItemsOk(l) && i <= |l.items|
    ensures |KeyBefore(l.kvs, i)| <= Off(l.items, i)
  {
    hide Data, EntryBytes, ItemsOk;
    if i > 0 {
      KeySmall(l, i - 1);
      OffStep(l.items, i - 1);
      StoredAt(l, i - 1);
      EntryHolds(l.items[i - 1]);
    }
  }

  lemma StoredAt(l: Layout, i: nat)
    requires ItemsOk(l) && i < |l.items|
    ensures Stores(l.items[i], KeyBefore(l.kvs, i), l.kvs[i])
  {
  }

  lemma EntryHolds(it: Item)
    ensures |EntryBytes(it)| >= 3 + |it.tail| + |it.value|
  {
  }

  lemma ItemSmall(l: Layout, block: seq<Byte>, p: nat)
    requires BlockIs(l, block) && p < |l.items|
    ensures var it := l.items[p]; it.shared < 0x1_0000_0000 && |it.tail| < 0x1_0000_0000 && |it.value| < 0x1_0000_0000
  {
    hide Data, EntryBytes, ItemsOk, BlockIs, LayoutOk;
    DataCut(l, block);
    BlockHas(l, block);
    KeySmall(l, p);
    OffStep(l.items, p);
    EntryHolds(l.items[p]);
    OffBelow(l.items, p + 1);
    StoredAt(l, p);
  }

  lemma OffBelow(items: seq<Item>, p: nat)
    requires p <= |items|
    ensures Off(items, p) <= |Data(items)|
  {
    assert items[..|items|] == items;
    OffOrder(items, |items|, p);
  }

  lemma {:induction false} WordAt(ws: seq<nat>, i: nat)
    requires i < |ws|
    ensures Words(ws)[4 * i..4 * i + 4] == Fixed32(ws[i] % 0x1_0000_0000)
  {
    var n := |ws| - 1;
    if i < n {
      WordAt(ws[..n], i);
      assert Words(ws)[4 * i..4 * i + 4] == Words(ws[..n])[4 * i..4 * i + 4];
    }
  }

  lemma DecodeCut(s: seq<Byte>, at: nat, w: Word)
    requires at + 4 <= |s| && s[at..at + 4] == Fixed32(w)
    ensures DecodeFixed32(s[at..]) == w
  {
    Fixed32RoundTrip(w);
    hide DecodeFixed32, Fixed32;
    DecodeLocal(s[at..], s[at..at + 4]);
  }

  lemma DecodeLocal(s: seq<Byte>, t: seq<Byte>)
    requires |s| >= 4 && |t| >= 4 && s[..4] == t[..4]
    ensures DecodeFixed32(s) == DecodeFixed32(t)
  {
    assert s[0] == s[..4][0] && s[1] == s[..4][1] && s[2] == s[..4][2] && s[3] == s[..4][3];
    assert t[0] == t[..4][0] && t[1] == t[..4][1] && t[2] == t[..4][2] && t[3] == t[..4][3];
  }

  lemma LengthCut(d: seq<Byte>, w: seq<Byte>, n: Word)
    ensures DecodeFixed32((d + w + Fixed32(n))[|d| + |w|..]) == n
  {
    hide DecodeFixed32, Fixed32;
    var block := d + w + Fixed32(n);
    assert block[|d| + |w|..|d| + |w| + 4] == Fixed32(n);
    DecodeCut(block, |d| + |w|, n);
  }

  lemma PointCut(d: seq<Byte>, w: seq<Byte>, rest: seq<Byte>, at: nat, n: Word)
    requires at + 4 <= |w| && w[at..at + 4] == Fixed32(n)
    ensures DecodeFixed32((d + w + rest)[|d| + at..]) == n
  {
    hide DecodeFixed32, Fixed32;
    Middle(d, w, rest, at);
    DecodeCut(d + w + rest, |d| + at, n);
  }

  lemma Middle(d: seq<Byte>, w: seq<Byte>, rest: seq<Byte>, at: nat)
    requires at + 4 <= |w|
    ensures (d + w + rest)[|d| + at..|d| + at + 4] == w[at..at + 4]
  {
  }

  /** The trailer of a block: the restart array after the entries, and its length. */
  lemma TrailerRead(l: Layout, block: seq<Byte>)
    requires BlockIs(l, block)
    ensures |Data(l.items)| + 4 * |l.restarts| + 4 == |block| && DecodeFixed32(block[|block| - 4..]) == |l.restarts|
    ensures forall j :: 0 <= j < |l.restarts| ==>
              l.restarts[j] <= |l.items|
                  && DecodeFixed32(block[|Data(l.items)| + 4 * j..]) == Off(l.items, l.restarts[j])
  {
    hide Data, BlockIs, LayoutOk, DecodeFixed32, Fixed32, Words;
    var points := PointsOf(l, block);
    DataCut(l, block);
    BlockHas(l, block);
    LengthCut(Data(l.items), Words(points), |points| % 0x1_0000_0000);
    forall j | 0 <= j < |l.restarts|
      ensures l.restarts[j] <= |l.items|
              && DecodeFixed32(block[|Data(l.items)| + 4 * j..]) == Off(l.items, l.restarts[j])
    {
      RestartIn(l, j);
      WordAt(points, j);
      PointCut(Data(l.items), Words(points), Fixed32(|points| % 0x1_0000_0000), 4 * j, points[j] % 0x1_0000_0000);
      OffBelow(l.items, l.restarts[j]);
    }
  }

  lemma PointsOf(l: Layout, block: seq<Byte>) returns (points: seq<nat>)
    requires BlockIs(l, block)
    ensures PointsAre(l, points) && block == Data(l.items) + Words(points) + Fixed32(|points| % 0x1_0000_0000)
  {
    hide Data, LayoutOk, PointsAre, Words, Fixed32;
    points :| PointsAre(l, points) && block == Finished(l, points);
  }

  lemma RestartIn(l: Layout, j: nat)
    requires LayoutOk(l) && j < |l.restarts|
    ensures l.restarts[j] <= |l.items| && (l.items != [] ==> l.restarts[j] < |l.items|)
    ensures l.restarts[0] == 0 && (j > 0 ==> l.restarts[j] > 0)
  {
    hide ItemsOk;
  }

  // ---------------------------------------------------------------- the order of keys

  type Order = (seq<Byte>, seq<Byte>) -> bool

  ghost predicate Transitive(less: Order) {
    forall a, b, c :: less(a, b) && less(b, c) ==> less(a, c)
  }

  ghost predicate SortedBy(kvs: seq<KV>, less: Order) {
    forall i, j :: 0 <= i < j < |kvs| ==> less(kvs[i].key, kvs[j].key)
  }

  /** `p` is the first entry that does not come before the target. */
  ghost predicate IsFirst(kvs: seq<KV>, less: Order, target: seq<Byte>, p: nat) {
    && p <= |kvs| && (forall i :: 0 <= i < p ==> less(kvs[i].key, target))
    && (p < |kvs| ==> !less(kvs[p].key, target))
  }

  ghost predicate Ordered(kvs: seq<KV>, less: Order) {
    Transitive(less) && SortedBy(kvs, less)
  }

  lemma Chain(less: Order, a: seq<Byte>, b: seq<Byte>, c: seq<Byte>)
    requires Transitive(less) && less(a, b) && less(b, c)
    ensures less(a, c)
  {
  }

  lemma BelowBelow(kvs: seq<KV>, less: Order, target: seq<Byte>, p: nat)
    requires Ordered(kvs, less) && p < |kvs| && less(kvs[p].key, target)
    ensures forall i :: 0 <= i <= p ==> less(kvs[i].key, target)
  {
    hide Transitive;
    forall i | 0 <= i < p ensures less(kvs[i].key, target) {
      Chain(less, kvs[i].key, kvs[p].key, target);
    }
  }

  // ---------------------------------------------------------------- the iterator

  datatype Opened = BadBlock | EmptyBlock | Over(it: Iter)

  /** Checks that the restart array fits; its offset is a 32-bit number. */
  method NewIterator(block: seq<Byte>, less: Order, ghost l: Layout) returns (r: Opened)
    ensures r.Over? ==> fresh(r.it) && r.it.Sane() && r.it.l == l && r.it.data == block && r.it.less == less
    ensures r.Over? ==> !r.it.overrun && r.it.Trailer()
    ensures BlockIs(l, block) ==> r.Over? && r.it.At(|l.kvs|)
    ensures r.BadBlock? <==> |block| < 4 || DecodeFixed32(block[|block| - 4..]) > (|block| - 4) / 4
    ensures r.EmptyBlock? <==> |block| >= 4 && DecodeFixed32(block[|block| - 4..]) == 0
  {
    ghost var built := BlockIs(l, block);
    Trailed(l, block);
    hide BlockIs, Data, DecodeFixed32;
    if |block| < 4 {
      return BadBlock;
    }
    var num: int := DecodeFixed32(block[|block| - 4..]);
    if num > (|block| - 4) / 4 {
      return BadBlock;
    }
    if num == 0 {
      return EmptyBlock;
    }
    var it := new Iter(block, Low32(|block| - (1 + num) * 4), num, less, l);
    r := Over(it);
  }

  /** What the last word of a block tells. */
  lemma Trailed(l: Layout, block: seq<Byte>)
    ensures BlockIs(l, block) ==>
              && 4 <= |block| < TWO32 && ItemsOk(l) && |l.items| == |l.kvs| && l.restarts != []
              && var num := DecodeFixed32(block[|block| - 4..]);
              && num == |l.restarts| && |Data(l.items)| + 4 * num + 4 == |block|
  {
    hide Data, ItemsOk, DecodeFixed32, BlockIs;
    if BlockIs(l, block) {
      BlockHas(l, block);
      TrailerRead(l, block);
    }
  }

  /** A block of fifteen bytes on which the source reads outside: the entry, one restart point at 0, and
      the number of restart points. */
  method OverrunBlock(less: Order, ghost l: Layout) returns (it: Iter)
    ensures it.data == WRAPPED + [0, 0, 0, 0] + [1, 0, 0, 0] && it.overrun
  {
    var block := WRAPPED + [0, 0, 0, 0] + [1, 0, 0, 0];
    assert block[11..] == [1, 0, 0, 0] && block[7..][..4] == [0, 0, 0, 0];
    var r := NewIterator(block, less, l);
    assert DecodeFixed32(block[11..]) == 1;
    it := r.it;
    assert it.restarts == 7 && it.GetRestartPoint(0) == 0;
    WrappedIsAccepted([]);
    assert block[0..7] == WRAPPED + [];
    it.SeekToFirst();
  }

  class Iter {
    const data: seq<Byte>
    const restarts: nat
    const num: nat
    const less: Order
    ghost const l: Layout
    var current: nat
    var restartIndex: nat
    var key: seq<Byte>
    var valueStart: nat
    var valueLength: nat
    var corrupt: bool
    /** The source has read outside the block; of what it does from there on nothing is claimed. */
    var overrun: bool

    /** The restart array lies inside the block. */
    ghost predicate Shape() {
      num > 0 && restarts + 4 * num <= |data| && restarts < TWO32
    }

    /** The number of restart points is in the last word, and their offset is cut to 32 bits. */
    ghost predicate Trailer() {
      && 4 * (num + 1) <= |data| && num == DecodeFixed32(data[|data| - 4..])
      && restarts == Low32(|data| - 4 * (num + 1))
    }

    ghost predicate Sane()
      reads this
    {
      && Shape()
      && (current < restarts ==> restartIndex < num && valueStart + valueLength <= restarts && !overrun)
    }

    /** Parsing at this offset, with the key before it, makes the source read outside the block. */
    ghost predicate OverrunsAt(o: nat, before: seq<Byte>)
      requires Shape()
    {
      o < restarts
      && var h := ReadHeader(data[o..restarts]); h.Some? && h.value.shared <= |before| && Wraps(h.value)
    }

    /** The block was built from the layout. */
    ghost predicate Built() {
      BlockIs(l, data) && ItemsOk(l) && |l.items| == |l.kvs| && restarts == |Data(l.items)| && num == |l.restarts|
    }

    /** At entry `p`; one past the last stands for "not valid". */
    ghost predicate At(p: nat)
      reads this
    {
      && Built() && !corrupt && !overrun && p <= |l.items|
      && (if p == |l.items| then current == restarts && restartIndex == num
          else
            && current == Off(l.items, p) && current < restarts
            && key == l.kvs[p].key && valueStart + valueLength == Off(l.items, p + 1) <= restarts
            && data[valueStart..valueStart + valueLength] == l.kvs[p].value
            && Near(p))
    }

    /** The restart block that the entry is in, or ends. */
    ghost predicate Near(p: nat)
      reads this
    {
      restartIndex < |l.restarts| && l.restarts[restartIndex] <= p
      && (restartIndex + 1 < |l.restarts| ==> p <= l.restarts[restartIndex + 1])
    }

    /** About to parse entry `p`. */
    ghost predicate Before(p: nat)
      reads this
    {
      && Built() && !corrupt && !overrun && p <= |l.items|
      && valueStart + valueLength == Off(l.items, p)
      && (p < |l.items| ==> Stores(l.items[p], key, l.kvs[p]))
      && restartIndex < |l.restarts| && l.restarts[restartIndex] <= p
    }

    constructor (data: seq<Byte>, restarts: nat, num: nat, less: Order, ghost l: Layout)
      requires num > 0 && restarts + 4 * num <= |data| && restarts < TWO32
      ensures this.data == data && this.restarts == restarts && this.num == num && this.less == less && this.l == l
      ensures Sane() && !Valid() && !overrun
      ensures Built() ==> At(|l.items|)
    {
      this.data, this.restarts, this.num, this.less, this.l := data, restarts, num, less, l;
      current, restartIndex, key, valueStart, valueLength := restarts, num, [], 0, 0;
      corrupt, overrun := false, false;
    }

    predicate Valid()
      reads this
    {
      current < restarts
    }

    function Value(): seq<Byte>
      requires Sane() && Valid()
      reads this
    {
      data[valueStart..valueStart + valueLength]
    }

    function NextEntryOffset(): nat
      reads this
    {
      valueStart + valueLength
    }

    function GetRestartPoint(index: nat): nat
      requires Shape() && index < num
    {
      DecodeFixed32(data[restarts + 4 * index..])
    }

    lemma PointIs(index: nat, p: nat)
      requires Shape() && index < num
      ensures Built() && p <= |l.items| ==>
                && index < |l.restarts| && l.restarts[index] <= |l.items|
                && GetRestartPoint(index) == Off(l.items, l.restarts[index])
                && (GetRestartPoint(index) < Off(l.items, p) <==> l.restarts[index] < p)
    {
      hide BlockIs, Data, ItemsOk, DecodeFixed32;
      if Built() && p <= |l.items| {
        TrailerRead(l, data);
        OffOrder(l.items, l.restarts[index], p);
      }
    }

    method SeekToRestartPoint(index: nat)
      requires Shape() && index < num
      modifies this`key, this`restartIndex, this`valueStart, this`valueLength
      ensures restartIndex == index && NextEntryOffset() == GetRestartPoint(index)
      ensures key == []
      ensures Built() && !corrupt && !overrun ==> l.restarts[index] <= |l.items| && Before(l.restarts[index])
    {
      key := [];
      restartIndex := index;
      valueStart := GetRestartPoint(index);
      valueLength := 0;
      PointIs(index, 0);
      assert Built() ==> WholeKeyAt(index) by { if Built() { RestartStores(index); } }
      hide BlockIs, Data, ItemsOk;
    }

    method CorruptionError()
      requires Shape()
      modifies this
      ensures Sane() && corrupt && !Valid() && overrun == old(overrun)
    {
      current := restarts;
      restartIndex := num;
      corrupt := true;
      key := [];
      valueStart, valueLength := 0, 0;
    }

    /** What parsing entry `p` finds in the bytes. */
    ghost predicate Parsed(p: nat, h: Option<Header>) {
      Built() && p < |l.items| ==>
        var o, it := Off(l.items, p), l.items[p];
        && o < restarts && h.Some? && h.value.shared == it.shared && h.value.nonShared == |it.tail|
        && h.value.valueLength == |it.value|
        && !Wraps(h.value) && o + h.value.used + |it.tail| + |it.value| == Off(l.items, p + 1) <= restarts
        && restarts <= |data| && data[o + h.value.used..o + h.value.used + |it.tail|] == it.tail
        && data[o + h.value.used + |it.tail|..o + h.value.used + |it.tail| + |it.value|] == it.value
    }

    lemma ParsedIs(p: nat)
      requires Shape()
      ensures Built() && p < |l.items| ==>
                Off(l.items, p) < restarts && Parsed(p, ReadHeader(data[Off(l.items, p)..restarts]))
      ensures Built() && p == |l.items| ==> Off(l.items, p) == restarts
    {
      hide BlockIs, Data, ItemsOk, ReadHeader, EntryBytes;
      assert l.items[..|l.items|] == l.items;
      if Built() && p < |l.items| {
        EntryRead(l, data, p);
        InsideIffNoWrap(data[Off(l.items, p)..restarts]);
      }
    }

    /** Decodes the entry after the current one, if there is one. */
    method ParseNextKey(ghost p: nat) returns (ok: bool)
      requires Shape() && restartIndex < num
      modifies this
      ensures Sane() && ok == Valid()
      ensures overrun <==> old(overrun) || OverrunsAt(old(NextEntryOffset()), old(key))
      ensures ok ==> current == old(NextEntryOffset()) < NextEntryOffset() <= restarts
      ensures old(Before(p)) ==> At(p)
    {
      hide BlockIs, Data, ItemsOk, ReadHeader, EntryBytes;
      ghost var ready := Before(p);
      ParsedIs(p);
      current := NextEntryOffset();
      if current >= restarts || overrun {
        current := restarts;
        restartIndex := num;
        return false;
      }
      var h := DecodeEntry(data[current..restarts]);
      assert ready ==> p < |l.items| && Parsed(p, h);
      if h.None? || |key| < h.value.shared {
        CorruptionError();
        return false;
      }
      if Wraps(h.value) {
        overrun := true;
        current := restarts;
        return false;
      }
      InsideIffNoWrap(data[current..restarts]);
      var at := current + h.value.used;
      key := key[..h.value.shared] + data[at..at + h.value.nonShared];
      valueStart, valueLength := at + h.value.nonShared, h.value.valueLength;
      assert ready ==> key == l.kvs[p].key && data[valueStart..valueStart + valueLength] == l.kvs[p].value;
      AdvanceRestart(p);
      return true;
    }

    /** Moves on to the restart block of the current entry. */
    method AdvanceRestart(ghost p: nat)
      requires Shape() && restartIndex < num
      modifies this`restartIndex
      ensures restartIndex < num
      ensures Built() && p <= |l.items| && current == Off(l.items, p) && l.restarts[old(restartIndex)] <= p ==> Near(p)
    {
      hide BlockIs, Data, ItemsOk;
      ghost var fits := Built() && p <= |l.items| && current == Off(l.items, p) && l.restarts[old(restartIndex)] <= p;
      while restartIndex + 1 < num && GetRestartPoint(restartIndex + 1) < current
        invariant restartIndex < num
        invariant fits ==> l.restarts[restartIndex] <= p
      {
        PointIs(restartIndex + 1, p);
        restartIndex := restartIndex + 1;
      }
      if restartIndex + 1 < num {
        PointIs(restartIndex + 1, p);
      }
    }

    lemma WrapSeen(o: nat, before: seq<Byte>)
      ensures Shape() && OverrunsAt(o, before) ==> !NoneWraps(data, restarts)
    {
    }

    /** After an entry comes the next one. */
    lemma AfterIt(p: nat)
      requires At(p) && p < |l.items|
      ensures Before(p + 1)
    {
      hide BlockIs, Data, ItemsOk;
      if p + 1 < |l.items| {
        StoredAt(l, p + 1);
      }
    }

    method Next(ghost p: nat)
      requires Sane() && Valid()
      modifies this
      ensures Sane() && (overrun ==> !NoneWraps(data, restarts))
      ensures old(At(p)) ==> At(p + 1)
    {
      hide BlockIs, Data, ItemsOk, Stores, Near, NoneWraps, OverrunsAt;
      ghost var was := At(p);
      assert was ==> Before(p + 1) by { if was { AfterIt(p); } }
      WrapSeen(NextEntryOffset(), key);
      var ok := ParseNextKey(p + 1);
    }

    /** The last restart point at or before the current one that lies before an offset. */
    method RestartBefore(original: nat) returns (found: bool)
      requires Shape() && restartIndex < num
      modifies this`restartIndex
      ensures restartIndex < num && (found <==> GetRestartPoint(restartIndex) < original)
      ensures !found ==> restartIndex == 0
    {
      hide DecodeFixed32;
      while GetRestartPoint(restartIndex) >= original
        invariant restartIndex < num
        decreases restartIndex
      {
        if restartIndex == 0 {
          return false;
        }
        restartIndex := restartIndex - 1;
      }
      found := true;
    }

    /** Back to a restart point before the current entry, then forward to just before it. */
    method Prev(ghost p: nat)
      requires Sane() && Valid()
      modifies this
      ensures Sane() && (overrun ==> !NoneWraps(data, restarts))
      ensures old(At(p)) ==> At(if p == 0 then |l.items| else p - 1)
    {
      hide BlockIs, Data, ItemsOk, DecodeFixed32, Near, Stores, NoneWraps, OverrunsAt;
      ghost var was := At(p);
      var original := current;
      var found := RestartBefore(original);
      PointIs(restartIndex, p);
      if !found {
        assert was ==> p == 0 by { if was { BlockHas(l, data); RestartIn(l, 0); } }
        current := restarts;
        restartIndex := num;
        return;
      }
      SeekToRestartPoint(restartIndex);
      ghost var q: nat := if was then l.restarts[restartIndex] else 0;
      WrapSeen(NextEntryOffset(), key);
      var ok := ParseNextKey(q);
      while ok && NextEntryOffset() < original
        invariant Sane() && ok == Valid() && (overrun ==> !NoneWraps(data, restarts))
        invariant was ==> q < p < |l.items| && At(q) && original == Off(l.items, p)
        decreases ok, original - NextEntryOffset()
      {
        NotYet(q, p, original);
        q := q + 1;
        WrapSeen(NextEntryOffset(), key);
        ok := ParseNextKey(q);
      }
      assert was ==> q + 1 == p by { if was { OffOrder(l.items, q + 1, p); } }
    }

    lemma NotYet(q: nat, p: nat, original: nat)
      ensures At(q) && q < p < |l.items| && original == Off(l.items, p) && NextEntryOffset() < original ==>
                Before(q + 1) && q + 1 < p
    {
      hide BlockIs, Data, ItemsOk, Stores, Near;
      if At(q) && q < p < |l.items| && original == Off(l.items, p) && NextEntryOffset() < original {
        AfterIt(q);
        OffOrder(l.items, q + 1, p);
      }
    }

    /** The last restart point, the first one apart, whose key comes before the target.  None if the
        block is corrupt, or if the source would compare a key outside the block. */
    method FindRestart(target: seq<Byte>) returns (r: Option<nat>)
      requires Shape()
      modifies this`overrun
      ensures r.Some? ==> r.value < num && overrun == old(overrun)
      ensures overrun && !old(overrun) ==> !NoneWraps(data, restarts)
      ensures Built() && Ordered(l.kvs, less) ==> r.Some? && Splits(target, r.value, r.value)
    {
      hide BlockIs, Data, ItemsOk, Ordered, Splits, ReadHeader, DecodeFixed32, Built;
      ghost var good := Built() && Ordered(l.kvs, less);
      var left: nat, right: nat := 0, num - 1;
      assert good ==> Splits(target, left, right) by { if good { AllSplit(target); } }
      while left < right
        invariant left <= right < num && overrun == old(overrun)
        invariant good ==> Splits(target, left, right)
      {
        var mid: nat := (left + right + 1) / 2;
        var from := GetRestartPoint(mid);
        var h := DecodeEntry(if from <= restarts then data[from..restarts] else []);
        assert good ==> Halved(target, left, mid, right, from, h) by { if good { Halve(target, left, mid, right); } }
        if h.None? || h.value.shared != 0 {
          return None;
        }
        if Wraps(h.value) {
          overrun := true;
          return None;
        }
        InsideIffNoWrap(data[from..restarts]);
        var midKey := data[from + h.value.used..from + h.value.used + h.value.nonShared];
        if less(midKey, target) {
          left := mid;
        } else {
          right := mid - 1;
        }
      }
      r := Some(left);
    }

    lemma AllSplit(target: seq<Byte>)
      requires Built() && num > 0
      ensures Splits(target, 0, num - 1)
    {
      hide BlockIs, Data, ItemsOk, KeyAt;
    }

    /** What one comparison of the binary search finds out. */
    ghost predicate Halved(target: seq<Byte>, left: nat, mid: nat, right: nat, from: nat, h: Option<Header>) {
      && from <= restarts <= |data| && h.Some? && h.value.shared == 0 && !Wraps(h.value) && mid > 0
      && from + h.value.used + h.value.nonShared <= |data|
      && (if less(data[from + h.value.used..from + h.value.used + h.value.nonShared], target)
         then Splits(target, mid, right)
          else Splits(target, left, mid - 1))
    }

    lemma Halve(target: seq<Byte>, left: nat, mid: nat, right: nat)
      requires Shape() && Built() && Ordered(l.kvs, less) && Splits(target, left, right) && left < mid <= right < num
      ensures var from := GetRestartPoint(mid);
              from <= restarts && Halved(target, left, mid, right, from, ReadHeader(data[from..restarts]))
    {
      hide BlockIs, Data, ItemsOk, Ordered, Splits, ReadHeader, DecodeFixed32, KeyAt, Wraps;
      RestartKey(mid);
      Narrow(target, left, mid, right);
    }

    ghost function KeyAt(j: nat): seq<Byte>
      requires j < |l.restarts|
    {
      if l.restarts[j] < |l.kvs| then l.kvs[l.restarts[j]].key else []
    }

    /** Restart points up to `left` come before the target, those past `right` do not. */
    ghost predicate Splits(target: seq<Byte>, left: nat, right: nat) {
      && (forall j :: 0 < j <= left && j < |l.restarts| ==> less(KeyAt(j), target))
      && (forall j :: right < j < |l.restarts| ==> !less(KeyAt(j), target))
    }

    ghost predicate WholeKeyAt(index: nat) {
      index < |l.restarts|
      && (l.restarts[index] < |l.items| && l.restarts[index] < |l.kvs| ==>
            Stores(l.items[l.restarts[index]], [], l.kvs[l.restarts[index]]))
    }

    /** A restart point stores its whole key. */
    lemma RestartStores(index: nat)
      requires Built() && index < num
      ensures WholeKeyAt(index)
    {
      hide BlockIs, Data, ItemsOk;
      BlockHas(l, data);
      var r := l.restarts[index];
      if r < |l.items| {
        StoredAt(l, r);
      }
    }

    /** The key of a restart point can be read off its bytes. */
    lemma RestartKey(index: nat)
      requires Shape() && 0 < index < num
      ensures Built() ==>
                var from := GetRestartPoint(index);
                && from <= restarts
                && var h := ReadHeader(data[from..restarts]);
                && h.Some? && h.value.shared == 0 && !Wraps(h.value) && index < |l.restarts|
                && from + h.value.used + h.value.nonShared <= |data|
                && data[from + h.value.used..from + h.value.used + h.value.nonShared] == KeyAt(index)
    {
      hide BlockIs, Data, ItemsOk, LayoutOk, ReadHeader, DecodeFixed32, Wraps;
      if Built() {
        BlockHas(l, data);
        var r := l.restarts[index];
        RestartIn(l, index);
        PointIs(index, 0);
        ParsedIs(r);
        RestartStores(index);
      }
    }

    ghost predicate Narrowed(target: seq<Byte>, left: nat, mid: nat, right: nat) {
      mid < |l.restarts| && mid > 0
      && (if less(KeyAt(mid), target) then Splits(target, mid, right) else Splits(target, left, mid - 1))
    }

    /** One comparison halves the range. */
    lemma Narrow(target: seq<Byte>, left: nat, mid: nat, right: nat)
      requires Built() && Ordered(l.kvs, less) && Splits(target, left, right) && left < mid <= right < |l.restarts|
      ensures Narrowed(target, left, mid, right)
    {
      hide BlockIs, Data, ItemsOk, LayoutOk, Ordered, KeyAt;
      forall j | 0 <= j < mid ensures less(KeyAt(mid), target) ==> less(KeyAt(j), target) {
        InOrder(target, j, mid);
      }
      forall j | mid < j < |l.restarts| ensures less(KeyAt(j), target) ==> less(KeyAt(mid), target) {
        InOrder(target, mid, j);
      }
    }

    lemma InOrder(target: seq<Byte>, j: nat, k: nat)
      requires Built() && Ordered(l.kvs, less) && j < k < |l.restarts|
      ensures less(KeyAt(k), target) ==> less(KeyAt(j), target)
    {
      hide BlockIs, Data, ItemsOk, LayoutOk, Transitive, SortedBy, KeyAt;
      BlockHas(l, data);
      KeysInOrder(j, k);
      if less(KeyAt(k), target) {
        Chain(less, KeyAt(j), KeyAt(k), target);
      }
    }

    lemma KeysInOrder(j: nat, k: nat)
      requires LayoutOk(l) && SortedBy(l.kvs, less) && j < k < |l.restarts|
      ensures less(KeyAt(j), KeyAt(k))
    {
      RestartIn(l, k);
      RestartIn(l, j);
      assert l.restarts[j] < l.restarts[k];
      assert |l.items| == |l.kvs|;
      hide ItemsOk, LayoutOk, RestartsOk;
    }

    /** What comes before the restart point found comes before the target. */
    lemma StartsBelow(target: seq<Byte>, left: nat)
      requires Built() && Ordered(l.kvs, less) && Splits(target, left, left) && left < |l.restarts|
      ensures StartsAt(target, left)
    {
      hide BlockIs, Data, ItemsOk, LayoutOk, Ordered;
      BlockHas(l, data);
      RestartIn(l, left);
      if left > 0 {
        assert less(KeyAt(left), target);
        BelowBelow(l.kvs, less, target, l.restarts[left]);
      }
    }

    method Seek(target: seq<Byte>) returns (ghost p: nat)
      requires Shape()
      modifies this
      ensures Sane() && (overrun && !old(overrun) ==> !NoneWraps(data, restarts))
      ensures old(Built() && !corrupt && !overrun) && Ordered(l.kvs, less) ==> At(p) && IsFirst(l.kvs, less, target, p)
    {
      hide BlockIs, Data, ItemsOk, Ordered, NoneWraps, OverrunsAt, Stores, Near, DecodeFixed32;
      ghost var good := Built() && !corrupt && !overrun && Ordered(l.kvs, less);
      p := 0;
      var left := FindRestart(target);
      if left.None? {
        CorruptionError();
        return;
      }
      assert good ==> StartsAt(target, left.value) by { if good { StartsBelow(target, left.value); } }
      SeekToRestartPoint(left.value);
      p := if good then l.restarts[left.value] else 0;
      WrapSeen(NextEntryOffset(), key);
      var ok := ParseNextKey(p);
      while ok && less(key, target)
        invariant Sane() && ok == Valid() && (overrun && !old(overrun) ==> !NoneWraps(data, restarts))
        invariant good ==> At(p) && forall i :: 0 <= i < p ==> less(l.kvs[i].key, target)
        decreases ok, restarts - NextEntryOffset()
      {
        assert good ==> Before(p + 1) by { if good { AfterIt(p); } }
        p := p + 1;
        WrapSeen(NextEntryOffset(), key);
        ok := ParseNextKey(p);
      }
    }

    ghost predicate StartsAt(target: seq<Byte>, left: nat) {
      left < |l.restarts| && forall i :: 0 <= i < l.restarts[left] && i < |l.kvs| ==> less(l.kvs[i].key, target)
    }

    method SeekToFirst()
      requires Shape()
      modifies this
      ensures Sane()
      ensures overrun <==> old(overrun) || OverrunsAt(GetRestartPoint(0), [])
      ensures old(Built() && !corrupt && !overrun) ==> At(0)
    {
      assert Built() ==> l.restarts != [] && l.restarts[0] == 0 by { if Built() { BlockHas(l, data); } }
      hide BlockIs, Data, ItemsOk;
      SeekToRestartPoint(0);
      var ok := ParseNextKey(0);
    }

    method SeekToLast() returns (ghost p: nat)
      requires Shape()
      modifies this
      ensures Sane() && (overrun && !old(overrun) ==> !NoneWraps(data, restarts))
      ensures old(Built() && !corrupt && !overrun) ==> At(p) && p == if l.kvs == [] then 0 else |l.kvs| - 1
    {
      hide BlockIs, Data, ItemsOk, Stores, Near, NoneWraps, OverrunsAt;
      ghost var good := Built() && !corrupt && !overrun;
      SeekToRestartPoint(num - 1);
      p := if good then l.restarts[num - 1] else 0;
      WrapSeen(NextEntryOffset(), key);
      var ok := ParseNextKey(p);
      if !ok {
        assert good ==> l.items == [] by { if good { BlockHas(l, data); RestartIn(l, num - 1); } }
      }
      while ok && NextEntryOffset() < restarts
        invariant Sane() && ok == Valid() && (overrun && !old(overrun) ==> !NoneWraps(data, restarts))
        invariant good ==> At(p) && (ok <==> p < |l.items|) && (!ok ==> l.items == [])
        decreases ok, restarts - NextEntryOffset()
      {
        Follows(p);
        p := p + 1;
        WrapSeen(NextEntryOffset(), key);
        ok := ParseNextKey(p);
      }
      EndAt(p + 1);
    }

    lemma Follows(p: nat)
      ensures At(p) && p < |l.items| && NextEntryOffset() < restarts ==> Before(p + 1) && p + 1 < |l.items|
    {
      hide BlockIs, Data, ItemsOk, Stores, Near;
      if At(p) && p < |l.items| && NextEntryOffset() < restarts {
        AfterIt(p);
        EndAt(p + 1);
      }
    }

    lemma EndAt(p: nat)
      ensures Built() && p <= |l.items| ==> (Off(l.items, p) < restarts <==> p < |l.items|)
    {
      hide BlockIs, Data, ItemsOk;
      if Built() && p <= |l.items| {
        assert l.items[..|l.items|] == l.items;
        OffOrder(l.items, p, |l.items|);
      }
    }
  }
}
