/** What a table file is made of, and the state of one that is being built: blocks laid out one after the
    other, index entries that separate them, and filters for the offsets they start at. */
module Tables {
  import opened Keys
  import opened Bytes
  import opened Coding
  import opened Blocks
  import opened BlockIters
  import opened Comparators
  import opened Blooms
  import opened FilterBlocks
  import opened TableIndexes
  import opened TableFormat

  type Groups = seq<seq<seq<Byte>>>

  /** A data block written at an offset. */
  datatype BlockAt = BlockAt(l: Layout, at: nat, handle: Handle)

  /** What has been built: the file, its data blocks, the pairs not yet written, the index entries, whether
      the last block still lacks its index entry, and the keys of each filter. */
  datatype View = View(file: seq<Byte>, blocks: seq<BlockAt>, data: seq<KV>,
      seps: seq<KV>, pending: bool, groups: Option<Groups>)

  ghost function Parts(blocks: seq<BlockAt>): (r: seq<seq<KV>>)
    ensures |r| == |blocks| && forall i :: 0 <= i < |r| ==> r[i] == blocks[i].l.kvs
  {
    seq(|blocks|, i requires 0 <= i < |blocks| => blocks[i].l.kvs)
  }

  ghost function AllParts(v: View): seq<seq<KV>> {
    if v.data == [] then Parts(v.blocks) else Parts(v.blocks) + [v.data]
  }

  /** The pairs added so far. */
  ghost function All(v: View): seq<KV> {
    Contents(AllParts(v))
  }

  /** The contents lie in the file at the handle, as long as offsets fit in 64 bits. */
  ghost predicate Held(file: seq<Byte>, at: nat, h: Handle, contents: seq<Byte>, crc: Crc) {
    |file| < WIDE ==> h.offset == at && RawAt(file, h, contents, crc)
  }

  ghost predicate BlockHeld(b: BlockAt, file: seq<Byte>, crc: Crc) {
    exists contents :: Encodes(b.l, contents) && Held(file, b.at, b.handle, contents, crc)
  }

  ghost predicate BlocksHeld(blocks: seq<BlockAt>, file: seq<Byte>, crc: Crc) {
    forall i :: 0 <= i < |blocks| ==> BlockHeld(blocks[i], file, crc)
  }

  /** Each index entry names its block. */
  ghost predicate Named(blocks: seq<BlockAt>, seps: seq<KV>) {
    |seps| <= |blocks| && forall i :: 0 <= i < |seps| ==> seps[i].value == HandleBytes(blocks[i].handle)
  }

  /** The keys of a block are in the filter of its offset. */
  ghost predicate InGroup(b: BlockAt, groups: Groups) {
    b.at / FILTER_BASE < |groups| && AllIn(b.l.kvs, groups[b.at / FILTER_BASE])
  }

  ghost predicate AllIn(kvs: seq<KV>, group: seq<seq<Byte>>) {
    forall i :: 0 <= i < |kvs| ==> kvs[i].key in group
  }

  ghost predicate Filtered(blocks: seq<BlockAt>, groups: Groups) {
    forall i :: 0 <= i < |blocks| ==> InGroup(blocks[i], groups)
  }

  ghost predicate SepsOk(v: View) {
    && |v.seps| + (if v.pending then 1 else 0) == |v.blocks|
    && IndexOk(AllParts(v), v.seps) && Named(v.blocks, v.seps)
    && (if v.pending then v.data == [] else v.blocks == [] || v.data != [])
  }

  ghost predicate FilterOk(v: View) {
    v.groups.Some? ==>
      && |v.groups.value| == |v.file| / FILTER_BASE + 1
      && Filtered(v.blocks, v.groups.value) && AllIn(v.data, v.groups.value[|v.file| / FILTER_BASE])
  }

  ghost predicate StateOk(v: View, crc: Crc) {
    && BlocksHeld(v.blocks, v.file, crc) && NoneEmpty(AllParts(v)) && KeysOk(All(v))
    && SepsOk(v) && FilterOk(v)
  }

  // ---------------------------------------------------------------- adding a pair

  ghost function AddTo(groups: Option<Groups>, key: seq<Byte>): Option<Groups> {
    match groups
    case None => None
    case Some(g) => if g == [] then groups else Some(g[|g| - 1 := g[|g| - 1] + [key]])
  }

  ghost function WithPair(v: View, kv: KV, sep: seq<Byte>): View {
    View(v.file, v.blocks, v.data + [kv],
         if v.pending && v.blocks != []
         then v.seps + [KV(sep, HandleBytes(v.blocks[|v.blocks| - 1].handle))]
         else v.seps,
         false, AddTo(v.groups, kv.key))
  }

  lemma ContentsSnoc(parts: seq<seq<KV>>, last: seq<KV>)
    ensures Contents(parts + [last]) == Contents(parts) + last
  {
    assert (parts + [last])[..|parts|] == parts;
  }

  lemma AllIs(v: View)
    ensures All(v) == Contents(Parts(v.blocks)) + v.data
  {
    hide Contents;
    if v.data == [] {
      assert Contents(Parts(v.blocks)) + [] == Contents(Parts(v.blocks));
    } else {
      ContentsSnoc(Parts(v.blocks), v.data);
    }
  }

  lemma AllWithPair(v: View, kv: KV, sep: seq<Byte>)
    ensures All(WithPair(v, kv, sep)) == All(v) + [kv]
  {
    hide All, Contents;
    AllIs(v);
    AllIs(WithPair(v, kv, sep));
  }

  lemma KeysWithPair(kvs: seq<KV>, kv: KV)
    requires KeysOk(kvs) && |kv.key| >= 8 && (kvs != [] ==> InternalLess(LastKey(kvs), kv.key))
    ensures KeysOk(kvs + [kv])
  {
    hide InternalLess, Transitive;
    InternalTransitive();
    var all := kvs + [kv];
    forall i, j | 0 <= i < j < |all| ensures InternalLess(all[i].key, all[j].key) {
      if j == |kvs| && i + 1 < |kvs| {
        assert InternalLess(kvs[i].key, kvs[|kvs| - 1].key);
        Chain(InternalLess, kvs[i].key, kvs[|kvs| - 1].key, kv.key);
      }
    }
  }

  lemma LastOfAll(v: View)
    requires NoneEmpty(AllParts(v)) && v.pending && v.data == [] && v.blocks != []
    ensures All(v) != [] && LastKey(All(v)) == LastKey(v.blocks[|v.blocks| - 1].l.kvs)
  {
    hide Contents;
    var n := |v.blocks| - 1;
    assert AllParts(v)[n] == v.blocks[n].l.kvs;
    EntryOf(AllParts(v), n, |v.blocks[n].l.kvs| - 1);
    BaseStep(AllParts(v), n);
    BaseEnd(AllParts(v));
  }

  /** The blocks written so far keep their first and last keys. */
  lemma SameEnds(v: View, w: View, i: nat)
    requires i < |v.blocks| && w.blocks == v.blocks && v.data <= w.data
             && (!v.pending && v.blocks != [] ==> v.data != [])
    ensures i < |AllParts(v)| && i < |AllParts(w)| && LastKey(AllParts(w)[i]) == LastKey(AllParts(v)[i])
    ensures i + 1 < |AllParts(v)| ==>
              i + 1 < |AllParts(w)| && FirstKey(AllParts(w)[i + 1]) == FirstKey(AllParts(v)[i + 1])
    ensures !v.pending && i + 1 >= |AllParts(v)| ==> i + 1 >= |AllParts(w)|
    ensures w.data != [] && i + 1 == |v.blocks| ==> i + 1 < |AllParts(w)| && AllParts(w)[i + 1] == w.data
  {
  }

  lemma SepsWithPair(v: View, kv: KV, sep: seq<Byte>)
    requires SepsOk(v) && NoneEmpty(AllParts(v)) && |sep| >= 8
    requires v.pending ==> Separates(sep, LastKey(All(v)), kv.key)
    ensures SepsOk(WithPair(v, kv, sep)) && NoneEmpty(AllParts(WithPair(v, kv, sep)))
  {
    hide All, Contents, HandleBytes, BytesLess, ExtractUserKey, AllParts, LastKey, NoneEmpty;
    var w := WithPair(v, kv, sep);
    var parts, now := AllParts(v), AllParts(w);
    PartsCount(v);
    PartsCount(w);
    if v.pending {
      LastOfAll(v);
      AllPartsAt(v, |v.blocks| - 1);
    }
    forall i | 0 <= i < |w.seps| ensures SepOk(now, i, w.seps[i].key) {
      SameEnds(v, w, i);
      if i < |v.seps| {
        assert SepOk(parts, i, v.seps[i].key);
      }
    }
    NoneEmptyWithPair(v, kv, sep);
  }

  lemma PartsCount(v: View)
    ensures |AllParts(v)| == |v.blocks| + if v.data == [] then 0 else 1
  {
  }

  lemma AllPartsAt(v: View, i: nat)
    requires i < |v.blocks|
    ensures i < |AllParts(v)| && AllParts(v)[i] == v.blocks[i].l.kvs
  {
  }

  lemma NoneEmptyWithPair(v: View, kv: KV, sep: seq<Byte>)
    requires NoneEmpty(AllParts(v))
    ensures NoneEmpty(AllParts(WithPair(v, kv, sep)))
  {
    var parts, now := AllParts(v), AllParts(WithPair(v, kv, sep));
    forall i | 0 <= i < |now| ensures now[i] != [] {
      assert i < |v.blocks| ==> now[i] == parts[i];
    }
  }

  lemma FilterWithPair(v: View, kv: KV, sep: seq<Byte>)
    requires FilterOk(v)
    ensures FilterOk(WithPair(v, kv, sep))
  {
    if v.groups.Some? {
      var w := WithPair(v, kv, sep);
      var was, now := v.groups.value, w.groups.value;
      forall i | 0 <= i < |w.blocks| ensures InGroup(w.blocks[i], now) {
        assert InGroup(v.blocks[i], was);
      }
    }
  }

  lemma StateWithPair(v: View, kv: KV, sep: seq<Byte>, crc: Crc)
    requires StateOk(v, crc) && |kv.key| >= 8 && |sep| >= 8
    requires All(v) != [] ==> InternalLess(LastKey(All(v)), kv.key)
    requires v.pending ==> Separates(sep, LastKey(All(v)), kv.key)
    ensures StateOk(WithPair(v, kv, sep), crc) && All(WithPair(v, kv, sep)) == All(v) + [kv]
  {
    hide BlocksHeld, NoneEmpty, KeysOk, SepsOk, FilterOk, All, InternalLess, LastKey, Separates;
    AllWithPair(v, kv, sep);
    KeysWithPair(All(v), kv);
    SepsWithPair(v, kv, sep);
    FilterWithPair(v, kv, sep);
  }

  // ---------------------------------------------------------------- writing a block

  /** The filters once a new block starts at an offset: those before it are closed. */
  ghost predicate Closed(was: Option<Groups>, now: Option<Groups>, offset: nat) {
    match was
    case None => now.None?
    case Some(g) =>
      now.Some? && |now.value| == offset / FILTER_BASE + 1 && |g| <= |now.value|
      && forall i :: 0 <= i < |g| ==> now.value[i] == g[i]
  }

  ghost function Flushed(v: View, b: BlockAt, raw: seq<Byte>, groups: Option<Groups>): View {
    View(v.file + raw, v.blocks + [b], [], v.seps, true, groups)
  }

  lemma HeldGrows(was: seq<Byte>, now: seq<Byte>, at: nat, h: Handle, contents: seq<Byte>, crc: Crc)
    requires Held(was, at, h, contents, crc) && was <= now
    ensures Held(now, at, h, contents, crc)
  {
    hide RawAt;
    if |now| < WIDE {
      RawGrows(was, now, h, contents, crc);
    }
  }

  lemma BlockHeldGrows(b: BlockAt, was: seq<Byte>, now: seq<Byte>, crc: Crc)
    requires BlockHeld(b, was, crc) && was <= now
    ensures BlockHeld(b, now, crc)
  {
    hide Encodes, Held;
    var contents :| Encodes(b.l, contents) && Held(was, b.at, b.handle, contents, crc);
    HeldGrows(was, now, b.at, b.handle, contents, crc);
  }

  lemma StateFlushed(v: View, b: BlockAt, contents: seq<Byte>, groups: Option<Groups>, crc: Crc)
    requires StateOk(v, crc) && v.data != [] && b.l.kvs == v.data && b.at == |v.file| && Encodes(b.l, contents)
    requires Held(v.file + RawBlock(contents, crc), b.at, b.handle, contents, crc)
    requires Closed(v.groups, groups, |v.file + RawBlock(contents, crc)|)
    ensures var w := Flushed(v, b, RawBlock(contents, crc), groups); StateOk(w, crc) && All(w) == All(v)
  {
    hide Encodes, Held, RawBlock, KeysOk, Contents, NoneEmpty;
    var raw := RawBlock(contents, crc);
    var w := Flushed(v, b, raw, groups);
    assert AllParts(w) == AllParts(v);
    forall i | 0 <= i < |w.blocks| ensures BlockHeld(w.blocks[i], w.file, crc) {
      if i < |v.blocks| {
        BlockHeldGrows(v.blocks[i], v.file, w.file, crc);
      }
    }
    SepsFlushed(v, b, raw, groups);
    FilterFlushed(v, b, raw, groups);
    hide SepsOk, FilterOk;
  }

  lemma SepsFlushed(v: View, b: BlockAt, raw: seq<Byte>, groups: Option<Groups>)
    requires SepsOk(v) && v.data != [] && b.l.kvs == v.data
    ensures SepsOk(Flushed(v, b, raw, groups))
  {
    hide IndexOk, HandleBytes;
    assert AllParts(Flushed(v, b, raw, groups)) == AllParts(v);
  }

  lemma FilterFlushed(v: View, b: BlockAt, raw: seq<Byte>, groups: Option<Groups>)
    requires FilterOk(v) && b.l.kvs == v.data && b.at == |v.file| && Closed(v.groups, groups, |v.file + raw|)
    ensures FilterOk(Flushed(v, b, raw, groups))
  {
    if groups.Some? {
      var w := Flushed(v, b, raw, groups);
      forall i | 0 <= i < |w.blocks| ensures InGroup(w.blocks[i], groups.value) {
        assert i < |v.blocks| ==> InGroup(v.blocks[i], v.groups.value);
      }
    }
  }

  // ---------------------------------------------------------------- the finished table

  datatype Options = Options(restartInterval: nat, blockSize: nat,
      policy: BloomPolicy?, filterName: seq<Byte>, crc: Crc)

  ghost predicate OptionsOk(o: Options) {
    o.restartInterval >= 1 && (o.policy != null ==> 0 < o.policy.k <= 30) && |o.filterName| < 0x1_0000_0000
  }

  datatype FilterAt = FilterAt(handle: Handle, contents: seq<Byte>, groups: Groups)

  /** What a table file consists of. */
  datatype Shape = Shape(blocks: seq<BlockAt>, index: Layout, meta: Layout, filter: Option<FilterAt>, footer: Footer)

  /** The block lies in the file at the handle. */
  ghost predicate LaidOut(l: Layout, h: Handle, file: seq<Byte>, crc: Crc) {
    BlockHeld(BlockAt(l, h.offset, h), file, crc)
  }

  ghost predicate FilterHeld(f: FilterAt, blocks: seq<BlockAt>, file: seq<Byte>, o: Options)
    requires o.policy != null
  {
    && Held(file, f.handle.offset, f.handle, f.contents, o.crc)
    && FilterBlockIs(o.policy.hash, o.policy.k, f.groups, f.contents) && Filtered(blocks, f.groups)
  }

  ghost predicate MetaIs(kvs: seq<KV>, filter: Option<FilterAt>, o: Options) {
    match filter
    case None => o.policy == null && kvs == []
    case Some(f) => o.policy != null && kvs == [KV(o.filterName, HandleBytes(f.handle))]
  }

  /** The file is a table of this shape: data blocks, filter, metaindex, index, footer. */
  ghost predicate TableIs(t: Shape, file: seq<Byte>, o: Options) {
    && BlocksHeld(t.blocks, file, o.crc) && TableOk(Parts(t.blocks), t.index.kvs) && Named(t.blocks, t.index.kvs)
    && LaidOut(t.index, t.footer.index, file, o.crc)
    && MetaIs(t.meta.kvs, t.filter, o) && LaidOut(t.meta, t.footer.metaindex, file, o.crc)
    && (t.filter.Some? ==> FilterHeld(t.filter.value, t.blocks, file, o))
    && |file| >= FOOTER_SIZE && FooterIs(t.footer, file[|file| - FOOTER_SIZE..])
  }

  /** The pairs of the table, in order. */
  ghost function Pairs(t: Shape): seq<KV> {
    Contents(Parts(t.blocks))
  }

  // ---------------------------------------------------------------- finishing

  lemma BlocksHeldGrows(blocks: seq<BlockAt>, was: seq<Byte>, now: seq<Byte>, crc: Crc)
    requires BlocksHeld(blocks, was, crc) && was <= now
    ensures BlocksHeld(blocks, now, crc)
  {
    hide BlockHeld;
    forall i | 0 <= i < |blocks| ensures BlockHeld(blocks[i], now, crc) {
      BlockHeldGrows(blocks[i], was, now, crc);
    }
  }

  lemma LaidOutGrows(l: Layout, h: Handle, was: seq<Byte>, now: seq<Byte>, crc: Crc)
    requires LaidOut(l, h, was, crc) && was <= now
    ensures LaidOut(l, h, now, crc)
  {
    hide BlockHeld;
    BlockHeldGrows(BlockAt(l, h.offset, h), was, now, crc);
  }

  lemma LaidOutFrom(l: Layout, at: nat, h: Handle, contents: seq<Byte>, file: seq<Byte>, crc: Crc)
    requires Encodes(l, contents) && Held(file, at, h, contents, crc)
    ensures LaidOut(l, h, file, crc)
  {
    hide Encodes, RawAt;
    assert Held(file, h.offset, h, contents, crc);
  }

  lemma FilterHeldGrows(f: FilterAt, blocks: seq<BlockAt>, was: seq<Byte>, now: seq<Byte>, o: Options)
    requires o.policy != null && FilterHeld(f, blocks, was, o) && was <= now
    ensures FilterHeld(f, blocks, now, o)
  {
    hide Held, FilterBlockIs, Filtered;
    HeldGrows(was, now, f.handle.offset, f.handle, f.contents, o.crc);
  }

  lemma FilterHeldFrom(f: FilterAt, at: nat, blocks: seq<BlockAt>, file: seq<Byte>, o: Options)
    requires o.policy != null && Held(file, at, f.handle, f.contents, o.crc)
    requires FilterBlockIs(o.policy.hash, o.policy.k, f.groups, f.contents) && Filtered(blocks, f.groups)
    ensures FilterHeld(f, blocks, file, o)
  {
    hide RawAt, FilterBlockIs, Filtered;
  }

  /** The last index entry completes the index. */
  lemma IndexComplete(v: View, sep: seq<Byte>, crc: Crc)
    requires StateOk(v, crc) && v.data == []
    requires v.pending ==> |sep| >= 8 && LastSepOk(sep, LastKey(All(v)))
    ensures var seps := if v.pending && v.blocks != []
                        then v.seps + [KV(sep, HandleBytes(v.blocks[|v.blocks| - 1].handle))] else v.seps;
            TableOk(Parts(v.blocks), seps) && Named(v.blocks, seps)
  {
    hide Contents, HandleBytes, BytesLess, ExtractUserKey, LastKey, FirstKey, BlocksHeld, FilterOk, KeysOk, All;
    assert AllParts(v) == Parts(v.blocks);
    if v.pending {
      LastOfAll(v);
    }
    var seps := if v.pending && v.blocks != []
                then v.seps + [KV(sep, HandleBytes(v.blocks[|v.blocks| - 1].handle))]
                else v.seps;
    forall i | 0 <= i < |seps| ensures SepOk(Parts(v.blocks), i, seps[i].key) {
      assert i < |v.seps| ==> SepOk(AllParts(v), i, v.seps[i].key);
    }
    assert All(v) == Contents(Parts(v.blocks)) by { AllHere(v); }
  }

  lemma AllHere(v: View)
    requires v.data == []
    ensures All(v) == Contents(Parts(v.blocks))
  {
  }

  ghost predicate LastSepOk(sep: seq<Byte>, last: seq<Byte>) {
    sep == last || BytesLess(ExtractUserKey(last), ExtractUserKey(sep))
  }

  /** Closing the last filter loses no key. */
  lemma FiltersComplete(v: View, groups: Groups, pending: seq<seq<Byte>>, crc: Crc)
    requires StateOk(v, crc) && v.groups == Some(groups + [pending])
    ensures Filtered(v.blocks, if pending == [] then groups else groups + [pending])
  {
    hide BlocksHeld, SepsOk, KeysOk, All;
    forall i | 0 <= i < |v.blocks| ensures InGroup(v.blocks[i], if pending == [] then groups else groups + [pending]) {
      AllPartsAt(v, i);
      assert InGroup(v.blocks[i], groups + [pending]);
      var kvs := v.blocks[i].l.kvs;
      assert kvs != [] && kvs[0].key in (groups + [pending])[v.blocks[i].at / FILTER_BASE];
    }
  }
}
