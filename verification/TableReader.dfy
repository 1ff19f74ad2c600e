/** Opening a table file and looking a key up in it: the index names the only block that can hold the key,
    the filter may rule that block out, and a search in the block decides. */
module TableReaders {
  import opened Keys
  import opened Bytes
  import opened Coding
  import opened Blocks
  import opened BlockIters
  import opened Comparators
  import opened Blooms
  import opened FilterBlocks
  import opened TableIndexes
  import opened TableFormat
  import opened Tables

  /** A table of this shape with 32-bit offsets. */
  ghost predicate Fits32(t: Shape, file: seq<Byte>, o: Options) {
    TableIs(t, file, o) && |file| < 0x1_0000_0000
  }

  ghost predicate BlockIn(l: Layout, h: Handle, file: seq<Byte>, crc: Crc) {
    LaidOut(l, h, file, crc) && |file| < 0x1_0000_0000
  }

  /** The contents of a block that lies in the file. */
  lemma ContentsOf(l: Layout, h: Handle, file: seq<Byte>, crc: Crc) returns (contents: seq<Byte>)
    ensures BlockIn(l, h, file, crc) ==> RawAt(file, h, contents, crc) && BlockIs(l, contents)
  {
    hide Encodes, RawBlock;
    contents := [];
    if BlockIn(l, h, file, crc) {
      contents :| Encodes(l, contents) && Held(file, h.offset, h, contents, crc);
    }
  }

  /** An iterator over the block at a handle; None if it cannot be read. */
  method BlockReader(file: seq<Byte>, handleValue: seq<Byte>, less: Order,
                     verify: bool, crc: Crc, ghost l: Layout, ghost h: Handle)
    returns (r: Opened)
    ensures r.Over? ==> fresh(r.it) && r.it.Sane() && r.it.l == l && r.it.less == less
    ensures BlockIn(l, h, file, crc) && handleValue == HandleBytes(h) ==> r.Over? && r.it.At(|l.kvs|)
  {
    hide BlockIn, RawAt, BlockIs, HandleBytes, ReadHandle;
    ghost var contents := ContentsOf(l, h, file, crc);
    HandleRoundTrip(h, []);
    assert HandleBytes(h) + [] == HandleBytes(h);
    var d := DecodeHandle(handleValue);
    if d.None? { return BadBlock; }
    var block := ReadBlock(file, d.value.handle, verify, crc, contents);
    if block.None? { return BadBlock; }
    r := NewIterator(block.value, less, l);
  }

  // ---------------------------------------------------------------- what a table file promises

  lemma FooterFacts(t: Shape, file: seq<Byte>, o: Options)
    ensures Fits32(t, file, o) ==>
              && |file| >= FOOTER_SIZE && FooterIs(t.footer, file[|file| - FOOTER_SIZE..])
              && BlockIn(t.index, t.footer.index, file, o.crc)
  {
    hide BlocksHeld, TableOk, Named, LaidOut, FilterHeld, FooterIs, MetaIs;
  }

  lemma MetaFacts(t: Shape, file: seq<Byte>, o: Options)
    ensures Fits32(t, file, o) ==>
              && BlockIn(t.meta, t.footer.metaindex, file, o.crc) && (t.filter.Some? <==> o.policy != null)
              && (t.filter.Some? ==> t.meta.kvs == [KV(o.filterName, HandleBytes(t.filter.value.handle))])
              && (t.filter.Some? ==> Ordered(t.meta.kvs, BytesLess))
  {
    hide BlocksHeld, TableOk, Named, LaidOut, FilterHeld, FooterIs, HandleBytes, Transitive, BytesLess;
    if Fits32(t, file, o) {
      BytesOrdered();
    }
  }

  lemma BytesOrdered()
    ensures Transitive(BytesLess)
  {
    hide BytesLess;
    forall a, b, c | BytesLess(a, b) && BytesLess(b, c) ensures BytesLess(a, c) {
      BytesTransitive(a, b, c);
    }
  }

  lemma OnlyEntry(kvs: seq<KV>, key: seq<Byte>, p: nat)
    requires |kvs| == 1 && kvs[0].key == key && IsFirst(kvs, BytesLess, key, p)
    ensures p == 0
  {
    BytesTotal(key, key);
    hide BytesLess;
  }

  lemma FilterFacts(t: Shape, file: seq<Byte>, o: Options)
    ensures Fits32(t, file, o) && t.filter.Some? ==>
              && o.policy != null
              && var f := t.filter.value;
              && RawAt(file, f.handle, f.contents, o.crc) && |f.contents| < 0x1_0000_0000
              && FilterBlockIs(o.policy.hash, o.policy.k, f.groups, f.contents)
  {
    hide BlocksHeld, TableOk, Named, LaidOut, FooterIs, HandleBytes, RawBlock, FilterBlockIs, Filtered;
  }

  ghost predicate IndexShape(t: Shape) {
    && |t.index.kvs| == |t.blocks| && TableOk(Parts(t.blocks), t.index.kvs)
    && forall i :: 0 <= i < |t.blocks| ==> t.index.kvs[i].value == HandleBytes(t.blocks[i].handle)
  }

  lemma IndexFacts(t: Shape, file: seq<Byte>, o: Options)
    requires Fits32(t, file, o)
    ensures IndexShape(t) && Ordered(t.index.kvs, InternalLess)
  {
    hide BlocksHeld, LaidOut, FooterIs, HandleBytes, FilterHeld,
         MetaIs, InternalLess, Ordered, KeysOk, IndexOk, NoneEmpty;
    IndexSorted(Parts(t.blocks), t.index.kvs);
  }

  lemma BlockFacts(t: Shape, file: seq<Byte>, o: Options, q: nat)
    requires Fits32(t, file, o) && q < |t.blocks|
    ensures var b := t.blocks[q];
            BlockIn(b.l, b.handle, file, o.crc) && Ordered(b.l.kvs, InternalLess)
                && b.l.kvs != [] && b.handle.offset == b.at
  {
    hide LaidOut, FooterIs, HandleBytes, FilterHeld, MetaIs, InternalLess,
         Encodes, RawAt, Contents, Transitive, Named, IndexOk;
    var b := t.blocks[q];
    InternalTransitive();
    PartSorted(Parts(t.blocks), q);
    assert Parts(t.blocks)[q] == b.l.kvs;
    assert BlockHeld(b, file, o.crc);
    var contents :| Encodes(b.l, contents) && Held(file, b.at, b.handle, contents, o.crc);
    LaidOutFrom(b.l, b.at, b.handle, contents, file, o.crc);
  }

  ghost predicate HasUser(kvs: seq<KV>, k: seq<Byte>) {
    exists i :: 0 <= i < |kvs| && ExtractUserKey(kvs[i].key) == ExtractUserKey(k)
  }

  /** The filter for a block's offset was given the block's keys. */
  lemma GroupFacts(t: Shape, file: seq<Byte>, o: Options, q: nat, k: seq<Byte>)
    requires Fits32(t, file, o) && t.filter.Some? && q < |t.blocks| && HasUser(t.blocks[q].l.kvs, k)
    ensures var g, i := t.filter.value.groups, t.blocks[q].handle.offset / FILTER_BASE;
            i < |g| && ExtractUserKey(k) in UserKeys(g[i])
  {
    hide LaidOut, FooterIs, HandleBytes, MetaIs, TableOk, BlocksHeld,
         Named, ExtractUserKey, Held, FilterBlockIs, BlockIn;
    BlockFacts(t, file, o, q);
    var g, b := t.filter.value.groups, t.blocks[q];
    assert InGroup(b, g);
    var i :| 0 <= i < |b.l.kvs| && ExtractUserKey(b.l.kvs[i].key) == ExtractUserKey(k);
    var group := g[b.at / FILTER_BASE];
    var j :| 0 <= j < |group| && group[j] == b.l.kvs[i].key;
    assert UserKeys(group)[j] == ExtractUserKey(k);
  }

  // ---------------------------------------------------------------- the three ways a lookup ends

  lemma PastIndex(t: Shape, k: seq<Byte>, q: nat, good: bool) returns (p: nat)
    requires good ==> IndexShape(t) && q == |t.index.kvs| && IsFirst(t.index.kvs, InternalLess, k, q)
    ensures good ==> IsFirst(Pairs(t), InternalLess, k, p) && p == |Pairs(t)|
  {
    hide TableOk, IsFirst, InternalLess, HandleBytes, Contents;
    p := 0;
    if good {
      p := |Pairs(t)|;
      PastTheIndex(Parts(t.blocks), t.index.kvs, k);
    }
  }

  lemma InBlock(t: Shape, k: seq<Byte>, q: nat, at: nat, good: bool) returns (p: nat)
    requires good ==> IndexShape(t) && q < |t.blocks| && IsFirst(t.index.kvs, InternalLess, k, q)
                      && at <= |t.blocks[q].l.kvs| && IsFirst(t.blocks[q].l.kvs, InternalLess, k, at)
    ensures good ==>
              && IsFirst(Pairs(t), InternalLess, k, p)
              && (at < |t.blocks[q].l.kvs| ==> p < |Pairs(t)| && Pairs(t)[p] == t.blocks[q].l.kvs[at])
              && (at == |t.blocks[q].l.kvs| && p < |Pairs(t)| ==> ExtractUserKey(Pairs(t)[p].key) != ExtractUserKey(k))
  {
    hide TableOk, IsFirst, InternalLess, HandleBytes, Contents, ExtractUserKey;
    p := 0;
    if good {
      var parts := Parts(t.blocks);
      assert parts[q] == t.blocks[q].l.kvs;
      if at < |parts[q]| {
        p := Base(parts, q) + at;
        InTheBlock(parts, t.index.kvs, k, q, at);
      } else {
        p := Base(parts, q + 1);
        PastTheBlock(parts, t.index.kvs, k, q);
      }
    }
  }

  lemma {:induction false} FirstIn(kvs: seq<KV>, k: seq<Byte>, from: nat) returns (p: nat)
    requires from <= |kvs| && forall i :: 0 <= i < from ==> InternalLess(kvs[i].key, k)
    ensures p <= |kvs| && IsFirst(kvs, InternalLess, k, p)
    decreases |kvs| - from
  {
    hide InternalLess;
    p := from;
    if from < |kvs| && InternalLess(kvs[from].key, k) {
      p := FirstIn(kvs, k, from + 1);
    }
  }

  /** A block without the user key need not be looked at. */
  lemma Rejected(t: Shape, k: seq<Byte>, q: nat, good: bool) returns (p: nat)
    requires good ==>
               && IndexShape(t) && q < |t.blocks|
               && IsFirst(t.index.kvs, InternalLess, k, q) && !HasUser(t.blocks[q].l.kvs, k)
    ensures good ==> IsFirst(Pairs(t), InternalLess, k, p)
                     && (p < |Pairs(t)| ==> ExtractUserKey(Pairs(t)[p].key) != ExtractUserKey(k))
  {
    hide IndexShape, IsFirst, InternalLess, Pairs, ExtractUserKey;
    p := 0;
    if good {
      var at := FirstIn(t.blocks[q].l.kvs, k, 0);
      p := InBlock(t, k, q, at, true);
    }
  }

  class Table {
    const options: Options
    const verify: bool
    const file: seq<Byte>
    const indexBlock: seq<Byte>
    var filter: FilterBlockReader?
    ghost const t: Shape

    /** The table was opened on a file of this shape. */
    ghost predicate Reads()
      reads this, filter
    {
      && Fits32(t, file, options) && BlockIs(t.index, indexBlock)
      && (filter != null ==>
            && t.filter.Some? && filter.policy == options.policy && filter.contents == t.filter.value.contents
            && filter.Parsed())
    }

    constructor (options: Options, verify: bool, file: seq<Byte>, indexBlock: seq<Byte>, ghost t: Shape)
      ensures this.options == options && this.verify == verify
              && this.file == file && this.indexBlock == indexBlock && this.t == t
      ensures filter == null
    {
      this.options, this.verify, this.file, this.indexBlock, this.t := options, verify, file, indexBlock, t;
      filter := null;
    }

    /** Footer, index block, and the filter if there is one; null if the file is not a table. */
    static method Open(options: Options, verify: bool, file: seq<Byte>, ghost t: Shape) returns (table: Table?)
      requires OptionsOk(options)
      ensures table != null ==> fresh(table) && table.t == t && (table.filter != null ==> table.filter.Parsed())
      ensures Fits32(t, file, options) ==>
                table != null && table.Reads() && (table.filter != null <==> options.policy != null)
    {
      hide BlockIs, BlockIn, RawAt, Fits32, HandleBytes, FooterIs;
      FooterFacts(t, file, options);
      if |file| < FOOTER_SIZE {
        return null;
      }
      var footer := DecodeFooter(file[|file| - FOOTER_SIZE..], t.footer);
      if footer.None? { return null; }
      ghost var contents := ContentsOf(t.index, t.footer.index, file, options.crc);
      var index := ReadBlock(file, footer.value.index, verify, options.crc, contents);
      if index.None? { return null; }
      table := new Table(options, verify, file, index.value, t);
      table.ReadMeta(footer.value.metaindex);
    }

    /** The filter named in the metaindex, if there is a policy and it can be read. */
    method ReadMeta(metaindex: Handle)
      requires OptionsOk(options) && filter == null
      modifies this`filter
      ensures filter != null ==> fresh(filter) && filter.Parsed()
      ensures Fits32(t, file, options) && BlockIs(t.index, indexBlock) && metaindex == t.footer.metaindex ==>
                Reads() && (filter != null <==> options.policy != null)
    {
      hide BlockIs, BlockIn, RawAt, Fits32, HandleBytes, Ordered, IsFirst;
      if options.policy == null {
        return;
      }
      ghost var good := Fits32(t, file, options) && BlockIs(t.index, indexBlock) && metaindex == t.footer.metaindex;
      MetaFacts(t, file, options);
      ghost var meta := ContentsOf(t.meta, t.footer.metaindex, file, options.crc);
      var block := ReadBlock(file, metaindex, verify, options.crc, meta);
      if block.None? { return; }
      var over := NewIterator(block.value, BytesLess, t.meta);
      if !over.Over? { return; }
      var p := over.it.Seek(options.filterName);
      assert good ==> p == 0 by {
        if good { OnlyEntry(t.meta.kvs, options.filterName, p); }
      }
      if !over.it.Valid() || over.it.key != options.filterName { return; }
      ReadFilter(over.it.Value());
    }

    method ReadFilter(handleValue: seq<Byte>)
      requires OptionsOk(options) && options.policy != null && filter == null
      modifies this`filter
      ensures filter != null ==> fresh(filter) && filter.Parsed()
      ensures Fits32(t, file, options) && BlockIs(t.index, indexBlock)
              && t.filter.Some? && handleValue == HandleBytes(t.filter.value.handle)
              ==> Reads() && filter != null
    {
      hide BlockIs, RawAt, Fits32, HandleBytes, ReadHandle;
      ghost var f := if t.filter.Some? then t.filter.value else FilterAt(Handle(0, 0), [], []);
      FilterFacts(t, file, options);
      HandleRoundTrip(f.handle, []);
      assert HandleBytes(f.handle) + [] == HandleBytes(f.handle);
      var h := DecodeHandle(handleValue);
      if h.None? { return; }
      var block := ReadBlock(file, h.value.handle, verify, options.crc, f.contents);
      if block.None? { return; }
      filter := new FilterBlockReader(options.policy, block.value);
    }

    /** Where the index says the key would be. */
    method SeekIndex(k: seq<Byte>) returns (handleValue: Option<seq<Byte>>, ok: bool, ghost q: nat)
      ensures Reads() ==>
                && ok && q <= |t.index.kvs| && IsFirst(t.index.kvs, InternalLess, k, q)
                && (handleValue == if q < |t.index.kvs| then Some(t.index.kvs[q].value) else None)
    {
      hide BlockIs, Fits32, IsFirst, Ordered, InternalLess;
      q := 0;
      assert Reads() ==> Ordered(t.index.kvs, InternalLess) by { if Reads() { IndexFacts(t, file, options); } }
      var over := NewIterator(indexBlock, InternalLess, t.index);
      match over
      case BadBlock => return None, false, 0;
      case EmptyBlock => return None, true, 0;
      case Over(it) =>
        q := it.Seek(k);
        handleValue := if it.Valid() then Some(it.Value()) else None;
        ok := !it.corrupt && !it.overrun;
    }

    /** What the filter says; never no for a user key that the block holds. */
    method MayHold(handleValue: seq<Byte>, k: seq<Byte>, ghost q: nat) returns (may: bool)
      requires filter != null ==> filter.Parsed()
      ensures (&& Reads() && q < |t.blocks| && handleValue == HandleBytes(t.blocks[q].handle)
               && HasUser(t.blocks[q].l.kvs, k)) ==> may
    {
      hide BlockIs, Fits32, HandleBytes, ReadHandle, HasUser;
      may := true;
      if filter != null {
        ghost var h := if q < |t.blocks| then t.blocks[q].handle else Handle(0, 0);
        HandleRoundTrip(h, []);
        assert HandleBytes(h) + [] == HandleBytes(h);
        var d := DecodeHandle(handleValue);
        if d.Some? {
          ghost var groups := if t.filter.Some? then t.filter.value.groups else [];
          may := filter.KeyMayMatch(d.value.handle.offset, k, groups);
          assert (&& Reads() && q < |t.blocks| && handleValue == HandleBytes(h)
                  && HasUser(t.blocks[q].l.kvs, k)) ==> may by {
            if Reads() && q < |t.blocks| && handleValue == HandleBytes(h) && HasUser(t.blocks[q].l.kvs, k) {
              GroupFacts(t, file, options, q, k);
              FilterFacts(t, file, options);
            }
          }
        }
      }
    }

    /** The first entry at or after the key in one block. */
    method SeekBlock(handleValue: seq<Byte>, k: seq<Byte>, ghost q: nat)
                     returns (found: Option<KV>, ok: bool, ghost p: nat)
      ensures Reads() && q < |t.blocks| && handleValue == HandleBytes(t.blocks[q].handle) ==>
                var kvs := t.blocks[q].l.kvs;
                && ok && p <= |kvs| && IsFirst(kvs, InternalLess, k, p)
                && found == (if p < |kvs| then Some(kvs[p]) else None)
    {
      hide BlockIs, BlockIn, Fits32, HandleBytes, IsFirst, Ordered, InternalLess;
      p := 0;
      ghost var b := if q < |t.blocks| then t.blocks[q] else BlockAt(t.index, 0, Handle(0, 0));
      assert Reads() && q < |t.blocks| ==>
               BlockIn(b.l, b.handle, file, options.crc) && Ordered(b.l.kvs, InternalLess) by {
        if Reads() && q < |t.blocks| { BlockFacts(t, file, options, q); }
      }
      var over := BlockReader(file, handleValue, InternalLess, verify, options.crc, b.l, b.handle);
      match over
      case BadBlock => return None, false, 0;
      case EmptyBlock => return None, true, 0;
      case Over(it) =>
        p := it.Seek(k);
        found := if it.Valid() then Some(KV(it.key, it.Value())) else None;
        ok := !it.corrupt && !it.overrun;
    }

    /** The first entry at or after the key.  It is found whenever it has the key's user key, and nothing
        else ever is. */
    method InternalGet(k: seq<Byte>) returns (found: Option<KV>, ok: bool, ghost p: nat)
      requires filter != null ==> filter.Parsed()
      ensures Reads() ==> ok && IsFirst(Pairs(t), InternalLess, k, p)
      ensures Reads() && found.Some? ==> p < |Pairs(t)| && found.value == Pairs(t)[p]
      ensures Reads() && p < |Pairs(t)| && ExtractUserKey(Pairs(t)[p].key) == ExtractUserKey(k) ==>
                found == Some(Pairs(t)[p])
    {
      hide BlockIs, Fits32, HandleBytes, IsFirst, InternalLess, Pairs, HasUser, ExtractUserKey;
      ghost var good := Reads();
      var handleValue;
      ghost var q;
      handleValue, ok, q := SeekIndex(k);
      assert good ==> IndexShape(t) by { if good { IndexFacts(t, file, options); } }
      if handleValue.None? {
        p := PastIndex(t, k, q, good);
        return None, ok, p;
      }
      var may := MayHold(handleValue.value, k, q);
      if !may {
        p := Rejected(t, k, q, good);
        return None, ok, p;
      }
      ghost var at;
      found, ok, at := SeekBlock(handleValue.value, k, q);
      p := InBlock(t, k, q, at, good);
    }
  }
}
