/** The table builder.  Pairs arrive in order and go to the data block; a full block is written out, and its
    index entry waits for the first key of the next block, so that the separator can be short. */
module TableBuilders {
  import opened Keys
  import opened Bytes
  import opened Coding
  import opened Blocks
  import opened BlockIters
  import opened Comparators
  import opened Blooms
  import opened FilterBlocks
  import opened TableIndexes
  import opened TableFormat
  import opened Tables

  class TableBuilder {
    const options: Options
    var file: seq<Byte>
    var offset: nat
    const dataBlock: BlockBuilder
    const indexBlock: BlockBuilder
    const filterBlock: FilterBlockBuilder?
    var lastKey: seq<Byte>
    var numEntries: nat
    var closed: bool
    var pendingIndexEntry: bool
    var pendingHandle: Handle
    ghost var blocks: seq<BlockAt>

    ghost function V(): View
      reads this, dataBlock, indexBlock, filterBlock
    {
      View(file, blocks, dataBlock.l.kvs, indexBlock.l.kvs, pendingIndexEntry,
           if filterBlock == null then None else Some(filterBlock.groups + [filterBlock.pending]))
    }

    ghost predicate Objects()
      reads this, dataBlock, indexBlock, filterBlock
    {
      && OptionsOk(options) && dataBlock != indexBlock
      && dataBlock.Valid() && !dataBlock.finished && indexBlock.Valid() && !indexBlock.finished
      && (filterBlock != null <==> options.policy != null)
      && (filterBlock != null ==> filterBlock.Valid() && filterBlock.policy == options.policy)
    }

    ghost predicate Valid()
      reads this, dataBlock, indexBlock, filterBlock
    {
      && Objects() && StateOk(V(), options.crc)
      && offset == |file| && lastKey == LastKey(All(V())) && |lastKey| < 0x1_0000_0000 && numEntries == |All(V())|
      && (pendingIndexEntry && blocks != [] ==> pendingHandle == blocks[|blocks| - 1].handle)
    }

    constructor (options: Options)
      requires OptionsOk(options)
      ensures Valid() && !closed && All(V()) == [] && file == [] && this.options == options
      ensures fresh(dataBlock) && fresh(indexBlock) && (filterBlock != null ==> fresh(filterBlock))
    {
      this.options := options;
      file, offset, lastKey, numEntries, closed, pendingIndexEntry := [], 0, [], 0, false, false;
      pendingHandle := Handle(0, 0);
      dataBlock := new BlockBuilder(options.restartInterval);
      indexBlock := new BlockBuilder(1);
      var filter: FilterBlockBuilder? := null;
      if options.policy != null {
        filter := new FilterBlockBuilder(options.policy);
        filter.StartBlock(0);
      }
      filterBlock := filter;
      blocks := [];
      new;
      StartsEmpty(V(), options.crc);
    }

    /** Appends contents and trailer; the handle says where. */
    method WriteRawBlock(contents: seq<Byte>) returns (h: Handle)
      requires offset == |file|
      modifies this`file, this`offset
      ensures offset == |file| && file == old(file) + RawBlock(contents, options.crc)
      ensures Held(file, |old(file)|, h, contents, options.crc)
    {
      hide Mask, Fixed32;
      ghost var was := file;
      h := Handle(offset % WIDE, |contents| % WIDE);
      file := file + contents;
      var trailer := [NO_COMPRESSION] + Fixed32(Mask(options.crc(contents + [NO_COMPRESSION])));
      file := file + trailer;
      offset := offset + |contents| + TRAILER_SIZE;
      Appended(was, contents, options.crc, h, file);
    }

    /** Finishes a block, writes it, and resets the builder. */
    method WriteBlock(block: BlockBuilder) returns (h: Handle, ghost contents: seq<Byte>)
      requires offset == |file| && block.Valid() && !block.finished
      modifies this`file, this`offset, block
      ensures block.Valid() && !block.finished && block.l.kvs == []
      ensures offset == |file| && file == old(file) + RawBlock(contents, options.crc)
      ensures Encodes(old(block.l), contents) && Held(file, |old(file)|, h, contents, options.crc)
    {
      var raw := block.Finish();
      contents := raw;
      h := WriteRawBlock(raw);
      block.Reset();
    }

    ghost function Filters(): Option<Groups>
      reads this, filterBlock
    {
      if filterBlock == null then None else Some(filterBlock.groups + [filterBlock.pending])
    }

    method CloseFilters()
      requires filterBlock != null ==> filterBlock.Valid() && |filterBlock.groups| <= offset / FILTER_BASE
      modifies filterBlock
      ensures filterBlock != null ==> filterBlock.Valid()
      ensures Closed(old(Filters()), Filters(), offset)
    {
      if filterBlock != null {
        filterBlock.StartBlock(offset);
        assert forall i :: 0 <= i < |old(filterBlock.groups)| + 1 ==>
            (filterBlock.groups + [filterBlock.pending])[i] ==
                (old(filterBlock.groups) + [old(filterBlock.pending)])[i];
      }
    }

    /** Writes out the data block, if it holds anything, and closes the filters behind it. */
    method Flush()
      requires Valid() && !closed
      modifies this, dataBlock, filterBlock
      ensures Valid() && !closed && dataBlock.l.kvs == [] && All(V()) == old(All(V()))
    {
      hide StateOk, Encodes, Held, RawBlock, All, Closed, Flushed, BlockBuilder.Valid, FilterBlockBuilder.Valid;
      dataBlock.EmptyIs();
      if dataBlock.buffer == [] {
        return;
      }
      ghost var v, l := V(), dataBlock.l;
      NotPending(v, options.crc);
      ghost var contents;
      pendingHandle, contents := WriteBlock(dataBlock);
      pendingIndexEntry := true;
      ghost var b := BlockAt(l, |v.file|, pendingHandle);
      blocks := blocks + [b];
      FiltersBehind(v, options.crc, RawBlock(contents, options.crc));
      CloseFilters();
      StateFlushed(v, b, contents, Filters(), options.crc);
      FlushedIs(v, b, RawBlock(contents, options.crc), Filters(), V());
    }

    /** The index entry of the last block written. */
    method AddIndexEntry(sep: seq<Byte>)
      requires indexBlock.Valid() && !indexBlock.finished && |sep| < 0x1_0000_0000
      modifies this`pendingIndexEntry, indexBlock
      ensures indexBlock.Valid() && !indexBlock.finished && !pendingIndexEntry
      ensures indexBlock.l.kvs == old(indexBlock.l.kvs) + [KV(sep, HandleBytes(pendingHandle))]
    {
      hide BlockBuilder.Valid, HandleBytes, ReadHandle;
      var handle := EncodeHandle(pendingHandle, []);
      HandleRoundTrip(pendingHandle, []);
      assert handle == HandleBytes(pendingHandle);
      indexBlock.Add(sep, handle);
      pendingIndexEntry := false;
    }

    method AddPair(key: seq<Byte>, value: seq<Byte>)
      requires dataBlock.Valid() && !dataBlock.finished && |key| < 0x1_0000_0000 && |value| < 0x1_0000_0000
      requires filterBlock != null ==> filterBlock.Valid()
      modifies this`lastKey, this`numEntries, dataBlock, filterBlock
      ensures dataBlock.Valid() && !dataBlock.finished && dataBlock.l.kvs == old(dataBlock.l.kvs) + [KV(key, value)]
      ensures filterBlock != null ==> filterBlock.Valid()
      ensures lastKey == key && numEntries == old(numEntries) + 1 && Filters() == AddTo(old(Filters()), key)
    {
      hide BlockBuilder.Valid, FilterBlockBuilder.Valid;
      if filterBlock != null {
        filterBlock.AddKey(key);
        assert (old(filterBlock.groups)
               + [old(filterBlock.pending)])[|filterBlock.groups| := old(filterBlock.pending) + [key]]
            == filterBlock.groups + [filterBlock.pending];
      }
      lastKey := key;
      numEntries := numEntries + 1;
      dataBlock.Add(key, value);
    }

    /** Appends a pair after all those added before. */
    method Add(key: seq<Byte>, value: seq<Byte>)
      requires Valid() && !closed && 8 <= |key| < 0x1_0000_0000 && |value| < 0x1_0000_0000
      requires All(V()) != [] ==> InternalLess(lastKey, key)
      modifies this, dataBlock, indexBlock, filterBlock
      ensures Valid() && !closed && All(V()) == old(All(V())) + [KV(key, value)]
    {
      hide StateOk, All, WithPair, InternalLess, LastKey, HandleBytes,
           AddTo, BlockBuilder.Valid, FilterBlockBuilder.Valid;
      ghost var v := V();
      var sep := lastKey;
      if pendingIndexEntry {
        LastLong(v, options.crc);
        sep := InternalSeparator(lastKey, key);
        AddIndexEntry(sep);
      }
      AddPair(key, value);
      Paired(v, KV(key, value), sep, V(), pendingHandle, options.crc);
      var estimated := dataBlock.CurrentSizeEstimate();
      if estimated >= options.blockSize {
        Flush();
      }
    }

    /** The filter block, if there is a policy. */
    method WriteFilter() returns (h: Handle, ghost f: Option<FilterAt>)
      requires Objects() && offset == |file| && StateOk(V(), options.crc)
      modifies this`file, this`offset, filterBlock
      ensures offset == |file| && old(file) <= file
      ensures f.Some? <==> options.policy != null
      ensures f.Some? ==> f.value.handle == h && FilterHeld(f.value, blocks, file, options)
    {
      hide BlockBuilder.Valid, StateOk, FilterHeld, RawBlock, FilterBlockIs, Filtered, Held;
      h, f := Handle(0, 0), None;
      if filterBlock != null {
        FiltersComplete(V(), filterBlock.groups, filterBlock.pending, options.crc);
        var contents := filterBlock.Finish();
        ghost var at := |file|;
        h := WriteRawBlock(contents);
        f := Some(FilterAt(h, contents, filterBlock.groups));
        FilterHeldFrom(f.value, at, blocks, file, options);
      }
    }

    /** The metaindex block: the name of the filter policy and where the filter is. */
    method WriteMeta(filterHandle: Handle, ghost f: Option<FilterAt>) returns (h: Handle, ghost meta: Layout)
      requires OptionsOk(options) && offset == |file|
      requires f.Some? <==> options.policy != null
      requires f.Some? ==> f.value.handle == filterHandle
      modifies this`file, this`offset
      ensures offset == |file| && old(file) <= file
      ensures MetaIs(meta.kvs, f, options) && LaidOut(meta, h, file, options.crc)
    {
      hide BlockBuilder.Valid, HandleBytes, ReadHandle, RawBlock, Held, Encodes, LaidOut;
      var metaBlock := new BlockBuilder(options.restartInterval);
      if options.policy != null {
        var handle := EncodeHandle(filterHandle, []);
        HandleRoundTrip(filterHandle, []);
        assert handle == HandleBytes(filterHandle);
        metaBlock.Add(options.filterName, handle);
      }
      meta := metaBlock.l;
      ghost var at := |file|;
      ghost var contents;
      h, contents := WriteBlock(metaBlock);
      LaidOutFrom(meta, at, h, contents, file, options.crc);
    }

    /** The index block, completed with an entry for the last data block. */
    method WriteIndex(ghost v: View) returns (h: Handle, ghost index: Layout)
      requires indexBlock.Valid() && !indexBlock.finished && offset == |file| && v.data == [] && StateOk(v, options.crc)
      requires v.blocks == blocks && v.seps == indexBlock.l.kvs && v.pending == pendingIndexEntry
      requires lastKey == LastKey(All(v)) && |lastKey| < 0x1_0000_0000
      requires pendingIndexEntry && blocks != [] ==> pendingHandle == blocks[|blocks| - 1].handle
      modifies this`file, this`offset, this`pendingIndexEntry, indexBlock
      ensures offset == |file| && old(file) <= file
      ensures TableOk(Parts(blocks), index.kvs) && Named(blocks, index.kvs) && LaidOut(index, h, file, options.crc)
    {
      hide BlockBuilder.Valid, HandleBytes, RawBlock, Held, Encodes,
           LaidOut, StateOk, All, LastKey, TableOk, Named, BytesLess;
      var sep := lastKey;
      if pendingIndexEntry {
        LastLong(v, options.crc);
        sep := InternalSuccessor(lastKey);
        AddIndexEntry(sep);
      }
      IndexComplete(v, sep, options.crc);
      index := indexBlock.l;
      ghost var at := |file|;
      ghost var contents;
      h, contents := WriteBlock(indexBlock);
      LaidOutFrom(index, at, h, contents, file, options.crc);
    }

    /** Writes the last data block, the filter, the metaindex, the index and the footer. */
    method Finish() returns (ghost t: Shape)
      requires Valid() && !closed
      modifies this, dataBlock, indexBlock, filterBlock
      ensures closed && TableIs(t, file, options) && Pairs(t) == old(All(V()))
    {
      hide BlockBuilder.Valid, FilterBlockBuilder.Valid, StateOk, All, LaidOut, FilterHeld, MetaIs, TableIs;
      Flush();
      closed := true;
      ghost var v := V();
      ghost var f, meta, index;
      var filterHandle, metaHandle, indexHandle;
      filterHandle, f := WriteFilter();
      ghost var afterFilter := file;
      metaHandle, meta := WriteMeta(filterHandle, f);
      ghost var afterMeta := file;
      indexHandle, index := WriteIndex(v);
      ghost var afterIndex := file;
      var footer := EncodeFooter(Footer(metaHandle, indexHandle));
      file := file + footer;
      offset := offset + |footer|;
      t := Shape(blocks, index, meta, f, Footer(metaHandle, indexHandle));
      Assembled(v, t, afterFilter, afterMeta, afterIndex, footer, options);
    }
  }

  /** What was written piece by piece is a table. */
  lemma Assembled(v: View, t: Shape, afterFilter: seq<Byte>, afterMeta: seq<Byte>,
                  afterIndex: seq<Byte>, footer: seq<Byte>, o: Options)
    requires StateOk(v, o.crc) && v.data == [] && t.blocks == v.blocks
    requires v.file <= afterFilter <= afterMeta <= afterIndex
    requires t.filter.Some? ==> o.policy != null && FilterHeld(t.filter.value, t.blocks, afterFilter, o)
    requires MetaIs(t.meta.kvs, t.filter, o) && LaidOut(t.meta, t.footer.metaindex, afterMeta, o.crc)
    requires TableOk(Parts(t.blocks), t.index.kvs) && Named(t.blocks, t.index.kvs)
             && LaidOut(t.index, t.footer.index, afterIndex, o.crc)
    requires FooterIs(t.footer, footer)
    ensures TableIs(t, afterIndex + footer, o) && Pairs(t) == All(v)
  {
    hide BlockHeld, BlocksHeld, LaidOut, FilterHeld, MetaIs, TableOk,
         Named, NoneEmpty, KeysOk, SepsOk, FilterOk, Contents;
    var file := afterIndex + footer;
    BlocksHeldGrows(t.blocks, v.file, file, o.crc);
    LaidOutGrows(t.meta, t.footer.metaindex, afterMeta, file, o.crc);
    LaidOutGrows(t.index, t.footer.index, afterIndex, file, o.crc);
    if t.filter.Some? {
      FilterHeldGrows(t.filter.value, t.blocks, afterFilter, file, o);
    }
    FooterSize(t.footer, footer);
    assert file[|file| - FOOTER_SIZE..] == footer;
    AllHere(v);
  }

  lemma FooterSize(f: Footer, s: seq<Byte>)
    requires FooterIs(f, s)
    ensures |s| == FOOTER_SIZE
  {
    hide HandleBytes, Fixed32;
  }

  lemma NotPending(v: View, crc: Crc)
    requires StateOk(v, crc) && v.data != []
    ensures !v.pending
  {
    hide BlocksHeld, NoneEmpty, KeysOk, FilterOk, All, IndexOk, Named;
  }

  /** The filters are no further than the file. */
  lemma FiltersBehind(v: View, crc: Crc, raw: seq<Byte>)
    requires StateOk(v, crc)
    ensures v.groups.Some? ==> |v.groups.value| - 1 <= |v.file + raw| / FILTER_BASE
  {
    hide BlocksHeld, NoneEmpty, KeysOk, SepsOk, All, Filtered, AllIn;
  }

  lemma FlushedIs(v: View, b: BlockAt, raw: seq<Byte>, groups: Option<Groups>, w: View)
    ensures w == View(v.file + raw, v.blocks + [b], [], v.seps, true, groups) ==> w == Flushed(v, b, raw, groups)
  {
  }

  /** While a block lacks its index entry, the last key is a key that was added. */
  lemma LastLong(v: View, crc: Crc)
    requires StateOk(v, crc) && v.pending
    ensures All(v) != [] && |LastKey(All(v))| >= 8 && v.blocks != []
  {
    hide BlocksHeld, FilterOk, All, IndexOk, Named, SortedBy;
    LastOfAll(v);
  }

  lemma Paired(v: View, kv: KV, sep: seq<Byte>, w: View, handle: Handle, crc: Crc)
    requires StateOk(v, crc) && |kv.key| >= 8
    requires All(v) != [] ==> InternalLess(LastKey(All(v)), kv.key)
    requires v.pending ==> |sep| >= 8 && Separates(sep, LastKey(All(v)), kv.key)
    requires v.pending && v.blocks != [] ==> handle == v.blocks[|v.blocks| - 1].handle
    requires w.file == v.file && w.blocks == v.blocks && w.data == v.data + [kv] && !w.pending
    requires w.seps == if v.pending then v.seps + [KV(sep, HandleBytes(handle))] else v.seps
    requires w.groups == AddTo(v.groups, kv.key)
    ensures StateOk(w, crc) && All(w) == All(v) + [kv] && LastKey(All(w)) == kv.key
  {
    hide StateOk, All, InternalLess, HandleBytes;
    if v.pending {
      LastLong(v, crc);
    }
    var s := if v.pending then sep else seq(8, _ => 0);
    assert w == WithPair(v, kv, s);
    StateWithPair(v, kv, s, crc);
  }

  lemma Appended(was: seq<Byte>, contents: seq<Byte>, crc: Crc, h: Handle, file: seq<Byte>)
    requires h == Handle(|was| % WIDE, |contents| % WIDE)
    requires file == was + contents + ([NO_COMPRESSION] + Fixed32(Mask(crc(contents + [NO_COMPRESSION]))))
    ensures file == was + RawBlock(contents, crc) && Held(file, |was|, h, contents, crc)
  {
    hide Mask, Fixed32;
    assert file == was + RawBlock(contents, crc);
    hide RawBlock, RawAt;
    if |file| < WIDE {
      RawAppended(was, h, contents, crc);
    }
  }

  lemma StartsEmpty(v: View, crc: Crc)
    requires v.file == [] && v.blocks == [] && v.data == [] && v.seps == [] && !v.pending
    requires v.groups.Some? ==> v.groups.value == [[]]
    ensures StateOk(v, crc) && All(v) == []
  {
  }
}
