/** What is built into a table is found in it. */
module TableRoundTrip {
  import opened Keys
  import opened Bytes
  import opened Blocks
  import opened BlockIters
  import opened Comparators
  import opened TableIndexes
  import opened TableFormat
  import opened Tables
  import opened TableBuilders
  import opened TableReaders

  /** Pairs as a memtable or a compaction yields them. */
  ghost predicate Buildable(kvs: seq<KV>) {
    KeysOk(kvs) && forall i :: 0 <= i < |kvs| ==> |kvs[i].key| < 0x1_0000_0000 && |kvs[i].value| < 0x1_0000_0000
  }

  /** Adds the pairs one by one. */
  method BuildTable(options: Options, kvs: seq<KV>) returns (file: seq<Byte>, ghost t: Shape)
    requires OptionsOk(options) && Buildable(kvs)
    ensures TableIs(t, file, options) && Pairs(t) == kvs
  {
    hide TableIs, Pairs, All, InternalLess, TableBuilder.V, TableBuilder.Valid;
    var builder := new TableBuilder(options);
    var i := 0;
    while i < |kvs|
      invariant i <= |kvs| && builder.Valid() && !builder.closed && All(builder.V()) == kvs[..i]
      invariant fresh(builder) && fresh(builder.dataBlock) && fresh(builder.indexBlock)
      invariant builder.filterBlock != null ==> fresh(builder.filterBlock)
    {
      LastAdded(builder, kvs, i);
      builder.Add(kvs[i].key, kvs[i].value);
      assert kvs[..i + 1] == kvs[..i] + [kvs[i]];
      i := i + 1;
    }
    assert kvs[..i] == kvs;
    t := builder.Finish();
    file := builder.file;
  }

  lemma LastAdded(builder: TableBuilder, kvs: seq<KV>, i: nat)
    requires builder.Valid() && Buildable(kvs) && i < |kvs| && All(builder.V()) == kvs[..i]
    ensures All(builder.V()) != [] ==> InternalLess(builder.lastKey, kvs[i].key)
    ensures 8 <= |kvs[i].key| < 0x1_0000_0000 && |kvs[i].value| < 0x1_0000_0000
  {
    hide All, InternalLess, TableBuilder.V, StateOk;
  }

  /** Building a table and looking a key up in its bytes: the first pair at or after the key is found
      whenever it has the key's user key, and nothing else is ever found. */
  method BuildThenGet(options: Options, verify: bool, kvs: seq<KV>, k: seq<Byte>)
    returns (file: seq<Byte>, found: Option<KV>, ok: bool, ghost p: nat)
    requires OptionsOk(options) && Buildable(kvs)
    ensures |file| < 0x1_0000_0000 ==> ok && IsFirst(kvs, InternalLess, k, p)
    ensures |file| < 0x1_0000_0000 && found.Some? ==> p < |kvs| && found.value == kvs[p]
    ensures |file| < 0x1_0000_0000 && p < |kvs| && ExtractUserKey(kvs[p].key) == ExtractUserKey(k) ==>
              found == Some(kvs[p])
  {
    hide TableIs, Pairs, InternalLess, IsFirst, ExtractUserKey, Buildable, Table.Reads;
    ghost var t;
    file, t := BuildTable(options, kvs);
    var table := Table.Open(options, verify, file, t);
    if table == null {
      return file, None, false, 0;
    }
    found, ok, p := table.InternalGet(k);
  }
}
