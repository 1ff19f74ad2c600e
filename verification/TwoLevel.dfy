/** TwoLevelIterator. */
module TwoLevel {
  // A cursor over the concatenation of blocks that an index leads to.  Tables use it over their data blocks,
  // levels over their files.

  import opened Keys
  import opened Versions
  import opened Lookup
  import opened Cursors

  function Flat(blocks: seq<seq<Entry>>): seq<Entry> {
    if blocks == [] then [] else Flat(blocks[..|blocks| - 1]) + blocks[|blocks| - 1]
  }

  /** How many entries come before block `b`. */
  ghost function Offset(blocks: seq<seq<Entry>>, b: nat): nat
    requires b <= |blocks|
  {
    |Flat(blocks[..b])|
  }

  lemma {:induction false} FlatFrom(blocks: seq<seq<Entry>>, b: nat)
    requires b <= |blocks|
    ensures Flat(blocks[..b]) <= Flat(blocks)
    ensures b < |blocks| ==> Flat(blocks[..b + 1]) == Flat(blocks[..b]) + blocks[b]
  {
    if b < |blocks| {
      assert blocks[..b + 1][..b] == blocks[..b];
      var n := |blocks| - 1;
      if b < n {
        assert blocks[..n][..b] == blocks[..b];
        FlatFrom(blocks[..n], b);
      }
    } else {
      assert blocks[..b] == blocks;
    }
  }

  lemma OffsetStep(blocks: seq<seq<Entry>>, b: nat)
    requires b < |blocks|
    ensures Offset(blocks, b + 1) == Offset(blocks, b) + |blocks[b]| <= |Flat(blocks)|
    ensures forall p :: 0 <= p < |blocks[b]| ==> Flat(blocks)[Offset(blocks, b) + p] == blocks[b][p]
  {
    FlatFrom(blocks, b);
    FlatFrom(blocks, b + 1);
    var upTo := Flat(blocks[..b + 1]);
    forall p | 0 <= p < |blocks[b]| ensures Flat(blocks)[Offset(blocks, b) + p] == blocks[b][p] {
      assert upTo[Offset(blocks, b) + p] == blocks[b][p];
    }
  }

  lemma OffsetEnds(blocks: seq<seq<Entry>>)
    ensures Offset(blocks, 0) == 0 && Offset(blocks, |blocks|) == |Flat(blocks)|
  {
    assert blocks[..|blocks|] == blocks;
  }

  lemma {:induction false} Locate(blocks: seq<seq<Entry>>, j: nat) returns (b: nat, p: nat)
    requires j < |Flat(blocks)|
    ensures b < |blocks| && p < |blocks[b]| && Offset(blocks, b) + p == j && Flat(blocks)[j] == blocks[b][p]
  {
    var n := |blocks| - 1;
    if j < |Flat(blocks[..n])| {
      b, p := Locate(blocks[..n], j);
      assert blocks[..n][..b] == blocks[..b];
    } else {
      b, p := n, j - |Flat(blocks[..n])|;
    }
  }

  /** Each index key is at or after its block and before everything behind the block. */
  ghost predicate IndexOk(index: seq<IKey>, blocks: seq<seq<Entry>>) {
    && |index| == |blocks|
    && forall b, c, e :: 0 <= b < |blocks| && 0 <= c < |blocks| && e in blocks[c] ==>
         if b < c then Less(index[b], e.Internal()) else !Less(index[b], e.Internal())
  }

  /** The first index key at or after the target. */
  function IndexSeek(index: seq<IKey>, target: IKey): (b: nat)
    ensures b <= |index|
    ensures forall c :: 0 <= c < b ==> Less(index[c], target)
    ensures b < |index| ==> !Less(index[b], target)
  {
    if index == [] || !Less(index[0], target) then 0 else 1 + IndexSeek(index[1..], target)
  }

  /** A position that splits the run at the target is the one a seek finds. */
  lemma SeekIsSplit(es: seq<Entry>, target: IKey, i: nat)
    requires i <= |es| && Sorted(es)
    requires forall j :: 0 <= j < i ==> Less(es[j].Internal(), target)
    requires i < |es| ==> !Less(es[i].Internal(), target)
    ensures FirstAtOrAfter(es, target) == i
  {
    var r := FirstAtOrAfter(es, target);
    assert r < |es| ==> !Less(es[r].Internal(), target);
    assert i < |es| ==> !Less(es[i].Internal(), target);
  }

  /** Seeking the index and then the block seeks the whole run. */
  lemma SeekThroughIndex(index: seq<IKey>, blocks: seq<seq<Entry>>, target: IKey)
    requires IndexOk(index, blocks) && Sorted(Flat(blocks))
    ensures var b := IndexSeek(index, target);
            FirstAtOrAfter(Flat(blocks), target) ==
            if b == |blocks| then |Flat(blocks)| else Offset(blocks, b) + FirstAtOrAfter(blocks[b], target)
  {
    var all, b := Flat(blocks), IndexSeek(index, target);
    OffsetEnds(blocks);
    var i := |all|;
    if b < |blocks| {
      OffsetStep(blocks, b);
      i := Offset(blocks, b) + FirstAtOrAfter(blocks[b], target);
    }
    forall j | 0 <= j < i ensures Less(all[j].Internal(), target) {
      var c, p := Locate(blocks, j);
      assert all[j] in blocks[c];
      if c == b {
        assert p < FirstAtOrAfter(blocks[b], target);
      } else {
        OffsetOrder(blocks, b, c);
        assert !Less(index[c], all[j].Internal());
      }
    }
    if i < |all| {
      var c, p := Locate(blocks, i);
      assert all[i] in blocks[c];
      OffsetOrder(blocks, c, b);
      if c == b {
        assert p == FirstAtOrAfter(blocks[b], target);
      } else {
        assert Less(index[b], all[i].Internal());
      }
    }
    SeekIsSplit(all, target, i);
  }

  lemma {:induction false} OffsetOrder(blocks: seq<seq<Entry>>, a: nat, b: nat)
    requires a <= |blocks| && b <= |blocks|
    ensures a < b ==> Offset(blocks, a) + |blocks[a]| <= Offset(blocks, b)
    ensures a <= b ==> Offset(blocks, a) <= Offset(blocks, b)
    decreases b
  {
    if a < b {
      OffsetOrder(blocks, a, b - 1);
      OffsetStep(blocks, b - 1);
    }
  }

  /** The files of a disjoint level, indexed by their largest keys. */
  lemma {:induction false} LevelIndex(files: Level)
    requires FilesOk(files) && Disjoint(files)
    ensures IndexOk(seq(|files|, i requires 0 <= i < |files| => files[i].largest),
                    seq(|files|, i requires 0 <= i < |files| => files[i].entries))
    ensures Sorted(Flat(seq(|files|, i requires 0 <= i < |files| => files[i].entries)))
  {
    var index := seq(|files|, i requires 0 <= i < |files| => files[i].largest);
    var blocks := seq(|files|, i requires 0 <= i < |files| => files[i].entries);
    forall b, c, e: Entry | 0 <= b < |blocks| && 0 <= c < |blocks| && e in blocks[c]
      ensures if b < c then Less(index[b], e.Internal()) else !Less(index[b], e.Internal())
    {
      EntryInRange(files[c], e);
      FileBounds(files[b]);
    }
    forall i, j | 0 <= i < j < |Flat(blocks)| ensures Less(Flat(blocks)[i].Internal(), Flat(blocks)[j].Internal()) {
      var b, p := Locate(blocks, i);
      var c, q := Locate(blocks, j);
      OffsetOrder(blocks, c, b);
      assert Flat(blocks)[i] in blocks[b] && Flat(blocks)[j] in blocks[c];
      assert FileOk(files[b]) && FileOk(files[c]);
      if b < c {
        assert Less(index[b], Flat(blocks)[j].Internal()) && !Less(index[b], Flat(blocks)[i].Internal());
      }
    }
  }

  class TwoLevelIterator {
    const indexKeys: seq<IKey>
    const blocks: seq<seq<Entry>>
    /** The index iterator. */
    var index: nat
    /** The data iterator, if any: the block it was made for and its position there. */
    var dataBlock: Option<nat>
    var dataPos: nat

    constructor (indexKeys: seq<IKey>, blocks: seq<seq<Entry>>)
      requires IndexOk(indexKeys, blocks) && Sorted(Flat(blocks))
      ensures Valid() && this.indexKeys == indexKeys && this.blocks == blocks && Pos() == |Flat(blocks)|
    {
      this.indexKeys, this.blocks := indexKeys, blocks;
      index, dataBlock, dataPos := |blocks|, None, 0;
    }

    /** Between operations the data iterator is either gone or on an entry of the indexed block. */
    ghost predicate Valid()
      reads this
    {
      && IndexOk(indexKeys, blocks) && Sorted(Flat(blocks))
      && index <= |blocks|
      && (dataBlock.Some? ==> dataBlock.value == index < |blocks| && dataPos < |blocks[index]|)
    }

    predicate HasData()
      reads this
    {
      dataBlock.Some? && dataBlock.value < |blocks| && dataPos < |blocks[dataBlock.value]|
    }

    /** The position in the concatenation of the blocks. */
    ghost function Pos(): nat
      requires index <= |blocks| && (dataBlock.Some? ==> dataBlock.value == index)
      reads this
    {
      if dataBlock.Some? then Offset(blocks, index) + dataPos else |Flat(blocks)|
    }

    method Current() returns (e: Entry)
      requires Valid() && dataBlock.Some?
      ensures Pos() < |Flat(blocks)| && e == Flat(blocks)[Pos()]
    {
      OffsetStep(blocks, index);
      e := blocks[index][dataPos];
    }

    /** Makes the data iterator belong to the indexed block; one that already does is kept. */
    method InitDataBlock()
      requires index <= |blocks|
      modifies this`dataBlock, this`dataPos
      ensures dataBlock == if index < |blocks| then Some(index) else None
      ensures old(dataBlock) == Some(index) ==> dataPos == old(dataPos)
    {
      if index == |blocks| {
        dataBlock := None;
      } else if dataBlock != Some(index) {
        dataBlock, dataPos := Some(index), |blocks[index]|;
      }
    }

    /** Reaching for position `t`: the data iterator is there, or at the end of a block that ends
        there. */
    ghost predicate Forwards(t: nat)
      reads this
    {
      && index <= |blocks|
      && dataBlock == (if index < |blocks| then Some(index) else None)
      && (index < |blocks| ==> dataPos <= |blocks[index]| && Offset(blocks, index) + dataPos == t)
      && (index == |blocks| ==> t == |Flat(blocks)|)
    }

    /** Reaching for the entry before position `t`: the data iterator is on it, or fell off the front
        of a block that starts there. */
    ghost predicate Backwards(t: nat)
      reads this
    {
      && index <= |blocks|
      && dataBlock == (if index < |blocks| then Some(index) else None)
      && (index < |blocks| ==>
            dataPos <= |blocks[index]|
            && t == Offset(blocks, index) + (if dataPos < |blocks[index]| then dataPos + 1 else 0))
      && (index == |blocks| ==> t == 0)
    }

    method SkipEmptyDataBlocksForward(ghost t: nat)
      requires IndexOk(indexKeys, blocks) && Sorted(Flat(blocks)) && Forwards(t)
      modifies this`index, this`dataBlock, this`dataPos
      ensures Valid() && Pos() == t
      ensures dataBlock.Some? <==> t < |Flat(blocks)|
    {
      while !HasData()
        invariant Forwards(t)
        decreases |blocks| - index
      {
        if index == |blocks| {
          dataBlock := None;
          return;
        }
        OffsetStep(blocks, index);
        index := index + 1;
        InitDataBlock();
        if dataBlock.Some? {
          dataPos := 0;
        } else {
          OffsetEnds(blocks);
        }
      }
      OffsetStep(blocks, index);
    }

    method SkipEmptyDataBlocksBackward(ghost t: nat)
      requires IndexOk(indexKeys, blocks) && Sorted(Flat(blocks)) && Backwards(t)
      modifies this`index, this`dataBlock, this`dataPos
      ensures Valid() && Pos() == Back(|Flat(blocks)|, t)
      ensures dataBlock.Some? <==> t > 0
    {
      while !HasData()
        invariant Backwards(t)
        decreases if index == |blocks| then 0 else index + 1
      {
        if index == |blocks| {
          dataBlock := None;
          return;
        }
        OffsetEnds(blocks);
        index := if index == 0 then |blocks| else index - 1;
        InitDataBlock();
        if dataBlock.Some? {
          OffsetStep(blocks, index);
          dataPos := if |blocks[index]| == 0 then 0 else |blocks[index]| - 1;
        }
      }
      OffsetStep(blocks, index);
    }

    method Seek(target: IKey)
      requires Valid()
      modifies this`index, this`dataBlock, this`dataPos
      ensures Valid() && Pos() == FirstAtOrAfter(Flat(blocks), target)
    {
      index := IndexSeek(indexKeys, target);
      InitDataBlock();
      if dataBlock.Some? {
        dataPos := FirstAtOrAfter(blocks[index], target);
      }
      SeekThroughIndex(indexKeys, blocks, target);
      SkipEmptyDataBlocksForward(FirstAtOrAfter(Flat(blocks), target));
    }

    method SeekToFirst()
      requires Valid()
      modifies this`index, this`dataBlock, this`dataPos
      ensures Valid() && Pos() == 0
    {
      index := 0;
      InitDataBlock();
      if dataBlock.Some? {
        dataPos := 0;
      }
      OffsetEnds(blocks);
      SkipEmptyDataBlocksForward(0);
    }

    method SeekToLast()
      requires Valid()
      modifies this`index, this`dataBlock, this`dataPos
      ensures Valid() && Pos() == Final(|Flat(blocks)|)
    {
      index := if |blocks| == 0 then 0 else |blocks| - 1;
      InitDataBlock();
      OffsetEnds(blocks);
      if dataBlock.Some? {
        OffsetStep(blocks, index);
        dataPos := if |blocks[index]| == 0 then 0 else |blocks[index]| - 1;
      }
      SkipEmptyDataBlocksBackward(|Flat(blocks)|);
    }

    method Next()
      requires Valid() && dataBlock.Some?
      modifies this`index, this`dataBlock, this`dataPos
      ensures Valid() && Pos() == old(Pos()) + 1
    {
      dataPos := dataPos + 1;
      SkipEmptyDataBlocksForward(old(Pos()) + 1);
    }

    method Prev()
      requires Valid() && dataBlock.Some?
      modifies this`index, this`dataBlock, this`dataPos
      ensures Valid() && Pos() == Back(|Flat(blocks)|, old(Pos()))
    {
      dataPos := if dataPos == 0 then |blocks[index]| else dataPos - 1;
      SkipEmptyDataBlocksBackward(old(Pos()));
    }
  }
}
