/** The record log: fragments inside 32 KB blocks, and their writer.  A block with no room for a header is
    padded, and a record that does not fit goes on in the next block. */
module LogFormat {
  import opened Keys
  import opened Bytes

  const BLOCK: nat := 32768
  const HEADER: nat := 7

  /** The offset of a position in its block. */
  function Within(p: nat): (r: nat)
    ensures r < BLOCK
  {
    p % 32768
  }

  const ZERO_TYPE: Byte := 0
  const FULL_TYPE: Byte := 1
  const FIRST_TYPE: Byte := 2
  const MIDDLE_TYPE: Byte := 3
  const LAST_TYPE: Byte := 4
  /** What the physical reader returns beside record types. */
  const EOF: Byte := 5
  const BAD_RECORD: Byte := 6

  // ---------------------------------------------------------------- the format

  /** A header and its payload.  The checksum covers the type and the payload. */
  ghost function Fragment(crc: seq<Byte> -> Word, t: Byte, data: seq<Byte>): (r: seq<Byte>)
    requires |data| <= 0xffff
    ensures |r| == HEADER + |data|
  {
    Fixed32(Mask(crc([t] + data))) + [|data| % 256, |data| / 256, t] + data
  }

  /** Fewer than seven bytes at the end of a block are filled with zeros. */
  ghost function Padding(off: nat): (r: seq<Byte>)
    requires off < BLOCK
    ensures |r| < HEADER
  {
    if BLOCK - off < HEADER then seq(BLOCK - off, i => 0) else []
  }

  ghost function Start(off: nat): (r: nat)
    requires off < BLOCK
    ensures r + HEADER <= BLOCK
  {
    if BLOCK - off < HEADER then 0 else off
  }

  function TypeOf(begin: bool, end: bool): Byte {
    if begin && end then FULL_TYPE else if begin then FIRST_TYPE else if end then LAST_TYPE else MIDDLE_TYPE
  }

  /** How much of the data goes into the fragment at offset `off` of a block. */
  ghost function Room(off: nat, data: seq<Byte>): (n: nat)
    requires off < BLOCK
    ensures n <= |data| && Start(off) + HEADER + n <= BLOCK
  {
    var avail := BLOCK - Start(off) - HEADER;
    if |data| < avail then |data| else avail
  }

  /** The first fragment written for the data at offset `off`. */
  ghost function Piece(crc: seq<Byte> -> Word, off: nat, data: seq<Byte>, begin: bool): seq<Byte>
    requires off < BLOCK
  {
    var n := Room(off, data);
    Padding(off) + Fragment(crc, TypeOf(begin, n == |data|), data[..n])
  }

  ghost function NextOff(off: nat, data: seq<Byte>): (r: nat)
    requires off < BLOCK
    ensures r < BLOCK
  {
    Within(Start(off) + HEADER + Room(off, data))
  }

  /** What a record adds to a log whose length is `off` modulo the block size. */
  ghost function Encoded(crc: seq<Byte> -> Word, off: nat, data: seq<Byte>, begin: bool): seq<Byte>
    requires off < BLOCK
    decreases |data|, if BLOCK - off == HEADER then 1 else 0
  {
    var n := Room(off, data);
    if n == |data| then Piece(crc, off, data, begin)
    else Piece(crc, off, data, begin) + Encoded(crc, NextOff(off, data), data[n..], false)
  }

  /** The log holding the records. */
  ghost function Log(crc: seq<Byte> -> Word, records: seq<seq<Byte>>): seq<Byte> {
    if records == [] then []
    else
      var before := Log(crc, records[..|records| - 1]);
      before + Encoded(crc, Within(|before|), records[|records| - 1], true)
  }

  // ---------------------------------------------------------------- the writer

  class Writer {
    const crc: seq<Byte> -> Word
    var dest: seq<Byte>
    var blockOffset: nat

    /** Opens a new log, or one that already holds bytes. */
    constructor (crc: seq<Byte> -> Word, dest: seq<Byte>)
      ensures Valid() && this.dest == dest && this.crc == crc
    {
      this.crc, this.dest := crc, dest;
      blockOffset := Within(|dest|);
    }

    ghost predicate Valid()
      reads this
    {
      blockOffset <= BLOCK && Within(blockOffset) == Within(|dest|)
    }

    method EmitPhysicalRecord(t: Byte, data: seq<Byte>)
      requires |data| <= 0xffff && blockOffset + HEADER + |data| <= BLOCK
      modifies this`dest, this`blockOffset
      ensures dest == old(dest) + Fragment(crc, t, data)
      ensures blockOffset == old(blockOffset) + HEADER + |data|
    {
      var header := Fixed32(Mask(crc([t] + data))) + [|data| % 256, |data| / 256, t];
      dest := dest + header;
      dest := dest + data;
      blockOffset := blockOffset + HEADER + |data|;
    }

    /** Leaves room for a header in the block, starting a new one if necessary. */
    method FillBlock()
      requires Valid()
      modifies this`dest, this`blockOffset
      ensures Valid() && BLOCK - blockOffset >= HEADER
      ensures dest == old(dest) + Padding(Within(old(|dest|)))
      ensures blockOffset == Start(Within(old(|dest|)))
    {
      var leftover := BLOCK - blockOffset;
      if leftover < HEADER {
        if leftover > 0 {
          dest := dest + seq(leftover, i => 0);
        }
        blockOffset := 0;
      }
    }

    /** Writes the next fragment of a record. */
    method EmitPiece(data: seq<Byte>, begin: bool) returns (rest: seq<Byte>, end: bool)
      requires Valid()
      modifies this`dest, this`blockOffset
      ensures Valid() && var off := Within(old(|dest|));
              && dest == old(dest) + Piece(crc, off, data, begin)
              && rest == data[Room(off, data)..]
              && end == (Room(off, data) == |data|)
    {
      FillBlock();
      var avail := BLOCK - blockOffset - HEADER;
      var fragmentLength := if |data| < avail then |data| else avail;
      end := |data| == fragmentLength;
      EmitPhysicalRecord(TypeOf(begin, end), data[..fragmentLength]);
      rest := data[fragmentLength..];
      ghost var off := Within(old(|dest|));
      assert dest == old(dest) + Piece(crc, off, data, begin);
      PieceMoves(crc, off, data, begin, old(|dest|));
    }

    /** Terminates although a block with exactly a header's room left gets a fragment without data. */
    method AddRecord(record: seq<Byte>)
      requires Valid()
      modifies this`dest, this`blockOffset
      ensures Valid() && dest == old(dest) + Encoded(crc, Within(old(|dest|)), record, true)
    {
      ghost var target := dest + Encoded(crc, Within(|dest|), record, true);
      var left := record;
      var begin := true;
      var more := true;
      while more
        invariant Valid()
        invariant target == if more then dest + Encoded(crc, Within(|dest|), left, begin) else dest
        decreases more, |left|, if BLOCK - Within(|dest|) == HEADER then 1 else 0
      {
        ghost var off, before, data := Within(|dest|), dest, left;
        var end;
        left, end := EmitPiece(left, begin);
        EncodedStep(crc, before, data, begin, dest, Room(off, data), off);
        if !end {
          RoomShrinks(off, data);
        }
        begin, more := false, !end;
      }
    }
  }

  lemma EncodedUnfold(crc: seq<Byte> -> Word, off: nat, data: seq<Byte>, begin: bool)
    requires off < BLOCK
    ensures var n := Room(off, data);
            Encoded(crc, off, data, begin) ==
            Piece(crc, off, data, begin)
            + (if n == |data| then [] else Encoded(crc, NextOff(off, data), data[n..], false))
  {
  }

  lemma EncodedStep(crc: seq<Byte> -> Word, dest: seq<Byte>, data: seq<Byte>,
                    begin: bool, next: seq<Byte>, n: nat, off: nat)
    requires off == Within(|dest|) && n == Room(off, data) && next == dest + Piece(crc, off, data, begin)
    ensures Within(|next|) == NextOff(off, data)
    ensures n == |data| ==> dest + Encoded(crc, off, data, begin) == next
    ensures n < |data| ==>
              dest + Encoded(crc, off, data, begin) ==
              next + Encoded(crc, Within(|next|), data[n..], false)
  {
    PieceMoves(crc, off, data, begin, |dest|);
    EncodedUnfold(crc, off, data, begin);
    var piece := Piece(crc, off, data, begin);
    if n < |data| {
      Associate(dest, piece, Encoded(crc, NextOff(off, data), data[n..], false));
    }
  }

  lemma Associate<T>(a: seq<T>, b: seq<T>, c: seq<T>)
    ensures (a + b) + c == a + (b + c)
  {
  }

  /** A fragment takes some data, or ends a block that had room for a header only. */
  lemma RoomShrinks(off: nat, data: seq<Byte>)
    requires off < BLOCK && Room(off, data) < |data|
    ensures Room(off, data) > 0 || (BLOCK - off == HEADER && BLOCK - NextOff(off, data) != HEADER)
  {
  }

  lemma WithinAdd(p: nat, k: nat)
    ensures Within(p + k) == Within(Within(p) + k)
  {
  }

  lemma PieceMoves(crc: seq<Byte> -> Word, off: nat, data: seq<Byte>, begin: bool, p: nat)
    requires off == Within(p)
    ensures Within(p + |Piece(crc, off, data, begin)|) == NextOff(off, data)
  {
    var k := HEADER + Room(off, data);
    WithinAdd(p, |Padding(off)| + k);
    if BLOCK - off < HEADER {
      assert off + |Padding(off)| == BLOCK;
      WithinAdd(BLOCK, k);
    }
  }
}
