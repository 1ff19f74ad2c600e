/** Reading a record log: what any bytes read as, and what a reader gets from a log cut off at any byte,
    which is every record that is there in full. */
module LogReader {
  import opened Keys
  import opened Bytes
  import opened LogFormat

  // ---------------------------------------------------------------- the reader on arbitrary bytes

  /** One physical record: its type or EOF or BAD_RECORD, its payload, where the next one is looked
      for, and how many corruptions were reported. */
  datatype Physical = Physical(code: Byte, data: seq<Byte>, next: nat, reports: nat)

  /** Where the header is looked for: a short rest of a block is skipped. */
  function HeaderAt(p: nat): (q: nat)
    ensures q >= p && BLOCK - Within(q) >= HEADER
  {
    if BLOCK - Within(p) < HEADER then p + (BLOCK - Within(p)) else p
  }

  /** The end of the block that holds position `q`, as far as the file goes. */
  function BlockEnd(file: seq<Byte>, q: nat): (e: nat)
    requires q <= |file|
    ensures q <= e <= |file|
    ensures e < |file| ==> Within(e) == 0
  {
    var e := q - Within(q) + BLOCK;
    if e <= |file| then e else |file|
  }

  /** The checksum function and the bytes of the log. */
  datatype Source = Source(crc: seq<Byte> -> Word, bytes: seq<Byte>)

  /** What ReadPhysicalRecord makes of the bytes from position `p`. */
  function PhysicalAt(src: Source, p: nat): (r: Physical)
    requires p <= |src.bytes|
    ensures p <= r.next <= |src.bytes|
    ensures r.code != EOF ==> p < r.next
  {
    match src
    case Source(crc, file) =>
      var q := HeaderAt(p);
      if q + HEADER > |file| then Physical(EOF, [], |file|, 0) else ParseHeader(crc, file, q)
  }

  function LengthAt(file: seq<Byte>, q: nat): nat
    requires q + HEADER <= |file|
  {
    var a: int, b: int := file[q + 4], file[q + 5];
    a + 256 * b
  }

  function ParseHeader(crc: seq<Byte> -> Word, file: seq<Byte>, q: nat): (r: Physical)
    requires q + HEADER <= |file| && BLOCK - Within(q) >= HEADER
    ensures q < r.next <= |file|
  {
    var end := BlockEnd(file, q);
    var length := LengthAt(file, q);
    if q + HEADER + length > end then
      // Only a short last block can be a record that was cut off.
      if end - (q - Within(q)) == BLOCK then Physical(BAD_RECORD, [], end, 1) else Physical(EOF, [], end, 0)
    else if file[q + 6] == ZERO_TYPE && length == 0 then Physical(BAD_RECORD, [], end, 0)
    else if crc(file[q + 6..q + HEADER + length]) != Unmask(DecodeFixed32(file[q..q + 4])) then
      Physical(BAD_RECORD, [], end, 1)
    else Physical(file[q + 6], file[q + HEADER..q + HEADER + length], q + HEADER + length, 0)
  }

  /** What ReadRecord makes of the bytes from position `p`, in the middle of a record or not. */
  datatype Logical = Logical(record: Option<seq<Byte>>, next: nat, reports: nat)

  function LogicalAt(src: Source, p: nat, inRecord: bool, scratch: seq<Byte>): (r: Logical)
    requires p <= |src.bytes|
    ensures p <= r.next <= |src.bytes|
    ensures r.record.Some? ==> p < r.next
    decreases |src.bytes| - p
  {
    var x := PhysicalAt(src, p);
    if x.code == EOF then Logical(None, x.next, x.reports)
    else if x.code == FULL_TYPE then
      Logical(Some(x.data), x.next, x.reports + (if inRecord && scratch != [] then 1 else 0))
    else if x.code == LAST_TYPE && inRecord then Logical(Some(scratch + x.data), x.next, x.reports)
    else
      var y := Continue(x, inRecord, scratch);
      var rest := LogicalAt(src, x.next, y.inRecord, y.scratch);
      Logical(rest.record, rest.next, x.reports + y.reports + rest.reports)
  }

  datatype Partial = Partial(inRecord: bool, scratch: seq<Byte>, reports: nat)

  /** The effect of a physical record that does not end the search. */
  function Continue(x: Physical, inRecord: bool, scratch: seq<Byte>): Partial {
    if x.code == FIRST_TYPE then Partial(true, x.data, if inRecord && scratch != [] then 1 else 0)
    else if x.code == MIDDLE_TYPE || x.code == LAST_TYPE then
      if inRecord then Partial(true, scratch + x.data, 0) else Partial(false, scratch, 1)
    else if x.code == BAD_RECORD then
      if inRecord then Partial(false, [], 1) else Partial(false, scratch, 0)
    else Partial(false, [], 1)
  }

  class Reader {
    const src: Source
    /** How much of the file has been read. */
    var filePos: nat
    var buffer: seq<Byte>
    var eof: bool
    /** The corruptions reported. */
    var reports: nat

    constructor (src: Source)
      ensures Valid() && this.src == src && Pos() == 0 && reports == 0
    {
      this.src := src;
      filePos, buffer, eof, reports := 0, [], false, 0;
    }

    /** The buffer is what is left of the last block read. */
    ghost predicate Valid()
      reads this
    {
      && filePos <= |src.bytes| && |buffer| <= filePos
      && buffer == src.bytes[filePos - |buffer|..filePos]
      && (!eof ==> Within(filePos) == 0 && |buffer| <= BLOCK)
      && (eof ==> filePos == |src.bytes| && |buffer| <= Within(filePos))
    }

    ghost function Pos(): nat
      requires |buffer| <= filePos
      reads this
    {
      filePos - |buffer|
    }

    /** Reads the next block. */
    method Fill()
      requires Valid() && !eof && |buffer| < HEADER
      modifies this`buffer, this`filePos, this`eof
      ensures Valid() && HeaderAt(Pos()) == old(HeaderAt(Pos()))
      ensures eof || |buffer| >= HEADER
    {
      HeaderInBuffer(filePos, |buffer|, |src.bytes|, eof);
      var n := if filePos + BLOCK <= |src.bytes| then BLOCK else |src.bytes| - filePos;
      buffer := src.bytes[filePos..filePos + n];
      filePos := filePos + n;
      eof := n < BLOCK;
      BlockSteps(filePos - n, n);
      HeaderAtBlock(filePos - n);
    }

    /** Makes the buffer hold at least a header, or fails at the end of the file. */
    method NeedHeader() returns (found: bool)
      requires Valid()
      modifies this`buffer, this`filePos, this`eof
      ensures Valid()
      ensures found <==> HeaderAt(old(Pos())) + HEADER <= |src.bytes|
      ensures found ==> Pos() == HeaderAt(old(Pos())) && |buffer| >= HEADER
      ensures !found ==> Pos() == |src.bytes|
    {
      ghost var q := HeaderAt(Pos());
      while |buffer| < HEADER
        invariant Valid() && HeaderAt(Pos()) == q
        decreases !eof && |buffer| < HEADER
      {
        if eof {
          HeaderInBuffer(filePos, |buffer|, |src.bytes|, eof);
          buffer := [];
          return false;
        }
        Fill();
      }
      HeaderInBuffer(filePos, |buffer|, |src.bytes|, eof);
      found := true;
    }

    /** The buffer reaches up to the end of the block; it is short only at the end of the file. */
    lemma BufferIsBlock()
      requires Valid() && |buffer| >= HEADER
      ensures BLOCK - Within(Pos()) >= HEADER && filePos == BlockEnd(src.bytes, Pos())
      ensures eof <==> filePos - (Pos() - Within(Pos())) < BLOCK
    {
      InBlock(filePos, |buffer|, eof);
    }

    method ReadPhysicalRecord() returns (code: Byte, data: seq<Byte>)
      requires Valid()
      modifies this`buffer, this`filePos, this`eof, this`reports
      ensures Valid() && old(Pos()) <= |src.bytes|
      ensures var x := PhysicalAt(src, old(Pos()));
              code == x.code && data == x.data && Pos() == x.next && reports == old(reports) + x.reports
    {
      var found := NeedHeader();
      if !found {
        return EOF, [];
      }
      code, data := ParseBuffer();
    }

    method ParseBuffer() returns (code: Byte, data: seq<Byte>)
      requires Valid() && |buffer| >= HEADER && BLOCK - Within(Pos()) >= HEADER
      modifies this`buffer, this`reports
      ensures Valid()
      ensures var x := ParseHeader(src.crc, src.bytes, old(Pos()));
              code == x.code && data == x.data && Pos() == x.next && reports == old(reports) + x.reports
    {
      BufferIsBlock();
      ghost var q := Pos();
      var header := buffer;
      var a: int, b: int := header[4], header[5];
      var t := header[6];
      var length := a + 256 * b;
      data := [];
      InBuffer(src.bytes, q, filePos, length);
      if HEADER + length > |buffer| {
        buffer := [];
        if !eof {
          reports := reports + 1;
          return BAD_RECORD, data;
        }
        return EOF, data;
      }
      if t == ZERO_TYPE && length == 0 {
        buffer := [];
        return BAD_RECORD, data;
      }
      if src.crc(header[6..HEADER + length]) != Unmask(DecodeFixed32(header[..4])) {
        buffer := [];
        reports := reports + 1;
        return BAD_RECORD, data;
      }
      buffer := buffer[HEADER + length..];
      data := header[HEADER..HEADER + length];
      code := t;
    }

    /** The cases of ReadRecord's switch that do not return. */
    method Absorb(code: Byte, data: seq<Byte>, inRecord: bool, scratch: seq<Byte>)
                  returns (inRecord2: bool, scratch2: seq<Byte>)
      requires code != EOF && code != FULL_TYPE && !(code == LAST_TYPE && inRecord)
      modifies this`reports
      ensures var y := Continue(Physical(code, data, 0, 0), inRecord, scratch);
              inRecord2 == y.inRecord && scratch2 == y.scratch && reports == old(reports) + y.reports
    {
      inRecord2, scratch2 := inRecord, scratch;
      if code == FIRST_TYPE {
        if inRecord && scratch != [] {
          reports := reports + 1;
        }
        scratch2, inRecord2 := data, true;
      } else if code == MIDDLE_TYPE || code == LAST_TYPE {
        if !inRecord {
          reports := reports + 1;
        } else {
          scratch2 := scratch + data;
        }
      } else if code == BAD_RECORD {
        if inRecord {
          reports, inRecord2, scratch2 := reports + 1, false, [];
        }
      } else {
        reports, inRecord2, scratch2 := reports + 1, false, [];
      }
    }

    /** One round of ReadRecord's loop. */
    method ReadStep(inRecord: bool, scratch: seq<Byte>)
      returns (done: bool, record: Option<seq<Byte>>, inRecord2: bool, scratch2: seq<Byte>)
      requires Valid()
      modifies this`buffer, this`filePos, this`eof, this`reports
      ensures Valid() && old(Pos()) <= |src.bytes|
      ensures Handles(PhysicalAt(src, old(Pos())), inRecord, scratch, done,
              record, Partial(inRecord2, scratch2, 0), reports - old(reports))
      ensures Pos() == PhysicalAt(src, old(Pos())).next
    {
      done, record, inRecord2, scratch2 := true, None, inRecord, scratch;
      var code, data := ReadPhysicalRecord();
      if code == EOF {
        return;
      } else if code == FULL_TYPE {
        if inRecord && scratch != [] {
          reports := reports + 1;
        }
        record := Some(data);
      } else if code == LAST_TYPE && inRecord {
        record := Some(scratch + data);
      } else {
        done := false;
        inRecord2, scratch2 := Absorb(code, data, inRecord, scratch);
      }
    }

    /** Returns the next record, whatever the bytes. */
    method ReadRecord() returns (record: Option<seq<Byte>>)
      requires Valid()
      modifies this`buffer, this`filePos, this`eof, this`reports
      ensures Valid() && old(Pos()) <= |src.bytes|
      ensures Leads(LogicalAt(src, old(Pos()), false, []), old(reports), Logical(record, Pos(), 0), reports)
    {
      ghost var x, was := LogicalAt(src, Pos(), false, []), reports;
      var inRecord, scratch := false, [];
      var done := false;
      record := None;
      while !done
        invariant Valid() && Pos() <= |src.bytes| && reports >= was
        invariant Leads(x, was,
                        if done then Logical(record, Pos(), 0) else LogicalAt(src, Pos(), inRecord, scratch),
                        reports)
        decreases !done, |src.bytes| - Pos()
      {
        ghost var p, i, c, n := Pos(), inRecord, scratch, reports;
        done, record, inRecord, scratch := ReadStep(inRecord, scratch);
        HandlesLeads(src, p, i, c, done, record, Partial(inRecord, scratch, 0), reports - n);
      }
    }
  }

  /** What one physical record does to the record being put together: ends it with a result, or goes
      on, after `n` more reports. */
  ghost predicate Handles(x: Physical, inRecord: bool, scratch: seq<Byte>, done: bool, record: Option<seq<Byte>>,
                          after: Partial, n: int)
  {
    if x.code == EOF then done && record == None && n == x.reports
    else if x.code == FULL_TYPE then
      done && record == Some(x.data) && n == x.reports + (if inRecord && scratch != [] then 1 else 0)
    else if x.code == LAST_TYPE && inRecord then done && record == Some(scratch + x.data) && n == x.reports
    else
      var y := Continue(x, inRecord, scratch);
      !done && after.inRecord == y.inRecord && after.scratch == y.scratch && n == x.reports + y.reports
  }

  lemma HandlesLeads(src: Source, p: nat, inRecord: bool, scratch: seq<Byte>, done: bool, record: Option<seq<Byte>>,
                     after: Partial, n: int)
    requires p <= |src.bytes| && Handles(PhysicalAt(src, p), inRecord, scratch, done, record, after, n)
    ensures n >= 0
    ensures var q := PhysicalAt(src, p).next;
            Leads(LogicalAt(src, p, inRecord, scratch), 0,
                  if done then Logical(record, q, 0) else LogicalAt(src, q, after.inRecord, after.scratch), n)
    ensures !done ==> PhysicalAt(src, p).next > p
  {
  }

  /** The result `x`, expected when `before` corruptions had been reported, is what `y` still gives
      now that `reports` have been. */
  ghost predicate Leads(x: Logical, before: nat, y: Logical, reports: nat) {
    x.record == y.record && x.next == y.next && before + x.reports == reports + y.reports
  }

  lemma InBuffer(file: seq<Byte>, q: nat, filePos: nat, length: nat)
    requires q + HEADER <= filePos <= |file|
    ensures var header := file[q..filePos];
            && header[4] == file[q + 4] && header[5] == file[q + 5] && header[6] == file[q + 6]
            && (HEADER + length <= |header| ==>
                 && header[..4] == file[q..q + 4]
                 && header[6..HEADER + length] == file[q + 6..q + HEADER + length]
                 && header[HEADER..HEADER + length] == file[q + HEADER..q + HEADER + length]
                 && header[HEADER + length..] == file[q + HEADER + length..filePos])
  {
    var header, n := file[q..filePos], HEADER + length;
    forall i | 6 <= i < n <= |header| ensures header[i] == file[q + i] {
    }
    if n <= |header| {
      assert header[6..n] == file[q + 6..q + n];
      assert header[..4] == file[q..q + 4];
      assert header[HEADER..n] == file[q + HEADER..q + n];
      assert header[n..] == file[q + n..filePos];
    }
  }

  lemma InBlock(filePos: nat, left: nat, eof: bool)
    requires HEADER <= left <= filePos
    requires !eof ==> Within(filePos) == 0 && left <= BLOCK
    requires eof ==> left <= Within(filePos)
    ensures var q := filePos - left; var e := q - Within(q) + BLOCK;
            BLOCK - Within(q) >= HEADER && (if eof then filePos < e else filePos == e)
  {
  }

  lemma BlockSteps(s: nat, n: nat)
    requires Within(s) == 0 && n <= BLOCK
    ensures n == BLOCK ==> Within(s + n) == 0
    ensures n < BLOCK ==> Within(s + n) == n
  {
  }

  lemma HeaderAtBlock(s: nat)
    requires Within(s) == 0
    ensures HeaderAt(s) == s
  {
  }

  lemma HeaderInBuffer(filePos: nat, left: nat, size: nat, eof: bool)
    requires filePos <= size && left <= filePos
    requires !eof ==> Within(filePos) == 0 && left <= BLOCK
    requires eof ==> filePos == size && left <= Within(filePos)
    ensures left >= HEADER ==> HeaderAt(filePos - left) == filePos - left
    ensures left < HEADER && !eof ==> HeaderAt(filePos - left) == filePos
    ensures left < HEADER && eof ==> HeaderAt(filePos - left) + HEADER > size
  {
  }

  // ---------------------------------------------------------------- reading what was written

  /** The file from `p` on starts with `bytes`, or ends inside them. */
  ghost predicate StartsWith(file: seq<Byte>, p: nat, bytes: seq<Byte>) {
    p <= |file| && if p + |bytes| <= |file| then file[p..p + |bytes|] == bytes else file[p..] == bytes[..|file| - p]
  }

  lemma ByteAt(file: seq<Byte>, p: nat, bytes: seq<Byte>, i: nat)
    requires StartsWith(file, p, bytes) && i < |bytes| && p + i < |file|
    ensures file[p + i] == bytes[i]
  {
    if p + |bytes| <= |file| {
      assert file[p..p + |bytes|][i] == bytes[i];
    } else {
      assert file[p..][i] == bytes[..|file| - p][i];
    }
  }

  lemma StartsInside(file: seq<Byte>, p: nat, a: seq<Byte>, b: seq<Byte>)
    requires StartsWith(file, p, a + b)
    ensures StartsWith(file, p, a)
    ensures p + |a| <= |file| ==> StartsWith(file, p + |a|, b)
  {
    forall i | 0 <= i < |a| && p + i < |file| ensures file[p + i] == a[i] {
      ByteAt(file, p, a + b, i);
    }
    if p + |a| <= |file| {
      forall i | 0 <= i < |b| && p + |a| + i < |file| ensures file[p + |a| + i] == b[i] {
        ByteAt(file, p, a + b, |a| + i);
      }
    }
  }

  /** A fragment that is there in full is read back; one that is cut off reads as the end of the
      file.  Nothing is reported. */
  lemma FragmentRead(crc: seq<Byte> -> Word, file: seq<Byte>, q: nat, t: Byte, data: seq<Byte>)
    requires t != ZERO_TYPE && Within(q) + HEADER + |data| <= BLOCK
    requires q + HEADER <= |file| && StartsWith(file, q, Fragment(crc, t, data))
    ensures ParseHeader(crc, file, q) ==
            if q + HEADER + |data| <= |file| then Physical(t, data, q + HEADER + |data|, 0)
            else Physical(EOF, [], |file|, 0)
  {
    var frag := Fragment(crc, t, data);
    forall i | 0 <= i < HEADER ensures file[q + i] == frag[i] {
      ByteAt(file, q, frag, i);
    }
    assert LengthAt(file, q) == |data|;
    if q + HEADER + |data| <= |file| {
      var stored := Fixed32(Mask(crc([t] + data)));
      assert file[q..q + 4] == stored by {
        forall i | 0 <= i < 4 ensures file[q + i] == stored[i] {
          assert frag[i] == stored[i];
        }
      }
      Fixed32RoundTrip(Mask(crc([t] + data)));
      UnmaskMask(crc([t] + data));
      assert file[q + HEADER..q + HEADER + |data|] == data by {
        forall i | 0 <= i < |data| ensures file[q + HEADER + i] == data[i] {
          ByteAt(file, q, frag, HEADER + i);
        }
      }
      assert file[q + 6] == t;
      assert file[q + 6..q + HEADER + |data|] == [file[q + 6]] + file[q + HEADER..q + HEADER + |data|];
    }
  }

  lemma PaddingSkipped(p: nat)
    ensures HeaderAt(p) == p + |Padding(Within(p))| && Within(HeaderAt(p)) == Start(Within(p))
  {
    NextBlock(p);
    hide Within;
  }

  lemma NextBlock(p: nat)
    ensures Within(p + (BLOCK - Within(p))) == 0
  {
    assert p + (32768 - p % 32768) == (p / 32768 + 1) * 32768;
  }

  /** The physical record at `p` is the fragment `piece` with payload `d`, if it is there. */
  ghost predicate PieceAt(src: Source, p: nat, piece: seq<Byte>, t: Byte, d: seq<Byte>) {
    && p <= |src.bytes|
    && PhysicalAt(src, p) ==
       if p + |piece| <= |src.bytes| then Physical(t, d, p + |piece|, 0) else Physical(EOF, [], |src.bytes|, 0)
  }

  lemma PieceRead(src: Source, p: nat, off: nat, data: seq<Byte>, begin: bool, n: nat)
    requires off == Within(p) && n == Room(off, data)
    requires StartsWith(src.bytes, p, Piece(src.crc, off, data, begin))
    ensures PieceAt(src, p, Piece(src.crc, off, data, begin), TypeOf(begin, n == |data|), data[..n])
  {
    var t := TypeOf(begin, n == |data|);
    PaddingSkipped(p);
    StartsInside(src.bytes, p, Padding(off), Fragment(src.crc, t, data[..n]));
    var q := HeaderAt(p);
    if q + HEADER <= |src.bytes| {
      FragmentRead(src.crc, src.bytes, q, t, data[..n]);
    }
  }

  /** What the types of a well-formed log do. */
  lemma OnePiece(src: Source, p: nat, inRecord: bool, scratch: seq<Byte>)
    requires p <= |src.bytes| && (!inRecord ==> scratch == [])
    ensures var x := PhysicalAt(src, p);
            && (x.code == EOF && x.reports == 0 ==> LogicalAt(src, p, inRecord, scratch) == Logical(None, x.next, 0))
            && (x.code == TypeOf(!inRecord, true) && x.reports == 0 ==>
                  LogicalAt(src, p, inRecord, scratch) == Logical(Some(scratch + x.data), x.next, 0))
            && (x.code == TypeOf(!inRecord, false) && x.reports == 0 ==>
                  LogicalAt(src, p, inRecord, scratch) == LogicalAt(src, x.next, true, scratch + x.data))
  {
    var x := PhysicalAt(src, p);
    assert [] + x.data == x.data;
  }

  /** From `p` on, the bytes `e` are read as the rest `data` of a record; if they are cut off, as the
      end of the file. */
  ghost predicate ReadsAs(src: Source, p: nat, inRecord: bool, scratch: seq<Byte>, e: seq<Byte>, data: seq<Byte>) {
    && p <= |src.bytes|
    && LogicalAt(src, p, inRecord, scratch) ==
       if p + |e| <= |src.bytes| then Logical(Some(scratch + data), p + |e|, 0) else Logical(None, |src.bytes|, 0)
  }

  lemma LastPiece(src: Source, p: nat, inRecord: bool, scratch: seq<Byte>, piece: seq<Byte>, d: seq<Byte>)
    requires PieceAt(src, p, piece, TypeOf(!inRecord, true), d) && (!inRecord ==> scratch == [])
    ensures ReadsAs(src, p, inRecord, scratch, piece, d)
  {
    hide PhysicalAt, LogicalAt;
    OnePiece(src, p, inRecord, scratch);
  }

  lemma MorePieces(src: Source, p: nat, inRecord: bool, scratch: seq<Byte>, piece: seq<Byte>, d: seq<Byte>,
                   rest: seq<Byte>, d2: seq<Byte>)
    requires PieceAt(src, p, piece, TypeOf(!inRecord, false), d) && (!inRecord ==> scratch == [])
    requires p + |piece| <= |src.bytes| ==> ReadsAs(src, p + |piece|, true, scratch + d, rest, d2)
    ensures ReadsAs(src, p, inRecord, scratch, piece + rest, d + d2)
  {
    hide PhysicalAt, LogicalAt;
    OnePiece(src, p, inRecord, scratch);
    Associate(scratch, d, d2);
  }

  /** A record that is there in full is read back; one that is cut off anywhere reads as the end of
      the file.  Nothing is reported. */
  lemma {:induction false} RecordRead(src: Source, p: nat, data: seq<Byte>, begin: bool, scratch: seq<Byte>)
    requires StartsWith(src.bytes, p, Encoded(src.crc, Within(p), data, begin)) && (begin ==> scratch == [])
    ensures ReadsAs(src, p, !begin, scratch, Encoded(src.crc, Within(p), data, begin), data)
    decreases |data|, if BLOCK - Within(p) == HEADER then 1 else 0
  {
    hide StartsWith, ReadsAs, Piece, Encoded;
    var off := Within(p);
    var n := Room(off, data);
    EncodedUnfold(src.crc, off, data, begin);
    if n == |data| {
      LastRead(src, p, off, data, begin, scratch);
    } else {
      var piece := Piece(src.crc, off, data, begin);
      var rest := Encoded(src.crc, NextOff(off, data), data[n..], false);
      StartsInside(src.bytes, p, piece, rest);
      if p + |piece| <= |src.bytes| {
        PieceMoves(src.crc, off, data, begin, p);
        RoomShrinks(off, data);
        RecordRead(src, p + |piece|, data[n..], false, scratch + data[..n]);
      }
      FirstRead(src, p, off, data, begin, scratch, n, rest);
    }
  }

  lemma LastRead(src: Source, p: nat, off: nat, data: seq<Byte>, begin: bool, scratch: seq<Byte>)
    requires off == Within(p) && Room(off, data) == |data| && (begin ==> scratch == [])
    requires StartsWith(src.bytes, p, Piece(src.crc, off, data, begin) + [])
    ensures ReadsAs(src, p, !begin, scratch, Piece(src.crc, off, data, begin) + [], data)
  {
    var piece := Piece(src.crc, off, data, begin);
    assert piece + [] == piece && data[..|data|] == data;
    PieceRead(src, p, off, data, begin, |data|);
    LastPiece(src, p, !begin, scratch, piece, data);
  }

  lemma FirstRead(src: Source, p: nat, off: nat, data: seq<Byte>,
                  begin: bool, scratch: seq<Byte>, n: nat, rest: seq<Byte>)
    requires off == Within(p) && n == Room(off, data) < |data| && (begin ==> scratch == [])
    requires StartsWith(src.bytes, p, Piece(src.crc, off, data, begin))
    requires var next := p + |Piece(src.crc, off, data, begin)|;
             next <= |src.bytes| ==> ReadsAs(src, next, true, scratch + data[..n], rest, data[n..])
    ensures ReadsAs(src, p, !begin, scratch, Piece(src.crc, off, data, begin) + rest, data)
  {
    hide StartsWith, ReadsAs, Piece, PieceAt;
    var piece := Piece(src.crc, off, data, begin);
    PieceRead(src, p, off, data, begin, n);
    MorePieces(src, p, !begin, scratch, piece, data[..n], rest, data[n..]);
    assert data[..n] + data[n..] == data;
  }

  // ---------------------------------------------------------------- whole logs

  /** The number of records that lie wholly in the first `n` bytes of the log. */
  ghost function Whole(crc: seq<Byte> -> Word, records: seq<seq<Byte>>, n: nat): (k: nat)
    ensures k <= |records|
    ensures |Log(crc, records[..k])| <= n
    ensures k < |records| ==> n < |Log(crc, records[..k + 1])|
  {
    if |Log(crc, records)| <= n then
      assert records[..|records|] == records;
      |records|
    else
      var k := Whole(crc, records[..|records| - 1], n);
      assert records[..|records| - 1][..k] == records[..k];
      assert k < |records| - 1 ==> records[..|records| - 1][..k + 1] == records[..k + 1];
      assert records[..|records|] == records;
      k
  }

  lemma {:induction false} LogFrom(crc: seq<Byte> -> Word, records: seq<seq<Byte>>, k: nat)
    requires k <= |records|
    ensures Log(crc, records[..k]) <= Log(crc, records)
    ensures k < |records| ==>
              var before := Log(crc, records[..k]);
              Log(crc, records[..k + 1]) == before + Encoded(crc, Within(|before|), records[k], true)
  {
    if k == |records| {
      assert records[..k] == records;
    } else {
      assert records[..k + 1][..k] == records[..k];
      if k < |records| - 1 {
        assert records[..|records| - 1][..k] == records[..k];
        LogFrom(crc, records[..|records| - 1], k);
      }
    }
  }

  /** What follows the first `k` records of a log that was cut off. */
  ghost predicate NextIs(src: Source, p: nat, record: Option<seq<Byte>>, next: nat) {
    p <= |src.bytes| && LogicalAt(src, p, false, []) == Logical(record, next, 0)
  }

  lemma NextRecord(src: Source, records: seq<seq<Byte>>, k: nat)
    requires src.bytes <= Log(src.crc, records) && k <= Whole(src.crc, records, |src.bytes|)
    ensures k < Whole(src.crc, records, |src.bytes|) ==>
              NextIs(src, |Log(src.crc, records[..k])|, Some(records[k]), |Log(src.crc, records[..k + 1])|)
    ensures k == Whole(src.crc, records, |src.bytes|) ==> NextIs(src, |Log(src.crc, records[..k])|, None, |src.bytes|)
  {
    hide Log, LogicalAt, Encoded, StartsWith;
    var w := Whole(src.crc, records, |src.bytes|);
    LogGrows(src.crc, records, k, w);
    assert src.bytes == Log(src.crc, records)[..|src.bytes|];
    if k < |records| {
      RecordStarts(src.crc, records, |src.bytes|, k);
      RecordRead(src, |Log(src.crc, records[..k])|, records[k], true, []);
      assert [] + records[k] == records[k];
      if k < w {
        LogGrows(src.crc, records, k + 1, w);
      }
    } else {
      assert records[..k] == records;
      EndRead(src);
    }
  }

  lemma EndRead(src: Source)
    ensures LogicalAt(src, |src.bytes|, false, []) == Logical(None, |src.bytes|, 0)
  {
  }

  lemma RecordStarts(crc: seq<Byte> -> Word, records: seq<seq<Byte>>, n: nat, k: nat)
    requires n <= |Log(crc, records)| && k < |records| && |Log(crc, records[..k])| <= n
    ensures var p := |Log(crc, records[..k])|;
            var e := Encoded(crc, Within(p), records[k], true);
            StartsWith(Log(crc, records)[..n], p, e) && |Log(crc, records[..k + 1])| == p + |e|
  {
    var all, upTo, before := Log(crc, records), Log(crc, records[..k + 1]), Log(crc, records[..k]);
    LogFrom(crc, records, k);
    LogFrom(crc, records, k + 1);
    var e := Encoded(crc, Within(|before|), records[k], true);
    assert upTo == before + e && upTo <= all;
    Prefixes(all, before, e, n);
  }

  lemma Prefixes(all: seq<Byte>, before: seq<Byte>, e: seq<Byte>, n: nat)
    requires before + e <= all && |before| <= n <= |all|
    ensures StartsWith(all[..n], |before|, e)
  {
    forall i | 0 <= i < |e| && |before| + i < n ensures all[..n][|before| + i] == e[i] {
      assert (before + e)[|before| + i] == e[i];
    }
  }

  lemma {:induction false} LogGrows(crc: seq<Byte> -> Word, records: seq<seq<Byte>>, j: nat, k: nat)
    requires j <= k <= |records|
    ensures |Log(crc, records[..j])| <= |Log(crc, records[..k])|
  {
    hide Log, Encoded;
    if j < k {
      LogGrows(crc, records, j, k - 1);
      LogFrom(crc, records, k - 1);
    }
  }

  /** With nothing cut off, every record counts. */
  lemma WholeOfAll(crc: seq<Byte> -> Word, records: seq<seq<Byte>>)
    ensures records[..Whole(crc, records, |Log(crc, records)|)] == records
  {
  }

  /** What reading to the end finds, and how many corruptions it reports. */
  datatype Contents = Contents(records: seq<seq<Byte>>, reports: nat)

  /** The records from position `p` on, whatever the bytes. */
  ghost function ContentsAt(src: Source, p: nat): Contents
    requires p <= |src.bytes|
    decreases |src.bytes| - p
  {
    var x := LogicalAt(src, p, false, []);
    if x.record.None? then Contents([], x.reports)
    else
      var rest := ContentsAt(src, x.next);
      Contents([x.record.value] + rest.records, x.reports + rest.reports)
  }

  /** Reading on after `result` and `reports` comes to `all`. */
  ghost predicate ReadsOn(all: Contents, result: seq<seq<Byte>>, reports: nat, rest: Contents) {
    all.records == result + rest.records && all.reports == reports + rest.reports
  }

  lemma ContentsStep(src: Source, p: nat, all: Contents, result: seq<seq<Byte>>, before: nat, x: Logical, reports: nat)
    requires p <= |src.bytes| && ReadsOn(all, result, before, ContentsAt(src, p))
    requires Leads(LogicalAt(src, p, false, []), before, x, reports) && x.reports == 0
    ensures x.record.None? ==> all == Contents(result, reports)
    ensures x.record.Some? ==>
              p < x.next <= |src.bytes| && ReadsOn(all, result + [x.record.value], reports, ContentsAt(src, x.next))
  {
    hide LogicalAt;
    if x.record.Some? {
      Associate(result, [x.record.value], ContentsAt(src, x.next).records);
    } else {
      assert result + [] == result;
    }
  }

  /** Reads any file to its end. */
  method ReadAll(crc: seq<Byte> -> Word, file: seq<Byte>) returns (result: seq<seq<Byte>>, reports: nat)
    ensures Contents(result, reports) == ContentsAt(Source(crc, file), 0)
  {
    var reader := new Reader(Source(crc, file));
    ghost var src, all := reader.src, ContentsAt(reader.src, 0);
    result := [];
    var more := true;
    assert [] + all.records == all.records;
    while more
      invariant fresh(reader) && reader.Valid() && reader.src == src
      invariant more ==> ReadsOn(all, result, reader.reports, ContentsAt(src, reader.Pos()))
      invariant !more ==> all == Contents(result, reader.reports)
      decreases more, |src.bytes| - reader.Pos()
    {
      hide LogicalAt, ContentsAt, ReadsOn, Leads;
      ghost var p, before := reader.Pos(), reader.reports;
      var record := reader.ReadRecord();
      ContentsStep(src, p, all, result, before, Logical(record, reader.Pos(), 0), reader.reports);
      more := record.Some?;
      if more {
        result := result + [record.value];
      }
    }
    reports := reader.reports;
  }

  /** A log that was cut off after any number of bytes gives exactly the records that are there in full, in order,
      and reports no corruption. */
  lemma LogReadsBack(crc: seq<Byte> -> Word, file: seq<Byte>, records: seq<seq<Byte>>)
    requires file <= Log(crc, records)
    ensures ContentsAt(Source(crc, file), 0) == Contents(records[..Whole(crc, records, |file|)], 0)
  {
    assert records[..0] == [];
    RestReadsBack(Source(crc, file), records, 0);
    assert records[0..Whole(crc, records, |file|)] == records[..Whole(crc, records, |file|)];
  }

  lemma {:induction false} RestReadsBack(src: Source, records: seq<seq<Byte>>, k: nat)
    requires src.bytes <= Log(src.crc, records) && k <= Whole(src.crc, records, |src.bytes|)
    ensures var p := |Log(src.crc, records[..k])|;
            && p <= |src.bytes|
            && ContentsAt(src, p) == Contents(records[k..Whole(src.crc, records, |src.bytes|)], 0)
    decreases |records| - k
  {
    hide Log, Whole, LogicalAt;
    NextRecord(src, records, k);
    var w := Whole(src.crc, records, |src.bytes|);
    if k < w {
      RestReadsBack(src, records, k + 1);
      assert records[k..w] == [records[k]] + records[k + 1..w];
    } else {
      assert records[k..w] == [];
    }
  }

  /** Appends records to a log that may hold some already. */
  method WriteSession(crc: seq<Byte> -> Word, file: seq<Byte>, records: seq<seq<Byte>>, ghost before: seq<seq<Byte>>)
    returns (file2: seq<Byte>)
    requires file == Log(crc, before)
    ensures file2 == Log(crc, before + records)
  {
    hide Encoded, Log;
    var writer := new Writer(crc, file);
    assert before + records[..0] == before;
    var j := 0;
    while j < |records|
      invariant j <= |records| && fresh(writer) && writer.Valid() && writer.crc == crc
      invariant writer.dest == Log(crc, before + records[..j])
    {
      LogAppend(crc, before + records[..j], records[j]);
      writer.AddRecord(records[j]);
      assert before + records[..j + 1] == before + records[..j] + [records[j]];
      j := j + 1;
    }
    file2 := writer.dest;
    assert records[..j] == records;
  }

  lemma LogAppend(crc: seq<Byte> -> Word, records: seq<seq<Byte>>, record: seq<Byte>)
    ensures Log(crc, records + [record]) ==
            Log(crc, records) + Encoded(crc, Within(|Log(crc, records)|), record, true)
  {
    assert (records + [record])[..|records|] == records;
  }

  /** Writing records, closing and reopening the log anywhere in between, produces the log of all of
      them. */
  method WriteAll(crc: seq<Byte> -> Word, sessions: seq<seq<seq<Byte>>>) returns (file: seq<Byte>)
    ensures file == Log(crc, Joined(sessions))
  {
    file := [];
    var i := 0;
    while i < |sessions|
      invariant i <= |sessions| && file == Log(crc, Joined(sessions[..i]))
    {
      file := WriteSession(crc, file, sessions[i], Joined(sessions[..i]));
      assert sessions[..i + 1][..i] == sessions[..i];
      i := i + 1;
    }
    assert sessions[..i] == sessions;
  }

  ghost function Joined(sessions: seq<seq<seq<Byte>>>): seq<seq<Byte>> {
    if sessions == [] then [] else Joined(sessions[..|sessions| - 1]) + sessions[|sessions| - 1]
  }
}
