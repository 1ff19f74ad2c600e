/** The pieces of a table file: handles, footer, and blocks with their trailers, which hold the compression
    type and a checksum over contents and type. */
module TableFormat {
  import opened Keys
  import opened Bytes
  import opened Coding

  // ---------------------------------------------------------------- block handles

  datatype Handle = Handle(offset: U64, size: U64)

  ghost function HandleBytes(h: Handle): seq<Byte> {
    Varint(h.offset) + Varint(h.size)
  }

  datatype HandleRead = HandleRead(handle: Handle, used: nat)

  const WIDE: nat := 0x1_0000_0000_0000_0000

  ghost function ReadHandle(s: seq<Byte>): (r: Option<HandleRead>)
    ensures r.Some? ==> r.value.used <= |s|
  {
    match ReadVarint(s, 10)
    case None => None
    case Some(a) =>
      match ReadVarint(s[a.used..], 10)
      case None => None
      case Some(b) => Some(HandleRead(Handle(a.value % WIDE, b.value % WIDE), a.used + b.used))
  }

  lemma HandleRoundTrip(h: Handle, rest: seq<Byte>)
    ensures ReadHandle(HandleBytes(h) + rest) == Some(HandleRead(h, |HandleBytes(h)|)) && |HandleBytes(h)| <= 20
  {
    hide Varint, ReadVarint;
    Varint64Size(h.offset);
    Varint64Size(h.size);
    var a, b := Varint(h.offset), Varint(h.size);
    assert HandleBytes(h) + rest == a + (b + rest);
    assert (a + (b + rest))[|a|..] == b + rest;
    VarintRoundTrip(h.offset, b + rest, 10);
    VarintRoundTrip(h.size, rest, 10);
  }

  method EncodeHandle(h: Handle, dst: seq<Byte>) returns (r: seq<Byte>)
    ensures r == dst + HandleBytes(h)
  {
    hide Varint;
    r := PutVarint64(dst, h.offset);
    r := PutVarint64(r, h.size);
  }

  method DecodeHandle(s: seq<Byte>) returns (r: Option<HandleRead>)
    ensures r == ReadHandle(s)
  {
    hide ReadVarint;
    var a := GetVarint(s, 10, WIDE);
    if a.None? { return None; }
    var b := GetVarint(s[a.value.used..], 10, WIDE);
    if b.None? { return None; }
    r := Some(HandleRead(Handle(a.value.value, b.value.value), a.value.used + b.value.used));
  }

  // ---------------------------------------------------------------- footer

  const FOOTER_SIZE: nat := 48
  const TABLE_MAGIC_LO: Word := 0x8b80fb57
  const TABLE_MAGIC_HI: Word := 0xdb477524

  datatype Footer = Footer(metaindex: Handle, index: Handle)

  ghost predicate FooterIs(f: Footer, s: seq<Byte>) {
    exists pad: seq<Byte> :: FooterWith(f, s, pad)
  }

  ghost predicate FooterWith(f: Footer, s: seq<Byte>, pad: seq<Byte>) {
    && |s| == FOOTER_SIZE
    && s == HandleBytes(f.metaindex) + (HandleBytes(f.index) + pad)
       + (Fixed32(TABLE_MAGIC_LO) + Fixed32(TABLE_MAGIC_HI))
  }

  method EncodeFooter(f: Footer) returns (r: seq<Byte>)
    ensures FooterIs(f, r)
  {
    hide HandleBytes, Fixed32;
    HandleRoundTrip(f.metaindex, []);
    HandleRoundTrip(f.index, []);
    r := EncodeHandle(f.metaindex, []);
    r := EncodeHandle(f.index, r);
    var pad: seq<Byte> := seq(40 - |r|, _ => 0);
    ghost var a, b := HandleBytes(f.metaindex), HandleBytes(f.index);
    assert [] + a == a;
    r := r + pad;
    assert r == a + (b + pad);
    r := r + Fixed32(TABLE_MAGIC_LO);
    r := r + Fixed32(TABLE_MAGIC_HI);
    assert r == a + (b + pad) + (Fixed32(TABLE_MAGIC_LO) + Fixed32(TABLE_MAGIC_HI));
    assert FooterWith(f, r, pad);
  }

  method DecodeFooter(s: seq<Byte>, ghost f: Footer) returns (r: Option<Footer>)
    requires |s| == FOOTER_SIZE
    ensures FooterIs(f, s) ==> r == Some(f)
  {
    hide HandleBytes, ReadHandle, DecodeFixed32, FooterIs;
    FooterRead(f, s);
    var lo, hi := DecodeFixed32(s[40..]), DecodeFixed32(s[44..]);
    if lo != TABLE_MAGIC_LO || hi != TABLE_MAGIC_HI {
      return None;
    }
    var m := DecodeHandle(s);
    if m.None? { return None; }
    var i := DecodeHandle(s[m.value.used..]);
    if i.None? { return None; }
    r := Some(Footer(m.value.handle, i.value.handle));
  }

  lemma FooterRead(f: Footer, s: seq<Byte>)
    requires |s| == FOOTER_SIZE
    ensures FooterIs(f, s) ==>
              && DecodeFixed32(s[40..]) == TABLE_MAGIC_LO && DecodeFixed32(s[44..]) == TABLE_MAGIC_HI
              && var m := ReadHandle(s);
              && m.Some? && m.value.handle == f.metaindex
              && var i := ReadHandle(s[m.value.used..]);
              && i.Some? && i.value.handle == f.index
  {
    hide HandleBytes, ReadHandle, DecodeFixed32, Fixed32;
    if FooterIs(f, s) {
      var pad: seq<Byte> :| FooterWith(f, s, pad);
      var a, b, lo, hi := HandleBytes(f.metaindex), HandleBytes(f.index),
          Fixed32(TABLE_MAGIC_LO), Fixed32(TABLE_MAGIC_HI);
      HandleRoundTrip(f.metaindex, (b + pad) + (lo + hi));
      HandleRoundTrip(f.index, pad + (lo + hi));
      assert s == a + ((b + pad) + (lo + hi));
      assert s[|a|..] == b + (pad + (lo + hi));
      assert s[40..] == lo + hi && s[44..] == hi + [];
      FixedThen(TABLE_MAGIC_LO, hi);
      FixedThen(TABLE_MAGIC_HI, []);
    }
  }

  lemma FixedThen(w: Word, rest: seq<Byte>)
    ensures DecodeFixed32(Fixed32(w) + rest) == w
  {
    Fixed32RoundTrip(w);
    var s, t := Fixed32(w) + rest, Fixed32(w);
    assert s[0] == t[0] && s[1] == t[1] && s[2] == t[2] && s[3] == t[3];
  }

  // ---------------------------------------------------------------- blocks in a file

  const TRAILER_SIZE: nat := 5
  const NO_COMPRESSION: Byte := 0

  type Crc = seq<Byte> -> Word

  /** A block as it lies in a file: contents, type, masked checksum of both. */
  ghost function RawBlock(contents: seq<Byte>, crc: Crc): seq<Byte> {
    contents + [NO_COMPRESSION] + Fixed32(Mask(crc(contents + [NO_COMPRESSION])))
  }

  ghost predicate RawAt(file: seq<Byte>, h: Handle, contents: seq<Byte>, crc: Crc) {
    && h.size == |contents| && h.offset + h.size + TRAILER_SIZE <= |file|
    && file[h.offset..h.offset + h.size + TRAILER_SIZE] == RawBlock(contents, crc)
  }

  lemma RawGrows(was: seq<Byte>, now: seq<Byte>, h: Handle, contents: seq<Byte>, crc: Crc)
    requires RawAt(was, h, contents, crc) && was <= now
    ensures RawAt(now, h, contents, crc)
  {
    hide RawBlock;
    assert now[h.offset..h.offset + h.size + TRAILER_SIZE] == was[h.offset..h.offset + h.size + TRAILER_SIZE];
  }

  lemma RawAppended(file: seq<Byte>, h: Handle, contents: seq<Byte>, crc: Crc)
    requires h.offset == |file| && h.size == |contents|
    ensures RawAt(file + RawBlock(contents, crc), h, contents, crc)
  {
    var raw := RawBlock(contents, crc);
    assert (file + raw)[|file|..|file| + |raw|] == raw;
  }

  /** ReadBlock: the contents at a handle, unless cut off, of another type, or with a bad checksum. */
  method ReadBlock(file: seq<Byte>, h: Handle, verify: bool, crc: Crc, ghost contents: seq<Byte>)
                   returns (r: Option<seq<Byte>>)
    ensures RawAt(file, h, contents, crc) ==> r == Some(contents)
    ensures r.Some? ==> |r.value| == h.size
  {
    hide RawAt, Fixed32, DecodeFixed32, Mask, Unmask;
    var n := h.size;
    if h.offset + n + TRAILER_SIZE > |file| {
      assert !RawAt(file, h, contents, crc) by { NotCut(file, h, contents, crc); }
      return None;
    }
    var data := file[h.offset..h.offset + n + TRAILER_SIZE];
    RawParts(file, h, contents, crc);
    if verify {
      var stored := Unmask(DecodeFixed32(data[n + 1..]));
      if crc(data[..n + 1]) != stored {
        return None;
      }
    }
    if data[n] != NO_COMPRESSION {
      return None;
    }
    r := Some(data[..n]);
  }

  lemma NotCut(file: seq<Byte>, h: Handle, contents: seq<Byte>, crc: Crc)
    ensures RawAt(file, h, contents, crc) ==> h.offset + h.size + TRAILER_SIZE <= |file|
  {
  }

  lemma RawParts(file: seq<Byte>, h: Handle, contents: seq<Byte>, crc: Crc)
    requires h.offset + h.size + TRAILER_SIZE <= |file|
    ensures RawAt(file, h, contents, crc) ==>
              var data := file[h.offset..h.offset + h.size + TRAILER_SIZE]; var n := h.size;
              && data[..n] == contents && data[n] == NO_COMPRESSION && data[..n + 1] == contents + [NO_COMPRESSION]
              && Unmask(DecodeFixed32(data[n + 1..])) == crc(data[..n + 1])
  {
    hide Fixed32, DecodeFixed32, Mask, Unmask;
    if RawAt(file, h, contents, crc) {
      var data, n := file[h.offset..h.offset + h.size + TRAILER_SIZE], h.size;
      var sum := crc(contents + [NO_COMPRESSION]);
      Pieces(contents, [NO_COMPRESSION], Fixed32(Mask(sum)));
      FixedThen(Mask(sum), []);
      assert Fixed32(Mask(sum)) + [] == Fixed32(Mask(sum));
      UnmaskMask(sum);
    }
  }

  lemma Pieces(a: seq<Byte>, b: seq<Byte>, c: seq<Byte>)
    requires |b| == 1
    ensures var s := a + b + c; s[..|a|] == a && s[|a|] == b[0] && s[..|a| + 1] == a + b && s[|a| + 1..] == c
  {
  }
}
