/** Bytes and little-endian words. */
module Bytes {
  type Byte = b: int | 0 <= b < 256
  type Word = w: int | 0 <= w < 0x1_0000_0000

  function Fixed32(v: Word): (r: seq<Byte>)
    ensures |r| == 4
  {
    [v % 0x100, v / 0x100 % 0x100, v / 0x1_0000 % 0x100, v / 0x100_0000]
  }

  function DecodeFixed32(s: seq<Byte>): (v: Word)
    requires |s| >= 4
  {
    var a: int, b: int, c: int, d: int := s[0], s[1], s[2], s[3];
    a + b * 0x100 + c * 0x1_0000 + d * 0x100_0000
  }

  lemma Fixed32RoundTrip(v: Word)
    ensures DecodeFixed32(Fixed32(v)) == v
  {
    assert v == v % 0x100 + (v / 0x100) * 0x100;
    assert v / 0x100 == v / 0x100 % 0x100 + (v / 0x1_0000) * 0x100;
    assert v / 0x1_0000 == v / 0x1_0000 % 0x100 + (v / 0x100_0000) * 0x100;
  }

  const MASK_DELTA: Word := 0xa282ead8

  /** Rotate right by 15 bits and add a constant; the two shifted parts have no bit in common, so
      their bitwise or is a sum. */
  function Mask(crc: Word): Word {
    (crc / 0x8000 + crc % 0x8000 * 0x2_0000 + MASK_DELTA) % 0x1_0000_0000
  }

  function Unmask(masked: Word): Word {
    var rot := (masked - MASK_DELTA) % 0x1_0000_0000;
    rot / 0x2_0000 + rot % 0x2_0000 * 0x8000
  }

  lemma UnmaskMask(crc: Word)
    ensures Unmask(Mask(crc)) == crc
  {
    var hi, lo := crc / 0x8000, crc % 0x8000;
    var rot := hi + lo * 0x2_0000;
    assert 0 <= hi < 0x2_0000 && 0 <= rot < 0x1_0000_0000;
    var m := Mask(crc);
    assert m == rot + MASK_DELTA || m == rot + MASK_DELTA - 0x1_0000_0000;
    assert (m - MASK_DELTA) % 0x1_0000_0000 == rot;
    assert rot / 0x2_0000 == lo && rot % 0x2_0000 == hi;
  }
}
