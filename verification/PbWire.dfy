/** The wire format of protocol buffers. */
module PbWire {
  // Varints, zigzag numbers, tags and skipping, as the small codec reads and writes them.

  import opened Keys
  import opened Bytes
  import opened Coding
  import opened Blooms

  const TWO32: int := 0x1_0000_0000
  const TWO63: int := 0x8000_0000_0000_0000
  const TWO64: int := 0x1_0000_0000_0000_0000

  // ---------------------------------------------------------------- bitwise or

  function Or(a: nat, b: nat): nat {
    if a == 0 then b
    else Or(a / 2, b / 2) * 2 + (if a % 2 == 1 || b % 2 == 1 then 1 else 0)
  }

  /** Bits above those of `a` are added. */
  lemma {:induction false} OrDisjoint(a: nat, b: nat, k: nat)
    requires a < Pow2(k)
    ensures Or(a, b * Pow2(k)) == a + b * Pow2(k)
  {
    if a > 0 {
      var c := b * Pow2(k - 1);
      assert b * Pow2(k) == 2 * c;
      OrDisjoint(a / 2, b, k - 1);
    }
  }

  // ---------------------------------------------------------------- 32-bit varints

  /** The bytes after the first: bits beyond the word must repeat its sign, as in a negative number sent as
      64 bits.  The bit position is kept in eight bits. */
  function Varint32Rest(s: seq<Byte>, result: Word, bitpos: nat): (r: Option<Number>)
    ensures r.Some? ==> 0 < r.value.used <= |s| && r.value.value < TWO32
  {
    if s == [] then None
    else
      var byte := s[0];
      var sign := if bitpos < 63 then 0xff else 0x01;
      if bitpos >= 32 && byte % 128 != 0 && (result < 0x8000_0000 || byte != sign) then None
      else
        var r: Word := if bitpos >= 32 then result else Or(result, byte % 128 * Pow2(bitpos) % TWO32) % TWO32;
        var next := (bitpos + 7) % 256;
        if byte >= 128 then
          match Varint32Rest(s[1..], r, next)
          case None => None
          case Some(n) => Some(Number(n.value, n.used + 1))
        else if next == 35 && byte / 16 % 8 != 0 then None
        else Some(Number(r, 1))
  }

  function ReadVarint32(s: seq<Byte>): (r: Option<Number>)
    ensures r.Some? ==> 0 < r.value.used <= |s| && r.value.value < TWO32
  {
    if s == [] then None
    else if s[0] < 128 then Some(Number(s[0], 1))
    else
      match Varint32Rest(s[1..], s[0] - 128, 7)
      case None => None
      case Some(n) => Some(Number(n.value, n.used + 1))
  }

  lemma Places()
    ensures Pow2(7) == 128 && Pow2(14) == 0x4000 && Pow2(21) == 0x20_0000 && Pow2(28) == 0x1000_0000
  {
    assert Pow2(4) == 16;
    assert Pow2(7) == 2 * (2 * (2 * Pow2(4)));
    assert Pow2(11) == 16 * Pow2(7);
    assert Pow2(14) == 8 * Pow2(11);
    assert Pow2(18) == 16 * Pow2(14);
    assert Pow2(21) == 8 * Pow2(18);
    assert Pow2(25) == 16 * Pow2(21);
    assert Pow2(28) == 8 * Pow2(25);
  }

  lemma Product(q: nat, r: nat, p: nat)
    requires r < 128
    ensures (128 * q + r) * p == r * p + q * (128 * p) && 0 <= r * p <= 127 * p && 0 <= q * (128 * p)
  {
    assert (128 * q + r) * p == 128 * q * p + r * p;
    assert 128 * q * p == q * (128 * p);
    Monotone(r, 127, p);
  }

  lemma Monotone(a: nat, b: nat, p: nat)
    requires a <= b
    ensures 0 <= a * p <= b * p
  {
    assert b * p == a * p + (b - a) * p;
  }

  /** One more group of seven bits at place value `p`. */
  lemma Group(result: nat, w: nat, p: nat)
    requires result < p && result + w * p < TWO32
    ensures result + w % 128 * p < 128 * p && result + w % 128 * p < TWO32
    ensures (result + w % 128 * p) + w / 128 * (128 * p) == result + w * p
  {
    Product(w / 128, w % 128, p);
    assert 128 * (w / 128) + w % 128 == w;
  }

  lemma PlaceStep(i: nat)
    requires 1 <= i <= 4
    ensures i < 4 ==> Pow2(7 * (i + 1)) == 128 * Pow2(7 * i)
    ensures i == 4 ==> Pow2(7 * i) == 0x1000_0000
  {
    Places();
  }

  lemma TopGroup(result: nat, w: nat)
    requires result + w * 0x1000_0000 < TWO32
    ensures w < 16
  {
  }

  lemma OrGroup(result: nat, b: nat, k: nat, x: nat)
    requires result < Pow2(k) && x == b * Pow2(k) && result + x < TWO32
    ensures Or(result, x % TWO32) % TWO32 == result + x
  {
    OrDisjoint(result, b, k);
    hide Or, Pow2;
    Same(x);
    Same(result + x);
  }

  lemma Same(x: nat)
    requires x < TWO32
    ensures x % TWO32 == x
  {
  }

  /** One byte below position 32. */
  lemma RestByte(s: seq<Byte>, result: Word, bitpos: nat, x: nat)
    requires s != [] && bitpos < 32 && x == s[0] % 128 * Pow2(bitpos) && Or(result, x % TWO32) % TWO32 == result + x
    ensures s[0] >= 128 ==> Varint32Rest(s, result, bitpos)
                            == match Varint32Rest(s[1..], result + x, bitpos + 7)
                               case None => None
                               case Some(n) => Some(Number(n.value, n.used + 1))
    ensures s[0] < 16 || (s[0] < 128 && bitpos != 28) ==> Varint32Rest(s, result, bitpos) == Some(Number(result + x, 1))
  {
    hide Or, Pow2;
  }

  lemma VarintByte(w: nat, rest: seq<Byte>)
    ensures var s := Varint(w) + rest;
            s != [] && s[0] % 128 == w % 128 && (s[0] >= 128 <==> w >= 128)
            && (w >= 128 ==> s[1..] == Varint(w / 128) + rest && |Varint(w)| == 1 + |Varint(w / 128)|)
               && (w < 128 ==> |Varint(w)| == 1)
  {
    var head: Byte := if w < 128 then w else w % 128 + 128;
    var tail := if w < 128 then [] else Varint(w / 128);
    assert Varint(w) == [head] + tail;
    hide Varint;
    HeadAndTail(head, tail, rest);
  }

  lemma HeadAndTail(head: Byte, tail: seq<Byte>, rest: seq<Byte>)
    ensures ([head] + tail + rest)[0] == head && ([head] + tail + rest)[1..] == tail + rest
  {
  }

  lemma {:induction false} RestRoundTrip(w: nat, rest: seq<Byte>, result: Word, i: nat)
    requires 1 <= i <= 4 && w > 0 && result < Pow2(7 * i) && result + w * Pow2(7 * i) < TWO32
    ensures Varint32Rest(Varint(w) + rest, result, 7 * i) == Some(Number(result + w * Pow2(7 * i), |Varint(w)|))
    decreases 4 - i
  {
    hide Or, Pow2, Varint, Varint32Rest;
    var p := Pow2(7 * i);
    Group(result, w, p);
    PlaceStep(i);
    if i == 4 { TopGroup(result, w); }
    Monotone(0, w % 128, p);
    var x: nat := w % 128 * p;
    OrGroup(result, w % 128, 7 * i, x);
    VarintByte(w, rest);
    RestByte(Varint(w) + rest, result, 7 * i, x);
    if w >= 128 {
      RestRoundTrip(w / 128, rest, result + x, i + 1);
    }
  }

  /** Decoding undoes encoding for every 32-bit number, whatever follows. */
  lemma Varint32RoundTrip(v: Word, rest: seq<Byte>)
    ensures ReadVarint32(Varint(v) + rest) == Some(Number(v, |Varint(v)|))
  {
    var s := Varint(v) + rest;
    if v >= 128 {
      Places();
      assert s[1..] == Varint(v / 128) + rest;
      assert v == v % 128 + v / 128 * 128;
      RestRoundTrip(v / 128, rest, v % 128, 1);
    } else {
      assert s[0] == v;
    }
  }

  // ---------------------------------------------------------------- numbers

  /** A signed number as 64 bits, and back. */
  function Unsigned64(n: int): nat
    requires -TWO63 <= n < TWO63
  {
    if n < 0 then n + TWO64 else n
  }

  function Signed64(v: nat): int
    requires v < TWO64
  {
    if v >= TWO63 then v - TWO64 else v
  }

  function Signed32(v: nat): int {
    var low := v % TWO32;
    if low >= 0x8000_0000 then low - TWO32 else low
  }

  /** Half the range of a signed integer of this many bytes. */
  function Half(size: nat): nat {
    if size == 1 then 0x80 else if size == 2 then 0x8000 else if size == 4 then 0x8000_0000 else TWO63
  }

  predicate SizeOk(size: nat) {
    size == 1 || size == 2 || size == 4 || size == 8
  }

  predicate InSigned(n: int, size: nat) {
    0 - Half(size) <= n < Half(size)
  }

  predicate InUnsigned(n: int, size: nat) {
    0 <= n < 2 * Half(size)
  }

  /** Fields of up to 32 bits take the sign from the low word. */
  function SignedFor(v: nat, size: nat): int
    requires v < TWO64
  {
    if size == 8 then Signed64(v) else Signed32(v)
  }

  lemma SignedRoundTrip(n: int, size: nat)
    requires SizeOk(size) && InSigned(n, size)
    ensures SignedFor(Unsigned64(n), size) == n && Unsigned64(n) < TWO64
  {
    if n < 0 {
      assert (n + TWO64) % TWO32 == n + TWO32 || size == 8;
    }
  }

  function Zigzag(n: int): nat
    requires -TWO63 <= n < TWO63
  {
    if n < 0 then TWO64 - 1 - 2 * n % TWO64 else 2 * n
  }

  function Unzigzag(v: nat): int
    requires v < TWO64
  {
    if v % 2 == 1 then Signed64(TWO64 - 1 - v / 2) else Signed64(v / 2)
  }

  lemma ZigzagRoundTrip(n: int)
    requires -TWO63 <= n < TWO63
    ensures Zigzag(n) < TWO64 && Unzigzag(Zigzag(n)) == n
  {
    if n < 0 {
      assert 2 * n % TWO64 == 2 * n + TWO64;
      assert Zigzag(n) == -2 * n - 1;
    }
  }

  /** Small magnitudes stay small. */
  lemma ZigzagIsSmall(n: int)
    requires -TWO63 <= n < TWO63
    ensures Zigzag(n) == if n < 0 then -2 * n - 1 else 2 * n
  {
    if n < 0 {
      assert 2 * n % TWO64 == 2 * n + TWO64;
    }
  }

  // ---------------------------------------------------------------- tags

  const WT_VARINT: nat := 0
  const WT_64BIT: nat := 1
  const WT_STRING: nat := 2
  const WT_32BIT: nat := 5

  function TagBytes(tag: nat, wireType: nat): (r: seq<Byte>)
    ensures r != []
  {
    Varint(tag * 8 + wireType)
  }

  datatype TagRead = Tag(tag: nat, wireType: nat, used: nat) | Eof | BadTag

  /** A zero ends the message; so does the end of the stream, but not in the middle of a number. */
  function ReadTag(s: seq<Byte>): (r: TagRead)
    ensures r.Tag? ==> 0 < r.used <= |s|
  {
    if s == [] then Eof
    else
      match ReadVarint32(s)
      case None => BadTag
      case Some(n) => if n.value == 0 then Eof else Tag(n.value / 8, n.value % 8, n.used)
  }

  predicate TagOk(tag: nat) {
    0 < tag < 0x2000_0000
  }

  lemma TagRoundTrip(tag: nat, wireType: nat, rest: seq<Byte>)
    requires TagOk(tag) && wireType < 8
    ensures TagBytes(tag, wireType) + rest != []
    ensures ReadTag(TagBytes(tag, wireType) + rest) == Tag(tag, wireType, |TagBytes(tag, wireType)|)
  {
    Varint32RoundTrip(tag * 8 + wireType, rest);
    hide Varint, ReadVarint32;
  }

  // ---------------------------------------------------------------- skipping

  function SkipVarint(s: seq<Byte>): (r: Option<nat>)
    ensures r.Some? ==> 0 < r.value <= |s|
  {
    if s == [] then None
    else if s[0] < 128 then Some(1)
    else
      match SkipVarint(s[1..])
      case None => None
      case Some(n) => Some(n + 1)
  }

  /** How many bytes a field of this wire type takes. */
  function Skip(wireType: nat, s: seq<Byte>): (r: Option<nat>)
    ensures r.Some? ==> 0 < r.value <= |s|
  {
    if wireType == WT_VARINT then SkipVarint(s)
    else if wireType == WT_64BIT then (if |s| >= 8 then Some(8) else None)
    else if wireType == WT_32BIT then (if |s| >= 4 then Some(4) else None)
    else if wireType == WT_STRING then
      match ReadVarint32(s)
      case None => None
      case Some(n) => if n.used + n.value <= |s| then Some(n.used + n.value) else None
    else None
  }

  lemma {:induction false} SkipVarintIs(v: nat, rest: seq<Byte>)
    ensures SkipVarint(Varint(v) + rest) == Some(|Varint(v)|)
  {
    var s := Varint(v) + rest;
    if v >= 128 {
      assert s[1..] == Varint(v / 128) + rest;
      SkipVarintIs(v / 128, rest);
    } else {
      assert s[0] == v;
    }
  }

  lemma SkipStringIs(body: seq<Byte>, rest: seq<Byte>)
    requires |body| < TWO32
    ensures Skip(WT_STRING, (Varint(|body|) + body) + rest) == Some(|Varint(|body|) + body|)
  {
    assert (Varint(|body|) + body) + rest == Varint(|body|) + (body + rest);
    Varint32RoundTrip(|body|, body + rest);
    hide Varint, ReadVarint32;
  }
}
