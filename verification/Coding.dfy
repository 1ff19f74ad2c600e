/** Integers and strings as bytes. */
module Coding {
  import opened Keys
  import opened Bytes

  type U32 = Word
  type U64 = v: int | 0 <= v < 0x1_0000_0000_0000_0000

  // ---------------------------------------------------------------- fixed width

  function Fixed64(v: U64): (r: seq<Byte>)
    ensures |r| == 8
  {
    Fixed32(v % 0x1_0000_0000) + Fixed32(v / 0x1_0000_0000)
  }

  function DecodeFixed64(s: seq<Byte>): U64
    requires |s| >= 8
  {
    var lo: int, hi: int := DecodeFixed32(s), DecodeFixed32(s[4..]);
    lo + hi * 0x1_0000_0000
  }

  lemma Fixed64RoundTrip(v: U64, rest: seq<Byte>)
    ensures DecodeFixed64(Fixed64(v) + rest) == v
  {
    var lo, hi := v % 0x1_0000_0000, v / 0x1_0000_0000;
    Fixed32RoundTrip(lo);
    Fixed32RoundTrip(hi);
    var all := Fixed64(v) + rest;
    assert all[..4] == Fixed32(lo) && all[4..8] == Fixed32(hi);
    assert forall i :: 0 <= i < 4 ==> all[i] == Fixed32(lo)[i] && all[4..][i] == Fixed32(hi)[i];
  }

  // ---------------------------------------------------------------- varints

  /** Seven bits a byte, lowest first; the top bit says that more follow. */
  function Varint(v: nat): (r: seq<Byte>)
    ensures r != []
  {
    if v < 128 then [v] else [v % 128 + 128] + Varint(v / 128)
  }

  lemma VarintStep(v: nat)
    ensures |Varint(v)| == if v < 128 then 1 else 1 + |Varint(v / 128)|
  {
  }

  lemma Varint32Size(v: U32)
    ensures 1 <= |Varint(v)| <= 5
  {
    var b := v / 128;
    var c := b / 128;
    var d := c / 128;
    var e := d / 128;
    VarintStep(v);
    VarintStep(b);
    VarintStep(c);
    VarintStep(d);
    VarintStep(e);
    hide Varint;
    assert e < 16;
  }

  lemma Varint64Size(v: U64)
    ensures 1 <= |Varint(v)| <= 10
  {
    var b := v / 128;
    var c := b / 128;
    var d := c / 128;
    var e := d / 128;
    var f := e / 128;
    VarintStep(v);
    VarintStep(b);
    VarintStep(c);
    VarintStep(d);
    VarintStep(e);
    hide Varint;
    assert f < 0x2000_0000;
    Varint32Size(f);
  }

  /** A decoded number and how many bytes it took. */
  datatype Number = Number(value: nat, used: nat)

  /** What at most `k` bytes from the front of `s` decode to. */
  function ReadVarint(s: seq<Byte>, k: nat): (r: Option<Number>)
    ensures r.Some? ==> 0 < r.value.used <= k && r.value.used <= |s|
  {
    if k == 0 || s == [] then None
    else if s[0] < 128 then Some(Number(s[0], 1))
    else
      match ReadVarint(s[1..], k - 1)
      case None => None
      case Some(n) => Some(Number(s[0] - 128 + 128 * n.value, n.used + 1))
  }

  /** Decoding undoes encoding, whatever follows. */
  lemma {:induction false} VarintRoundTrip(v: nat, rest: seq<Byte>, k: nat)
    requires |Varint(v)| <= k
    ensures ReadVarint(Varint(v) + rest, k) == Some(Number(v, |Varint(v)|))
  {
    if v >= 128 {
      assert (Varint(v) + rest)[1..] == Varint(v / 128) + rest;
      VarintRoundTrip(v / 128, rest, k - 1);
    } else {
      assert (Varint(v) + rest)[0] == v;
    }
  }

  /** EncodeVarint32: one case per length. */
  method PutVarint32(dst: seq<Byte>, v: U32) returns (r: seq<Byte>)
    ensures r == dst + Varint(v)
  {
    var b := v / 128;
    var c := b / 128;
    var d := c / 128;
    var e := d / 128;
    if v < 0x80 {
      r := dst + [v];
    } else if v < 0x4000 {
      r := dst + [v % 128 + 128, b];
      assert Varint(b) == [b];
    } else if v < 0x20_0000 {
      r := dst + [v % 128 + 128, b % 128 + 128, c];
      assert Varint(c) == [c] && Varint(b) == [b % 128 + 128] + Varint(c);
    } else if v < 0x1000_0000 {
      r := dst + [v % 128 + 128, b % 128 + 128, c % 128 + 128, d];
      assert Varint(d) == [d] && Varint(c) == [c % 128 + 128] + Varint(d) && Varint(b) == [b % 128 + 128] + Varint(c);
    } else {
      r := dst + [v % 128 + 128, b % 128 + 128, c % 128 + 128, d % 128 + 128, e];
      assert Varint(e) == [e] && Varint(d) == [d % 128 + 128] + Varint(e);
      assert Varint(c) == [c % 128 + 128] + Varint(d) && Varint(b) == [b % 128 + 128] + Varint(c);
    }
  }

  method PutVarint64(dst: seq<Byte>, v: U64) returns (r: seq<Byte>)
    ensures r == dst + Varint(v)
  {
    r := dst;
    var left: nat := v;
    while left >= 128
      invariant r + Varint(left) == dst + Varint(v)
    {
      r := r + [left % 128 + 128];
      left := left / 128;
    }
    r := r + [left];
  }

  /** The loop of GetVarint32Ptr and GetVarint64Ptr: shifts and accumulates until a byte without the top
      bit, at most `k` of them.  The result is what fits in the word. */
  method GetVarint(s: seq<Byte>, k: nat, modulus: nat) returns (r: Option<Number>)
    requires modulus > 0
    ensures r == match ReadVarint(s, k)
                 case None => None
                 case Some(n) => Some(Number(n.value % modulus, n.used))
  {
    var result: nat := 0;
    var scale: nat := 1;
    var i: nat := 0;
    assert s[0..] == s && Shifted(ReadVarint(s, k), 0, 1, 0) == ReadVarint(s, k);
    ghost var all := ReadVarint(s, k);
    while i < k && i < |s|
      invariant i <= k && i <= |s|
      invariant all == Shifted(ReadVarint(s[i..], k - i), result, scale, i)
    {
      hide ReadVarint, Shifted, Accumulate;
      var byte: int := s[i];
      ShiftStep(s, k, result, scale, i);
      if byte >= 128 {
        result := Accumulate(result, byte - 128, scale);
      } else {
        return Some(Number(Accumulate(result, byte, scale) % modulus, i + 1));
      }
      scale := scale * 128;
      i := i + 1;
    }
    r := None;
  }

  /** Adds the bits of a byte in their place; they are disjoint from those already there. */
  function Accumulate(result: nat, bits: nat, scale: nat): nat {
    result + bits * scale
  }

  ghost function Shifted(n: Option<Number>, result: nat, scale: nat, i: nat): Option<Number> {
    match n
    case None => None
    case Some(m) => Some(Number(result + scale * m.value, i + m.used))
  }

  lemma ShiftStep(s: seq<Byte>, k: nat, result: nat, scale: nat, i: nat)
    requires i < k && i < |s|
    ensures s[i] >= 128 ==> Shifted(ReadVarint(s[i..], k - i), result, scale, i)
                            == Shifted(ReadVarint(s[i + 1..], k - i - 1),
                                Accumulate(result, s[i] as int - 128, scale), scale * 128, i + 1)
    ensures s[i] < 128 ==>
              Shifted(ReadVarint(s[i..], k - i), result, scale, i) ==
              Some(Number(Accumulate(result, s[i], scale), i + 1))
  {
    assert s[i..][1..] == s[i + 1..];
    if s[i] >= 128 {
      var n := ReadVarint(s[i + 1..], k - i - 1);
      if n.Some? {
        Distribute(scale, s[i] as int - 128, n.value.value);
      }
    } else {
      Commute(scale, s[i]);
    }
  }

  lemma Distribute(scale: nat, b: int, x: nat)
    ensures scale * (b + 128 * x) == b * scale + (scale * 128) * x
  {
    assert scale * (128 * x) == (scale * 128) * x;
    assert scale * (b + 128 * x) == scale * b + scale * (128 * x);
  }

  lemma Commute(a: int, b: int)
    ensures a * b == b * a
  {
  }

  // ---------------------------------------------------------------- length-prefixed strings

  function Prefixed(data: seq<Byte>): seq<Byte> {
    Varint(|data|) + data
  }

  /** A string and how many bytes it took, with its length. */
  datatype Piece = Piece(data: seq<Byte>, used: nat)

  function ReadPrefixed(s: seq<Byte>): (r: Option<Piece>)
    ensures r.Some? ==> 0 < r.value.used <= |s|
  {
    match ReadVarint(s, 5)
    case None => None
    case Some(n) =>
      var len := n.value % 0x1_0000_0000;
      if n.used + len <= |s| then Some(Piece(s[n.used..n.used + len], n.used + len)) else None
  }

  lemma PrefixedRoundTrip(data: seq<Byte>, rest: seq<Byte>)
    requires |data| < 0x1_0000_0000
    ensures ReadPrefixed(Prefixed(data) + rest) == Some(Piece(data, |Prefixed(data)|))
  {
    Varint32Size(|data|);
    VarintRoundTrip(|data|, data + rest, 5);
    assert Prefixed(data) + rest == Varint(|data|) + (data + rest);
    var all, n := Prefixed(data) + rest, |Varint(|data|)|;
    assert all[n..n + |data|] == data;
  }
}
