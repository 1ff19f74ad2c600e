/** Bloom filters. */
module Blooms {
  // No key that was put in is ever rejected.

  import opened Keys
  import opened Bytes
  import opened Coding

  // ---------------------------------------------------------------- bits in bytes

  /** Bit `j` of a number, lowest first. */
  predicate HasBit(b: nat, j: nat) {
    if j == 0 then b % 2 == 1 else HasBit(b / 2, j - 1)
  }

  /** The number with bit `j` set. */
  function WithBit(b: nat, j: nat): nat {
    if j == 0 then b / 2 * 2 + 1 else WithBit(b / 2, j - 1) * 2 + b % 2
  }

  lemma {:induction false} WithBitIs(b: nat, j: nat, i: nat)
    ensures HasBit(WithBit(b, j), i) <==> i == j || HasBit(b, i)
  {
    if i > 0 && j > 0 {
      WithBitIs(b / 2, j - 1, i - 1);
    }
  }

  function Pow2(n: nat): (r: nat)
    ensures r > 0
  {
    if n == 0 then 1 else 2 * Pow2(n - 1)
  }

  /** A bit within the width keeps the number within it. */
  lemma {:induction false} WithBitBound(b: nat, j: nat, n: nat)
    requires b < Pow2(n) && j < n
    ensures WithBit(b, j) < Pow2(n)
  {
    if j > 0 {
      WithBitBound(b / 2, j - 1, n - 1);
    }
  }

  lemma ByteWidth()
    ensures Pow2(8) == 256
  {
    assert Pow2(4) == 16;
  }

  function OrBit(b: Byte, j: nat): Byte
    requires j < 8
  {
    ByteWidth();
    WithBitBound(b, j, 8);
    WithBit(b, j)
  }

  predicate BitAt(bits: seq<Byte>, pos: nat)
    requires pos < 8 * |bits|
  {
    HasBit(bits[pos / 8], pos % 8)
  }

  function SetAt(bits: seq<Byte>, pos: nat): (r: seq<Byte>)
    requires pos < 8 * |bits|
    ensures |r| == |bits|
  {
    bits[pos / 8 := OrBit(bits[pos / 8], pos % 8)]
  }

  lemma SetAtIs(bits: seq<Byte>, pos: nat, p: nat)
    requires pos < 8 * |bits| && p < 8 * |bits|
    ensures BitAt(SetAt(bits, pos), p) <==> p == pos || BitAt(bits, p)
  {
    WithBitIs(bits[pos / 8], pos % 8, p % 8);
  }

  // ---------------------------------------------------------------- the filter

  type Hash = seq<Byte> -> Word

  /** Rotated right by 17 bits; the two parts have no bit in common. */
  function Delta(h: Word): Word {
    h / 0x2_0000 + h % 0x2_0000 * 0x8000
  }

  /** The hash value of probe `j`. */
  function Probe(h: Word, j: nat): Word {
    if j == 0 then h else (Probe(h, j - 1) + Delta(h)) % 0x1_0000_0000
  }

  /** The bits that `k` probes for one key touch, out of `bits`. */
  ghost function TouchedBy(h: Word, k: nat, bits: nat): set<nat>
    requires bits > 0
  {
    set j | 0 <= j < k :: Probe(h, j) % bits
  }

  ghost function Touched(hash: Hash, keys: seq<seq<Byte>>, k: nat, bits: nat): set<nat>
    requires bits > 0
  {
    if keys == [] then {} else Touched(hash, keys[..|keys| - 1], k, bits) + TouchedBy(hash(keys[|keys| - 1]), k, bits)
  }

  lemma {:induction false} TouchedHas(hash: Hash, keys: seq<seq<Byte>>, k: nat, bits: nat, key: seq<Byte>)
    requires bits > 0 && key in keys
    ensures TouchedBy(hash(key), k, bits) <= Touched(hash, keys, k, bits)
    decreases |keys|
  {
    var n := |keys| - 1;
    if keys[n] != key {
      assert key in keys[..n];
      TouchedHas(hash, keys[..n], k, bits, key);
    }
  }

  /** A filter holds the bits of its keys and no others, and ends with the number of probes. */
  ghost predicate FilterIs(hash: Hash, keys: seq<seq<Byte>>, k: nat, f: seq<Byte>) {
    && 0 < k <= 30 && |f| >= 9 && f[|f| - 1] == k
    && BitsAre(f[..|f| - 1], Touched(hash, keys, k, 8 * (|f| - 1)))
  }

  ghost predicate BitsAre(bits: seq<Byte>, s: set<nat>) {
    forall p: nat {:trigger BitAt(bits, p)} :: p < 8 * |bits| ==> (BitAt(bits, p) <==> p in s)
  }

  /** What the filter says of a key. */
  ghost predicate May(hash: Hash, f: seq<Byte>, key: seq<Byte>) {
    |f| >= 2 && (f[|f| - 1] > 30 || Passes(hash, f, key, f[|f| - 1]))
  }

  ghost predicate Passes(hash: Hash, f: seq<Byte>, key: seq<Byte>, k: nat)
    requires |f| >= 2
  {
    forall j :: 0 <= j < k ==> BitAt(f[..|f| - 1], Probe(hash(key), j) % (8 * (|f| - 1)))
  }

  lemma NeverRejects(hash: Hash, keys: seq<seq<Byte>>, k: nat, f: seq<Byte>, key: seq<Byte>)
    requires FilterIs(hash, keys, k, f) && key in keys
    ensures May(hash, f, key)
  {
    var bits := 8 * (|f| - 1);
    TouchedHas(hash, keys, k, bits, key);
    forall j | 0 <= j < k ensures BitAt(f[..|f| - 1], Probe(hash(key), j) % bits) {
      assert Probe(hash(key), j) % bits in TouchedBy(hash(key), k, bits);
    }
  }

  class BloomPolicy {
    const bitsPerKey: nat
    const k: nat
    const hash: Hash

    constructor (bitsPerKey: nat, hash: Hash)
      ensures 0 < k <= 30 && this.bitsPerKey == bitsPerKey && this.hash == hash
    {
      this.bitsPerKey := bitsPerKey;
      this.hash := hash;
      var probes: int := (bitsPerKey as real * 0.69).Floor;
      this.k := if probes < 1 then 1 else if probes > 30 then 30 else probes;
    }

    /** Sets the bits of one key. */
    method AddKey(bits: seq<Byte>, key: seq<Byte>, ghost was: set<nat>) returns (r: seq<Byte>, ghost now: set<nat>)
      requires |bits| > 0 && BitsAre(bits, was)
      ensures |r| == |bits| && BitsAre(r, now)
      ensures now == was + TouchedBy(hash(key), k, 8 * |bits|)
    {
      hide BitAt, SetAt, Delta, Probe, TouchedBy, BitsAre;
      NoProbes(hash(key), 8 * |bits|);
      r, now := bits, was;
      var h := hash(key);
      var delta := Delta(h);
      var j := 0;
      ProbeStep(h, 0);
      while j < k
        invariant j <= k && |r| == |bits| && BitsAre(r, now) && h == Probe(hash(key), j) && delta == Delta(hash(key))
        invariant now == was + TouchedBy(hash(key), j, 8 * |bits|)
      {
        var pos := h % (8 * |bits|);
        r, now := Marked(r, now, pos);
        OneMore(hash(key), j, 8 * |bits|);
        h := (h + delta) % 0x1_0000_0000;
        ProbeStep(hash(key), j);
        j := j + 1;
      }
    }

    static method Marked(bits: seq<Byte>, ghost s: set<nat>, pos: nat) returns (r: seq<Byte>, ghost now: set<nat>)
      requires pos < 8 * |bits| && BitsAre(bits, s)
      ensures |r| == |bits| && now == s + {pos} && BitsAre(r, now)
    {
      hide BitAt, SetAt;
      r, now := SetAt(bits, pos), s + {pos};
      forall p: nat | p < 8 * |bits| ensures BitAt(r, p) <==> p in now {
        SetAtIs(bits, pos, p);
      }
    }

    method CreateFilter(keys: seq<seq<Byte>>, dst: seq<Byte>) returns (r: seq<Byte>, ghost f: seq<Byte>)
      requires 0 < k <= 30
      ensures r == dst + f && FilterIs(hash, keys, k, f)
      ensures 8 * (|f| - 1) >= 64 && 8 * (|f| - 1) >= |keys| * bitsPerKey
    {
      hide BitAt, Probe, BitsAre, Touched, FilterIs;
      var bits: nat := |keys| * bitsPerKey;
      if bits < 64 { bits := 64; }
      var bytes := (bits + 7) / 8;
      var a: seq<Byte> := seq(bytes, _ => 0);
      ghost var s: set<nat> := {};
      NoBits(a);
      var i := 0;
      TouchedNone(hash, k, 8 * bytes);
      assert keys[..0] == [];
      while i < |keys|
        invariant i <= |keys| && |a| == bytes && BitsAre(a, s)
        invariant s == Touched(hash, keys[..i], k, 8 * bytes)
      {
        TouchedStep(hash, keys, i, k, 8 * bytes);
        a, s := AddKey(a, keys[i], s);
        i := i + 1;
      }
      assert keys[..i] == keys;
      f := a + [k];
      r := dst + a + [k];
      assert f[..|f| - 1] == a;
      FilterMade(hash, keys, k, f);
    }

    method KeyMayMatch(key: seq<Byte>, f: seq<Byte>) returns (r: bool)
      ensures r == May(hash, f, key)
    {
      hide BitAt, Probe;
      if |f| < 2 { return false; }
      var a, bits := f[..|f| - 1], (|f| - 1) * 8;
      var probes := f[|f| - 1];
      if probes > 30 { return true; }
      var h := hash(key);
      var delta := Delta(h);
      var j := 0;
      ProbeStep(h, 0);
      while j < probes
        invariant j <= probes && h == Probe(hash(key), j) && delta == Delta(hash(key))
        invariant forall i :: 0 <= i < j ==> BitAt(a, Probe(hash(key), i) % bits)
      {
        if !BitAt(a, h % bits) { return false; }
        h := (h + delta) % 0x1_0000_0000;
        ProbeStep(hash(key), j);
        j := j + 1;
      }
      r := true;
    }
  }

  lemma ProbeStep(h: Word, j: nat)
    ensures Probe(h, 0) == h && Probe(h, j + 1) == (Probe(h, j) + Delta(h)) % 0x1_0000_0000
  {
  }

  lemma {:induction false} ZeroBits(j: nat)
    ensures !HasBit(0, j)
  {
    if j > 0 {
      ZeroBits(j - 1);
    }
  }

  lemma NoBits(a: seq<Byte>)
    requires forall i :: 0 <= i < |a| ==> a[i] == 0
    ensures BitsAre(a, {})
  {
    forall p: nat | p < 8 * |a| ensures !BitAt(a, p) {
      ZeroBits(p % 8);
    }
  }

  lemma NoProbes(h: Word, bits: nat)
    requires bits > 0
    ensures TouchedBy(h, 0, bits) == {}
  {
  }

  lemma OneMore(h: Word, j: nat, bits: nat)
    requires bits > 0
    ensures TouchedBy(h, j + 1, bits) == TouchedBy(h, j, bits) + {Probe(h, j) % bits}
  {
    hide Probe;
  }

  lemma TouchedNone(hash: Hash, k: nat, bits: nat)
    requires bits > 0
    ensures Touched(hash, [], k, bits) == {}
  {
  }

  lemma TouchedStep(hash: Hash, keys: seq<seq<Byte>>, i: nat, k: nat, bits: nat)
    requires bits > 0 && i < |keys|
    ensures Touched(hash, keys[..i + 1], k, bits) ==
            Touched(hash, keys[..i], k, bits) + TouchedBy(hash(keys[i]), k, bits)
  {
    hide TouchedBy;
    assert keys[..i + 1][..i] == keys[..i];
  }

  lemma FilterMade(hash: Hash, keys: seq<seq<Byte>>, k: nat, f: seq<Byte>)
    requires 0 < k <= 30 && |f| >= 9 && f[|f| - 1] == k
    requires BitsAre(f[..|f| - 1], Touched(hash, keys, k, 8 * (|f| - 1)))
    ensures FilterIs(hash, keys, k, f)
  {
  }
}
