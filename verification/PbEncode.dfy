/** The encoder: one routine for sizing and for writing.  A stream without a buffer counts what would be
    written, and a submessage is sized that way before it is written. */
module PbEncode {
  import opened Keys
  import opened Bytes
  import opened Coding
  import opened PbWire
  import opened PbMessage

  /** An output stream; one that is only sizing counts and writes nothing. */
  class OStream {
    const sizing: bool
    const maxSize: nat
    var out: seq<Byte>
    var bytesWritten: nat

    constructor (sizing: bool, maxSize: nat, out: seq<Byte>)
      ensures this.sizing == sizing && this.maxSize == maxSize && this.out == out && bytesWritten == 0
    {
      this.sizing, this.maxSize, this.out, bytesWritten := sizing, maxSize, out, 0;
    }

    ghost predicate Valid()
      reads this
    {
      sizing || bytesWritten <= maxSize
    }

    /** There is room for `n` more bytes. */
    ghost predicate Room(n: nat)
      reads this
    {
      sizing || bytesWritten + n <= maxSize
    }
  }

  /** The stream went from `was` to `now` by writing `e`. */
  ghost predicate Wrote(sizing: bool, was: seq<Byte>, wasCount: nat, now: seq<Byte>, nowCount: nat, e: seq<Byte>) {
    nowCount == wasCount + |e| && now == if sizing then was else was + e
  }

  /** pb_write. */
  method Write(stream: OStream, buf: seq<Byte>) returns (ok: bool)
    requires stream.Valid()
    modifies stream
    ensures stream.Valid() && ok == old(stream.Room(|buf|))
    ensures ok ==> Wrote(stream.sizing, old(stream.out), old(stream.bytesWritten), stream.out, stream.bytesWritten, buf)
  {
    if |buf| > 0 && !stream.sizing {
      if stream.bytesWritten + |buf| > stream.maxSize {
        return false;
      }
      stream.out := stream.out + buf;
    }
    stream.bytesWritten := stream.bytesWritten + |buf|;
    ok := true;
  }

  /** pb_write without data, on a stream that is only sizing. */
  method WriteCount(stream: OStream, n: nat) returns (ok: bool)
    requires stream.sizing
    modifies stream`bytesWritten
    ensures ok && stream.bytesWritten == old(stream.bytesWritten) + n
  {
    stream.bytesWritten := stream.bytesWritten + n;
    ok := true;
  }

  method EncodeVarint(stream: OStream, value: nat) returns (ok: bool)
    requires stream.Valid()
    modifies stream
    ensures stream.Valid() && ok == old(stream.Room(|Varint(value)|))
    ensures ok ==> Wrote(stream.sizing, old(stream.out), old(stream.bytesWritten),
            stream.out, stream.bytesWritten, Varint(value))
  {
    if value <= 0x7f {
      assert Varint(value) == [value];
      ok := Write(stream, [value]);
      return;
    }
    var buffer: seq<Byte> := [];
    var left: nat := value;
    while left != 0
      invariant left > 0 ==> buffer + Varint(left) == Varint(value)
      invariant left == 0 ==> buffer != [] && buffer[|buffer| - 1] >= 128
                              && buffer[..|buffer| - 1] + [buffer[|buffer| - 1] - 128] == Varint(value)
      invariant unchanged(stream)
    {
      VarintTail(buffer, left);
      buffer := buffer + [left % 128 + 128];
      left := left / 128;
    }
    buffer := buffer[..|buffer| - 1] + [buffer[|buffer| - 1] - 128];
    ok := Write(stream, buffer);
  }

  lemma VarintTail(buffer: seq<Byte>, left: nat)
    ensures left >= 128 ==> buffer + Varint(left) == (buffer + [left % 128 + 128]) + Varint(left / 128)
    ensures left < 128 ==> left % 128 == left && left / 128 == 0 && Varint(left) == [left]
  {
  }

  method EncodeTag(stream: OStream, wireType: nat, tag: nat) returns (ok: bool)
    requires stream.Valid() && wireType < 8
    modifies stream
    ensures stream.Valid() && ok == old(stream.Room(|TagBytes(tag, wireType)|))
    ensures ok ==> Wrote(stream.sizing, old(stream.out), old(stream.bytesWritten),
            stream.out, stream.bytesWritten, TagBytes(tag, wireType))
  {
    ok := EncodeVarint(stream, tag * 8 + wireType);
  }

  /** pb_encode_string: the length, then the bytes. */
  method EncodeString(stream: OStream, body: seq<Byte>) returns (ok: bool)
    requires stream.Valid()
    modifies stream
    ensures stream.Valid() && ok == old(stream.Room(|Prefix(body)|))
    ensures ok ==> Wrote(stream.sizing, old(stream.out), old(stream.bytesWritten),
            stream.out, stream.bytesWritten, Prefix(body))
  {
    hide Varint;
    ok := EncodeVarint(stream, |body|);
    if ok {
      ok := Write(stream, body);
      assert Prefix(body) == Varint(|body|) + body;
    }
  }

  /** pb_encode_submessage: a sizing pass, the size, then a second pass into a substream that may write no
      more than that.  The second pass always writes what the first one counted. */
  method EncodeSubmessage(stream: OStream, desc: Desc, slots: seq<Slot>) returns (ok: bool, sizeChanged: bool)
    requires stream.Valid() && SlotsOk(desc, slots)
    modifies stream
    ensures !sizeChanged
    ensures stream.Valid() && ok == (Fits(desc, slots) && old(stream.Room(|Prefix(Enc(desc, slots))|)))
    ensures ok ==> Wrote(stream.sizing, old(stream.out), old(stream.bytesWritten),
            stream.out, stream.bytesWritten, Prefix(Enc(desc, slots)))
    decreases desc, 6
  {
    hide Varint, SlotsOk, EncFrom, FitsFrom;
    sizeChanged := false;
    var counter := new OStream(true, 0, []);
    ok := EncodeMessage(counter, desc, slots);
    if !ok {
      return;
    }
    var size := counter.bytesWritten;
    assert size == |Enc(desc, slots)|;
    ok := EncodeVarint(stream, size);
    if !ok {
      return;
    }
    assert Prefix(Enc(desc, slots)) == Varint(size) + Enc(desc, slots);
    if stream.sizing {
      ok := WriteCount(stream, size);
      return;
    }
    if stream.bytesWritten + size > stream.maxSize {
      return false, sizeChanged;
    }
    var substream := new OStream(false, size, stream.out);
    ok := EncodeMessage(substream, desc, slots);
    stream.bytesWritten := stream.bytesWritten + substream.bytesWritten;
    stream.out := substream.out;
    sizeChanged := substream.bytesWritten != size;
    ok := ok && !sizeChanged;
  }

  /** One item: the encoder for its type. */
  method EncodeValue(stream: OStream, l: LType, v: Value) returns (ok: bool)
    requires stream.Valid() && ValueOk(l, v)
    modifies stream
    ensures stream.Valid() && ok == (FitsValue(l, v) && old(stream.Room(|EncValue(l, v)|)))
    ensures ok ==> Wrote(stream.sizing, old(stream.out), old(stream.bytesWritten),
            stream.out, stream.bytesWritten, EncValue(l, v))
    decreases l, 1
  {
    hide Varint, SlotsOk, EncFrom, FitsFrom, Fixed32, Fixed64;
    match l
    case Bool =>
      ok := EncodeVarint(stream, if v.n != 0 then 1 else 0);
    case VarInt(size) =>
      if !SizeOk(size) { return false; }
      ok := EncodeVarint(stream, Unsigned64(v.n));
    case UVarInt(size) =>
      if !SizeOk(size) { return false; }
      ok := EncodeVarint(stream, v.n);
    case SVarInt(size) =>
      if !SizeOk(size) { return false; }
      ZigzagRoundTrip(v.n);
      ok := EncodeVarint(stream, Zigzag(v.n));
    case Fixed32Type =>
      ok := Write(stream, Fixed32(v.n));
    case Fixed64Type =>
      ok := Write(stream, Fixed64(v.n));
    case BytesType(max) =>
      if |v.bytes| > max { return false; }
      ok := EncodeString(stream, v.bytes);
    case StrType(_) =>
      ok := EncodeString(stream, v.bytes);
    case FixedBytes(_) =>
      ok := EncodeString(stream, v.bytes);
    case Submsg(desc) =>
      var sizeChanged;
      ok, sizeChanged := EncodeSubmessage(stream, desc, v.slots);
  }

  method EncodeTagged(stream: OStream, f: Field, v: Value) returns (ok: bool)
    requires stream.Valid() && ValueOk(f.l, v)
    modifies stream
    ensures stream.Valid() && ok == (FitsValue(f.l, v) && old(stream.Room(|EncTagged(f, v)|)))
    ensures ok ==> Wrote(stream.sizing, old(stream.out), old(stream.bytesWritten),
            stream.out, stream.bytesWritten, EncTagged(f, v))
    decreases f, 2
  {
    hide EncValue, TagBytes, FitsValue, ValueOk;
    ok := EncodeTag(stream, f.l.WireType(), f.tag);
    if ok {
      ok := EncodeValue(stream, f.l, v);
    }
  }

  /** The items one after the other. */
  method EncodeItems(stream: OStream, f: Field, items: seq<Value>, packed: bool) returns (ok: bool)
    requires stream.Valid() && forall i :: 0 <= i < |items| ==> ValueOk(f.l, items[i])
    modifies stream
    ensures stream.Valid() && ok == (FitsItems(f, items) && old(stream.Room(|EncItems(f, items, packed)|)))
    ensures ok ==> Wrote(stream.sizing, old(stream.out), old(stream.bytesWritten),
            stream.out, stream.bytesWritten, EncItems(f, items, packed))
    decreases f, 3
  {
    hide EncValue, EncTagged, FitsValue, ValueOk, EncItems, FitsItems;
    ok := true;
    var i := 0;
    NoItems(f, packed);
    assert items[..0] == [];
    while i < |items|
      invariant i <= |items| && stream.Valid() && ok
      invariant FitsItems(f, items[..i]) && old(stream.Room(|EncItems(f, items[..i], packed)|))
      invariant Wrote(stream.sizing, old(stream.out), old(stream.bytesWritten),
                stream.out, stream.bytesWritten, EncItems(f, items[..i], packed))
    {
      ItemsStep(f, items, i, packed);
      if packed {
        ok := EncodeValue(stream, f.l, items[i]);
      } else {
        ok := EncodeTagged(stream, f, items[i]);
      }
      if !ok {
        ItemsGrow(f, items, i + 1, packed);
        return;
      }
      i := i + 1;
    }
    assert items[..i] == items;
  }

  lemma NoItems(f: Field, packed: bool)
    ensures EncItems(f, [], packed) == [] && FitsItems(f, [])
  {
  }

  lemma ItemsStep(f: Field, items: seq<Value>, i: nat, packed: bool)
    requires i < |items|
    ensures EncItems(f, items[..i + 1], packed)
            == EncItems(f, items[..i], packed) + (if packed then EncValue(f.l, items[i]) else EncTagged(f, items[i]))
    ensures FitsItems(f, items[..i + 1]) <==> FitsItems(f, items[..i]) && FitsValue(f.l, items[i])
  {
    assert items[..i + 1][..i] == items[..i];
    hide EncValue, EncTagged, FitsValue;
  }

  /** What is refused, or takes too much room, part of the way does so all the way. */
  lemma {:induction false} ItemsGrow(f: Field, items: seq<Value>, i: nat, packed: bool)
    requires i <= |items|
    ensures FitsItems(f, items) ==> FitsItems(f, items[..i])
    ensures |EncItems(f, items[..i], packed)| <= |EncItems(f, items, packed)|
    decreases |items|
  {
    hide EncValue, EncTagged, FitsValue;
    if i == |items| {
      assert items[..i] == items;
    } else {
      var n := |items| - 1;
      ItemsGrow(f, items[..n], i, packed);
      assert items[..n][..i] == items[..i];
    }
  }

  /** encode_array: packed if the type allows it. */
  method EncodeArray(stream: OStream, f: Field, items: seq<Value>) returns (ok: bool)
    requires stream.Valid() && f.h.Repeated? && forall i :: 0 <= i < |items| ==> ValueOk(f.l, items[i])
    modifies stream
    ensures stream.Valid() && ok == (FitsSlot(f, Many(items)) && old(stream.Room(|EncSlot(f, Many(items))|)))
    ensures ok ==> Wrote(stream.sizing, old(stream.out), old(stream.bytesWritten),
            stream.out, stream.bytesWritten, EncSlot(f, Many(items)))
    decreases f, 4
  {
    hide EncValue, EncTagged, FitsValue, ValueOk, EncItems, FitsItems, TagBytes;
    if |items| == 0 {
      NoItems(f, true);
      return true;
    }
    if |items| > f.h.max {
      return false;
    }
    if !f.l.Packable() {
      ok := EncodeItems(stream, f, items, false);
      return;
    }
    ghost var body := EncItems(f, items, true);
    ok := EncodeTag(stream, WT_STRING, f.tag);
    if !ok { return; }
    var size;
    ok, size := PackedSize(f, items);
    if !ok { return; }
    ok := EncodeVarint(stream, size);
    if !ok { return; }
    assert Prefix(body) == Varint(size) + body;
    if stream.sizing {
      ok := WriteCount(stream, size);
      return;
    }
    ok := EncodeItems(stream, f, items, true);
  }

  /** The total size of the packed items. */
  method PackedSize(f: Field, items: seq<Value>) returns (ok: bool, size: nat)
    requires f.l.Packable() && forall i :: 0 <= i < |items| ==> ValueOk(f.l, items[i])
    ensures ok == FitsItems(f, items) && (ok ==> size == |EncItems(f, items, true)|)
    decreases f, 4, 0
  {
    hide EncValue, FitsValue, ValueOk, EncItems, FitsItems;
    if f.l.Fixed32Type? {
      FixedItems(f, items, 4);
      return true, 4 * |items|;
    }
    if f.l.Fixed64Type? {
      FixedItems(f, items, 8);
      return true, 8 * |items|;
    }
    var counter := new OStream(true, 0, []);
    ok := EncodeItems(counter, f, items, true);
    size := counter.bytesWritten;
  }

  lemma {:induction false} FixedItems(f: Field, items: seq<Value>, k: nat)
    requires (f.l.Fixed32Type? && k == 4) || (f.l.Fixed64Type? && k == 8)
    ensures FitsItems(f, items) && |EncItems(f, items, true)| == k * |items|
    decreases |items|
  {
    if items != [] {
      FixedItems(f, items[..|items| - 1], k);
    }
  }

  /** encode_basic_field. */
  method EncodeField(stream: OStream, f: Field, slot: Slot) returns (ok: bool)
    requires stream.Valid() && SlotOk(f, slot)
    modifies stream
    ensures stream.Valid() && ok == (FitsSlot(f, slot) && old(stream.Room(|EncSlot(f, slot)|)))
    ensures ok ==> Wrote(stream.sizing, old(stream.out), old(stream.bytesWritten),
            stream.out, stream.bytesWritten, EncSlot(f, slot))
    decreases f, 5
  {
    hide EncTagged, FitsValue, ValueOk, EncItems, FitsItems, IsZero;
    ok := true;
    match f.h
    case Required =>
      ok := EncodeTagged(stream, f, slot.v);
    case Optional =>
      if slot.o.Some? {
        ok := EncodeTagged(stream, f, slot.o.value);
      }
    case Implicit =>
      if !IsDefault(f, slot) {
        ok := EncodeTagged(stream, f, slot.v);
      }
    case Repeated(_, _) =>
      ok := EncodeArray(stream, f, slot.items);
    case Oneof(_) =>
      if slot.o.Some? {
        ok := EncodeTagged(stream, f, slot.o.value);
      }
  }

  /** pb_encode: all fields in order. */
  method EncodeMessage(stream: OStream, desc: Desc, slots: seq<Slot>) returns (ok: bool)
    requires stream.Valid() && SlotsOk(desc, slots)
    modifies stream
    ensures stream.Valid() && ok == (Fits(desc, slots) && old(stream.Room(|Enc(desc, slots)|)))
    ensures ok ==> Wrote(stream.sizing, old(stream.out), old(stream.bytesWritten),
            stream.out, stream.bytesWritten, Enc(desc, slots))
    decreases desc, 5
  {
    hide EncSlot, FitsSlot, SlotOk, EncFrom, FitsFrom, OneofsOk;
    ok := true;
    var i := 0;
    ghost var done: seq<Byte> := [];
    assert done + EncFrom(desc, slots, 0) == Enc(desc, slots);
    while i < |desc.fields|
      invariant i <= |desc.fields| && stream.Valid() && ok
      invariant done + EncFrom(desc, slots, i) == Enc(desc, slots) && (Fits(desc, slots) <==> FitsFrom(desc, slots, i))
      invariant old(stream.Room(|done|))
      invariant Wrote(stream.sizing, old(stream.out), old(stream.bytesWritten), stream.out, stream.bytesWritten, done)
    {
      FieldStep(desc, slots, i);
      ok := EncodeField(stream, desc.fields[i], slots[i]);
      if !ok {
        return;
      }
      assert (done + EncSlot(desc.fields[i], slots[i])) + EncFrom(desc, slots, i + 1) == Enc(desc, slots);
      done := done + EncSlot(desc.fields[i], slots[i]);
      i := i + 1;
    }
    FieldsEnd(desc, slots);
    assert done + [] == done;
  }

  lemma FieldStep(desc: Desc, slots: seq<Slot>, i: nat)
    requires i < |desc.fields| && i < |slots|
    ensures EncFrom(desc, slots, i) == EncSlot(desc.fields[i], slots[i]) + EncFrom(desc, slots, i + 1)
    ensures FitsFrom(desc, slots, i) <==> FitsSlot(desc.fields[i], slots[i]) && FitsFrom(desc, slots, i + 1)
  {
  }

  lemma FieldsEnd(desc: Desc, slots: seq<Slot>)
    ensures EncFrom(desc, slots, |desc.fields|) == [] && FitsFrom(desc, slots, |desc.fields|)
  {
  }

  /** pb_get_encoded_size is the size of what pb_encode writes. */
  method EncodedSize(desc: Desc, slots: seq<Slot>) returns (ok: bool, size: nat)
    requires SlotsOk(desc, slots)
    ensures ok == Fits(desc, slots) && (ok ==> size == |Enc(desc, slots)|)
  {
    var counter := new OStream(true, 0, []);
    ok := EncodeMessage(counter, desc, slots);
    size := counter.bytesWritten;
  }
}
