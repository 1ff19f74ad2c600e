/** Message descriptors, message structs, and the bytes a message is encoded to.  A struct is a sequence of
    slots, one for each field of its descriptor. */
module PbMessage {
  import opened Keys
  import opened Bytes
  import opened Coding
  import opened PbWire

  // ---------------------------------------------------------------- descriptors

  /** What one item of a field is.  Integers carry their size in bytes, `Bytes` and `Str` the room in the
      struct, a terminator included for strings. */
  datatype LType =
    | Bool | VarInt(size: nat) | UVarInt(size: nat) | SVarInt(size: nat) | Fixed32Type | Fixed64Type
    | BytesType(max: nat) | StrType(size: nat) | FixedBytes(len: nat) | Submsg(desc: Desc)
  {
    predicate Packable() {
      !BytesType? && !StrType? && !FixedBytes? && !Submsg?
    }

    function WireType(): (r: nat)
      ensures r < 8
    {
      if Fixed32Type? then WT_32BIT else if Fixed64Type? then WT_64BIT else if Packable() then WT_VARINT else WT_STRING
    }
  }

  /** How often a field occurs.  An optional field has a flag of its own or, in the third version of the
      language, is present when it is not zero; an array counts its entries or is always full; the fields
      of a oneof group exclude each other. */
  datatype HType = Required | Optional | Implicit | Repeated(max: nat, full: bool) | Oneof(group: nat)

  datatype Field = Field(tag: nat, h: HType, l: LType)

  datatype Desc = Desc(fields: seq<Field>)

  // ---------------------------------------------------------------- messages

  datatype Value = Num(n: int) | Raw(bytes: seq<Byte>) | Sub(slots: seq<Slot>)

  /** What a struct holds for a field.  The contents of an absent field are not represented. */
  datatype Slot = One(v: Value) | Maybe(o: Option<Value>) | Many(items: seq<Value>)

  /** The string ends before its first zero byte. */
  predicate NoZero(s: seq<Byte>) {
    forall i :: 0 <= i < |s| ==> s[i] != 0
  }

  ghost predicate ValueOk(l: LType, v: Value)
    decreases l, 0
  {
    match l
    case Bool => v.Num? && 0 <= v.n <= 1
    case VarInt(size) => v.Num? && InSigned(v.n, size)
    case UVarInt(size) => v.Num? && InUnsigned(v.n, size)
    case SVarInt(size) => v.Num? && InSigned(v.n, size)
    case Fixed32Type => v.Num? && 0 <= v.n < TWO32
    case Fixed64Type => v.Num? && 0 <= v.n < TWO64
    case BytesType(max) => v.Raw?
    case StrType(size) => v.Raw? && |v.bytes| <= size && NoZero(v.bytes)
    case FixedBytes(len) => v.Raw? && |v.bytes| == len
    case Submsg(desc) => v.Sub? && SlotsOk(desc, v.slots)
  }

  ghost predicate SlotOk(f: Field, slot: Slot)
    decreases f, 1
  {
    match f.h
    case Required => slot.One? && ValueOk(f.l, slot.v)
    case Optional => slot.Maybe? && (slot.o.Some? ==> ValueOk(f.l, slot.o.value))
    case Implicit => slot.One? && ValueOk(f.l, slot.v)
    case Repeated(max, full) =>
      && slot.Many? && (full ==> |slot.items| == max)
      && forall i :: 0 <= i < |slot.items| ==> ValueOk(f.l, slot.items[i])
    case Oneof(_) => slot.Maybe? && (slot.o.Some? ==> ValueOk(f.l, slot.o.value))
  }

  /** A struct of the right shape, with at most one member of each oneof group. */
  ghost predicate SlotsOk(desc: Desc, slots: seq<Slot>)
    decreases desc, 2
  {
    && |slots| == |desc.fields|
    && (forall i :: 0 <= i < |slots| ==> SlotOk(desc.fields[i], slots[i]))
    && OneofsOk(desc, slots)
  }

  /** The fields are members of one oneof group. */
  predicate SameOneof(f: Field, g: Field) {
    f.h.Oneof? && f.h == g.h
  }

  predicate Absent(slot: Slot) {
    slot.Maybe? && slot.o.None?
  }

  ghost predicate OneofsOk(desc: Desc, slots: seq<Slot>)
    requires |slots| == |desc.fields|
  {
    forall i, j :: 0 <= i < j < |slots| && SameOneof(desc.fields[i], desc.fields[j]) ==>
          Absent(slots[i]) || Absent(slots[j])
  }

  /** Tags are distinct and fit in 29 bits, integers have a size. */
  ghost predicate DescOk(desc: Desc)
    decreases desc, 1
  {
    && (forall i :: 0 <= i < |desc.fields| ==> TagOk(desc.fields[i].tag) && LTypeOk(desc.fields[i].l))
    && (forall i, j :: 0 <= i < j < |desc.fields| ==> desc.fields[i].tag != desc.fields[j].tag)
  }

  ghost predicate LTypeOk(l: LType)
    decreases l, 0
  {
    match l
    case VarInt(size) => SizeOk(size)
    case UVarInt(size) => SizeOk(size)
    case SVarInt(size) => SizeOk(size)
    case StrType(size) => size > 0
    case Submsg(desc) => DescOk(desc)
    case _ => true
  }

  // ---------------------------------------------------------------- defaults

  /** A zeroed value; a submessage is set to its defaults. */
  function Zero(l: LType): Value
    decreases l, 0
  {
    match l
    case Submsg(desc) => Sub(Zeros(desc))
    case FixedBytes(len) => Raw(seq(len, _ => 0))
    case BytesType(_) => Raw([])
    case StrType(_) => Raw([])
    case _ => Num(0)
  }

  function ZeroSlot(f: Field): Slot
    decreases f, 1
  {
    match f.h
    case Required => One(Zero(f.l))
    case Implicit => One(Zero(f.l))
    case Repeated(_, _) => Many([])
    case _ => Maybe(None)
  }

  /** pb_message_set_to_defaults. */
  function Zeros(desc: Desc): (r: seq<Slot>)
    ensures |r| == |desc.fields|
    decreases desc, 2
  {
    seq(|desc.fields|, i requires 0 <= i < |desc.fields| => ZeroSlot(desc.fields[i]))
  }

  /** pb_check_proto3_default_value. */
  predicate IsDefault(f: Field, slot: Slot)
    decreases f, 1
  {
    match f.h
    case Required => false
    case Repeated(_, full) => !full && slot.Many? && slot.items == []
    case Oneof(_) => slot.Maybe? && slot.o.None?
    case Optional => slot.Maybe? && slot.o.None?
    case Implicit => slot.One? && IsZero(f.l, slot.v)
  }

  predicate IsZero(l: LType, v: Value)
    decreases l, 0
  {
    match l
    case Submsg(desc) => v.Sub? && |v.slots| == |desc.fields| && AllDefault(desc, v.slots, 0)
    case FixedBytes(len) => len == 0
    case BytesType(_) => v.Raw? && v.bytes == []
    case StrType(_) => v.Raw? && v.bytes == []
    case _ => v.Num? && v.n == 0
  }

  predicate AllDefault(desc: Desc, slots: seq<Slot>, i: nat)
    requires |slots| == |desc.fields| && i <= |slots|
    decreases desc, 2, |slots| - i
  {
    i == |slots| || (IsDefault(desc.fields[i], slots[i]) && AllDefault(desc, slots, i + 1))
  }

  // ---------------------------------------------------------------- encoding

  function Num64(v: Value): nat {
    if v.Num? && 0 <= v.n < TWO64 then v.n else 0
  }

  function Num63(v: Value): (r: int)
    ensures -TWO63 <= r < TWO63
  {
    if v.Num? && -TWO63 <= v.n < TWO63 then v.n else 0
  }

  function RawOf(v: Value): seq<Byte> {
    if v.Raw? then v.bytes else []
  }

  function SlotsOf(v: Value): seq<Slot> {
    if v.Sub? then v.slots else []
  }

  function Prefix(body: seq<Byte>): (r: seq<Byte>)
    ensures |r| > |body|
  {
    Varint(|body|) + body
  }

  /** One item, without its tag. */
  ghost function EncValue(l: LType, v: Value): (r: seq<Byte>)
    ensures r != []
    decreases l, 0
  {
    match l
    case Bool => Varint(if v.Num? && v.n == 0 then 0 else 1)
    case VarInt(_) => Varint(Unsigned64(Num63(v)))
    case UVarInt(_) => Varint(Num64(v))
    case SVarInt(_) => ZigzagBytes(Num63(v))
    case Fixed32Type => Fixed32(Num64(v) % TWO32)
    case Fixed64Type => Fixed64(Num64(v))
    case BytesType(_) => Prefix(RawOf(v))
    case StrType(_) => Prefix(RawOf(v))
    case FixedBytes(_) => Prefix(RawOf(v))
    case Submsg(desc) => Prefix(EncFrom(desc, SlotsOf(v), 0))
  }

  function ZigzagBytes(n: int): (r: seq<Byte>)
    requires -TWO63 <= n < TWO63
    ensures r != []
  {
    ZigzagRoundTrip(n);
    Varint(Zigzag(n))
  }

  ghost function EncTagged(f: Field, v: Value): seq<Byte>
    decreases f, 1
  {
    TagBytes(f.tag, f.l.WireType()) + EncValue(f.l, v)
  }

  /** The items of an array, each with its tag or packed without. */
  ghost function EncItems(f: Field, items: seq<Value>, packed: bool): seq<Byte>
    decreases f, 2, |items|
  {
    if items == [] then []
    else
      var last := items[|items| - 1];
      EncItems(f, items[..|items| - 1], packed) + (if packed then EncValue(f.l, last) else EncTagged(f, last))
  }

  ghost function EncSlot(f: Field, slot: Slot): seq<Byte>
    decreases f, 3
  {
    match slot
    case One(v) => if f.h.Implicit? && IsZero(f.l, v) then [] else EncTagged(f, v)
    case Maybe(o) => if o.None? then [] else EncTagged(f, o.value)
    case Many(items) =>
      if items == [] then []
      else if f.l.Packable() then TagBytes(f.tag, WT_STRING) + Prefix(EncItems(f, items, true))
      else EncItems(f, items, false)
  }

  /** The fields from `i` on. */
  ghost function EncFrom(desc: Desc, slots: seq<Slot>, i: nat): seq<Byte>
    decreases desc, 4, |desc.fields| - i
  {
    if i >= |desc.fields| || i >= |slots| then []
    else EncSlot(desc.fields[i], slots[i]) + EncFrom(desc, slots, i + 1)
  }

  ghost function Enc(desc: Desc, slots: seq<Slot>): seq<Byte> {
    EncFrom(desc, slots, 0)
  }

  // ---------------------------------------------------------------- what the encoder refuses

  /** Byte strings and arrays that do not fit the struct they claim to come from, and integers of no known
      size. */
  ghost predicate FitsValue(l: LType, v: Value)
    decreases l, 0
  {
    match l
    case VarInt(size) => SizeOk(size)
    case UVarInt(size) => SizeOk(size)
    case SVarInt(size) => SizeOk(size)
    case BytesType(max) => |RawOf(v)| <= max
    case Submsg(desc) => FitsFrom(desc, SlotsOf(v), 0)
    case _ => true
  }

  ghost predicate FitsSlot(f: Field, slot: Slot)
    decreases f, 3
  {
    match slot
    case One(v) => (f.h.Implicit? && IsZero(f.l, v)) || FitsValue(f.l, v)
    case Maybe(o) => o.Some? ==> FitsValue(f.l, o.value)
    case Many(items) => (f.h.Repeated? ==> |items| <= f.h.max) && FitsItems(f, items)
  }

  ghost predicate FitsItems(f: Field, items: seq<Value>)
    decreases f, 2, |items|
  {
    items == [] || (FitsItems(f, items[..|items| - 1]) && FitsValue(f.l, items[|items| - 1]))
  }

  ghost predicate FitsFrom(desc: Desc, slots: seq<Slot>, i: nat)
    decreases desc, 4, |desc.fields| - i
  {
    i >= |desc.fields| || i >= |slots| || (FitsSlot(desc.fields[i], slots[i]) && FitsFrom(desc, slots, i + 1))
  }

  ghost predicate Fits(desc: Desc, slots: seq<Slot>) {
    FitsFrom(desc, slots, 0)
  }
}
