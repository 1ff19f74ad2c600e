/** Decoding what was encoded gives it back. */
module PbRoundTrip {
  import opened Keys
  import opened Bytes
  import opened Coding
  import opened PbWire
  import opened PbMessage
  import opened PbDecode
  import opened PbEvolution

  // ---------------------------------------------------------------- messages that survive

  /** A value of the right shape that fits its struct; strings have room for their terminator. */
  ghost predicate Storable(l: LType, v: Value)
    decreases l, 0
  {
    match l
    case BytesType(max) => v.Raw? && |v.bytes| <= max
    case StrType(size) => v.Raw? && |v.bytes| < size && NoZero(v.bytes)
    case Submsg(desc) => v.Sub? && StorableSlots(desc, v.slots)
    case _ => ValueOk(l, v) && FitsValue(l, v)
  }

  ghost predicate StorableSlot(f: Field, slot: Slot)
    decreases f, 1
  {
    match f.h
    case Required => slot.One? && Storable(f.l, slot.v)
    case Implicit => slot.One? && Storable(f.l, slot.v)
    case Repeated(max, full) => slot.Many? && |slot.items| <= max
        && (full ==> |slot.items| == max) && StorableItems(f.l, slot.items)
    case _ => slot.Maybe? && (slot.o.Some? ==> Storable(f.l, slot.o.value))
  }

  ghost predicate StorableItems(l: LType, items: seq<Value>)
    decreases l, 1
  {
    forall i :: 0 <= i < |items| ==> Storable(l, items[i])
  }

  ghost predicate StorableSlots(desc: Desc, slots: seq<Slot>)
    decreases desc, 2
  {
    && |slots| == |desc.fields|
    && (forall i :: 0 <= i < |slots| ==> StorableSlot(desc.fields[i], slots[i]))
    && OneofsOk(desc, slots)
  }

  // ---------------------------------------------------------------- defaults

  /** What counts as the default is the default. */
  lemma {:induction false} ZeroIs(l: LType, v: Value)
    requires Storable(l, v) && IsZero(l, v)
    ensures v == Zero(l)
    decreases l, 0
  {
    match l {
      case Submsg(desc) => AllZero(desc, v.slots, 0); assert v.slots == Zeros(desc);
      case FixedBytes(len) => assert v.bytes == [];
      case _ =>
    }
  }

  lemma {:induction false} DefaultIs(f: Field, slot: Slot)
    requires StorableSlot(f, slot) && IsDefault(f, slot)
    ensures slot == ZeroSlot(f)
    decreases f, 1
  {
    if f.h.Implicit? {
      ZeroIs(f.l, slot.v);
    }
  }

  lemma {:induction false} AllZero(desc: Desc, slots: seq<Slot>, i: nat)
    requires StorableSlots(desc, slots) && i <= |slots| && AllDefault(desc, slots, i)
    ensures forall j :: i <= j < |slots| ==> slots[j] == ZeroSlot(desc.fields[j])
    decreases desc, 2, |slots| - i
  {
    if i < |slots| {
      DefaultIs(desc.fields[i], slots[i]);
      AllZero(desc, slots, i + 1);
    }
  }

  // ---------------------------------------------------------------- single items

  lemma StringRoundTrip(body: seq<Byte>, rest: seq<Byte>)
    requires |body| < TWO32
    ensures ReadString(Prefix(body) + rest) == Some(Got(body, |Prefix(body)|))
  {
    hide Varint, ReadVarint32;
    var s, n := Prefix(body) + rest, |Varint(|body|)|;
    assert s == Varint(|body|) + (body + rest);
    Varint32RoundTrip(|body|, body + rest);
    assert s[n..n + |body|] == body;
  }

  lemma NumberRoundTrip(v: nat, rest: seq<Byte>)
    requires v < TWO64
    ensures ReadNumber(Varint(v) + rest) == Some(Number(v, |Varint(v)|))
  {
    Varint64Size(v);
    VarintRoundTrip(v, rest, 10);
    hide Varint, ReadVarint;
  }

  lemma Fixed32Back(w: Word, rest: seq<Byte>)
    ensures DecodeFixed32(Fixed32(w) + rest) == w
  {
    Fixed32RoundTrip(w);
    var s, t := Fixed32(w) + rest, Fixed32(w);
    assert s[0] == t[0] && s[1] == t[1] && s[2] == t[2] && s[3] == t[3];
  }

  lemma ScalarRoundTrip(l: LType, v: Value, rest: seq<Byte>)
    requires !l.Submsg? && Storable(l, v) && |EncValue(l, v)| < TWO32
    ensures DecScalar(l, EncValue(l, v) + rest) == Some(Got(v, |EncValue(l, v)|))
  {
    hide Varint, ReadVarint, ReadVarint32, Fixed32, Fixed64,
         DecodeFixed32, DecodeFixed64, Prefix, ReadString, ReadNumber;
    match l {
      case Bool => Varint32RoundTrip(v.n, rest);
      case VarInt(size) =>
        SignedRoundTrip(v.n, size);
        NumberRoundTrip(Unsigned64(v.n), rest);
      case UVarInt(size) => NumberRoundTrip(v.n, rest);
      case SVarInt(size) =>
        ZigzagRoundTrip(v.n);
        NumberRoundTrip(Zigzag(v.n), rest);
      case Fixed32Type => Fixed32Back(v.n, rest);
      case Fixed64Type => Fixed64RoundTrip(v.n, rest);
      case BytesType(_) => StringRoundTrip(v.bytes, rest);
      case StrType(_) =>
        StringRoundTrip(v.bytes, rest);
        UptoZeroIs(v.bytes);
      case FixedBytes(len) =>
        StringRoundTrip(v.bytes, rest);
        assert len == 0 ==> seq(len, _ => 0) == v.bytes;
      case Submsg(_) =>
    }
  }

  /** Packed items come back in order. */
  lemma {:induction false} PackedRoundTrip(f: Field, items: seq<Value>, tail: seq<Byte>, acc: seq<Value>, max: nat)
    requires f.l.Packable() && StorableItems(f.l, items) && |acc| + |items| <= max
    requires |EncItems(f, items, true)| < TWO32
    ensures DecPacked(f.l, EncItems(f, items, true) + tail, acc, max) == DecPacked(f.l, tail, acc + items, max)
    decreases |items|
  {
    hide EncValue, DecScalar, Storable;
    if items == [] {
      assert [] + tail == tail && acc + [] == acc;
    } else {
      var n := |items| - 1;
      var before, last := items[..n], items[n];
      var e := EncValue(f.l, last);
      PackedRoundTrip(f, before, e + tail, acc, max);
      assert EncItems(f, items, true) + tail == EncItems(f, before, true) + (e + tail);
      ScalarRoundTrip(f.l, last, tail);
      assert (e + tail)[|e|..] == tail && acc + before + [last] == acc + items;
    }
  }

  // ---------------------------------------------------------------- one field

  lemma TagIndex(desc: Desc, i: nat)
    requires DescOk(desc) && i < |desc.fields|
    ensures IndexOf(desc, desc.fields[i].tag) == Some(i) && TagOk(desc.fields[i].tag)
  {
    var r := IndexOf(desc, desc.fields[i].tag);
    assert r.Some? && desc.fields[r.value].tag == desc.fields[i].tag;
  }

  /** Reading a tag, then the contents. */
  lemma OneField(desc: Desc, i: nat, wireType: nat, body: seq<Byte>, rest: seq<Byte>, st: St, e: St, slot: Slot)
    requires DescOk(desc) && i < |desc.fields| && |st.slots| == |desc.fields| && wireType < 8
    requires Entered(desc, i, st) == Some(e)
    requires DecSlot(desc.fields[i], wireType, body + rest, e.slots[i]) == Some(Got(slot, |body|))
    ensures DecLoop(desc, (TagBytes(desc.fields[i].tag, wireType) + body) + rest, st)
            == DecLoop(desc, rest, St(e.slots[i := slot], e.seen, e.filling))
  {
    hide TagBytes, DecSlot, Entered, ReadTag, IndexOf;
    var tag := TagBytes(desc.fields[i].tag, wireType);
    TagIndex(desc, i);
    TagRoundTrip(desc.fields[i].tag, wireType, body + rest);
    var s := (tag + body) + rest;
    assert s == tag + (body + rest) && s[|tag|..] == body + rest && s[|tag| + |body|..] == rest;
  }

  /** The state when the fields before `i` have been read. */
  ghost predicate Reached(desc: Desc, slots: seq<Slot>, i: nat, st: St)
    requires |slots| == |desc.fields| && i <= |slots|
  {
    && |st.slots| == |slots|
    && (forall j :: 0 <= j < i ==> st.slots[j] == slots[j])
    && (forall j :: i <= j < |slots| ==> st.slots[j] == ZeroSlot(desc.fields[j]))
    && (forall j :: 0 <= j < i && desc.fields[j].h.Required? && RequiredBefore(desc, j) < MAX_REQUIRED ==>
         RequiredBefore(desc, j) in st.seen)
    && Filled(desc, st) && (st.filling.Some? ==> st.filling.value < i)
  }

  /** A field that is not written. */
  lemma Unwritten(desc: Desc, slots: seq<Slot>, i: nat, st: St)
    requires |slots| == |desc.fields| && i < |slots| && Reached(desc, slots, i, st)
    requires slots[i] == ZeroSlot(desc.fields[i]) && !desc.fields[i].h.Required?
    ensures Reached(desc, slots, i + 1, st)
  {
  }

  /** Of a oneof group at most one member is present. */
  lemma OthersAbsent(desc: Desc, slots: seq<Slot>, i: nat, j: nat)
    requires |slots| == |desc.fields| && OneofsOk(desc, slots) && i < |slots| && j < |slots| && i != j
    requires SameOneof(desc.fields[i], desc.fields[j]) && !Absent(slots[i])
    ensures Absent(slots[j])
  {
    if j < i {
      assert SameOneof(desc.fields[j], desc.fields[i]);
    }
  }

  lemma StartsAbsent(f: Field)
    ensures f.h.Oneof? ==> ZeroSlot(f) == Maybe(None)
  {
  }

  lemma OnlyOneLeft(desc: Desc, slots: seq<Slot>, i: nat, st: St)
    requires |slots| == |desc.fields| && OneofsOk(desc, slots) && i < |slots| && Reached(desc, slots, i, st)
    requires desc.fields[i].h.Oneof? && !Absent(slots[i])
    ensures OnlyOf(desc, i, st.slots) == st.slots
  {
    forall j | 0 <= j < |slots| && j != i && SameOneof(desc.fields[i], desc.fields[j])
        ensures st.slots[j] == Maybe(None) {
      OthersAbsent(desc, slots, i, j);
      StartsAbsent(desc.fields[j]);
    }
  }

  /** A field whose contents have been read. */
  lemma Written(desc: Desc, slots: seq<Slot>, i: nat, st: St, e: St)
    requires |slots| == |desc.fields| && OneofsOk(desc, slots) && i < |slots| && StorableSlot(desc.fields[i], slots[i])
    requires Reached(desc, slots, i, st) && Entered(desc, i, st) == Some(e)
    requires desc.fields[i].h.Oneof? ==> !Absent(slots[i])
    ensures |e.slots| == |slots| && e.slots[i] == ZeroSlot(desc.fields[i])
    ensures Reached(desc, slots, i + 1, St(e.slots[i := slots[i]], e.seen, e.filling))
  {
    hide Storable, OneofsOk;
    if desc.fields[i].h.Oneof? {
      OnlyOneLeft(desc, slots, i, st);
    }
    assert e.slots == st.slots;
  }

  lemma StoredAt(desc: Desc, slots: seq<Slot>, i: nat)
    requires StorableSlots(desc, slots) && i < |slots|
    ensures |slots| == |desc.fields| && StorableSlot(desc.fields[i], slots[i]) && OneofsOk(desc, slots)
  {
  }

  lemma CanEnter(desc: Desc, slots: seq<Slot>, i: nat, st: St) returns (e: St)
    requires |slots| == |desc.fields| && i < |slots| && Reached(desc, slots, i, st)
    ensures Entered(desc, i, st) == Some(e)
  {
    e := Entered(desc, i, st).value;
  }

  /** A value of a field that occurs once. */
  lemma {:induction false} SingleField(desc: Desc, slots: seq<Slot>, i: nat, g: Field, v: Value, rest: seq<Byte>,
                                       st: St)
    returns (st2: St)
    requires DescOk(desc) && StorableSlots(desc, slots) && |slots| == |desc.fields|
             && i < |slots| && Reached(desc, slots, i, st)
    requires FieldEvolves(desc.fields[i], g) && LTypeOk(g.l) && |EncTagged(g, v)| < TWO32
    requires !desc.fields[i].h.Repeated? && Storable(desc.fields[i].l, Known(desc.fields[i].l, g.l, v))
    requires var w := Known(desc.fields[i].l, g.l, v);
             slots[i] == if desc.fields[i].h.Required? || desc.fields[i].h.Implicit? then One(w) else Maybe(Some(w))
    ensures Reached(desc, slots, i + 1, st2) && |st.slots| == |desc.fields| && |st2.slots| == |desc.fields|
    ensures DecLoop(desc, EncTagged(g, v) + rest, st) == DecLoop(desc, rest, st2)
    decreases desc, 4
  {
    hide Entered, DecLoop, EncValue, TagBytes, Reached, StorableSlots, Known, TypeEvolves;
    var f := desc.fields[i];
    StoredAt(desc, slots, i);
    SlotCount(desc, slots, i, st);
    var e := CanEnter(desc, slots, i, st);
    Written(desc, slots, i, st, e);
    LTypeOkAt(desc, i);
    ValueRoundTrip(f.l, g.l, v, rest, BaseOf(f, e.slots[i]));
    OneField(desc, i, g.l.WireType(), EncValue(g.l, v), rest, st, e, slots[i]);
    st2 := St(e.slots[i := slots[i]], e.seen, e.filling);
  }

  lemma SlotCount(desc: Desc, slots: seq<Slot>, i: nat, st: St)
    requires |slots| == |desc.fields| && i <= |slots| && Reached(desc, slots, i, st)
    ensures |st.slots| == |slots|
  {
  }

  lemma LTypeOkAt(desc: Desc, i: nat)
    requires DescOk(desc) && i < |desc.fields|
    ensures LTypeOk(desc.fields[i].l)
  {
  }

  /** A value comes back as what the receiver knows of it. */
  lemma {:induction false} ValueRoundTrip(l: LType, m: LType, v: Value, rest: seq<Byte>, base: Value)
    requires LTypeOk(l) && LTypeOk(m) && TypeEvolves(l, m) && Storable(l, Known(l, m, v))
    requires |EncValue(m, v)| < TWO32 && base == Zero(l)
    ensures DecValue(l, EncValue(m, v) + rest, base) == Some(Got(Known(l, m, v), |EncValue(m, v)|))
    decreases l, 3
  {
    hide DecScalar, ReadString, DecMessage, Prefix, Evolves, KnownSlots;
    if l.Submsg? {
      var body := EncFrom(m.desc, v.slots, 0);
      StringRoundTrip(body, rest);
      ForwardCompatible(l.desc, m.desc, v.slots);
      assert EncValue(m, v) == Prefix(body);
    } else {
      SameWire(l, m, v);
      ScalarRoundTrip(l, v, rest);
    }
  }

  // ---------------------------------------------------------------- arrays

  lemma EnteredTwice(desc: Desc, i: nat, st: St, e: St)
    requires |st.slots| == |desc.fields| && i < |desc.fields|
             && desc.fields[i].h.Repeated? && Entered(desc, i, st) == Some(e)
    ensures Entered(desc, i, e) == Some(e)
    ensures IsFull(desc.fields[i]) ==> e.filling == Some(i)
  {
  }

  /** An array being filled goes on. */
  lemma Stays(desc: Desc, i: nat, e: St)
    requires |e.slots| == |desc.fields| && i < |desc.fields| && desc.fields[i].h.Repeated?
    requires IsFull(desc.fields[i]) ==> e.filling == Some(i)
    ensures Entered(desc, i, e) == Some(e)
  {
  }

  /** Items with a tag each, appended to those already there. */
  lemma {:induction false} ItemsRoundTrip(desc: Desc, i: nat, g: Field,
                                          items: seq<Value>, rest: seq<Byte>, e: St, acc: seq<Value>)
    requires DescOk(desc) && i < |desc.fields| && |e.slots| == |desc.fields|
    requires FieldEvolves(desc.fields[i], g) && LTypeOk(g.l) && desc.fields[i].h.Repeated?
    requires !desc.fields[i].l.Packable() && |acc| + |items| <= desc.fields[i].h.max
    requires StorableItems(desc.fields[i].l, KnownItems(desc.fields[i].l, g.l, items))
    requires |EncItems(g, items, false)| < TWO32 && (IsFull(desc.fields[i]) ==> e.filling == Some(i))
    ensures DecLoop(desc, EncItems(g, items, false) + rest, St(e.slots[i := Many(acc)], e.seen, e.filling)) ==
            DecLoop(desc, rest,
                    St(e.slots[i := Many(acc + KnownItems(desc.fields[i].l, g.l, items))], e.seen, e.filling))
    decreases desc, 4, |items|
  {
    hide Entered, DecLoop, EncValue, TagBytes, Storable, DescOk, Known, TypeEvolves;
    var f := desc.fields[i];
    var all := KnownItems(f.l, g.l, items);
    if items == [] {
      assert [] + rest == rest && acc + all == acc;
    } else {
      var n := |items| - 1;
      var before, last := items[..n], items[n];
      var t, known := EncTagged(g, last), KnownItems(f.l, g.l, before);
      assert known == all[..n] && all[n] == Known(f.l, g.l, last);
      ItemsRoundTrip(desc, i, g, before, t + rest, e, acc);
      assert EncItems(g, items, false) + rest == EncItems(g, before, false) + (t + rest);
      LTypeOkAt(desc, i);
      ValueRoundTrip(f.l, g.l, last, rest, Zero(f.l));
      Kinds(f, g);
      SameWireType(f.l, g.l);
      var st := St(e.slots[i := Many(acc + known)], e.seen, e.filling);
      Stays(desc, i, st);
      OneField(desc, i, g.l.WireType(), EncValue(g.l, last), rest, st, st, Many(acc + known + [all[n]]));
      assert acc + known + [all[n]] == acc + all;
      assert e.slots[i := Many(acc + known)][i := Many(acc + all)] == e.slots[i := Many(acc + all)];
    }
  }

  lemma Kinds(f: Field, g: Field)
    ensures FieldEvolves(f, g) ==> f.tag == g.tag && SameKind(f.l, g.l)
  {
    hide SameKind;
    if FieldEvolves(f, g) {
      assert TypeEvolves(f.l, g.l);
    }
  }

  /** A field's first byte enters it. */
  lemma Enters(desc: Desc, i: nat, wireType: nat, more: seq<Byte>, st: St, e: St)
    requires DescOk(desc) && i < |desc.fields| && |st.slots| == |desc.fields|
             && |e.slots| == |desc.fields| && wireType < 8
    requires Entered(desc, i, st) == Some(e) && Entered(desc, i, e) == Some(e)
    ensures DecLoop(desc, TagBytes(desc.fields[i].tag, wireType) + more, st) ==
            DecLoop(desc, TagBytes(desc.fields[i].tag, wireType) + more, e)
  {
    hide Entered, TagBytes, ReadTag, IndexOf, DecSlot, DescOk;
    var tag := TagBytes(desc.fields[i].tag, wireType);
    TagIndex(desc, i);
    TagRoundTrip(desc.fields[i].tag, wireType, more);
    assert (tag + more)[|tag|..] == more;
  }

  /** The first item enters the field for all. */
  lemma FirstEnters(desc: Desc, i: nat, g: Field, items: seq<Value>, rest: seq<Byte>, st: St, e: St)
    requires DescOk(desc) && i < |desc.fields| && |st.slots| == |desc.fields| && items != []
    requires desc.fields[i].h.Repeated? && Entered(desc, i, st) == Some(e) && g.tag == desc.fields[i].tag
    ensures DecLoop(desc, EncItems(g, items, false) + rest, st) == DecLoop(desc, EncItems(g, items, false) + rest, e)
  {
    hide DecLoop, TagBytes, EncItems, Entered, DescOk;
    EnteredTwice(desc, i, st, e);
    var more := StartsWithTag(g, items);
    Enters(desc, i, g.l.WireType(), more + rest, st, e);
    assert EncItems(g, items, false) + rest == TagBytes(g.tag, g.l.WireType()) + (more + rest);
  }

  lemma {:induction false} StartsWithTag(f: Field, items: seq<Value>) returns (more: seq<Byte>)
    requires items != []
    ensures EncItems(f, items, false) == TagBytes(f.tag, f.l.WireType()) + more
    decreases |items|
  {
    hide EncValue, TagBytes;
    var n := |items| - 1;
    var tag := TagBytes(f.tag, f.l.WireType());
    if n == 0 {
      more := EncValue(f.l, items[0]);
      assert items[..0] == [] && EncItems(f, items[..0], false) == [];
      assert EncItems(f, items, false) == [] + EncTagged(f, items[0]);
    } else {
      var m := StartsWithTag(f, items[..n]);
      more := m + EncTagged(f, items[n]);
      assert (tag + m) + EncTagged(f, items[n]) == tag + more;
    }
  }

  /** Both sides write the array alike. */
  lemma PackedBytes(f: Field, g: Field, items: seq<Value>)
    requires FieldEvolves(f, g) && f.l.Packable() && items != []
    ensures KnownItems(f.l, g.l, items) == items
    ensures EncSlot(g, Many(items)) == TagBytes(f.tag, WT_STRING) + Prefix(EncItems(f, items, true))
  {
    hide FieldEvolves, SameKind, TagBytes, Prefix, EncItems, KnownItems;
    Kinds(f, g);
    SameWireType(f.l, g.l);
    SamePacked(f, g, items);
  }

  /** An array of a type that packs. */
  lemma PackedField(desc: Desc, slots: seq<Slot>, i: nat, items: seq<Value>, rest: seq<Byte>, st: St)
    returns (st2: St)
    requires DescOk(desc) && StorableSlots(desc, slots) && |slots| == |desc.fields|
             && i < |slots| && Reached(desc, slots, i, st)
    requires desc.fields[i].h.Repeated? && desc.fields[i].l.Packable() && slots[i] == Many(items)
    requires |Prefix(EncItems(desc.fields[i], items, true))| < TWO32
    ensures Reached(desc, slots, i + 1, st2) && |st.slots| == |desc.fields| && |st2.slots| == |desc.fields|
    ensures var bytes := TagBytes(desc.fields[i].tag, WT_STRING) + Prefix(EncItems(desc.fields[i], items, true));
            DecLoop(desc, bytes + rest, st) == DecLoop(desc, rest, st2)
  {
    var f := desc.fields[i];
    StoredAt(desc, slots, i);
    var e := CanEnter(desc, slots, i, st);
    Written(desc, slots, i, st, e);
    assert StorableSlot(f, slots[i]);
    hide Entered, DecLoop, EncValue, TagBytes, Reached, StorableSlots, Prefix, EncItems, ReadString, Storable;
    var body := EncItems(f, items, true);
    StringRoundTrip(body, rest);
    PackedRoundTrip(f, items, [], [], f.h.max);
    assert body + [] == body && [] + items == items;
    OneField(desc, i, WT_STRING, Prefix(body), rest, st, e, slots[i]);
    st2 := St(e.slots[i := slots[i]], e.seen, e.filling);
  }

  lemma {:induction false} TaggedArray(desc: Desc, slots: seq<Slot>, i: nat, g: Field, items: seq<Value>,
                                       rest: seq<Byte>, st: St)
    returns (st2: St)
    requires DescOk(desc) && StorableSlots(desc, slots) && |slots| == |desc.fields|
             && i < |slots| && Reached(desc, slots, i, st)
    requires FieldEvolves(desc.fields[i], g) && LTypeOk(g.l)
    requires desc.fields[i].h.Repeated? && !desc.fields[i].l.Packable()
    requires items != [] && slots[i] == Many(KnownItems(desc.fields[i].l, g.l, items))
    requires |EncSlot(g, Many(items))| < TWO32
    ensures Reached(desc, slots, i + 1, st2) && |st.slots| == |desc.fields| && |st2.slots| == |desc.fields|
    ensures DecLoop(desc, EncSlot(g, Many(items)) + rest, st) == DecLoop(desc, rest, st2)
    decreases desc, 5
  {
    var f := desc.fields[i];
    StoredAt(desc, slots, i);
    var e := CanEnter(desc, slots, i, st);
    Written(desc, slots, i, st, e);
    EnteredTwice(desc, i, st, e);
    assert StorableSlot(f, slots[i]);
    Kinds(f, g);
    SameWireType(f.l, g.l);
    hide Entered, DecLoop, EncValue, TagBytes, Reached, StorableSlots, EncItems, Storable, DescOk;
    hide FieldEvolves, SameKind;
    FirstEnters(desc, i, g, items, rest, st, e);
    ItemsRoundTrip(desc, i, g, items, rest, e, []);
    hide KnownItems;
    assert e.slots[i := Many([])] == e.slots && [] + slots[i].items == slots[i].items;
    st2 := St(e.slots[i := slots[i]], e.seen, e.filling);
  }

  // ---------------------------------------------------------------- messages

  /** Reading what was written for the receiver's field `i`. */
  lemma {:induction false} FieldRoundTrip(desc: Desc, slots: seq<Slot>, i: nat, g: Field, slot: Slot, rest: seq<Byte>,
                                          st: St)
    returns (st2: St)
    requires DescOk(desc) && StorableSlots(desc, slots) && |slots| == |desc.fields|
             && i < |slots| && Reached(desc, slots, i, st)
    requires FieldEvolves(desc.fields[i], g) && LTypeOk(g.l) && slots[i] == KnownSlot(desc.fields[i], g, slot)
    requires |EncSlot(g, slot)| < TWO32
    ensures Reached(desc, slots, i + 1, st2) && |st.slots| == |desc.fields| && |st2.slots| == |desc.fields|
    ensures DecLoop(desc, EncSlot(g, slot) + rest, st) == DecLoop(desc, rest, st2)
    decreases desc, 6
  {
    var f := desc.fields[i];
    StoredAt(desc, slots, i);
    SlotCount(desc, slots, i, st);
    Kinds(f, g);
    SameWireType(f.l, g.l);
    hide DecLoop, EncTagged, Reached, StorableSlots, EncItems, Storable, DescOk, IsZero, TypeEvolves, Known, SameKind;
    st2 := st;
    if slot == Maybe(None) || slot == Many([]) || (slot.One? && g.h.Implicit? && IsZero(g.l, slot.v)) {
      if slot.One? {
        ZeroIsKnown(f.l, g.l, slot.v);
        ZeroIs(f.l, slots[i].v);
      }
      Unwritten(desc, slots, i, st);
      assert [] + rest == rest;
    } else if slot.Many? {
      if f.l.Packable() {
        PackedBytes(f, g, slot.items);
        st2 := PackedField(desc, slots, i, slot.items, rest, st);
      } else {
        st2 := TaggedArray(desc, slots, i, g, slot.items, rest, st);
      }
    } else {
      st2 := SingleField(desc, slots, i, g, if slot.One? then slot.v else slot.o.value, rest, st);
    }
  }

  /** What is known of the sender's fields from `j` on is the rest of the message. */
  ghost predicate Rest(desc: Desc, more: Desc, slots: seq<Slot>, known: seq<Slot>, i: nat, j: nat) {
    i <= |known| == |desc.fields| && KnownSlots(desc, more, slots, i, j) == known[i..] && Evolves(desc, more, i, j)
  }

  lemma RestStep(desc: Desc, more: Desc, slots: seq<Slot>, known: seq<Slot>, i: nat, j: nat)
    requires Rest(desc, more, slots, known, i, j) && j < |more.fields| && j < |slots|
    ensures var g := more.fields[j];
            if IndexOf(desc, g.tag).None? then Rest(desc, more, slots, known, i, j + 1)
            else
              && i < |known| && FieldEvolves(desc.fields[i], g) && known[i] == KnownSlot(desc.fields[i], g, slots[j])
              && Rest(desc, more, slots, known, i + 1, j + 1)
  {
    hide IndexOf, FieldEvolves, KnownSlot;
    if IndexOf(desc, more.fields[j].tag).Some? {
      var rest := KnownSlots(desc, more, slots, i + 1, j + 1);
      assert known[i..] == [KnownSlot(desc.fields[i], more.fields[j], slots[j])] + rest;
      assert known[i..][1..] == known[i + 1..];
    }
  }

  lemma RestEnds(desc: Desc, more: Desc, slots: seq<Slot>, known: seq<Slot>, i: nat, j: nat)
    requires Rest(desc, more, slots, known, i, j) && (j >= |more.fields| || j >= |slots|)
    ensures i == |known| && EncFrom(more, slots, j) == []
  {
  }

  lemma {:induction false} FieldsRoundTrip(desc: Desc, more: Desc, slots: seq<Slot>, known: seq<Slot>, i: nat, j: nat,
                                           st: St)
    returns (st2: St)
    requires DescOk(desc) && DescOk(more) && StorableSlots(desc, known) && |known| == |desc.fields|
             && i <= |known| && Reached(desc, known, i, st)
    requires Rest(desc, more, slots, known, i, j) && |EncFrom(more, slots, j)| < TWO32
    ensures |st.slots| == |desc.fields| && |st2.slots| == |desc.fields| && Reached(desc, known, |known|, st2)
    ensures DecLoop(desc, EncFrom(more, slots, j), st) == DecLoop(desc, [], st2)
    decreases desc, 7, |more.fields| - j
  {
    hide EncSlot, StorableSlot, Reached, DescOk, DecLoop, Rest, FieldEvolves, KnownSlot, IndexOf;
    SlotCount(desc, known, i, st);
    if j >= |more.fields| || j >= |slots| {
      RestEnds(desc, more, slots, known, i, j);
      st2 := st;
    } else {
      var g, rest := more.fields[j], EncFrom(more, slots, j + 1);
      RestStep(desc, more, slots, known, i, j);
      TagOkAt(more, j);
      LTypeOkAt(more, j);
      if IndexOf(desc, g.tag).None? {
        ForeignField(desc, g, slots[j], rest, st);
        st2 := FieldsRoundTrip(desc, more, slots, known, i, j + 1, st);
      } else {
        var mid := FieldRoundTrip(desc, known, i, g, slots[j], rest, st);
        st2 := FieldsRoundTrip(desc, more, slots, known, i + 1, j + 1, mid);
      }
      SlotCount(desc, known, |known|, st2);
    }
  }

  lemma TagOkAt(desc: Desc, i: nat)
    requires DescOk(desc) && i < |desc.fields|
    ensures TagOk(desc.fields[i].tag)
  {
  }

  lemma NothingLeft(desc: Desc, st: St)
    requires |st.slots| == |desc.fields|
    ensures DecLoop(desc, [], st) == Some(st)
  {
  }

  lemma StartReached(desc: Desc, slots: seq<Slot>)
    requires |slots| == |desc.fields|
    ensures Reached(desc, slots, 0, St(Zeros(desc), {}, None))
  {
  }

  lemma {:induction false} CountsRequired(desc: Desc, n: nat, r: nat) returns (j: nat)
    requires n <= |desc.fields| && r < RequiredBefore(desc, n)
    ensures j < n && desc.fields[j].h.Required? && RequiredBefore(desc, j) == r
  {
    if r < RequiredBefore(desc, n - 1) {
      j := CountsRequired(desc, n - 1, r);
    } else {
      j := n - 1;
    }
  }

  lemma EndReached(desc: Desc, slots: seq<Slot>, st: St)
    requires |slots| == |desc.fields| && Reached(desc, slots, |slots|, st)
    ensures st.slots == slots && Filled(desc, st) && RequiredSeen(desc, st.seen)
  {
    forall r | 0 <= r < RequiredBefore(desc, |desc.fields|) && r < MAX_REQUIRED ensures r in st.seen {
      var j := CountsRequired(desc, |desc.fields|, r);
    }
  }

  /** A receiver with an older descriptor gets what it knows of the message, in submessages as well. */
  lemma {:induction false} ForwardCompatible(desc: Desc, more: Desc, slots: seq<Slot>)
    requires DescOk(desc) && DescOk(more) && Evolves(desc, more, 0, 0) && |Enc(more, slots)| < TWO32
    requires StorableSlots(desc, KnownSlots(desc, more, slots, 0, 0))
    ensures Dec(desc, Enc(more, slots)) == Some(KnownSlots(desc, more, slots, 0, 0))
    decreases desc, 8
  {
    hide DescOk, StorableSlots, Reached, EncFrom, DecLoop, Evolves, KnownSlots;
    var known := KnownSlots(desc, more, slots, 0, 0);
    StorableCount(desc, known);
    assert known[0..] == known;
    StartReached(desc, known);
    var st := FieldsRoundTrip(desc, more, slots, known, 0, 0, St(Zeros(desc), {}, None));
    NothingLeft(desc, st);
    EndReached(desc, known, st);
  }

  lemma {:induction false} AllKnown(l: LType, v: Value)
    requires LTypeOk(l) && Storable(l, v)
    ensures Known(l, l, v) == v
    decreases l, 0
  {
    if l.Submsg? {
      SlotsKnown(l.desc, v.slots, 0);
      assert v.slots[0..] == v.slots;
    }
  }

  lemma {:induction false} SlotKnown(f: Field, slot: Slot)
    requires LTypeOk(f.l) && StorableSlot(f, slot)
    ensures KnownSlot(f, f, slot) == slot
    decreases f, 1
  {
    hide Storable, Known;
    match slot {
      case One(v) => AllKnown(f.l, v);
      case Maybe(o) => if o.Some? { AllKnown(f.l, o.value); }
      case Many(items) =>
        forall k | 0 <= k < |items| ensures KnownItems(f.l, f.l, items)[k] == items[k] {
          AllKnown(f.l, items[k]);
        }
    }
  }

  /** Whoever has the same descriptor knows everything. */
  lemma {:induction false} SlotsKnown(desc: Desc, slots: seq<Slot>, i: nat)
    requires DescOk(desc) && StorableSlots(desc, slots) && i <= |slots|
    ensures KnownSlots(desc, desc, slots, i, i) == slots[i..]
    decreases desc, 2, |slots| - i
  {
    hide StorableSlot, KnownSlot;
    if i < |slots| {
      assert IndexOf(desc, desc.fields[i].tag).Some?;
      LTypeOkAt(desc, i);
      SlotKnown(desc.fields[i], slots[i]);
      SlotsKnown(desc, slots, i + 1);
    }
  }

  /** Decoding the encoding of a message gives the message back. */
  lemma MessageRoundTrip(desc: Desc, slots: seq<Slot>)
    requires DescOk(desc) && StorableSlots(desc, slots) && |Enc(desc, slots)| < TWO32
    ensures Dec(desc, Enc(desc, slots)) == Some(slots)
  {
    SameDesc(desc, 0);
    SlotsKnown(desc, slots, 0);
    assert slots[0..] == slots;
    ForwardCompatible(desc, desc, slots);
  }

  lemma StorableCount(desc: Desc, slots: seq<Slot>)
    ensures StorableSlots(desc, slots) ==> |slots| == |desc.fields|
  {
  }

  // ---------------------------------------------------------------- what the encoder accepts

  lemma {:induction false} StorableFits(l: LType, v: Value)
    requires Storable(l, v)
    ensures ValueOk(l, v) && FitsValue(l, v)
    decreases l, 0
  {
    if l.Submsg? {
      StorableAllFit(l.desc, v.slots);
    }
  }

  lemma {:induction false} ItemsFit(f: Field, items: seq<Value>)
    requires StorableItems(f.l, items)
    ensures FitsItems(f, items) && forall i :: 0 <= i < |items| ==> ValueOk(f.l, items[i])
    decreases f.l, 1, |items|
  {
    hide Storable, ValueOk, FitsValue;
    if items != [] {
      ItemsFit(f, items[..|items| - 1]);
      StorableFits(f.l, items[|items| - 1]);
      assert forall i :: 0 <= i < |items| - 1 ==> items[..|items| - 1][i] == items[i];
    }
  }

  lemma {:induction false} SlotFits(f: Field, slot: Slot)
    requires StorableSlot(f, slot)
    ensures SlotOk(f, slot) && FitsSlot(f, slot)
    decreases f, 1
  {
    hide Storable, ValueOk, FitsValue, FitsItems;
    match slot {
      case One(v) => StorableFits(f.l, v);
      case Maybe(o) => if o.Some? { StorableFits(f.l, o.value); }
      case Many(items) => ItemsFit(f, items);
    }
  }

  lemma {:induction false} AllFit(desc: Desc, slots: seq<Slot>, i: nat)
    requires |slots| == |desc.fields| && i <= |slots|
    requires forall j :: 0 <= j < |slots| ==> FitsSlot(desc.fields[j], slots[j])
    ensures FitsFrom(desc, slots, i)
    decreases |slots| - i
  {
    hide FitsSlot;
    if i < |slots| {
      AllFit(desc, slots, i + 1);
    }
  }

  /** The encoder accepts every message that can be read back. */
  lemma {:induction false} StorableAllFit(desc: Desc, slots: seq<Slot>)
    requires StorableSlots(desc, slots)
    ensures SlotsOk(desc, slots) && Fits(desc, slots)
    decreases desc, 2
  {
    forall j | 0 <= j < |slots| ensures SlotOk(desc.fields[j], slots[j]) && FitsSlot(desc.fields[j], slots[j]) {
      SlotFits(desc.fields[j], slots[j]);
    }
    hide SlotOk, FitsSlot;
    AllFit(desc, slots, 0);
  }

  // ---------------------------------------------------------------- exactly when

  /** What any decoded message satisfies: Storable, except that an always-full array may not have been sent. */
  ghost predicate Received(l: LType, v: Value)
    decreases l, 0
  {
    match l
    case BytesType(max) => v.Raw? && |v.bytes| <= max
    case StrType(size) => v.Raw? && |v.bytes| < size && NoZero(v.bytes)
    case Submsg(desc) => v.Sub? && ReceivedSlots(desc, v.slots)
    case _ => ValueOk(l, v) && FitsValue(l, v)
  }

  ghost predicate ReceivedSlot(f: Field, slot: Slot)
    decreases f, 1
  {
    match f.h
    case Required => slot.One? && Received(f.l, slot.v)
    case Implicit => slot.One? && Received(f.l, slot.v)
    case Repeated(max, _) => slot.Many? && |slot.items| <= max && ReceivedItems(f.l, slot.items)
    case _ => slot.Maybe? && (slot.o.Some? ==> Received(f.l, slot.o.value))
  }

  ghost predicate ReceivedItems(l: LType, items: seq<Value>)
    decreases l, 1
  {
    forall i :: 0 <= i < |items| ==> Received(l, items[i])
  }

  ghost predicate ReceivedSlots(desc: Desc, slots: seq<Slot>)
    decreases desc, 2
  {
    && |slots| == |desc.fields|
    && (forall i :: 0 <= i < |slots| ==> ReceivedSlot(desc.fields[i], slots[i]))
    && OneofsOk(desc, slots)
  }

  lemma {:induction false} ZeroReceived(l: LType)
    requires LTypeOk(l)
    ensures Received(l, Zero(l))
    decreases l, 0
  {
    if l.Submsg? {
      ZerosReceived(l.desc);
    }
  }

  lemma {:induction false} ZeroSlotReceived(f: Field)
    requires LTypeOk(f.l)
    ensures ReceivedSlot(f, ZeroSlot(f))
    decreases f, 1
  {
    ZeroReceived(f.l);
  }

  lemma {:induction false} ZerosReceived(desc: Desc)
    requires DescOk(desc)
    ensures ReceivedSlots(desc, Zeros(desc))
    decreases desc, 2
  {
    forall i | 0 <= i < |desc.fields| ensures ReceivedSlot(desc.fields[i], Zeros(desc)[i]) {
      ZeroSlotReceived(desc.fields[i]);
    }
  }

  lemma {:induction false} UptoZeroShort(s: seq<Byte>)
    ensures |UptoZero(s)| <= |s| && NoZero(UptoZero(s))
  {
    if s != [] && s[0] != 0 {
      UptoZeroShort(s[1..]);
    }
  }

  lemma ScalarReceived(l: LType, s: seq<Byte>)
    requires LTypeOk(l)
    ensures DecScalar(l, s).Some? ==> Received(l, DecScalar(l, s).value.v)
  {
    hide ReadVarint32, ReadNumber, SignedFor, Unzigzag, DecodeFixed32, DecodeFixed64, UptoZero;
    if l.StrType? {
      var b := ReadString(s);
      if b.Some? {
        UptoZeroShort(b.value.v);
      }
    }
    hide ReadString;
  }

  lemma {:induction false} PackedReceived(l: LType, s: seq<Byte>, items: seq<Value>, max: nat)
    requires LTypeOk(l) && ReceivedItems(l, items) && |items| <= max
    ensures var r := DecPacked(l, s, items, max); r.Some? ==> ReceivedItems(l, r.value) && |r.value| <= max
    decreases |s|
  {
    hide DecScalar, Received;
    if s != [] && |items| < max {
      ScalarReceived(l, s);
      var g := DecScalar(l, s);
      if g.Some? {
        PackedReceived(l, s[g.value.used..], items + [g.value.v], max);
      }
    }
  }

  lemma {:induction false} ValueReceived(l: LType, s: seq<Byte>, base: Value)
    requires LTypeOk(l) && Received(l, base)
    ensures DecValue(l, s, base).Some? ==> Received(l, DecValue(l, s, base).value.v)
    decreases |s|, 0
  {
    hide DecScalar, ReadString, DecMessage;
    if l.Submsg? {
      var b := ReadString(s);
      if b.Some? {
        MessageReceived(l.desc, b.value.v, SubSlots(l.desc, base));
      }
    } else {
      ScalarReceived(l, s);
    }
  }

  lemma BaseReceived(f: Field, slot: Slot)
    requires LTypeOk(f.l) && ReceivedSlot(f, slot)
    ensures Received(f.l, BaseOf(f, slot))
  {
    ZeroReceived(f.l);
    hide Received;
  }

  lemma {:induction false} SlotReceived(f: Field, wireType: nat, s: seq<Byte>, slot: Slot)
    requires LTypeOk(f.l) && ReceivedSlot(f, slot)
    ensures DecSlot(f, wireType, s, slot).Some? ==> ReceivedSlot(f, DecSlot(f, wireType, s, slot).value.v)
    decreases |s|, 1
  {
    hide DecValue, ReadString, DecPacked, Received;
    BaseReceived(f, slot);
    ValueReceived(f.l, s, BaseOf(f, slot));
    if f.h.Repeated? {
      ZeroReceived(f.l);
      ValueReceived(f.l, s, Zero(f.l));
      var b := ReadString(s);
      if b.Some? {
        PackedReceived(f.l, b.value.v, slot.items, f.h.max);
      }
    }
  }

  lemma EnteredReceived(desc: Desc, i: nat, st: St)
    requires DescOk(desc) && ReceivedSlots(desc, st.slots) && i < |desc.fields|
    ensures Entered(desc, i, st).Some? ==> ReceivedSlots(desc, Entered(desc, i, st).value.slots)
    ensures Entered(desc, i, st).Some? && desc.fields[i].h.Oneof? ==>
              forall j :: 0 <= j < |desc.fields| && j != i && SameOneof(desc.fields[i], desc.fields[j]) ==>
                    Absent(Entered(desc, i, st).value.slots[j])
  {
    hide Received;
    var e := Entered(desc, i, st);
    if e.Some? {
      forall j | 0 <= j < |desc.fields| ensures ReceivedSlot(desc.fields[j], e.value.slots[j]) {
        assert ReceivedSlot(desc.fields[j], st.slots[j]);
      }
    }
  }

  /** Storing into one slot of a group whose other members are absent. */
  lemma StoreReceived(desc: Desc, i: nat, slots: seq<Slot>, slot: Slot)
    requires ReceivedSlots(desc, slots) && i < |slots| && ReceivedSlot(desc.fields[i], slot)
    requires desc.fields[i].h.Oneof? ==>
               forall j :: 0 <= j < |slots| && j != i && SameOneof(desc.fields[i], desc.fields[j]) ==> Absent(slots[j])
    ensures ReceivedSlots(desc, slots[i := slot])
  {
    hide ReceivedSlot;
  }

  lemma {:induction false} FieldReceived(desc: Desc, i: nat, wireType: nat, s: seq<Byte>, st: St)
    requires DescOk(desc) && ReceivedSlots(desc, st.slots) && i < |desc.fields|
    ensures var r := DecField(desc, i, wireType, s, st); r.Some? ==> ReceivedSlots(desc, r.value.v.slots)
    decreases |s|, 2
  {
    EnteredReceived(desc, i, st);
    hide Entered, DecSlot, ReceivedSlot, DescOk, OneofsOk;
    var e := Entered(desc, i, st);
    if e.Some? {
      LTypeOkAt(desc, i);
      SlotReceived(desc.fields[i], wireType, s, e.value.slots[i]);
      var g := DecSlot(desc.fields[i], wireType, s, e.value.slots[i]);
      if g.Some? {
        StoreReceived(desc, i, e.value.slots, g.value.v);
      }
    }
  }

  lemma {:induction false} LoopReceived(desc: Desc, s: seq<Byte>, st: St)
    requires DescOk(desc) && |st.slots| == |desc.fields| && ReceivedSlots(desc, st.slots)
    ensures var r := DecLoop(desc, s, st); r.Some? ==> ReceivedSlots(desc, r.value.slots)
    decreases |s|, 2
  {
    hide DescOk, ReceivedSlots, DecField, SkipUnknown, IndexOf, ReadTag;
    var t := ReadTag(s);
    if t.Tag? {
      var i := IndexOf(desc, t.tag);
      if i.None? {
        var n := SkipUnknown(desc, t.tag, t.wireType, s[t.used..]);
        if n.Some? {
          LoopReceived(desc, s[t.used + n.value..], st);
        }
      } else {
        FieldReceived(desc, i.value, t.wireType, s[t.used..], st);
        var g := DecField(desc, i.value, t.wireType, s[t.used..], st);
        if g.Some? {
          LoopReceived(desc, s[t.used + g.value.used..], g.value.v);
        }
      }
    }
  }

  /** Every message that decoding accepts fits its struct, strings with their terminators included. */
  lemma {:induction false} MessageReceived(desc: Desc, s: seq<Byte>, slots: seq<Slot>)
    requires DescOk(desc) && |slots| == |desc.fields| && ReceivedSlots(desc, slots)
    ensures DecMessage(desc, s, slots).Some? ==> ReceivedSlots(desc, DecMessage(desc, s, slots).value)
    decreases |s|, 3
  {
    hide DescOk, ReceivedSlots, DecLoop;
    LoopReceived(desc, s, St(slots, {}, None));
  }

  lemma {:induction false} ReceivedIsStorable(l: LType, v: Value)
    requires Received(l, v) && ValueOk(l, v)
    ensures Storable(l, v)
    decreases l, 0
  {
    if l.Submsg? {
      ReceivedAreStorable(l.desc, v.slots);
    }
  }

  lemma {:induction false} ReceivedSlotIsStorable(f: Field, slot: Slot)
    requires ReceivedSlot(f, slot) && SlotOk(f, slot)
    ensures StorableSlot(f, slot)
    decreases f, 1
  {
    hide Received, ValueOk, Storable;
    match slot {
      case One(v) => ReceivedIsStorable(f.l, v);
      case Maybe(o) => if o.Some? { ReceivedIsStorable(f.l, o.value); }
      case Many(items) =>
        forall i | 0 <= i < |items| ensures Storable(f.l, items[i]) {
          ReceivedIsStorable(f.l, items[i]);
        }
    }
  }

  lemma {:induction false} ReceivedAreStorable(desc: Desc, slots: seq<Slot>)
    requires ReceivedSlots(desc, slots) && SlotsOk(desc, slots)
    ensures StorableSlots(desc, slots)
    decreases desc, 2
  {
    forall i | 0 <= i < |slots| ensures StorableSlot(desc.fields[i], slots[i]) {
      ReceivedSlotIsStorable(desc.fields[i], slots[i]);
    }
  }

  /** The exact condition: a message comes back from its encoding if and only if its byte strings and arrays
      fit and every string leaves room for its terminator.  The encoder does not ask for that room. */
  lemma RoundTripIff(desc: Desc, slots: seq<Slot>)
    requires DescOk(desc) && SlotsOk(desc, slots) && |Enc(desc, slots)| < TWO32
    ensures Dec(desc, Enc(desc, slots)) == Some(slots) <==> StorableSlots(desc, slots)
  {
    hide DescOk, SlotsOk, StorableSlots, ReceivedSlots, DecMessage, EncFrom;
    if StorableSlots(desc, slots) {
      MessageRoundTrip(desc, slots);
    }
    ZerosReceived(desc);
    MessageReceived(desc, Enc(desc, slots), Zeros(desc));
    if Dec(desc, Enc(desc, slots)) == Some(slots) {
      ReceivedAreStorable(desc, slots);
    }
  }

  lemma PastEnd(desc: Desc, slots: seq<Slot>, i: nat)
    requires i >= |desc.fields|
    ensures EncFrom(desc, slots, i) == [] && FitsFrom(desc, slots, i)
  {
  }

  /** A string that fills its buffer is written and cannot be read back. */
  lemma UnterminatedFails(tag: nat, size: nat, text: seq<Byte>)
    requires TagOk(tag) && 0 < size == |text| && NoZero(text) && size < 0x1000_0000
    ensures var desc, slots := Desc([Field(tag, Required, StrType(size))]), [One(Raw(text))];
            DescOk(desc) && SlotsOk(desc, slots) && Fits(desc, slots) && Dec(desc, Enc(desc, slots)) != Some(slots)
  {
    var desc, slots := Desc([Field(tag, Required, StrType(size))]), [One(Raw(text))];
    var f, slot := desc.fields[0], slots[0];
    hide Varint;
    PastEnd(desc, slots, 1);
    assert EncSlot(f, slot) == EncTagged(f, slot.v);
    assert Enc(desc, slots) == EncSlot(f, slot) + EncFrom(desc, slots, 1);
    Varint32Size(|text|);
    Varint32Size(tag * 8 + WT_STRING);
    assert |EncTagged(f, slot.v)| < TWO32;
    assert FitsSlot(f, slot);
    assert ValueOk(f.l, slot.v) && SlotOk(f, slot);
    assert !Storable(f.l, slot.v) && !StorableSlot(f, slot);
    hide EncSlot;
    RoundTripIff(desc, slots);
  }

  // ---------------------------------------------------------------- unknown fields

  /** A single item of a field the receiver does not know. */
  lemma ForeignItem(desc: Desc, f: Field, v: Value, rest: seq<Byte>, st: St)
    requires TagOk(f.tag) && IndexOf(desc, f.tag).None? && |st.slots| == |desc.fields|
    requires |EncTagged(f, v)| < TWO32
    ensures DecLoop(desc, EncTagged(f, v) + rest, st) == DecLoop(desc, rest, st)
  {
    hide TagBytes, EncValue, Skip, ReadTag, IndexOf, DecField;
    var tag, body := TagBytes(f.tag, f.l.WireType()), EncValue(f.l, v);
    TagRoundTrip(f.tag, f.l.WireType(), body + rest);
    ItemSkipped(f.l, v, rest);
    var s := EncTagged(f, v) + rest;
    assert s == tag + (body + rest) && s[|tag|..] == body + rest && s[|tag| + |body|..] == rest;
  }

  lemma ItemSkipped(l: LType, v: Value, rest: seq<Byte>)
    requires |EncValue(l, v)| < TWO32
    ensures Skip(l.WireType(), EncValue(l, v) + rest) == Some(|EncValue(l, v)|)
  {
    hide Varint, SkipVarint, ReadVarint32, EncFrom;
    match l {
      case Bool => SkipVarintIs(if v.Num? && v.n == 0 then 0 else 1, rest);
      case VarInt(_) => SkipVarintIs(Unsigned64(Num63(v)), rest);
      case UVarInt(_) => SkipVarintIs(Num64(v), rest);
      case SVarInt(_) => ZigzagRoundTrip(Num63(v)); SkipVarintIs(Zigzag(Num63(v)), rest);
      case Fixed32Type =>
      case Fixed64Type =>
      case BytesType(_) => SkipStringIs(RawOf(v), rest);
      case StrType(_) => SkipStringIs(RawOf(v), rest);
      case FixedBytes(_) => SkipStringIs(RawOf(v), rest);
      case Submsg(desc) => SkipStringIs(EncFrom(desc, SlotsOf(v), 0), rest);
    }
  }

  lemma {:induction false} ForeignItems(desc: Desc, f: Field, items: seq<Value>, rest: seq<Byte>, st: St)
    requires TagOk(f.tag) && IndexOf(desc, f.tag).None? && |st.slots| == |desc.fields|
    requires |EncItems(f, items, false)| < TWO32
    ensures DecLoop(desc, EncItems(f, items, false) + rest, st) == DecLoop(desc, rest, st)
    decreases |items|
  {
    hide DecLoop, EncTagged, IndexOf;
    if items == [] {
      assert [] + rest == rest;
    } else {
      var n := |items| - 1;
      var t := EncTagged(f, items[n]);
      ForeignItems(desc, f, items[..n], t + rest, st);
      assert EncItems(f, items, false) + rest == EncItems(f, items[..n], false) + (t + rest);
      ForeignItem(desc, f, items[n], rest, st);
    }
  }

  /** A field that the receiver does not know is skipped without effect, wherever it stands. */
  lemma ForeignField(desc: Desc, f: Field, slot: Slot, rest: seq<Byte>, st: St)
    requires TagOk(f.tag) && IndexOf(desc, f.tag).None? && |st.slots| == |desc.fields|
    requires |EncSlot(f, slot)| < TWO32
    ensures DecLoop(desc, EncSlot(f, slot) + rest, st) == DecLoop(desc, rest, st)
  {
    hide DecLoop, EncTagged, IndexOf, EncItems, Prefix, TagBytes, IsZero;
    assert [] + rest == rest;
    match slot {
      case One(v) => if EncSlot(f, slot) != [] { ForeignItem(desc, f, v, rest, st); }
      case Maybe(o) => if o.Some? { ForeignItem(desc, f, o.value, rest, st); }
      case Many(items) =>
        if items != [] {
          if f.l.Packable() {
            ForeignPacked(desc, f, EncItems(f, items, true), rest, st);
          } else {
            ForeignItems(desc, f, items, rest, st);
          }
        }
    }
  }

  lemma ForeignPacked(desc: Desc, f: Field, body: seq<Byte>, rest: seq<Byte>, st: St)
    requires TagOk(f.tag) && IndexOf(desc, f.tag).None? && |st.slots| == |desc.fields| && |body| < TWO32
    ensures DecLoop(desc, (TagBytes(f.tag, WT_STRING) + Prefix(body)) + rest, st) == DecLoop(desc, rest, st)
  {
    SkipStringIs(body, rest);
    hide TagBytes, Skip, ReadTag, IndexOf, DecField, Varint;
    var tag, p := TagBytes(f.tag, WT_STRING), Prefix(body);
    TagRoundTrip(f.tag, WT_STRING, p + rest);
    var s := (tag + p) + rest;
    assert s == tag + (p + rest) && s[|tag|..] == p + rest && s[|tag| + |p|..] == rest;
  }
}
