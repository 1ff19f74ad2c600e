/** Messages of a newer sender, as an older receiver is to see them. */
module PbEvolution {
  import opened Keys
  import opened Bytes
  import opened PbWire
  import opened PbMessage
  import opened PbDecode

  // ---------------------------------------------------------------- descriptors

  /** Items that look alike on the wire: of one type, whatever room the two structs have for them. */
  predicate SameKind(l: LType, m: LType) {
    match l
    case Bool => m.Bool?
    case VarInt(_) => m.VarInt?
    case UVarInt(_) => m.UVarInt?
    case SVarInt(_) => m.SVarInt?
    case Fixed32Type => m.Fixed32Type?
    case Fixed64Type => m.Fixed64Type?
    case BytesType(_) => m.BytesType?
    case StrType(_) => m.StrType?
    case FixedBytes(_) => m == l
    case Submsg(_) => m.Submsg?
  }

  /** The sender's type `m` is the receiver's type `l`, or a submessage whose descriptor has evolved. */
  ghost predicate TypeEvolves(l: LType, m: LType)
    decreases l, 0
  {
    SameKind(l, m) && (l.Submsg? ==> Evolves(l.desc, m.desc, 0, 0))
  }

  ghost predicate FieldEvolves(f: Field, g: Field)
    decreases f, 1
  {
    && f.tag == g.tag && TypeEvolves(f.l, g.l)
    && (f.h == g.h || (f.h.Repeated? && g.h.Repeated? && f.h.full == g.h.full))
  }

  /** The receiver's fields from `i` on are, in this order, among the sender's from `j` on; the tags of the
      others are unknown to the receiver. */
  ghost predicate Evolves(desc: Desc, more: Desc, i: nat, j: nat)
    decreases desc, 2, |more.fields| - j
  {
    if j >= |more.fields| then i == |desc.fields|
    else if IndexOf(desc, more.fields[j].tag).None? then Evolves(desc, more, i, j + 1)
    else i < |desc.fields| && FieldEvolves(desc.fields[i], more.fields[j]) && Evolves(desc, more, i + 1, j + 1)
  }

  // ---------------------------------------------------------------- messages

  /** What the receiver knows of a value: in submessages, the fields it knows. */
  ghost function Known(l: LType, m: LType, v: Value): Value
    decreases l, 0
  {
    if l.Submsg? && m.Submsg? && v.Sub? then Sub(KnownSlots(l.desc, m.desc, v.slots, 0, 0)) else v
  }

  ghost function KnownItems(l: LType, m: LType, items: seq<Value>): (r: seq<Value>)
    ensures |r| == |items|
    decreases l, 1
  {
    seq(|items|, k requires 0 <= k < |items| => Known(l, m, items[k]))
  }

  ghost function KnownSlot(f: Field, g: Field, slot: Slot): Slot
    decreases f, 2
  {
    match slot
    case One(v) => One(Known(f.l, g.l, v))
    case Maybe(o) => if o.None? then Maybe(None) else Maybe(Some(Known(f.l, g.l, o.value)))
    case Many(items) => Many(KnownItems(f.l, g.l, items))
  }

  /** The slots that the receiver knows, from its field `i` and the sender's field `j` on. */
  ghost function KnownSlots(desc: Desc, more: Desc, slots: seq<Slot>, i: nat, j: nat): seq<Slot>
    decreases desc, 3, |more.fields| - j
  {
    if j >= |more.fields| || j >= |slots| then []
    else if IndexOf(desc, more.fields[j].tag).None? then KnownSlots(desc, more, slots, i, j + 1)
    else if i >= |desc.fields| then []
    else [KnownSlot(desc.fields[i], more.fields[j], slots[j])] + KnownSlots(desc, more, slots, i + 1, j + 1)
  }

  // ---------------------------------------------------------------- the wire

  lemma SameWire(l: LType, m: LType, v: Value)
    requires SameKind(l, m) && !l.Submsg?
    ensures EncValue(l, v) == EncValue(m, v) && Known(l, m, v) == v
  {
  }

  lemma SameWireType(l: LType, m: LType)
    requires SameKind(l, m)
    ensures l.WireType() == m.WireType() && l.Packable() == m.Packable()
  {
  }

  lemma {:induction false} SamePacked(f: Field, g: Field, items: seq<Value>)
    requires SameKind(f.l, g.l) && f.l.Packable()
    ensures EncItems(g, items, true) == EncItems(f, items, true) && KnownItems(f.l, g.l, items) == items
    decreases |items|
  {
    hide EncValue;
    if items != [] {
      SamePacked(f, g, items[..|items| - 1]);
      SameWire(f.l, g.l, items[|items| - 1]);
    }
  }

  // ---------------------------------------------------------------- defaults

  /** A value that the sender leaves out as zero is zero to the receiver. */
  lemma {:induction false} ZeroIsKnown(l: LType, m: LType, v: Value)
    requires TypeEvolves(l, m) && IsZero(m, v)
    ensures IsZero(l, Known(l, m, v))
    decreases l, 0
  {
    if l.Submsg? {
      DefaultsKnown(l.desc, m.desc, v.slots, 0, 0);
      AllAreDefault(l.desc, KnownSlots(l.desc, m.desc, v.slots, 0, 0), 0);
    }
  }

  lemma {:induction false} DefaultKnown(f: Field, g: Field, slot: Slot)
    requires FieldEvolves(f, g) && IsDefault(g, slot)
    ensures IsDefault(f, KnownSlot(f, g, slot))
    decreases f, 1
  {
    if g.h.Implicit? {
      ZeroIsKnown(f.l, g.l, slot.v);
    }
  }

  lemma {:induction false} DefaultsKnown(desc: Desc, more: Desc, slots: seq<Slot>, i: nat, j: nat)
    requires i <= |desc.fields| && j <= |more.fields| == |slots|
    requires Evolves(desc, more, i, j) && AllDefault(more, slots, j)
    ensures var known := KnownSlots(desc, more, slots, i, j);
            && |known| == |desc.fields| - i
            && forall k :: 0 <= k < |known| ==> IsDefault(desc.fields[i + k], known[k])
    decreases desc, 2, |more.fields| - j
  {
    hide IsDefault, FieldEvolves, IndexOf;
    if j < |more.fields| {
      if IndexOf(desc, more.fields[j].tag).None? {
        DefaultsKnown(desc, more, slots, i, j + 1);
      } else {
        DefaultKnown(desc.fields[i], more.fields[j], slots[j]);
        DefaultsKnown(desc, more, slots, i + 1, j + 1);
        var rest := KnownSlots(desc, more, slots, i + 1, j + 1);
        var known := KnownSlots(desc, more, slots, i, j);
        forall k | 0 <= k < |known| ensures IsDefault(desc.fields[i + k], known[k]) {
          if k > 0 { assert known[k] == rest[k - 1]; }
        }
      }
    }
  }

  lemma {:induction false} AllAreDefault(desc: Desc, slots: seq<Slot>, i: nat)
    requires i <= |slots| == |desc.fields| && forall k :: i <= k < |slots| ==> IsDefault(desc.fields[k], slots[k])
    ensures AllDefault(desc, slots, i)
    decreases |slots| - i
  {
    hide IsDefault;
    if i < |slots| {
      AllAreDefault(desc, slots, i + 1);
    }
  }

  // ---------------------------------------------------------------- nothing changed

  lemma {:induction false} SameType(l: LType)
    requires LTypeOk(l)
    ensures TypeEvolves(l, l)
    decreases l, 0
  {
    if l.Submsg? {
      SameDesc(l.desc, 0);
    }
  }

  /** Every descriptor is its own evolution. */
  lemma {:induction false} SameDesc(desc: Desc, i: nat)
    requires DescOk(desc) && i <= |desc.fields|
    ensures Evolves(desc, desc, i, i)
    decreases desc, 2, |desc.fields| - i
  {
    if i < |desc.fields| {
      assert desc.fields[i].tag == desc.fields[i].tag && IndexOf(desc, desc.fields[i].tag).Some?;
      SameType(desc.fields[i].l);
      SameDesc(desc, i + 1);
    }
  }

  /** Adding fields at the end, with tags of their own, is the plainest evolution. */
  lemma {:induction false} AppendedEvolves(desc: Desc, more: Desc, i: nat)
    requires DescOk(more) && |desc.fields| <= |more.fields| && more.fields[..|desc.fields|] == desc.fields
    requires i <= |more.fields|
    ensures Evolves(desc, more, if i < |desc.fields| then i else |desc.fields|, i)
    decreases |more.fields| - i
  {
    var n := |desc.fields|;
    assert forall k :: 0 <= k < n ==> more.fields[..n][k] == more.fields[k];
    if i < |more.fields| {
      AppendedEvolves(desc, more, i + 1);
      if i < n {
        assert desc.fields[i].tag == more.fields[i].tag && IndexOf(desc, more.fields[i].tag).Some?;
        SameType(desc.fields[i].l);
      } else {
        assert forall k :: 0 <= k < n ==> desc.fields[k].tag != more.fields[i].tag;
        assert IndexOf(desc, more.fields[i].tag).None?;
      }
    }
  }
}
