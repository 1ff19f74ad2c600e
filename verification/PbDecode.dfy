/** What bytes decode to, given a message descriptor, as functions: the meaning that the decoder's loops are
    proved to compute and that the laws about messages are stated with. */
module PbDecode {
  import opened Keys
  import opened Bytes
  import opened Coding
  import opened PbWire
  import opened PbMessage

  datatype Got<+T> = Got(v: T, used: nat)

  // ---------------------------------------------------------------- single items

  /** A length, then that many bytes. */
  function ReadString(s: seq<Byte>): (r: Option<Got<seq<Byte>>>)
    ensures r.Some? ==> 0 < r.value.used <= |s| && |r.value.v| < r.value.used
  {
    match ReadVarint32(s)
    case None => None
    case Some(n) => if n.used + n.value <= |s| then Some(Got(s[n.used..n.used + n.value], n.used + n.value)) else None
  }

  function ReadNumber(s: seq<Byte>): (r: Option<Number>)
    ensures r.Some? ==> 0 < r.value.used <= |s| && r.value.value < TWO64
  {
    match ReadVarint(s, 10)
    case None => None
    case Some(n) => Some(Number(n.value % TWO64, n.used))
  }

  /** A C string ends at its first zero byte. */
  function UptoZero(s: seq<Byte>): seq<Byte> {
    if s == [] || s[0] == 0 then [] else [s[0]] + UptoZero(s[1..])
  }

  lemma {:induction false} UptoZeroIs(s: seq<Byte>)
    requires NoZero(s)
    ensures UptoZero(s) == s
  {
    if s != [] {
      assert s == [s[0]] + s[1..];
      UptoZeroIs(s[1..]);
    }
  }

  /** An item of any type but a submessage. */
  function DecScalar(l: LType, s: seq<Byte>): (r: Option<Got<Value>>)
    ensures r.Some? ==> 0 < r.value.used <= |s|
  {
    match l
    case Bool => DecBool(s)
    case VarInt(size) => DecVarInt(s, size)
    case UVarInt(size) => DecUVarInt(s, size)
    case SVarInt(size) => DecSVarInt(s, size)
    case Fixed32Type => if |s| >= 4 then Some(Got(Num(DecodeFixed32(s)), 4)) else None
    case Fixed64Type => if |s| >= 8 then Some(Got(Num(DecodeFixed64(s)), 8)) else None
    case BytesType(max) => DecBytes(s, max)
    case StrType(size) => DecStr(s, size)
    case FixedBytes(len) => DecFixedBytes(s, len)
    case Submsg(_) => None
  }

  function DecBool(s: seq<Byte>): Option<Got<Value>> {
    match ReadVarint32(s)
    case None => None
    case Some(n) => Some(Got(Num(if n.value != 0 then 1 else 0), n.used))
  }

  function DecVarInt(s: seq<Byte>, size: nat): Option<Got<Value>> {
    match ReadNumber(s)
    case None => None
    case Some(n) =>
      var x := SignedFor(n.value, size);
      if SizeOk(size) && InSigned(x, size) then Some(Got(Num(x), n.used)) else None
  }

  function DecUVarInt(s: seq<Byte>, size: nat): Option<Got<Value>> {
    match ReadNumber(s)
    case None => None
    case Some(n) => if SizeOk(size) && InUnsigned(n.value, size) then Some(Got(Num(n.value), n.used)) else None
  }

  function DecSVarInt(s: seq<Byte>, size: nat): Option<Got<Value>> {
    match ReadNumber(s)
    case None => None
    case Some(n) =>
      var x := Unzigzag(n.value);
      if SizeOk(size) && InSigned(x, size) then Some(Got(Num(x), n.used)) else None
  }

  function DecBytes(s: seq<Byte>, max: nat): Option<Got<Value>> {
    match ReadString(s)
    case None => None
    case Some(b) => if |b.v| <= max then Some(Got(Raw(b.v), b.used)) else None
  }

  /** The terminator must fit too. */
  function DecStr(s: seq<Byte>, size: nat): Option<Got<Value>> {
    match ReadString(s)
    case None => None
    case Some(b) => if |b.v| + 1 <= size then Some(Got(Raw(UptoZero(b.v)), b.used)) else None
  }

  /** No bytes stand for all zeros. */
  function DecFixedBytes(s: seq<Byte>, len: nat): Option<Got<Value>> {
    match ReadString(s)
    case None => None
    case Some(b) =>
      if b.v == [] then Some(Got(Raw(seq(len, _ => 0)), b.used))
      else if |b.v| == len then Some(Got(Raw(b.v), b.used)) else None
  }

  /** Packed items, up to the room there is. */
  function DecPacked(l: LType, s: seq<Byte>, items: seq<Value>, max: nat): Option<seq<Value>>
    decreases |s|
  {
    if s == [] then Some(items)
    else if |items| >= max then None
    else
      match DecScalar(l, s)
      case None => None
      case Some(g) => DecPacked(l, s[g.used..], items + [g.v], max)
  }

  // ---------------------------------------------------------------- messages

  /** The struct, which required fields were seen, and which always-full array is being filled. */
  datatype St = St(slots: seq<Slot>, seen: set<nat>, filling: Option<nat>)

  const MAX_REQUIRED: nat := 64

  /** How many required fields come before field `i`. */
  function RequiredBefore(desc: Desc, i: nat): nat
    requires i <= |desc.fields|
  {
    if i == 0 then 0 else RequiredBefore(desc, i - 1) + if desc.fields[i - 1].h.Required? then 1 else 0
  }

  function IndexFrom(desc: Desc, tag: nat, i: nat): (r: Option<nat>)
    requires i <= |desc.fields|
    ensures r.Some? ==> i <= r.value < |desc.fields| && desc.fields[r.value].tag == tag
    ensures r.None? ==> forall j :: i <= j < |desc.fields| ==> desc.fields[j].tag != tag
    decreases |desc.fields| - i
  {
    if i == |desc.fields| then None
    else if desc.fields[i].tag == tag then Some(i)
    else IndexFrom(desc, tag, i + 1)
  }

  function IndexOf(desc: Desc, tag: nat): (r: Option<nat>)
    ensures r.Some? ==> r.value < |desc.fields| && desc.fields[r.value].tag == tag
    ensures r.None? ==> forall j :: 0 <= j < |desc.fields| ==> desc.fields[j].tag != tag
  {
    IndexFrom(desc, tag, 0)
  }

  predicate IsFull(f: Field) {
    f.h.Repeated? && f.h.full
  }

  function ItemsOf(slot: Slot): seq<Value> {
    if slot.Many? then slot.items else []
  }

  /** The array being filled has all its entries. */
  predicate Filled(desc: Desc, st: St)
    requires |st.slots| == |desc.fields|
  {
    st.filling.Some? && st.filling.value < |desc.fields| && IsFull(desc.fields[st.filling.value]) ==>
      |ItemsOf(st.slots[st.filling.value])| == desc.fields[st.filling.value].h.max
  }

  /** What happens before the contents of field `i` are read: an always-full array starts over, a required
      field is marked, the other members of a oneof group are dropped. */
  function Entered(desc: Desc, i: nat, st: St): (r: Option<St>)
    requires |st.slots| == |desc.fields| && i < |desc.fields|
    ensures r.Some? ==> |r.value.slots| == |desc.fields|
  {
    var f := desc.fields[i];
    if IsFull(f) && st.filling != Some(i) then
      if Filled(desc, st) then Some(St(st.slots[i := Many([])], st.seen, Some(i))) else None
    else if f.h.Required? && RequiredBefore(desc, i) < MAX_REQUIRED then
      Some(St(st.slots, st.seen + {RequiredBefore(desc, i)}, st.filling))
    else if f.h.Oneof? then
      Some(St(OnlyOf(desc, i, st.slots), st.seen, st.filling))
    else Some(st)
  }

  function OnlyOf(desc: Desc, i: nat, slots: seq<Slot>): (r: seq<Slot>)
    requires |slots| == |desc.fields| && i < |desc.fields|
    ensures |r| == |slots|
  {
    seq(|slots|, j requires 0 <= j < |slots| =>
      if j != i && SameOneof(desc.fields[i], desc.fields[j]) then Maybe(None) else slots[j])
  }

  /** What a submessage is decoded into. */
  function SubSlots(desc: Desc, base: Value): (r: seq<Slot>)
    ensures |r| == |desc.fields|
  {
    if base.Sub? && |base.slots| == |desc.fields| then base.slots else Zeros(desc)
  }

  /** The value there already is, or the defaults. */
  function BaseOf(f: Field, slot: Slot): Value {
    match slot
    case One(v) => v
    case Maybe(o) => if o.Some? then o.value else Zero(f.l)
    case Many(_) => Zero(f.l)
  }

  function DecValue(l: LType, s: seq<Byte>, base: Value): (r: Option<Got<Value>>)
    ensures r.Some? ==> 0 < r.value.used <= |s|
    decreases |s|, 0
  {
    match l
    case Submsg(desc) =>
      (match ReadString(s)
       case None => None
       case Some(b) =>
         match DecMessage(desc, b.v, SubSlots(desc, base))
         case None => None
         case Some(slots) => Some(Got(Sub(slots), b.used)))
    case _ => DecScalar(l, s)
  }

  /** decode_static_field. */
  function DecSlot(f: Field, wireType: nat, s: seq<Byte>, slot: Slot): (r: Option<Got<Slot>>)
    ensures r.Some? ==> 0 < r.value.used <= |s|
    decreases |s|, 1
  {
    match f.h
    case Repeated(max, _) =>
      if wireType == WT_STRING && f.l.Packable() then
        match ReadString(s)
        case None => None
        case Some(b) =>
          match DecPacked(f.l, b.v, ItemsOf(slot), max)
          case None => None
          case Some(items) => Some(Got(Many(items), b.used))
      else if |ItemsOf(slot)| >= max then None
      else
        (match DecValue(f.l, s, Zero(f.l))
         case None => None
         case Some(g) => Some(Got(Many(ItemsOf(slot) + [g.v]), g.used)))
    case _ =>
      match DecValue(f.l, s, BaseOf(f, slot))
      case None => None
      case Some(g) => Some(Got(if f.h.Required? || f.h.Implicit? then One(g.v) else Maybe(Some(g.v)), g.used))
  }

  /** Fields without a place in the struct.  An empty message takes the invalid tag 0 for a flag of its own. */
  function SkipUnknown(desc: Desc, tag: nat, wireType: nat, s: seq<Byte>): (r: Option<nat>)
    ensures r.Some? ==> 0 < r.value <= |s|
  {
    if desc.fields == [] && tag == 0 then
      match ReadVarint32(s)
      case None => None
      case Some(n) => Some(n.used)
    else Skip(wireType, s)
  }

  /** One field with its tag, and the state after it. */
  function DecField(desc: Desc, i: nat, wireType: nat, s: seq<Byte>, st: St): (r: Option<Got<St>>)
    requires |st.slots| == |desc.fields| && i < |desc.fields|
    ensures r.Some? ==> 0 < r.value.used <= |s| && |r.value.v.slots| == |desc.fields|
    decreases |s|, 2
  {
    match Entered(desc, i, st)
    case None => None
    case Some(e) =>
      match DecSlot(desc.fields[i], wireType, s, e.slots[i])
      case None => None
      case Some(g) => Some(Got(St(e.slots[i := g.v], e.seen, e.filling), g.used))
  }

  function DecLoop(desc: Desc, s: seq<Byte>, st: St): (r: Option<St>)
    requires |st.slots| == |desc.fields|
    ensures r.Some? ==> |r.value.slots| == |desc.fields|
    decreases |s|, 2
  {
    match ReadTag(s)
    case Eof => Some(st)
    case BadTag => None
    case Tag(tag, wireType, used) =>
      match IndexOf(desc, tag)
      case None =>
        (match SkipUnknown(desc, tag, wireType, s[used..])
         case None => None
         case Some(n) => DecLoop(desc, s[used + n..], st))
      case Some(i) =>
        match DecField(desc, i, wireType, s[used..], st)
        case None => None
        case Some(g) => DecLoop(desc, s[used + g.used..], g.v)
  }

  /** Of the required fields, the first 64 are checked. */
  predicate RequiredSeen(desc: Desc, seen: set<nat>) {
    forall r :: 0 <= r < RequiredBefore(desc, |desc.fields|) && r < MAX_REQUIRED ==> r in seen
  }

  /** pb_decode_noinit. */
  function DecMessage(desc: Desc, s: seq<Byte>, slots: seq<Slot>): (r: Option<seq<Slot>>)
    requires |slots| == |desc.fields|
    ensures r.Some? ==> |r.value| == |desc.fields|
    decreases |s|, 3
  {
    match DecLoop(desc, s, St(slots, {}, None))
    case None => None
    case Some(st) => if Filled(desc, st) && RequiredSeen(desc, st.seen) then Some(st.slots) else None
  }

  /** pb_decode. */
  function Dec(desc: Desc, s: seq<Byte>): Option<seq<Slot>> {
    DecMessage(desc, s, Zeros(desc))
  }
}
