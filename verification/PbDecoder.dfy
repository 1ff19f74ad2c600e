/** The decoder: streams, the field iterator, and the decoding loops, proved to compute what module PbDecode
    says on any bytes.  The last method runs the encoder and the decoder through one buffer. */
module PbDecoder {
  import opened Keys
  import opened Bytes
  import opened Coding
  import opened Blooms
  import opened PbWire
  import opened PbMessage
  import opened PbDecode
  import opened PbEncode
  import opened PbRoundTrip

  /** An input stream over memory: where it stands, and how many bytes it may still read. */
  class IStream {
    const data: seq<Byte>
    var at: nat
    var bytesLeft: nat

    constructor (data: seq<Byte>, at: nat, bytesLeft: nat)
      requires at + bytesLeft <= |data|
      ensures this.data == data && this.at == at && this.bytesLeft == bytesLeft && Valid()
    {
      this.data, this.at, this.bytesLeft := data, at, bytesLeft;
    }

    ghost predicate Valid()
      reads this
    {
      at + bytesLeft <= |data|
    }

    /** The bytes still to be read. */
    ghost function Rest(): (r: seq<Byte>)
      requires Valid()
      reads this
      ensures |r| == bytesLeft
    {
      data[at..at + bytesLeft]
    }

    /** pb_read. */
    method Read(count: nat) returns (r: Option<seq<Byte>>)
      requires Valid()
      modifies this
      ensures Valid() && bytesLeft <= old(bytesLeft) && at + bytesLeft == old(at + bytesLeft)
      ensures r == if count <= |old(Rest())| then Some(old(Rest())[..count]) else None
      ensures r.Some? ==> Rest() == old(Rest())[count..] && bytesLeft == old(bytesLeft) - count
    {
      if bytesLeft < count {
        return None;
      }
      r := Some(data[at..at + count]);
      ghost var was := Rest();
      assert was[..count] == data[at..at + count];
      at := at + count;
      bytesLeft := bytesLeft - count;
      assert Rest() == was[count..];
    }

    method ReadByte() returns (r: Option<Byte>)
      requires Valid()
      modifies this
      ensures Valid()
      ensures r == if old(Rest()) != [] then Some(old(Rest())[0]) else None
      ensures at + bytesLeft == old(at + bytesLeft)
      ensures r.Some? ==> Rest() == old(Rest())[1..] && bytesLeft == old(bytesLeft) - 1
      ensures r.None? ==> unchanged(this)
    {
      if bytesLeft == 0 {
        return None;
      }
      var b := Read(1);
      r := Some(b.value[0]);
    }

    /** pb_decode_varint32_eof.  `eof` if there was nothing to read. */
    method DecodeVarint32() returns (r: Option<Word>, eof: bool)
      requires Valid()
      modifies this
      ensures Valid() && bytesLeft <= old(bytesLeft)
              && at + bytesLeft == old(at + bytesLeft) && eof == (old(bytesLeft) == 0)
      ensures var n := ReadVarint32(old(Rest()));
              if n.None? then r == None
              else r == Some(n.value.value) && Rest() == old(Rest())[n.value.used..] && bytesLeft < old(bytesLeft)
    {
      hide Or, Pow2, Varint32Rest;
      ghost var s := Rest();
      var first := ReadByte();
      if first.None? {
        return None, true;
      }
      eof := false;
      var byte := first.value;
      if byte < 128 {
        r := Some(byte);
        return;
      }
      var result: Word := byte - 128;
      var bitpos: nat := 7;
      ghost var i: nat := 1;
      var more := true;
      ghost var all := Varint32Rest(s[1..], result, 7);
      assert Later(all, 0) == all;
      while more
        invariant Valid() && 1 <= i <= |s| && Rest() == s[i..] && at + bytesLeft == old(at + bytesLeft)
        invariant more ==> all == Later(Varint32Rest(s[i..], result, bitpos), i - 1)
        invariant !more ==>
                    && i > 1
                    && all == (if bitpos == 35 && byte / 16 % 8 != 0 then None else Some(Number(result, i - 1)))
        decreases more, bytesLeft
      {
        var next := ReadByte();
        RestUnfolds(s[i..], result, bitpos);
        if next.None? {
          return None, eof;
        }
        byte := next.value;
        var sign: Byte := if bitpos < 63 then 0xff else 0x01;
        if bitpos >= 32 {
          if byte % 128 != 0 && (result < 0x8000_0000 || byte != sign) {
            return None, eof;
          }
        } else {
          result := Or(result, byte % 128 * Pow2(bitpos) % TWO32) % TWO32;
        }
        bitpos := (bitpos + 7) % 256;
        i := i + 1;
        more := byte >= 128;
      }
      if bitpos == 35 && byte / 16 % 8 != 0 {
        return None, eof;
      }
      r := Some(result);
    }

    /** pb_decode_varint: at most ten bytes, kept to 64 bits. */
    method DecodeVarint() returns (r: Option<U64>)
      requires Valid()
      modifies this
      ensures Valid() && bytesLeft <= old(bytesLeft) && at + bytesLeft == old(at + bytesLeft)
      ensures var n := ReadNumber(old(Rest()));
              if n.None? then r == None
              else r == Some(n.value.value) && Rest() == old(Rest())[n.value.used..] && bytesLeft < old(bytesLeft)
    {
      hide ReadVarint, Shifted, Accumulate, Rest;
      ghost var s := Rest();
      var result: nat, scale: nat, bitpos: nat := 0, 1, 0;
      ghost var i: nat := 0;
      var more := true;
      ghost var all := ReadVarint(s, 10);
      ShiftedByNothing(all);
      assert s[0..] == s;
      while more
        invariant at + bytesLeft == old(at + bytesLeft)
        invariant Valid() && i <= |s| && i <= 10 && bitpos == 7 * i && Rest() == s[i..]
        invariant more ==> all == Shifted(ReadVarint(s[i..], 10 - i), result, scale, i)
        invariant !more ==> i > 0 && all == Some(Number(result, i))
        decreases more, bytesLeft
      {
        NoMore(s[i..], 10 - i, result, scale, i);
        if bitpos >= 64 {
          return None;
        }
        var next := ReadByte();
        if next.None? {
          return None;
        }
        var byte := next.value;
        assert byte == s[i] && s[i..][1..] == s[i + 1..];
        NumberStep(s, result, scale, i);
        result := Accumulate(result, byte % 128, scale);
        bitpos := bitpos + 7;
        scale := scale * 128;
        i := i + 1;
        more := byte >= 128;
      }
      r := Some(result % TWO64);
    }

    method SkipVarintBytes() returns (ok: bool)
      requires Valid()
      modifies this
      ensures Valid() && bytesLeft <= old(bytesLeft) && at + bytesLeft == old(at + bytesLeft)
      ensures var n := SkipVarint(old(Rest())); ok == n.Some? && (ok ==> Rest() == old(Rest())[n.value..])
    {
      hide SkipVarint;
      ghost var s := Rest();
      ghost var i: nat := 0;
      ghost var all := SkipVarint(s);
      var more := true;
      assert s[0..] == s;
      while more
        invariant Valid() && i <= |s| && Rest() == s[i..] && at + bytesLeft == old(at + bytesLeft)
        invariant more ==> all == Plus(SkipVarint(s[i..]), i)
        invariant !more ==> all == Some(i)
        decreases more, bytesLeft
      {
        SkipUnfolds(s[i..]);
        var next := Read(1);
        if next.None? {
          return false;
        }
        assert next.value[0] == s[i..][0] && s[i..][1..] == s[i + 1..];
        i := i + 1;
        more := next.value[0] >= 128;
      }
      ok := true;
    }

    method SkipString() returns (ok: bool)
      requires Valid()
      modifies this
      ensures Valid() && bytesLeft <= old(bytesLeft) && at + bytesLeft == old(at + bytesLeft)
      ensures var n := Skip(WT_STRING, old(Rest())); ok == n.Some? && (ok ==> Rest() == old(Rest())[n.value..])
    {
      hide ReadVarint32;
      ghost var s := Rest();
      var length, _ := DecodeVarint32();
      if length.None? {
        return false;
      }
      var skipped := Read(length.value);
      ok := skipped.Some?;
    }

    /** pb_skip_field. */
    method SkipField(wireType: nat) returns (ok: bool)
      requires Valid()
      modifies this
      ensures Valid() && bytesLeft <= old(bytesLeft) && at + bytesLeft == old(at + bytesLeft)
      ensures var n := Skip(wireType, old(Rest())); ok == n.Some? && (ok ==> Rest() == old(Rest())[n.value..])
    {
      hide ReadVarint32, SkipVarint;
      if wireType == WT_VARINT {
        ok := SkipVarintBytes();
      } else if wireType == WT_64BIT {
        var b := Read(8);
        ok := b.Some?;
      } else if wireType == WT_STRING {
        ok := SkipString();
      } else if wireType == WT_32BIT {
        var b := Read(4);
        ok := b.Some?;
      } else {
        ok := false;
      }
    }

    /** pb_decode_tag. */
    method DecodeTag() returns (r: TagRead)
      requires Valid()
      modifies this
      ensures Valid() && bytesLeft <= old(bytesLeft)
              && at + bytesLeft == old(at + bytesLeft) && r == ReadTag(old(Rest()))
      ensures r.Tag? ==> Rest() == old(Rest())[r.used..] && bytesLeft < old(bytesLeft)
    {
      hide ReadVarint32;
      ghost var n := ReadVarint32(Rest());
      var before := bytesLeft;
      var temp, eof := DecodeVarint32();
      if temp.None? {
        return if eof then Eof else BadTag;
      }
      if temp.value == 0 {
        return Eof;
      }
      r := Tag(temp.value / 8, temp.value % 8, before - bytesLeft);
    }

    /** pb_make_string_substream: a stream over the next string; this stream gives up its bytes. */
    method MakeSubstream() returns (sub: IStream?, ghost used: nat)
      requires Valid()
      modifies this
      ensures Valid() && bytesLeft <= old(bytesLeft)
      ensures sub == null <==> ReadString(old(Rest())).None?
      ensures sub != null ==>
                && fresh(sub) && sub.Valid() && sub.data == data && sub.at == at
                && var b := ReadString(old(Rest())).value;
                && used == b.used && sub.Rest() == b.v
                   && bytesLeft + b.used == old(bytesLeft) && sub.bytesLeft < old(bytesLeft)
                && at + sub.bytesLeft == old(at) + b.used
    {
      hide ReadVarint32;
      ghost var s := Rest();
      used := 0;
      var size, _ := DecodeVarint32();
      if size.None? {
        return null, used;
      }
      if bytesLeft < size.value {
        return null, used;
      }
      ghost var n := ReadVarint32(s).value;
      used := n.used + n.value;
      sub := new IStream(data, at, size.value);
      assert sub.Rest() == Rest()[..size.value] == s[n.used..][..n.value] == s[n.used..n.used + n.value];
      bytesLeft := bytesLeft - size.value;
    }

    /** pb_close_string_substream: skips what is left of the string and goes on after it. */
    method CloseSubstream(sub: IStream, ghost was: seq<Byte>, ghost wasAt: nat, ghost used: nat)
      requires Valid() && sub.Valid() && sub != this && sub.data == data
      requires sub.at + sub.bytesLeft == wasAt + used && used <= |was| && bytesLeft == |was| - used
      requires wasAt + |was| <= |data| && was == data[wasAt..wasAt + |was|]
      modifies this, sub
      ensures Valid() && Rest() == was[used..] && bytesLeft == old(bytesLeft) && at + bytesLeft == wasAt + |was|
    {
      if sub.bytesLeft > 0 {
        var skipped := sub.Read(sub.bytesLeft);
        assert |sub.Rest()| == 0;
      }
      at := sub.at;
      assert Rest() == was[used..];
    }
  }

  // ---------------------------------------------------------------- the field iterator

  /** Where in the descriptor the search stands, and how many required fields come before. */
  class FieldIter {
    const desc: Desc
    var pos: nat
    var requiredIndex: nat

    ghost predicate Valid()
      reads this
    {
      && pos <= |desc.fields| && (pos == |desc.fields| ==> pos == 0)
      && requiredIndex == RequiredBefore(desc, pos)
    }

    constructor (desc: Desc)
      ensures this.desc == desc && Valid() && pos == 0
    {
      this.desc := desc;
      pos, requiredIndex := 0, 0;
    }

    /** pb_field_iter_next: false when it wraps around. */
    method Next() returns (more: bool)
      requires Valid()
      modifies this
      ensures Valid() && more == (old(pos) + 1 < |desc.fields|)
      ensures pos == if more then old(pos) + 1 else 0
    {
      if desc.fields == [] {
        return false;
      }
      if pos + 1 == |desc.fields| {
        pos, requiredIndex := 0, 0;
        return false;
      }
      if desc.fields[pos].h.Required? {
        requiredIndex := requiredIndex + 1;
      }
      pos := pos + 1;
      more := true;
    }

    /** pb_field_iter_find: searches on from where it is, around the end and back.  The terminator of an
        empty descriptor has tag 0. */
    method Find(tag: nat) returns (found: bool)
      requires Valid()
      modifies this
      ensures Valid()
      ensures desc.fields == [] ==> found == (tag == 0)
      ensures desc.fields != [] ==>
                && (found <==> exists i :: 0 <= i < |desc.fields| && desc.fields[i].tag == tag)
                && (found ==> desc.fields[pos].tag == tag) && (!found ==> pos == old(pos))
    {
      if desc.fields == [] {
        return tag == 0;
      }
      var start := pos;
      if desc.fields[pos].tag == tag {
        return true;
      }
      var _ := Next();
      while pos != start
        invariant Valid() && pos < |desc.fields| && desc.fields[start].tag != tag
        invariant forall j: nat :: Between(start, pos, j) && j < |desc.fields| ==> desc.fields[j].tag != tag
        decreases if pos > start then |desc.fields| + start - pos else start - pos
      {
        if desc.fields[pos].tag == tag {
          return true;
        }
        var _ := Next();
      }
      found := false;
    }

    /** How many required fields there are, from wherever the iterator stands. */
    method CountRequired() returns (count: nat)
      requires Valid()
      modifies this
      ensures Valid() && count == RequiredBefore(desc, |desc.fields|)
    {
      if desc.fields == [] {
        return 0;
      }
      var last := desc.fields[pos];
      count := requiredIndex;
      var more := Next();
      while more
        invariant Valid() && (more ==>
                    pos > 0 && count == RequiredBefore(desc, pos - 1) && last == desc.fields[pos - 1])
        invariant !more ==> count == RequiredBefore(desc, |desc.fields| - 1) && last == desc.fields[|desc.fields| - 1]
        decreases more, |desc.fields| - pos
      {
        count := requiredIndex;
        last := desc.fields[pos];
        more := Next();
      }
      if last.h.Required? {
        count := count + 1;
      }
    }
  }

  /** `j` has been passed on the way from `start` around to `pos`. */
  predicate Between(start: nat, pos: nat, j: nat) {
    if pos > start then start <= j < pos else j >= start || j < pos
  }

  // ---------------------------------------------------------------- single items

  /** What a decoding method does: it returns what the specification returns and takes as many bytes. */
  ghost predicate Gave<T>(spec: Option<Got<T>>, was: seq<Byte>, r: Option<T>, now: seq<Byte>) {
    if spec.None? then r.None?
    else spec.value.used <= |was| && r == Some(spec.value.v) && now == was[spec.value.used..]
  }

  method DecodeString(stream: IStream) returns (r: Option<seq<Byte>>)
    requires stream.Valid()
    modifies stream
    ensures stream.Valid() && stream.bytesLeft <= old(stream.bytesLeft)
            && stream.at + stream.bytesLeft == old(stream.at + stream.bytesLeft)
    ensures Gave(ReadString(old(stream.Rest())), old(stream.Rest()), r, stream.Rest())
  {
    hide ReadVarint32;
    ghost var s := stream.Rest();
    var size, _ := stream.DecodeVarint32();
    if size.None? {
      return None;
    }
    r := stream.Read(size.value);
    if r.Some? {
      ghost var n := ReadVarint32(s).value;
      assert s[n.used..][..n.value] == s[n.used..n.used + n.value] && s[n.used..][n.value..] == s[n.used + n.value..];
    }
  }

  /** The decoder for a type other than a submessage. */
  method DecodeScalar(stream: IStream, l: LType) returns (r: Option<Value>)
    requires stream.Valid() && !l.Submsg?
    modifies stream
    ensures stream.Valid() && stream.bytesLeft <= old(stream.bytesLeft)
            && stream.at + stream.bytesLeft == old(stream.at + stream.bytesLeft)
    ensures Gave(DecScalar(l, old(stream.Rest())), old(stream.Rest()), r, stream.Rest())
  {
    hide ReadVarint32, ReadNumber, ReadString, DecodeFixed32, DecodeFixed64, UptoZero, SignedFor, Unzigzag;
    ghost var s := stream.Rest();
    match l
    case Bool =>
      var n, _ := stream.DecodeVarint32();
      if n.None? { return None; }
      r := Some(Num(if n.value != 0 then 1 else 0));
    case VarInt(size) =>
      var n := stream.DecodeVarint();
      if n.None? { return None; }
      var x := SignedFor(n.value, size);
      r := if SizeOk(size) && InSigned(x, size) then Some(Num(x)) else None;
    case UVarInt(size) =>
      var n := stream.DecodeVarint();
      if n.None? { return None; }
      r := if SizeOk(size) && InUnsigned(n.value, size) then Some(Num(n.value)) else None;
    case SVarInt(size) =>
      var n := stream.DecodeVarint();
      if n.None? { return None; }
      var x := Unzigzag(n.value);
      r := if SizeOk(size) && InSigned(x, size) then Some(Num(x)) else None;
    case Fixed32Type =>
      var b := stream.Read(4);
      if b.None? { return None; }
      SameWord(b.value, s);
      r := Some(Num(DecodeFixed32(b.value)));
    case Fixed64Type =>
      var b := stream.Read(8);
      if b.None? { return None; }
      SameWords(b.value, s);
      r := Some(Num(DecodeFixed64(b.value)));
    case BytesType(max) =>
      var b := DecodeString(stream);
      if b.None? { return None; }
      r := if |b.value| <= max then Some(Raw(b.value)) else None;
    case StrType(size) =>
      var b := DecodeString(stream);
      if b.None? { return None; }
      r := if |b.value| + 1 <= size then Some(Raw(UptoZero(b.value))) else None;
    case FixedBytes(len) =>
      var b := DecodeString(stream);
      if b.None? { return None; }
      r := if b.value == [] then Some(Raw(seq(len, _ => 0)))
           else if |b.value| == len then Some(Raw(b.value)) else None;
  }

  lemma SameWord(a: seq<Byte>, s: seq<Byte>)
    requires |s| >= 4 && a == s[..4]
    ensures DecodeFixed32(a) == DecodeFixed32(s)
  {
    assert a[0] == s[0] && a[1] == s[1] && a[2] == s[2] && a[3] == s[3];
  }

  lemma SameWords(a: seq<Byte>, s: seq<Byte>)
    requires |s| >= 8 && a == s[..8]
    ensures DecodeFixed64(a) == DecodeFixed64(s)
  {
    hide DecodeFixed32;
    assert a[..4] == s[..4] && a[4..][..4] == s[4..][..4];
    SameWord(a[..4], a);
    SameWord(s[..4], s);
    SameWord(a[4..][..4], a[4..]);
    SameWord(s[4..][..4], s[4..]);
  }

  // ---------------------------------------------------------------- messages

  /** Before the contents of a field: see Entered. */
  method EnterField(desc: Desc, i: nat, requiredIndex: nat, st: St) returns (r: Option<St>)
    requires |st.slots| == |desc.fields| && i < |desc.fields| && requiredIndex == RequiredBefore(desc, i)
    ensures r == Entered(desc, i, st)
  {
    hide RequiredBefore, Filled;
    var f := desc.fields[i];
    if IsFull(f) && st.filling != Some(i) {
      if !Filled(desc, st) {
        return None;
      }
      return Some(St(st.slots[i := Many([])], st.seen, Some(i)));
    }
    if f.h.Required? && requiredIndex < MAX_REQUIRED {
      return Some(St(st.slots, st.seen + {requiredIndex}, st.filling));
    }
    if f.h.Oneof? {
      return Some(St(OnlyOf(desc, i, st.slots), st.seen, st.filling));
    }
    r := Some(st);
  }

  /** Packed items until the string or the room is used up. */
  method DecodePacked(sub: IStream, l: LType, items: seq<Value>, max: nat) returns (r: Option<seq<Value>>)
    requires sub.Valid() && !l.Submsg?
    modifies sub
    ensures sub.Valid() && r == DecPacked(l, old(sub.Rest()), items, max)
            && sub.at + sub.bytesLeft == old(sub.at + sub.bytesLeft)
  {
    hide DecScalar;
    ghost var all := DecPacked(l, sub.Rest(), items, max);
    var got := items;
    var status := true;
    while status && sub.bytesLeft > 0 && |got| < max
      invariant sub.Valid() && sub.at + sub.bytesLeft == old(sub.at + sub.bytesLeft)
      invariant status ==> all == DecPacked(l, sub.Rest(), got, max)
      invariant !status ==> all == None
      decreases status, sub.bytesLeft
    {
      var item := DecodeScalar(sub, l);
      if item.None? {
        status := false;
      } else {
        got := got + [item.value];
      }
    }
    if !status || sub.bytesLeft != 0 {
      return None;
    }
    r := Some(got);
  }

  method DecodeSubmessage(stream: IStream, desc: Desc, base: Value) returns (r: Option<Value>)
    requires stream.Valid() && DescOk(desc)
    modifies stream
    ensures stream.Valid() && stream.bytesLeft <= old(stream.bytesLeft)
    ensures r.Some? ==> stream.at + stream.bytesLeft == old(stream.at + stream.bytesLeft)
    ensures Gave(DecValue(Submsg(desc), old(stream.Rest()), base), old(stream.Rest()), r, stream.Rest())
    decreases stream.bytesLeft, 0
  {
    hide ReadString, DecMessage, DescOk;
    ghost var s := stream.Rest();
    var sub;
    ghost var used;
    sub, used := stream.MakeSubstream();
    if sub == null {
      return None;
    }
    var slots := DecodeMessage(sub, desc, SubSlots(desc, base));
    if slots.None? {
      return None;
    }
    stream.CloseSubstream(sub, s, old(stream.at), used);
    r := Some(Sub(slots.value));
  }

  method DecodeValue(stream: IStream, l: LType, base: Value) returns (r: Option<Value>)
    requires stream.Valid() && LTypeOk(l)
    modifies stream
    ensures stream.Valid() && stream.bytesLeft <= old(stream.bytesLeft)
    ensures r.Some? ==> stream.at + stream.bytesLeft == old(stream.at + stream.bytesLeft)
    ensures Gave(DecValue(l, old(stream.Rest()), base), old(stream.Rest()), r, stream.Rest())
    decreases stream.bytesLeft, 1
  {
    hide ReadString, DecMessage, DecScalar, DescOk;
    if l.Submsg? {
      r := DecodeSubmessage(stream, l.desc, base);
    } else {
      r := DecodeScalar(stream, l);
    }
  }

  /** decode_static_field. */
  method DecodeField(stream: IStream, wireType: nat, f: Field, slot: Slot) returns (r: Option<Slot>)
    requires stream.Valid() && LTypeOk(f.l)
    modifies stream
    ensures stream.Valid() && stream.bytesLeft <= old(stream.bytesLeft)
    ensures r.Some? ==> stream.at + stream.bytesLeft == old(stream.at + stream.bytesLeft)
    ensures Gave(DecSlot(f, wireType, old(stream.Rest()), slot), old(stream.Rest()), r, stream.Rest())
    decreases stream.bytesLeft, 2
  {
    hide ReadString, DecValue, DecPacked, LTypeOk;
    ghost var s := stream.Rest();
    if f.h.Repeated? {
      var items := ItemsOf(slot);
      if wireType == WT_STRING && f.l.Packable() {
        var sub;
        ghost var used;
        sub, used := stream.MakeSubstream();
        if sub == null {
          return None;
        }
        var more := DecodePacked(sub, f.l, items, f.h.max);
        if more.None? {
          return None;
        }
        stream.CloseSubstream(sub, s, old(stream.at), used);
        return Some(Many(more.value));
      }
      if |items| >= f.h.max {
        return None;
      }
      var item := DecodeValue(stream, f.l, Zero(f.l));
      return if item.None? then None else Some(Many(items + [item.value]));
    }
    var v := DecodeValue(stream, f.l, BaseOf(f, slot));
    r := if v.None? then None
         else if f.h.Required? || f.h.Implicit? then Some(One(v.value))
         else Some(Maybe(Some(v.value)));
  }

  /** pb_decode_noinit. */
  method DecodeMessage(stream: IStream, desc: Desc, slots: seq<Slot>) returns (r: Option<seq<Slot>>)
    requires stream.Valid() && DescOk(desc) && |slots| == |desc.fields|
    modifies stream
    ensures stream.Valid() && r == DecMessage(desc, old(stream.Rest()), slots)
    ensures r.Some? ==> stream.at + stream.bytesLeft == old(stream.at + stream.bytesLeft)
    decreases stream.bytesLeft, 5
  {
    hide DecLoop, DescOk, RequiredBefore, Filled;
    var iter := new FieldIter(desc);
    var st := St(slots, {}, None);
    ghost var all := DecLoop(desc, stream.Rest(), st);
    var eof := false;
    while stream.bytesLeft > 0 && !eof
      invariant stream.Valid() && stream.bytesLeft <= old(stream.bytesLeft)
                && iter.Valid() && iter.desc == desc && |st.slots| == |desc.fields|
      invariant stream.at + stream.bytesLeft == old(stream.at + stream.bytesLeft)
      invariant all == if eof then Some(st) else DecLoop(desc, stream.Rest(), st)
      decreases !eof, stream.bytesLeft
    {
      var ok;
      st, eof, ok := DecodeOne(stream, desc, iter, st);
      if !ok {
        return None;
      }
    }
    LoopEnds(desc, stream.Rest(), st);
    if !Filled(desc, st) {
      return None;
    }
    var count := iter.CountRequired();
    if !AllSeen(st.seen, count) {
      return None;
    }
    r := Some(st.slots);
  }

  /** Of the required fields, the first 64 must have been seen. */
  predicate AllSeen(seen: set<nat>, count: nat) {
    forall r :: 0 <= r < count && r < MAX_REQUIRED ==> r in seen
  }

  lemma LoopEnds(desc: Desc, s: seq<Byte>, st: St)
    requires |st.slots| == |desc.fields|
    ensures s == [] ==> DecLoop(desc, s, st) == Some(st)
  {
  }

  /** One turn of the loop: a tag, and the field or what has to be skipped. */
  method DecodeOne(stream: IStream, desc: Desc, iter: FieldIter, st: St) returns (st2: St, eof: bool, ok: bool)
    requires stream.Valid() && DescOk(desc) && |st.slots| == |desc.fields| && stream.bytesLeft > 0
    requires iter.Valid() && iter.desc == desc
    modifies stream, iter
    ensures stream.Valid() && iter.Valid() && stream.bytesLeft <= old(stream.bytesLeft) && |st2.slots| == |desc.fields|
    ensures ok && !eof ==> stream.bytesLeft < old(stream.bytesLeft)
    ensures ok ==> stream.at + stream.bytesLeft == old(stream.at + stream.bytesLeft)
    ensures DecLoop(desc, old(stream.Rest()), st) == if !ok then None
            else if eof then Some(st2) else DecLoop(desc, stream.Rest(), st2)
    decreases stream.bytesLeft, 4
  {
    hide DecField, DescOk, SkipUnknown, ReadTag, IndexOf, DecLoop;
    ghost var s := stream.Rest();
    st2, eof, ok := st, false, true;
    LoopUnfolds(desc, s, st);
    var tag := stream.DecodeTag();
    match tag
    case Eof => eof := true;
    case BadTag => ok := false;
    case Tag(number, wireType, used) =>
      var found := iter.Find(number);
      FoundIs(desc, number, if found && desc.fields != [] then Some(iter.pos) else None);
      if !found || desc.fields == [] {
        ok := SkipField(stream, desc, number, wireType);
        return;
      }
      st2, ok := DecodeInto(stream, desc, iter.pos, iter.requiredIndex, wireType, st);
  }

  lemma FoundIs(desc: Desc, tag: nat, at: Option<nat>)
    requires DescOk(desc)
    requires at.Some? ==> at.value < |desc.fields| && desc.fields[at.value].tag == tag
    requires at.None? ==> forall i :: 0 <= i < |desc.fields| ==> desc.fields[i].tag != tag
    ensures IndexOf(desc, tag) == at
  {
    hide LTypeOk;
  }

  /** One turn of the specification's loop. */
  lemma LoopUnfolds(desc: Desc, s: seq<Byte>, st: St)
    requires |st.slots| == |desc.fields|
    ensures DecLoop(desc, s, st) == Turn(desc, s, st)
  {
    hide ReadTag, IndexOf, SkipUnknown, DecField;
    var t := ReadTag(s);
    if t.Tag? {
      assert forall n :: 0 <= n <= |s| - t.used ==> s[t.used..][n..] == s[t.used + n..];
    }
  }

  ghost function Turn(desc: Desc, s: seq<Byte>, st: St): Option<St>
    requires |st.slots| == |desc.fields|
  {
    match ReadTag(s)
    case Eof => Some(st)
    case BadTag => None
    case Tag(tag, wireType, used) =>
      var i := IndexOf(desc, tag);
      if i.None? then AfterSkip(desc, s[used..], SkipUnknown(desc, tag, wireType, s[used..]), st)
      else AfterField(desc, s[used..], DecField(desc, i.value, wireType, s[used..], st))
  }

  ghost function AfterSkip(desc: Desc, s: seq<Byte>, n: Option<nat>, st: St): Option<St>
    requires |st.slots| == |desc.fields| && (n.Some? ==> n.value <= |s|)
  {
    if n.None? then None else DecLoop(desc, s[n.value..], st)
  }

  ghost function AfterField(desc: Desc, s: seq<Byte>, g: Option<Got<St>>): Option<St>
    requires g.Some? ==> g.value.used <= |s| && |g.value.v.slots| == |desc.fields|
  {
    if g.None? then None else DecLoop(desc, s[g.value.used..], g.value.v)
  }

  method SkipField(stream: IStream, desc: Desc, tag: nat, wireType: nat) returns (ok: bool)
    requires stream.Valid()
    modifies stream
    ensures stream.Valid() && stream.bytesLeft <= old(stream.bytesLeft)
            && stream.at + stream.bytesLeft == old(stream.at + stream.bytesLeft)
    ensures var n := SkipUnknown(desc, tag, wireType, old(stream.Rest()));
            ok == n.Some? && (ok ==> stream.Rest() == old(stream.Rest())[n.value..])
  {
    hide ReadVarint32, Skip;
    if desc.fields == [] && tag == 0 {
      var n, _ := stream.DecodeVarint32();
      ok := n.Some?;
    } else {
      ok := stream.SkipField(wireType);
    }
  }

  method DecodeInto(stream: IStream, desc: Desc, i: nat, requiredIndex: nat, wireType: nat, st: St)
                    returns (st2: St, ok: bool)
    requires stream.Valid() && DescOk(desc) && |st.slots| == |desc.fields|
             && i < |desc.fields| && requiredIndex == RequiredBefore(desc, i)
    modifies stream
    ensures stream.Valid() && stream.bytesLeft <= old(stream.bytesLeft) && |st2.slots| == |desc.fields|
    ensures ok ==> stream.at + stream.bytesLeft == old(stream.at + stream.bytesLeft)
    ensures var g := DecField(desc, i, wireType, old(stream.Rest()), st);
            ok == g.Some? && (ok ==> st2 == g.value.v && stream.Rest() == old(stream.Rest())[g.value.used..])
    decreases stream.bytesLeft, 3
  {
    hide DecSlot, Entered;
    st2 := st;
    var e := EnterField(desc, i, requiredIndex, st);
    if e.None? {
      return st2, false;
    }
    assert LTypeOk(desc.fields[i].l);
    hide DescOk, LTypeOk;
    var slot := DecodeField(stream, wireType, desc.fields[i], e.value.slots[i]);
    ok := slot.Some?;
    if ok {
      st2 := St(e.value.slots[i := slot.value], e.value.seen, e.value.filling);
    }
  }

  /** pb_decode. */
  method Decode(stream: IStream, desc: Desc) returns (r: Option<seq<Slot>>)
    requires stream.Valid() && DescOk(desc)
    modifies stream
    ensures stream.Valid() && r == Dec(desc, old(stream.Rest()))
  {
    r := DecodeMessage(stream, desc, Zeros(desc));
  }

  /** Encoding a message into a buffer and decoding the buffer.  What comes back is the message if and only if
      it is storable; the encoder accepts more than that. */
  method EncodeThenDecode(desc: Desc, slots: seq<Slot>, room: nat) returns (ok: bool, back: Option<seq<Slot>>)
    requires DescOk(desc) && SlotsOk(desc, slots) && |Enc(desc, slots)| < TWO32
    ensures ok == (Fits(desc, slots) && |Enc(desc, slots)| <= room)
    ensures StorableSlots(desc, slots) ==> Fits(desc, slots)
    ensures ok ==> (back == Some(slots) <==> StorableSlots(desc, slots))
  {
    hide DescOk, SlotsOk, StorableSlots, EncFrom, FitsFrom, DecMessage;
    if StorableSlots(desc, slots) {
      StorableAllFit(desc, slots);
    }
    var out := new OStream(false, room, []);
    ok := EncodeMessage(out, desc, slots);
    back := None;
    if ok {
      assert [] + Enc(desc, slots) == Enc(desc, slots);
      var stream := new IStream(out.out, 0, |out.out|);
      assert stream.Rest() == out.out;
      back := Decode(stream, desc);
      RoundTripIff(desc, slots);
    }
  }

  ghost function Plus(n: Option<nat>, k: nat): Option<nat> {
    if n.None? then None else Some(n.value + k)
  }

  lemma SkipUnfolds(s: seq<Byte>)
    ensures SkipVarint(s) == if s == [] then None else if s[0] < 128 then Some(1) else Plus(SkipVarint(s[1..]), 1)
  {
  }

  /** One byte of a 64-bit number. */
  lemma NumberStep(s: seq<Byte>, result: nat, scale: nat, i: nat)
    requires i < 10 && i < |s|
    ensures var all := Shifted(ReadVarint(s[i..], 10 - i), result, scale, i);
            var next := Accumulate(result, s[i] % 128, scale);
            if s[i] >= 128 then all == Shifted(ReadVarint(s[i + 1..], 10 - i - 1), next, scale * 128, i + 1)
            else all == Some(Number(next, i + 1))
  {
    ShiftStep(s, 10, result, scale, i);
    hide ReadVarint, Shifted, Accumulate;
    assert s[i] % 128 == if s[i] >= 128 then s[i] as int - 128 else s[i];
  }

  lemma ShiftedByNothing(n: Option<Number>)
    ensures Shifted(n, 0, 1, 0) == n
  {
  }

  /** Without a byte, or after ten, there is no number. */
  lemma NoMore(s: seq<Byte>, k: nat, result: nat, scale: nat, i: nat)
    ensures s == [] || k == 0 ==> Shifted(ReadVarint(s, k), result, scale, i) == None
  {
  }

  ghost function Later(n: Option<Number>, k: nat): Option<Number> {
    match n
    case None => None
    case Some(m) => Some(Number(m.value, m.used + k))
  }

  lemma RestUnfolds(s: seq<Byte>, result: Word, bitpos: nat)
    ensures Varint32Rest(s, result, bitpos) ==
            if s == [] then None
            else
              var byte := s[0];
              if bitpos >= 32 && byte % 128 != 0
                  && (result < 0x8000_0000 || byte != (if bitpos < 63 then 0xff else 0x01)) then None
              else
                var r: Word := if bitpos >= 32 then result else Or(result, byte % 128 * Pow2(bitpos) % TWO32) % TWO32;
                var next := (bitpos + 7) % 256;
                if byte >= 128 then Later(Varint32Rest(s[1..], r, next), 1)
                else if next == 35 && byte / 16 % 8 != 0 then None
                else Some(Number(r, 1))
  {
    hide Or, Pow2;
  }
}
