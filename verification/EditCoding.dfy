/** Encoding and decoding a VersionEdit. */
module EditCoding {
  import opened Keys
  import opened Bytes
  import opened Coding

  const LEVELS: nat := 7

  /** A VersionEdit with internal keys as encoded strings. */
  datatype Edit = Edit(comparator: Option<seq<Byte>>, logNumber: Option<U64>, prevLogNumber: Option<U64>,
                       nextFile: Option<U64>, lastSequence: Option<U64>,
                       pointers: seq<(U32, seq<Byte>)>, deleted: set<(U32, U64)>, added: seq<NewFile>)

  datatype NewFile = NewFile(level: U32, number: U64, size: U64, smallest: seq<Byte>, largest: seq<Byte>)

  /** One tagged field of a record. */
  datatype Field =
    | Comparator(name: seq<Byte>)
    | LogNumber(n: U64)
    | NextFileNumber(n: U64)
    | LastSequence(n: U64)
    | CompactPointer(level: U32, key: seq<Byte>)
    | DeletedFile(level: U32, number: U64)
    | AddedFile(file: NewFile)
    | PrevLogNumber(n: U64)

  const NONE := Edit(None, None, None, None, None, [], {}, [])

  // ---------------------------------------------------------------- fields

  function TagOf(f: Field): U32 {
    match f
    case Comparator(_) => 1
    case LogNumber(_) => 2
    case NextFileNumber(_) => 3
    case LastSequence(_) => 4
    case CompactPointer(_, _) => 5
    case DeletedFile(_, _) => 6
    case AddedFile(_) => 7
    case PrevLogNumber(_) => 9
  }

  function Body(f: Field): seq<Byte> {
    match f
    case Comparator(name) => Prefixed(name)
    case CompactPointer(level, key) => Varint(level) + Prefixed(key)
    case DeletedFile(level, number) => Varint(level) + Varint(number)
    case AddedFile(f) => Varint(f.level)
        + (Varint(f.number) + (Varint(f.size) + (Prefixed(f.smallest) + Prefixed(f.largest))))
    case _ => Varint(f.n)
  }

  function FieldBytes(f: Field): seq<Byte> {
    Varint(TagOf(f)) + Body(f)
  }

  function FieldsBytes(fs: seq<Field>): seq<Byte> {
    if fs == [] then [] else FieldBytes(fs[0]) + FieldsBytes(fs[1..])
  }

  /** A parsed value and the input left. */
  datatype Parsed<+T> = Parsed(value: T, rest: seq<Byte>)

  function GetNumber(s: seq<Byte>): Option<Parsed<U64>> {
    match ReadVarint(s, 10)
    case None => None
    case Some(n) => Some(Parsed(n.value % 0x1_0000_0000_0000_0000, s[n.used..]))
  }

  function GetWord(s: seq<Byte>): Option<Parsed<U32>> {
    match ReadVarint(s, 5)
    case None => None
    case Some(n) => Some(Parsed(n.value % 0x1_0000_0000, s[n.used..]))
  }

  function GetLevel(s: seq<Byte>): Option<Parsed<U32>> {
    match GetWord(s)
    case None => None
    case Some(p) => if p.value < LEVELS then Some(p) else None
  }

  function GetString(s: seq<Byte>): Option<Parsed<seq<Byte>>> {
    match ReadPrefixed(s)
    case None => None
    case Some(p) => Some(Parsed(p.data, s[p.used..]))
  }

  datatype Result<+T> = Ok(value: T) | Corruption(what: string)

  /** Reads the field with the given tag. */
  function GetField(tag: U32, s: seq<Byte>): Result<Parsed<Field>> {
    if tag == 1 then
      match GetString(s)
      case Some(p) => Ok(Parsed(Comparator(p.value), p.rest))
      case None => Corruption("comparator name")
    else if tag == 2 then
      match GetNumber(s)
      case Some(p) => Ok(Parsed(LogNumber(p.value), p.rest))
      case None => Corruption("log number")
    else if tag == 9 then
      match GetNumber(s)
      case Some(p) => Ok(Parsed(PrevLogNumber(p.value), p.rest))
      case None => Corruption("previous log number")
    else if tag == 3 then
      match GetNumber(s)
      case Some(p) => Ok(Parsed(NextFileNumber(p.value), p.rest))
      case None => Corruption("next file number")
    else if tag == 4 then
      match GetNumber(s)
      case Some(p) => Ok(Parsed(LastSequence(p.value), p.rest))
      case None => Corruption("last sequence number")
    else if tag == 5 then GetPointer(s)
    else if tag == 6 then GetDeleted(s)
    else if tag == 7 then GetNewFile(s)
    else Corruption("unknown tag")
  }

  function GetPointer(s: seq<Byte>): Result<Parsed<Field>> {
    match GetLevel(s)
    case None => Corruption("compaction pointer")
    case Some(l) =>
      match GetString(l.rest)
      case None => Corruption("compaction pointer")
      case Some(k) => Ok(Parsed(CompactPointer(l.value, k.value), k.rest))
  }

  function GetDeleted(s: seq<Byte>): Result<Parsed<Field>> {
    match GetLevel(s)
    case None => Corruption("deleted file")
    case Some(l) =>
      match GetNumber(l.rest)
      case None => Corruption("deleted file")
      case Some(n) => Ok(Parsed(DeletedFile(l.value, n.value), n.rest))
  }

  function GetNewFile(s: seq<Byte>): Result<Parsed<Field>> {
    match GetLevel(s)
    case None => Corruption("new-file entry")
    case Some(l) =>
      match GetNumber(l.rest)
      case None => Corruption("new-file entry")
      case Some(n) =>
        match GetNumber(n.rest)
        case None => Corruption("new-file entry")
        case Some(z) => GetRange(l.value, n.value, z.value, z.rest)
  }

  function GetRange(level: U32, number: U64, size: U64, s: seq<Byte>): Result<Parsed<Field>> {
    match GetString(s)
    case None => Corruption("new-file entry")
    case Some(a) =>
      match GetString(a.rest)
      case None => Corruption("new-file entry")
      case Some(b) => Ok(Parsed(AddedFile(NewFile(level, number, size, a.value, b.value)), b.rest))
  }

  // ---------------------------------------------------------------- single values

  lemma NumberRead(n: U64, rest: seq<Byte>)
    ensures GetNumber(Varint(n) + rest) == Some(Parsed(n, rest))
  {
    Varint64Size(n);
    VarintRoundTrip(n, rest, 10);
    assert (Varint(n) + rest)[|Varint(n)|..] == rest;
  }

  lemma WordRead(n: U32, rest: seq<Byte>)
    ensures GetWord(Varint(n) + rest) == Some(Parsed(n, rest))
  {
    Varint32Size(n);
    VarintRoundTrip(n, rest, 5);
    assert (Varint(n) + rest)[|Varint(n)|..] == rest;
  }

  lemma StringRead(data: seq<Byte>, rest: seq<Byte>)
    requires |data| < 0x1_0000_0000
    ensures GetString(Prefixed(data) + rest) == Some(Parsed(data, rest))
  {
    PrefixedRoundTrip(data, rest);
    assert (Prefixed(data) + rest)[|Prefixed(data)|..] == rest;
  }

  lemma Associate(a: seq<Byte>, b: seq<Byte>, c: seq<Byte>)
    ensures (a + b) + c == a + (b + c)
  {
  }

  ghost predicate Fits(f: Field) {
    match f
    case Comparator(name) => |name| < 0x1_0000_0000
    case CompactPointer(level, key) => level < LEVELS && |key| < 0x1_0000_0000
    case DeletedFile(level, _) => level < LEVELS
    case AddedFile(n) => n.level < LEVELS && |n.smallest| < 0x1_0000_0000 && |n.largest| < 0x1_0000_0000
    case _ => true
  }

  lemma NewFileRead(f: NewFile, rest: seq<Byte>)
    requires Fits(AddedFile(f))
    ensures GetNewFile(Body(AddedFile(f)) + rest) == Ok(Parsed(AddedFile(f), rest))
  {
    hide Varint, Prefixed, GetWord, GetNumber, GetString;
    var e := Prefixed(f.smallest) + Prefixed(f.largest);
    var d := Varint(f.size) + e;
    var c := Varint(f.number) + d;
    Associate(Varint(f.level), c, rest);
    Associate(Varint(f.number), d, rest);
    Associate(Varint(f.size), e, rest);
    Associate(Prefixed(f.smallest), Prefixed(f.largest), rest);
    WordRead(f.level, c + rest);
    NumberRead(f.number, d + rest);
    NumberRead(f.size, e + rest);
    StringRead(f.smallest, Prefixed(f.largest) + rest);
    StringRead(f.largest, rest);
  }

  /** Reading a field back. */
  lemma FieldRead(f: Field, rest: seq<Byte>)
    requires Fits(f)
    ensures FieldBytes(f) + rest == Varint(TagOf(f)) + (Body(f) + rest)
    ensures GetField(TagOf(f), Body(f) + rest) == Ok(Parsed(f, rest))
  {
    hide Varint, Prefixed, GetWord, GetNumber, GetString;
    Associate(Varint(TagOf(f)), Body(f), rest);
    match f {
      case Comparator(name) => StringRead(name, rest);
      case CompactPointer(level, key) =>
        Associate(Varint(level), Prefixed(key), rest);
        WordRead(level, Prefixed(key) + rest);
        StringRead(key, rest);
      case DeletedFile(level, number) =>
        Associate(Varint(level), Varint(number), rest);
        WordRead(level, Varint(number) + rest);
        NumberRead(number, rest);
      case AddedFile(n) =>
        NewFileRead(n, rest);
      case LogNumber(n) => NumberRead(n, rest);
      case NextFileNumber(n) => NumberRead(n, rest);
      case LastSequence(n) => NumberRead(n, rest);
      case PrevLogNumber(n) => NumberRead(n, rest);
    }
  }

  // ---------------------------------------------------------------- whole edits

  function Apply(e: Edit, f: Field): Edit {
    match f
    case Comparator(name) => e.(comparator := Some(name))
    case LogNumber(n) => e.(logNumber := Some(n))
    case PrevLogNumber(n) => e.(prevLogNumber := Some(n))
    case NextFileNumber(n) => e.(nextFile := Some(n))
    case LastSequence(n) => e.(lastSequence := Some(n))
    case CompactPointer(level, key) => e.(pointers := e.pointers + [(level, key)])
    case DeletedFile(level, number) => e.(deleted := e.deleted + {(level, number)})
    case AddedFile(n) => e.(added := e.added + [n])
  }

  ghost function ApplyAll(e: Edit, fs: seq<Field>): Edit
    decreases |fs|
  {
    if fs == [] then e else ApplyAll(Apply(e, fs[0]), fs[1..])
  }

  lemma {:induction false} ApplyAllSplit(e: Edit, a: seq<Field>, b: seq<Field>)
    ensures ApplyAll(e, a + b) == ApplyAll(ApplyAll(e, a), b)
    decreases |a|
  {
    if a == [] {
      assert a + b == b;
    } else {
      assert (a + b)[1..] == a[1..] + b;
      ApplyAllSplit(Apply(e, a[0]), a[1..], b);
    }
  }

  /** Clear does not reset the compaction pointers. */
  function Cleared(e: Edit): Edit {
    NONE.(pointers := e.pointers)
  }

  lemma FieldShrinks(tag: U32, s: seq<Byte>)
    ensures GetField(tag, s).Ok? ==> |GetField(tag, s).value.rest| < |s|
  {
  }

  function DecodeFields(input: seq<Byte>, e: Edit): Result<Edit>
    decreases |input|
  {
    match GetWord(input)
    case None => if input == [] then Ok(e) else Corruption("invalid tag")
    case Some(tag) =>
      match GetField(tag.value, tag.rest)
      case Corruption(m) => Corruption(m)
      case Ok(p) =>
        FieldShrinks(tag.value, tag.rest);
        DecodeFields(p.rest, Apply(e, p.value))
  }

  /** VersionEdit::DecodeFrom, into an edit that may have been used before. */
  method DecodeFrom(src: seq<Byte>, into: Edit) returns (r: Result<Edit>)
    ensures r == DecodeFields(src, Cleared(into))
  {
    var e := Cleared(into);
    var input := src;
    ghost var all := DecodeFields(src, e);
    while true
      invariant all == DecodeFields(input, e)
      decreases |input|
    {
      var tag := GetWord(input);
      if tag.None? {
        return if input == [] then Ok(e) else Corruption("invalid tag");
      }
      var f := GetField(tag.value.value, tag.value.rest);
      FieldShrinks(tag.value.value, tag.value.rest);
      if f.Corruption? {
        return Corruption(f.what);
      }
      e, input := Apply(e, f.value.value), f.value.rest;
    }
  }

  lemma {:induction false} FieldsRead(fs: seq<Field>, e: Edit)
    requires forall f :: f in fs ==> Fits(f)
    ensures DecodeFields(FieldsBytes(fs), e) == Ok(ApplyAll(e, fs))
  {
    if fs != [] {
      var f, rest := fs[0], FieldsBytes(fs[1..]);
      hide Varint, GetField, GetWord, FieldBytes, Body, Apply, Fits;
      FieldRead(f, rest);
      WordRead(TagOf(f), Body(f) + rest);
      FieldsRead(fs[1..], Apply(e, f));
    }
  }

  // ---------------------------------------------------------------- the encoder

  ghost function Scalars(e: Edit): seq<Field> {
    (if e.comparator.Some? then [Comparator(e.comparator.value)] else [])
    + (if e.logNumber.Some? then [LogNumber(e.logNumber.value)] else [])
    + (if e.prevLogNumber.Some? then [PrevLogNumber(e.prevLogNumber.value)] else [])
    + (if e.nextFile.Some? then [NextFileNumber(e.nextFile.value)] else [])
    + (if e.lastSequence.Some? then [LastSequence(e.lastSequence.value)] else [])
  }

  ghost function Pointers(ps: seq<(U32, seq<Byte>)>): seq<Field> {
    seq(|ps|, i requires 0 <= i < |ps| => CompactPointer(ps[i].0, ps[i].1))
  }

  ghost function Deletions(ds: seq<(U32, U64)>): seq<Field> {
    seq(|ds|, i requires 0 <= i < |ds| => DeletedFile(ds[i].0, ds[i].1))
  }

  ghost function Additions(fs: seq<NewFile>): seq<Field> {
    seq(|fs|, i requires 0 <= i < |fs| => AddedFile(fs[i]))
  }

  /** The fields of an edit in the order they are written; `ds` lists the deleted files. */
  ghost function FieldsOf(e: Edit, ds: seq<(U32, U64)>): seq<Field> {
    Scalars(e) + Pointers(e.pointers) + Deletions(ds) + Additions(e.added)
  }

  lemma {:induction false} FieldsAppend(a: seq<Field>, b: seq<Field>)
    ensures FieldsBytes(a + b) == FieldsBytes(a) + FieldsBytes(b)
  {
    if a == [] {
      assert a + b == b;
    } else {
      assert (a + b)[1..] == a[1..] + b;
      FieldsAppend(a[1..], b);
    }
  }

  lemma OneField(f: Field)
    ensures FieldsBytes([f]) == FieldBytes(f)
  {
    assert [f][1..] == [];
  }

  method PutField(dst: seq<Byte>, f: Field, ghost fs: seq<Field>) returns (r: seq<Byte>)
    requires dst == FieldsBytes(fs)
    ensures r == FieldsBytes(fs + [f])
  {
    FieldsAppend(fs, [f]);
    OneField(f);
    r := dst + FieldBytes(f);
  }

  method EncodeScalars(e: Edit) returns (dst: seq<Byte>)
    ensures dst == FieldsBytes(Scalars(e))
  {
    hide FieldsBytes, FieldBytes;
    dst := [];
    ghost var fs: seq<Field> := [];
    NoFields();
    if e.comparator.Some? {
      dst := PutField(dst, Comparator(e.comparator.value), fs);
      fs := fs + [Comparator(e.comparator.value)];
    }
    if e.logNumber.Some? {
      dst := PutField(dst, LogNumber(e.logNumber.value), fs);
      fs := fs + [LogNumber(e.logNumber.value)];
    }
    if e.prevLogNumber.Some? {
      dst := PutField(dst, PrevLogNumber(e.prevLogNumber.value), fs);
      fs := fs + [PrevLogNumber(e.prevLogNumber.value)];
    }
    if e.nextFile.Some? {
      dst := PutField(dst, NextFileNumber(e.nextFile.value), fs);
      fs := fs + [NextFileNumber(e.nextFile.value)];
    }
    if e.lastSequence.Some? {
      dst := PutField(dst, LastSequence(e.lastSequence.value), fs);
      fs := fs + [LastSequence(e.lastSequence.value)];
    }
    assert fs == Scalars(e);
  }

  lemma NoFields()
    ensures FieldsBytes([]) == []
  {
  }

  /** VersionEdit::EncodeTo; `ds` is the order in which the set of deleted files is walked. */
  method EncodeTo(e: Edit, ds: seq<(U32, U64)>) returns (dst: seq<Byte>)
    ensures dst == FieldsBytes(FieldsOf(e, ds))
  {
    hide FieldsBytes, FieldBytes, Scalars;
    dst := EncodeScalars(e);
    ghost var start := Scalars(e);
    var i := 0;
    assert start + Pointers(e.pointers[..0]) == start;
    while i < |e.pointers|
      invariant i <= |e.pointers| && dst == FieldsBytes(start + Pointers(e.pointers[..i]))
    {
      dst := PutField(dst, CompactPointer(e.pointers[i].0, e.pointers[i].1), start + Pointers(e.pointers[..i]));
      assert start + Pointers(e.pointers[..i]) + [CompactPointer(e.pointers[i].0, e.pointers[i].1)]
          == start + Pointers(e.pointers[..i + 1]);
      i := i + 1;
    }
    assert e.pointers[..i] == e.pointers;
    dst := EncodeFiles(dst, e, ds, start + Pointers(e.pointers));
  }

  method EncodeFiles(dst0: seq<Byte>, e: Edit, ds: seq<(U32, U64)>, ghost start: seq<Field>) returns (dst: seq<Byte>)
    requires dst0 == FieldsBytes(start)
    ensures dst == FieldsBytes(start + Deletions(ds) + Additions(e.added))
  {
    hide FieldsBytes, FieldBytes;
    dst := dst0;
    var i := 0;
    assert start + Deletions(ds[..0]) == start;
    while i < |ds|
      invariant i <= |ds| && dst == FieldsBytes(start + Deletions(ds[..i]))
    {
      dst := PutField(dst, DeletedFile(ds[i].0, ds[i].1), start + Deletions(ds[..i]));
      assert start + Deletions(ds[..i]) + [DeletedFile(ds[i].0, ds[i].1)] == start + Deletions(ds[..i + 1]);
      i := i + 1;
    }
    assert ds[..i] == ds;
    ghost var before := start + Deletions(ds);
    i := 0;
    assert before + Additions(e.added[..0]) == before;
    while i < |e.added|
      invariant i <= |e.added| && dst == FieldsBytes(before + Additions(e.added[..i]))
    {
      dst := PutField(dst, AddedFile(e.added[i]), before + Additions(e.added[..i]));
      assert before + Additions(e.added[..i]) + [AddedFile(e.added[i])] == before + Additions(e.added[..i + 1]);
      i := i + 1;
    }
    assert e.added[..i] == e.added;
  }

  // ---------------------------------------------------------------- round trip

  ghost predicate Encodable(e: Edit) {
    && (e.comparator.Some? ==> |e.comparator.value| < 0x1_0000_0000)
    && (forall p :: p in e.pointers ==> p.0 < LEVELS && |p.1| < 0x1_0000_0000)
    && (forall d :: d in e.deleted ==> d.0 < LEVELS)
    && (forall n :: n in e.added ==> Fits(AddedFile(n)))
  }

  lemma {:induction false} ApplyPointers(e: Edit, ps: seq<(U32, seq<Byte>)>)
    ensures ApplyAll(e, Pointers(ps)) == e.(pointers := e.pointers + ps)
    decreases |ps|
  {
    if ps == [] {
      assert e.pointers + [] == e.pointers;
    } else {
      assert Pointers(ps)[1..] == Pointers(ps[1..]);
      ApplyPointers(e.(pointers := e.pointers + [ps[0]]), ps[1..]);
      assert e.pointers + [ps[0]] + ps[1..] == e.pointers + ps;
    }
  }

  lemma {:induction false} ApplyDeletions(e: Edit, ds: seq<(U32, U64)>)
    ensures ApplyAll(e, Deletions(ds)) == e.(deleted := e.deleted + set d | d in ds)
    decreases |ds|
  {
    if ds == [] {
      assert e.deleted + {} == e.deleted;
    } else {
      assert Deletions(ds)[1..] == Deletions(ds[1..]);
      ApplyDeletions(e.(deleted := e.deleted + {ds[0]}), ds[1..]);
      assert (set d | d in ds) == {ds[0]} + set d | d in ds[1..];
    }
  }

  lemma {:induction false} ApplyAdditions(e: Edit, fs: seq<NewFile>)
    ensures ApplyAll(e, Additions(fs)) == e.(added := e.added + fs)
    decreases |fs|
  {
    if fs == [] {
      assert e.added + [] == e.added;
    } else {
      assert Additions(fs)[1..] == Additions(fs[1..]);
      ApplyAdditions(e.(added := e.added + [fs[0]]), fs[1..]);
      assert e.added + [fs[0]] + fs[1..] == e.added + fs;
    }
  }

  lemma ApplyScalars(e: Edit, into: Edit)
    requires into.comparator.None? && into.logNumber.None? && into.prevLogNumber.None?
             && into.nextFile.None? && into.lastSequence.None?
    ensures ApplyAll(into, Scalars(e)) ==
            Edit(e.comparator, e.logNumber, e.prevLogNumber, e.nextFile,
                e.lastSequence, into.pointers, into.deleted, into.added)
  {
    var a: seq<Field> := if e.comparator.Some? then [Comparator(e.comparator.value)] else [];
    var b: seq<Field> := if e.logNumber.Some? then [LogNumber(e.logNumber.value)] else [];
    var c: seq<Field> := if e.prevLogNumber.Some? then [PrevLogNumber(e.prevLogNumber.value)] else [];
    var d: seq<Field> := if e.nextFile.Some? then [NextFileNumber(e.nextFile.value)] else [];
    var f: seq<Field> := if e.lastSequence.Some? then [LastSequence(e.lastSequence.value)] else [];
    var e1 := ApplyAll(into, a);
    var e2 := ApplyAll(e1, b);
    var e3 := ApplyAll(e2, c);
    var e4 := ApplyAll(e3, d);
    ApplyAllSplit(into, a, b);
    ApplyAllSplit(into, a + b, c);
    ApplyAllSplit(into, a + b + c, d);
    ApplyAllSplit(into, a + b + c + d, f);
  }

  /** Decoding what was encoded into an edit that was used before: the old compaction pointers stay in front,
      so the edit comes back exactly when there were none. */
  lemma EditRoundTrip(e: Edit, ds: seq<(U32, U64)>, into: Edit)
    requires Encodable(e) && (set d | d in ds) == e.deleted
    ensures DecodeFields(FieldsBytes(FieldsOf(e, ds)), Cleared(into)) == Ok(e.(pointers := into.pointers + e.pointers))
    ensures DecodeFields(FieldsBytes(FieldsOf(e, ds)), Cleared(into)) == Ok(e) <==> into.pointers == []
  {
    var fs := FieldsOf(e, ds);
    AllFit(e, ds);
    FieldsRead(fs, Cleared(into));
    var s, p, d, a := Scalars(e), Pointers(e.pointers), Deletions(ds), Additions(e.added);
    ApplyAllSplit(Cleared(into), s + p + d, a);
    ApplyAllSplit(Cleared(into), s + p, d);
    ApplyAllSplit(Cleared(into), s, p);
    ApplyScalars(e, Cleared(into));
    hide ApplyAll, FieldsBytes, DecodeFields, Scalars, Pointers, Deletions, Additions;
    var e1 := ApplyAll(Cleared(into), s);
    ApplyPointers(e1, e.pointers);
    var e2 := ApplyAll(e1, p);
    ApplyDeletions(e2, ds);
    ApplyAdditions(ApplyAll(e2, d), e.added);
    assert {} + e.deleted == e.deleted && [] + e.added == e.added;
    assert |into.pointers + e.pointers| == |into.pointers| + |e.pointers|;
    assert into.pointers == [] ==> into.pointers + e.pointers == e.pointers;
  }

  /** One leftover pointer is enough: an empty edit decoded into it is no longer empty. */
  lemma LeftoverPointer(level: U32, key: seq<Byte>)
    ensures DecodeFields(FieldsBytes(FieldsOf(NONE, [])), Cleared(NONE.(pointers := [(level, key)])))
            == Ok(NONE.(pointers := [(level, key)]))
  {
    var into := NONE.(pointers := [(level, key)]);
    var nothing: seq<(U32, U64)> := [];
    assert (set d | d in nothing) == NONE.deleted;
    EditRoundTrip(NONE, nothing, into);
    assert into.pointers + NONE.pointers == into.pointers;
  }

  lemma AllFit(e: Edit, ds: seq<(U32, U64)>)
    requires Encodable(e) && (set d | d in ds) == e.deleted
    ensures forall f :: f in Scalars(e) + Pointers(e.pointers) + Deletions(ds) + Additions(e.added) ==> Fits(f)
  {
    ScalarsFit(e);
    ListsFit(e, ds);
    hide *;
    var s, p, d, a := Scalars(e), Pointers(e.pointers), Deletions(ds), Additions(e.added);
    assert forall f :: f in s + p + d + a ==> f in s || f in p || f in d || f in a;
  }

  lemma ScalarsFit(e: Edit)
    requires Encodable(e)
    ensures forall f :: f in Scalars(e) ==> Fits(f)
  {
  }

  lemma ListsFit(e: Edit, ds: seq<(U32, U64)>)
    requires Encodable(e) && (set d | d in ds) == e.deleted
    ensures forall f :: f in Pointers(e.pointers) ==> Fits(f)
    ensures forall f :: f in Deletions(ds) ==> Fits(f)
    ensures forall f :: f in Additions(e.added) ==> Fits(f)
  {
    forall i | 0 <= i < |ds| ensures ds[i].0 < LEVELS {
      assert ds[i] in e.deleted;
    }
  }
}
