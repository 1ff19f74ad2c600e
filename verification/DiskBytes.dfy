/** Log records and manifest records as bytes. */
module DiskBytes {
  // A group of writes is logged as the batch that holds it, an installation as its encoded edit.  Both files may be
  // cut off anywhere; what is read back is what is there in full.

  import opened Keys
  import opened Bytes
  import opened Coding
  import opened Versions
  import opened Recovery
  import opened LogFormat
  import opened LogReader
  import opened Builders
  import WriteBatches
  import EditCoding

  /** The user keys as bytes and back, and the comparator's name. */
  datatype Names = Names(comparator: seq<Byte>, bytesOf: UserKey -> seq<Byte>, rankOf: seq<Byte> -> UserKey)

  ghost predicate NamesOk(ns: Names) {
    forall k :: ns.rankOf(ns.bytesOf(k)) == k
  }

  // ---------------------------------------------------------------- a group of writes

  /** A value holds bytes. */
  ghost predicate IsBytes(s: string) {
    forall i :: 0 <= i < |s| ==> s[i] as int < 256
  }

  function ToBytes(s: string): (r: seq<Byte>)
    ensures |r| == |s|
  {
    seq(|s|, i requires 0 <= i < |s| => s[i] as int % 256)
  }

  function FromBytes(b: seq<Byte>): string {
    seq(|b|, i requires 0 <= i < |b| => b[i] as char)
  }

  lemma BytesBack(s: string)
    requires IsBytes(s)
    ensures FromBytes(ToBytes(s)) == s
  {
  }

  function ToBatchOp(ns: Names, op: (UserKey, Op)): WriteBatches.BatchOp {
    match op.1
    case Put(value) => WriteBatches.BatchOp.Put(ns.bytesOf(op.0), ToBytes(value))
    case Delete => WriteBatches.BatchOp.Delete(ns.bytesOf(op.0))
  }

  function FromBatchOp(ns: Names, op: WriteBatches.BatchOp): (UserKey, Op) {
    match op
    case Put(key, value) => (ns.rankOf(key), Op.Put(FromBytes(value)))
    case Delete(key) => (ns.rankOf(key), Op.Delete)
  }

  function ToBatchOps(ns: Names, ops: seq<(UserKey, Op)>): (r: seq<WriteBatches.BatchOp>)
    ensures |r| == |ops| && forall i :: 0 <= i < |r| ==> r[i] == ToBatchOp(ns, ops[i])
  {
    seq(|ops|, i requires 0 <= i < |ops| => ToBatchOp(ns, ops[i]))
  }

  function FromBatchOps(ns: Names, ops: seq<WriteBatches.BatchOp>): (r: seq<(UserKey, Op)>)
    ensures |r| == |ops| && forall i :: 0 <= i < |r| ==> r[i] == FromBatchOp(ns, ops[i])
  {
    seq(|ops|, i requires 0 <= i < |ops| => FromBatchOp(ns, ops[i]))
  }

  ghost predicate OpStorable(ns: Names, op: (UserKey, Op)) {
    WriteBatches.OpFits(ToBatchOp(ns, op)) && (op.1.Put? ==> IsBytes(op.1.value))
  }

  ghost predicate Storable(ns: Names, r: Record) {
    |r.ops| < 0x1_0000_0000 && forall op :: op in r.ops ==> OpStorable(ns, op)
  }

  /** The contents of the batch that is logged. */
  ghost function RecordBytes(ns: Names, r: Record): seq<Byte> {
    Fixed64(r.first) + Fixed32(|r.ops| % 0x1_0000_0000) + WriteBatches.OpsBytes(ToBatchOps(ns, r.ops))
  }

  /** What recovery inserts for the contents of a log record: nothing if there is no room for a header, and of a
      damaged batch the operations before the damage. */
  ghost function ReadRecord(ns: Names, rep: seq<Byte>): Option<Rec> {
    if |rep| < WriteBatches.HEADER then None
    else Some(Rec(DecodeFixed64(rep), FromBatchOps(ns, WriteBatches.IterateSpec(rep).ops)))
  }

  lemma OpBack(ns: Names, op: (UserKey, Op))
    requires NamesOk(ns) && OpStorable(ns, op)
    ensures FromBatchOp(ns, ToBatchOp(ns, op)) == op
  {
    var (key, o) := op;
    assert ns.rankOf(ns.bytesOf(key)) == key;
    match o {
      case Put(value) => BytesBack(value);
      case Delete =>
    }
  }

  lemma OpsBack(ns: Names, ops: seq<(UserKey, Op)>)
    requires NamesOk(ns) && forall op :: op in ops ==> OpStorable(ns, op)
    ensures FromBatchOps(ns, ToBatchOps(ns, ops)) == ops
    ensures forall op :: op in ToBatchOps(ns, ops) ==> WriteBatches.OpFits(op)
  {
    hide NamesOk, FromBatchOp, ToBatchOp, WriteBatches.OpFits;
    forall i | 0 <= i < |ops| ensures FromBatchOp(ns, ToBatchOp(ns, ops[i])) == ops[i] {
      OpBack(ns, ops[i]);
    }
    forall i | 0 <= i < |ops| ensures WriteBatches.OpFits(ToBatchOps(ns, ops)[i]) {
      assert OpStorable(ns, ops[i]);
    }
  }

  /** A logged group is read back. */
  lemma RecordRoundTrip(ns: Names, r: Record)
    requires NamesOk(ns) && Storable(ns, r)
    ensures ReadRecord(ns, RecordBytes(ns, r)) == Some(r)
  {
    hide WriteBatches.OpsBytes, WriteBatches.IterateSpec, Fixed64, Fixed32, DecodeFixed64, ToBatchOps, FromBatchOps,
      WriteBatches.OpFits, OpStorable, NamesOk;
    OpsBack(ns, r.ops);
    WriteBatches.ContentsRead(r.first, ToBatchOps(ns, r.ops));
  }

  /** The write path: the group becomes a batch with its sequence number, whose contents are the next record. */
  method LogGroup(ns: Names, crc: seq<Byte> -> Word, file: seq<Byte>, r: Record, ghost before: seq<Record>)
    returns (file2: seq<Byte>)
    requires Storable(ns, r) && file == Log(crc, LogBytes(ns, before))
    ensures file2 == Log(crc, LogBytes(ns, before + [r]))
  {
    hide Storable, RecordBytes, Log;
    var rep := GroupContents(ns, r);
    OneMoreLogged(ns, before, r);
    file2 := WriteSession(crc, file, [rep], LogBytes(ns, before));
  }

  method GroupContents(ns: Names, r: Record) returns (rep: seq<Byte>)
    requires Storable(ns, r)
    ensures rep == RecordBytes(ns, r)
  {
    hide ToBatchOp, WriteBatches.OpFits, WriteBatches.OpsBytes, Fixed64, Fixed32;
    var batch := new WriteBatches.WriteBatch();
    var i := 0;
    while i < |r.ops|
      invariant i <= |r.ops| && fresh(batch) && batch.Valid() && batch.ops == ToBatchOps(ns, r.ops[..i])
    {
      hide WriteBatches.WriteBatch.Valid;
      assert OpStorable(ns, r.ops[i]);
      batch.Add(ToBatchOp(ns, r.ops[i]));
      i := i + 1;
    }
    assert r.ops[..i] == r.ops;
    batch.SetSequence(r.first);
    rep := batch.rep;
  }

  // ---------------------------------------------------------------- a log

  ghost function LogBytes(ns: Names, records: seq<Record>): (r: seq<seq<Byte>>)
    ensures |r| == |records| && forall i :: 0 <= i < |r| ==> r[i] == RecordBytes(ns, records[i])
  {
    seq(|records|, i requires 0 <= i < |records| => RecordBytes(ns, records[i]))
  }

  ghost predicate AllStorable(ns: Names, records: seq<Record>) {
    forall r :: r in records ==> Storable(ns, r)
  }

  /** What the records of a log read as. */
  ghost function RecordsIn(ns: Names, reps: seq<seq<Byte>>): seq<Rec> {
    if reps == [] then []
    else
      var n := |reps| - 1;
      var r := ReadRecord(ns, reps[n]);
      RecordsIn(ns, reps[..n]) + (if r.Some? then [r.value] else [])
  }

  method ReadRecords(ns: Names, reps: seq<seq<Byte>>) returns (records: seq<Rec>)
    ensures records == RecordsIn(ns, reps)
  {
    records := [];
    var i := 0;
    while i < |reps|
      invariant i <= |reps| && records == RecordsIn(ns, reps[..i])
    {
      assert reps[..i + 1][..i] == reps[..i];
      if |reps[i]| >= WriteBatches.HEADER {
        var r := WriteBatches.Iterate(reps[i]);
        records := records + [Rec(DecodeFixed64(reps[i]), FromBatchOps(ns, r.ops))];
      }
      i := i + 1;
    }
    assert reps[..i] == reps;
  }

  lemma OneMoreRecord(ns: Names, reps: seq<seq<Byte>>, rep: seq<Byte>)
    ensures RecordsIn(ns, reps + [rep])
            == RecordsIn(ns, reps) + (if ReadRecord(ns, rep).Some? then [ReadRecord(ns, rep).value] else [])
  {
    assert (reps + [rep])[..|reps|] == reps;
    hide ReadRecord;
  }

  lemma OneMoreLogged(ns: Names, records: seq<Record>, r: Record)
    ensures LogBytes(ns, records + [r]) == LogBytes(ns, records) + [RecordBytes(ns, r)]
    ensures AllStorable(ns, records + [r]) ==> AllStorable(ns, records)
  {
    hide RecordBytes, Storable;
    var all := records + [r];
    assert forall x :: x in records ==> x in all;
  }

  lemma LogSplit(ns: Names, records: seq<Record>)
    requires records != []
    ensures var n := |records| - 1;
            && LogBytes(ns, records) == LogBytes(ns, records[..n]) + [RecordBytes(ns, records[n])]
            && records == records[..n] + [records[n]]
  {
    hide RecordBytes;
  }

  lemma {:induction false} RecordsBack(ns: Names, records: seq<Record>)
    requires NamesOk(ns) && AllStorable(ns, records)
    ensures RecordsIn(ns, LogBytes(ns, records)) == records
  {
    if records != [] {
      var n := |records| - 1;
      assert AllStorable(ns, records[..n]) && Storable(ns, records[n]);
      hide *;
      RecordsBack(ns, records[..n]);
      RecordRoundTrip(ns, records[n]);
      LogSplit(ns, records);
      OneMoreRecord(ns, LogBytes(ns, records[..n]), RecordBytes(ns, records[n]));
    }
  }

  // ---------------------------------------------------------------- files that are cut off

  /** The file holds exactly these records in full; the last one begun may be cut off anywhere. */
  ghost predicate InFull(crc: seq<Byte> -> Word, file: seq<Byte>, records: seq<seq<Byte>>) {
    exists more :: InFullThen(crc, file, records, more)
  }

  ghost predicate InFullThen(crc: seq<Byte> -> Word, file: seq<Byte>, records: seq<seq<Byte>>, more: seq<seq<Byte>>) {
    file <= Log(crc, records + more) && Whole(crc, records + more, |file|) == |records|
  }

  lemma AllInFull(crc: seq<Byte> -> Word, records: seq<seq<Byte>>)
    ensures InFull(crc, Log(crc, records), records)
  {
    assert records + [] == records;
    assert InFullThen(crc, Log(crc, records), records, []);
  }

  lemma {:induction false} AtLeast(crc: seq<Byte> -> Word, records: seq<seq<Byte>>, k: nat, n: nat)
    requires k <= |records| && |Log(crc, records[..k])| <= n
    ensures k <= Whole(crc, records, n)
  {
    assert records[..|records|] == records;
    if |Log(crc, records)| > n {
      var before := records[..|records| - 1];
      assert before[..k] == records[..k];
      AtLeast(crc, before, k, n);
    }
  }

  /** A file whose last record was being written holds the records before it, and that one only if every byte is
      there. */
  lemma CutAnywhere(crc: seq<Byte> -> Word, records: seq<seq<Byte>>, record: seq<Byte>, file: seq<Byte>)
    requires Log(crc, records) <= file <= Log(crc, records + [record])
    ensures InFull(crc, file, if file == Log(crc, records + [record]) then records + [record] else records)
  {
    var all := records + [record];
    if file == Log(crc, all) {
      AllInFull(crc, all);
    } else {
      assert all[..|all|] == all && all[..|records|] == records;
      AtLeast(crc, all, |records|, |file|);
      assert InFullThen(crc, file, records, [record]);
    }
  }

  lemma HeldReadsBack(crc: seq<Byte> -> Word, file: seq<Byte>, records: seq<seq<Byte>>)
    requires InFull(crc, file, records)
    ensures ContentsAt(Source(crc, file), 0) == Contents(records, 0)
  {
    hide Log, Whole, ContentsAt;
    var more :| InFullThen(crc, file, records, more);
    LogReadsBack(crc, file, records + more);
    assert (records + more)[..|records|] == records;
  }

  /** The groups recovery finds in a log file, whatever its bytes; corruptions are passed over. */
  ghost function LogIn(ns: Names, crc: seq<Byte> -> Word, file: seq<Byte>): seq<Rec> {
    RecordsIn(ns, ContentsAt(Source(crc, file), 0).records)
  }

  method ReadLog(ns: Names, crc: seq<Byte> -> Word, file: seq<Byte>) returns (records: seq<Rec>)
    ensures records == LogIn(ns, crc, file)
  {
    hide ContentsAt;
    var reps, reports := ReadAll(crc, file);
    records := ReadRecords(ns, reps);
  }

  /** A log that was cut off anywhere gives the groups that are there in full. */
  lemma LogBack(ns: Names, crc: seq<Byte> -> Word, file: seq<Byte>, records: seq<Record>)
    requires NamesOk(ns) && AllStorable(ns, records) && InFull(crc, file, LogBytes(ns, records))
    ensures LogIn(ns, crc, file) == records
  {
    hide NamesOk, AllStorable, LogBytes, RecordsIn, InFull, ContentsAt;
    HeldReadsBack(crc, file, LogBytes(ns, records));
    RecordsBack(ns, records);
  }

  // ---------------------------------------------------------------- a manifest record

  /** The counters a manifest record carries. */
  datatype Marks = Marks(logNumber: nat, nextFile: nat, lastSeq: nat)

  function KeyBytes(ns: Names, k: IKey): seq<Byte> {
    ns.bytesOf(k.key) + Fixed64(k.tag % 0x1_0000_0000_0000_0000)
  }

  function KeyFrom(ns: Names, b: seq<Byte>): IKey {
    if |b| < 8 then IKey(ns.rankOf(b), 0) else IKey(ns.rankOf(b[..|b| - 8]), DecodeFixed64(b[|b| - 8..]))
  }

  lemma KeyBack(ns: Names, k: IKey)
    requires NamesOk(ns) && k.tag < 0x1_0000_0000_0000_0000
    ensures KeyFrom(ns, KeyBytes(ns, k)) == k
  {
    assert k.tag % 0x1_0000_0000_0000_0000 == k.tag;
    assert ns.rankOf(ns.bytesOf(k.key)) == k.key;
    hide NamesOk, Fixed64, DecodeFixed64;
    var a, t := ns.bytesOf(k.key), Fixed64(k.tag);
    Fixed64RoundTrip(k.tag, []);
    assert t + [] == t;
    assert (a + t)[..|a|] == a && (a + t)[|a|..] == t;
  }

  /** A file without what is in it, which the manifest does not say. */
  function Bare(f: File): File {
    f.(entries := [])
  }

  function BareEdit(e: Edit): (r: Edit)
    ensures r.deleted == e.deleted && |r.added| == |e.added|
    ensures forall i :: 0 <= i < |r.added| ==> r.added[i] == (e.added[i].0, Bare(e.added[i].1))
  {
    Edit(e.deleted, seq(|e.added|, i requires 0 <= i < |e.added| => (e.added[i].0, Bare(e.added[i].1))))
  }

  function FileFrom(ns: Names, n: EditCoding.NewFile): File {
    File(n.number, n.size, KeyFrom(ns, n.smallest), KeyFrom(ns, n.largest), [])
  }

  ghost predicate FileStored(ns: Names, n: EditCoding.NewFile, l: nat, f: File) {
    && n.level == l && n.number == f.number && n.size == f.size
    && f.smallest.tag < 0x1_0000_0000_0000_0000 && f.largest.tag < 0x1_0000_0000_0000_0000
    && n.smallest == KeyBytes(ns, f.smallest) && n.largest == KeyBytes(ns, f.largest)
  }

  function DeletedFrom(r: EditCoding.Edit): set<(nat, nat)> {
    set d | d in r.deleted :: (d.0 as nat, d.1 as nat)
  }

  function EditFrom(ns: Names, r: EditCoding.Edit): Edit {
    Edit(DeletedFrom(r),
      seq(|r.added|, i requires 0 <= i < |r.added| => (r.added[i].level as nat, FileFrom(ns, r.added[i]))))
  }

  ghost predicate Marked(r: EditCoding.Edit, mark: Option<Marks>) {
    match mark
    case None => r.logNumber.None? && r.nextFile.None? && r.lastSequence.None?
    case Some(m) =>
      r.logNumber == Some(m.logNumber) && r.nextFile == Some(m.nextFile) && r.lastSequence == Some(m.lastSeq)
  }

  /** The edit as the manifest stores it: its files and deletions, the counters if it has any, the comparator's name
      if it says one; the compaction pointers may be anything. */
  ghost predicate Describes(ns: Names, r: EditCoding.Edit, e: Edit, mark: Option<Marks>) {
    && EditCoding.Encodable(r) && Marked(r, mark)
    && (r.comparator.Some? ==> r.comparator.value == ns.comparator)
    && e.deleted == DeletedFrom(r)
    && |r.added| == |e.added|
    && forall i :: 0 <= i < |r.added| ==> FileStored(ns, r.added[i], e.added[i].0, e.added[i].1)
  }

  lemma EditBack(ns: Names, r: EditCoding.Edit, e: Edit, mark: Option<Marks>)
    requires NamesOk(ns) && Describes(ns, r, e, mark)
    ensures EditFrom(ns, r) == BareEdit(e)
  {
    hide NamesOk, KeyBytes, KeyFrom, EditCoding.Encodable;
    forall i | 0 <= i < |r.added| ensures FileFrom(ns, r.added[i]) == Bare(e.added[i].1) {
      assert FileStored(ns, r.added[i], e.added[i].0, e.added[i].1);
      KeyBack(ns, e.added[i].1.smallest);
      KeyBack(ns, e.added[i].1.largest);
    }
    assert EditFrom(ns, r).added == BareEdit(e).added;
  }

  // ---------------------------------------------------------------- a manifest

  /** An edit and the order in which its deleted files are written. */
  datatype Written = Written(edit: EditCoding.Edit, order: seq<(U32, U64)>)

  ghost predicate WrittenOk(w: Written) {
    (set d | d in w.order) == w.edit.deleted
  }

  ghost function EditBytes(w: Written): seq<Byte> {
    EditCoding.FieldsBytes(EditCoding.FieldsOf(w.edit, w.order))
  }

  ghost function ManifestBytes(ws: seq<Written>): (r: seq<seq<Byte>>)
    ensures |r| == |ws| && forall i :: 0 <= i < |r| ==> r[i] == EditBytes(ws[i])
  {
    seq(|ws|, i requires 0 <= i < |ws| => EditBytes(ws[i]))
  }

  /** What recovery knows after some manifest records. */
  datatype ManifestRead = ManifestRead(edits: seq<Edit>, logNumber: Option<nat>, nextFile: Option<nat>,
                                       lastSeq: Option<nat>)

  function Absorbed(ns: Names, m: ManifestRead, r: EditCoding.Edit): ManifestRead {
    ManifestRead(m.edits + [EditFrom(ns, r)],
      if r.logNumber.Some? then r.logNumber else m.logNumber,
      if r.nextFile.Some? then r.nextFile else m.nextFile,
      if r.lastSequence.Some? then r.lastSequence else m.lastSeq)
  }

  /** One record: none if it cannot be decoded or names another comparator. */
  ghost function AfterRecord(ns: Names, m: ManifestRead, rep: seq<Byte>): Option<ManifestRead> {
    match EditCoding.DecodeFields(rep, EditCoding.Cleared(EditCoding.NONE))
    case Corruption(_) => None
    case Ok(r) =>
      if r.comparator.Some? && r.comparator.value != ns.comparator then None else Some(Absorbed(ns, m, r))
  }

  ghost function ManifestIn(ns: Names, reps: seq<seq<Byte>>): Option<ManifestRead> {
    if reps == [] then Some(ManifestRead([], None, None, None))
    else
      var n := |reps| - 1;
      match ManifestIn(ns, reps[..n])
      case None => None
      case Some(m) => AfterRecord(ns, m, reps[n])
  }

  lemma {:induction false} StaysUnread(ns: Names, reps: seq<seq<Byte>>, i: nat)
    requires i <= |reps| && ManifestIn(ns, reps[..i]).None?
    ensures ManifestIn(ns, reps).None?
    decreases |reps| - i
  {
    if i == |reps| {
      assert reps[..i] == reps;
    } else {
      assert reps[..i + 1][..i] == reps[..i];
      StaysUnread(ns, reps, i + 1);
    }
  }

  /** VersionSet::Recover's loop over the manifest's records. */
  method ReadManifest(ns: Names, reps: seq<seq<Byte>>) returns (m: Option<ManifestRead>)
    ensures m == ManifestIn(ns, reps)
  {
    m := Some(ManifestRead([], None, None, None));
    var i := 0;
    while i < |reps| && m.Some?
      invariant i <= |reps| && m == ManifestIn(ns, reps[..i])
    {
      hide EditCoding.DecodeFields, Absorbed;
      assert reps[..i + 1][..i] == reps[..i];
      var r := EditCoding.DecodeFrom(reps[i], EditCoding.NONE);
      if r.Corruption? || (r.value.comparator.Some? && r.value.comparator.value != ns.comparator) {
        m := None;
      } else {
        m := Some(Absorbed(ns, m.value, r.value));
      }
      i := i + 1;
    }
    if m.None? {
      StaysUnread(ns, reps, i);
    } else {
      assert reps[..i] == reps;
    }
  }

  /** The last counters that were recorded. */
  ghost function LastMarks(marks: seq<Option<Marks>>): Option<Marks> {
    if marks == [] then None
    else if marks[|marks| - 1].Some? then marks[|marks| - 1] else LastMarks(marks[..|marks| - 1])
  }

  function BareEdits(edits: seq<Edit>): (r: seq<Edit>)
    ensures |r| == |edits| && forall i :: 0 <= i < |r| ==> r[i] == BareEdit(edits[i])
  {
    seq(|edits|, i requires 0 <= i < |edits| => BareEdit(edits[i]))
  }

  ghost function ReadAs(edits: seq<Edit>, mark: Option<Marks>): ManifestRead {
    match mark
    case None => ManifestRead(BareEdits(edits), None, None, None)
    case Some(k) => ManifestRead(BareEdits(edits), Some(k.logNumber), Some(k.nextFile), Some(k.lastSeq))
  }

  /** The records describe the edits with their counters. */
  ghost predicate AllDescribed(ns: Names, ws: seq<Written>, edits: seq<Edit>, marks: seq<Option<Marks>>) {
    && |ws| == |edits| == |marks|
    && forall i :: 0 <= i < |ws| ==> WrittenOk(ws[i]) && Describes(ns, ws[i].edit, edits[i], marks[i])
  }

  lemma RecordAbsorbed(ns: Names, m: ManifestRead, w: Written, e: Edit, mark: Option<Marks>)
    requires NamesOk(ns) && WrittenOk(w) && Describes(ns, w.edit, e, mark)
    ensures AfterRecord(ns, m, EditBytes(w)) == Some(Absorbed(ns, m, w.edit))
    ensures EditFrom(ns, w.edit) == BareEdit(e) && Marked(w.edit, mark)
  {
    EditBack(ns, w.edit, e, mark);
    hide EditCoding.DecodeFields, EditCoding.FieldsBytes, EditCoding.FieldsOf, EditCoding.Encodable, NamesOk, EditFrom;
    EditCoding.EditRoundTrip(w.edit, w.order, EditCoding.NONE);
  }

  lemma OneMoreEdit(ns: Names, reps: seq<seq<Byte>>, rep: seq<Byte>)
    requires ManifestIn(ns, reps).Some?
    ensures ManifestIn(ns, reps + [rep]) == AfterRecord(ns, ManifestIn(ns, reps).value, rep)
  {
    assert (reps + [rep])[..|reps|] == reps;
    hide AfterRecord;
  }

  lemma OneMoreWritten(ws: seq<Written>, w: Written)
    ensures ManifestBytes(ws + [w]) == ManifestBytes(ws) + [EditBytes(w)]
  {
    hide EditBytes;
  }

  lemma ManifestSplit(ws: seq<Written>)
    requires ws != []
    ensures ManifestBytes(ws) == ManifestBytes(ws[..|ws| - 1]) + [EditBytes(ws[|ws| - 1])]
  {
    hide EditBytes;
  }

  lemma ReadAsStep(ns: Names, edits: seq<Edit>, marks: seq<Option<Marks>>, r: EditCoding.Edit)
    requires edits != [] && |edits| == |marks| && Marked(r, marks[|edits| - 1])
    requires EditFrom(ns, r) == BareEdit(edits[|edits| - 1])
    ensures var n := |edits| - 1;
            ReadAs(edits, LastMarks(marks)) == Absorbed(ns, ReadAs(edits[..n], LastMarks(marks[..n])), r)
  {
    hide BareEdit, EditFrom;
    var n := |edits| - 1;
    assert BareEdits(edits) == BareEdits(edits[..n]) + [BareEdit(edits[n])];
  }

  /** Reading the records back gives the edits, without what their files hold, and the last counters. */
  lemma {:induction false} ManifestBack(ns: Names, ws: seq<Written>, edits: seq<Edit>, marks: seq<Option<Marks>>)
    requires NamesOk(ns) && AllDescribed(ns, ws, edits, marks)
    ensures ManifestIn(ns, ManifestBytes(ws)) == Some(ReadAs(edits, LastMarks(marks)))
  {
    if ws != [] {
      var n := |ws| - 1;
      assert WrittenOk(ws[n]) && Describes(ns, ws[n].edit, edits[n], marks[n]);
      assert AllDescribed(ns, ws[..n], edits[..n], marks[..n]);
      hide *;
      ManifestBack(ns, ws[..n], edits[..n], marks[..n]);
      ManifestSplit(ws);
      OneMoreEdit(ns, ManifestBytes(ws[..n]), EditBytes(ws[n]));
      RecordAbsorbed(ns, ReadAs(edits[..n], LastMarks(marks[..n])), ws[n], edits[n], marks[n]);
      ReadAsStep(ns, edits, marks, ws[n].edit);
    } else {
      assert ManifestBytes(ws) == [] && BareEdits(edits) == [];
    }
  }

  /** What VersionSet::Recover makes of a manifest file: nothing if a corruption is reported, a record cannot be
      used, or a counter is missing. */
  ghost function ManifestFile(ns: Names, crc: seq<Byte> -> Word, file: seq<Byte>): Option<(seq<Edit>, Marks)> {
    var c := ContentsAt(Source(crc, file), 0);
    var m := ManifestIn(ns, c.records);
    if c.reports == 0 && m.Some? && m.value.nextFile.Some? && m.value.logNumber.Some? && m.value.lastSeq.Some? then
      Some((m.value.edits, Marks(m.value.logNumber.value, m.value.nextFile.value, m.value.lastSeq.value)))
    else None
  }

  method RecoverManifest(ns: Names, crc: seq<Byte> -> Word, file: seq<Byte>)
    returns (r: Option<(seq<Edit>, Marks)>)
    ensures r == ManifestFile(ns, crc, file)
  {
    hide ContentsAt, ManifestIn;
    var reps, reports := ReadAll(crc, file);
    var m := ReadManifest(ns, reps);
    if reports > 0 || m.None? || m.value.nextFile.None? || m.value.logNumber.None? || m.value.lastSeq.None? {
      return None;
    }
    r := Some((m.value.edits, Marks(m.value.logNumber.value, m.value.nextFile.value, m.value.lastSeq.value)));
  }

  /** A manifest that was cut off anywhere gives the edits that are there in full and the last counters. */
  lemma ManifestFileBack(ns: Names, crc: seq<Byte> -> Word, file: seq<Byte>, ws: seq<Written>, edits: seq<Edit>,
                         marks: seq<Option<Marks>>)
    requires NamesOk(ns) && AllDescribed(ns, ws, edits, marks) && LastMarks(marks).Some?
    requires InFull(crc, file, ManifestBytes(ws))
    ensures ManifestFile(ns, crc, file) == Some((BareEdits(edits), LastMarks(marks).value))
  {
    hide NamesOk, AllDescribed, ManifestBytes, ManifestIn, InFull, ContentsAt, LastMarks, BareEdits;
    HeldReadsBack(crc, file, ManifestBytes(ws));
    ManifestBack(ns, ws, edits, marks);
  }

  /** LogAndApply: the edit's record goes to the end of the manifest. */
  method LogEdit(crc: seq<Byte> -> Word, file: seq<Byte>, w: Written, ghost before: seq<Written>)
    returns (file2: seq<Byte>)
    requires file == Log(crc, ManifestBytes(before))
    ensures file2 == Log(crc, ManifestBytes(before + [w]))
  {
    var rep := EditCoding.EncodeTo(w.edit, w.order);
    OneMoreWritten(before, w);
    file2 := WriteSession(crc, file, [rep], ManifestBytes(before));
  }
}
