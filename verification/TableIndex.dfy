/** Finding the block of a key in a table. */
module TableIndexes {
  import opened Keys
  import opened Bytes
  import opened Blocks
  import opened BlockIters
  import opened Comparators

  /** The pairs of a table, block after block. */
  ghost function Contents(parts: seq<seq<KV>>): seq<KV> {
    if parts == [] then [] else Contents(parts[..|parts| - 1]) + parts[|parts| - 1]
  }

  /** Where block `i` starts among all pairs. */
  ghost function Base(parts: seq<seq<KV>>, i: nat): nat
    requires i <= |parts|
  {
    |Contents(parts[..i])|
  }

  lemma BaseStep(parts: seq<seq<KV>>, i: nat)
    requires i < |parts|
    ensures Base(parts, i + 1) == Base(parts, i) + |parts[i]|
  {
    assert parts[..i + 1][..i] == parts[..i];
  }

  lemma BaseEnd(parts: seq<seq<KV>>)
    ensures Base(parts, |parts|) == |Contents(parts)|
  {
    assert parts[..|parts|] == parts;
  }

  lemma {:induction false} PartAt(parts: seq<seq<KV>>, i: nat)
    requires i < |parts|
    ensures Base(parts, i + 1) == Base(parts, i) + |parts[i]| <= |Contents(parts)|
    ensures Contents(parts)[Base(parts, i)..Base(parts, i + 1)] == parts[i]
    decreases |parts|
  {
    var n := |parts| - 1;
    BaseStep(parts, i);
    if i == n {
      BaseEnd(parts);
    } else {
      PartAt(parts[..n], i);
      assert parts[..n][..i] == parts[..i] && parts[..n][..i + 1] == parts[..i + 1];
    }
  }

  lemma EntryOf(parts: seq<seq<KV>>, i: nat, j: nat)
    requires i < |parts| && j < |parts[i]|
    ensures Base(parts, i) + j < |Contents(parts)| && Contents(parts)[Base(parts, i) + j] == parts[i][j]
  {
    hide Contents;
    PartAt(parts, i);
    assert Contents(parts)[Base(parts, i)..Base(parts, i + 1)][j] == parts[i][j];
  }

  function LastKey(part: seq<KV>): seq<Byte> {
    if part == [] then [] else part[|part| - 1].key
  }

  function FirstKey(part: seq<KV>): seq<Byte> {
    if part == [] then [] else part[0].key
  }

  /** An index key: at or after its block's last key, and before the next block unless it is that last key. */
  ghost predicate SepOk(parts: seq<seq<KV>>, i: nat, sep: seq<Byte>)
    requires i < |parts|
  {
    && |sep| >= 8
    && (sep == LastKey(parts[i])
        || (BytesLess(ExtractUserKey(LastKey(parts[i])), ExtractUserKey(sep))
            && (i + 1 < |parts| ==> BytesLess(ExtractUserKey(sep), ExtractUserKey(FirstKey(parts[i + 1]))))))
  }

  ghost predicate IndexOk(parts: seq<seq<KV>>, seps: seq<KV>) {
    |seps| <= |parts| && forall i :: 0 <= i < |seps| ==> SepOk(parts, i, seps[i].key)
  }

  ghost predicate KeysOk(kvs: seq<KV>) {
    SortedBy(kvs, InternalLess) && forall i :: 0 <= i < |kvs| ==> |kvs[i].key| >= 8
  }

  ghost predicate NoneEmpty(parts: seq<seq<KV>>) {
    forall i :: 0 <= i < |parts| ==> parts[i] != []
  }

  /** A table's blocks and its index. */
  ghost predicate TableOk(parts: seq<seq<KV>>, seps: seq<KV>) {
    NoneEmpty(parts) && KeysOk(Contents(parts)) && IndexOk(parts, seps) && |seps| == |parts|
  }

  lemma PartSorted(parts: seq<seq<KV>>, i: nat)
    requires KeysOk(Contents(parts)) && i < |parts|
    ensures KeysOk(parts[i])
  {
    hide Contents, InternalLess;
    forall j | 0 <= j < |parts[i]| ensures |parts[i][j].key| >= 8 {
      EntryOf(parts, i, j);
    }
    forall j, k | 0 <= j < k < |parts[i]| ensures InternalLess(parts[i][j].key, parts[i][k].key) {
      EntryOf(parts, i, j);
      EntryOf(parts, i, k);
    }
  }

  /** What comes after an index key comes after its block's last key. */
  lemma AfterSep(parts: seq<seq<KV>>, i: nat, sep: seq<Byte>, k: seq<Byte>)
    requires i < |parts| && SepOk(parts, i, sep) && InternalLess(sep, k)
    ensures InternalLess(LastKey(parts[i]), k)
  {
    hide BytesLess, ExtractUserKey, ExtractTag, LastKey, FirstKey;
    if sep != LastKey(parts[i]) && BytesLess(ExtractUserKey(sep), ExtractUserKey(k)) {
      BytesTransitive(ExtractUserKey(LastKey(parts[i])), ExtractUserKey(sep), ExtractUserKey(k));
    }
  }

  /** Everything up to the last key of a block comes before what the last key comes before. */
  lemma BelowLast(parts: seq<seq<KV>>, i: nat, k: seq<Byte>)
    requires i < |parts| && parts[i] != [] && KeysOk(Contents(parts)) && InternalLess(LastKey(parts[i]), k)
    ensures Base(parts, i + 1) <= |Contents(parts)|
    ensures forall g :: 0 <= g < Base(parts, i + 1) ==> InternalLess(Contents(parts)[g].key, k)
  {
    hide Contents, InternalLess, Transitive;
    EntryOf(parts, i, |parts[i]| - 1);
    BaseStep(parts, i);
    InternalTransitive();
    BelowBelow(Contents(parts), InternalLess, k, Base(parts, i + 1) - 1);
  }

  /** The index is sorted. */
  lemma IndexSorted(parts: seq<seq<KV>>, seps: seq<KV>)
    requires TableOk(parts, seps)
    ensures Ordered(seps, InternalLess)
  {
    hide Contents, InternalLess, SepOk, Transitive, SortedBy;
    InternalTransitive();
    forall i, j | 0 <= i < j < |seps| ensures InternalLess(seps[i].key, seps[j].key) {
      SepsInOrder(parts, seps, i, j);
    }
    SortedFrom(seps);
  }

  lemma SortedFrom(seps: seq<KV>)
    requires forall i, j :: 0 <= i < j < |seps| ==> InternalLess(seps[i].key, seps[j].key)
    ensures SortedBy(seps, InternalLess)
  {
    hide InternalLess;
  }

  /** An index key comes before every later block. */
  lemma SepBefore(parts: seq<seq<KV>>, i: nat, sep: seq<Byte>)
    requires i + 1 < |parts| && NoneEmpty(parts) && KeysOk(Contents(parts)) && SepOk(parts, i, sep)
    ensures InternalLess(sep, FirstKey(parts[i + 1]))
  {
    hide Contents, BytesLess, ExtractUserKey, ExtractTag;
    EntryOf(parts, i, |parts[i]| - 1);
    EntryOf(parts, i + 1, 0);
    BaseStep(parts, i);
    hide InternalLess;
    assert sep == LastKey(parts[i]) ==> InternalLess(sep, FirstKey(parts[i + 1]));
    ByUserKey(sep, FirstKey(parts[i + 1]));
  }

  lemma ByUserKey(a: seq<Byte>, b: seq<Byte>)
    ensures BytesLess(ExtractUserKey(a), ExtractUserKey(b)) ==> InternalLess(a, b)
  {
  }

  lemma SepsInOrder(parts: seq<seq<KV>>, seps: seq<KV>, i: nat, j: nat)
    requires TableOk(parts, seps) && i < j < |seps|
    ensures InternalLess(seps[i].key, seps[j].key)
  {
    hide Contents, InternalLess, SepOk, Transitive, FirstKey, LastKey;
    assert SepOk(parts, i, seps[i].key) && SepOk(parts, j, seps[j].key);
    SepBefore(parts, i, seps[i].key);
    FirstToLast(parts, i + 1, j);
    InternalTransitive();
    SepAfterLast(parts, j, seps[j].key);
    if FirstKey(parts[i + 1]) != LastKey(parts[j]) {
      Chain(InternalLess, seps[i].key, FirstKey(parts[i + 1]), LastKey(parts[j]));
    }
    if LastKey(parts[j]) != seps[j].key {
      Chain(InternalLess, seps[i].key, LastKey(parts[j]), seps[j].key);
    }
  }

  lemma SepAfterLast(parts: seq<seq<KV>>, i: nat, sep: seq<Byte>)
    requires i < |parts| && SepOk(parts, i, sep)
    ensures sep == LastKey(parts[i]) || InternalLess(LastKey(parts[i]), sep)
  {
    ByUserKey(LastKey(parts[i]), sep);
  }

  lemma {:induction false} BaseGrows(parts: seq<seq<KV>>, i: nat, j: nat)
    requires i <= j <= |parts|
    ensures Base(parts, i) <= Base(parts, j)
    decreases j
  {
    hide Contents;
    if i < j {
      BaseStep(parts, j - 1);
      BaseGrows(parts, i, j - 1);
    }
  }

  lemma FirstToLast(parts: seq<seq<KV>>, i: nat, j: nat)
    requires i <= j < |parts| && NoneEmpty(parts) && KeysOk(Contents(parts))
    ensures FirstKey(parts[i]) == LastKey(parts[j]) || InternalLess(FirstKey(parts[i]), LastKey(parts[j]))
  {
    hide Contents, InternalLess;
    EntryOf(parts, i, 0);
    EntryOf(parts, j, |parts[j]| - 1);
    BaseGrows(parts, i, j);
  }

  /** Past every index key there is nothing. */
  lemma PastTheIndex(parts: seq<seq<KV>>, seps: seq<KV>, k: seq<Byte>)
    requires TableOk(parts, seps) && IsFirst(seps, InternalLess, k, |seps|)
    ensures IsFirst(Contents(parts), InternalLess, k, |Contents(parts)|)
  {
    hide Contents, InternalLess, SepOk;
    BaseEnd(parts);
    var n := |parts|;
    if n > 0 {
      assert SepOk(parts, n - 1, seps[n - 1].key);
      AfterSep(parts, n - 1, seps[n - 1].key, k);
      BelowLast(parts, n - 1, k);
    } else {
      NoParts(parts);
    }
  }

  lemma NoParts(parts: seq<seq<KV>>)
    requires parts == []
    ensures Contents(parts) == []
  {
  }

  /** Everything before the block the index names comes before the probe. */
  lemma BeforeTheBlock(parts: seq<seq<KV>>, seps: seq<KV>, k: seq<Byte>, q: nat)
    requires TableOk(parts, seps) && q < |seps| && IsFirst(seps, InternalLess, k, q)
    ensures Base(parts, q) <= |Contents(parts)|
    ensures forall g :: 0 <= g < Base(parts, q) ==> InternalLess(Contents(parts)[g].key, k)
  {
    hide Contents, InternalLess, SepOk;
    if q > 0 {
      assert SepOk(parts, q - 1, seps[q - 1].key);
      AfterSep(parts, q - 1, seps[q - 1].key, k);
      BelowLast(parts, q - 1, k);
    } else {
      NoParts(parts[..0]);
      PartAt(parts, 0);
    }
  }

  /** The first entry at or after the probe, if the block that the index names has one, is that one. */
  lemma InTheBlock(parts: seq<seq<KV>>, seps: seq<KV>, k: seq<Byte>, q: nat, p: nat)
    requires TableOk(parts, seps) && q < |seps| && IsFirst(seps, InternalLess, k, q)
    requires p < |parts[q]| && IsFirst(parts[q], InternalLess, k, p)
    ensures Base(parts, q) + p < |Contents(parts)| && Contents(parts)[Base(parts, q) + p] == parts[q][p]
    ensures IsFirst(Contents(parts), InternalLess, k, Base(parts, q) + p)
  {
    hide Contents, InternalLess, SepOk, IndexOk, NoneEmpty, KeysOk;
    BeforeTheBlock(parts, seps, k, q);
    EntryOf(parts, q, p);
    forall g | Base(parts, q) <= g < Base(parts, q) + p ensures InternalLess(Contents(parts)[g].key, k) {
      EntryOf(parts, q, g - Base(parts, q));
    }
  }

  /** Otherwise the next entry is another user key's. */
  lemma PastTheBlock(parts: seq<seq<KV>>, seps: seq<KV>, k: seq<Byte>, q: nat)
    requires TableOk(parts, seps) && q < |seps| && IsFirst(seps, InternalLess, k, q)
    requires IsFirst(parts[q], InternalLess, k, |parts[q]|)
    ensures var b := Base(parts, q + 1);
            IsFirst(Contents(parts), InternalLess, k, b)
            && (b < |Contents(parts)| ==> ExtractUserKey(Contents(parts)[b].key) != ExtractUserKey(k))
  {
    hide Contents, BytesLess, ExtractUserKey, ExtractTag;
    assert SepOk(parts, q, seps[q].key) && parts[q] != [];
    BelowLast(parts, q, k);
    if q + 1 < |parts| {
      assert parts[q + 1] != [];
      EntryOf(parts, q + 1, 0);
      var sep, next := seps[q].key, FirstKey(parts[q + 1]);
      assert sep != LastKey(parts[q]) && !InternalLess(sep, k);
      BytesTotal(ExtractUserKey(sep), ExtractUserKey(k));
      if BytesLess(ExtractUserKey(k), ExtractUserKey(sep)) {
        BytesTransitive(ExtractUserKey(k), ExtractUserKey(sep), ExtractUserKey(next));
      }
      BytesTotal(ExtractUserKey(k), ExtractUserKey(next));
    } else {
      BaseEnd(parts);
    }
  }
}
