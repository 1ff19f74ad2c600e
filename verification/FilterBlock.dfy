/** Filter blocks: one filter for every 2KB of file offset, made from the keys of the blocks that start
    there, and an array of offsets by which a reader finds the filter of a block. */
module FilterBlocks {
  import opened Keys
  import opened Bytes
  import opened Coding
  import opened Blocks
  import opened BlockIters
  import opened Comparators
  import opened Blooms

  const FILTER_BASE_LG: Byte := 11
  const FILTER_BASE: nat := 2048

  function UserKeys(keys: seq<seq<Byte>>): (r: seq<seq<Byte>>)
    ensures |r| == |keys| && forall i :: 0 <= i < |keys| ==> r[i] == ExtractUserKey(keys[i])
  {
    seq(|keys|, i requires 0 <= i < |keys| => ExtractUserKey(keys[i]))
  }

  /** The bytes of the filter for a group of keys: none for no keys. */
  ghost predicate GroupFilter(hash: Hash, k: nat, group: seq<seq<Byte>>, f: seq<Byte>) {
    if group == [] then f == [] else FilterIs(hash, UserKeys(group), k, f)
  }

  /** Groups without keys. */
  ghost function Empties(n: nat): seq<seq<seq<Byte>>> {
    if n == 0 then [] else Empties(n - 1) + [[]]
  }

  lemma OneMoreEmpty(n: nat)
    ensures Empties(n + 1) == Empties(n) + [[]]
  {
  }

  /** Where filter `i` starts, given all filters. */
  ghost function Start(filters: seq<seq<Byte>>, i: nat): nat
    requires i <= |filters|
  {
    |Concat(filters[..i])|
  }

  ghost function Concat(filters: seq<seq<Byte>>): seq<Byte> {
    if filters == [] then [] else Concat(filters[..|filters| - 1]) + filters[|filters| - 1]
  }

  ghost function Starts(filters: seq<seq<Byte>>): (r: seq<nat>)
    ensures |r| == |filters|
  {
    if filters == [] then [] else Starts(filters[..|filters| - 1]) + [Start(filters, |filters| - 1)]
  }

  lemma {:induction false} StartsAt(filters: seq<seq<Byte>>, i: nat)
    requires i < |filters|
    ensures Starts(filters)[i] == Start(filters, i)
    decreases |filters|
  {
    var n := |filters| - 1;
    if i < n {
      StartsAt(filters[..n], i);
      assert filters[..n][..i] == filters[..i];
    }
  }

  ghost predicate GroupsOk(hash: Hash, k: nat, groups: seq<seq<seq<Byte>>>, filters: seq<seq<Byte>>) {
    |groups| == |filters| && forall i :: 0 <= i < |groups| ==> GroupFilter(hash, k, groups[i], filters[i])
  }

  /** The finished filter block. */
  ghost function FilterBytes(filters: seq<seq<Byte>>): seq<Byte> {
    Concat(filters) + Words(Starts(filters)) + Fixed32(|Concat(filters)| % 0x1_0000_0000) + [FILTER_BASE_LG]
  }

  ghost predicate FilterBlockIs(hash: Hash, k: nat, groups: seq<seq<seq<Byte>>>, contents: seq<Byte>) {
    exists filters :: GroupsOk(hash, k, groups, filters) && contents == FilterBytes(filters)
  }

  class FilterBlockBuilder {
    const policy: BloomPolicy
    var keys: seq<Byte>
    var start: seq<nat>
    var result: seq<Byte>
    var filterOffsets: seq<nat>
    ghost var groups: seq<seq<seq<Byte>>>
    ghost var filters: seq<seq<Byte>>
    ghost var pending: seq<seq<Byte>>

    ghost predicate Valid()
      reads this
    {
      && 0 < policy.k <= 30
      && GroupsOk(policy.hash, policy.k, groups, filters)
      && result == Concat(filters) && filterOffsets == Starts(filters)
      && Flattened(pending, keys, start)
      && |start| == |pending| && |filterOffsets| == |groups| == |filters|
    }

    constructor (policy: BloomPolicy)
      requires 0 < policy.k <= 30
      ensures Valid() && groups == [] && pending == [] && this.policy == policy
    {
      this.policy := policy;
      keys, start, result, filterOffsets := [], [], [], [];
      groups, filters, pending := [], [], [];
    }

    /** Closes the filters of the regions before this offset. */
    method StartBlock(blockOffset: nat)
      requires Valid() && blockOffset / FILTER_BASE >= |groups|
      modifies this
      ensures Valid() && |groups| == blockOffset / FILTER_BASE
      ensures groups == if |groups| == |old(groups)| then old(groups)
                        else old(groups) + [old(pending)] + Empties(|groups| - |old(groups)| - 1)
      ensures pending == if |groups| == |old(groups)| then old(pending) else []
    {
      hide Flattened, GroupsOk, Concat, Starts;
      var filterIndex := blockOffset / FILTER_BASE;
      while filterIndex > |filterOffsets|
        invariant Valid() && |groups| == |filterOffsets| <= filterIndex && |groups| >= |old(groups)|
        invariant |groups| == |old(groups)| ==> groups == old(groups) && pending == old(pending)
        invariant |groups| > |old(groups)| ==> pending == []
        invariant |groups| > |old(groups)| ==>
                    groups == old(groups) + [old(pending)] + Empties(|groups| - |old(groups)| - 1)
      {
        ghost var was := groups;
        GenerateFilter();
        if |was| > |old(groups)| {
          OneMoreEmpty(|was| - |old(groups)| - 1);
          assert groups == old(groups) + [old(pending)] + (Empties(|was| - |old(groups)| - 1) + [[]]);
        }
      }
    }

    method AddKey(key: seq<Byte>)
      requires Valid()
      modifies this`keys, this`start, this`pending
      ensures Valid() && pending == old(pending) + [key]
    {
      start := start + [|keys|];
      keys := keys + key;
      pending := pending + [key];
      Flattens(old(pending), old(keys), old(start), key);
    }

    method GenerateFilter()
      requires Valid()
      modifies this
      ensures Valid() && groups == old(groups) + [old(pending)] && pending == []
    {
      hide Flattened, GroupsOk, FilterIs, Concat, Starts;
      var numKeys := |start|;
      if numKeys == 0 {
        filterOffsets := filterOffsets + [|result|];
        OneMoreFilter(policy.hash, policy.k, groups, filters, [], []);
        groups, filters := groups + [[]], filters + [[]];
        return;
      }
      var ends := start + [|keys|];
      var tmpKeys: seq<seq<Byte>> := [];
      var i := 0;
      while i < numKeys
        invariant i <= numKeys && unchanged(this) && tmpKeys == UserKeys(pending[..i])
      {
        FlatAt(pending, keys, start, i);
        tmpKeys := tmpKeys + [ExtractUserKey(keys[ends[i]..ends[i + 1]])];
        assert pending[..i + 1] == pending[..i] + [pending[i]];
        i := i + 1;
      }
      assert pending[..i] == pending;
      filterOffsets := filterOffsets + [|result|];
      ghost var f;
      result, f := policy.CreateFilter(tmpKeys, result);
      OneMoreFilter(policy.hash, policy.k, groups, filters, pending, f);
      groups, filters := groups + [pending], filters + [f];
      keys, start, pending := [], [], [];
      FlatNone();
    }

    method Finish() returns (contents: seq<Byte>)
      requires Valid()
      modifies this
      ensures FilterBlockIs(policy.hash, policy.k, groups, contents)
      ensures groups == if old(pending) == [] then old(groups) else old(groups) + [old(pending)]
    {
      hide Flattened, GroupsOk, FilterIs, Concat, Starts;
      if start != [] {
        GenerateFilter();
      }
      var arrayOffset := |result|;
      ghost var base, made, all := result, groups, filters;
      var i := 0;
      while i < |filterOffsets|
        invariant i <= |filterOffsets| && result == base + Words(filterOffsets[..i])
        invariant groups == made && filters == all && filterOffsets == Starts(all)
      {
        assert filterOffsets[..i + 1][..i] == filterOffsets[..i];
        Join(base, Words(filterOffsets[..i]), Fixed32(filterOffsets[i] % 0x1_0000_0000));
        result := result + Fixed32(filterOffsets[i] % 0x1_0000_0000);
        i := i + 1;
      }
      assert filterOffsets[..i] == filterOffsets;
      result := result + Fixed32(arrayOffset % 0x1_0000_0000);
      result := result + [FILTER_BASE_LG];
      contents := result;
      assert contents == FilterBytes(filters);
    }
  }

  /** The flattened keys and where each starts. */
  ghost predicate Flattened(pending: seq<seq<Byte>>, keys: seq<Byte>, start: seq<nat>) {
    keys == Concat(pending) && start == Starts(pending)
  }

  lemma Flattens(pending: seq<seq<Byte>>, keys: seq<Byte>, start: seq<nat>, key: seq<Byte>)
    requires Flattened(pending, keys, start)
    ensures Flattened(pending + [key], keys + key, start + [|keys|])
  {
    assert (pending + [key])[..|pending|] == pending;
  }

  lemma FlatNone()
    ensures Flattened([], [], [])
  {
  }

  lemma FlatAt(pending: seq<seq<Byte>>, keys: seq<Byte>, start: seq<nat>, i: nat)
    requires Flattened(pending, keys, start) && i < |pending|
    ensures |start| == |pending|
    ensures var ends := start + [|keys|]; ends[i] <= ends[i + 1] <= |keys| && keys[ends[i]..ends[i + 1]] == pending[i]
  {
    hide Concat, Starts;
    StartsAt(pending, i);
    var rest := ConcatSplit(pending, i);
    StartStep(pending, i);
    assert pending[..|pending|] == pending;
    if i + 1 < |pending| {
      StartsAt(pending, i + 1);
    }
  }

  lemma StartStep(filters: seq<seq<Byte>>, i: nat)
    requires i < |filters|
    ensures Start(filters, i + 1) == Start(filters, i) + |filters[i]|
  {
    assert filters[..i + 1][..i] == filters[..i];
  }

  lemma {:induction false} ConcatSplit(filters: seq<seq<Byte>>, i: nat) returns (rest: seq<Byte>)
    requires i < |filters|
    ensures Concat(filters) == Concat(filters[..i]) + (filters[i] + rest)
    decreases |filters|
  {
    var n := |filters| - 1;
    if i == n {
      rest := [];
      assert filters[i] + [] == filters[i];
    } else {
      var r := ConcatSplit(filters[..n], i);
      assert filters[..n][..i] == filters[..i];
      rest := r + filters[n];
      Group(Concat(filters[..i]), filters[i], r, filters[n]);
    }
  }

  lemma OneMoreFilter(hash: Hash, k: nat, groups: seq<seq<seq<Byte>>>,
                      filters: seq<seq<Byte>>, group: seq<seq<Byte>>, f: seq<Byte>)
    requires GroupsOk(hash, k, groups, filters) && GroupFilter(hash, k, group, f)
    ensures GroupsOk(hash, k, groups + [group], filters + [f])
    ensures Concat(filters + [f]) == Concat(filters) + f
    ensures Starts(filters + [f]) == Starts(filters) + [|Concat(filters)|]
  {
    hide GroupFilter;
    assert (filters + [f])[..|filters|] == filters;
  }

  // ---------------------------------------------------------------- reading

  /** What the reader finds: the offsets of the filters, one past the last being where the offsets start. */
  ghost predicate OffsetsRead(contents: seq<Byte>, filters: seq<seq<Byte>>) {
    var n, base := |contents|, |Concat(filters)|;
    && n == base + 4 * |filters| + 5 && DecodeFixed32(contents[n - 5..]) == base && contents[n - 1] == FILTER_BASE_LG
    && (forall i :: 0 <= i <= |filters| ==> DecodeFixed32(contents[base + 4 * i..]) == Start(filters, i) <= base)
    && (forall i :: 0 <= i < |filters| ==> SpanOk(contents, filters, i))
  }

  ghost predicate SpanOk(contents: seq<Byte>, filters: seq<seq<Byte>>, i: nat)
    requires i < |filters|
  {
    var a, b := Start(filters, i), Start(filters, i + 1);
    a <= b <= |contents| && contents[a..b] == filters[i]
  }

  lemma StartBelow(filters: seq<seq<Byte>>, i: nat)
    requires i < |filters|
    ensures Start(filters, i) <= Start(filters, i + 1) <= |Concat(filters)|
  {
    hide Concat;
    StartStep(filters, i);
    var rest := ConcatSplit(filters, i);
  }

  lemma StartLast(filters: seq<seq<Byte>>)
    ensures Start(filters, |filters|) == |Concat(filters)|
  {
    assert filters[..|filters|] == filters;
  }

  lemma FilterAt(filters: seq<seq<Byte>>, i: nat, tail: seq<Byte>)
    requires i < |filters|
    ensures SpanOk(Concat(filters) + tail, filters, i)
  {
    hide Concat;
    StartBelow(filters, i);
    StartStep(filters, i);
    var rest := ConcatSplit(filters, i);
    Inside(Concat(filters[..i]), filters[i], rest, tail);
  }

  lemma Inside(a: seq<Byte>, b: seq<Byte>, c: seq<Byte>, d: seq<Byte>)
    ensures (a + (b + c) + d)[|a|..|a| + |b|] == b
  {
  }

  lemma FilterTrailer(filters: seq<seq<Byte>>)
    requires |FilterBytes(filters)| < 0x1_0000_0000
    ensures OffsetsRead(FilterBytes(filters), filters)
  {
    hide Concat, Starts, DecodeFixed32, FilterBytes, Start, SpanOk;
    LengthWord(filters);
    StartLast(filters);
    forall i | 0 <= i <= |filters|
      ensures DecodeFixed32(FilterBytes(filters)[|Concat(filters)| + 4 * i..]) == Start(filters, i) <= |Concat(filters)|
    {
      if i < |filters| {
        SlotWord(filters, i);
      }
    }
    forall i | 0 <= i < |filters| ensures SpanOk(FilterBytes(filters), filters, i) {
      SlotSpan(filters, i);
    }
  }

  lemma LengthWord(filters: seq<seq<Byte>>)
    requires |FilterBytes(filters)| < 0x1_0000_0000
    ensures var contents, base := FilterBytes(filters), |Concat(filters)|; var at := base + 4 * |filters|;
            && |contents| == at + 5 && DecodeFixed32(contents[at..]) == base && contents[at + 4] == FILTER_BASE_LG
  {
    hide Concat, Starts, Words, DecodeFixed32, Fixed32;
    var a, w: seq<Byte> := Concat(filters), Words(Starts(filters));
    assert |w| == 4 * |filters| && FilterBytes(filters) == a + w + Fixed32(|a| % 0x1_0000_0000) + [FILTER_BASE_LG];
    hide FilterBytes;
    TrailerCut(a, w, |a| % 0x1_0000_0000, FILTER_BASE_LG);
    Small(|a|);
  }

  lemma Small(n: nat)
    ensures n < 0x1_0000_0000 ==> n % 0x1_0000_0000 == n
  {
  }


  lemma TrailerCut(a: seq<Byte>, w: seq<Byte>, b: Word, last: Byte)
    ensures var c := a + w + Fixed32(b) + [last];
            |c| == |a| + |w| + 5 && DecodeFixed32(c[|a| + |w|..]) == b && c[|a| + |w| + 4] == last
  {
    hide DecodeFixed32, Fixed32;
    Tails(a, w, Fixed32(b), [last]);
    DecodeCut(a + w + Fixed32(b) + [last], |a| + |w|, b);
  }

  lemma SlotSpan(filters: seq<seq<Byte>>, i: nat)
    requires i < |filters|
    ensures SpanOk(FilterBytes(filters), filters, i)
  {
    hide Concat, Starts, Words, Fixed32, Start, SpanOk;
    var words, len := Words(Starts(filters)), Fixed32(|Concat(filters)| % 0x1_0000_0000);
    FilterAt(filters, i, words + (len + [FILTER_BASE_LG]));
    assert Concat(filters) + (words + (len + [FILTER_BASE_LG])) == FilterBytes(filters);
  }

  lemma SlotWord(filters: seq<seq<Byte>>, i: nat)
    requires |FilterBytes(filters)| < 0x1_0000_0000 && i < |filters|
    ensures DecodeFixed32(FilterBytes(filters)[|Concat(filters)| + 4 * i..]) == Start(filters, i) <= |Concat(filters)|
  {
    hide Concat, Starts, Words, DecodeFixed32, Fixed32, Start;
    var words, len := Words(Starts(filters)), Fixed32(|Concat(filters)| % 0x1_0000_0000);
    Tails(Concat(filters), words, len, [FILTER_BASE_LG]);
    StartsAt(filters, i);
    StartBelow(filters, i);
    WordAt(Starts(filters), i);
    PointCut(Concat(filters), words, len + [FILTER_BASE_LG], 4 * i, Start(filters, i) % 0x1_0000_0000);
  }

  lemma Tails(a: seq<Byte>, w: seq<Byte>, len: seq<Byte>, last: seq<Byte>)
    requires |len| == 4 && |last| == 1
    ensures var c := a + w + len + last;
            && c == a + w + (len + last) && c[|a| + |w|..|a| + |w| + 4] == len && c[|c| - 1] == last[0]
  {
  }

  class FilterBlockReader {
    const policy: BloomPolicy
    const contents: seq<Byte>
    const usable: bool
    const offsets: nat
    const num: nat
    const baseLg: nat

    ghost predicate Parsed() {
      && 0 < policy.k <= 30
      && (usable <==> |contents| >= 5 && DecodeFixed32(contents[|contents| - 5..]) <= |contents| - 5)
      && (usable ==>
            && offsets == DecodeFixed32(contents[|contents| - 5..]) && num == (|contents| - 5 - offsets) / 4
            && baseLg == contents[|contents| - 1])
      && (!usable ==> num == 0)
    }

    constructor (policy: BloomPolicy, contents: seq<Byte>)
      requires 0 < policy.k <= 30
      ensures this.policy == policy && this.contents == contents && Parsed()
    {
      this.policy, this.contents := policy, contents;
      var n := |contents|;
      usable, offsets, num, baseLg := false, 0, 0, 0;
      if n >= 5 {
        var lastWord: nat := DecodeFixed32(contents[n - 5..]);
        if lastWord <= n - 5 {
          usable, offsets, num, baseLg := true, lastWord, (n - 5 - lastWord) / 4, contents[n - 1];
        }
      }
    }

    /** The region of a block: its offset, shifted. */
    function Region(blockOffset: nat): nat {
      ShiftRight(blockOffset, baseLg)
    }

    /** Errors are treated as potential matches. */
    method KeyMayMatch(blockOffset: nat, key: seq<Byte>, ghost groups: seq<seq<seq<Byte>>>) returns (r: bool)
      requires Parsed()
      ensures Holds(groups) ==> Verdict(groups, blockOffset / FILTER_BASE, key, r)
      ensures !r ==> Refuted(Region(blockOffset), key)
    {
      hide DecodeFixed32, OffsetsRead, May, GroupsOk, Holds, Verdict, Parsed;
      ghost var filters := FiltersOf(groups);
      var index := Region(blockOffset);
      NumIs(groups, filters);
      BaseIs(blockOffset);
      if index < num {
        SlotIn(index);
        var start: nat := DecodeFixed32(contents[offsets + 4 * index..]);
        var limit: nat := DecodeFixed32(contents[offsets + 4 * index + 4..]);
        SlotIs(groups, filters, index);
        if start <= limit && limit <= offsets {
          r := policy.KeyMayMatch(ExtractUserKey(key), contents[start..limit]);
          SlotSays(groups, filters, index, contents[start..limit], key, r);
          return;
        } else if start == limit {
          return false;
        }
      }
      r := true;
      OutOfRange(groups, filters, index, key);
    }

    /** The only grounds for a no, whatever the bytes: the region's filter lies inside the block and rejects the
        key, or it is empty. */
    ghost predicate Refuted(i: nat, key: seq<Byte>) {
      i < num && offsets + 4 * i + 8 <= |contents|
      && var start: nat := DecodeFixed32(contents[offsets + 4 * i..]);
      var limit: nat := DecodeFixed32(contents[offsets + 4 * i + 4..]);
      start == limit || (start <= limit <= offsets <= |contents|
                         && !May(policy.hash, contents[start..limit], ExtractUserKey(key)))
    }

    /** What the answer may be: yes for a region without a filter, no for a region without keys, and yes for
        every user key that was added. */
    ghost predicate Verdict(groups: seq<seq<seq<Byte>>>, i: nat, key: seq<Byte>, r: bool) {
      if i >= |groups| then r
      else (groups[i] == [] ==> !r) && (ExtractUserKey(key) in UserKeys(groups[i]) ==> r)
    }

    lemma SlotIn(index: nat)
      requires Parsed() && index < num
      ensures offsets + 4 * index + 8 <= |contents| && offsets <= |contents|
    {
      hide DecodeFixed32;
    }

    lemma NumIs(groups: seq<seq<seq<Byte>>>, filters: seq<seq<Byte>>)
      requires Parsed()
      ensures Holds(groups) && OkWith(groups, filters) ==> num == |groups| && baseLg == FILTER_BASE_LG as int
    {
      hide DecodeFixed32, OffsetsRead, Holds, Parsed;
      if Holds(groups) && OkWith(groups, filters) {
        ShapeIs(filters);
        assert |groups| == |filters|;
      }
    }

    lemma SlotIs(groups: seq<seq<seq<Byte>>>, filters: seq<seq<Byte>>, i: nat)
      requires Parsed() && i < num && offsets + 4 * i + 8 <= |contents|
      ensures Holds(groups) && OkWith(groups, filters) ==>
                var start := DecodeFixed32(contents[offsets + 4 * i..]);
                var limit := DecodeFixed32(contents[offsets + 4 * i + 4..]);
                i < |filters| && start <= limit <= offsets <= |contents| && contents[start..limit] == filters[i]
    {
      hide DecodeFixed32, OffsetsRead, Holds, Parsed, GroupsOk;
      if Holds(groups) && OkWith(groups, filters) {
        ShapeIs(filters);
        SpanIs(filters, i);
      }
    }

    lemma SlotSays(groups: seq<seq<seq<Byte>>>, filters: seq<seq<Byte>>, i: nat, f: seq<Byte>, key: seq<Byte>, r: bool)
      requires r == May(policy.hash, f, ExtractUserKey(key))
      ensures Holds(groups) && OkWith(groups, filters) && i < |filters| && f == filters[i] ==>
                Verdict(groups, i, key, r)
    {
      hide Holds, May;
      if OkWith(groups, filters) && i < |filters| && f == filters[i] {
        GroupSays(groups[i], f, key);
      }
    }

    lemma OutOfRange(groups: seq<seq<seq<Byte>>>, filters: seq<seq<Byte>>, i: nat, key: seq<Byte>)
      ensures i >= |groups| ==> Verdict(groups, i, key, true)
    {
    }

    /** The block holds the filters of these groups. */
    ghost predicate Holds(groups: seq<seq<seq<Byte>>>) {
      FilterBlockIs(policy.hash, policy.k, groups, contents) && |contents| < 0x1_0000_0000
    }

    ghost predicate OkWith(groups: seq<seq<seq<Byte>>>, filters: seq<seq<Byte>>) {
      GroupsOk(policy.hash, policy.k, groups, filters)
          && contents == FilterBytes(filters) && OffsetsRead(contents, filters)
    }

    lemma FiltersOf(groups: seq<seq<seq<Byte>>>) returns (filters: seq<seq<Byte>>)
      ensures Holds(groups) ==> OkWith(groups, filters)
    {
      hide GroupsOk, FilterBytes, OffsetsRead;
      filters := [];
      if Holds(groups) {
        filters :| GroupsOk(policy.hash, policy.k, groups, filters) && contents == FilterBytes(filters);
        FilterTrailer(filters);
      }
    }

    lemma ShapeIs(filters: seq<seq<Byte>>)
      requires Parsed() && OffsetsRead(contents, filters)
      ensures usable && num == |filters| && offsets == |Concat(filters)| && baseLg == FILTER_BASE_LG as int
    {
      hide Concat, DecodeFixed32;
    }

    lemma SpanIs(filters: seq<seq<Byte>>, i: nat)
      requires Parsed() && OffsetsRead(contents, filters) && i < |filters|
      ensures var start := DecodeFixed32(contents[offsets + 4 * i..]);
              var limit := DecodeFixed32(contents[offsets + 4 * i + 4..]);
              offsets == |Concat(filters)| && start <= limit <= offsets && contents[start..limit] == filters[i]
    {
      ShapeIs(filters);
      StartBelow(filters, i);
      hide Concat, DecodeFixed32, Start;
      assert SpanOk(contents, filters, i);
      assert offsets + 4 * i + 4 == offsets + 4 * (i + 1);
    }

    lemma GroupSays(group: seq<seq<Byte>>, f: seq<Byte>, key: seq<Byte>)
      requires GroupFilter(policy.hash, policy.k, group, f)
      ensures group == [] ==> !May(policy.hash, f, ExtractUserKey(key))
      ensures ExtractUserKey(key) in UserKeys(group) ==> May(policy.hash, f, ExtractUserKey(key))
    {
      if ExtractUserKey(key) in UserKeys(group) {
        assert group != [];
        NeverRejects(policy.hash, UserKeys(group), policy.k, f, ExtractUserKey(key));
      }
    }
  }

  function ShiftRight(n: nat, bits: nat): nat
    decreases bits
  {
    if bits == 0 then n else ShiftRight(n / 2, bits - 1)
  }

  /** Shifting by eleven bits divides by two kilobytes. */
  lemma BaseIs(n: nat)
    ensures ShiftRight(n, FILTER_BASE_LG) == n / FILTER_BASE
  {
    var a: nat := n / 2 / 2 / 2 / 2;
    var b: nat := a / 2 / 2 / 2 / 2;
    Four(n, 7);
    Four(a, 3);
    assert ShiftRight(b, 3) == b / 2 / 2 / 2;
    assert a == n / 16 && b == a / 16 && b / 2 / 2 / 2 == b / 8;
  }

  lemma Four(n: nat, bits: nat)
    ensures ShiftRight(n, bits + 4) == ShiftRight(n / 2 / 2 / 2 / 2, bits)
  {
    assert ShiftRight(n, bits + 4) == ShiftRight(n / 2, bits + 3) == ShiftRight(n / 2 / 2, bits + 2);
    assert ShiftRight(n / 2 / 2, bits + 2) == ShiftRight(n / 2 / 2 / 2, bits + 1);
  }
}
