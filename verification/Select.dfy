/** Choosing the inputs of a compaction. */
module Select {
  // Boundary files, the overlapping files of the next level, and the size-guarded expansion.

  import opened Keys
  import opened Versions
  import opened Pick

  // ---------------------------------------------------------------- ranges of file lists

  /** `lo` and `hi` are the smallest and the largest key of the files. */
  ghost predicate RangeOf(files: Level, lo: IKey, hi: IKey) {
    && (exists f :: f in files && f.smallest == lo)
    && (exists f :: f in files && f.largest == hi)
    && (forall f :: f in files ==> !Less(f.smallest, lo) && !Less(hi, f.largest))
  }

  /** VersionSet::GetRange. */
  method GetRange(files: Level) returns (lo: IKey, hi: IKey)
    requires files != []
    ensures RangeOf(files, lo, hi)
  {
    lo, hi := files[0].smallest, files[0].largest;
    var i := 1;
    while i < |files|
      invariant 1 <= i <= |files|
      invariant exists f :: f in files && f.smallest == lo
      invariant exists f :: f in files && f.largest == hi
      invariant forall j :: 0 <= j < i ==> !Less(files[j].smallest, lo) && !Less(hi, files[j].largest)
    {
      var f := files[i];
      assert f in files;
      if Less(f.smallest, lo) {
        lo := f.smallest;
      }
      if Less(hi, f.largest) {
        hi := f.largest;
      }
      i := i + 1;
    }
  }

  // ---------------------------------------------------------------- boundary files

  ghost predicate IsLargest(files: Level, key: IKey) {
    (exists f :: f in files && f.largest == key) && forall f :: f in files ==> !Less(key, f.largest)
  }

  /** `g` starts after `key` with the same user key. */
  predicate IsBoundary(key: IKey, g: File) {
    Less(key, g.smallest) && g.smallest.key == key.key
  }

  ghost predicate SmallestBoundary(files: Level, key: IKey, f: File) {
    && f in files && IsBoundary(key, f)
    && forall g :: g in files && IsBoundary(key, g) ==> !Less(g.smallest, f.smallest)
  }

  ghost predicate BoundaryClosed(files: Level, key: IKey) {
    forall g :: g in files ==> !IsBoundary(key, g)
  }

  method FindLargestKey(files: Level) returns (key: Option<IKey>)
    ensures key.None? <==> files == []
    ensures key.Some? ==> IsLargest(files, key.value)
  {
    if files == [] {
      return None;
    }
    var k := files[0].largest;
    var i := 1;
    while i < |files|
      invariant 1 <= i <= |files|
      invariant exists f :: f in files && f.largest == k
      invariant forall j :: 0 <= j < i ==> !Less(k, files[j].largest)
    {
      assert files[i] in files;
      if Less(k, files[i].largest) {
        k := files[i].largest;
      }
      i := i + 1;
    }
    key := Some(k);
  }

  method FindSmallestBoundaryFile(files: Level, key: IKey) returns (r: Option<File>)
    ensures r.None? ==> BoundaryClosed(files, key)
    ensures r.Some? ==> SmallestBoundary(files, key, r.value)
  {
    r := None;
    var i := 0;
    while i < |files|
      invariant i <= |files|
      invariant r.None? ==> forall j :: 0 <= j < i ==> !IsBoundary(key, files[j])
      invariant r.Some? ==> r.value in files && IsBoundary(key, r.value)
      invariant r.Some? ==> forall j :: 0 <= j < i && IsBoundary(key, files[j]) ==>
                  !Less(files[j].smallest, r.value.smallest)
    {
      var f := files[i];
      if Less(key, f.smallest) && f.smallest.key == key.key {
        if r.None? || Less(f.smallest, r.value.smallest) {
          r := Some(f);
        }
      }
      i := i + 1;
    }
  }

  /** How many files end after `key`. */
  ghost function EndAfter(files: Level, key: IKey): nat {
    if files == [] then 0
    else (if Less(key, files[0].largest) then 1 else 0) + EndAfter(files[1..], key)
  }

  lemma {:induction false} EndAfterShrinks(files: Level, key: IKey, key2: IKey)
    requires Less(key, key2)
    ensures EndAfter(files, key2) <= EndAfter(files, key)
    ensures (exists f :: f in files && f.largest == key2) ==> EndAfter(files, key2) < EndAfter(files, key)
  {
    if files != [] {
      EndAfterShrinks(files[1..], key, key2);
      if f :| f in files && f.largest == key2 {
        assert f == files[0] || f in files[1..];
      }
    }
  }

  ghost function KeyBefore(key: IKey, chain: Level, j: nat): IKey
    requires j <= |chain|
  {
    if j == 0 then key else chain[j - 1].largest
  }

  /** Each file of the chain is the smallest boundary file of the one before. */
  ghost predicate Chain(files: Level, key: IKey, chain: Level) {
    forall j :: 0 <= j < |chain| ==> Link(files, key, chain, j)
  }

  ghost predicate Link(files: Level, key: IKey, chain: Level, j: nat)
    requires j < |chain|
  {
    SmallestBoundary(files, KeyBefore(key, chain, j), chain[j])
  }

  lemma {:induction false} ChainGrows(files: Level, key: IKey, chain: Level, i: nat, j: nat)
    requires Ranged(files) && Chain(files, key, chain) && i < j <= |chain|
    ensures Less(KeyBefore(key, chain, i), KeyBefore(key, chain, j))
    decreases j
  {
    assert Link(files, key, chain, j - 1);
    if i < j - 1 {
      ChainGrows(files, key, chain, i, j - 1);
    }
  }

  ghost predicate NoneTwice(files: Level) {
    forall i, j :: 0 <= i < j < |files| ==> files[i] != files[j]
  }

  /** The chain adds no file twice, and none that is there already. */
  lemma ChainAddsNew(levelFiles: Level, files: Level, key: IKey, chain: Level)
    requires Ranged(levelFiles) && Chain(levelFiles, key, chain)
             && files != [] && IsLargest(files, key) && NoneTwice(files)
    ensures NoneTwice(files + chain)
  {
    var r := files + chain;
    forall i, j | 0 <= i < j < |r| ensures r[i] != r[j] {
      if j >= |files| {
        var k := j - |files| + 1;
        ChainGrows(levelFiles, key, chain, if i < |files| then 0 else i - |files| + 1, k);
        assert i < |files| ==> r[i] in files;
      }
    }
  }

  /** AddBoundaryInputs: extends the inputs until no file of the level starts after their largest key
      with its user key.  The largest key grows at every step, so no file is added twice. */
  method AddBoundaryInputs(levelFiles: Level, files: Level)
    returns (r: Level, ghost key: IKey, ghost chain: Level)
    requires Ranged(levelFiles)
    ensures r == files + chain
    ensures files == [] ==> chain == []
    ensures files != [] ==> && IsLargest(files, key)
                            && Chain(levelFiles, key, chain)
                            && IsLargest(r, KeyBefore(key, chain, |chain|))
                            && BoundaryClosed(levelFiles, KeyBefore(key, chain, |chain|))
    ensures NoneTwice(files) ==> NoneTwice(r)
  {
    r, chain, key := files, [], IKey(0, 0);
    var found := FindLargestKey(files);
    if found.None? {
      return;
    }
    var largest := found.value;
    key := largest;
    while true
      invariant r == files + chain
      invariant Chain(levelFiles, key, chain)
      invariant IsLargest(r, largest) && largest == KeyBefore(key, chain, |chain|)
      decreases EndAfter(levelFiles, largest)
    {
      var boundary := FindSmallestBoundaryFile(levelFiles, largest);
      if boundary.None? {
        if NoneTwice(files) {
          ChainAddsNew(levelFiles, files, key, chain);
        }
        break;
      }
      var f := boundary.value;
      EndAfterShrinks(levelFiles, largest, f.largest);
      forall j | 0 <= j < |chain + [f]|
        ensures Link(levelFiles, key, chain + [f], j)
      {
        if j < |chain| {
          assert Link(levelFiles, key, chain, j);
          assert KeyBefore(key, chain + [f], j) == KeyBefore(key, chain, j);
        }
      }
      assert f in r + [f];
      r, chain, largest := r + [f], chain + [f], f.largest;
    }
  }

  // ---------------------------------------------------------------- closure of the lower inputs

  /** No file of the level continues an input file with the same user key without being an input. */
  ghost predicate BoundaryFull(files: Level, lower: Level) {
    forall f, g :: f in lower && g in files && IsBoundary(f.largest, g) ==> g in lower
  }

  lemma {:induction false} ChainReaches(files: Level, key: IKey, chain: Level, j: nat, g: File)
    requires Ranged(files) && Disjoint(files) && Chain(files, key, chain) && j <= |chain|
    requires BoundaryClosed(files, KeyBefore(key, chain, |chain|))
    requires g in files && IsBoundary(KeyBefore(key, chain, j), g)
    ensures g in chain
    decreases |chain| - j
  {
    if j < |chain| {
      var c := chain[j];
      assert Link(files, key, chain, j);
      if g != c {
        DisjointFiles(files, c, g);
        ChainReaches(files, key, chain, j + 1, g);
      }
    }
  }

  lemma ChainCloses(files: Level, seed: Level, key: IKey, chain: Level)
    requires Ranged(files) && Disjoint(files) && IsLargest(seed, key) && Chain(files, key, chain)
    requires BoundaryClosed(files, KeyBefore(key, chain, |chain|))
    requires forall f, g :: f in seed && g in files && IsBoundary(f.largest, g) ==> f.largest == key || g in seed
    ensures BoundaryFull(files, seed + chain)
  {
    forall f, g | f in seed + chain && g in files && IsBoundary(f.largest, g) ensures g in seed + chain {
      if f in seed {
        if f.largest == key {
          ChainReaches(files, key, chain, 0, g);
        }
      } else {
        var j :| 0 <= j < |chain| && chain[j] == f;
        ChainReaches(files, key, chain, j + 1, g);
      }
    }
  }

  /** All files meeting a range satisfy the premise of ChainCloses. */
  lemma MeetingContinues(files: Level, lo: UserKey, hi: UserKey, key: IKey)
    requires Ranged(files) && Disjoint(files) && lo <= hi
    requires IsLargest(Meeting(files, Some(lo), Some(hi)), key)
    ensures var seed := Meeting(files, Some(lo), Some(hi));
            forall f, g :: f in seed && g in files && IsBoundary(f.largest, g) ==> f.largest == key || g in seed
  {
    var seed := Meeting(files, Some(lo), Some(hi));
    forall f, g | f in seed && g in files && IsBoundary(f.largest, g) ensures f.largest == key || g in seed {
      if g !in seed && f.largest != key {
        var m :| m in seed && m.largest == key;
        DisjointFiles(files, f, m);
      }
    }
  }

  // ---------------------------------------------------------------- covered ranges

  /** Every user key of the range is in the range of some file. */
  ghost predicate CoveredBy(files: Level, lo: UserKey, hi: UserKey) {
    forall x :: lo <= x <= hi ==> HeldBySome(files, x)
  }

  ghost function MinKey(files: Level, lo: UserKey): (r: UserKey)
    ensures r <= lo && forall f :: f in files ==> r <= f.smallest.key
  {
    if files == [] then lo
    else
      var m := MinKey(files[..|files| - 1], lo);
      assert files == files[..|files| - 1] + [files[|files| - 1]];
      if files[|files| - 1].smallest.key < m then files[|files| - 1].smallest.key else m
  }

  ghost function MaxKey(files: Level, hi: UserKey): (r: UserKey)
    ensures r >= hi && forall f :: f in files ==> f.largest.key <= r
  {
    if files == [] then hi
    else
      var m := MaxKey(files[..|files| - 1], hi);
      assert files == files[..|files| - 1] + [files[|files| - 1]];
      if files[|files| - 1].largest.key > m then files[|files| - 1].largest.key else m
  }

  /** Each file meets what the range and the files before it span. */
  ghost predicate Connected(files: Level, lo: UserKey, hi: UserKey) {
    forall j :: 0 <= j < |files| ==> Meets(files[j], Some(MinKey(files[..j], lo)), Some(MaxKey(files[..j], hi)))
  }

  lemma {:induction false} CoverAll(B: Level, C: Level, lo: UserKey, hi: UserKey)
    requires Ranged(B) && lo <= hi && CoveredBy(B, lo, hi) && Connected(C, lo, hi)
    requires forall f :: f in C ==> f in B
    ensures CoveredBy(B, MinKey(C, lo), MaxKey(C, hi))
  {
    if C != [] {
      var n := |C| - 1;
      var D, f := C[..n], C[n];
      assert f in C;
      forall j | 0 <= j < n ensures Meets(D[j], Some(MinKey(D[..j], lo)), Some(MaxKey(D[..j], hi))) {
        assert D[..j] == C[..j] && D[j] == C[j];
      }
      CoverAll(B, D, lo, hi);
      assert Meets(f, Some(MinKey(D, lo)), Some(MaxKey(D, hi)));
      CoverOne(B, f, MinKey(D, lo), MaxKey(D, hi), MinKey(C, lo), MaxKey(C, hi));
    }
  }

  /** A file that meets a covered range extends it. */
  lemma CoverOne(B: Level, f: File, lo: UserKey, hi: UserKey, lo2: UserKey, hi2: UserKey)
    requires CoveredBy(B, lo, hi) && f in B && Meets(f, Some(lo), Some(hi))
    requires lo2 == (if f.smallest.key < lo then f.smallest.key else lo)
    requires hi2 == (if f.largest.key > hi then f.largest.key else hi)
    ensures CoveredBy(B, lo2, hi2)
  {
    forall x | lo2 <= x <= hi2 ensures HeldBySome(B, x) {
      if x < lo || x > hi {
        assert Holds(f, x);
      }
    }
  }

  lemma MeetingConnected(C: Level, lo: UserKey, hi: UserKey)
    requires forall f :: f in C ==> Meets(f, Some(lo), Some(hi))
    ensures Connected(C, lo, hi)
  {
    forall j | 0 <= j < |C| ensures Meets(C[j], Some(MinKey(C[..j], lo)), Some(MaxKey(C[..j], hi))) {
      assert C[j] in C;
    }
  }

  lemma ChainConnected(files: Level, seed: Level, key: IKey, chain: Level, lo: UserKey, hi: UserKey)
    requires Ranged(files) && Ranged(seed) && IsLargest(seed, key) && Chain(files, key, chain)
    requires Connected(seed, lo, hi)
    ensures Connected(seed + chain, lo, hi)
  {
    var all := seed + chain;
    forall j | 0 <= j < |all| ensures Meets(all[j], Some(MinKey(all[..j], lo)), Some(MaxKey(all[..j], hi))) {
      if j < |seed| {
        assert all[..j] == seed[..j] && all[j] == seed[j];
      } else {
        var p := LinkedTo(files, seed, key, chain, j - |seed|);
        assert all[..j] == seed + chain[..j - |seed|];
        SharesKey(all[..j], p, all[j], lo, hi);
      }
    }
  }

  /** Each file of a chain starts with the last user key of a file before it. */
  lemma LinkedTo(files: Level, seed: Level, key: IKey, chain: Level, i: nat) returns (p: File)
    requires Ranged(files) && Ranged(seed) && IsLargest(seed, key) && Chain(files, key, chain) && i < |chain|
    ensures p in seed + chain[..i] && p.smallest.key <= p.largest.key
    ensures chain[i].smallest.key == p.largest.key && chain[i].smallest.key <= chain[i].largest.key
  {
    assert Link(files, key, chain, i);
    if i == 0 {
      p :| p in seed && p.largest == key;
    } else {
      p := chain[i - 1];
      assert Link(files, key, chain, i - 1);
      assert chain[..i][i - 1] == p;
    }
  }

  lemma SharesKey(before: Level, p: File, f: File, lo: UserKey, hi: UserKey)
    requires p in before && p.smallest.key <= p.largest.key == f.smallest.key <= f.largest.key
    ensures Meets(f, Some(MinKey(before, lo)), Some(MaxKey(before, hi)))
  {
    assert MinKey(before, lo) <= p.smallest.key && p.largest.key <= MaxKey(before, hi);
  }

  // ---------------------------------------------------------------- the selected inputs

  /** The inputs of a compaction of `level` into `level + 1`. */
  datatype Inputs = Inputs(level: nat, lower: Level, upper: Level, grandparents: Level)
  {
    function All(): Level { lower + upper }
  }

  ghost predicate MeetsKeys(f: File, lo: IKey, hi: IKey) {
    Meets(f, Some(lo.key), Some(hi.key))
  }

  /** What a selection promises.  `lo` and `hi` span the lower inputs, `allLo` and `allHi` all of
      them. */
  ghost predicate Selected(v: Version, inputs: Inputs, lo: IKey, hi: IKey, allLo: IKey, allHi: IKey) {
    match inputs
    case Inputs(level, lower, upper, grandparents) =>
      && level + 1 < NUM_LEVELS
      && LowerOk(v, level, lower, lo, hi)
      && upper == Meeting(v[level + 1], Some(lo.key), Some(hi.key))
      && RangeOf(lower + upper, allLo, allHi)
      && CoveredBy(lower + upper, allLo.key, allHi.key)
      && (level + 2 < NUM_LEVELS ==> grandparents == Meeting(v[level + 2], Some(allLo.key), Some(allHi.key)))
      && (level + 2 >= NUM_LEVELS ==> grandparents == [])
  }

  /** The lower inputs are files of their level, closed under overlap on level 0 and under boundary
      files elsewhere. */
  ghost predicate LowerOk(v: Version, level: nat, lower: Level, lo: IKey, hi: IKey)
    requires level < NUM_LEVELS
  {
    && (forall f :: f in lower ==> f in v[level])
    && RangeOf(lower, lo, hi)
    && (level == 0 ==> forall g :: g in v[0] && MeetsKeys(g, lo, hi) ==> g in lower)
    && (level > 0 ==> BoundaryFull(v[level], lower))
  }

  /** The files a compaction starts from: one file, or on level 0 a range closed under overlap. */
  ghost predicate SeedOk(v: Version, level: nat, seed: Level, lo: UserKey, hi: UserKey)
    requires level < NUM_LEVELS
  {
    && seed != [] && lo <= hi
    && (forall f :: f in seed ==> f in v[level])
    && CoveredBy(seed, lo, hi)
    && (level == 0 ==> seed == Meeting(v[0], Some(lo), Some(hi)) && ClosedRange(v[0], Some(lo), Some(hi)))
    && (level > 0 ==> |seed| == 1 && lo == seed[0].smallest.key && hi == seed[0].largest.key)
  }

  lemma RangeWithin(files: Level, lo: IKey, hi: IKey, m: UserKey, M: UserKey)
    requires RangeOf(files, lo, hi)
    requires forall f :: f in files ==> m <= f.smallest.key && f.largest.key <= M
    ensures m <= lo.key && hi.key <= M
  {
    var p :| p in files && p.smallest == lo;
    var q :| q in files && q.largest == hi;
  }

  /** From a covered start range to the range of the lower inputs. */
  lemma CoverLower(files: Level, seed: Level, key: IKey, chain: Level, B: Level,
                   lo: UserKey, hi: UserKey, lowerLo: IKey, lowerHi: IKey)
    requires Ranged(files) && Ranged(seed) && Ranged(B)
    requires forall f :: f in seed + chain ==> f in B
    requires forall f :: f in seed ==> Meets(f, Some(lo), Some(hi))
    requires lo <= hi && CoveredBy(B, lo, hi)
    requires IsLargest(seed, key) && Chain(files, key, chain)
    requires RangeOf(seed + chain, lowerLo, lowerHi)
    ensures CoveredBy(B, lowerLo.key, lowerHi.key)
  {
    MeetingConnected(seed, lo, hi);
    ChainConnected(files, seed, key, chain, lo, hi);
    CoverAll(B, seed + chain, lo, hi);
    RangeWithin(seed + chain, lowerLo, lowerHi, MinKey(seed + chain, lo), MaxKey(seed + chain, hi));
  }

  /** From the range of the lower inputs to the range of all inputs. */
  lemma CoverBoth(B: Level, lowerLo: IKey, lowerHi: IKey, allLo: IKey, allHi: IKey)
    requires Ranged(B) && lowerLo.key <= lowerHi.key
    requires CoveredBy(B, lowerLo.key, lowerHi.key)
    requires forall f :: f in B ==> MeetsKeys(f, lowerLo, lowerHi)
    requires RangeOf(B, allLo, allHi)
    ensures CoveredBy(B, allLo.key, allHi.key)
  {
    MeetingConnected(B, lowerLo.key, lowerHi.key);
    CoverAll(B, B, lowerLo.key, lowerHi.key);
    RangeWithin(B, allLo, allHi, MinKey(B, lowerLo.key), MaxKey(B, lowerHi.key));
  }

  /** On level 0 a closed range leaves no boundary file to add. */
  lemma ZeroHasNoBoundary(files: Level, lo: UserKey, hi: UserKey, key: IKey, chain: Level)
    requires Ranged(files) && ClosedRange(files, Some(lo), Some(hi))
    requires IsLargest(Meeting(files, Some(lo), Some(hi)), key) && Chain(files, key, chain)
    ensures chain == []
  {
    var p :| p in Meeting(files, Some(lo), Some(hi)) && p.largest == key;
    assert Inside(p, Some(lo), Some(hi));
    forall g | g in files ensures !IsBoundary(key, g) {
      assert g in Meeting(files, Some(lo), Some(hi)) ==> !Less(key, g.largest);
    }
    assert chain != [] ==> Link(files, key, chain, 0);
  }

  /** A wider range meets at least the same files; if it meets no more of them, it meets the same. */
  lemma {:induction false} MeetingWider(files: Level, lo: Option<UserKey>, hi: Option<UserKey>,
                                        lo2: Option<UserKey>, hi2: Option<UserKey>)
    requires Widens(lo, hi, lo2, hi2)
    ensures |Meeting(files, lo, hi)| <= |Meeting(files, lo2, hi2)|
    ensures |Meeting(files, lo, hi)| == |Meeting(files, lo2, hi2)| ==>
              Meeting(files, lo, hi) == Meeting(files, lo2, hi2)
  {
    if files != [] {
      MeetingWider(files[1..], lo, hi, lo2, hi2);
    }
  }

  /** The starting files of a selection, before boundary files are added. */
  ghost predicate StartOk(files: Level, isLevel0: bool, seed: Level, lo: UserKey, hi: UserKey) {
    && lo <= hi
    && (forall f :: f in seed ==> f in files && Meets(f, Some(lo), Some(hi)))
    && (seed == Meeting(files, Some(lo), Some(hi)) || (!isLevel0 && |seed| == 1))
    && (isLevel0 ==> ClosedRange(files, Some(lo), Some(hi)))
  }

  lemma ZeroClosed(files: Level, lo: UserKey, hi: UserKey, lowerLo: IKey, lowerHi: IKey)
    requires ClosedRange(files, Some(lo), Some(hi))
    requires RangeOf(Meeting(files, Some(lo), Some(hi)), lowerLo, lowerHi)
    ensures forall g :: g in files && MeetsKeys(g, lowerLo, lowerHi) ==> g in Meeting(files, Some(lo), Some(hi))
  {
    var seed := Meeting(files, Some(lo), Some(hi));
    assert forall f :: f in seed ==> Inside(f, Some(lo), Some(hi));
    RangeWithin(seed, lowerLo, lowerHi, lo, hi);
  }

  lemma ChainWithin(files: Level, key: IKey, chain: Level)
    requires Chain(files, key, chain)
    ensures forall f :: f in chain ==> f in files
  {
    forall f | f in chain ensures f in files {
      var j :| 0 <= j < |chain| && chain[j] == f;
      assert Link(files, key, chain, j);
    }
  }

  /** Boundary files turn the starting files into well-formed lower inputs. */
  lemma LowerFromSeed(v: Version, level: nat, seed: Level, lo: UserKey, hi: UserKey, key: IKey, chain: Level,
                      lowerLo: IKey, lowerHi: IKey)
    requires level < NUM_LEVELS && Ranged(v[level]) && (level > 0 ==> Disjoint(v[level]))
    requires StartOk(v[level], level == 0, seed, lo, hi)
    requires IsLargest(seed, key) && Chain(v[level], key, chain)
    requires BoundaryClosed(v[level], KeyBefore(key, chain, |chain|))
    requires RangeOf(seed + chain, lowerLo, lowerHi)
    ensures LowerOk(v, level, seed + chain, lowerLo, lowerHi)
  {
    ChainWithin(v[level], key, chain);
    if level == 0 {
      ZeroHasNoBoundary(v[0], lo, hi, key, chain);
      assert seed + chain == seed;
      ZeroClosed(v[0], lo, hi, lowerLo, lowerHi);
    } else {
      SeedCloses(v[level], seed, lo, hi, key, chain);
    }
  }

  lemma SeedCloses(files: Level, seed: Level, lo: UserKey, hi: UserKey, key: IKey, chain: Level)
    requires Ranged(files) && Disjoint(files) && StartOk(files, false, seed, lo, hi)
    requires IsLargest(seed, key) && Chain(files, key, chain)
    requires BoundaryClosed(files, KeyBefore(key, chain, |chain|))
    ensures BoundaryFull(files, seed + chain)
  {
    if seed == Meeting(files, Some(lo), Some(hi)) {
      MeetingContinues(files, lo, hi, key);
    }
    ChainCloses(files, seed, key, chain);
  }

  /** Lower inputs, the upper inputs they meet, and a covered range. */
  ghost predicate Stage(v: Version, level: nat, lower: Level, upper: Level, lo: IKey, hi: IKey)
    requires level + 1 < NUM_LEVELS
  {
    && LowerOk(v, level, lower, lo, hi)
    && upper == Meeting(v[level + 1], Some(lo.key), Some(hi.key))
    && lo.key <= hi.key
    && CoveredBy(lower + upper, lo.key, hi.key)
  }

  lemma StageCovers(v: Version, level: nat, lower: Level, upper: Level, lo: IKey, hi: IKey, allLo: IKey, allHi: IKey)
    requires level + 1 < NUM_LEVELS && Ranged(v[level]) && Ranged(v[level + 1])
    requires Stage(v, level, lower, upper, lo, hi)
    requires RangeOf(lower + upper, allLo, allHi)
    ensures CoveredBy(lower + upper, allLo.key, allHi.key)
    ensures allLo.key <= lo.key && hi.key <= allHi.key
  {
    var B := lower + upper;
    forall f | f in B ensures !Less(f.largest, f.smallest) && MeetsKeys(f, lo, hi) {
      assert f in lower || f in upper;
    }
    CoverBoth(B, lo, hi, allLo, allHi);
    var p :| p in lower && p.smallest == lo;
    var q :| q in lower && q.largest == hi;
    assert p in B && q in B;
  }

  lemma RangeProper(files: Level, lo: IKey, hi: IKey)
    requires RangeOf(files, lo, hi) && Ranged(files)
    ensures !Less(hi, lo) && lo.key <= hi.key
  {
    var p :| p in files && p.smallest == lo;
  }

  /** The common part of both stages. */
  lemma MakeStage(v: Version, level: nat, seed: Level, lo: UserKey, hi: UserKey, key: IKey, chain: Level,
                  upper: Level, lowerLo: IKey, lowerHi: IKey)
    requires level + 1 < NUM_LEVELS && Ranged(v[level]) && Ranged(v[level + 1]) && (level > 0 ==> Disjoint(v[level]))
    requires StartOk(v[level], level == 0, seed, lo, hi)
    requires IsLargest(seed, key) && Chain(v[level], key, chain)
    requires BoundaryClosed(v[level], KeyBefore(key, chain, |chain|))
    requires RangeOf(seed + chain, lowerLo, lowerHi)
    requires upper == Meeting(v[level + 1], Some(lowerLo.key), Some(lowerHi.key))
    requires CoveredBy(seed + chain + upper, lo, hi)
    ensures Stage(v, level, seed + chain, upper, lowerLo, lowerHi)
  {
    LowerFromSeed(v, level, seed, lo, hi, key, chain, lowerLo, lowerHi);
    ChainWithin(v[level], key, chain);
    RangeProper(seed + chain, lowerLo, lowerHi);
    CoverLower(v[level], seed, key, chain, seed + chain + upper, lo, hi, lowerLo, lowerHi);
  }

  /** The widened range is covered by the widened inputs. */
  lemma WidenedCover(files: Level, all: Level, B: Level, allLo: UserKey, allHi: UserKey, lo: UserKey, hi: UserKey)
    requires CoveredBy(all, allLo, allHi) && (forall f :: f in all ==> f in B)
    requires FilledBeyond(files, Some(allLo), Some(allHi), Some(lo), Some(hi))
    requires forall f :: f in files && Meets(f, Some(lo), Some(hi)) ==> f in B
    ensures CoveredBy(B, lo, hi)
  {
    forall x | lo <= x <= hi ensures HeldBySome(B, x) {
      assert InRange(x, Some(lo), Some(hi));
      if InRange(x, Some(allLo), Some(allHi)) {
        assert HeldBySome(all, x);
        var f :| f in all && Holds(f, x);
        assert f in B;
      } else {
        assert HeldBySome(files, x);
        var f :| f in files && Holds(f, x);
        assert f in B;
      }
    }
  }

  /** The expanded inputs contain the first ones. */
  lemma ExpandContains(v: Version, level: nat, lower: Level, upper: Level, lo: IKey, hi: IKey,
                       allLo: IKey, allHi: IKey, grown: Level, glo: Option<UserKey>, ghi: Option<UserKey>,
                       chain: Level, lowerLo: IKey, lowerHi: IKey, upper2: Level)
    requires level + 1 < NUM_LEVELS && Ranged(v[level])
    requires LowerOk(v, level, lower, lo, hi) && upper == Meeting(v[level + 1], Some(lo.key), Some(hi.key))
    requires allLo.key <= lo.key && hi.key <= allHi.key
    requires Widens(Some(allLo.key), Some(allHi.key), glo, ghi) && grown == Meeting(v[level], glo, ghi)
    requires RangeOf(grown + chain, lowerLo, lowerHi)
    requires upper2 == Meeting(v[level + 1], Some(lowerLo.key), Some(lowerHi.key))
    ensures forall f :: f in lower ==> f in grown
    ensures forall f :: f in upper ==> f in upper2
    ensures Widens(Some(lo.key), Some(hi.key), Some(lowerLo.key), Some(lowerHi.key))
  {
    forall f | f in lower ensures f in grown {
      assert f in v[level] && !Less(f.smallest, lo) && !Less(hi, f.largest);
    }
    var p :| p in lower && p.smallest == lo;
    var q :| q in lower && q.largest == hi;
    assert p in grown + chain && q in grown + chain;
  }

  lemma InEither(A: Level, B: Level, C: Level, D: Level, chain: Level)
    requires forall f :: f in A ==> f in C
    requires forall f :: f in B ==> f in D
    ensures forall f :: f in A + B ==> f in C + chain + D
  {
  }

  /** The expanded inputs form a stage again. */
  lemma Expand(v: Version, level: nat, lower: Level, upper: Level, lo: IKey, hi: IKey, allLo: IKey, allHi: IKey,
               grown: Level, glo: Option<UserKey>, ghi: Option<UserKey>, key: IKey, chain: Level,
               lowerLo: IKey, lowerHi: IKey, upper2: Level)
    requires level + 1 < NUM_LEVELS && Ranged(v[level]) && Ranged(v[level + 1]) && (level > 0 ==> Disjoint(v[level]))
    requires Stage(v, level, lower, upper, lo, hi)
    requires RangeOf(lower + upper, allLo, allHi) && CoveredBy(lower + upper, allLo.key, allHi.key)
    requires allLo.key <= lo.key && hi.key <= allHi.key
    requires grown == Meeting(v[level], glo, ghi)
    requires level > 0 ==> glo == Some(allLo.key) && ghi == Some(allHi.key)
    requires level == 0 ==> LeastClosed(v[0], Some(allLo.key), Some(allHi.key), glo, ghi)
    requires IsLargest(grown, key) && Chain(v[level], key, chain)
    requires BoundaryClosed(v[level], KeyBefore(key, chain, |chain|))
    requires RangeOf(grown + chain, lowerLo, lowerHi)
    requires upper2 == Meeting(v[level + 1], Some(lowerLo.key), Some(lowerHi.key))
    ensures Stage(v, level, grown + chain, upper2, lowerLo, lowerHi)
    ensures forall f :: f in lower ==> f in grown
    ensures Widens(Some(lo.key), Some(hi.key), Some(lowerLo.key), Some(lowerHi.key))
  {
    assert Forced(v[level], Some(allLo.key), Some(allHi.key), glo, ghi) by {
      if level > 0 {
        ForcedStart(v[level], glo, ghi);
      }
    }
    ExpandContains(v, level, lower, upper, lo, hi, allLo, allHi, grown, glo, ghi, chain, lowerLo, lowerHi, upper2);
    InEither(lower, upper, grown, upper2, chain);
    WidenedCover(v[level], lower + upper, grown + chain + upper2, allLo.key, allHi.key, glo.value, ghi.value) by {
      forall f | f in v[level] && Meets(f, glo, ghi) ensures f in grown + chain + upper2 {
        assert f in grown;
      }
    }
    MakeStage(v, level, grown, glo.value, ghi.value, key, chain, upper2, lowerLo, lowerHi);
  }

  /** The inputs of a stage with the range of all of them. */
  ghost predicate FullStage(v: Version, level: nat, lower: Level,
                            upper: Level, lo: IKey, hi: IKey, allLo: IKey, allHi: IKey)
    requires level + 1 < NUM_LEVELS
  {
    && Stage(v, level, lower, upper, lo, hi)
    && RangeOf(lower + upper, allLo, allHi)
    && CoveredBy(lower + upper, allLo.key, allHi.key)
    && allLo.key <= lo.key && hi.key <= allHi.key
  }

  /** Adds boundary files to the starting files and finds the overlapping upper files. */
  method FirstInputs(v: Version, level: nat, seed: Level, ghost lo: UserKey, ghost hi: UserKey)
    returns (lower: Level, upper: Level, start: IKey, limit: IKey, allStart: IKey, allLimit: IKey)
    requires LevelsOk(v) && level + 1 < NUM_LEVELS && SeedOk(v, level, seed, lo, hi)
    ensures FullStage(v, level, lower, upper, start, limit, allStart, allLimit)
    ensures seed <= lower
  {
    FilesRanged(v[level]);
    FilesRanged(v[level + 1]);
    ghost var key, chain, ulo, uhi;
    lower, key, chain := AddBoundaryInputs(v[level], seed);
    start, limit := GetRange(lower);
    upper, ulo, uhi := GetOverlappingInputs(v[level + 1], false, Some(start.key), Some(limit.key));
    SeedStarts(v, level, seed, lo, hi, chain, upper);
    MakeStage(v, level, seed, lo, hi, key, chain, upper, start, limit);
    allStart, allLimit := GetRange(lower + upper);
    StageCovers(v, level, lower, upper, start, limit, allStart, allLimit);
  }

  /** Grows the lower inputs if that leaves the number of upper inputs unchanged and the bytes
      within the limit.  The upper inputs are then the very same files. */
  method ExpandInputs(v: Version, level: nat, lower: Level, upper: Level, start: IKey, limit: IKey,
                      allStart: IKey, allLimit: IKey, target: nat)
    returns (lower2: Level, start2: IKey, limit2: IKey, allStart2: IKey, allLimit2: IKey)
    requires LevelsOk(v) && level + 1 < NUM_LEVELS
    requires FullStage(v, level, lower, upper, start, limit, allStart, allLimit)
    ensures FullStage(v, level, lower2, upper, start2, limit2, allStart2, allLimit2)
    ensures forall f :: f in lower ==> f in lower2
    ensures lower2 != lower ==> |lower2| > |lower| && TotalFileSize(upper) + TotalFileSize(lower2) < 25 * target
  {
    FilesRanged(v[level]);
    FilesRanged(v[level + 1]);
    lower2, start2, limit2, allStart2, allLimit2 := lower, start, limit, allStart, allLimit;
    var grown, glo, ghi := GetOverlappingInputs(v[level], level == 0, Some(allStart.key), Some(allLimit.key));
    var expanded0, key, chain := AddBoundaryInputs(v[level], grown);
    if |expanded0| > |lower| && TotalFileSize(upper) + TotalFileSize(expanded0) < 25 * target {
      var newStart, newLimit := GetRange(expanded0);
      var expanded1, ulo, uhi := GetOverlappingInputs(v[level + 1], false, Some(newStart.key), Some(newLimit.key));
      if |expanded1| == |upper| {
        Expand(v, level, lower, upper, start, limit, allStart, allLimit, grown, glo, ghi, key, chain,
               newStart, newLimit, expanded1);
        MeetingWider(v[level + 1], Some(start.key), Some(limit.key), Some(newStart.key), Some(newLimit.key));
        lower2, start2, limit2 := expanded0, newStart, newLimit;
        allStart2, allLimit2 := GetRange(lower2 + upper);
        StageCovers(v, level, lower2, upper, start2, limit2, allStart2, allLimit2);
      }
    }
  }

  /** Compaction input selection after the starting files are known.  `first` is the lower input set
      before the expansion: growing it never changes the upper inputs. */
  method SetupOtherInputs(v: Version, level: nat, seed: Level, target: nat, ghost lo: UserKey, ghost hi: UserKey)
    returns (inputs: Inputs, largest: IKey, ghost smallest: IKey, ghost allLo: IKey, ghost allHi: IKey,
             ghost first: Level, ghost firstLo: IKey, ghost firstHi: IKey)
    requires LevelsOk(v) && level + 1 < NUM_LEVELS && SeedOk(v, level, seed, lo, hi)
    ensures inputs.level == level
    ensures Selected(v, inputs, smallest, largest, allLo, allHi)
    ensures seed <= first && RangeOf(first, firstLo, firstHi)
    ensures forall f :: f in first ==> f in inputs.lower
    ensures inputs.upper == Meeting(v[level + 1], Some(firstLo.key), Some(firstHi.key))
  {
    hide FullStage, Selected, SeedOk, RangeOf, Meeting;
    var lower, upper, start, limit, allStart, allLimit := FirstInputs(v, level, seed, lo, hi);
    first, firstLo, firstHi := lower, start, limit;
    StageParts(v, level, lower, upper, start, limit, allStart, allLimit);
    if upper != [] {
      lower, start, limit, allStart, allLimit :=
        ExpandInputs(v, level, lower, upper, start, limit, allStart, allLimit, target);
    }
    var grandparents := Grandparents(v, level, allStart, allLimit);
    inputs := Inputs(level, lower, upper, grandparents);
    largest, smallest, allLo, allHi := limit, start, allStart, allLimit;
    StageSelected(v, inputs, smallest, largest, allLo, allHi);
  }

  /** The files of the level after the next that meet the range, if there is such a level. */
  method Grandparents(v: Version, level: nat, lo: IKey, hi: IKey) returns (grandparents: Level)
    requires LevelsOk(v)
    ensures grandparents == if level + 2 < NUM_LEVELS then Meeting(v[level + 2], Some(lo.key), Some(hi.key)) else []
  {
    grandparents := [];
    if level + 2 < NUM_LEVELS {
      ghost var glo, ghi;
      grandparents, glo, ghi := GetOverlappingInputs(v[level + 2], false, Some(lo.key), Some(hi.key));
    }
  }

  lemma StageParts(v: Version, level: nat, lower: Level, upper: Level, lo: IKey, hi: IKey, allLo: IKey, allHi: IKey)
    requires level + 1 < NUM_LEVELS && FullStage(v, level, lower, upper, lo, hi, allLo, allHi)
    ensures RangeOf(lower, lo, hi) && upper == Meeting(v[level + 1], Some(lo.key), Some(hi.key))
  {
    hide RangeOf, Meeting, CoveredBy;
  }

  lemma StageSelected(v: Version, inputs: Inputs, lo: IKey, hi: IKey, allLo: IKey, allHi: IKey)
    requires inputs.level + 1 < NUM_LEVELS
    requires FullStage(v, inputs.level, inputs.lower, inputs.upper, lo, hi, allLo, allHi)
    requires inputs.grandparents == if inputs.level + 2 < NUM_LEVELS
                                    then Meeting(v[inputs.level + 2], Some(allLo.key), Some(allHi.key)) else []
    ensures Selected(v, inputs, lo, hi, allLo, allHi)
  {
    hide RangeOf, Meeting, CoveredBy, LowerOk;
  }

  lemma SeedStarts(v: Version, level: nat, seed: Level, lo: UserKey, hi: UserKey, chain: Level, upper: Level)
    requires level < NUM_LEVELS && SeedOk(v, level, seed, lo, hi) && Ranged(v[level])
    ensures StartOk(v[level], level == 0, seed, lo, hi)
    ensures CoveredBy(seed + chain + upper, lo, hi)
  {
    forall x | lo <= x <= hi ensures HeldBySome(seed + chain + upper, x) {
      assert HeldBySome(seed, x);
      var f :| f in seed && Holds(f, x);
      assert f in seed + chain + upper;
    }
  }
}
