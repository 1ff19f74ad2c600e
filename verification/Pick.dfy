/** Levels and ranges to compact. */
module Pick {
  import opened Keys
  import opened Versions
  import Lookup

  /** The total size in bytes of some files. */
  function TotalFileSize(files: Level): nat {
    if files == [] then 0 else files[0].size + TotalFileSize(files[1..])
  }

  /** The files whose user-key range meets `[lo, hi]`, in order. */
  function Meeting(files: Level, lo: Option<UserKey>, hi: Option<UserKey>): (r: Level)
    ensures forall f :: f in r <==> f in files && Meets(f, lo, hi)
    ensures |r| <= |files|
  {
    if files == [] then []
    else if Meets(files[0], lo, hi) then [files[0]] + Meeting(files[1..], lo, hi)
    else Meeting(files[1..], lo, hi)
  }

  lemma {:induction false} MeetingAppend(files: Level, f: File, lo: Option<UserKey>, hi: Option<UserKey>)
    ensures Meeting(files + [f], lo, hi) ==
            if Meets(f, lo, hi) then Meeting(files, lo, hi) + [f] else Meeting(files, lo, hi)
  {
    if files == [] {
      assert files + [f] == [f];
    } else {
      assert (files + [f])[1..] == files[1..] + [f];
      MeetingAppend(files[1..], f, lo, hi);
    }
  }

  // ---------------------------------------------------------------- overlap and flush level

  /** Does some file of the level meet the range?  Levels above zero use binary search. */
  method SomeFileOverlapsRange(disjoint: bool, files: Level, lo: Option<UserKey>, hi: Option<UserKey>)
    returns (overlaps: bool)
    requires FilesOk(files) && (disjoint ==> Disjoint(files))
    ensures overlaps <==> exists f :: f in files && Meets(f, lo, hi)
  {
    if !disjoint {
      var i := 0;
      while i < |files|
        invariant i <= |files|
        invariant forall j :: 0 <= j < i ==> !Meets(files[j], lo, hi)
      {
        if Meets(files[i], lo, hi) {
          return true;
        }
        i := i + 1;
      }
      return false;
    }
    var index := 0;
    if lo.Some? {
      index := Lookup.FindFile(files, SeekKey(lo.value, MAX_SEQ));
      forall i | 0 <= i < |files| ensures (files[i].largest.key < lo.value <==> i < index) {
        FileBounds(files[i]);
      }
    }
    if index >= |files| {
      return false;
    }
    forall i | index <= i < |files| ensures files[index].smallest.key <= files[i].smallest.key {
      FileBounds(files[index]);
    }
    overlaps := !(hi.Some? && hi.value < files[index].smallest.key);
    assert overlaps ==> files[index] in files && Meets(files[index], lo, hi);
  }

  /** No file of the levels `0..level` meets the range. */
  ghost predicate ClearThrough(v: Version, level: nat, lo: UserKey, hi: UserKey)
    requires level < NUM_LEVELS
  {
    forall l, f :: 0 <= l <= level && f in v[l] ==> !Meets(f, Some(lo), Some(hi))
  }

  const MAX_MEM_COMPACT_LEVEL: nat := 2

  /** Pushing a new table from `level` to `level + 1` is refused. */
  ghost predicate PushStops(v: Version, level: nat, lo: UserKey, hi: UserKey, target: nat)
    requires level + 2 < NUM_LEVELS
  {
    || (exists f :: f in v[level + 1] && Meets(f, Some(lo), Some(hi)))
    || TotalFileSize(Meeting(v[level + 2], Some(lo), Some(hi))) > 10 * target
  }

  /** The level for a flushed table: pushed down while the range is clear, at most to level 2. */
  method PickLevelForMemTableOutput(v: Version, lo: UserKey, hi: UserKey, target: nat)
    returns (level: nat)
    requires LevelsOk(v)
    ensures level <= MAX_MEM_COMPACT_LEVEL
    ensures level > 0 ==> ClearThrough(v, level, lo, hi)
    ensures forall l :: 0 <= l < level ==> !PushStops(v, l, lo, hi, target)
    ensures level < MAX_MEM_COMPACT_LEVEL ==>
              !ClearThrough(v, 0, lo, hi) || PushStops(v, level, lo, hi, target)
  {
    level := 0;
    var overlap := SomeFileOverlapsRange(false, v[0], Some(lo), Some(hi));
    if !overlap {
      while level < MAX_MEM_COMPACT_LEVEL
        invariant level <= MAX_MEM_COMPACT_LEVEL
        invariant ClearThrough(v, level, lo, hi)
        invariant forall l :: 0 <= l < level ==> !PushStops(v, l, lo, hi, target)
      {
        var next := SomeFileOverlapsRange(true, v[level + 1], Some(lo), Some(hi));
        if next {
          break;
        }
        var overlaps := Meeting(v[level + 2], Some(lo), Some(hi));
        if TotalFileSize(overlaps) > 10 * target {
          break;
        }
        level := level + 1;
      }
    }
  }

  // ---------------------------------------------------------------- overlapping inputs

  ghost predicate InRange(x: UserKey, lo: Option<UserKey>, hi: Option<UserKey>) {
    (lo.Some? ==> lo.value <= x) && (hi.Some? ==> x <= hi.value)
  }

  /** `[lo2, hi2]` contains `[lo, hi]`. */
  ghost predicate Widens(lo: Option<UserKey>, hi: Option<UserKey>, lo2: Option<UserKey>, hi2: Option<UserKey>) {
    && lo2.Some? == lo.Some? && hi2.Some? == hi.Some?
    && (lo.Some? ==> lo2.value <= lo.value)
    && (hi.Some? ==> hi.value <= hi2.value)
  }

  ghost predicate Inside(f: File, lo: Option<UserKey>, hi: Option<UserKey>) {
    InRange(f.smallest.key, lo, None) && InRange(f.largest.key, None, hi)
  }

  /** Every file that meets the range lies inside it. */
  ghost predicate ClosedRange(files: Level, lo: Option<UserKey>, hi: Option<UserKey>) {
    forall f :: f in files && Meets(f, lo, hi) ==> Inside(f, lo, hi)
  }

  /** `[lo2, hi2]` is the least closed range around `[lo, hi]`, and files fill all of it that lies
      beyond `[lo, hi]`. */
  ghost predicate LeastClosed(files: Level, lo: Option<UserKey>, hi: Option<UserKey>,
                              lo2: Option<UserKey>, hi2: Option<UserKey>)
  {
    ClosedRange(files, lo2, hi2) && Forced(files, lo, hi, lo2, hi2)
  }

  ghost predicate HeldBySome(files: Level, x: UserKey) {
    exists f :: f in files && Holds(f, x)
  }

  ghost predicate FilledBeyond(files: Level, lo: Option<UserKey>, hi: Option<UserKey>,
                               lo2: Option<UserKey>, hi2: Option<UserKey>)
  {
    forall x :: InRange(x, lo2, hi2) ==> InRange(x, lo, hi) || HeldBySome(files, x)
  }

  /** How many files stick out of the range: what shrinks at every restart. */
  ghost function Outside(files: Level, lo: Option<UserKey>, hi: Option<UserKey>): nat {
    if files == [] then 0
    else (if lo.Some? && files[0].smallest.key < lo.value then 1 else 0)
         + (if hi.Some? && files[0].largest.key > hi.value then 1 else 0)
         + Outside(files[1..], lo, hi)
  }

  lemma {:induction false} OutsideShrinks(files: Level, lo: Option<UserKey>, hi: Option<UserKey>,
                                          lo2: Option<UserKey>, hi2: Option<UserKey>)
    requires Widens(lo, hi, lo2, hi2)
    ensures Outside(files, lo2, hi2) <= Outside(files, lo, hi)
    ensures (exists f :: f in files && GetsCovered(f, lo, hi, lo2, hi2)) ==>
              Outside(files, lo2, hi2) < Outside(files, lo, hi)
  {
    if files != [] {
      OutsideShrinks(files[1..], lo, hi, lo2, hi2);
      if f :| f in files && GetsCovered(f, lo, hi, lo2, hi2) {
        assert f == files[0] || f in files[1..];
      }
    }
  }

  /** One end of the file sticks out of the first range and not out of the second. */
  ghost predicate GetsCovered(f: File, lo: Option<UserKey>, hi: Option<UserKey>,
                              lo2: Option<UserKey>, hi2: Option<UserKey>)
  {
    || (lo.Some? && lo2.Some? && lo2.value <= f.smallest.key < lo.value)
    || (hi.Some? && hi2.Some? && hi.value < f.largest.key <= hi2.value)
  }

  /** What the scan knows of its current range: every closed range around the original one
      contains it, and files fill what was added. */
  ghost predicate Forced(files: Level, begin: Option<UserKey>, end: Option<UserKey>,
                         lo: Option<UserKey>, hi: Option<UserKey>)
  {
    && Widens(begin, end, lo, hi)
    && (forall l, h :: Widens(begin, end, l, h) && ClosedRange(files, l, h) ==> Widens(lo, hi, l, h))
    && FilledBeyond(files, begin, end, lo, hi)
  }

  /** Widening the range to a bound of a file that meets it is forced. */
  lemma RestartForced(files: Level, f: File, begin: Option<UserKey>, end: Option<UserKey>,
                      lo: Option<UserKey>, hi: Option<UserKey>, lo2: Option<UserKey>, hi2: Option<UserKey>)
    requires f in files && FileOk(f) && Meets(f, lo, hi)
    requires Forced(files, begin, end, lo, hi)
    requires Widens(lo, hi, lo2, hi2)
    requires lo2 == lo || lo2 == Some(f.smallest.key)
    requires hi2 == hi || hi2 == Some(f.largest.key)
    requires GetsCovered(f, lo, hi, lo2, hi2)
    ensures Forced(files, begin, end, lo2, hi2)
    ensures Outside(files, lo2, hi2) < Outside(files, lo, hi)
  {
    OutsideShrinks(files, lo, hi, lo2, hi2);
    FileBounds(f);
    forall x | InRange(x, lo2, hi2) ensures InRange(x, lo, hi) || Holds(f, x) {}
    forall l, h | Widens(begin, end, l, h) && ClosedRange(files, l, h) ensures Widens(lo2, hi2, l, h) {
      assert Widens(lo, hi, l, h);
      assert Meets(f, l, h);
      assert Inside(f, l, h);
    }
  }

  lemma ForcedStart(files: Level, lo: Option<UserKey>, hi: Option<UserKey>)
    ensures Forced(files, lo, hi, lo, hi)
  {
  }

  /** The state of the scan: the files before `i` have been looked at with the range `[lo, hi]`. */
  ghost predicate Scanned(files: Level, isLevel0: bool, begin: Option<UserKey>, end: Option<UserKey>,
                          lo: Option<UserKey>, hi: Option<UserKey>, i: nat, inputs: Level)
  {
    && i <= |files|
    && inputs == Meeting(files[..i], lo, hi)
    && (isLevel0 ==> ClosedRange(files[..i], lo, hi))
    && (!isLevel0 ==> lo == begin && hi == end)
    && Forced(files, begin, end, lo, hi)
  }

  lemma ScanStep(files: Level, isLevel0: bool, begin: Option<UserKey>, end: Option<UserKey>,
                 lo: Option<UserKey>, hi: Option<UserKey>, i: nat, inputs: Level)
    requires Scanned(files, isLevel0, begin, end, lo, hi, i, inputs) && i < |files|
    requires isLevel0 && Meets(files[i], lo, hi) ==> Inside(files[i], lo, hi)
    ensures Scanned(files, isLevel0, begin, end, lo, hi, i + 1,
                    if Meets(files[i], lo, hi) then inputs + [files[i]] else inputs)
  {
    assert files[..i + 1] == files[..i] + [files[i]];
    MeetingAppend(files[..i], files[i], lo, hi);
  }

  lemma ScanRestart(files: Level, begin: Option<UserKey>, end: Option<UserKey>,
                    lo: Option<UserKey>, hi: Option<UserKey>, i: nat, inputs: Level,
                    lo2: Option<UserKey>, hi2: Option<UserKey>)
    requires FilesOk(files) && Scanned(files, true, begin, end, lo, hi, i, inputs) && i < |files|
    requires Meets(files[i], lo, hi) && Widens(lo, hi, lo2, hi2)
    requires lo2 == lo || lo2 == Some(files[i].smallest.key)
    requires hi2 == hi || hi2 == Some(files[i].largest.key)
    requires GetsCovered(files[i], lo, hi, lo2, hi2)
    ensures Scanned(files, true, begin, end, lo2, hi2, 0, [])
    ensures Outside(files, lo2, hi2) < Outside(files, lo, hi)
  {
    RestartForced(files, files[i], begin, end, lo, hi, lo2, hi2);
  }

  /** Version::GetOverlappingInputs.  On level 0 the range grows, restarting the scan, until it is
      closed under overlap; on other levels the range stays as given. */
  method GetOverlappingInputs(files: Level, isLevel0: bool, begin: Option<UserKey>, end: Option<UserKey>)
    returns (inputs: Level, ghost lo: Option<UserKey>, ghost hi: Option<UserKey>)
    requires FilesOk(files)
    ensures inputs == Meeting(files, lo, hi)
    ensures !isLevel0 ==> lo == begin && hi == end
    ensures isLevel0 ==> LeastClosed(files, begin, end, lo, hi)
  {
    var userBegin, userEnd := begin, end;
    inputs := [];
    var i := 0;
    while i < |files|
      invariant Scanned(files, isLevel0, begin, end, userBegin, userEnd, i, inputs)
      decreases Outside(files, userBegin, userEnd), |files| - i
    {
      var f := files[i];
      if !Meets(f, userBegin, userEnd) {
        ScanStep(files, isLevel0, begin, end, userBegin, userEnd, i, inputs);
        i := i + 1;
      } else if isLevel0 && userBegin.Some? && f.smallest.key < userBegin.value {
        ScanRestart(files, begin, end, userBegin, userEnd, i, inputs, Some(f.smallest.key), userEnd);
        userBegin := Some(f.smallest.key);
        inputs := [];
        i := 0;
      } else if isLevel0 && userEnd.Some? && f.largest.key > userEnd.value {
        ScanRestart(files, begin, end, userBegin, userEnd, i, inputs, userBegin, Some(f.largest.key));
        userEnd := Some(f.largest.key);
        inputs := [];
        i := 0;
      } else {
        ScanStep(files, isLevel0, begin, end, userBegin, userEnd, i, inputs);
        inputs := inputs + [f];
        i := i + 1;
      }
    }
    assert files[..|files|] == files;
    lo, hi := userBegin, userEnd;
  }
}
