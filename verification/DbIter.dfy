/** DBIter: the cursor a user gets. */
module DbIter {
  import opened Keys
  import opened Lookup
  import opened Cursors
  import opened Merger

  // ---------------------------------------------------------------- the specification

  predicate Seen(es: seq<Entry>, s: SeqNum, j: nat)
    requires j < |es|
  {
    es[j].seqno <= s
  }

  /** Looking only at the entries from `lo` on: entry `j` is the first one of its user key that the
      snapshot sees, and it is a value. */
  ghost predicate LiveFrom(es: seq<Entry>, s: SeqNum, lo: nat, j: nat) {
    && lo <= j < |es| && Seen(es, s, j) && es[j].op.Put?
    && forall i :: lo <= i < j && es[i].key == es[j].key ==> !Seen(es, s, i)
  }

  ghost predicate Live(es: seq<Entry>, s: SeqNum, j: nat) {
    LiveFrom(es, s, 0, j)
  }

  /** The user's view: the live keys and values among the first `n` entries, in order. */
  ghost function View(es: seq<Entry>, s: SeqNum, n: nat): seq<(UserKey, string)>
    requires n <= |es|
  {
    if n == 0 then []
    else if Live(es, s, n - 1) then View(es, s, n - 1) + [(es[n - 1].key, es[n - 1].op.value)]
    else View(es, s, n - 1)
  }

  /** A live entry is the newest visible one of its key. */
  lemma LiveIsNewest(es: seq<Entry>, s: SeqNum, j: nat)
    requires Sorted(es) && Distinct(Elems(es)) && j < |es|
    ensures Live(es, s, j) <==> Newest(Elems(es), es[j].key, s, es[j]) && es[j].op.Put?
  {
    var E := Elems(es);
    assert es[j] in E;
    if Live(es, s, j) {
      forall d | Visible(E, es[j].key, s, d) ensures d.seqno <= es[j].seqno {
        var i :| 0 <= i < |es| && es[i] == d;
        assert i >= j;
        assert j < i ==> Less(es[j].Internal(), es[i].Internal());
      }
    }
    if Newest(E, es[j].key, s, es[j]) {
      forall i | 0 <= i < j && es[i].key == es[j].key ensures !Seen(es, s, i) {
        assert Less(es[i].Internal(), es[j].Internal());
        assert es[i] in E;
        LessIsNewer(E, es[i], es[j]);
        assert !Visible(E, es[j].key, s, es[i]);
      }
    }
  }

  lemma {:induction false} ViewHas(es: seq<Entry>, s: SeqNum, n: nat, k: UserKey, v: string)
    requires n <= |es|
    ensures (k, v) in View(es, s, n) <==>
            exists j :: 0 <= j < n && Live(es, s, j) && es[j].key == k && es[j].op == Put(v)
  {
    if n > 0 {
      ViewHas(es, s, n - 1, k, v);
    }
  }

  /** The view holds exactly what point reads return. */
  lemma ViewIsRead(es: seq<Entry>, s: SeqNum, k: UserKey, v: string)
    requires Sorted(es) && Distinct(Elems(es))
    ensures (k, v) in View(es, s, |es|) <==> Read(Elems(es), k, s) == Some(v)
  {
    ViewHas(es, s, |es|, k, v);
    if j :| 0 <= j < |es| && Live(es, s, j) && es[j].key == k && es[j].op == Put(v) {
      LiveIsNewest(es, s, j);
      ReadOf(Elems(es), k, s, es[j]);
    }
    if Read(Elems(es), k, s) == Some(v) {
      ReadCases(Elems(es), k, s);
      var e :| Newest(Elems(es), k, s, e) && Read(Elems(es), k, s) == e.op.Result();
      var j :| 0 <= j < |es| && es[j] == e;
      LiveIsNewest(es, s, j);
    }
  }

  lemma {:induction false} ViewOrigin(es: seq<Entry>, s: SeqNum, n: nat, x: nat) returns (j: nat)
    requires n <= |es| && x < |View(es, s, n)|
    ensures j < n && Live(es, s, j) && View(es, s, n)[x] == (es[j].key, es[j].op.value)
  {
    if x < |View(es, s, n - 1)| {
      j := ViewOrigin(es, s, n - 1, x);
    } else {
      j := n - 1;
    }
  }

  /** Every user key once, in increasing order. */
  lemma {:induction false} ViewSorted(es: seq<Entry>, s: SeqNum, n: nat)
    requires n <= |es| && Sorted(es)
    ensures forall i, j :: 0 <= i < j < |View(es, s, n)| ==> View(es, s, n)[i].0 < View(es, s, n)[j].0
  {
    if n > 0 {
      ViewSorted(es, s, n - 1);
      var w := View(es, s, n - 1);
      if Live(es, s, n - 1) {
        forall i | 0 <= i < |w| ensures w[i].0 < es[n - 1].key {
          var j := ViewOrigin(es, s, n - 1, i);
          assert Less(es[j].Internal(), es[n - 1].Internal());
          assert Seen(es, s, j);
        }
      }
    }
  }

  /** The position in the view of the live entry `i`, or of the end. */
  ghost function At(es: seq<Entry>, s: SeqNum, i: nat): nat
    requires i <= |es|
  {
    |View(es, s, i)|
  }

  lemma {:induction false} NoneLive(es: seq<Entry>, s: SeqNum, a: nat, b: nat)
    requires a <= b <= |es|
    requires forall j :: a <= j < b ==> !Live(es, s, j)
    ensures View(es, s, b) == View(es, s, a)
  {
    if a < b {
      NoneLive(es, s, a, b - 1);
    }
  }

  lemma {:induction false} ViewPrefix(es: seq<Entry>, s: SeqNum, a: nat, b: nat)
    requires a <= b <= |es|
    ensures View(es, s, a) <= View(es, s, b)
  {
    if a < b {
      ViewPrefix(es, s, a, b - 1);
    }
  }

  lemma ViewAt(es: seq<Entry>, s: SeqNum, i: nat)
    requires i < |es| && Live(es, s, i)
    ensures At(es, s, i) < |View(es, s, |es|)|
    ensures View(es, s, |es|)[At(es, s, i)] == (es[i].key, es[i].op.value)
  {
    ViewPrefix(es, s, i + 1, |es|);
  }

  // ---------------------------------------------------------------- the iterator

  /** Which entries the forward scan hides: those of keys up to `skip`. */
  ghost predicate Hides(skip: Option<UserKey>, k: UserKey) {
    skip.Some? && k <= skip.value
  }

  /** The state of the forward scan at `p`: among the visible entries to come, it hides exactly those
      of the user key being left and those with a newer visible entry behind. */
  ghost predicate Scanning(es: seq<Entry>, s: SeqNum, p: nat, skip: Option<UserKey>, left: Option<UserKey>) {
    forall j :: p <= j < |es| && Seen(es, s, j) ==>
      && (left.Some? ==> left.value <= es[j].key)
      && (Hides(skip, es[j].key) <==>
            (left.Some? && es[j].key == left.value)
            || exists i :: 0 <= i < p && es[i].key == es[j].key && Seen(es, s, i))
  }

  /** What the scan finds out about the entry it stands on. */
  lemma ScanSays(es: seq<Entry>, s: SeqNum, p: nat, skip: Option<UserKey>, left: Option<UserKey>)
    requires p < |es| && Scanning(es, s, p, skip, left)
    ensures !Seen(es, s, p) || es[p].op.Delete? || Hides(skip, es[p].key) ==>
              Live(es, s, p) ==> Some(es[p].key) == left
    ensures Seen(es, s, p) && es[p].op.Put? && !Hides(skip, es[p].key) ==> Live(es, s, p) && Some(es[p].key) != left
  {
  }

  lemma ScanInvisible(es: seq<Entry>, s: SeqNum, p: nat, skip: Option<UserKey>, left: Option<UserKey>)
    requires p < |es| && Scanning(es, s, p, skip, left) && !Seen(es, s, p)
    ensures Scanning(es, s, p + 1, skip, left)
  {
    forall j | p + 1 <= j < |es| && Seen(es, s, j)
      ensures (exists i :: 0 <= i < p && es[i].key == es[j].key && Seen(es, s, i))
           <==> (exists i :: 0 <= i < p + 1 && es[i].key == es[j].key && Seen(es, s, i))
    {
    }
  }

  /** After a deletion, or a value that is hidden, the scan hides the rest of that key. */
  lemma ScanHidden(es: seq<Entry>, s: SeqNum, p: nat, skip: Option<UserKey>,
                   skip2: Option<UserKey>, left: Option<UserKey>)
    requires Sorted(es) && p < |es| && Scanning(es, s, p, skip, left) && Seen(es, s, p)
    requires skip2 == Some(es[p].key) || (skip2 == skip && Hides(skip, es[p].key))
    ensures Scanning(es, s, p + 1, skip2, left)
  {
    forall j | p + 1 <= j < |es| && Seen(es, s, j)
      ensures Hides(skip2, es[j].key) <==>
            (left.Some? && es[j].key == left.value)
            || exists i :: 0 <= i < p + 1 && es[i].key == es[j].key && Seen(es, s, i)
    {
      assert Less(es[p].Internal(), es[j].Internal());
      if i :| 0 <= i < p + 1 && es[i].key == es[j].key && Seen(es, s, i) {
        assert i < p ==> Less(es[i].Internal(), es[p].Internal());
      }
    }
  }

  /** What the backward scan remembers of the entries from `lo` up to `hi`: the only one that may be
      live, if it holds a value. */
  ghost predicate Remembered(es: seq<Entry>, s: SeqNum, lo: nat, hi: nat, m: Option<nat>) {
    && lo <= hi <= |es|
    && (forall j :: lo <= j < hi && LiveFrom(es, s, lo, j) ==> m == Some(j))
    && (m.Some? ==> lo <= m.value < hi && LiveFrom(es, s, lo, m.value)
                    && forall j :: lo <= j < m.value ==> !Seen(es, s, j))
  }

  lemma RememberInvisible(es: seq<Entry>, s: SeqNum, lo: nat, hi: nat, m: Option<nat>)
    requires 0 < lo && Remembered(es, s, lo, hi, m) && !Seen(es, s, lo - 1)
    ensures Remembered(es, s, lo - 1, hi, m)
  {
    forall j | lo - 1 <= j < hi && LiveFrom(es, s, lo - 1, j) ensures m == Some(j) {
      assert LiveFrom(es, s, lo, j);
    }
  }

  lemma RememberVisible(es: seq<Entry>, s: SeqNum, lo: nat, hi: nat, m: Option<nat>)
    requires Sorted(es) && 0 < lo && Remembered(es, s, lo, hi, m) && Seen(es, s, lo - 1)
    requires m.Some? ==> es[lo - 1].key == es[m.value].key
    ensures Remembered(es, s, lo - 1, hi, if es[lo - 1].op.Put? then Some(lo - 1) else None)
  {
    var m2 := if es[lo - 1].op.Put? then Some(lo - 1) else None;
    var p := lo - 1;
    forall j: nat | lo <= j < hi ensures !LiveFrom(es, s, p, j) {
      assert LiveFrom(es, s, p, j) ==> LiveFrom(es, s, lo, j);
    }
  }

  /** `m` is the last live entry before `hi`, or there is none. */
  ghost predicate LastLive(es: seq<Entry>, s: SeqNum, hi: nat, m: Option<nat>) {
    && hi <= |es|
    && (m.Some? ==> m.value < hi && Live(es, s, m.value))
    && forall j :: 0 <= j < hi && Live(es, s, j) ==> m.Some? && j <= m.value
  }

  lemma RememberedIsLast(es: seq<Entry>, s: SeqNum, lo: nat, hi: nat, m: Option<nat>)
    requires Sorted(es) && Remembered(es, s, lo, hi, m)
    requires lo == 0 || (m.Some? && es[lo - 1].key < es[m.value].key)
    ensures LastLive(es, s, hi, m)
  {
    if m.Some? && lo > 0 {
      forall i | 0 <= i < lo ensures es[i].key <= es[lo - 1].key {
        assert i < lo - 1 ==> Less(es[i].Internal(), es[lo - 1].Internal());
      }
    }
    forall j | 0 <= j < hi && Live(es, s, j) ensures m.Some? && j <= m.value {
      if j >= lo {
        assert LiveFrom(es, s, lo, j);
      }
    }
  }

  class DBIter {
    const iter: MergingIterator
    const sequence: SeqNum
    var savedKey: Option<UserKey>
    var savedValue: string
    var forward: bool
    var valid: bool
    /** The index of the current live entry; the number of entries if there is none. */
    ghost var index: nat

    /** Going forward the internal iterator stands on the current entry; going backward it stands
        before it, and only invisible entries lie between. */
    ghost predicate Valid()
      reads this, iter, iter.children
    {
      var es := iter.plan.all;
      && iter.Valid() && Sorted(es) && iter.pos <= |es|
      && (!valid ==> index == |es|)
      && (valid ==>
            && index < |es| && Live(es, sequence, index)
            && (forward ==> iter.pos == index)
            && (!forward ==>
                  && savedKey == Some(es[index].key) && es[index].op == Put(savedValue)
                  && Gap(es, iter.pos) <= index
                  && forall j :: Gap(es, iter.pos) <= j < index ==> !Seen(es, sequence, j)))
    }

    /** The position in the user's view. */
    ghost function Pos(): nat
      requires Valid()
      reads this, iter, iter.children
    {
      At(iter.plan.all, sequence, index)
    }

    ghost function Shown(): seq<(UserKey, string)>
      reads this, iter, iter.children
    {
      View(iter.plan.all, sequence, |iter.plan.all|)
    }

    constructor (iter: MergingIterator, s: SeqNum)
      requires iter.Valid()
      ensures Valid() && !valid && this.iter == iter && sequence == s
    {
      iter.Shows();
      this.iter, sequence := iter, s;
      savedKey, savedValue, forward, valid := None, "", true, false;
      index := |iter.plan.all|;
    }

    /** The key and value shown are those of the view at the current position. */
    method Current() returns (k: UserKey, v: string)
      requires Valid() && valid
      ensures Pos() < |Shown()| && Shown()[Pos()] == (k, v)
    {
      hide MergingIterator.Valid;
      ViewAt(iter.plan.all, sequence, index);
      iter.Shows();
      if forward {
        k, v := iter.Current().key, iter.Current().op.value;
      } else {
        k, v := savedKey.value, savedValue;
      }
    }

    /** Scans forward to the first entry to yield. */
    method FindNextUserEntry(skip: Option<UserKey>, ghost left: Option<UserKey>)
      requires iter.Valid() && iter.current.Some? && forward
      requires Scanning(iter.plan.all, sequence, iter.pos, skip, left)
      modifies this`savedKey, this`valid, this`index, iter, iter.children
      ensures Valid() && (valid <==> index < |iter.plan.all|)
      ensures old(iter.pos) <= index
      ensures forall j :: old(iter.pos) <= j < index && Live(iter.plan.all, sequence, j) ==>
                Some(iter.plan.all[j].key) == left
      ensures valid ==> Some(iter.plan.all[index].key) != left
    {
      hide MergingIterator.Valid, Sorted, View, Scanning, LiveFrom;
      ghost var es := iter.plan.all;
      iter.Shows();
      var hidden := skip;
      var more := true;
      while more
        invariant iter.Valid() && old(iter.pos) <= iter.pos <= |es| && (more <==> iter.current.Some?)
        invariant more <==> iter.pos < |es|
        invariant Scanning(es, sequence, iter.pos, hidden, left)
        invariant forall j :: old(iter.pos) <= j < iter.pos && Live(es, sequence, j) ==> Some(es[j].key) == left
        decreases |es| - iter.pos
      {
        iter.Shows();
        var e := iter.Current();
        ghost var p := iter.pos;
        ScanSays(es, sequence, p, hidden, left);
        if e.seqno <= sequence {
          if e.op.Delete? {
            ScanHidden(es, sequence, p, hidden, Some(e.key), left);
            hidden := Some(e.key);
          } else if hidden.Some? && e.key <= hidden.value {
            ScanHidden(es, sequence, p, hidden, hidden, left);
          } else {
            valid, savedKey := true, None;
            index := p;
            return;
          }
        } else {
          ScanInvisible(es, sequence, p, hidden, left);
        }
        iter.Next();
        iter.Shows();
        more := iter.current.Some?;
      }
      savedKey, valid := None, false;
      index := |es|;
    }

    /** The saved key and value are those of entry `m`. */
    ghost predicate Saves(es: seq<Entry>, isValue: bool, m: Option<nat>)
      reads this`savedKey, this`savedValue
    {
      && (isValue <==> m.Some?)
      && (m.Some? ==> m.value < |es| && savedKey == Some(es[m.value].key) && es[m.value].op == Put(savedValue))
    }

    /** Takes in one more entry on the way back, unless it belongs to another key than the saved one. */
    method Recall(e: Entry, isValue: bool, ghost es: seq<Entry>, ghost p: nat, ghost hi: nat, ghost m: Option<nat>)
      returns (stop: bool, isValue2: bool, ghost m2: Option<nat>)
      requires Sorted(es) && p < |es| && e == es[p] && Remembered(es, sequence, p + 1, hi, m) && Saves(es, isValue, m)
      modifies this`savedKey, this`savedValue
      ensures Saves(es, isValue2, m2)
      ensures !stop ==> Remembered(es, sequence, p, hi, m2)
      ensures stop ==> Remembered(es, sequence, p + 1, hi, m2) && m2.Some? && es[p].key < es[m2.value].key
    {
      stop, isValue2, m2 := false, isValue, m;
      if e.seqno <= sequence {
        if isValue && e.key < savedKey.value {
          stop := true;
          return;
        }
        assert m.Some? ==> p < m.value && Less(e.Internal(), es[m.value].Internal());
        RememberVisible(es, sequence, p + 1, hi, m);
        isValue2 := e.op.Put?;
        if isValue2 {
          savedKey, savedValue := Some(e.key), e.op.value;
          m2 := Some(p);
        } else {
          savedKey, savedValue := None, "";
          m2 := None;
        }
      } else {
        RememberInvisible(es, sequence, p + 1, hi, m);
      }
    }

    /** Scans backward over the entries of the previous live key. */
    method FindPrevUserEntry(ghost hi: nat)
      requires iter.Valid() && hi == Gap(iter.plan.all, iter.pos) && !forward
      modifies this`savedKey, this`savedValue, this`forward, this`valid, this`index, iter, iter.children
      ensures Valid() && (valid <==> index < |iter.plan.all|)
      ensures LastLive(iter.plan.all, sequence, hi, if valid then Some(index) else None)
    {
      hide MergingIterator.Valid, LastLive, View, LiveFrom, Sorted;
      ghost var es := iter.plan.all;
      var isValue := false;
      ghost var m: Option<nat> := None;
      iter.Shows();
      var stop := false;
      while iter.current.Some? && !stop
        invariant iter.Valid() && !forward && iter.pos <= |es| && (iter.current.None? <==> iter.pos == |es|)
        invariant Remembered(es, sequence, Gap(es, iter.pos), hi, m) && Saves(es, isValue, m)
        invariant stop ==> iter.pos < |es| && m.Some? && es[iter.pos].key < es[m.value].key
        decreases !stop, Gap(es, iter.pos)
      {
        iter.Shows();
        stop, isValue, m := Recall(iter.Current(), isValue, es, iter.pos, hi, m);
        if !stop {
          iter.Prev();
          iter.Shows();
        }
      }
      iter.Shows();
      Settle(isValue, hi, m);
    }

    /** What was found, if anything, is where the iterator is now. */
    method Settle(isValue: bool, ghost hi: nat, ghost m: Option<nat>)
      requires iter.Valid() && !forward && Sorted(iter.plan.all) && iter.pos <= |iter.plan.all|
      requires Saves(iter.plan.all, isValue, m)
      requires Remembered(iter.plan.all, sequence, Gap(iter.plan.all, iter.pos), hi, m)
      requires iter.pos < |iter.plan.all| ==> m.Some? && iter.plan.all[iter.pos].key < iter.plan.all[m.value].key
      modifies this`savedKey, this`savedValue, this`forward, this`valid, this`index
      ensures Valid() && (valid <==> index < |iter.plan.all|)
      ensures LastLive(iter.plan.all, sequence, hi, if valid then Some(index) else None)
    {
      hide MergingIterator.Valid;
      RememberedIsLast(iter.plan.all, sequence, Gap(iter.plan.all, iter.pos), hi, m);
      if !isValue {
        valid, savedKey, savedValue, forward := false, None, "", true;
        index := |iter.plan.all|;
      } else {
        valid := true;
        index := m.value;
      }
    }

    method Next()
      requires Valid() && valid
      modifies this`savedKey, this`valid, this`index, this`forward, iter, iter.children
      ensures Valid() && Pos() == old(Pos()) + 1
    {
      hide MergingIterator.Valid;
      ghost var es := iter.plan.all;
      ghost var i := index;
      iter.Shows();
      ghost var start := if forward then i else Gap(es, iter.pos);
      var left;
      if forward {
        left := iter.Current().key;
      } else {
        left := savedKey.value;
        forward := true;
        if iter.current.None? {
          iter.SeekToFirst();
        } else {
          iter.Next();
        }
      }
      iter.Shows();
      Leaving(es, sequence, start, i);
      savedKey := Some(left);
      FindNextUserEntry(Some(left), Some(left));
      NextLive(es, sequence, i, index);
    }

    method Prev()
      requires Valid() && valid
      modifies this`savedKey, this`savedValue, this`valid, this`index, this`forward, iter, iter.children
      ensures Valid() && (valid ==> old(Pos()) > 0 && Pos() == old(Pos()) - 1)
      ensures !valid ==> old(Pos()) == 0 && Pos() == |Shown()|
    {
      hide MergingIterator.Valid;
      ghost var es := iter.plan.all;
      ghost var i := index;
      iter.Shows();
      if forward {
        var k := iter.Current().key;
        savedKey := Some(k);
        while true
          invariant iter.Valid() && iter.current.Some? && iter.pos < |es| && iter.pos <= i && es[iter.pos].key == k
          invariant forall j :: iter.pos <= j < i ==> es[j].key == k
          decreases iter.pos
        {
          iter.Prev();
          iter.Shows();
          if iter.current.None? {
            NothingBetween(es, sequence, 0, i);
            NoneLive(es, sequence, 0, i);
            valid, savedKey, savedValue := false, None, "";
            index := |es|;
            return;
          }
          assert Less(es[iter.pos].Internal(), es[iter.pos + 1].Internal());
          if iter.Current().key < k {
            break;
          }
        }
        forward := false;
        NothingBetween(es, sequence, Gap(es, iter.pos), i);
      }
      ghost var hi := Gap(es, iter.pos);
      FindPrevUserEntry(hi);
      PrevLive(es, sequence, i, hi, if valid then Some(index) else None);
    }

    method Seek(target: UserKey)
      requires Valid()
      modifies this`savedKey, this`savedValue, this`valid, this`index, this`forward, iter, iter.children
      ensures Valid()
      ensures forall n :: 0 <= n < |Shown()| ==> (n < Pos() <==> Shown()[n].0 < target)
      ensures valid <==> Pos() < |Shown()|
    {
      hide MergingIterator.Valid;
      forward, savedValue, savedKey := true, "", None;
      ghost var es := iter.plan.all;
      iter.Seek(SeekKey(target, sequence));
      iter.Shows();
      ghost var p := iter.pos;
      SeekScans(es, sequence, target);
      if iter.current.Some? {
        FindNextUserEntry(None, None);
      } else {
        valid := false;
        index := |es|;
      }
      SeekLands(es, sequence, target, p, index);
    }

    method SeekToFirst()
      requires Valid()
      modifies this`savedKey, this`savedValue, this`valid, this`index, this`forward, iter, iter.children
      ensures Valid() && Pos() == 0 && (valid <==> Pos() < |Shown()|)
    {
      hide MergingIterator.Valid;
      forward, savedValue := true, "";
      ghost var es := iter.plan.all;
      iter.SeekToFirst();
      iter.Shows();
      if iter.current.Some? {
        FindNextUserEntry(None, None);
      } else {
        valid := false;
        index := |es|;
      }
      NoneLive(es, sequence, 0, index);
      if valid {
        ViewAt(es, sequence, index);
      }
    }

    method SeekToLast()
      requires Valid()
      modifies this`savedKey, this`savedValue, this`valid, this`index, this`forward, iter, iter.children
      ensures Valid() && Pos() == Final(|Shown()|) && (valid <==> Pos() < |Shown()|)
    {
      hide MergingIterator.Valid;
      forward, savedValue := false, "";
      ghost var es := iter.plan.all;
      iter.SeekToLast();
      iter.Shows();
      FindPrevUserEntry(|es|);
      ghost var m := if valid then Some(index) else None;
      if valid {
        NoneLive(es, sequence, index + 1, |es|);
      } else {
        NoneLive(es, sequence, 0, |es|);
      }
    }
  }

  /** The index of the entry after the internal iterator's position. */
  ghost function Gap(es: seq<Entry>, pos: nat): nat {
    if pos < |es| then pos + 1 else 0
  }

  /** Leaving the live entry `i`, with nothing visible between `start` and it. */
  lemma Leaving(es: seq<Entry>, s: SeqNum, start: nat, i: nat)
    requires Sorted(es) && start <= i < |es| && Live(es, s, i)
    requires forall j :: start <= j < i ==> !Seen(es, s, j)
    ensures Scanning(es, s, start, Some(es[i].key), Some(es[i].key))
  {
    forall j | start <= j < |es| && Seen(es, s, j)
      ensures es[i].key <= es[j].key
      ensures es[j].key <= es[i].key ==> es[j].key == es[i].key
      ensures (exists n :: 0 <= n < start && es[n].key == es[j].key && Seen(es, s, n)) ==> es[j].key == es[i].key
    {
      assert i < j ==> Less(es[i].Internal(), es[j].Internal());
      if n :| 0 <= n < start && es[n].key == es[j].key && Seen(es, s, n) {
        assert n < i ==> Less(es[n].Internal(), es[i].Internal());
      }
    }
  }

  lemma LiveKeysDiffer(es: seq<Entry>, s: SeqNum, i: nat, j: nat)
    requires i < |es| && j < |es| && Live(es, s, i) && Live(es, s, j) && es[i].key == es[j].key
    ensures i == j
  {
  }

  lemma NextLive(es: seq<Entry>, s: SeqNum, i: nat, n: nat)
    requires i < |es| && Live(es, s, i) && n <= |es|
    requires n < |es| ==> Live(es, s, n) && i < n
    requires forall j :: i < j < n ==> !Live(es, s, j)
    ensures At(es, s, n) == At(es, s, i) + 1
  {
    NoneLive(es, s, i + 1, n);
  }

  lemma NothingBetween(es: seq<Entry>, s: SeqNum, lo: nat, i: nat)
    requires i < |es| && Live(es, s, i) && lo <= i
    requires forall j :: lo <= j < i ==> es[j].key == es[i].key
    ensures forall j :: lo <= j < i ==> !Live(es, s, j)
  {
    forall j | lo <= j < i ensures !Live(es, s, j) {
      if Live(es, s, j) {
        LiveKeysDiffer(es, s, j, i);
      }
    }
  }

  lemma PrevLive(es: seq<Entry>, s: SeqNum, i: nat, hi: nat, m: Option<nat>)
    requires i < |es| && Live(es, s, i) && hi <= i && LastLive(es, s, hi, m)
    requires forall j :: hi <= j < i ==> !Live(es, s, j)
    ensures m.Some? ==> At(es, s, i) == At(es, s, m.value) + 1
    ensures m.None? ==> At(es, s, i) == 0
  {
    if m.Some? {
      NoneLive(es, s, m.value + 1, i);
    } else {
      NoneLive(es, s, 0, i);
    }
  }

  lemma SeekScans(es: seq<Entry>, s: SeqNum, target: UserKey)
    requires Sorted(es)
    ensures Scanning(es, s, FirstAtOrAfter(es, SeekKey(target, s)), None, None)
  {
    var p := FirstAtOrAfter(es, SeekKey(target, s));
    forall j, i | p <= j < |es| && 0 <= i < p && es[i].key == es[j].key ensures !Seen(es, s, i) {
      assert Less(es[i].Internal(), SeekKey(target, s));
      assert p < j ==> Less(es[p].Internal(), es[j].Internal());
    }
  }

  lemma SeekLands(es: seq<Entry>, s: SeqNum, target: UserKey, p: nat, n: nat)
    requires Sorted(es) && p == FirstAtOrAfter(es, SeekKey(target, s))
    requires p <= n <= |es| && (n < |es| ==> Live(es, s, n)) && forall j :: p <= j < n ==> !Live(es, s, j)
    ensures At(es, s, n) <= |View(es, s, |es|)| && (At(es, s, n) < |View(es, s, |es|)| <==> n < |es|)
    ensures forall x :: 0 <= x < |View(es, s, |es|)| ==> (x < At(es, s, n) <==> View(es, s, |es|)[x].0 < target)
  {
    var w := View(es, s, |es|);
    ViewPrefix(es, s, n, |es|);
    forall x | 0 <= x < At(es, s, n) ensures w[x].0 < target {
      var j := ViewOrigin(es, s, n, x);
      assert j < p;
      assert Less(es[j].Internal(), SeekKey(target, s));
    }
    if n < |es| {
      ViewAt(es, s, n);
      ViewSorted(es, s, |es|);
      assert p < n ==> Less(es[p].Internal(), es[n].Internal());
      assert w[At(es, s, n)].0 >= target;
    }
  }
}
