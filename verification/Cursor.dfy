/** Cursors over sorted runs of entries.  Every iterator of the store is specified as one of these: an
    index into a sorted sequence, where the index one past the end stands for "not valid". */
module Cursors {
  import opened Keys
  import opened Lookup

  /** Stepping back from the first entry leaves the cursor invalid. */
  function Back(n: nat, pos: nat): nat {
    if pos == 0 then n else pos - 1
  }

  /** The last position, or "not valid" when there is none. */
  function Final(n: nat): nat {
    if n == 0 then 0 else n - 1
  }

  class Cursor {
    const items: seq<Entry>
    var pos: nat

    constructor (items: seq<Entry>)
      ensures this.items == items && pos == |items|
    {
      this.items := items;
      pos := |items|;
    }

    predicate Valid()
      reads this
    {
      pos < |items|
    }

    function Current(): Entry
      requires Valid()
      reads this
    {
      items[pos]
    }

    method SeekToFirst()
      modifies this`pos
      ensures pos == 0
    {
      pos := 0;
    }

    method SeekToLast()
      modifies this`pos
      ensures pos == Final(|items|)
    {
      pos := if |items| == 0 then 0 else |items| - 1;
    }

    method Seek(target: IKey)
      modifies this`pos
      ensures pos == FirstAtOrAfter(items, target)
    {
      pos := FirstAtOrAfter(items, target);
    }

    method Next()
      requires Valid()
      modifies this`pos
      ensures pos == old(pos) + 1
    {
      pos := pos + 1;
    }

    method Prev()
      requires Valid()
      modifies this`pos
      ensures pos == Back(|items|, old(pos))
    {
      pos := if pos == 0 then |items| else pos - 1;
    }
  }

  // ---------------------------------------------------------------- positions in a part of a run

  /** How many entries of the run `part` come before position `p` of the run `all`. */
  ghost function Rank(part: seq<Entry>, all: seq<Entry>, p: nat): (r: nat)
    ensures r <= |part|
  {
    if p < |all| then FirstAtOrAfter(part, all[p].Internal()) else |part|
  }

  ghost predicate PartOf(part: seq<Entry>, all: seq<Entry>) {
    Sorted(part) && Sorted(all) && Elems(part) <= Elems(all)
  }

  lemma OrderIs(all: seq<Entry>, p: nat, q: nat)
    requires Sorted(all) && p < |all| && q < |all|
    ensures Less(all[p].Internal(), all[q].Internal()) <==> p < q
    ensures all[p] == all[q] <==> p == q
  {
    assert q < p ==> Less(all[q].Internal(), all[p].Internal());
  }

  /** Exactly the entries below the rank come before the position. */
  lemma RankSplits(part: seq<Entry>, all: seq<Entry>, p: nat, j: nat)
    requires Sorted(part) && p < |all| && j < |part|
    ensures j < Rank(part, all, p) <==> Less(part[j].Internal(), all[p].Internal())
  {
    var r := Rank(part, all, p);
    assert r < j ==> Less(part[r].Internal(), part[j].Internal());
  }

  lemma IndexIn(part: seq<Entry>, all: seq<Entry>, j: nat) returns (q: nat)
    requires PartOf(part, all) && j < |part|
    ensures q < |all| && all[q] == part[j]
  {
    assert part[j] in Elems(part);
    q :| 0 <= q < |all| && all[q] == part[j];
  }

  lemma RankMoves(part: seq<Entry>, all: seq<Entry>, p: nat, j: nat)
    requires PartOf(part, all) && p < |all| && j < |part|
    ensures j < Rank(part, all, p + 1) <==> j < Rank(part, all, p) || part[j] == all[p]
  {
    var q := IndexIn(part, all, j);
    RankSplits(part, all, p, j);
    OrderIs(all, q, p);
    if p + 1 < |all| {
      RankSplits(part, all, p + 1, j);
      OrderIs(all, q, p + 1);
    }
  }

  /** One position further, the rank grows by one exactly if the part holds the entry passed. */
  lemma RankStep(part: seq<Entry>, all: seq<Entry>, p: nat)
    requires PartOf(part, all) && p < |all|
    ensures Rank(part, all, p + 1) == Rank(part, all, p) + (if all[p] in part then 1 else 0)
    ensures all[p] in part <==> Rank(part, all, p) < |part| && part[Rank(part, all, p)] == all[p]
  {
    var r, r2 := Rank(part, all, p), Rank(part, all, p + 1);
    if r < |part| {
      RankMoves(part, all, p, r);
    }
    if r2 < |part| {
      RankMoves(part, all, p, r2);
    }
    if r + 1 < |part| {
      RankMoves(part, all, p, r + 1);
      OrderIs(part, r, r + 1);
    }
    if all[p] in part {
      var j :| 0 <= j < |part| && part[j] == all[p];
      RankMoves(part, all, p, j);
      RankSplits(part, all, p, j);
      OrderIs(part, r, j);
    }
  }

  lemma RankEnds(part: seq<Entry>, all: seq<Entry>)
    requires PartOf(part, all)
    ensures Rank(part, all, 0) == 0 && Rank(part, all, |all|) == |part|
  {
    if part != [] {
      var q := IndexIn(part, all, 0);
      RankSplits(part, all, 0, 0);
      OrderIs(all, q, 0);
    }
  }

  lemma SeekSplits(part: seq<Entry>, all: seq<Entry>, target: IKey, j: nat)
    requires PartOf(part, all) && j < |part|
    ensures j < Rank(part, all, FirstAtOrAfter(all, target)) <==> Less(part[j].Internal(), target)
  {
    var p := FirstAtOrAfter(all, target);
    var q := IndexIn(part, all, j);
    if p < |all| {
      RankSplits(part, all, p, j);
      OrderIs(all, q, p);
    }
  }

  /** Seeking the part and seeking the whole run agree. */
  lemma RankOfSeek(part: seq<Entry>, all: seq<Entry>, target: IKey)
    requires PartOf(part, all)
    ensures Rank(part, all, FirstAtOrAfter(all, target)) == FirstAtOrAfter(part, target)
  {
    var x, r := Rank(part, all, FirstAtOrAfter(all, target)), FirstAtOrAfter(part, target);
    if x < |part| {
      SeekSplits(part, all, target, x);
    }
    if r < |part| {
      SeekSplits(part, all, target, r);
    }
  }
}
