/** Memtables as sorted runs, and the table written from one. */
module MemTables {
  import opened Keys
  import opened Versions
  import opened Lsm

  /** Inserts one entry into a sorted memtable. */
  method InsertEntry(mem: seq<Entry>, e: Entry) returns (r: seq<Entry>)
    requires Sorted(mem) && forall d :: d in mem ==> d.Internal() != e.Internal()
    ensures Sorted(r) && Elems(r) == Elems(mem) + {e}
  {
    var i := 0;
    while i < |mem| && Less(mem[i].Internal(), e.Internal())
      invariant i <= |mem|
      invariant forall j :: 0 <= j < i ==> Less(mem[j].Internal(), e.Internal())
    {
      i := i + 1;
    }
    r := mem[..i] + [e] + mem[i..];
    InsertedSorted(mem, e, i);
  }

  lemma InsertedSorted(mem: seq<Entry>, e: Entry, i: nat)
    requires Sorted(mem) && i <= |mem| && forall d :: d in mem ==> d.Internal() != e.Internal()
    requires forall j :: 0 <= j < i ==> Less(mem[j].Internal(), e.Internal())
    requires i < |mem| ==> !Less(mem[i].Internal(), e.Internal())
    ensures var r := mem[..i] + [e] + mem[i..]; Sorted(r) && Elems(r) == Elems(mem) + {e}
  {
    InsertedElems(mem, e, i);
    forall j | i <= j < |mem| ensures Less(e.Internal(), mem[j].Internal()) {
      assert i < j ==> Less(mem[i].Internal(), mem[j].Internal());
      assert mem[j] in mem;
    }
    Between(mem, e, i);
  }

  lemma Between(mem: seq<Entry>, e: Entry, i: nat)
    requires Sorted(mem) && i <= |mem| && forall j :: 0 <= j < i ==> Less(mem[j].Internal(), e.Internal())
    requires forall j :: i <= j < |mem| ==> Less(e.Internal(), mem[j].Internal())
    ensures Sorted(mem[..i] + [e] + mem[i..])
  {
    var r := mem[..i] + [e] + mem[i..];
    forall p, q | 0 <= p < q < |r| ensures Less(r[p].Internal(), r[q].Internal()) {
      hide Less;
      assert r[p] == if p < i then mem[p] else if p == i then e else mem[p - 1];
      assert r[q] == if q < i then mem[q] else if q == i then e else mem[q - 1];
    }
  }

  lemma InsertedElems(mem: seq<Entry>, e: Entry, i: nat)
    requires i <= |mem|
    ensures Elems(mem[..i] + [e] + mem[i..]) == Elems(mem) + {e}
  {
    assert mem == mem[..i] + mem[i..];
  }

  /** BuildTable: writes a sorted run of entries, tracking its first and last key. */
  method BuildTable(es: seq<Entry>, number: nat) returns (f: File)
    requires es != [] && Sorted(es)
    ensures FileOk(f) && f.entries == es && f.number == number
  {
    var smallest := es[0].Internal();
    var largest := smallest;
    var i := 0;
    while i < |es|
      invariant i <= |es|
      invariant largest == if i == 0 then smallest else es[i - 1].Internal()
    {
      largest := es[i].Internal();
      i := i + 1;
    }
    var size: nat := *;
    f := File(number, size, smallest, largest, es);
  }

  /** MemTableInserter: inserts a batch under consecutive sequence numbers. */
  method InsertBatch(mem: seq<Entry>, batch: seq<(UserKey, Op)>, first: nat) returns (r: seq<Entry>)
    requires Sorted(mem) && first + |batch| <= MAX_SEQ && forall e :: e in mem ==> e.seqno < first
    ensures Sorted(r) && Elems(r) == Elems(mem) + BatchEntries(batch, first)
  {
    r := mem;
    var sequence := first;
    var i := 0;
    while i < |batch|
      invariant i <= |batch| && sequence == first + i
      invariant Sorted(r) && Elems(r) == Elems(mem) + BatchEntries(batch[..i], first)
    {
      var e := Entry(batch[i].0, sequence, batch[i].1);
      BatchStep(batch, first, i);
      forall d | d in r ensures d.Internal() != e.Internal() {
        assert d in Elems(r);
      }
      r := InsertEntry(r, e);
      sequence := sequence + 1;
      i := i + 1;
    }
    assert batch[..|batch|] == batch;
  }

  lemma BatchStep(batch: seq<(UserKey, Op)>, first: nat, i: nat)
    requires i < |batch| && first + |batch| <= MAX_SEQ
    ensures BatchEntries(batch[..i + 1], first) ==
            BatchEntries(batch[..i], first) + {Entry(batch[i].0, first + i, batch[i].1)}
    ensures forall e :: e in BatchEntries(batch[..i], first) ==> e.seqno < first + i
  {
    var A, B := BatchEntries(batch[..i + 1], first), BatchEntries(batch[..i], first);
    forall e ensures e in A <==> e in B || e == Entry(batch[i].0, first + i, batch[i].1) {
      if e in A {
        var j :| 0 <= j < i + 1 && e == Entry(batch[..i + 1][j].0, first + j, batch[..i + 1][j].1);
        if j < i {
          assert batch[..i][j] == batch[j];
        }
      }
      if e in B {
        var j :| 0 <= j < i && e == Entry(batch[..i][j].0, first + j, batch[..i][j].1);
        assert batch[..i + 1][j] == batch[j];
      }
      assert batch[..i + 1][i] == batch[i];
    }
  }
}
