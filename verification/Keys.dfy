/** Entries and what a read is. */
module Keys {
  // The store is a multi-version map: each write leaves an entry `(user key, sequence number, op)`, and a
  // read of key `k` at snapshot `s` is decided by the newest entry of `k` whose sequence number is at most
  // `s`.  The user comparator is pluggable and only its order matters, so a user key is represented by its
  // rank in that order.

  datatype Option<+T> = None | Some(value: T)

  /** The largest sequence number: eight of the 64 bits are left for the type. */
  const MAX_SEQ: nat := 0xff_ffff_ffff_ffff

  type UserKey = int
  type SeqNum = s: nat | s <= MAX_SEQ

  datatype Op = Delete | Put(value: string)
  {
    /** The value type stored in the low eight bits of an internal key's tag. */
    function Type(): nat { if Put? then 1 else 0 }

    /** What a reader gets from this entry: a deletion reads as "not found". */
    function Result(): Option<string> { if Put? then Some(value) else None }
  }

  datatype Entry = Entry(key: UserKey, seqno: SeqNum, op: Op)
  {
    function Internal(): IKey { IKey(key, Pack(seqno, op.Type())) }
  }

  /** An internal key: user key plus the packed sequence number and type. */
  datatype IKey = IKey(key: UserKey, tag: nat)

  function Pack(seqno: SeqNum, t: nat): nat
    requires t <= 1
  {
    seqno * 256 + t
  }

  /** Increasing user key, then decreasing tag. */
  predicate Less(a: IKey, b: IKey) {
    a.key < b.key || (a.key == b.key && a.tag > b.tag)
  }

  /** The probe for `k` at snapshot `s`; kValueTypeForSeek is the highest type. */
  function SeekKey(k: UserKey, s: SeqNum): IKey {
    IKey(k, Pack(s, 1))
  }

  /** Strictly increasing internal keys: the order inside memtables and table files. */
  ghost predicate Sorted(es: seq<Entry>) {
    forall i, j :: 0 <= i < j < |es| ==> Less(es[i].Internal(), es[j].Internal())
  }

  ghost function Elems(es: seq<Entry>): set<Entry> {
    set e | e in es
  }

  // ---------------------------------------------------------------- the multi-version map

  /** A sequence number is given to one write only. */
  ghost predicate Distinct(E: set<Entry>) {
    forall d, e :: d in E && e in E && d.key == e.key && d.seqno == e.seqno ==> d == e
  }

  ghost predicate Visible(E: set<Entry>, k: UserKey, s: nat, e: Entry) {
    e in E && e.key == k && e.seqno <= s
  }

  ghost predicate Newest(E: set<Entry>, k: UserKey, s: nat, e: Entry) {
    && Visible(E, k, s, e)
    && forall d :: Visible(E, k, s, d) ==> d.seqno <= e.seqno
  }

  /** The value of `k` at snapshot `s`. */
  ghost function Read(E: set<Entry>, k: UserKey, s: nat): Option<string> {
    if exists e :: Newest(E, k, s, e) then
      var e :| Newest(E, k, s, e);
      e.op.Result()
    else
      None
  }

  /** Every entry of `A` is newer than every entry of `B` for the same user key. */
  ghost predicate AllNewer(A: set<Entry>, B: set<Entry>) {
    forall a, b :: a in A && b in B && a.key == b.key ==> a.seqno > b.seqno
  }

  lemma ReadOf(E: set<Entry>, k: UserKey, s: nat, e: Entry)
    requires Distinct(E)
    requires Newest(E, k, s, e)
    ensures Read(E, k, s) == e.op.Result()
  {
    assert exists d :: Newest(E, k, s, d);
    forall d | Newest(E, k, s, d) ensures d == e {
      assert Visible(E, k, s, d) && Visible(E, k, s, e);
    }
  }

  lemma {:induction false} NewestExists(E: set<Entry>, k: UserKey, s: nat)
    requires exists d :: Visible(E, k, s, d)
    ensures exists e :: Newest(E, k, s, e)
  {
    var d :| Visible(E, k, s, d);
    var rest := E - {d};
    if exists x :: Visible(rest, k, s, x) {
      NewestExists(rest, k, s);
      var m :| Newest(rest, k, s, m);
      if m.seqno < d.seqno {
        forall x | Visible(E, k, s, x) ensures x.seqno <= d.seqno {
          assert x == d || Visible(rest, k, s, x);
        }
        assert Newest(E, k, s, d);
      } else {
        forall x | Visible(E, k, s, x) ensures x.seqno <= m.seqno {
          assert x == d || Visible(rest, k, s, x);
        }
        assert Newest(E, k, s, m);
      }
    } else {
      forall x | Visible(E, k, s, x) ensures x.seqno <= d.seqno {
        assert x == d || Visible(rest, k, s, x);
      }
      assert Newest(E, k, s, d);
    }
  }

  /** A read finds nothing, or is answered by one newest entry. */
  lemma ReadCases(E: set<Entry>, k: UserKey, s: nat)
    requires Distinct(E)
    ensures (forall d :: !Visible(E, k, s, d)) ==> Read(E, k, s) == None
    ensures (exists d :: Visible(E, k, s, d)) ==>
              exists e :: Newest(E, k, s, e) && Read(E, k, s) == e.op.Result()
  {
    if exists d :: Visible(E, k, s, d) {
      NewestExists(E, k, s);
      var e :| Newest(E, k, s, e);
      ReadOf(E, k, s, e);
    }
  }

  /** Searching a newer part first is sound: if it shows anything, the older part is irrelevant;
      otherwise the older part decides. */
  lemma ReadSplit(A: set<Entry>, B: set<Entry>, k: UserKey, s: nat)
    requires Distinct(A + B) && AllNewer(A, B)
    ensures (exists d :: Visible(A, k, s, d)) ==> Read(A + B, k, s) == Read(A, k, s)
    ensures (forall d :: !Visible(A, k, s, d)) ==> Read(A + B, k, s) == Read(B, k, s)
  {
    assert Distinct(A) && Distinct(B);
    ReadCases(A, k, s);
    ReadCases(B, k, s);
    if exists d :: Visible(A, k, s, d) {
      var e :| Newest(A, k, s, e) && Read(A, k, s) == e.op.Result();
      forall x | Visible(A + B, k, s, x) ensures x.seqno <= e.seqno {
        assert x in B || Visible(A, k, s, x);
      }
      assert Newest(A + B, k, s, e);
      ReadOf(A + B, k, s, e);
    } else {
      forall x ensures Visible(A + B, k, s, x) <==> Visible(B, k, s, x) {
        assert Visible(A + B, k, s, x) && x in A ==> Visible(A, k, s, x);
      }
      if exists d :: Visible(B, k, s, d) {
        var e :| Newest(B, k, s, e) && Read(B, k, s) == e.op.Result();
        assert Newest(A + B, k, s, e);
        ReadOf(A + B, k, s, e);
      } else {
        ReadCases(A + B, k, s);
      }
    }
  }

  /** The order of tags agrees with the order of sequence numbers when a sequence number names one
      entry. */
  lemma LessIsNewer(E: set<Entry>, d: Entry, e: Entry)
    requires Distinct(E) && d in E && e in E && d.key == e.key
    ensures Less(d.Internal(), e.Internal()) <==> d.seqno > e.seqno
  {
  }
}
