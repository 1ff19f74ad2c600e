/** Keys as bytes. */
module Comparators {
  // The shortened keys that separate the blocks of a table lie between their neighbours.

  import opened Keys
  import opened Bytes
  import opened Coding
  import opened BlockIters

  // ---------------------------------------------------------------- byte-wise order

  predicate BytesLess(a: seq<Byte>, b: seq<Byte>) {
    b != [] && (a == [] || a[0] < b[0] || (a[0] == b[0] && BytesLess(a[1..], b[1..])))
  }

  lemma {:induction false} BytesTransitive(a: seq<Byte>, b: seq<Byte>, c: seq<Byte>)
    requires BytesLess(a, b) && BytesLess(b, c)
    ensures BytesLess(a, c)
  {
    if a != [] && a[0] == b[0] && b[0] == c[0] {
      BytesTransitive(a[1..], b[1..], c[1..]);
    }
  }

  lemma {:induction false} BytesTotal(a: seq<Byte>, b: seq<Byte>)
    ensures BytesLess(a, b) || a == b || BytesLess(b, a)
    ensures !(BytesLess(a, b) && BytesLess(b, a)) && !BytesLess(a, a)
  {
    if a != [] && b != [] {
      BytesTotal(a[1..], b[1..]);
      assert a == [a[0]] + a[1..] && b == [b[0]] + b[1..];
    }
    if a != [] {
      BytesTotal(a[1..], a[1..]);
    }
  }

  /** The first difference decides. */
  lemma {:induction false} FirstDifference(a: seq<Byte>, b: seq<Byte>, i: nat)
    requires i < |a| && i < |b| && a[..i] == b[..i] && a[i] != b[i]
    ensures BytesLess(a, b) <==> a[i] < b[i]
  {
    if i > 0 {
      assert a[0] == a[..i][0] && b[0] == b[..i][0];
      assert a[1..][..i - 1] == a[..i][1..] && b[1..][..i - 1] == b[..i][1..];
      FirstDifference(a[1..], b[1..], i - 1);
    }
  }

  /** A key in [start, limit) that may be shorter: unchanged, or strictly between the two. */
  method FindShortestSeparator(start: seq<Byte>, limit: seq<Byte>) returns (r: seq<Byte>)
    ensures |r| <= |start| && (r == start || (BytesLess(start, r) && BytesLess(r, limit)))
  {
    hide BytesLess;
    r := start;
    var minLength := if |start| < |limit| then |start| else |limit|;
    var diff := 0;
    while diff < minLength && start[diff] == limit[diff]
      invariant diff <= minLength && start[..diff] == limit[..diff]
    {
      assert start[..diff + 1] == start[..diff] + [start[diff]] && limit[..diff + 1] == limit[..diff] + [limit[diff]];
      diff := diff + 1;
    }
    if diff < minLength {
      if start[diff] < 255 && start[diff] + 1 < limit[diff] {
        r := start[diff := start[diff] + 1][..diff + 1];
        assert r[..diff] == start[..diff];
        FirstDifference(start, r, diff);
        FirstDifference(r, limit, diff);
      }
    }
  }

  /** A key at or after the given one that may be shorter. */
  method FindShortSuccessor(key: seq<Byte>) returns (r: seq<Byte>)
    ensures |r| <= |key| && (r == key || BytesLess(key, r))
    ensures r == key ==> forall i :: 0 <= i < |key| ==> key[i] == 255
  {
    hide BytesLess;
    r := key;
    var i := 0;
    while i < |key|
      invariant i <= |key| && forall j :: 0 <= j < i ==> key[j] == 255
    {
      if key[i] != 255 {
        r := key[i := key[i] + 1][..i + 1];
        assert r[..i] == key[..i] && r[i] != key[i];
        FirstDifference(key, r, i);
        return;
      }
      i := i + 1;
    }
  }

  // ---------------------------------------------------------------- internal keys

  const MAX_TAG: U64 := 0x00ff_ffff_ffff_ffff * 0x100 + 1

  function ExtractUserKey(k: seq<Byte>): seq<Byte> {
    if |k| >= 8 then k[..|k| - 8] else []
  }

  function ExtractTag(k: seq<Byte>): U64 {
    if |k| >= 8 then DecodeFixed64(k[|k| - 8..]) else 0
  }

  /** User key ascending, then sequence number and type descending. */
  predicate InternalLess(a: seq<Byte>, b: seq<Byte>) {
    BytesLess(ExtractUserKey(a), ExtractUserKey(b))
        || (ExtractUserKey(a) == ExtractUserKey(b) && ExtractTag(a) > ExtractTag(b))
  }

  lemma InternalTransitive()
    ensures Transitive(InternalLess)
  {
    hide BytesLess, ExtractUserKey, ExtractTag;
    forall a, b, c | InternalLess(a, b) && InternalLess(b, c) ensures InternalLess(a, c) {
      if BytesLess(ExtractUserKey(a), ExtractUserKey(b)) && BytesLess(ExtractUserKey(b), ExtractUserKey(c)) {
        BytesTransitive(ExtractUserKey(a), ExtractUserKey(b), ExtractUserKey(c));
      }
    }
  }

  /** Two internal keys are the same or one comes first. */
  lemma InternalTotal(a: seq<Byte>, b: seq<Byte>)
    requires |a| >= 8 && |b| >= 8
    ensures InternalLess(a, b) || a == b || InternalLess(b, a)
    ensures !(InternalLess(a, b) && InternalLess(b, a))
  {
    hide BytesLess;
    BytesTotal(ExtractUserKey(a), ExtractUserKey(b));
    if ExtractUserKey(a) == ExtractUserKey(b) && ExtractTag(a) == ExtractTag(b) {
      TagIsBytes(a[|a| - 8..], b[|b| - 8..]);
      assert a == ExtractUserKey(a) + a[|a| - 8..] && b == ExtractUserKey(b) + b[|b| - 8..];
    }
  }

  lemma WordIsBytes(s: seq<Byte>, t: seq<Byte>)
    requires |s| >= 4 && |t| >= 4 && DecodeFixed32(s) == DecodeFixed32(t)
    ensures s[..4] == t[..4]
  {
    assert s[0] == t[0] && s[1] == t[1] && s[2] == t[2] && s[3] == t[3];
  }

  lemma TagIsBytes(s: seq<Byte>, t: seq<Byte>)
    requires |s| == 8 && |t| == 8 && DecodeFixed64(s) == DecodeFixed64(t)
    ensures s == t
  {
    hide DecodeFixed32;
    WordIsBytes(s, t);
    WordIsBytes(s[4..], t[4..]);
    assert s == s[..4] + s[4..][..4] && t == t[..4] + t[4..][..4];
  }

  lemma TagOf(user: seq<Byte>, v: U64)
    ensures ExtractUserKey(user + Fixed64(v)) == user && ExtractTag(user + Fixed64(v)) == v
  {
    hide DecodeFixed64, Fixed64;
    Fixed64RoundTrip(v, []);
    var k := user + Fixed64(v);
    assert k[..|k| - 8] == user && k[|k| - 8..] == Fixed64(v) == Fixed64(v) + [];
  }

  /** Shortened only to a user key strictly between the two. */
  ghost predicate Separates(r: seq<Byte>, start: seq<Byte>, limit: seq<Byte>) {
    || r == start
    || (&& BytesLess(ExtractUserKey(start), ExtractUserKey(r))
        && BytesLess(ExtractUserKey(r), ExtractUserKey(limit)))
  }

  method InternalSeparator(start: seq<Byte>, limit: seq<Byte>) returns (r: seq<Byte>)
    requires |start| >= 8 && |limit| >= 8
    ensures 8 <= |r| <= |start|
    ensures Separates(r, start, limit)
  {
    hide BytesLess;
    r := start;
    var tmp := FindShortestSeparator(ExtractUserKey(start), ExtractUserKey(limit));
    if |tmp| < |ExtractUserKey(start)| && BytesLess(ExtractUserKey(start), tmp) {
      r := tmp + Fixed64(MAX_TAG);
      TagOf(tmp, MAX_TAG);
    }
  }

  method InternalSuccessor(key: seq<Byte>) returns (r: seq<Byte>)
    requires |key| >= 8
    ensures 8 <= |r| <= |key|
    ensures r == key || BytesLess(ExtractUserKey(key), ExtractUserKey(r))
  {
    hide BytesLess;
    r := key;
    var tmp := FindShortSuccessor(ExtractUserKey(key));
    if |tmp| < |ExtractUserKey(key)| && BytesLess(ExtractUserKey(key), tmp) {
      r := tmp + Fixed64(MAX_TAG);
      TagOf(tmp, MAX_TAG);
    }
  }
}
