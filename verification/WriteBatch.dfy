/** Write batches as bytes. */
module WriteBatches {
  import opened Keys
  import opened Bytes
  import opened Coding

  const HEADER: nat := 12

  /** The operations a batch hands to its handler. */
  datatype BatchOp = Put(key: seq<Byte>, value: seq<Byte>) | Delete(key: seq<Byte>)

  function OpBytes(op: BatchOp): (r: seq<Byte>)
    ensures r != []
  {
    match op
    case Put(key, value) => [1] + (Prefixed(key) + Prefixed(value))
    case Delete(key) => [0] + Prefixed(key)
  }

  function OpsBytes(ops: seq<BatchOp>): seq<Byte> {
    if ops == [] then [] else OpBytes(ops[0]) + OpsBytes(ops[1..])
  }

  lemma {:induction false} OpsAppend(a: seq<BatchOp>, b: seq<BatchOp>)
    ensures OpsBytes(a + b) == OpsBytes(a) + OpsBytes(b)
  {
    if a == [] {
      assert a + b == b;
    } else {
      assert (a + b)[1..] == a[1..] + b;
      OpsAppend(a[1..], b);
    }
  }

  ghost predicate OpFits(op: BatchOp) {
    |op.key| < 0x1_0000_0000 && (op.Put? ==> |op.value| < 0x1_0000_0000)
  }

  /** How an iteration ended, after handing out `ops`. */
  datatype Iterated = Done(ops: seq<BatchOp>) | Bad(ops: seq<BatchOp>, what: string)

  /** One operation from the input: the operation and what is left, or the error. */
  datatype Step = Handled(op: BatchOp, rest: seq<Byte>) | Broken(what: string)

  function ReadOp(input: seq<Byte>): Step
    requires input != []
  {
    if input[0] == 1 then
      match ReadPrefixed(input[1..])
      case None => Broken("bad WriteBatch Put")
      case Some(k) =>
        match ReadPrefixed(input[1..][k.used..])
        case None => Broken("bad WriteBatch Put")
        case Some(v) => Handled(BatchOp.Put(k.data, v.data), input[1..][k.used..][v.used..])
    else if input[0] == 0 then
      match ReadPrefixed(input[1..])
      case None => Broken("bad WriteBatch Delete")
      case Some(k) => Handled(BatchOp.Delete(k.data), input[1..][k.used..])
    else Broken("unknown WriteBatch tag")
  }

  lemma OpShrinks(input: seq<Byte>)
    requires input != []
    ensures ReadOp(input).Handled? ==> |ReadOp(input).rest| < |input|
  {
  }

  /** Everything the handler is called with, and the error that ends it early. */
  function ReadOps(input: seq<Byte>): (seq<BatchOp>, Option<string>)
    decreases |input|
  {
    if input == [] then ([], None)
    else
      match ReadOp(input)
      case Broken(m) => ([], Some(m))
      case Handled(op, rest) =>
        OpShrinks(input);
        var more := ReadOps(rest);
        ([op] + more.0, more.1)
  }

  lemma OpRead(op: BatchOp, rest: seq<Byte>)
    requires OpFits(op)
    ensures ReadOp(OpBytes(op) + rest) == Handled(op, rest)
  {
    var input := OpBytes(op) + rest;
    hide Prefixed, ReadPrefixed;
    match op {
      case Put(key, value) =>
        assert input[1..] == Prefixed(key) + (Prefixed(value) + rest);
        PrefixedRoundTrip(key, Prefixed(value) + rest);
        assert input[1..][|Prefixed(key)|..] == Prefixed(value) + rest;
        PrefixedRoundTrip(value, rest);
        assert (Prefixed(value) + rest)[|Prefixed(value)|..] == rest;
      case Delete(key) =>
        assert input[1..] == Prefixed(key) + rest;
        PrefixedRoundTrip(key, rest);
        assert input[1..][|Prefixed(key)|..] == rest;
    }
  }

  /** Iterating over encoded operations yields them. */
  lemma {:induction false} OpsRead(ops: seq<BatchOp>)
    requires forall op :: op in ops ==> OpFits(op)
    ensures ReadOps(OpsBytes(ops)) == (ops, None)
  {
    if ops != [] {
      hide OpBytes, ReadOp, OpFits;
      OpRead(ops[0], OpsBytes(ops[1..]));
      OpsRead(ops[1..]);
      assert [ops[0]] + ops[1..] == ops;
    }
  }

  class WriteBatch {
    var rep: seq<Byte>
    ghost var ops: seq<BatchOp>
    ghost var sequence: U64

    /** The representation is the header followed by the operations. */
    ghost predicate Valid()
      reads this
    {
      && |ops| < 0x1_0000_0000 && (forall op :: op in ops ==> OpFits(op))
      && rep == Fixed64(sequence) + Fixed32(|ops|) + OpsBytes(ops)
    }

    constructor ()
      ensures Valid() && ops == [] && sequence == 0
    {
      rep := Fixed64(0) + Fixed32(0);
      ops, sequence := [], 0;
    }

    method Count() returns (n: nat)
      requires Valid()
      ensures n == |ops|
    {
      Slices(Fixed64(sequence), Fixed32(|ops|), OpsBytes(ops));
      CountField(|ops|, OpsBytes(ops));
      hide OpsBytes, Fixed32, Fixed64, DecodeFixed32, OpFits;
      n := DecodeFixed32(rep[8..]);
    }

    method Sequence() returns (n: U64)
      requires Valid()
      ensures n == sequence
    {
      Slices(Fixed64(sequence), Fixed32(|ops|), OpsBytes(ops));
      Fixed64RoundTrip(sequence, Fixed32(|ops|) + OpsBytes(ops));
      hide OpsBytes, Fixed32, Fixed64, DecodeFixed64, OpFits;
      n := DecodeFixed64(rep);
    }

    method SetSequence(n: U64)
      requires Valid()
      modifies this
      ensures Valid() && ops == old(ops) && sequence == n
    {
      hide OpsBytes, Fixed32, Fixed64, OpFits;
      Slices(Fixed64(sequence), Fixed32(|ops|), OpsBytes(ops));
      Slices(Fixed64(n), Fixed32(|ops|), OpsBytes(ops));
      rep := Fixed64(n) + rep[8..];
      sequence := n;
    }

    /** Counts one more operation and appends its bytes. */
    method Add(op: BatchOp)
      requires Valid() && OpFits(op) && |ops| + 1 < 0x1_0000_0000
      modifies this
      ensures Valid() && ops == old(ops) + [op] && sequence == old(sequence)
    {
      hide OpBytes, OpsBytes, Fixed32, Fixed64, OpFits;
      var n := Count();
      OneOp(op);
      Grow(n + 1, OpBytes(op), [op]);
    }

    /** Appends another batch's operations, counts added. */
    method Append(source: WriteBatch)
      requires Valid() && source.Valid() && source != this && |ops| + |source.ops| < 0x1_0000_0000
      modifies this
      ensures Valid() && ops == old(ops) + source.ops && sequence == old(sequence)
    {
      hide OpBytes, OpsBytes, Fixed32, Fixed64, OpFits;
      var n := Count();
      var m := source.Count();
      Slices(Fixed64(source.sequence), Fixed32(|source.ops|), OpsBytes(source.ops));
      Grow(n + m, source.rep[12..], source.ops);
    }

    method Grow(count: U32, bytes: seq<Byte>, ghost more: seq<BatchOp>)
      requires Valid() && bytes == OpsBytes(more) && count == |ops| + |more| && forall op :: op in more ==> OpFits(op)
      modifies this
      ensures Valid() && ops == old(ops) + more && sequence == old(sequence)
    {
      hide OpBytes, OpsBytes, Fixed32, Fixed64, OpFits;
      OpsAppend(ops, more);
      Slices(Fixed64(sequence), Fixed32(|ops|), OpsBytes(ops));
      Joined(Fixed64(sequence), Fixed32(count), OpsBytes(ops), bytes);
      rep := rep[..8] + Fixed32(count) + rep[12..] + bytes;
      ops := ops + more;
    }
  }

  lemma Slices(a: seq<Byte>, b: seq<Byte>, c: seq<Byte>)
    requires |a| == 8 && |b| == 4
    ensures (a + b + c)[..8] == a && (a + b + c)[8..] == b + c && (a + b + c)[12..] == c
    ensures a + b + c == a + (b + c)
  {
  }

  lemma Joined(a: seq<Byte>, b: seq<Byte>, c: seq<Byte>, d: seq<Byte>)
    ensures a + b + c + d == a + b + (c + d)
  {
  }

  lemma CountField(n: U32, rest: seq<Byte>)
    ensures DecodeFixed32(Fixed32(n) + rest) == n
  {
    Fixed32RoundTrip(n);
    assert forall i :: 0 <= i < 4 ==> (Fixed32(n) + rest)[i] == Fixed32(n)[i];
  }

  lemma OneOp(op: BatchOp)
    ensures OpsBytes([op]) == OpBytes(op)
  {
    assert [op][1..] == [];
  }

  /** WriteBatch::Iterate over any representation. */
  ghost function IterateSpec(rep: seq<Byte>): Iterated {
    if |rep| < HEADER then Bad([], "malformed WriteBatch (too small)")
    else
      var r := ReadOps(rep[HEADER..]);
      if r.1.Some? then Bad(r.0, r.1.value)
      else if |r.0| != DecodeFixed32(rep[8..]) then Bad(r.0, "WriteBatch has wrong count")
      else Done(r.0)
  }

  method Iterate(rep: seq<Byte>) returns (r: Iterated)
    ensures r == IterateSpec(rep)
  {
    if |rep| < HEADER {
      return Bad([], "malformed WriteBatch (too small)");
    }
    var input := rep[HEADER..];
    var handled: seq<BatchOp> := [];
    ghost var all := ReadOps(input);
    assert handled + all.0 == all.0;
    while input != []
      invariant all == (handled + ReadOps(input).0, ReadOps(input).1)
      decreases |input|
    {
      var step := ReadOp(input);
      OpShrinks(input);
      if step.Broken? {
        return Bad(handled, step.what);
      }
      assert handled + ([step.op] + ReadOps(step.rest).0) == (handled + [step.op]) + ReadOps(step.rest).0;
      handled, input := handled + [step.op], step.rest;
    }
    if |handled| != DecodeFixed32(rep[8..]) {
      return Bad(handled, "WriteBatch has wrong count");
    }
    r := Done(handled);
  }

  /** The contents of a batch give back its sequence number and its operations. */
  lemma ContentsRead(sequence: U64, ops: seq<BatchOp>)
    requires |ops| < 0x1_0000_0000 && forall op :: op in ops ==> OpFits(op)
    ensures var rep := Fixed64(sequence) + Fixed32(|ops|) + OpsBytes(ops);
            |rep| >= HEADER && DecodeFixed64(rep) == sequence && IterateSpec(rep) == Done(ops)
  {
    hide ReadOps, OpsBytes, Fixed32, Fixed64, DecodeFixed32, DecodeFixed64, OpFits;
    OpsRead(ops);
    Slices(Fixed64(sequence), Fixed32(|ops|), OpsBytes(ops));
    CountField(|ops|, OpsBytes(ops));
    Fixed64RoundTrip(sequence, Fixed32(|ops|) + OpsBytes(ops));
  }

  /** A batch iterates to exactly the operations put into it. */
  lemma BatchRoundTrip(b: WriteBatch)
    requires b.Valid()
    ensures IterateSpec(b.rep) == Done(b.ops)
  {
    hide ReadOps, OpsBytes, Fixed32, Fixed64, DecodeFixed32;
    ContentsRead(b.sequence, b.ops);
  }
}
