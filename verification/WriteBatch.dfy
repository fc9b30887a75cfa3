/** Write batches (db/write_batch): the byte format, and reading it back. */
module WriteBatch {
  import opened Keys
  import opened Coding

  datatype Op = Put(key: Bytes, value: Bytes) | Delete(key: Bytes)

  const HEADER := 12
  const LIMIT := 0x1_0000_0000

  ghost predicate OpFits(op: Op) {
    |op.key| < LIMIT && (op.Put? ==> |op.value| < LIMIT)
  }

  /** The length goes into 32 bits. */
  function Prefixed(b: Bytes): Bytes {
    EncodeVarint32(|b| % LIMIT) + b
  }

  function OpBytes(op: Op): Bytes {
    match op
    case Put(key, value) => [1] + Prefixed(key) + Prefixed(value)
    case Delete(key) => [0] + Prefixed(key)
  }

  ghost predicate AllFit(ops: seq<Op>) {
    forall i :: 0 <= i < |ops| ==> OpFits(ops[i])
  }

  function Body(ops: seq<Op>): Bytes {
    if ops == [] then [] else OpBytes(ops[0]) + Body(ops[1..])
  }

  lemma {:induction false} OpsJoin(x: seq<Op>, y: seq<Op>, z: seq<Op>)
    ensures x + (y + z) == x + y + z
  {
  }

  lemma {:induction false} JoinFits(a: seq<Op>, b: seq<Op>)
    requires AllFit(a) && AllFit(b)
    ensures AllFit(a + b)
  {
  }

  lemma {:induction false} BodyCons(all: seq<Op>, first: Op, rest: seq<Op>)
    requires all == [first] + rest
    ensures Body(all) == OpBytes(first) + Body(rest)
  {
    assert all[1..] == rest && all[0] == first;
  }

  /** Append: the records of a join are the records of both. */
  lemma {:induction false} BodyJoin(a: seq<Op>, b: seq<Op>)
    ensures Body(a + b) == Body(a) + Body(b)
  {
    if a == [] {
      assert a + b == b;
    } else {
      var first, rest := a[0], a[1..];
      assert a == [first] + rest;
      BodyCons(a, first, rest);
      OpsJoin([first], rest, b);
      BodyCons(a + b, first, rest + b);
      BodyJoin(rest, b);
      JoinBytes(OpBytes(first), Body(rest), Body(b));
    }
  }

  // ----- reading -----

  datatype Cut = NoCut | Cut(slice: Bytes, rest: Bytes)

  function GetLengthPrefixedSlice(input: Bytes): Cut {
    var n := GetVarint32(input, 0, |input|);
    if n.Failed? || n.next > |input| || |input| - n.next < n.value then NoCut
    else Cut(input[n.next..n.next + n.value], input[n.next + n.value..])
  }

  lemma {:induction false} SliceRoundTrip(b: Bytes, rest: Bytes)
    requires |b| < LIMIT
    ensures GetLengthPrefixedSlice(Prefixed(b) + rest) == Cut(b, rest)
  {
    var input := Prefixed(b) + rest;
    assert input[0..|EncodeVarint32(|b|)|] == EncodeVarint32(|b|);
    VarintRoundTrip(input, 0, |input|, |b|);
  }

  datatype Status = Ok | Corrupt

  datatype Iterated = Iterated(status: Status, ops: seq<Op>)

  function Cons(op: Op, r: Iterated): Iterated {
    Iterated(r.status, [op] + r.ops)
  }

  /** What the handler is given, and whether the records are well-formed. */
  function Parse(input: Bytes): Iterated
    decreases |input|
  {
    if input == [] then Iterated(Ok, [])
    else
      var k := GetLengthPrefixedSlice(input[1..]);
      if input[0] > 1 || k.NoCut? || |k.rest| >= |input| then Iterated(Corrupt, [])
      else if input[0] == 0 then Cons(Delete(k.slice), Parse(k.rest))
      else
        var v := GetLengthPrefixedSlice(k.rest);
        if v.NoCut? || |v.rest| >= |input| then Iterated(Corrupt, []) else Cons(Put(k.slice, v.slice), Parse(v.rest))
  }

  lemma {:induction false} AfterTag(tag: Byte, a: Bytes, b: Bytes, rest: Bytes)
    ensures ([tag] + a + rest)[1..] == a + rest
    ensures ([tag] + a + b + rest)[1..] == a + (b + rest)
  {
  }

  lemma {:induction false} ParseDelete(input: Bytes, key: Bytes, rest: Bytes)
    requires input != [] && input[0] == 0 && GetLengthPrefixedSlice(input[1..]) == Cut(key, rest) && |rest| < |input|
    ensures Parse(input) == Cons(Delete(key), Parse(rest))
  {
  }

  lemma {:induction false} ParsePut(input: Bytes, key: Bytes, more: Bytes, value: Bytes, rest: Bytes)
    requires input != [] && input[0] == 1 && GetLengthPrefixedSlice(input[1..]) == Cut(key, more) && |more| < |input|
    requires GetLengthPrefixedSlice(more) == Cut(value, rest) && |rest| < |input|
    ensures Parse(input) == Cons(Put(key, value), Parse(rest))
  {
  }

  /** One operation is read back from its bytes, whatever follows them. */
  lemma {:induction false} ParseOp(op: Op, rest: Bytes)
    requires OpFits(op)
    ensures Parse(OpBytes(op) + rest) == Cons(op, Parse(rest))
  {
    var input := OpBytes(op) + rest;
    match op
    case Put(key, value) =>
      AfterTag(1, Prefixed(key), Prefixed(value), rest);
      SliceRoundTrip(key, Prefixed(value) + rest);
      SliceRoundTrip(value, rest);
      ParsePut(input, key, Prefixed(value) + rest, value, rest);
    case Delete(key) =>
      AfterTag(0, Prefixed(key), [], rest);
      SliceRoundTrip(key, rest);
      ParseDelete(input, key, rest);
  }

  lemma {:induction false} ParseBody(ops: seq<Op>)
    requires AllFit(ops)
    ensures Parse(Body(ops)) == Iterated(Ok, ops)
  {
    if ops != [] {
      ParseOp(ops[0], Body(ops[1..]));
      ParseBody(ops[1..]);
      assert ops == [ops[0]] + ops[1..];
    }
  }

  // ----- a batch -----

  datatype Parts = Parts(count: Bytes, records: Bytes)

  function Split(rep: Bytes): Parts
    requires |rep| >= HEADER
  {
    Parts(rep[8..HEADER], rep[HEADER..])
  }

  /** The count overwritten, and more records behind the others. */
  function Regrown(rep: Bytes, count: Bytes, more: Bytes): Bytes
    requires |rep| >= HEADER
  {
    rep[..8] + count + rep[HEADER..] + more
  }

  lemma {:induction false} Spliced(rep: Bytes, count: Bytes, more: Bytes, now: Bytes)
    requires |rep| >= HEADER && |count| == 4 && now == Regrown(rep, count, more)
    ensures |now| >= HEADER && now[..8] == rep[..8] && Split(now) == Parts(count, Split(rep).records + more)
  {
    assert now[8..HEADER] == count && now[HEADER..] == rep[HEADER..] + more;
  }

  /** Eight bytes for the sequence number, four for the count, and the records. */
  ghost predicate Holds(rep: Bytes, ops: seq<Op>) {
    AllFit(ops) && |ops| < LIMIT && |rep| >= HEADER && Split(rep) == Parts(Fixed32(|ops|), Body(ops))
  }

  lemma {:induction false} Grown(was: Bytes, ops: seq<Op>, added: seq<Op>, more: Bytes, now: Bytes)
    requires Holds(was, ops) && AllFit(added) && more == Body(added) && |ops| + |added| < LIMIT
    requires now == Regrown(was, Fixed32(|ops + added|), more)
    ensures Holds(now, ops + added) && now[..8] == was[..8]
  {
    JoinFits(ops, added);
    BodyJoin(ops, added);
    Spliced(was, Fixed32(|ops + added|), more, now);
  }

  lemma {:induction false} Numbering(was: Bytes, sequence: Bytes, now: Bytes)
    requires |was| >= HEADER && |sequence| == 8 && now == sequence + was[8..]
    ensures |now| >= HEADER && now[..8] == sequence && Split(now) == Split(was)
  {
    assert now[8..HEADER] == was[8..HEADER] && now[HEADER..] == was[HEADER..];
  }

  class WriteBatch {
    var rep: Bytes
    ghost var ops: seq<Op>

    ghost predicate Ok()
      reads this
    {
      Holds(rep, ops)
    }

    constructor ()
      ensures Ok() && ops == []
    {
      rep := seq(HEADER, i => 0);
      ops := [];
    }

    method Count() returns (n: Word)
      requires Ok()
      ensures n == |ops|
    {
      Fixed32RoundTrip(|ops|);
      n := DecodeFixed32(rep[8..HEADER]);
    }

    /** SetCount, and more records behind the others. */
    method Grow(n: Word, more: Bytes, ghost added: seq<Op>)
      requires Ok() && AllFit(added) && more == Body(added) && n == |ops| + |added|
      modifies this
      ensures Ok() && ops == old(ops) + added && rep[..8] == old(rep[..8])
    {
      ghost var all := ops + added;
      var now := Regrown(rep, Fixed32(n), more);
      Grown(rep, ops, added, more, now);
      rep, ops := now, all;
    }

    method Add(op: Op)
      requires Ok() && OpFits(op) && |ops| + 1 < LIMIT
      modifies this
      ensures Ok() && ops == old(ops) + [op] && rep[..8] == old(rep[..8])
    {
      var n := Count();
      assert Body([op]) == OpBytes(op) + Body([]) == OpBytes(op) + [] == OpBytes(op);
      Grow(n + 1, OpBytes(op), [op]);
    }

    method Append(source: WriteBatch)
      requires Ok() && source.Ok() && source != this && |ops| + |source.ops| < LIMIT
      modifies this
      ensures Ok() && ops == old(ops) + source.ops && rep[..8] == old(rep[..8])
    {
      var n := Count();
      var m := source.Count();
      Grow(n + m, source.rep[HEADER..], source.ops);
    }

    /** SetSequence: eight bytes, least significant first. */
    method SetSequence(sequence: Sequence)
      requires Ok()
      modifies this`rep
      ensures Ok() && rep[..8] == Fixed64(sequence)
    {
      Numbering(rep, Fixed64(sequence), Fixed64(sequence) + rep[8..]);
      rep := Fixed64(sequence) + rep[8..];
    }

    /** Iterate on a batch made by these operations hands on exactly its operations, with the right count. */
    method Iterate() returns (status: Status, handled: seq<Op>)
      requires Ok()
      ensures status == Status.Ok && handled == ops
    {
      ParseBody(ops);
      status, handled := IterateContents(rep);
      Fixed32RoundTrip(|ops|);
    }
  }

  lemma {:induction false} Handled(done: seq<Op>, op: Op, r: Iterated)
    ensures done + Cons(op, r).ops == (done + [op]) + r.ops
  {
  }

  /** Iterate on arbitrary contents, such as a log record. */
  method IterateContents(rep: Bytes) returns (status: Status, handled: seq<Op>)
    ensures |rep| < HEADER ==> status == Corrupt
    ensures |rep| >= HEADER ==> handled == Parse(rep[HEADER..]).ops
    ensures |rep| >= HEADER ==>
              (status == Ok <==> Parse(rep[HEADER..]).status == Ok && |handled| == DecodeFixed32(rep[8..HEADER]))
  {
    if |rep| < HEADER {
      return Corrupt, [];
    }
    var input := rep[HEADER..];
    handled := [];
    ghost var whole := Parse(input);
    while input != []
      invariant whole == Iterated(Parse(input).status, handled + Parse(input).ops)
      decreases |input|
    {
      var tag := input[0];
      var key := GetLengthPrefixedSlice(input[1..]);
      if tag > 1 || key.NoCut? || |key.rest| >= |input| {
        return Corrupt, handled;
      }
      if tag == 0 {
        Handled(handled, Delete(key.slice), Parse(key.rest));
        handled := handled + [Delete(key.slice)];
        input := key.rest;
      } else {
        var value := GetLengthPrefixedSlice(key.rest);
        if value.NoCut? || |value.rest| >= |input| {
          return Corrupt, handled;
        }
        Handled(handled, Put(key.slice, value.slice), Parse(value.rest));
        handled := handled + [Put(key.slice, value.slice)];
        input := value.rest;
      }
    }
    status := if |handled| == DecodeFixed32(rep[8..HEADER]) then Ok else Corrupt;
  }

  // ----- into the memtable -----

  datatype Numbered = Numbered(sequence: nat, op: Op)

  /** Consecutive sequence numbers for the operations of a batch, in their order. */
  function Number(first: nat, ops: seq<Op>): seq<Numbered> {
    if ops == [] then []
    else var n := |ops| - 1; Number(first, ops[..n]) + [Numbered(first + n, ops[n])]
  }

  lemma {:induction false} NumberNext(first: nat, ops: seq<Op>, i: nat)
    requires i < |ops|
    ensures Number(first, ops[..i + 1]) == Number(first, ops[..i]) + [Numbered(first + i, ops[i])]
  {
    assert ops[..i + 1][..i] == ops[..i];
  }

  /** MemTableInserter counts up from the batch's sequence number. */
  method AddAll(first: nat, ops: seq<Op>) returns (inserted: seq<Numbered>)
    ensures inserted == Number(first, ops)
  {
    var sequence := first;
    inserted := [];
    assert ops[..0] == [];
    for i := 0 to |ops|
      invariant sequence == first + i && inserted == Number(first, ops[..i])
    {
      NumberNext(first, ops, i);
      inserted := inserted + [Numbered(sequence, ops[i])];
      sequence := sequence + 1;
    }
    assert ops[..|ops|] == ops;
  }

  method InsertInto(rep: Bytes) returns (status: Status, inserted: seq<Numbered>)
    requires |rep| >= HEADER
    ensures status == Ok <==>
            Parse(rep[HEADER..]).status == Ok &&
            |Parse(rep[HEADER..]).ops| == DecodeFixed32(rep[8..HEADER])
    ensures inserted == Number(DecodeFixed64(rep[..8]), Parse(rep[HEADER..]).ops)
  {
    var ops: seq<Op>;
    status, ops := IterateContents(rep);
    inserted := AddAll(DecodeFixed64(rep[..8]), ops);
  }

  /** Whatever batch was logged, under whatever number, comes back whole: its operations, numbered from there. */
  lemma {:induction false} LoggedComesBack(sequence: Sequence, ops: seq<Op>, rep: Bytes)
    requires Holds(rep, ops) && rep[..8] == Fixed64(sequence)
    ensures Parse(rep[HEADER..]) == Iterated(Ok, ops) && DecodeFixed32(rep[8..HEADER]) == |ops|
    ensures DecodeFixed64(rep[..8]) == sequence
  {
    ParseBody(ops);
    Fixed32RoundTrip(|ops|);
    Fixed64RoundTrip(sequence);
  }
}
