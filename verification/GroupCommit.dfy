/** The writer queue (db_impl: Write, BuildBatchGroup): the writer at the front commits for those behind it. */
module GroupCommit {
  import opened Keys
  import opened WriteBatch

  /** A null batch only asks for a memtable switch; another has operations and the bytes that hold them. */
  datatype Update = Null | Batch(ops: seq<Op>, records: Bytes)

  datatype Writer = Writer(update: Update, sync: bool)

  ghost predicate Encoded(u: Update) {
    u.Batch? ==> u.records == Body(u.ops)
  }

  /** WriteBatchInternal::Append; a null batch adds nothing. */
  function Append(a: Update, b: Update): Update
    requires a.Batch?
  {
    if b.Null? then a else Batch(a.ops + b.ops, a.records + b.records)
  }

  lemma {:induction false} AppendEncoded(a: Update, b: Update)
    requires a.Batch? && Encoded(a) && Encoded(b)
    ensures Encoded(Append(a, b))
  {
    if b.Batch? {
      BodyJoin(a.ops, b.ops);
    }
  }

  function OpsOf(w: Writer): seq<Op> {
    if w.update.Null? then [] else w.update.ops
  }

  // ----- building a group -----

  const SMALL := 0x2_0000
  const BIG := 0x10_0000

  function ByteSize(u: Update): nat {
    if u.Null? then 0 else HEADER + |u.records|
  }

  function Size(w: Writer): nat {
    ByteSize(w.update)
  }

  function MaxSize(leader: Writer): nat {
    if Size(leader) <= SMALL then Size(leader) + SMALL else BIG
  }

  /** Where the group ends, when the writers before i are in it and weigh `size`. */
  function GroupEnd(queue: seq<Writer>, i: nat, size: nat): (n: nat)
    requires 1 <= i <= |queue|
    ensures i <= n <= |queue|
    decreases |queue| - i
  {
    if i == |queue| || (queue[i].sync && !queue[0].sync) then i
    else if queue[i].update.Null? then GroupEnd(queue, i + 1, size)
    else if size + Size(queue[i]) > MaxSize(queue[0]) then i
    else GroupEnd(queue, i + 1, size + Size(queue[i]))
  }

  function GroupLength(queue: seq<Writer>): nat
    requires queue != []
  {
    GroupEnd(queue, 1, Size(queue[0]))
  }

  function Total(queue: seq<Writer>, n: nat): nat
    requires n <= |queue|
  {
    if n == 0 then 0 else Total(queue, n - 1) + Size(queue[n - 1])
  }

  /** No sync write behind a leader that does not sync, and no batch that makes the group too big. */
  predicate MayJoin(queue: seq<Writer>, i: nat)
    requires i < |queue|
  {
    && (queue[i].sync ==> queue[0].sync)
    && (queue[i].update.Null? || Total(queue, i + 1) <= MaxSize(queue[0]))
  }

  /** A leader of up to 128 KiB lets others add as much again; a bigger one lets the group come to 1 MiB. */
  lemma {:induction false} MayJoinMeans(queue: seq<Writer>, i: nat)
    requires i < |queue|
    ensures MayJoin(queue, i) <==>
            && (queue[i].sync ==> queue[0].sync)
            && (queue[i].update.Null? || Total(queue, i + 1) <=
                  if Size(queue[0]) <= 128 * 1024 then Size(queue[0]) + 128 * 1024 else 1024 * 1024)
  {
  }

  /** The sizes of the batches, each with its header. */
  lemma {:induction false} TotalMeans(queue: seq<Writer>, n: nat)
    requires n < |queue|
    ensures Total(queue, 0) == 0
    ensures Total(queue, n + 1) ==
            Total(queue, n) + if queue[n].update.Null? then 0 else 12 + |queue[n].update.records|
  {
  }

  /** Everybody behind the leader in the first n may join. */
  predicate Admissible(queue: seq<Writer>, n: nat) {
    1 <= n <= |queue| && (n == 1 || (Admissible(queue, n - 1) && MayJoin(queue, n - 1)))
  }

  lemma {:induction false} AdmissibleMeans(queue: seq<Writer>, n: nat)
    ensures Admissible(queue, n) <==> 1 <= n <= |queue| && forall i :: 1 <= i < n ==> MayJoin(queue, i)
  {
    if 1 < n <= |queue| {
      AdmissibleMeans(queue, n - 1);
      forall i | 1 <= i < n && Admissible(queue, n) ensures MayJoin(queue, i) {
        if i < n - 1 {
          assert Admissible(queue, n - 1);
        }
      }
    }
  }

  lemma {:induction false} OneMore(queue: seq<Writer>, n: nat)
    requires Admissible(queue, n) && n < |queue|
    ensures Admissible(queue, n + 1) <==> MayJoin(queue, n)
    ensures MayJoin(queue, n) <==>
            (queue[n].sync ==> queue[0].sync) && (queue[n].update.Null? ||
                Total(queue, n) + Size(queue[n]) <= MaxSize(queue[0]))
    ensures Total(queue, n + 1) == Total(queue, n) + Size(queue[n])
  {
  }

  lemma {:induction false} EndStep(queue: seq<Writer>, i: nat)
    requires Admissible(queue, i) && i < |queue|
    ensures GroupEnd(queue, i, Total(queue, i)) ==
            if Admissible(queue, i + 1) then GroupEnd(queue, i + 1, Total(queue, i + 1)) else i
  {
    OneMore(queue, i);
  }

  lemma {:induction false} GroupEndIsLargest(queue: seq<Writer>, i: nat)
    requires Admissible(queue, i)
    ensures var n := GroupEnd(queue, i, Total(queue, i)); Admissible(queue, n) && !Admissible(queue, n + 1)
    decreases |queue| - i
  {
    if i < |queue| {
      EndStep(queue, i);
      if Admissible(queue, i + 1) {
        GroupEndIsLargest(queue, i + 1);
      }
    }
  }

  lemma {:induction false} Front(queue: seq<Writer>, n: nat, m: nat)
    requires m <= n
    ensures Admissible(queue, n) && m > 0 ==> Admissible(queue, m)
  {
    if m < n {
      Front(queue, n - 1, m);
    }
  }

  /** The group is the longest front of the queue all of whose members may join. */
  lemma {:induction false} GroupIsLargest(queue: seq<Writer>, n: nat)
    requires queue != []
    ensures n == GroupLength(queue) <==> Admissible(queue, n) && !Admissible(queue, n + 1)
  {
    var m := GroupLength(queue);
    assert Total(queue, 1) == Total(queue, 0) + Size(queue[0]);
    GroupEndIsLargest(queue, 1);
    if n < m {
      Front(queue, m, n + 1);
    } else if n > m {
      Front(queue, n, m + 1);
    }
  }

  /** The first n batches in one. */
  function Joined(queue: seq<Writer>, n: nat): (u: Update)
    requires 1 <= n <= |queue| && queue[0].update.Batch?
    ensures u.Batch?
  {
    if n == 1 then queue[0].update else Append(Joined(queue, n - 1), queue[n - 1].update)
  }

  lemma {:induction false} JoinedEncoded(queue: seq<Writer>, n: nat)
    requires 1 <= n <= |queue| && queue[0].update.Batch? && forall i :: 0 <= i < n ==> Encoded(queue[i].update)
    ensures Encoded(Joined(queue, n))
  {
    if n > 1 {
      JoinedEncoded(queue, n - 1);
      AppendEncoded(Joined(queue, n - 1), queue[n - 1].update);
    }
  }

  lemma {:induction false} JoinedBytes(queue: seq<Writer>, n: nat)
    requires 1 <= n <= |queue| && queue[0].update.Batch?
    ensures ByteSize(Joined(queue, n)) <= Total(queue, n)
  {
    if n > 1 {
      JoinedBytes(queue, n - 1);
    }
  }

  lemma {:induction false} TotalBounded(queue: seq<Writer>, n: nat)
    requires Admissible(queue, n)
    ensures Total(queue, n) == Size(queue[0]) || Total(queue, n) <= MaxSize(queue[0])
  {
    if n > 1 {
      TotalBounded(queue, n - 1);
    } else {
      assert Total(queue, 1) == Total(queue, 0) + Size(queue[0]);
    }
  }

  /** A group takes no more bytes than its leader alone or the limit, and nobody in it asks for more syncing than
      its leader. */
  lemma {:induction false} GroupIsFit(queue: seq<Writer>)
    requires queue != [] && queue[0].update.Batch?
    ensures var n := GroupLength(queue);
            && (ByteSize(Joined(queue, n)) <= Size(queue[0]) || ByteSize(Joined(queue, n)) <=
                  if Size(queue[0]) <= 128 * 1024 then Size(queue[0]) + 128 * 1024 else 1024 * 1024)
            && forall i :: 0 <= i < n && queue[i].sync ==> queue[0].sync
  {
    var n := GroupLength(queue);
    GroupIsLargest(queue, n);
    AdmissibleMeans(queue, n);
    JoinedBytes(queue, n);
    TotalBounded(queue, n);
    forall i | 0 <= i < n && queue[i].sync ensures queue[0].sync {
      assert i == 0 || MayJoin(queue, i);
    }
  }

  method BuildBatchGroup(writers: seq<Writer>) returns (result: Update, last: nat)
    requires writers != [] && writers[0].update.Batch?
    ensures last + 1 == GroupLength(writers) && result == Joined(writers, last + 1)
  {
    result, last := writers[0].update, 0;
    var size: nat := ByteSize(result);
    var maxSize := if size <= SMALL then size + SMALL else BIG;
    var i := 1;
    while i < |writers|
      invariant 1 <= i <= |writers| && last + 1 == i && GroupLength(writers) == GroupEnd(writers, i, size)
      invariant result == Joined(writers, i)
    {
      var w := writers[i];
      if w.sync && !writers[0].sync {
        break;
      }
      if w.update.Batch? {
        size := size + ByteSize(w.update);
        if size > maxSize {
          break;
        }
        result := Append(result, w.update);
      }
      last := i;
      i := i + 1;
    }
  }
}
