/** What a log says after a crash: reading what recovery replays finds, for every key, the last operation on it. */
module ReplayedReads {
  import opened Keys
  import opened Cursors
  import opened Reads
  import opened WriteBatch
  import opened BatchLog
  import L = Log
  import Disks

  // ----- operations and the entries that they become -----

  /** Operation i is the last one on the key. */
  ghost predicate LastOn(ops: seq<Op>, key: Bytes, i: int) {
    0 <= i < |ops| && ops[i].key == key && forall j :: i < j < |ops| ==> ops[j].key != key
  }

  /** The last operation on the key puts the value. */
  ghost predicate LastPuts(ops: seq<Op>, key: Bytes, value: Bytes) {
    exists i :: LastOn(ops, key, i) && ops[i] == Put(key, value)
  }

  /** A put is a value under its key, a delete a deletion. */
  ghost predicate Tells(e: Entry, op: Op) {
    && e.key.user == Rank(op.key)
    && if op.Put? then e.key.kind == Value && e.value == op.value else e.key.kind == Deletion
  }

  /** Entries made of the operations, each newer than those before. */
  ghost predicate MadeOf(entries: seq<Entry>, ops: seq<Op>) {
    && |entries| == |ops| && (forall i :: 0 <= i < |ops| ==> Tells(entries[i], ops[i]))
    && forall i, j :: 0 <= i < j < |entries| ==> entries[i].key.sequence < entries[j].key.sequence
  }

  lemma {:induction false} LastExists(ops: seq<Op>, key: Bytes) returns (i: int)
    ensures if i == -1 then forall j :: 0 <= j < |ops| ==> ops[j].key != key else LastOn(ops, key, i)
  {
    if ops == [] {
      i := -1;
    } else {
      var n := |ops| - 1;
      i := n;
      if ops[n].key != key {
        i := LastExists(ops[..n], key);
        assert forall j :: 0 <= j < n ==> ops[..n][j] == ops[j];
      }
    }
  }

  lemma {:induction false} OneLast(ops: seq<Op>, key: Bytes, i: int, j: int)
    requires LastOn(ops, key, i) && LastOn(ops, key, j)
    ensures i == j
  {
  }

  lemma {:induction false} LastIsNewest(entries: seq<Entry>, ops: seq<Op>, key: Bytes, snapshot: Sequence, i: int)
    requires MadeOf(entries, ops) && LastOn(ops, key, i)
    requires forall k :: 0 <= k < |entries| ==> entries[k].key.sequence <= snapshot
    ensures Newest(Set(entries), Rank(key), snapshot, entries[i])
  {
    forall f | f in Set(entries) && Sees(f, Rank(key), snapshot) ensures f.key.sequence <= entries[i].key.sequence {
      var k :| 0 <= k < |entries| && entries[k] == f;
      assert Tells(entries[k], ops[k]);
      RankOrder(ops[k].key, key);
      assert k <= i;
    }
  }

  lemma {:induction false} NumbersDiffer(entries: seq<Entry>, ops: seq<Op>)
    requires MadeOf(entries, ops)
    ensures Distinct(Set(entries))
  {
    forall a, b | a in entries && b in entries && a.key.sequence == b.key.sequence ensures a == b {
      var i :| 0 <= i < |entries| && entries[i] == a;
      var j :| 0 <= j < |entries| && entries[j] == b;
      assert i < j || j < i || i == j;
    }
  }

  lemma {:induction false} NoneSeen(entries: seq<Entry>, ops: seq<Op>, key: Bytes, snapshot: Sequence)
    requires MadeOf(entries, ops) && forall j :: 0 <= j < |ops| ==> ops[j].key != key
    ensures Blank(Set(entries), Rank(key), snapshot)
  {
    forall e | e in Set(entries) ensures !Sees(e, Rank(key), snapshot) {
      var k :| 0 <= k < |entries| && entries[k] == e;
      assert Tells(entries[k], ops[k]);
      RankOrder(ops[k].key, key);
    }
  }

  /** Reading the entries finds a value exactly when the last operation on the key has put it. */
  lemma {:induction false} ReadsTell(entries: seq<Entry>, ops: seq<Op>, key: Bytes, value: Bytes, snapshot: Sequence)
    requires MadeOf(entries, ops) && forall k :: 0 <= k < |entries| ==> entries[k].key.sequence <= snapshot
    ensures ReadAt(Set(entries), Rank(key), snapshot) == Found(value) <==> LastPuts(ops, key, value)
  {
    var i := LastExists(ops, key);
    if i == -1 {
      NoneSeen(entries, ops, key, snapshot);
    } else {
      LastIsNewest(entries, ops, key, snapshot, i);
      NumbersDiffer(entries, ops);
      ReadNewest(Set(entries), Rank(key), snapshot, entries[i]);
      assert Tells(entries[i], ops[i]);
      if LastPuts(ops, key, value) {
        var j :| LastOn(ops, key, j) && ops[j] == Put(key, value);
        OneLast(ops, key, i, j);
      }
    }
  }

  // ----- one batch -----

  lemma {:induction false} BatchMade(b: BatchLog.Logged)
    requires Loggable(b)
    ensures MadeOf(AsBatch(b).entries, b.ops)
    ensures forall i :: 0 <= i < |b.ops| ==> AsBatch(b).entries[i].key.sequence == b.first + i
  {
  }

  /** A batch replayed and read at its last number. */
  lemma {:induction false} BatchReads(b: BatchLog.Logged, key: Bytes, value: Bytes)
    requires Loggable(b)
    ensures ReadAt(Set(AsBatch(b).entries), Rank(key), b.first + |b.ops| - 1) == Found(value) <==>
            LastPuts(b.ops, key, value)
  {
    BatchMade(b);
    ReadsTell(AsBatch(b).entries, b.ops, key, value, b.first + |b.ops| - 1);
  }

  // ----- a whole log -----

  /** Batches are logged under numbers that rise. */
  ghost predicate InSequence(log: seq<BatchLog.Logged>) {
    forall i, j :: 0 <= i < j < |log| ==> log[i].first + |log[i].ops| <= log[j].first
  }

  function AllOps(log: seq<BatchLog.Logged>): seq<Op> {
    if log == [] then [] else AllOps(log[..|log| - 1]) + log[|log| - 1].ops
  }

  function AllEntries(log: seq<Disks.Batch>): seq<Entry> {
    if log == [] then [] else AllEntries(log[..|log| - 1]) + log[|log| - 1].entries
  }

  lemma {:induction false} EntriesAreLogged(log: seq<Disks.Batch>)
    ensures Set(AllEntries(log)) == Disks.LogSet(log)
  {
    if log != [] {
      var n := |log| - 1;
      EntriesAreLogged(log[..n]);
      Disks.LogSetSnoc(log[..n], log[n]);
      assert log == log[..n] + [log[n]];
    }
  }

  lemma {:induction false} MadeJoins(a: seq<Entry>, s: seq<Op>, b: seq<Entry>, t: seq<Op>, between: nat)
    requires MadeOf(a, s) && MadeOf(b, t)
    requires forall i :: 0 <= i < |a| ==> a[i].key.sequence < between
    requires forall i :: 0 <= i < |b| ==> between <= b[i].key.sequence
    ensures MadeOf(a + b, s + t)
  {
  }

  lemma {:induction false} LogMade(log: seq<BatchLog.Logged>, end: nat)
    requires AllLoggable(log) && InSequence(log)
    requires forall i :: 0 <= i < |log| ==> log[i].first + |log[i].ops| <= end
    ensures MadeOf(AllEntries(AsLog(log)), AllOps(log))
    ensures forall i :: 0 <= i < |AllEntries(AsLog(log))| ==> AllEntries(AsLog(log))[i].key.sequence < end
  {
    if log != [] {
      var n := |log| - 1;
      LogMade(log[..n], log[n].first);
      BatchMade(log[n]);
      assert AsLog(log)[..n] == AsLog(log[..n]);
      MadeJoins(AllEntries(AsLog(log[..n])), AllOps(log[..n]), AsBatch(log[n]).entries, log[n].ops, log[n].first);
    }
  }

  /** After a crash that leaves n bytes of a log, reading what is replayed finds a value for a key exactly when the last
      operation on that key, in the batches that are whole, puts it. */
  lemma {:induction false} CrashedReads(crc: L.Checksum, log: seq<BatchLog.Logged>, n: nat, whole: seq<BatchLog.Logged>,
                                        key: Bytes, value: Bytes)
    requires AllLoggable(log) && InSequence(log) && n <= |LogFile(crc, log)|
    requires whole == log[..Survivors(crc, log, n)]
    ensures AllRead(AfterCrash(crc, log, n))
    ensures ReadAt(Disks.LogSet(Replayed(AfterCrash(crc, log, n))), Rank(key), MAX_SEQUENCE) == Found(value) <==>
            LastPuts(AllOps(whole), key, value)
  {
    CrashedLog(crc, log, n);
    SomeLoggable(log, Survivors(crc, log, n));
    EntriesAreLogged(AsLog(whole));
    LogMade(whole, MAX_SEQUENCE);
    ReadsTell(AllEntries(AsLog(whole)), AllOps(whole), key, value, MAX_SEQUENCE);
  }
}
