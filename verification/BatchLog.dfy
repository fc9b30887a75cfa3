/** Batches in a log file: from any prefix of its bytes, recovery reads those that are whole. */
module BatchLog {
  import opened Keys
  import opened Coding
  import opened Cursors
  import opened WriteBatch
  import L = Log
  import R = LogRoundTrip
  import Disks

  // ----- one batch -----

  datatype Logged = Logged(first: nat, ops: seq<Op>)

  /** What the front writer may put into the log: every length and number has room. */
  ghost predicate Loggable(b: Logged) {
    AllFit(b.ops) && |b.ops| < LIMIT && 1 <= b.first && b.first + |b.ops| <= MAX_SEQUENCE
  }

  /** The contents of a batch that has been numbered: a log record. */
  function Contents(b: Logged): Bytes
    requires b.first <= MAX_SEQUENCE && |b.ops| < LIMIT
  {
    Fixed64(b.first) + Fixed32(|b.ops|) + Body(b.ops)
  }

  datatype Decoded = Unreadable | Readable(batch: Logged)

  /** RecoverLogFile: a record too small for a header is no batch, and neither is one that Iterate finds corrupt. */
  function Decode(rep: Bytes): Decoded {
    if |rep| < HEADER then Unreadable
    else
      var p := Parse(rep[HEADER..]);
      if p.status.Ok? && |p.ops| == DecodeFixed32(rep[8..HEADER]) then Readable(Logged(DecodeFixed64(rep[..8]), p.ops))
      else Unreadable
  }

  /** A batch that is read has its number and its count in front of its operations, and nothing behind them. */
  lemma {:induction false} ReadableMeans(rep: Bytes, b: Logged)
    requires Decode(rep) == Readable(b)
    ensures |rep| >= HEADER && b.first == DecodeFixed64(rep[..8]) && |b.ops| == DecodeFixed32(rep[8..HEADER])
    ensures Parse(rep[HEADER..]) == Iterated(Ok, b.ops)
  {
  }

  lemma {:induction false} ThreeParts(a: Bytes, b: Bytes, c: Bytes)
    requires |a| == 8 && |b| == 4
    ensures var s := a + b + c; |s| >= HEADER && s[..8] == a && s[8..HEADER] == b && s[HEADER..] == c
  {
  }

  lemma {:induction false} ContentsHold(b: Logged)
    requires Loggable(b)
    ensures Holds(Contents(b), b.ops) && Contents(b)[..8] == Fixed64(b.first)
  {
    ThreeParts(Fixed64(b.first), Fixed32(|b.ops|), Body(b.ops));
  }

  lemma {:induction false} DecodeContents(b: Logged)
    requires Loggable(b)
    ensures Decode(Contents(b)) == Readable(b)
  {
    ContentsHold(b);
    LoggedComesBack(b.first, b.ops, Contents(b));
  }

  // ----- a log file -----

  ghost predicate AllLoggable(log: seq<Logged>) {
    forall i :: 0 <= i < |log| ==> Loggable(log[i])
  }

  ghost function Records(log: seq<Logged>): seq<Bytes>
    requires AllLoggable(log)
  {
    seq(|log|, i requires 0 <= i < |log| => Contents(log[i]))
  }

  /** The batches of a log's records. */
  function DecodeAll(records: seq<Bytes>): seq<Decoded> {
    seq(|records|, i requires 0 <= i < |records| => Decode(records[i]))
  }

  ghost function AllReadable(log: seq<Logged>): seq<Decoded> {
    seq(|log|, i requires 0 <= i < |log| => Readable(log[i]))
  }

  lemma {:induction false} DecodeSome(log: seq<Logged>, w: nat)
    requires AllLoggable(log) && w <= |log|
    ensures DecodeAll(Records(log)[..w]) == AllReadable(log[..w])
  {
    forall i | 0 <= i < w ensures DecodeAll(Records(log)[..w])[i] == AllReadable(log[..w])[i] {
      DecodeContents(log[i]);
    }
  }

  ghost function LogFile(crc: L.Checksum, log: seq<Logged>): Bytes
    requires AllLoggable(log)
  {
    L.EmitAll(crc, 0, Records(log))
  }

  /** How many of the batches are whole in the first n bytes of the file. */
  ghost function Survivors(crc: L.Checksum, log: seq<Logged>, n: nat): (w: nat)
    requires AllLoggable(log)
    ensures w <= |log|
  {
    R.Whole(crc, 0, Records(log), n)
  }

  /** What recovery reads from the first n bytes of the file. */
  ghost function AfterCrash(crc: L.Checksum, log: seq<Logged>, n: nat): seq<Decoded>
    requires AllLoggable(log) && n <= |LogFile(crc, log)|
  {
    DecodeAll(L.ReadAll(crc, L.Open(LogFile(crc, log)[..n])).0)
  }

  /** Whatever bytes of a log a crash leaves, reading and decoding them gives the surviving batches, each with its
      number and its operations... */
  lemma {:induction false} CrashedBatches(crc: L.Checksum, log: seq<Logged>, n: nat)
    requires AllLoggable(log) && n <= |LogFile(crc, log)|
    ensures AfterCrash(crc, log, n) == AllReadable(log[..Survivors(crc, log, n)])
  {
    R.CrashPrefix(crc, Records(log), n);
    DecodeSome(log, Survivors(crc, log, n));
  }

  /** ... and no corruption is reported. */
  lemma {:induction false} CrashedQuietly(crc: L.Checksum, log: seq<Logged>, n: nat)
    requires AllLoggable(log) && n <= |LogFile(crc, log)|
    ensures L.ReadAll(crc, L.Open(LogFile(crc, log)[..n])).1 == []
  {
    R.CrashPrefix(crc, Records(log), n);
  }

  // ----- as the store's logs have them -----

  /** MemTableInserter: the entry of an operation under its sequence number. */
  function EntryOf(sequence: Sequence, op: Op): Entry {
    match op
    case Put(key, value) => Entry(InternalKey(Rank(key), sequence, Value), value)
    case Delete(key) => Entry(InternalKey(Rank(key), sequence, Deletion), [])
  }

  function AsBatch(b: Logged): Disks.Batch
    requires b.first + |b.ops| <= MAX_SEQUENCE
  {
    Disks.Batch(b.first, seq(|b.ops|, i requires 0 <= i < |b.ops| => EntryOf(b.first + i, b.ops[i])))
  }

  ghost function AsLog(log: seq<Logged>): seq<Disks.Batch>
    requires AllLoggable(log)
  {
    seq(|log|, i requires 0 <= i < |log| => AsBatch(log[i]))
  }

  lemma {:induction false} NumberAt(first: nat, ops: seq<Op>, i: nat)
    requires i < |ops|
    ensures |Number(first, ops)| == |ops| && Number(first, ops)[i] == Numbered(first + i, ops[i])
  {
    var n := |ops| - 1;
    NumberCount(first, ops[..n]);
    if i < n {
      NumberAt(first, ops[..n], i);
    }
  }

  lemma {:induction false} NumberCount(first: nat, ops: seq<Op>)
    ensures |Number(first, ops)| == |ops|
  {
    if ops != [] {
      NumberCount(first, ops[..|ops| - 1]);
    }
  }

  /** The batch that InsertInto puts into a memtable is the one that the store's state machine has in its log. */
  lemma {:induction false} InsertedIs(b: Logged, i: nat)
    requires Loggable(b) && i < |b.ops|
    ensures Disks.BatchOk(AsBatch(b)) && |Number(b.first, b.ops)| == |AsBatch(b).entries|
    ensures Number(b.first, b.ops)[i].sequence <= MAX_SEQUENCE
    ensures AsBatch(b).entries[i] == EntryOf(Number(b.first, b.ops)[i].sequence, Number(b.first, b.ops)[i].op)
  {
    NumberAt(b.first, b.ops, i);
  }

  lemma {:induction false} SomeLoggable(log: seq<Logged>, w: nat)
    requires AllLoggable(log) && w <= |log|
    ensures AllLoggable(log[..w]) && AsLog(log[..w]) == AsLog(log)[..w]
  {
  }

  ghost predicate AllRead(decoded: seq<Decoded>) {
    forall i :: 0 <= i < |decoded| ==> decoded[i].Readable? && Loggable(decoded[i].batch)
  }

  ghost function Replayed(decoded: seq<Decoded>): seq<Disks.Batch>
    requires AllRead(decoded)
  {
    seq(|decoded|, i requires 0 <= i < |decoded| => AsBatch(decoded[i].batch))
  }

  /** Decoding and then numbering gives a prefix of the log that the store's state machine has: on the disk after the
      crash this log has lost its last batches, and nothing else. */
  lemma {:induction false} CrashedLog(crc: L.Checksum, log: seq<Logged>, n: nat)
    requires AllLoggable(log) && n <= |LogFile(crc, log)|
    ensures AllRead(AfterCrash(crc, log, n))
    ensures Replayed(AfterCrash(crc, log, n)) == AsLog(log)[..Survivors(crc, log, n)]
  {
    CrashedBatches(crc, log, n);
    SomeLoggable(log, Survivors(crc, log, n));
  }
}
