/** The store as a state machine (db_impl, version_set): writes, memtable switches, flushes, compactions, file
    deletion, snapshots and crashes, and what every run keeps. */
module Store {
  import opened Keys
  import opened Cursors
  import opened Reads
  import opened Versions
  import opened Builders
  import opened Installs
  import opened Manifests
  import opened Lookup
  import opened Reorganise
  import opened Tasks
  import opened Disks

  // ----- memtable -----

  /** The memtable is kept in internal-key order. */
  function InsertEntry(mem: seq<Entry>, e: Entry): seq<Entry> {
    if mem == [] || Before(e.key, mem[0].key) then [e] + mem else [mem[0]] + InsertEntry(mem[1..], e)
  }

  function InsertAll(mem: seq<Entry>, entries: seq<Entry>): seq<Entry> {
    if entries == [] then mem else InsertEntry(InsertAll(mem, entries[..|entries| - 1]), entries[|entries| - 1])
  }

  lemma {:induction false} InsertEntryHas(mem: seq<Entry>, e: Entry)
    ensures Set(InsertEntry(mem, e)) == Set(mem) + {e}
  {
    if mem != [] && !Before(e.key, mem[0].key) {
      InsertEntryHas(mem[1..], e);
      assert mem == [mem[0]] + mem[1..];
      assert Set(InsertEntry(mem, e)) == {mem[0]} + Set(InsertEntry(mem[1..], e));
    }
  }

  lemma {:induction false} InsertEntrySorted(mem: seq<Entry>, e: Entry)
    requires Sorted(mem) && forall f :: f in mem ==> f.key != e.key
    ensures Sorted(InsertEntry(mem, e))
  {
    if mem != [] && !Before(e.key, mem[0].key) {
      InsertEntrySorted(mem[1..], e);
      InsertEntryHas(mem[1..], e);
      var rest := InsertEntry(mem[1..], e);
      assert mem[0] in mem;
      forall i | 0 <= i < |rest| ensures Before(mem[0].key, rest[i].key) {
        assert rest[i] in Set(rest);
      }
    }
  }

  /** Writes with new, increasing sequence numbers never collide in the memtable. */
  lemma {:induction false} InsertAllOk(mem: seq<Entry>, b: Batch)
    requires Sorted(mem) && BatchOk(b) && forall e :: e in mem ==> e.key.sequence < b.first
    ensures Sorted(InsertAll(mem, b.entries)) && Set(InsertAll(mem, b.entries)) == Set(mem) + Set(b.entries)
    decreases |b.entries|
  {
    if b.entries != [] {
      var n := |b.entries| - 1;
      var front := Batch(b.first, b.entries[..n]);
      InsertAllOk(mem, front);
      InsertEntryHas(InsertAll(mem, front.entries), b.entries[n]);
      assert b.entries == front.entries + [b.entries[n]];
      forall f | f in InsertAll(mem, front.entries) ensures f.key != b.entries[n].key {
        assert f in Set(InsertAll(mem, front.entries));
      }
      InsertEntrySorted(InsertAll(mem, front.entries), b.entries[n]);
    }
  }

  // ----- states -----

  datatype Imm = NoImm | Imm(entries: seq<Entry>)
  datatype Pending = NoBatch | Logging(batch: Batch)
  datatype Work = Idle | Ready(task: Task) | Logged(task: Task)

  /** The fields of DBImpl and VersionSet, with the disk.  `history` is every write that has reached a log, and
      `floor` the oldest snapshot that no compaction has ruled out; the program has neither. */
  datatype State = State(
    mem: seq<Entry>, imm: Imm, pending: Pending, version: Version,
    lastSequence: Sequence, nextFile: nat, logNumber: nat, logFile: nat, manifestFile: nat,
    snapshots: seq<Sequence>, work: Work, pinned: set<Version>, disk: Disk,
    history: set<Entry>, floor: Sequence)
  {
    function ImmEntries(): seq<Entry> {
      if imm.Imm? then imm.entries else []
    }

    /** The memtable once the batch being written is in it. */
    function Full(): seq<Entry> {
      if pending.Logging? then InsertAll(mem, pending.batch.entries) else mem
    }

    function View(): Db {
      Db(Full(), ImmEntries(), version)
    }

    function LastLogged(): nat {
      if pending.Logging? then lastSequence + |pending.batch.entries| else lastSequence
    }

    /** The version that the manifest leads to. */
    ghost function Committed(): Version {
      if work.Logged? then Outcome(version, work.task) else version
    }

    /** The first log that recovery would read. */
    function LogStart(): nat {
      if work.Logged? && work.task.IsFlush() then logFile else logNumber
    }
  }

  // ----- the invariant -----

  ghost predicate MemoryOk(s: State) {
    && Sorted(s.mem) && s.View().Ok() && UniqueNumbers(s.version) && NumbersBelow(s.version, s.nextFile)
    && Distinct(s.history) && ReadsLike(s.View().All(), s.history, s.floor)
  }

  ghost predicate SequencesOk(s: State) {
    && (s.pending.Logging? ==> BatchOk(s.pending.batch) && s.pending.batch.first == s.lastSequence + 1)
    && s.LastLogged() < MAX_SEQUENCE
    && AtMost(s.history, s.LastLogged())
    && AtMost(Set(s.mem) + (Set(s.ImmEntries()) + Deep(s.version, 0)), s.lastSequence)
  }

  /** Snapshots are listed oldest first. */
  ghost predicate SnapshotsOk(s: State) {
    && s.floor <= s.lastSequence
    && (forall i :: 0 <= i < |s.snapshots| ==> s.floor <= s.snapshots[i] <= s.lastSequence)
    && forall i, j :: 0 <= i < j < |s.snapshots| ==> s.snapshots[i] <= s.snapshots[j]
  }

  ghost predicate CommittedOk(s: State) {
    && s.manifestFile == s.disk.current && ManifestOk(s.disk, s.Committed())
    && var r := Counters(s.disk);
    && r.nextFile <= s.nextFile && r.logNumber == s.LogStart()
    && r.lastSequence <= s.lastSequence && AtMost(Deep(s.Committed(), 0), r.lastSequence)
    && Reaches(s.lastSequence, r.lastSequence, LogEntries(s.disk.logs, s.LogStart()))
  }

  ghost predicate TablesOk(s: State) {
    && TablesThere(s.disk.tables, s.version)
    && forall v :: v in s.pinned ==> TablesThere(s.disk.tables, v) && NumbersBelow(v, s.nextFile)
  }

  ghost predicate LogsHold(s: State) {
    && s.logNumber <= s.logFile < s.nextFile && s.logFile in s.disk.logs &&
        (forall n :: n in s.disk.logs ==> n <= s.logFile)
    && LogsOk(s.disk.logs, s.logNumber)
    && LogEntries(s.disk.logs, s.logNumber) == Set(s.Full()) + Set(s.ImmEntries())
    && LogEntries(s.disk.logs, s.logFile) == Set(s.Full())
    && OlderThan(Deep(s.version, 0), LogEntries(s.disk.logs, s.logNumber))
  }

  /** The job drops no tombstone that covers a value in a file behind its inputs. */
  ghost predicate Harmless(db: Db, task: Task) {
    task.Compact? ==>
      task.level + 1 < NUM_LEVELS && NoneUncovered(db, task.level, task.sel, task.smallestSnapshot)
  }

  ghost predicate WorkOk(s: State) {
    s.work.Idle? || (
      var task := s.work.task;
      && TaskOk(s.version, s.ImmEntries(), task)
      && (task.IsFlush() ==> s.imm.Imm?)
      && (task.Compact? ==> task.smallestSnapshot <= s.floor) && Harmless(s.View(), task)
      && (forall f :: f in task.Files() ==> TableThere(s.disk.tables, f) && f.number < s.nextFile)
      && (s.work.Ready? ==>
          s.disk.current in s.disk.manifests &&
          Fresh(s.disk.manifests[s.disk.current], task, s.nextFile)))
  }

  ghost predicate Inv(s: State) {
    MemoryOk(s) && SequencesOk(s) && SnapshotsOk(s) && CommittedOk(s) && TablesOk(s) && LogsHold(s) && WorkOk(s)
  }

  datatype Health = Sound | Unsound

  /** Inv as a value: the solver takes it as one fact, in the proofs that hand the invariant on from step to step. */
  ghost function Checked(s: State): Health {
    if Inv(s) then Sound else Unsound
  }

  // ----- what a step leaves alone -----

  lemma {:induction false} MemoryFrame(s: State, s': State)
    requires MemoryOk(s) && s'.mem == s.mem && s'.View() == s.View() && s.nextFile <= s'.nextFile
    requires s'.history == s.history && s.floor <= s'.floor
    ensures MemoryOk(s')
  {
  }

  lemma {:induction false} SequencesFrame(s: State, s': State)
    requires SequencesOk(s) && s'.mem == s.mem && s'.pending == s.pending && s'.ImmEntries() == s.ImmEntries()
    requires s'.version == s.version && s'.lastSequence == s.lastSequence && s'.history == s.history
    ensures SequencesOk(s')
  {
  }

  lemma {:induction false} CommittedFrame(s: State, s': State)
    requires CommittedOk(s) && s'.manifestFile == s.manifestFile && s'.disk.current == s.disk.current
    requires s.disk.current in s'.disk.manifests
    requires s'.disk.manifests[s.disk.current] == s.disk.manifests[s.disk.current]
    requires LogEntries(s'.disk.logs, s.LogStart()) == LogEntries(s.disk.logs, s.LogStart())
    requires s'.Committed() == s.Committed() && s'.LogStart() == s.LogStart() && s.nextFile <= s'.nextFile
    requires s'.lastSequence == s.lastSequence
    ensures CommittedOk(s')
  {
  }

  lemma {:induction false} TablesFrame(s: State, s': State)
    requires TablesOk(s) && NumbersBelow(s.version, s.nextFile) && s'.disk.tables == s.disk.tables
    requires s'.version == s.version && s'.pinned <= s.pinned + {s.version} && s.nextFile <= s'.nextFile
    ensures TablesOk(s')
  {
  }

  lemma {:induction false} LogsFrame(s: State, s': State)
    requires LogsHold(s) && s'.disk.logs == s.disk.logs && s'.logNumber == s.logNumber && s'.logFile == s.logFile
    requires s'.Full() == s.Full() && s'.ImmEntries() == s.ImmEntries() && s'.version == s.version
    requires s.nextFile <= s'.nextFile
    ensures LogsHold(s')
  {
  }

  lemma {:induction false} WorkFrame(s: State, s': State)
    requires WorkOk(s) && s'.work == s.work && s'.version == s.version && s'.imm == s.imm && s.floor <= s'.floor
    requires s'.View() == s.View()
    requires s'.disk.tables == s.disk.tables && s.nextFile <= s'.nextFile && s'.disk.current == s.disk.current
    requires s.disk.current in s.disk.manifests ==>
             s.disk.current in s'.disk.manifests &&
             s'.disk.manifests[s.disk.current] == s.disk.manifests[s.disk.current]
    ensures WorkOk(s')
  {
  }

  // ----- a crash at any moment loses nothing that reached a log -----

  /** What is being flushed came before everything in the current log. */
  lemma {:induction false} ImmOlder(s: State)
    requires MemoryOk(s) && LogsHold(s)
    ensures OlderThan(Set(s.ImmEntries()), LogEntries(s.disk.logs, s.logFile))
  {
    var logs := s.disk.logs;
    forall a, b | a in s.ImmEntries() && b in LogEntries(logs, s.logFile) ensures a.key.sequence < b.key.sequence {
      var n := InEarlierLog(s, a);
      var m :| m in logs && s.logFile <= m && b in LogSet(logs[m]);
      assert LogBefore(logs, n, m);
    }
  }

  lemma {:induction false} InEarlierLog(s: State, a: Entry) returns (n: nat)
    requires MemoryOk(s) && LogsHold(s) && a in s.ImmEntries()
    ensures n in s.disk.logs && s.logNumber <= n < s.logFile && a in LogSet(s.disk.logs[n])
  {
    assert a in LogEntries(s.disk.logs, s.logNumber);
    n :| n in s.disk.logs && s.logNumber <= n && a in LogSet(s.disk.logs[n]);
    NotInBoth(s, a);
    assert a !in LogEntries(s.disk.logs, s.logFile);
  }

  lemma {:induction false} NotInBoth(s: State, e: Entry)
    requires s.View().Ok()
    ensures !(e in Set(s.Full()) && e in Set(s.ImmEntries()))
  {
  }

  lemma {:induction false} LaterLogsOk(logs: map<nat, seq<Batch>>, from: nat, later: nat)
    requires LogsOk(logs, from) && from <= later
    ensures LogsOk(logs, later)
  {
  }

  lemma {:induction false} TaskDb(s: State, task: Task)
    requires MemoryOk(s) && TaskOk(s.version, s.ImmEntries(), task) && task.Compact?
    ensures CanCompact(s.View(), task.level, task.sel, task.smallestSnapshot, task.outputs)
    ensures CompactedDb(s.View(), task.level, task.sel, task.outputs) == s.View().(version := Outcome(s.version, task))
  {
  }

  lemma {:induction false} HarmlessLater(db: Db, later: Db, imm: seq<Entry>, task: Task)
    requires Harmless(db, task) && TaskOk(db.version, imm, task)
    requires later.version == db.version && db.All() <= later.All()
    ensures Harmless(later, task)
  {
    if task.Compact? {
      NoneUncoveredLater(db, later, task.level, task.sel, task.smallestSnapshot);
    }
  }

  lemma {:induction false} TaskReads(s: State, task: Task)
    requires MemoryOk(s) && TaskOk(s.version, s.ImmEntries(), task) && task.Compact? && task.smallestSnapshot <= s.floor
    requires Harmless(s.View(), task)
    ensures s.View().(version := Outcome(s.version, task)).Ok()
    ensures ReadsLike(s.View().(version := Outcome(s.version, task)).All(), s.history, s.floor)
  {
    var after := CompactedDb(s.View(), task.level, task.sel, task.outputs);
    TaskDb(s, task);
    CompactionKeepsOrder(s.View(), task.level, task.sel, task.smallestSnapshot, task.outputs);
    CompactionKeepsReadsIff(s.View(), task.level, task.sel, task.smallestSnapshot, task.outputs);
    forall user: UserKey, snapshot: Sequence | s.floor <= snapshot
      ensures ReadAt(after.All(), user, snapshot) == ReadAt(s.history, user, snapshot)
    {
      assert ReadAt(after.All(), user, snapshot) == ReadAt(s.View().All(), user, snapshot);
      assert ReadAt(s.View().All(), user, snapshot) == ReadAt(s.history, user, snapshot);
    }
  }

  /** What the disk holds from the committed version on: the same as memory, but for a compaction under way. */
  ghost function Durable(s: State): set<Entry> {
    Deep(s.Committed(), 0) + LogEntries(s.disk.logs, s.LogStart())
  }

  lemma {:induction false} DurableFlush(s: State)
    requires LogsHold(s) && WorkOk(s) && s.work.Logged? && s.work.task.IsFlush()
    ensures Durable(s) == s.View().All()
  {
    TaskKeepsOrder(s.version, s.ImmEntries(), s.work.task);
    assert LogEntries(s.disk.logs, s.LogStart()) == Set(s.Full());
  }

  lemma {:induction false} DurableMove(s: State)
    requires LogsHold(s) && WorkOk(s) && s.work.Logged? && s.work.task.Move?
    ensures Durable(s) == s.View().All()
  {
    TaskKeepsOrder(s.version, s.ImmEntries(), s.work.task);
    assert LogEntries(s.disk.logs, s.LogStart()) == Set(s.Full()) + Set(s.ImmEntries());
  }

  lemma {:induction false} DurableIdle(s: State)
    requires LogsHold(s) && !s.work.Logged?
    ensures Durable(s) == s.View().All()
  {
  }

  lemma {:induction false} DurableCompaction(s: State)
    requires LogsHold(s) && s.work.Logged? && s.work.task.Compact?
    ensures Durable(s) == s.View().(version := s.Committed()).All()
  {
  }

  lemma {:induction false} DurableIs(s: State)
    requires LogsHold(s) && WorkOk(s)
    ensures s.work.Logged? && s.work.task.Compact? ==> Durable(s) == s.View().(version := s.Committed()).All()
    ensures !(s.work.Logged? && s.work.task.Compact?) ==> Durable(s) == s.View().All()
  {
    if !s.work.Logged? {
      DurableIdle(s);
    } else if s.work.task.Compact? {
      DurableCompaction(s);
    } else if s.work.task.Move? {
      DurableMove(s);
    } else {
      DurableFlush(s);
    }
  }

  lemma {:induction false} DurableReads(s: State)
    requires Inv(s)
    ensures ReadsLike(Durable(s), s.history, s.floor) && Distinct(Durable(s))
  {
    DurableIs(s);
    if s.work.Logged? && s.work.task.Compact? {
      TaskReads(s, s.work.task);
    }
  }

  lemma {:induction false} OlderParts(A: set<Entry>, A': set<Entry>, B: set<Entry>, B': set<Entry>)
    requires OlderThan(A, B) && A' <= A && B' <= B
    ensures OlderThan(A', B')
  {
  }

  lemma {:induction false} OlderJoin(A: set<Entry>, A': set<Entry>, B: set<Entry>)
    requires OlderThan(A, B) && OlderThan(A', B)
    ensures OlderThan(A + A', B)
  {
  }

  lemma {:induction false} LaterEntries(logs: map<nat, seq<Batch>>, from: nat, later: nat)
    requires from <= later
    ensures LogEntries(logs, later) <= LogEntries(logs, from)
  {
  }

  lemma {:induction false} CommittedOlder(s: State)
    requires Inv(s)
    ensures OlderThan(Deep(s.Committed(), 0), LogEntries(s.disk.logs, s.LogStart()))
  {
    LaterEntries(s.disk.logs, s.logNumber, s.LogStart());
    OlderParts(Deep(s.version, 0), Deep(s.version, 0), LogEntries(s.disk.logs, s.logNumber),
        LogEntries(s.disk.logs, s.LogStart()));
    if s.work.Logged? {
      TaskKeepsOrder(s.version, s.ImmEntries(), s.work.task);
      if s.work.task.IsFlush() {
        ImmOlder(s);
        OlderJoin(Set(s.ImmEntries()), Deep(s.version, 0), LogEntries(s.disk.logs, s.LogStart()));
      } else {
        OlderParts(Deep(s.version, 0), Deep(s.Committed(), 0), LogEntries(s.disk.logs, s.LogStart()),
            LogEntries(s.disk.logs, s.LogStart()));
      }
    }
  }

  lemma {:induction false} CommittedInOrder(s: State)
    requires Inv(s)
    ensures VersionOk(s.Committed()) && UniqueNumbers(s.Committed()) && LogsOk(s.disk.logs, s.LogStart())
  {
    LaterLogsOk(s.disk.logs, s.logNumber, s.LogStart());
    if s.work.Logged? {
      TaskKeepsOrder(s.version, s.ImmEntries(), s.work.task);
      TaskKeepsNumbers(s.version, s.ImmEntries(), s.work.task);
    }
  }

  lemma {:induction false} CommittedTables(s: State)
    requires Inv(s)
    ensures TablesThere(s.disk.tables, s.Committed())
  {
    if s.work.Logged? {
      forall l, f | 0 <= l < NUM_LEVELS && Placed(s.Committed(), l, f) ensures TableThere(s.disk.tables, f) {
        var from := PlacedAfter(s.version, s.ImmEntries(), s.work.task, l, f);
        assert from.Stayed? ==> Placed(s.version, l, f);
      }
    }
  }

  lemma {:induction false} CommittedNumbers(s: State)
    requires Inv(s)
    ensures NumbersBelow(s.Committed(), Counters(s.disk).nextFile)
  {
    var records := s.disk.manifests[s.disk.current];
    forall l, f | 0 <= l < NUM_LEVELS && f in s.Committed()[l] ensures f.number < Counters(s.disk).nextFile {
      OneByOneFiles([], Edits(records), l);
      assert f in OneByOne([], Edits(records), l);
    }
  }

  lemma {:induction false} HistoryReached(s: State)
    requires Inv(s)
    ensures Reaches(s.floor, Counters(s.disk).lastSequence, LogEntries(s.disk.logs, s.LogStart()))
    ensures forall e :: e in s.history ==> Reaches(e.key.sequence, Counters(s.disk).lastSequence,
            LogEntries(s.disk.logs, s.LogStart()))
  {
    var last, E := Counters(s.disk).lastSequence, LogEntries(s.disk.logs, s.LogStart());
    forall q: nat | q <= s.LastLogged() ensures Reaches(q, last, E) {
      if s.pending.Logging? && s.pending.batch.entries != [] {
        var e := LastPending(s);
      }
    }
  }

  /** The memtable that a batch is going into holds both. */
  lemma {:induction false} FullIs(s: State)
    requires Sorted(s.mem) && SequencesOk(s)
    ensures Sorted(s.Full())
    ensures Set(s.Full()) == Set(s.mem) + if s.pending.Logging? then Set(s.pending.batch.entries) else {}
  {
    if s.pending.Logging? {
      assert forall e :: e in s.mem ==> e in Set(s.mem);
      InsertAllOk(s.mem, s.pending.batch);
    }
  }

  /** The last write of the batch being logged is in the current log. */
  lemma {:induction false} LastPending(s: State) returns (e: Entry)
    requires Sorted(s.mem) && SequencesOk(s) && LogsHold(s) && s.pending.Logging? && s.pending.batch.entries != []
    ensures e in LogEntries(s.disk.logs, s.LogStart()) && e.key.sequence == s.LastLogged()
  {
    var b := s.pending.batch;
    e := b.entries[|b.entries| - 1];
    FullIs(s);
    assert e in Set(b.entries);
    LaterEntries(s.disk.logs, s.LogStart(), s.logFile);
  }

  /** A crash at any moment leaves a disk from which recovery gives back every batch that reached a log. */
  lemma {:induction false} CrashSafe(s: State)
    requires Inv(s)
    ensures DiskOk(s.disk, s.history, s.floor)
  {
    RecoverySame(s.disk.manifests[s.disk.current], s.Committed());
    CommittedInOrder(s);
    CommittedOlder(s);
    CommittedTables(s);
    CommittedNumbers(s);
    DurableReads(s);
    HistoryReached(s);
  }
}
