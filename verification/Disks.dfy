/** What survives a crash: logs of batches, table files, manifests and the CURRENT file; and when that is enough
    to give back every batch that reached a log. */
module Disks {
  import opened Keys
  import opened Cursors
  import opened Reads
  import opened Versions
  import opened Builders
  import opened Installs
  import opened Manifests

  /** One log record: writes with consecutive sequence numbers. */
  datatype Batch = Batch(first: nat, entries: seq<Entry>)

  ghost predicate BatchOk(b: Batch) {
    && 1 <= b.first && b.first + |b.entries| <= MAX_SEQUENCE
    && forall i :: 0 <= i < |b.entries| ==> b.entries[i].key.sequence == b.first + i
  }

  /** The number of a batch's last write; of an empty one, the number before its first. */
  function LastNumber(b: Batch): int {
    b.first + |b.entries| - 1
  }

  /** Environment files; what has been appended or written stays. */
  datatype Disk = Disk(logs: map<nat, seq<Batch>>, tables: map<nat, seq<Entry>>,
                       manifests: map<nat, seq<Record>>, current: nat)

  // ----- logs -----

  ghost function LogSet(log: seq<Batch>): set<Entry> {
    set b, e | b in log && e in b.entries :: e
  }

  ghost predicate OlderThan(A: set<Entry>, B: set<Entry>) {
    forall a, b :: a in A && b in B ==> a.key.sequence < b.key.sequence
  }

  ghost predicate BatchBefore(a: Batch, b: Batch) {
    OlderThan(Set(a.entries), Set(b.entries))
  }

  ghost predicate Ascending(log: seq<Batch>) {
    && (forall i :: 0 <= i < |log| ==> BatchOk(log[i]))
    && forall i, j {:trigger BatchBefore(log[i], log[j])} :: 0 <= i < j < |log| ==> BatchBefore(log[i], log[j])
  }

  ghost predicate LogBefore(logs: map<nat, seq<Batch>>, n: nat, m: nat)
    requires n in logs && m in logs
  {
    OlderThan(LogSet(logs[n]), LogSet(logs[m]))
  }

  /** From log number `from` on, logs and their batches are in the order of their sequence numbers. */
  ghost predicate LogsOk(logs: map<nat, seq<Batch>>, from: nat) {
    && (forall n :: n in logs && from <= n ==> Ascending(logs[n]))
    && forall n, m {:trigger LogBefore(logs, n, m)} :: n in logs && m in logs && from <= n < m ==> LogBefore(logs, n, m)
  }

  ghost function LogEntries(logs: map<nat, seq<Batch>>, from: nat): set<Entry> {
    set n, e | n in logs && from <= n && e in LogSet(logs[n]) :: e
  }

  lemma {:induction false} CreatedLog(logs: map<nat, seq<Batch>>, from: nat, n: nat)
    requires LogsOk(logs, from) && forall m :: m in logs ==> m < n
    ensures LogsOk(logs[n := []], from) && LogEntries(logs[n := []], from) == LogEntries(logs, from)
    ensures LogsOk(logs[n := []], n) && LogEntries(logs[n := []], n) == {}
  {
    var logs' := logs[n := []];
    assert LogSet([]) == {};
    forall k, m | k in logs' && m in logs' && from <= k < m ensures LogBefore(logs', k, m) {
      if m != n {
        assert LogBefore(logs, k, m);
      }
    }
    assert forall m :: m in logs ==> logs'[m] == logs[m];
  }

  lemma {:induction false} LogSetSnoc(log: seq<Batch>, b: Batch)
    ensures LogSet(log + [b]) == LogSet(log) + Set(b.entries)
  {
    forall e ensures e in LogSet(log + [b]) <==> e in LogSet(log) + Set(b.entries) {
      if c :| c in log + [b] && e in c.entries {
        assert c in log || c == b;
      }
      assert b in log + [b];
      if c :| c in log && e in c.entries {
        assert c in log + [b];
      }
    }
  }

  // ----- tables -----

  ghost predicate TableThere(tables: map<nat, seq<Entry>>, f: File) {
    f.number in tables && tables[f.number] == f.entries
  }

  ghost predicate TablesThere(tables: map<nat, seq<Entry>>, v: Version) {
    forall l, f {:trigger Placed(v, l, f)} :: 0 <= l < NUM_LEVELS && Placed(v, l, f) ==> TableThere(tables, f)
  }

  // ----- the whole disk -----

  ghost predicate AtMost(E: set<Entry>, q: nat) {
    forall e :: e in E ==> e.key.sequence <= q
  }

  /** The last sequence that recovery arrives at is at least q. */
  ghost predicate Reaches(q: nat, last: nat, E: set<Entry>) {
    q <= last || exists e :: e in E && q <= e.key.sequence
  }

  /** For all snapshots that may still be read, E reads like H. */
  ghost predicate ReadsLike(E: set<Entry>, H: set<Entry>, floor: Sequence) {
    forall user, snapshot {:trigger ReadAt(E, user, snapshot)} :: floor <= snapshot ==>
        ReadAt(E, user, snapshot) == ReadAt(H, user, snapshot)
  }

  /** The manifest that CURRENT names leads to v. */
  ghost predicate ManifestOk(d: Disk, v: Version) {
    && d.current in d.manifests
    && var records := d.manifests[d.current];
    && Complete(records) && LeadsTo(records, v) && Sinking(records, v) && AddedBelow(records, Last(records).nextFile)
    && d.current < Last(records).nextFile && Last(records).logNumber < Last(records).nextFile
  }

  /** The records of the manifest that CURRENT names. */
  function CurrentManifest(d: Disk): seq<Record> {
    if d.current in d.manifests then d.manifests[d.current] else []
  }

  /** The numbers that recovery starts from. */
  ghost function Counters(d: Disk): (r: Record)
    ensures r.Change?
  {
    if Complete(CurrentManifest(d)) then Last(CurrentManifest(d)) else Change(Edit({}, []), 0, 0, 0)
  }

  ghost function Recovered(d: Disk): Version {
    RecoveredVersion(CurrentManifest(d))
  }

  /** Recovery will find a version in order, its tables, and the rest of the history in the logs after it. */
  ghost predicate DiskOk(d: Disk, H: set<Entry>, floor: Sequence) {
    && d.current in d.manifests && ManifestOk(d, Recovered(d))
    && var v, last, from := Recovered(d), Counters(d).lastSequence, Counters(d).logNumber;
    && VersionOk(v) && UniqueNumbers(v) && NumbersBelow(v, Counters(d).nextFile)
    && TablesThere(d.tables, v)
    && LogsOk(d.logs, from) && OlderThan(Deep(v, 0), LogEntries(d.logs, from)) && AtMost(Deep(v, 0), last)
    && Distinct(H) && Distinct(Deep(v, 0) + LogEntries(d.logs, from))
    && ReadsLike(Deep(v, 0) + LogEntries(d.logs, from), H, floor)
    && Reaches(floor, last, LogEntries(d.logs, from))
    && (forall e :: e in H ==> Reaches(e.key.sequence, last, LogEntries(d.logs, from)))
    && last < MAX_SEQUENCE
  }
}
