/** Opening a store after a crash (db_impl, version_set): every step of recovery keeps the disk recoverable, and what
    it ends with keeps all that a running store keeps and reads like everything that reached a log. */
module Recovery {
  import opened Keys
  import opened Cursors
  import opened Reads
  import opened Versions
  import opened Inputs
  import opened Builders
  import opened Installs
  import opened Manifests
  import opened Disks
  import opened Store
  import opened Background

  // ----- tables made from logs -----

  /** The edit that recovery gathers: new tables at level 0. */
  function AtLevel0(files: Level): Edit {
    Edit({}, AtLevel(0, files))
  }

  ghost function With(v: Version, files: Level): Version {
    Applied(v, AtLevel0(files))
  }

  /** Each table could have been flushed on top of the version with those before it. */
  ghost predicate Flushable(v: Version, files: Level) {
    files == [] || (Flushable(v, Front(files)) && CanFlush(With(v, Front(files)), 0, Back(files)))
  }

  lemma {:induction false} NoFilesAdded(v: Version)
    requires Shaped(v)
    ensures With(v, []) == v
  {
    forall l | 0 <= l < NUM_LEVELS ensures With(v, [])[l] == v[l] {
      UntouchedLevel(v, AtLevel0([]), l);
    }
  }

  lemma {:induction false} AddedAt0(files: Level, l: nat)
    ensures AddedAt(AtLevel0(files).added, l) == if l == 0 then files else []
    ensures DeletedAt(AtLevel0(files), l) == {}
  {
    AddedAtLevel(0, files, l);
  }

  /** Level 0 after adding files with new numbers. */
  ghost predicate AddsNew(v: Version, files: Level) {
    Shaped(v) && Numbered(files) && Foreign(v[0], files)
  }

  lemma {:induction false} WithLevels(v: Version, files: Level)
    requires AddsNew(v, files)
    ensures Ordered(With(v, files)[0]) && forall f :: f in With(v, files)[0] <==> f in v[0] || f in files
    ensures forall l :: 1 <= l < NUM_LEVELS ==> With(v, files)[l] == v[l]
  {
    AddedAt0(files, 0);
    EditedLevel(v, AtLevel0(files), 0);
    forall l | 1 <= l < NUM_LEVELS ensures With(v, files)[l] == v[l] {
      AddedAt0(files, l);
      UntouchedLevel(v, AtLevel0(files), l);
    }
  }

  lemma {:induction false} FrontBack(files: Level)
    requires files != []
    ensures files == Front(files) + [Back(files)]
  {
  }

  /** One edit with all tables makes the version that flushing them one by one makes. */
  lemma {:induction false} OneMore(v: Version, files: Level)
    requires files != [] && AddsNew(v, files) && CanFlush(With(v, Front(files)), 0, Back(files))
    ensures With(v, files) == Applied(With(v, Front(files)), FlushEdit(0, Back(files)))
  {
    FrontBack(files);
    assert AddsNew(v, Front(files));
    WithLevels(v, files);
    WithLevels(v, Front(files));
    FlushedLevels(With(v, Front(files)), 0, Back(files));
    var a, b := With(v, files), Applied(With(v, Front(files)), FlushEdit(0, Back(files)));
    OrderedUnique(a[0], b[0]);
    assert forall l :: 0 <= l < NUM_LEVELS ==> a[l] == b[l];
  }

  lemma {:induction false} FlushedAll(v: Version, files: Level)
    requires VersionOk(v) && Flushable(v, files)
    ensures AddsNew(v, files) && VersionOk(With(v, files)) && Deep(With(v, files), 0) == Deep(v, 0) + Union(files)
    decreases |files|
  {
    if files == [] {
      NoFilesAdded(v);
      assert Union([]) == {};
    } else {
      FlushedAll(v, Front(files));
      WithLevels(v, Front(files));
      NumbersGrow(v, files);
      FlushedNext(v, files);
    }
  }

  lemma {:induction false} FlushedNext(v: Version, files: Level)
    requires files != [] && AddsNew(v, files) && CanFlush(With(v, Front(files)), 0, Back(files))
    requires Deep(With(v, Front(files)), 0) == Deep(v, 0) + Union(Front(files))
    ensures VersionOk(With(v, files)) && Deep(With(v, files), 0) == Deep(v, 0) + Union(files)
  {
    OneMore(v, files);
    Flushed(With(v, Front(files)), 0, Back(files));
    UnionSnoc(files);
  }

  lemma {:induction false} UnionSnoc(files: Level)
    requires files != []
    ensures Union(files) == Union(Front(files)) + Set(Back(files).entries)
  {
    FrontBack(files);
  }

  lemma {:induction false} NumbersGrow(v: Version, files: Level)
    requires files != [] && AddsNew(v, Front(files)) && NumbersBelow(With(v, Front(files)), Back(files).number)
    requires forall f :: f in v[0] || f in Front(files) ==> f in With(v, Front(files))[0]
    ensures AddsNew(v, files)
  {
    FrontBack(files);
    assert forall f :: f in With(v, Front(files))[0] ==> f.number < Back(files).number;
  }

  /** All numbers of the tables are new, from n on, and there is one file for each. */
  ghost predicate NumberedFrom(files: Level, n: nat) {
    Numbered(files) && forall f :: f in files ==> n <= f.number
  }

  lemma {:induction false} WithNumbers(v: Version, files: Level, n: nat)
    requires AddsNew(v, files) && UniqueNumbers(v) && NumbersBelow(v, n) && NumberedFrom(files, n)
    ensures UniqueNumbers(With(v, files))
  {
    WithLevels(v, files);
    forall k, l, f, g | 0 <= k < NUM_LEVELS && 0 <= l < NUM_LEVELS && Placed(With(v, files), k, f)
                        && Placed(With(v, files), l, g) && f.number == g.number
      ensures k == l && f == g
    {
      assert Placed(v, k, f) || (k == 0 && f in files);
      assert Placed(v, l, g) || (l == 0 && g in files);
    }
  }

  // ----- the steps of DB::Open -----

  /** What recovery makes of the logs: tables that together hold all their entries, under numbers not used since
      the manifest's last record. */
  ghost predicate RecoversTo(d: Disk, files: Level) {
    && Flushable(Recovered(d), files) && NumberedFrom(files, Counters(d).nextFile + 1)
    && Union(files) == LogEntries(d.logs, Counters(d).logNumber)
  }

  /** One of the batches that recovery reads. */
  ghost predicate ToReplay(d: Disk, n: nat, b: Batch) {
    n in d.logs && Counters(d).logNumber <= n && b in d.logs[n]
  }

  /** The last sequence is the manifest's or that of some batch in the logs, and no other is beyond it. */
  ghost predicate IsLast(d: Disk, q: Sequence) {
    && Counters(d).lastSequence <= q < MAX_SEQUENCE && (forall n, b :: ToReplay(d, n, b) ==> LastNumber(b) <= q)
    && (q == Counters(d).lastSequence || exists n, b :: ToReplay(d, n, b) && LastNumber(b) == q)
  }

  lemma {:induction false} OneLast(d: Disk, q: Sequence, q': Sequence)
    requires IsLast(d, q) && IsLast(d, q')
    ensures q == q'
  {
  }

  lemma {:induction false} LastIsMost(d: Disk, q: Sequence)
    requires LogsOk(d.logs, Counters(d).logNumber) && IsLast(d, q)
    ensures AtMost(LogEntries(d.logs, Counters(d).logNumber), q)
  {
    forall e | e in LogEntries(d.logs, Counters(d).logNumber) ensures e.key.sequence <= q {
      var n :| n in d.logs && Counters(d).logNumber <= n && e in LogSet(d.logs[n]);
      var b :| b in d.logs[n] && e in b.entries;
      assert ToReplay(d, n, b);
      var i :| 0 <= i < |b.entries| && b.entries[i] == e;
      var k :| 0 <= k < |d.logs[n]| && d.logs[n][k] == b;
    }
  }

  /** Writing tables under new numbers keeps the disk recoverable, whether or not recovery gets any further. */
  lemma {:induction false} TablesWritten(d: Disk, H: set<Entry>, floor: Sequence, files: Level)
    requires DiskOk(d, H, floor) && NumberedFrom(files, Counters(d).nextFile)
    ensures DiskOk(d.(tables := WithTables(d.tables, files)), H, floor)
  {
    KeepsTables(d.tables, files, Recovered(d), Counters(d).nextFile);
  }

  /** So does creating a new log... */
  lemma {:induction false} LogCreated(d: Disk, H: set<Entry>, floor: Sequence, n: nat)
    requires DiskOk(d, H, floor) && Counters(d).logNumber <= n && forall m :: m in d.logs ==> m < n
    ensures DiskOk(d.(logs := d.logs[n := []]), H, floor)
  {
    CreatedLog(d.logs, Counters(d).logNumber, n);
  }

  /** ... and writing a new manifest, which takes the number that the last record left free. */
  lemma {:induction false} ManifestWritten(d: Disk, H: set<Entry>, floor: Sequence, records: seq<Record>)
    requires DiskOk(d, H, floor)
    ensures DiskOk(d.(manifests := d.manifests[Counters(d).nextFile := records]), H, floor)
  {
  }

  // ----- the store that comes up -----

  /** The new manifest: a snapshot of the version found, then the edit with the recovered tables. */
  function NewManifest(v: Version, files: Level, newLog: nat, lastSequence: Sequence): seq<Record> {
    [Base(SnapshotEdit(v)), Change(AtLevel0(files), newLog, newLog + 1, lastSequence)]
  }

  ghost function OpenedDisk(d: Disk, files: Level, newLog: nat, lastSequence: Sequence): Disk
  {
    var manifest := Counters(d).nextFile;
    Disk(d.logs[newLog := []], WithTables(d.tables, files),
         d.manifests[manifest := NewManifest(Recovered(d), files, newLog, lastSequence)], manifest)
  }

  ghost function Opened(d: Disk, H: set<Entry>, floor: Sequence, files: Level, newLog: nat,
                        lastSequence: Sequence): State
  {
    State([], NoImm, NoBatch, With(Recovered(d), files), lastSequence, newLog + 1, newLog, newLog, Counters(d).nextFile,
          [], Idle, {}, OpenedDisk(d, files, newLog, lastSequence), H, floor)
  }

  /** The new log's number comes after those of the logs and of the new tables. */
  ghost predicate NewLog(d: Disk, files: Level, newLog: nat)
  {
    && Counters(d).nextFile < newLog && (forall n :: n in d.logs ==> n < newLog)
    && forall f :: f in files ==> f.number < newLog
  }

  lemma {:induction false} OpenedVersion(d: Disk, H: set<Entry>, floor: Sequence, files: Level)
    requires DiskOk(d, H, floor) && RecoversTo(d, files)
    ensures AddsNew(Recovered(d), files) && VersionOk(With(Recovered(d), files))
    ensures UniqueNumbers(With(Recovered(d), files))
    ensures Deep(With(Recovered(d), files), 0) == Deep(Recovered(d), 0) + LogEntries(d.logs, Counters(d).logNumber)
  {
    FlushedAll(Recovered(d), files);
    WithNumbers(Recovered(d), files, Counters(d).nextFile);
  }

  lemma {:induction false} WithBelow(v: Version, files: Level, n: nat, next: nat)
    requires AddsNew(v, files) && NumbersBelow(v, n) && n <= next && forall f :: f in files ==> f.number < next
    ensures NumbersBelow(With(v, files), next)
  {
    WithLevels(v, files);
    forall l, f | 0 <= l < NUM_LEVELS && f in With(v, files)[l] ensures f.number < next {
      assert f in v[l] || f in files;
    }
  }

  lemma {:induction false} OpenedMemory(d: Disk, H: set<Entry>, floor: Sequence, files: Level, newLog: nat, q: Sequence)
    requires DiskOk(d, H, floor) && RecoversTo(d, files) && NewLog(d, files, newLog) && IsLast(d, q)
    ensures MemoryOk(Opened(d, H, floor, files, newLog, q))
  {
    var s := Opened(d, H, floor, files, newLog, q);
    OpenedVersion(d, H, floor, files);
    WithBelow(Recovered(d), files, Counters(d).nextFile, newLog + 1);
    assert Set(s.Full()) == {} && Set(s.ImmEntries()) == {};
    assert s.View().All() == Deep(Recovered(d), 0) + LogEntries(d.logs, Counters(d).logNumber);
  }

  lemma {:induction false} OpenedSequences(d: Disk, H: set<Entry>, floor: Sequence, files: Level, newLog: nat,
                                           q: Sequence)
    requires DiskOk(d, H, floor) && RecoversTo(d, files) && IsLast(d, q)
    ensures SequencesOk(Opened(d, H, floor, files, newLog, q)) && SnapshotsOk(Opened(d, H, floor, files, newLog, q))
  {
    OpenedVersion(d, H, floor, files);
    LastIsMost(d, q);
  }

  lemma {:induction false} AllTablesThere(v: Version, files: Level, n: nat, tables: map<nat, seq<Entry>>)
    requires AddsNew(v, files) && TablesThere(tables, v) && NumbersBelow(v, n) && NumberedFrom(files, n)
    ensures TablesThere(WithTables(tables, files), With(v, files))
  {
    WithLevels(v, files);
    KeepsTables(tables, files, v, n);
    forall l, f | 0 <= l < NUM_LEVELS && Placed(With(v, files), l, f) ensures TableThere(WithTables(tables, files), f) {
      if !Placed(v, l, f) {
        var i :| 0 <= i < |files| && files[i] == f;
        TableAdded(tables, files, i);
      }
    }
  }

  lemma {:induction false} OpenedTables(d: Disk, H: set<Entry>, floor: Sequence, files: Level, newLog: nat, q: Sequence)
    requires DiskOk(d, H, floor) && RecoversTo(d, files)
    ensures TablesOk(Opened(d, H, floor, files, newLog, q))
  {
    OpenedVersion(d, H, floor, files);
    AllTablesThere(Recovered(d), files, Counters(d).nextFile, d.tables);
  }

  lemma {:induction false} OpenedLogs(d: Disk, H: set<Entry>, floor: Sequence, files: Level, newLog: nat, q: Sequence)
    requires DiskOk(d, H, floor) && NewLog(d, files, newLog)
    ensures LogsHold(Opened(d, H, floor, files, newLog, q))
  {
    CreatedLog(d.logs, Counters(d).logNumber, newLog);
  }

  lemma {:induction false} OpenedLeads(v: Version, files: Level, r: Record)
    requires AddsNew(v, files) && UniqueNumbers(v) && r.edit == AtLevel0(files)
    ensures LeadsTo([Base(SnapshotEdit(v))] + [r], With(v, files))
  {
    var base := [Base(SnapshotEdit(v))];
    SnapshotLeads(v);
    forall l | 0 <= l < NUM_LEVELS
      ensures Numbered(AddedAt(r.edit.added, l)) && Foreign(AllAdded(Edits(base), l), AddedAt(r.edit.added, l))
    {
      SnapshotAdds(v, l);
      AddedAt0(files, l);
    }
    RecordAppended(base, v, r);
  }

  lemma {:induction false} OpenedBelow(v: Version, files: Level, r: Record, newLog: nat)
    requires NumbersBelow(v, newLog) && r.edit == AtLevel0(files) && forall f :: f in files ==> f.number < newLog
    ensures AddedBelow([Base(SnapshotEdit(v))] + [r], newLog + 1)
  {
    var base := [Base(SnapshotEdit(v))];
    forall l, f | 0 <= l < NUM_LEVELS && f in AllAdded(Edits(base), l) ensures f.number < newLog {
      SnapshotAdds(v, l);
    }
    forall l, f | 0 <= l < NUM_LEVELS && f in AddedAt(r.edit.added, l) ensures f.number < newLog + 1 {
      AddedAt0(files, l);
    }
    AddedBelowAppended(base, r, newLog, newLog + 1);
  }

  lemma {:induction false} OpenedManifest(v: Version, files: Level, n: nat, newLog: nat, q: Sequence)
    requires AddsNew(v, files) && UniqueNumbers(v) && NumbersBelow(v, n) && NumberedFrom(files, n)
    requires n < newLog && forall f :: f in files ==> f.number < newLog
    ensures LeadsTo(NewManifest(v, files, newLog, q), With(v, files))
    ensures Sinking(NewManifest(v, files, newLog, q), With(v, files))
    ensures AddedBelow(NewManifest(v, files, newLog, q), newLog + 1)
  {
    var base, r := [Base(SnapshotEdit(v))], Change(AtLevel0(files), newLog, newLog + 1, q);
    assert NewManifest(v, files, newLog, q) == base + [r];
    OpenedLeads(v, files, r);
    OpenedBelow(v, files, r, newLog);
    SnapshotLeads(v);
    forall l | 0 <= l < NUM_LEVELS ensures AllAdded(Edits(base), l) == v[l] { SnapshotAdds(v, l); }
    OpenedSinking(v, files, n, newLog, q, base, r);
  }

  lemma {:induction false} OpenedSinking(v: Version, files: Level, n: nat, newLog: nat, q: Sequence,
                                         base: seq<Record>, r: Record)
    requires AddsNew(v, files) && NumbersBelow(v, n) && NumberedFrom(files, n) && r.edit == AtLevel0(files)
    requires Sinking(base, v) && forall l :: 0 <= l < NUM_LEVELS ==> AllAdded(Edits(base), l) == v[l]
    ensures Sinking(base + [r], With(v, files))
  {
    WithLevels(v, files);
    forall l { AddedAt0(files, l); }
    forall l, f | 0 <= l < NUM_LEVELS && Placed(With(v, files), l, f)
      ensures Placed(v, l, f) || NewAt(base, r.edit, l, f)
    {
    }
    SinkingAppended(base, v, r, With(v, files));
  }

  lemma {:induction false} OpenedMost(d: Disk, H: set<Entry>, floor: Sequence, files: Level, q: Sequence)
    requires DiskOk(d, H, floor) && RecoversTo(d, files) && IsLast(d, q)
    ensures AtMost(Deep(With(Recovered(d), files), 0), q)
  {
    OpenedVersion(d, H, floor, files);
    LastIsMost(d, q);
  }

  lemma {:induction false} OpenedCommitted(d: Disk, H: set<Entry>, floor: Sequence, files: Level, newLog: nat,
                                           q: Sequence)
    requires DiskOk(d, H, floor) && RecoversTo(d, files) && NewLog(d, files, newLog) && IsLast(d, q)
    ensures CommittedOk(Opened(d, H, floor, files, newLog, q))
  {
    OpenedVersion(d, H, floor, files);
    OpenedMost(d, H, floor, files, q);
    OpenedManifest(Recovered(d), files, Counters(d).nextFile, newLog, q);
  }

  /** From any disk that a crash can leave, DB::Open comes up with a store that keeps every property of a running
      one, for the same history. */
  lemma {:induction false} OpenedKeeps(d: Disk, H: set<Entry>, floor: Sequence, files: Level, newLog: nat, q: Sequence)
    requires DiskOk(d, H, floor) && RecoversTo(d, files) && NewLog(d, files, newLog) && IsLast(d, q)
    ensures Inv(Opened(d, H, floor, files, newLog, q))
  {
    OpenedMemory(d, H, floor, files, newLog, q);
    OpenedSequences(d, H, floor, files, newLog, q);
    OpenedTables(d, H, floor, files, newLog, q);
    OpenedLogs(d, H, floor, files, newLog, q);
    OpenedCommitted(d, H, floor, files, newLog, q);
  }
}
