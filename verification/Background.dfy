/** The background steps of the store (db_impl, version_set): build a job's tables, record its edit in the manifest,
    install the new version, and delete obsolete files; readers come and go meanwhile. */
module Background {
  import opened Keys
  import opened Cursors
  import opened Reads
  import opened Versions
  import opened Installs
  import opened Manifests
  import opened Lookup
  import opened Tasks
  import opened Disks
  import opened Store

  // ----- snapshots and readers -----

  function Snap(s: State): State {
    s.(snapshots := s.snapshots + [s.lastSequence])
  }

  function Release(s: State, i: nat): State {
    if i < |s.snapshots| then s.(snapshots := s.snapshots[..i] + s.snapshots[i + 1..]) else s
  }

  /** smallest_snapshot: the oldest live snapshot, or the last sequence when there is none. */
  function OldestSnapshot(s: State): Sequence {
    if s.snapshots == [] then s.lastSequence else s.snapshots[0]
  }

  /** An iterator holds on to the current version. */
  function Pin(s: State): State {
    s.(pinned := s.pinned + {s.version})
  }

  function Unpin(s: State, v: Version): State {
    s.(pinned := s.pinned - {v})
  }

  lemma {:induction false} OldestIsOldest(s: State)
    requires SnapshotsOk(s)
    ensures s.floor <= OldestSnapshot(s) <= s.lastSequence
    ensures forall j :: 0 <= j < |s.snapshots| ==> OldestSnapshot(s) <= s.snapshots[j]
  {
  }

  /** Steps that change the list of snapshots or of pinned versions only. */
  ghost predicate OnlyReaders(s: State, s': State) {
    s'.pinned <= s.pinned + {s.version} && SnapshotsOk(s') && s' == s.(snapshots := s'.snapshots, pinned := s'.pinned)
  }

  lemma {:induction false} ReadersMemory(s: State, s': State)
    requires MemoryOk(s) && SequencesOk(s) && TablesOk(s) && OnlyReaders(s, s')
    ensures MemoryOk(s') && SequencesOk(s') && TablesOk(s')
  {
    MemoryFrame(s, s');
    SequencesFrame(s, s');
    TablesFrame(s, s');
  }

  lemma {:induction false} ReadersDisk(s: State, s': State)
    requires CommittedOk(s) && LogsHold(s) && WorkOk(s) && OnlyReaders(s, s')
    ensures CommittedOk(s') && LogsHold(s') && WorkOk(s')
  {
    CommittedFrame(s, s');
    LogsFrame(s, s');
    WorkFrame(s, s');
  }

  lemma {:induction false} ReadersKeep(s: State, s': State)
    requires Inv(s) && OnlyReaders(s, s')
    ensures Inv(s')
  {
    ReadersMemory(s, s');
    ReadersDisk(s, s');
  }

  lemma {:induction false} SnapKeeps(s: State)
    requires Inv(s)
    ensures Inv(Snap(s))
  {
    ReadersKeep(s, Snap(s));
  }

  lemma {:induction false} ReleaseKeeps(s: State, i: nat)
    requires Inv(s)
    ensures Inv(Release(s, i))
  {
    ReadersKeep(s, Release(s, i));
  }

  /** A new snapshot comes to those that were there; a released one goes, and no other. */
  lemma {:induction false} SnapAdds(s: State)
    ensures multiset(Snap(s).snapshots) == multiset(s.snapshots) + multiset{s.lastSequence}
  {
  }

  lemma {:induction false} ReleaseRemoves(s: State, i: nat)
    requires i < |s.snapshots|
    ensures multiset(Release(s, i).snapshots) == multiset(s.snapshots) - multiset{s.snapshots[i]}
  {
    assert s.snapshots == s.snapshots[..i] + [s.snapshots[i]] + s.snapshots[i + 1..];
  }

  lemma {:induction false} PinKeeps(s: State, v: Version)
    requires Inv(s)
    ensures Inv(Pin(s)) && Inv(Unpin(s, v))
  {
    ReadersKeep(s, Pin(s));
    ReadersKeep(s, Unpin(s, v));
  }

  // ----- build -----

  function WithTables(tables: map<nat, seq<Entry>>, files: Level): map<nat, seq<Entry>> {
    if files == [] then tables
    else WithTables(tables, files[..|files| - 1])[files[|files| - 1].number := files[|files| - 1].entries]
  }

  lemma {:induction false} TableAdded(tables: map<nat, seq<Entry>>, files: Level, i: nat)
    requires Numbered(files) && i < |files|
    ensures TableThere(WithTables(tables, files), files[i])
    decreases |files|
  {
    var n := |files| - 1;
    if i < n {
      TableAdded(tables, files[..n], i);
    }
  }

  lemma {:induction false} TableKept(tables: map<nat, seq<Entry>>, files: Level, f: File)
    requires (forall i :: 0 <= i < |files| ==> files[i].number != f.number) && TableThere(tables, f)
    ensures TableThere(WithTables(tables, files), f)
  {
    if files != [] {
      TableKept(tables, files[..|files| - 1], f);
    }
  }

  /** The job is built from the current version (and for a flush from the immutable memtable) under new numbers,
      and a compaction keeps what its oldest live snapshot may see and uncovers nothing. */
  ghost predicate CanStart(s: State, task: Task, next: nat) {
    && s.work.Idle? && TaskOk(s.version, s.ImmEntries(), task) && (task.IsFlush() <==> s.imm.Imm?)
    && s.nextFile <= next && (forall f :: f in task.Files() ==> s.nextFile <= f.number < next)
    && (task.Compact? ==> task.smallestSnapshot == OldestSnapshot(s)) && Harmless(s.View(), task)
  }

  function Start(s: State, task: Task, next: nat): State {
    s.(work := Ready(task), nextFile := next, disk := s.disk.(tables := WithTables(s.disk.tables, task.Files())),
       floor := if task.Compact? then task.smallestSnapshot else s.floor)
  }

  lemma {:induction false} FilesAreNumbered(v: Version, imm: seq<Entry>, task: Task)
    requires TaskOk(v, imm, task)
    ensures Numbered(task.Files())
  {
  }

  lemma {:induction false} KeepsTables(tables: map<nat, seq<Entry>>, files: Level, v: Version, next: nat)
    requires Numbered(files) && TablesThere(tables, v) && NumbersBelow(v, next)
    requires forall f :: f in files ==> next <= f.number
    ensures TablesThere(WithTables(tables, files), v)
  {
    forall l, f | 0 <= l < NUM_LEVELS && Placed(v, l, f) ensures TableThere(WithTables(tables, files), f) {
      assert f in v[l] && TableThere(tables, f);
      assert forall i :: 0 <= i < |files| ==> files[i] in files;
      TableKept(tables, files, f);
    }
  }

  lemma {:induction false} StartTables(s: State, task: Task, next: nat)
    requires TablesOk(s) && NumbersBelow(s.version, s.nextFile) && CanStart(s, task, next)
    ensures TablesOk(Start(s, task, next))
  {
    FilesAreNumbered(s.version, s.ImmEntries(), task);
    KeepsTables(s.disk.tables, task.Files(), s.version, s.nextFile);
    forall v | v in s.pinned ensures TablesThere(Start(s, task, next).disk.tables, v) {
      KeepsTables(s.disk.tables, task.Files(), v, s.nextFile);
    }
  }

  lemma {:induction false} TablesAdded(tables: map<nat, seq<Entry>>, files: Level)
    requires Numbered(files)
    ensures forall f :: f in files ==> TableThere(WithTables(tables, files), f)
  {
    forall f | f in files ensures TableThere(WithTables(tables, files), f) {
      var i :| 0 <= i < |files| && files[i] == f;
      TableAdded(tables, files, i);
    }
  }

  lemma {:induction false} StartView(s: State, task: Task, next: nat)
    ensures Start(s, task, next).View() == s.View() && Start(s, task, next).ImmEntries() == s.ImmEntries()
  {
  }

  lemma {:induction false} StartWork(s: State, task: Task, next: nat)
    requires CommittedOk(s) && CanStart(s, task, next)
    ensures WorkOk(Start(s, task, next))
  {
    FilesAreNumbered(s.version, s.ImmEntries(), task);
    TablesAdded(s.disk.tables, task.Files());
    StartView(s, task, next);
    StartFresh(s.disk.manifests[s.disk.current], task, Counters(s.disk).nextFile, next);
  }

  lemma {:induction false} StartFresh(records: seq<Record>, task: Task, n: nat, next: nat)
    requires AddedBelow(records, n) && forall f :: f in task.Files() ==> n <= f.number < next
    ensures Fresh(records, task, next)
  {
  }

  lemma {:induction false} StartMemory(s: State, task: Task, next: nat)
    requires MemoryOk(s) && SequencesOk(s) && SnapshotsOk(s) && CanStart(s, task, next)
    ensures MemoryOk(Start(s, task, next)) && SequencesOk(Start(s, task, next)) && SnapshotsOk(Start(s, task, next))
  {
    OldestIsOldest(s);
    MemoryFrame(s, Start(s, task, next));
    SequencesFrame(s, Start(s, task, next));
  }

  lemma {:induction false} StartDisk(s: State, task: Task, next: nat)
    requires CommittedOk(s) && LogsHold(s) && CanStart(s, task, next)
    ensures CommittedOk(Start(s, task, next)) && LogsHold(Start(s, task, next))
  {
    CommittedFrame(s, Start(s, task, next));
    LogsFrame(s, Start(s, task, next));
  }

  lemma {:induction false} StartKeeps(s: State, task: Task, next: nat)
    requires Inv(s) && CanStart(s, task, next)
    ensures Inv(Start(s, task, next))
  {
    StartMemory(s, task, next);
    StartDisk(s, task, next);
    StartTables(s, task, next);
    StartWork(s, task, next);
  }

  // ----- record -----

  /** LogAndApply appends the edit with the current numbers; a flush makes all but the current log obsolete. */
  function RecordOf(s: State, task: Task): Record {
    Change(EditOf(task), if task.IsFlush() then s.logFile else s.logNumber, s.nextFile, s.lastSequence)
  }

  function LogEdit(s: State): State {
    if !s.work.Ready? then s
    else
      var records := CurrentManifest(s.disk) + [RecordOf(s, s.work.task)];
      s.(work := Logged(s.work.task), disk := s.disk.(manifests := s.disk.manifests[s.disk.current := records]))
  }

  lemma {:induction false} LogEditManifest(s: State)
    requires MemoryOk(s) && CommittedOk(s) && LogsHold(s) && WorkOk(s) && s.work.Ready?
    ensures ManifestOk(LogEdit(s).disk, Outcome(s.version, s.work.task))
  {
    Recorded(s, s.disk.manifests[s.disk.current]);
  }

  lemma {:induction false} Recorded(s: State, records: seq<Record>)
    requires MemoryOk(s) && s.work.Ready? && TaskOk(s.version, s.ImmEntries(), s.work.task)
    requires Fresh(records, s.work.task, s.nextFile)
    requires Complete(records) && LeadsTo(records, s.version) && Sinking(records, s.version)
    requires AddedBelow(records, Last(records).nextFile) && Last(records).nextFile <= s.nextFile
    ensures var more := records + [RecordOf(s, s.work.task)];
            && Complete(more) && LeadsTo(more, Outcome(s.version, s.work.task)) &&
                Sinking(more, Outcome(s.version, s.work.task))
            && AddedBelow(more, s.nextFile)
  {
    AddedBelowLater(records, Last(records).nextFile, s.nextFile);
    TaskRecorded(records, s.version, s.ImmEntries(), s.work.task, s.nextFile, RecordOf(s, s.work.task));
  }

  lemma {:induction false} AddedBelowLater(records: seq<Record>, n: nat, m: nat)
    requires AddedBelow(records, n) && n <= m
    ensures AddedBelow(records, m)
  {
  }

  lemma {:induction false} LogEditCommitted(s: State)
    requires MemoryOk(s) && SequencesOk(s) && CommittedOk(s) && LogsHold(s) && WorkOk(s) && s.work.Ready?
    ensures CommittedOk(LogEdit(s))
  {
    LogEditManifest(s);
    TaskKeepsOrder(s.version, s.ImmEntries(), s.work.task);
  }

  lemma {:induction false} LogEditRest(s: State)
    requires MemoryOk(s) && SequencesOk(s) && TablesOk(s) && LogsHold(s) && WorkOk(s) && s.work.Ready?
    requires s.disk.current in s.disk.manifests
    ensures MemoryOk(LogEdit(s)) && SequencesOk(LogEdit(s)) && TablesOk(LogEdit(s)) && LogsHold(LogEdit(s))
    ensures WorkOk(LogEdit(s))
  {
    MemoryFrame(s, LogEdit(s));
    SequencesFrame(s, LogEdit(s));
    TablesFrame(s, LogEdit(s));
    LogsFrame(s, LogEdit(s));
  }

  lemma {:induction false} LogEditKeeps(s: State)
    requires Inv(s) && s.work.Ready?
    ensures Inv(LogEdit(s))
  {
    LogEditCommitted(s);
    LogEditRest(s);
  }

  // ----- install -----

  ghost function Install(s: State): State {
    if !s.work.Logged? then s
    else s.(version := s.Committed(), logNumber := s.LogStart(), imm := if s.work.task.IsFlush() then NoImm
        else s.imm, work := Idle)
  }

  lemma {:induction false} FlushedView(s: State)
    requires MemoryOk(s) && WorkOk(s) && s.work.Logged? && s.work.task.IsFlush()
    ensures Install(s).View().Ok() && Install(s).View().All() == s.View().All()
  {
    TaskKeepsOrder(s.version, s.ImmEntries(), s.work.task);
    assert Set(Install(s).ImmEntries()) == {};
    assert Install(s).View().Tables() == Set(s.ImmEntries()) + s.View().Tables();
    assert Install(s).View().All() == s.View().All();
  }

  lemma {:induction false} MovedView(s: State)
    requires MemoryOk(s) && WorkOk(s) && s.work.Logged? && s.work.task.Move?
    ensures Install(s).View().Ok() && Install(s).View().All() == s.View().All()
  {
    TaskKeepsOrder(s.version, s.ImmEntries(), s.work.task);
    SameTables(s.View(), Outcome(s.version, s.work.task));
    assert Install(s).View() == s.View().(version := Outcome(s.version, s.work.task));
  }

  lemma {:induction false} SameTables(db: Db, v: Version)
    requires db.Ok() && VersionOk(v) && Deep(v, 0) == Deep(db.version, 0)
    ensures db.(version := v).Ok() && db.(version := v).All() == db.All()
  {
  }

  lemma {:induction false} CompactedView(s: State)
    requires MemoryOk(s) && WorkOk(s) && s.work.Logged? && s.work.task.Compact?
    ensures Install(s).View().Ok() && ReadsLike(Install(s).View().All(), s.history, s.floor)
  {
    TaskReads(s, s.work.task);
    assert Install(s).View() == s.View().(version := Outcome(s.version, s.work.task));
  }

  lemma {:induction false} InstallView(s: State)
    requires MemoryOk(s) && WorkOk(s) && s.work.Logged?
    ensures Install(s).View().Ok() && ReadsLike(Install(s).View().All(), s.history, s.floor)
  {
    if s.work.task.IsFlush() {
      FlushedView(s);
    } else if s.work.task.Move? {
      MovedView(s);
    } else {
      CompactedView(s);
    }
  }

  lemma {:induction false} InstallMemory(s: State)
    requires MemoryOk(s) && WorkOk(s) && s.work.Logged?
    ensures MemoryOk(Install(s))
  {
    InstallView(s);
    TaskKeepsNumbers(s.version, s.ImmEntries(), s.work.task);
    TaskNumbersBelow(s.version, s.ImmEntries(), s.work.task, s.nextFile);
  }

  lemma {:induction false} InstallSequences(s: State)
    requires SequencesOk(s) && WorkOk(s) && s.work.Logged?
    ensures SequencesOk(Install(s))
  {
    TaskKeepsOrder(s.version, s.ImmEntries(), s.work.task);
  }

  lemma {:induction false} InstallTables(s: State)
    requires Inv(s) && s.work.Logged?
    ensures TablesOk(Install(s))
  {
    CommittedTables(s);
  }

  lemma {:induction false} InstallLogs(s: State)
    requires LogsHold(s) && s.work.Logged?
    requires OlderThan(Deep(s.Committed(), 0), LogEntries(s.disk.logs, s.LogStart()))
    ensures LogsHold(Install(s))
  {
    LaterLogsOk(s.disk.logs, s.logNumber, s.LogStart());
    assert Set(Install(s).ImmEntries()) == if s.work.task.IsFlush() then {} else Set(s.ImmEntries());
  }

  lemma {:induction false} InstallKeeps(s: State)
    requires Inv(s) && s.work.Logged?
    ensures Inv(Install(s))
  {
    InstallMemory(s);
    InstallSequences(s);
    CommittedFrame(s, Install(s));
    InstallTables(s);
    CommittedOlder(s);
    InstallLogs(s);
  }

  // ----- delete obsolete files -----

  /** DeleteObsoleteFiles runs on the background thread between jobs, with nothing pending.  A crash may cut it
      short, so any set of obsolete files counts as a step. */
  ghost predicate LogsAreObsolete(s: State, N: set<nat>) {
    s.work.Idle? && forall n :: n in N ==> n < s.logNumber
  }

  ghost predicate ManifestsAreObsolete(s: State, N: set<nat>) {
    s.work.Idle? && forall n :: n in N ==> n < s.manifestFile
  }

  ghost predicate TablesAreObsolete(s: State, N: set<nat>) {
    s.work.Idle? && !InUse(s.version, N) && forall v :: v in s.pinned ==> !InUse(v, N)
  }

  ghost predicate InUse(v: Version, N: set<nat>) {
    exists l, f :: 0 <= l < NUM_LEVELS && Placed(v, l, f) && f.number in N
  }

  function DeleteLogs(s: State, N: set<nat>): State {
    s.(disk := s.disk.(logs := s.disk.logs - N))
  }

  function DeleteManifests(s: State, N: set<nat>): State {
    s.(disk := s.disk.(manifests := s.disk.manifests - N))
  }

  function DeleteTables(s: State, N: set<nat>): State {
    s.(disk := s.disk.(tables := s.disk.tables - N))
  }

  lemma {:induction false} DeletedLogs(logs: map<nat, seq<Batch>>, from: nat, N: set<nat>)
    requires LogsOk(logs, from) && forall n :: n in N ==> n < from
    ensures LogsOk(logs - N, from) && forall m :: from <= m ==> LogEntries(logs - N, m) == LogEntries(logs, m)
  {
    forall k, m | k in logs - N && m in logs - N && from <= k < m ensures LogBefore(logs - N, k, m) {
      assert LogBefore(logs, k, m);
    }
    forall m, e | from <= m ensures e in LogEntries(logs - N, m) <==> e in LogEntries(logs, m) {
      if k :| k in logs && m <= k && e in LogSet(logs[k]) {
        assert k in logs - N && e in LogSet((logs - N)[k]);
      }
    }
    forall m | from <= m ensures LogEntries(logs - N, m) == LogEntries(logs, m) {
      assert forall e :: e in LogEntries(logs - N, m) <==> e in LogEntries(logs, m);
    }
  }

  /** No log that recovery would read is ever deleted. */
  lemma {:induction false} DeleteLogsKeeps(s: State, N: set<nat>)
    requires Inv(s) && LogsAreObsolete(s, N)
    ensures Inv(DeleteLogs(s, N))
  {
    var s' := DeleteLogs(s, N);
    DeletedLogs(s.disk.logs, s.logNumber, N);
    MemoryFrame(s, s');
    SequencesFrame(s, s');
    CommittedFrame(s, s');
    TablesFrame(s, s');
  }

  /** Nor the manifest that CURRENT names. */
  lemma {:induction false} DeleteManifestsKeeps(s: State, N: set<nat>)
    requires Inv(s) && ManifestsAreObsolete(s, N)
    ensures Inv(DeleteManifests(s, N))
  {
    var s' := DeleteManifests(s, N);
    MemoryFrame(s, s');
    SequencesFrame(s, s');
    CommittedFrame(s, s');
    TablesFrame(s, s');
    LogsFrame(s, s');
  }

  lemma {:induction false} TablesStay(tables: map<nat, seq<Entry>>, v: Version, N: set<nat>)
    requires TablesThere(tables, v) && !InUse(v, N)
    ensures TablesThere(tables - N, v)
  {
    forall l, f | 0 <= l < NUM_LEVELS && Placed(v, l, f) ensures TableThere(tables - N, f) {
      assert TableThere(tables, f);
    }
  }

  /** Nor a table of the current version, or of one that an iterator still reads. */
  lemma {:induction false} DeleteTablesKeeps(s: State, N: set<nat>)
    requires Inv(s) && TablesAreObsolete(s, N)
    ensures Inv(DeleteTables(s, N))
  {
    var s' := DeleteTables(s, N);
    TablesStay(s.disk.tables, s.version, N);
    forall v | v in s.pinned ensures TablesThere(s'.disk.tables, v) {
      TablesStay(s.disk.tables, v, N);
    }
    MemoryFrame(s, s');
    SequencesFrame(s, s');
    CommittedFrame(s, s');
    LogsFrame(s, s');
  }
}
