/** DBImpl and VersionSet as one object (db_impl, version_set): each operation in the code's own form, tied to the
    steps of the state machine, so that every promise about its runs is one about the object. */
module DbImpl {
  import opened Keys
  import opened Cursors
  import opened Reads
  import opened Versions
  import opened Merging
  import opened Inputs
  import opened Compactions
  import opened Builders
  import opened Installs
  import opened Manifests
  import opened Lookup
  import opened Reorganise
  import opened Tasks
  import opened Disks
  import opened Store
  import opened Writes
  import opened Background
  import opened Recovery
  import opened LogRecovery
  import Runs
  import Iterators

  datatype Write = Write(user: UserKey, kind: Kind, value: Bytes)

  /** The options that matter here: sizes, and what a table or a memtable of given entries takes. */
  datatype Options = Options(sizes: Sizes, fileSize: seq<Entry> -> nat, tooBig: seq<Entry> -> bool)

  lemma {:induction false} WriteKeeps(s: State, b: Batch)
    requires Checked(s) == Sound && CanAppend(s, b)
    ensures Checked(Apply(Append(s, b))) == Sound && s.logFile in s.disk.logs
  {
    AppendKeeps(s, b);
    ApplyKeeps(Append(s, b));
  }

  lemma {:induction false} MakeRoomKeeps(s: State)
    requires Checked(s) == Sound && CanSwitch(s)
    ensures Checked(Switch(s)) == Sound
  {
    SwitchKeeps(s);
  }

  lemma {:induction false} SnapshotKeeps(s: State, i: nat)
    requires Checked(s) == Sound
    ensures Checked(Snap(s)) == Sound && Checked(Release(s, i)) == Sound
  {
    SnapKeeps(s);
    ReleaseKeeps(s, i);
  }

  lemma {:induction false} IteratorKeeps(s: State, v: Version)
    requires Checked(s) == Sound
    ensures Checked(Pin(s)) == Sound && Checked(Unpin(s, v)) == Sound
  {
    PinKeeps(s, v);
  }

  lemma {:induction false} OpenKeeps(d: Disk, H: set<Entry>, floor: Sequence, files: Level, newLog: nat, q: Sequence)
    requires DiskOk(d, H, floor) && RecoversTo(d, files) && NewLog(d, files, newLog) && IsLast(d, q)
    ensures Checked(Opened(d, H, floor, files, newLog, q)) == Sound
    ensures forall i :: 0 <= i < |AtLevel0(files).added| ==> AtLevel0(files).added[i].0 < NUM_LEVELS
  {
    OpenedKeeps(d, H, floor, files, newLog, q);
  }

  /** SetSequence: write i of the batch gets sequence number first + i. */
  ghost predicate BatchOf(writes: seq<Write>, first: nat, b: Batch)
    requires first + |writes| <= MAX_SEQUENCE
  {
    && b.first == first && |b.entries| == |writes|
    && forall i :: 0 <= i < |writes| ==>
         b.entries[i] == Entry(InternalKey(writes[i].user, first + i, writes[i].kind), writes[i].value)
  }

  method SetSequence(writes: seq<Write>, first: nat) returns (b: Batch)
    requires 1 <= first && first + |writes| <= MAX_SEQUENCE
    ensures BatchOk(b) && BatchOf(writes, first, b)
  {
    var entries: seq<Entry> := [];
    for i := 0 to |writes|
      invariant |entries| == i
      invariant forall j :: 0 <= j < i ==>
                  entries[j] == Entry(InternalKey(writes[j].user, first + j, writes[j].kind), writes[j].value)
    {
      entries := entries + [Entry(InternalKey(writes[i].user, first + i, writes[i].kind), writes[i].value)];
    }
    b := Batch(first, entries);
  }

  class DBImpl {
    const options: Options
    var mem: seq<Entry>
    var imm: Imm
    var version: Version
    var versions: set<Version>
    var lastSequence: Sequence
    var nextFile: nat
    var logNumber: nat
    var logFile: nat
    var manifestFile: nat
    var snapshots: seq<Sequence>
    var disk: Disk
    ghost var history: set<Entry>
    ghost var floor: Sequence

    /** Between operations no batch is being written and no job is under way. */
    ghost function Now(): State
      reads this
    {
      State(mem, imm, NoBatch, version, lastSequence, nextFile, logNumber, logFile, manifestFile, snapshots, Idle,
            versions, disk, history, floor)
    }

    ghost predicate Ok()
      reads this
    {
      Checked(Now()) == Sound
    }

    constructor (options: Options, s: State)
      requires s.pending.NoBatch? && s.work.Idle?
      ensures Now() == s && this.options == options
    {
      this.options := options;
      mem, imm, version, versions, lastSequence := s.mem, s.imm, s.version, s.pinned, s.lastSequence;
      nextFile, logNumber, logFile, manifestFile, snapshots :=
          s.nextFile, s.logNumber, s.logFile, s.manifestFile, s.snapshots;
      disk, history, floor := s.disk, s.history, s.floor;
    }

    // ----- writes -----

    /** One group: a log record, the memtable, and then the new last sequence. */
    method Write(writes: seq<Write>) returns (ghost b: Batch)
      requires Ok() && lastSequence + |writes| < MAX_SEQUENCE
      modifies this
      ensures Ok() && Now() == Apply(Append(old(Now()), b)) && BatchOf(writes, old(lastSequence) + 1, b)
      ensures history == old(history) + Set(b.entries) && lastSequence == old(lastSequence) + |writes|
    {
      var batch := SetSequence(writes, lastSequence + 1);
      b := batch;
      WriteKeeps(Now(), b);
      LogAndInsert(batch);
    }

    method LogAndInsert(batch: Batch)
      requires logFile in disk.logs && lastSequence + |batch.entries| <= MAX_SEQUENCE
      modifies this
      ensures Now() == Apply(Append(old(Now()), batch))
    {
      disk := disk.(logs := disk.logs[logFile := disk.logs[logFile] + [batch]]);
      history := history + Set(batch.entries);
      mem := InsertInto(batch.entries, mem);
      lastSequence := lastSequence + |batch.entries|;
    }

    /** MakeRoomForWrite, once there is no immutable memtable: a new log and a new memtable. */
    method MakeRoomForWrite()
      requires Ok() && imm.NoImm?
      modifies this
      ensures Ok() && Now() == Switch(old(Now()))
    {
      MakeRoomKeeps(Now());
      SwitchMemtable();
    }

    method SwitchMemtable()
      modifies this
      ensures Now() == Switch(old(Now()))
    {
      var newLogNumber := nextFile;
      nextFile := nextFile + 1;
      disk := disk.(logs := disk.logs[newLogNumber := []]);
      logFile := newLogNumber;
      imm := Imm(mem);
      mem := [];
    }

    // ----- reads -----

    method Get(user: UserKey, snapshot: Sequence) returns (r: Answer)
      requires Ok() && (snapshot == lastSequence || snapshot in snapshots)
      ensures r == ReadAt(history, user, snapshot)
    {
      Runs.LiveReads(Now(), user, snapshot);
      r := Lookup.Get(Db(mem, if imm.Imm? then imm.entries else [], version), user, snapshot);
    }

    method GetSnapshot() returns (snapshot: Sequence)
      requires Ok()
      modifies this
      ensures Ok() && Now() == Snap(old(Now())) && snapshot == lastSequence
      ensures multiset(snapshots) == multiset(old(snapshots)) + multiset{snapshot}
    {
      SnapshotKeeps(Now(), 0);
      snapshot := lastSequence;
      snapshots := snapshots + [lastSequence];
    }

    method ReleaseSnapshot(i: nat)
      requires Ok() && i < |snapshots|
      modifies this
      ensures Ok() && Now() == Release(old(Now()), i)
      ensures multiset(snapshots) == multiset(old(snapshots)) - multiset{old(snapshots)[i]}
    {
      SnapshotKeeps(Now(), i);
      ReleaseRemoves(Now(), i);
      Forget(i);
    }

    method Forget(i: nat)
      requires i < |snapshots|
      modifies this
      ensures Now() == Release(old(Now()), i)
    {
      snapshots := snapshots[..i] + snapshots[i + 1..];
    }

    method Internal() returns (internal: MergingIterator)
      requires Ok()
      ensures internal.Ok() && fresh(internal) && fresh(internal.children)
      ensures internal.merged == MergeAll(Iterators.StoreRuns(Runs.Db(Now())))
    {
      Runs.DbInOrder(Now());
      internal := Iterators.NewInternalIterator(Db(mem, if imm.Imm? then imm.entries else [], version));
    }

    method Hold()
      modifies this`versions
      ensures Now() == Pin(old(Now()))
    {
      versions := versions + {version};
    }

    /** NewIterator: walks all entries of the store at the last sequence, and the version stays while it is open. */
    method NewIterator() returns (internal: MergingIterator, latest: Sequence)
      requires Ok()
      modifies this`versions
      ensures Ok() && Now() == Pin(old(Now())) && version in versions && latest == lastSequence
      ensures internal.Ok() && fresh(internal) && fresh(internal.children)
      ensures internal.merged == MergeAll(Iterators.StoreRuns(Runs.Db(old(Now()))))
    {
      IteratorKeeps(Now(), version);
      internal := Internal();
      latest := lastSequence;
      Hold();
    }

    method ReleaseIterator(v: Version)
      requires Ok()
      modifies this
      ensures Ok() && Now() == Unpin(old(Now()), v) && versions == old(versions) - {v}
    {
      IteratorKeeps(Now(), v);
      versions := versions - {v};
    }

    // ----- flush -----

    /** CompactMemTable: a table, a manifest record, and the new version without the immutable memtable. */
    method CompactMemTable() returns (ghost task: Task)
      requires Ok() && imm.Imm?
      modifies this
      ensures Ok() && task.IsFlush() && Now() == WholeJob(old(Now()), task, old(nextFile) + 1)
      ensures imm.NoImm? && logNumber == old(logFile)
      ensures Deep(version, 0) == Set(old(imm).entries) + Deep(old(version), 0)
    {
      var t := PlanFlush();
      task := t;
      FlushEffect(Now(), t, nextFile + 1);
      RunJob(t, nextFile + 1);
    }

    /** WriteLevel0Table: builds the table and picks a level for it. */
    method PlanFlush() returns (task: Task)
      requires Ok() && imm.Imm?
      ensures CanStart(Now(), task, nextFile + 1) && task.IsFlush()
    {
      task := FlushNothing;
      if imm.entries != [] {
        var m := imm.entries;
        var f := File(nextFile, options.fileSize(m), m[0].key, m[|m| - 1].key, m);
        FlushBasics(Now(), f);
        var level := PickLevelForMemTableOutput(options.sizes, version, f.smallest.user, f.largest.user);
        FlushPossible(Now(), f, level);
        task := FlushTo(level, f);
      } else {
        FlushOfNothing(Now());
      }
    }

    /** Writes the job's tables, then LogAndApply: record the edit, make the next version and install it. */
    method RunJob(task: Task, next: nat)
      requires forall i :: 0 <= i < |EditOf(task).added| ==> EditOf(task).added[i].0 < NUM_LEVELS
      modifies this
      ensures Now() == WholeJob(old(Now()), task, next)
    {
      WriteTables(task, next);
      LogAndApply(task);
    }

    method WriteTables(task: Task, next: nat)
      modifies this
      ensures Now() == Start(old(Now()), task, next).(work := Idle)
    {
      disk := disk.(tables := WithTables(disk.tables, task.Files()));
      nextFile := next;
      floor := if task.Compact? then task.smallestSnapshot else floor;
    }

    method LogAndApply(task: Task)
      requires forall i :: 0 <= i < |EditOf(task).added| ==> EditOf(task).added[i].0 < NUM_LEVELS
      modifies this
      ensures Now() == Install(LogEdit(old(Now()).(work := Ready(task))))
    {
      var edit := EditOf(task);
      var v := NextVersion(version, edit);
      var start := if task.IsFlush() then logFile else logNumber;
      var records := CurrentManifest(disk) + [Change(edit, start, nextFile, lastSequence)];
      disk := disk.(manifests := disk.manifests[disk.current := records]);
      version, logNumber := v, start;
      imm := if task.IsFlush() then NoImm else imm;
    }

    // ----- compaction -----

    /** IsTrivialMove: one file, nothing to merge it with, and not too much below. */
    predicate IsTrivialMove(sel: Selection) {
      && |sel.inputs0| == 1 && sel.inputs1 == []
      && TotalFileSize(sel.grandparents) <= options.sizes.MaxGrandParentOverlapBytes()
    }

    /** BackgroundCompaction.  A compaction that is no trivial move is for a selection none of whose tombstones covers
        a value behind it at the output level. */
    method BackgroundCompaction(level: nat, sel: Selection, manual: bool) returns (ghost task: Task, ghost next: nat)
      requires Ok() && imm.NoImm? && level + 1 < NUM_LEVELS && Selected(level, version, sel)
      requires manual || !IsTrivialMove(sel) ==>
               NoneUncovered(Now().View(), level, sel, OldestSnapshot(Now()))
      modifies this
      ensures Ok() && Now() == WholeJob(old(Now()), task, next)
      ensures if !manual && |sel.inputs0| == 1 && sel.inputs1 == [] &&
                 TotalFileSize(sel.grandparents) <= 10 * options.sizes.maxFileSize
              then task == Move(level, sel)
              else task.Compact? && task.level == level && task.sel == sel &&
                   task.smallestSnapshot == OldestSnapshot(old(Now()))
      ensures history == old(history) && imm == old(imm)
    {
      var t, n := PlanCompaction(level, sel, manual);
      task, next := t, n;
      CompactionEffect(Now(), t, n);
      RunJob(t, n);
    }

    method PlanCompaction(level: nat, sel: Selection, manual: bool) returns (task: Task, next: nat)
      requires Ok() && imm.NoImm? && level + 1 < NUM_LEVELS && Selected(level, version, sel)
      requires manual || !IsTrivialMove(sel) ==>
               NoneUncovered(Now().View(), level, sel, OldestSnapshot(Now()))
      ensures CanStart(Now(), task, next)
      ensures if !manual && IsTrivialMove(sel) then task == Move(level, sel)
              else task.Compact? && task.level == level && task.sel == sel &&
                   task.smallestSnapshot == OldestSnapshot(Now())
    {
      if !manual && IsTrivialMove(sel) {
        MovePossible(Now(), level, sel);
        task, next := Move(level, sel), nextFile;
      } else {
        var smallestSnapshot := if snapshots == [] then lastSequence else snapshots[0];
        CompactionInput(Now(), level, sel);
        var outputs;
        outputs, next := Merge(version, level, sel, smallestSnapshot, nextFile);
        CompactedBy(version, level, sel, smallestSnapshot, outputs, MergeAll(InputRuns(level, sel)));
        task := Compact(level, sel, outputs, smallestSnapshot);
        CompactionPossible(Now(), task, next);
      }
    }

    /** DoCompactionWork over the merged inputs. */
    method Merge(v: Version, level: nat, sel: Selection, smallestSnapshot: Sequence, first: nat)
      returns (outputs: Level, next: nat)
      requires VersionOk(v) && level + 1 < NUM_LEVELS && Selected(level, v, sel)
      ensures Concat(outputs) == KeptOf(v, level, smallestSnapshot, MergeAll(InputRuns(level, sel)))
      ensures Disjoint(outputs) && next == first + |outputs|
      ensures forall i :: 0 <= i < |outputs| ==> outputs[i].number == first + i
    {
      var c := new Compaction(v, level, sel.grandparents, options.sizes);
      var input := MakeInputIterator(v, level, sel);
      outputs, next := DoCompactionWork(c, input, smallestSnapshot, options.fileSize, first);
    }

    // ----- obsolete files -----

    /** DeleteObsoleteFiles: what is left are the logs from the current log number on, this manifest and newer ones,
        and the tables of the versions still in use. */
    method DeleteObsoleteFiles()
      requires Ok()
      modifies this
      ensures Ok() && Now() == Tidied(old(Now())) && JustNeeded(old(Now()), disk)
    {
      TidiedMeans(Now());
      var live := LiveFiles(versions + {version});
      TidyingKeeps(Now());
      RemoveFiles(set n | n in disk.logs && n < logNumber, set n | n in disk.manifests && n < manifestFile,
                  set n | n in disk.tables && n !in live);
    }

    /** Deletes the given files one by one. */
    method RemoveFiles(logs: set<nat>, manifests: set<nat>, tables: set<nat>)
      modifies this
      ensures Now() == DeleteTables(DeleteManifests(DeleteLogs(old(Now()), logs), manifests), tables)
    {
      var todo := logs;
      while todo != {}
        invariant Now() == DeleteLogs(old(Now()), logs - todo) && todo <= logs
        decreases todo
      {
        var n :| n in todo;
        disk := disk.(logs := disk.logs - {n});
        todo := todo - {n};
        assert disk.logs == old(disk).logs - (logs - todo);
      }
      ghost var s := Now();
      assert s == DeleteLogs(old(Now()), logs);
      todo := manifests;
      while todo != {}
        invariant Now() == DeleteManifests(s, manifests - todo) && todo <= manifests
        decreases todo
      {
        var n :| n in todo;
        disk := disk.(manifests := disk.manifests - {n});
        todo := todo - {n};
        assert disk.manifests == s.disk.manifests - (manifests - todo);
      }
      ghost var s' := Now();
      assert s' == DeleteManifests(s, manifests);
      todo := tables;
      while todo != {}
        invariant Now() == DeleteTables(s', tables - todo) && todo <= tables
        decreases todo
      {
        var n :| n in todo;
        disk := disk.(tables := disk.tables - {n});
        todo := todo - {n};
        assert disk.tables == s'.disk.tables - (tables - todo);
      }
    }
  }

  /** AddLiveFiles: the numbers of all files of some versions. */
  function LiveFiles(versions: set<Version>): set<nat> {
    set v: Version, l: nat, f: File | v in versions && 0 <= l < NUM_LEVELS && f in v[l] :: f.number
  }

  ghost function Tidied(s: State): State {
    DeleteTables(DeleteManifests(DeleteLogs(s, set n | n in s.disk.logs && n < s.logNumber),
                                 set n | n in s.disk.manifests && n < s.manifestFile),
                 set n | n in s.disk.tables && n !in LiveFiles(s.pinned + {s.version}))
  }

  /** Kept are the logs from the current log number on, this manifest and newer ones, and the tables of the versions
      that somebody may read, each as it was; everything else goes. */
  ghost predicate JustNeeded(s: State, d: Disk) {
    && (forall n :: n in d.logs <==> n in s.disk.logs && s.logNumber <= n)
    && (forall n :: n in d.manifests <==> n in s.disk.manifests && s.manifestFile <= n)
    && (forall n :: n in d.tables <==> n in s.disk.tables && exists v, l, f ::
          (v == s.version || v in s.pinned) && 0 <= l < NUM_LEVELS && Placed(v, l, f) && f.number == n)
    && (forall n :: n in d.logs ==> d.logs[n] == s.disk.logs[n])
    && (forall n :: n in d.manifests ==> d.manifests[n] == s.disk.manifests[n])
    && (forall n :: n in d.tables ==> d.tables[n] == s.disk.tables[n]) && d.current == s.disk.current
  }

  lemma {:induction false} LiveMeans(s: State, n: nat)
    ensures n in LiveFiles(s.pinned + {s.version}) <==> exists v, l, f ::
              (v == s.version || v in s.pinned) && 0 <= l < NUM_LEVELS && Placed(v, l, f) && f.number == n
  {
    if v, l, f :| (v == s.version || v in s.pinned) && 0 <= l < NUM_LEVELS && Placed(v, l, f) && f.number == n {
      assert v in s.pinned + {s.version} && f in v[l];
    }
    if n in LiveFiles(s.pinned + {s.version}) {
      var v: Version, l: nat, f: File :|
        v in s.pinned + {s.version} && 0 <= l < NUM_LEVELS && f in v[l] && f.number == n;
      assert Placed(v, l, f);
    }
  }

  lemma {:induction false} TidiedMeans(s: State)
    ensures JustNeeded(s, Tidied(s).disk)
  {
    forall n { LiveMeans(s, n); }
  }

  lemma {:induction false} NotLive(versions: set<Version>, v: Version, N: set<nat>)
    requires v in versions && N !! LiveFiles(versions)
    ensures !InUse(v, N)
  {
    forall l, f | 0 <= l < NUM_LEVELS && Placed(v, l, f) ensures f.number !in N {
      assert f.number in LiveFiles(versions);
    }
  }

  lemma {:induction false} TidyingLogsKeeps(s: State, N: set<nat>)
    requires Checked(s) == Sound && LogsAreObsolete(s, N)
    ensures Checked(DeleteLogs(s, N)) == Sound
  {
    DeleteLogsKeeps(s, N);
  }

  lemma {:induction false} TidyingManifestsKeeps(s: State, N: set<nat>)
    requires Checked(s) == Sound && ManifestsAreObsolete(s, N)
    ensures Checked(DeleteManifests(s, N)) == Sound
  {
    DeleteManifestsKeeps(s, N);
  }

  lemma {:induction false} TidyingTablesKeeps(s: State)
    requires Checked(s) == Sound && s.work.Idle?
    ensures Checked(DeleteTables(s, set n | n in s.disk.tables && n !in LiveFiles(s.pinned + {s.version}))) == Sound
  {
    var versions := s.pinned + {s.version};
    var tables := set n | n in s.disk.tables && n !in LiveFiles(versions);
    forall v | v in versions ensures !InUse(v, tables) {
      NotLive(versions, v, tables);
    }
    DeleteTablesKeeps(s, tables);
  }

  lemma {:induction false} TidyingKeeps(s: State)
    requires Checked(s) == Sound && s.work.Idle?
    ensures Checked(Tidied(s)) == Sound
  {
    var logs := set n | n in s.disk.logs && n < s.logNumber;
    var manifests := set n | n in s.disk.manifests && n < s.manifestFile;
    TidyingLogsKeeps(s, logs);
    TidyingManifestsKeeps(DeleteLogs(s, logs), manifests);
    TidyingTablesKeeps(DeleteManifests(DeleteLogs(s, logs), manifests));
  }

  // ----- why the jobs may run -----

  lemma {:induction false} FlushOfNothing(s: State)
    requires Checked(s) == Sound && s.imm.Imm? && s.imm.entries == [] && s.work.Idle?
    ensures CanStart(s, FlushNothing, s.nextFile + 1)
  {
  }

  lemma {:induction false} FlushBasics(s: State, f: File)
    requires Checked(s) == Sound && s.imm.Imm? && f.entries == s.imm.entries && f.entries != []
    requires f.smallest == f.entries[0].key && f.largest == f.entries[|f.entries| - 1].key
    ensures f.Ok() && Shaped(s.version)
  {
  }

  lemma {:induction false} FlushPossible(s: State, f: File, level: nat)
    requires Checked(s) == Sound && s.imm.Imm? && s.work.Idle? && f.entries == s.imm.entries && f.Ok()
    requires f.number == s.nextFile
    requires level <= MAX_MEM_COMPACT_LEVEL
    requires level > 0 ==> forall l :: 0 <= l <= level ==>
             !AnyOverlap(s.version[l], At(f.smallest.user), At(f.largest.user))
    ensures CanStart(s, FlushTo(level, f), s.nextFile + 1)
  {
    SubsetDistinct(s.View().All(), Set(f.entries) + Deep(s.version, 0));
    assert CanFlush(s.version, level, f);
  }

  /** A whole job, from the built tables to the installed version. */
  ghost function WholeJob(s: State, task: Task, next: nat): State {
    Install(LogEdit(Start(s, task, next)))
  }

  lemma {:induction false} JobKeeps(s: State, task: Task, next: nat)
    requires Inv(s) && CanStart(s, task, next)
    ensures Inv(WholeJob(s, task, next))
  {
    StartKeeps(s, task, next);
    LogEditKeeps(Start(s, task, next));
    InstallKeeps(LogEdit(Start(s, task, next)));
  }

  lemma {:induction false} EditLevels(task: Task)
    requires Target(task) < NUM_LEVELS
    ensures forall i :: 0 <= i < |EditOf(task).added| ==> EditOf(task).added[i].0 < NUM_LEVELS
  {
  }

  lemma {:induction false} TargetInRange(v: Version, m: seq<Entry>, task: Task)
    requires TaskOk(v, m, task)
    ensures Target(task) < NUM_LEVELS
  {
  }

  lemma {:induction false} JobIs(s: State, task: Task, next: nat)
    requires s.work.Idle?
    ensures var s' := WholeJob(s, task, next);
            && s'.version == Outcome(s.version, task) && s'.history == s.history
            && (task.IsFlush() ==> s'.imm == NoImm && s'.logNumber == s.logFile)
            && (!task.IsFlush() ==> s'.imm == s.imm && s'.logNumber == s.logNumber)
  {
  }

  lemma {:induction false} OneFile(v: Version, level: nat, sel: Selection, f: File)
    requires VersionOk(v) && UniqueNumbers(v) && level + 1 < NUM_LEVELS && Selected(level, v, sel)
    requires sel.inputs0 == [f] && sel.inputs1 == []
    ensures CanReplace(v, level, sel, sel.inputs0)
  {
    assert f in sel.inputs0;
    InputsAreFiles(v, level, sel, f);
    LevelOrdered(v, level);
    OkIn(v[level], f);
    forall g | g in v[level + 1] ensures g.number != f.number {
      assert Placed(v, level, f) && Placed(v, level + 1, g);
    }
  }

  lemma {:induction false} MoveOk(v: Version, imm: seq<Entry>, level: nat, sel: Selection)
    requires VersionOk(v) && UniqueNumbers(v) && level + 1 < NUM_LEVELS && Selected(level, v, sel)
    requires |sel.inputs0| == 1 && sel.inputs1 == []
    ensures TaskOk(v, imm, Move(level, sel))
  {
    OneFile(v, level, sel, sel.inputs0[0]);
  }

  lemma {:induction false} MovePossible(s: State, level: nat, sel: Selection)
    requires Checked(s) == Sound && s.imm.NoImm? && s.work.Idle? && level + 1 < NUM_LEVELS
    requires Selected(level, s.version, sel)
    requires |sel.inputs0| == 1 && sel.inputs1 == []
    ensures CanStart(s, Move(level, sel), s.nextFile)
  {
    MoveOk(s.version, s.ImmEntries(), level, sel);
  }

  lemma {:induction false} CompactionInput(s: State, level: nat, sel: Selection)
    requires Checked(s) == Sound && level + 1 < NUM_LEVELS && Selected(level, s.version, sel)
    ensures Shaped(s.version) && IsMerge(sel, MergeAll(InputRuns(level, sel)))
  {
    MergedInputs(s.version, level, sel);
  }

  lemma {:induction false} OutputsFit(v: Version, task: Task, next: nat)
    requires VersionOk(v) && UniqueNumbers(v) && NumbersBelow(v, next) && task.Compact? && task.level + 1 < NUM_LEVELS
    requires Selected(task.level, v, task.sel)
    requires Compacted(v, task.level, task.sel, task.smallestSnapshot, task.outputs) && Disjoint(task.outputs)
    requires task.smallestSnapshot < MAX_SEQUENCE
    requires forall i :: 0 <= i < |task.outputs| ==> task.outputs[i].number == next + i
    ensures TaskOk(v, [], task) && forall f :: f in task.outputs ==> next <= f.number < next + |task.outputs|
  {
    assert forall g :: g in v[task.level + 1] ==> g.number < next;
    MergedInputs(v, task.level, task.sel);
    CompactedUnion(v, task.level, task.sel, task.smallestSnapshot, task.outputs,
                   MergeAll(InputRuns(task.level, task.sel)));
    assert CanReplace(v, task.level, task.sel, task.outputs);
    forall f | f in task.outputs ensures NumbersBelow(v, f.number) {
    }
  }

  lemma {:induction false} CompactionPossible(s: State, task: Task, next: nat)
    requires Checked(s) == Sound && s.imm.NoImm? && s.work.Idle? && task.Compact? && task.level + 1 < NUM_LEVELS
    requires Selected(task.level, s.version, task.sel) && Harmless(s.View(), task)
    requires Compacted(s.version, task.level, task.sel, task.smallestSnapshot, task.outputs) && Disjoint(task.outputs)
    requires task.smallestSnapshot == OldestSnapshot(s) && next == s.nextFile + |task.outputs|
    requires forall i :: 0 <= i < |task.outputs| ==> task.outputs[i].number == s.nextFile + i
    ensures CanStart(s, task, next)
  {
    OldestIsOldest(s);
    OutputsFit(s.version, task, s.nextFile);
  }

  lemma {:induction false} CompactionEffect(s: State, task: Task, next: nat)
    requires Checked(s) == Sound && CanStart(s, task, next) && !task.IsFlush()
    ensures Checked(WholeJob(s, task, next)) == Sound
    ensures WholeJob(s, task, next).history == s.history && WholeJob(s, task, next).imm == s.imm
    ensures forall i :: 0 <= i < |EditOf(task).added| ==> EditOf(task).added[i].0 < NUM_LEVELS
  {
    JobKeeps(s, task, next);
    JobIs(s, task, next);
    TargetInRange(s.version, s.ImmEntries(), task);
    EditLevels(task);
  }

  lemma {:induction false} FlushEffect(s: State, task: Task, next: nat)
    requires Checked(s) == Sound && CanStart(s, task, next) && task.IsFlush()
    ensures var s' := WholeJob(s, task, next);
            && Checked(s') == Sound && s'.imm == NoImm && s'.logNumber == s.logFile
            && Deep(s'.version, 0) == Set(s.ImmEntries()) + Deep(s.version, 0)
    ensures forall i :: 0 <= i < |EditOf(task).added| ==> EditOf(task).added[i].0 < NUM_LEVELS
  {
    JobKeeps(s, task, next);
    JobIs(s, task, next);
    TaskKeepsOrder(s.version, s.ImmEntries(), task);
    TargetInRange(s.version, s.ImmEntries(), task);
    EditLevels(task);
  }

  /** LogAndApply's next version: one builder, one edit. */
  method NextVersion(base: Version, edit: Edit) returns (v: Version)
    requires forall i :: 0 <= i < |edit.added| ==> edit.added[i].0 < NUM_LEVELS
    ensures v == Applied(base, edit)
  {
    var builder := new Builder(base);
    builder.Apply(edit);
    v := builder.SaveTo();
  }

  /** The state that recovery comes up with. */
  method RecoveredState(options: Options, d: Disk, list: seq<nat>, counters: Record, found: Version,
                        H: set<Entry>, floor: Sequence) returns (s: State, ghost files: Level, ghost newLog: nat)
    requires DiskOk(d, H, floor) && counters == Counters(d) && found == Recovered(d)
    requires Listing(d.logs, counters.logNumber, list)
    ensures RecoversTo(d, files) && NewLog(d, files, newLog) && IsLast(d, s.lastSequence)
    ensures Checked(s) == Sound && s == Opened(d, H, floor, files, newLog, s.lastSequence)
  {
    var tables, number, q := RecoverLogs(options.fileSize, options.tooBig, d, list, counters, H, floor);
    OpenKeeps(d, H, floor, tables, number, q);
    s := Build(d, tables, number, q, counters, found, H, floor);
    files, newLog := tables, number;
  }

  method Build(d: Disk, files: Level, newLog: nat, q: Sequence, counters: Record, found: Version,
               H: set<Entry>, floor: Sequence) returns (s: State)
    requires counters == Counters(d) && found == Recovered(d)
    requires forall i :: 0 <= i < |AtLevel0(files).added| ==> AtLevel0(files).added[i].0 < NUM_LEVELS
    ensures s == Opened(d, H, floor, files, newLog, q)
  {
    var next := NextVersion(found, AtLevel0(files));
    var manifest := counters.nextFile;
    var disk := Disk(d.logs[newLog := []], WithTables(d.tables, files),
                     d.manifests[manifest := NewManifest(found, files, newLog, q)], manifest);
    s := State([], NoImm, NoBatch, next, q, newLog + 1, newLog, newLog, manifest, [], Idle, {}, disk, H, floor);
  }

  /** DB::Open, from any disk that a crash can leave: with tables made of the logs, a new log, and the last sequence
      found. */
  method Open(options: Options, d: Disk, list: seq<nat>, counters: Record, found: Version, H: set<Entry>,
              floor: Sequence)
    returns (db: DBImpl, ghost files: Level, ghost newLog: nat)
    requires DiskOk(d, H, floor) && counters == Counters(d) && found == Recovered(d)
    requires Listing(d.logs, counters.logNumber, list)
    ensures fresh(db) && db.Ok() && db.history == H && db.floor == floor && IsLast(d, db.lastSequence)
    ensures RecoversTo(d, files) && NewLog(d, files, newLog)
    ensures db.Now() == Opened(d, H, floor, files, newLog, db.lastSequence)
  {
    var s;
    s, files, newLog := RecoveredState(options, d, list, counters, found, H, floor);
    db := new DBImpl(options, s);
  }
}
