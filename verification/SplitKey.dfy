/** A run of the store, from its creation, after which SetupOtherInputs selects files whose compaction brings a deleted
    value back: an earlier compaction has split a user key over two files, and only the first one is selected.  The
    entries are kept small; the program, which cuts its outputs at 1 MB or more, cuts behind the tombstone as well when
    the value before it falls just short of that. */
module SplitKey {
  import opened Keys
  import opened Cursors
  import opened Reads
  import opened Versions
  import opened Merging
  import opened Inputs
  import opened Compactions
  import opened Builders
  import opened Installs
  import opened Manifests
  import opened Lookup
  import opened Reorganise
  import opened Tasks
  import opened Disks
  import opened Store
  import opened Writes
  import opened Background
  import opened Recovery
  import opened Runs

  // ----- longer steps of a run -----

  function Writing(b: Batch): seq<Action> {
    [LogBatch(b)] + [InsertBatch]
  }

  function Working(task: Task, next: nat): seq<Action> {
    [StartJob(task, next)] + [RecordJob] + [InstallJob]
  }

  function Switching(task: Task, next: nat): seq<Action> {
    [SwitchMemtable] + Working(task, next)
  }

  lemma {:induction false} StepsJoin(w: World, a: seq<Action>, b: seq<Action>)
    requires Possible(w, a) && Possible(Final(w, a), b)
    ensures Possible(w, a + b) && Final(w, a + b) == Final(Final(w, a), b)
    decreases |a|
  {
    if a == [] {
      assert a + b == b;
    } else {
      assert (a + b)[0] == a[0] && (a + b)[1..] == a[1..] + b;
      StepsJoin(Do(w, a[0]), a[1..], b);
    }
  }

  lemma {:induction false} OneStep(w: World, a: Action)
    requires Can(w, a)
    ensures Possible(w, [a]) && Final(w, [a]) == Do(w, a)
  {
    var rest: seq<Action> := [a][1..];
    assert rest == [] && Possible(Do(w, a), rest) && Final(Do(w, a), rest) == Do(w, a);
  }

  lemma {:induction false} TwoSteps(w: World, a: Action, b: Action)
    requires Can(w, a) && Can(Do(w, a), b)
    ensures Possible(w, [a] + [b]) && Final(w, [a] + [b]) == Do(Do(w, a), b)
  {
    OneStep(w, a);
    OneStep(Do(w, a), b);
    StepsJoin(w, [a], [b]);
  }

  /** Nothing is under way, and all writes are in tables. */
  predicate Rests(s: State, v: Version, last: Sequence, next: nat, snapshots: seq<Sequence>) {
    && s.mem == [] && s.imm.NoImm? && s.pending.NoBatch? && s.work.Idle?
    && s.version == v && s.lastSequence == last && s.nextFile == next && s.snapshots == snapshots
  }

  /** A run from the creation of the store that ends in such a state. */
  ghost predicate ComesTo(run: seq<Action>, v: Version, last: Sequence, next: nat, snapshots: seq<Sequence>) {
    && Possible(NewStore, run) && Final(NewStore, run).Up?
    && Rests(Final(NewStore, run).state, v, last, next, snapshots)
  }

  /** CanStart as a value, for the same reason as Checked. */
  ghost function Startable(s: State, task: Task, next: nat): Health {
    if CanStart(s, task, next) then Sound else Unsound
  }

  ghost function Worked(s: State, task: Task, next: nat): State {
    LogEdit(Start(s, task, next))
  }

  lemma {:induction false} WorkingGoes(s: State, task: Task, next: nat)
    requires Startable(s, task, next) == Sound
    ensures Possible(Up(s), Working(task, next))
    ensures Final(Up(s), Working(task, next)) == Up(Install(Worked(s, task, next)))
  {
    TwoSteps(Up(s), StartJob(task, next), RecordJob);
    OneStep(Up(Worked(s, task, next)), InstallJob);
    StepsJoin(Up(s), [StartJob(task, next)] + [RecordJob], [InstallJob]);
  }

  /** All of the job's steps but for the install leave the store at rest. */
  lemma {:induction false} WorkingRests(s: State, task: Task, next: nat)
    requires s.mem == [] && s.pending.NoBatch? && (task.IsFlush() || s.imm.NoImm?)
    ensures Rests(Install(Worked(s, task, next)), Outcome(s.version, task), s.lastSequence, next, s.snapshots)
  {
  }

  ghost predicate NoneDownTo(v: Version, level: nat, f: File)
    requires level < NUM_LEVELS
  {
    level > 0 ==> forall l :: 0 <= l <= level ==> !AnyOverlap(v[l], At(f.smallest.user), At(f.largest.user))
  }

  /** The memtable can be flushed to any level that its user keys do not meet down to. */
  lemma {:induction false} MemtableFlushes(s: State, level: nat, f: File)
    requires MemoryOk(s) && SequencesOk(s) && CanSwitch(s)
    requires level < NUM_LEVELS && f.Ok() && f.entries == s.mem && s.nextFile < f.number
    requires NoneDownTo(s.version, level, f)
    ensures CanFlush(s.version, level, f)
  {
    var all := s.View().All();
    assert Set(f.entries) + Deep(s.version, 0) <= all;
    SubsetDistinct(all, Set(f.entries) + Deep(s.version, 0));
  }

  lemma {:induction false} FlushStarts(s: State, level: nat, f: File)
    requires MemoryOk(s) && CanSwitch(s) && s.work.Idle? && f.entries == s.mem && f.number == s.nextFile + 1
    requires CanFlush(s.version, level, f)
    ensures Startable(Switch(s), FlushTo(level, f), f.number + 1) == Sound
  {
  }

  lemma {:induction false} SwitchGoes(s: State, task: Task, next: nat)
    requires CanSwitch(s) && Startable(Switch(s), task, next) == Sound
    ensures Possible(Up(s), Switching(task, next))
    ensures Final(Up(s), Switching(task, next)) == Up(Install(Worked(Switch(s), task, next)))
  {
    OneStep(Up(s), SwitchMemtable);
    WorkingGoes(Switch(s), task, next);
    StepsJoin(Up(s), [SwitchMemtable], Working(task, next));
  }

  lemma {:induction false} FlushReady(s: State, level: nat, f: File)
    requires Checked(s) == Sound && CanSwitch(s) && s.work.Idle?
    requires level < NUM_LEVELS && f.Ok() && f.entries == s.mem && f.number == s.nextFile + 1
    requires NoneDownTo(s.version, level, f)
    ensures Startable(Switch(s), FlushTo(level, f), f.number + 1) == Sound
  {
    MemtableFlushes(s, level, f);
    FlushStarts(s, level, f);
  }

  lemma {:induction false} SwitchingJoins(run: seq<Action>, s: State, task: Task, next: nat)
    requires Possible(NewStore, run) && Final(NewStore, run) == Up(s)
    requires CanSwitch(s) && Startable(Switch(s), task, next) == Sound
    ensures Possible(NewStore, run + Switching(task, next))
    ensures Final(NewStore, run + Switching(task, next)) == Up(Install(Worked(Switch(s), task, next)))
  {
    SwitchGoes(s, task, next);
    StepsJoin(NewStore, run, Switching(task, next));
  }

  lemma {:induction false} SwitchingRests(s: State, task: Task, next: nat)
    requires CanSwitch(s) && task.IsFlush()
    ensures Rests(Install(Worked(Switch(s), task, next)), Outcome(s.version, task), s.lastSequence, next, s.snapshots)
  {
    WorkingRests(Switch(s), task, next);
  }

  lemma {:induction false} WritingGoes(s: State, b: Batch)
    requires CanAppend(s, b)
    ensures Possible(Up(s), Writing(b)) && Final(Up(s), Writing(b)) == Up(Apply(Append(s, b)))
  {
    TwoSteps(Up(s), LogBatch(b), InsertBatch);
  }

  /** All writes since the last flush are in the memtable. */
  predicate Fills(s: State, mem: seq<Entry>, v: Version, last: Sequence, next: nat, snapshots: seq<Sequence>) {
    && s.mem == mem && s.imm.NoImm? && s.pending.NoBatch? && s.work.Idle?
    && s.version == v && s.lastSequence == last && s.nextFile == next && s.snapshots == snapshots
  }

  /** A batch is written... */
  lemma {:induction false} BatchWritten(run: seq<Action>, v: Version, last: Sequence, next: nat,
                                        snapshots: seq<Sequence>, b: Batch)
    requires ComesTo(run, v, last, next, snapshots)
    requires BatchOk(b) && b.first == last + 1 && last + |b.entries| < MAX_SEQUENCE
    ensures Possible(NewStore, run + Writing(b)) && Final(NewStore, run + Writing(b)).Up?
    ensures Fills(Final(NewStore, run + Writing(b)).state, InsertAll([], b.entries), v, last + |b.entries|, next,
            snapshots)
  {
    var s := Final(NewStore, run).state;
    WritingGoes(s, b);
    StepsJoin(NewStore, run, Writing(b));
  }

  lemma {:induction false} FilledStarts(run: seq<Action>, v: Version, last: Sequence, next: nat,
                                        snapshots: seq<Sequence>, level: nat, f: File)
    requires Possible(NewStore, run) && Final(NewStore, run).Up?
    requires Fills(Final(NewStore, run).state, f.entries, v, last, next, snapshots)
    requires level < NUM_LEVELS && f.Ok() && f.number == next + 1 && NoneDownTo(v, level, f)
    ensures CanSwitch(Final(NewStore, run).state)
    ensures Startable(Switch(Final(NewStore, run).state), FlushTo(level, f), f.number + 1) == Sound
  {
    RunIsSound(run);
    FlushReady(Final(NewStore, run).state, level, f);
  }

  lemma {:induction false} SwitchedFlushes(run: seq<Action>, mem: seq<Entry>, v: Version, last: Sequence, next: nat,
                                           snapshots: seq<Sequence>, task: Task, after: nat)
    requires Possible(NewStore, run) && Final(NewStore, run).Up? && task.IsFlush()
    requires Fills(Final(NewStore, run).state, mem, v, last, next, snapshots)
    requires CanSwitch(Final(NewStore, run).state)
    requires Startable(Switch(Final(NewStore, run).state), task, after) == Sound
    ensures ComesTo(run + Switching(task, after), Outcome(v, task), last, after, snapshots)
  {
    SwitchingJoins(run, Final(NewStore, run).state, task, after);
    SwitchingRests(Final(NewStore, run).state, task, after);
  }

  /** ... and then flushed. */
  lemma {:induction false} Flushes(run: seq<Action>, v: Version, last: Sequence, next: nat, snapshots: seq<Sequence>,
                                   level: nat, f: File)
    requires Possible(NewStore, run) && Final(NewStore, run).Up?
    requires Fills(Final(NewStore, run).state, f.entries, v, last, next, snapshots)
    requires level < NUM_LEVELS && f.Ok() && f.number == next + 1 && NoneDownTo(v, level, f)
    ensures ComesTo(run + Switching(FlushTo(level, f), f.number + 1), Applied(v, FlushEdit(level, f)), last, next + 2,
            snapshots)
  {
    FilledStarts(run, v, last, next, snapshots, level, f);
    SwitchedFlushes(run, f.entries, v, last, next, snapshots, FlushTo(level, f), f.number + 1);
  }

  lemma {:induction false} SnapshotTaken(run: seq<Action>, mem: seq<Entry>, v: Version, last: Sequence, next: nat,
                                         snapshots: seq<Sequence>)
    requires Possible(NewStore, run) && Final(NewStore, run).Up?
    requires Fills(Final(NewStore, run).state, mem, v, last, next, snapshots)
    ensures Possible(NewStore, run + [TakeSnapshot]) && Final(NewStore, run + [TakeSnapshot]).Up?
    ensures Fills(Final(NewStore, run + [TakeSnapshot]).state, mem, v, last, next, snapshots + [last])
  {
    OneStep(Final(NewStore, run), TakeSnapshot);
    StepsJoin(NewStore, run, [TakeSnapshot]);
  }

  lemma {:induction false} SnapshotReleased(run: seq<Action>, v: Version, last: Sequence, next: nat,
                                            snapshots: seq<Sequence>)
    requires ComesTo(run, v, last, next, snapshots) && |snapshots| == 1
    ensures ComesTo(run + [ReleaseSnapshot(0)], v, last, next, [])
  {
    OneStep(Final(NewStore, run), ReleaseSnapshot(0));
    StepsJoin(NewStore, run, [ReleaseSnapshot(0)]);
    assert snapshots[..0] + snapshots[1..] == [];
  }

  predicate NumbersIn(files: Level, lo: nat, hi: nat) {
    forall f :: f in files ==> lo <= f.number < hi
  }

  /** TaskOk without an immutable memtable and, for a compaction, NothingFollows; a value, so that the solver does not
      unfold both at every step of the run. */
  ghost function Judged(v: Version, task: Task): Health {
    if TaskOk(v, [], task) && (task.Compact? ==> NothingBehind(v, task)) then Sound else Unsound
  }

  ghost predicate NothingBehind(v: Version, task: Task)
    requires task.Compact?
  {
    task.level + 1 < NUM_LEVELS && NothingFollows(v, task.level, task.sel)
  }

  lemma {:induction false} CompactStarts(s: State, task: Task, after: nat)
    requires s.work.Idle? && s.imm.NoImm? && task.Compact? && Judged(s.version, task) == Sound
    requires s.nextFile <= after && NumbersIn(task.outputs, s.nextFile, after)
    requires task.smallestSnapshot == OldestSnapshot(s)
    ensures Startable(s, task, after) == Sound
  {
    assert s.ImmEntries() == [];
    NothingFollowsCovers(s.View(), task.level, task.sel, task.smallestSnapshot);
  }

  lemma {:induction false} WorkingJoins(run: seq<Action>, s: State, task: Task, after: nat)
    requires Possible(NewStore, run) && Final(NewStore, run) == Up(s) && Startable(s, task, after) == Sound
    ensures Possible(NewStore, run + Working(task, after))
    ensures Final(NewStore, run + Working(task, after)) == Up(Install(Worked(s, task, after)))
  {
    WorkingGoes(s, task, after);
    StepsJoin(NewStore, run, Working(task, after));
  }

  /** A compaction in between. */
  lemma {:induction false} Compacts(run: seq<Action>, v: Version, last: Sequence, next: nat, snapshots: seq<Sequence>,
                                    task: Task, after: nat)
    requires ComesTo(run, v, last, next, snapshots) && Startable(Final(NewStore, run).state, task, after) == Sound
    requires task.Compact?
    ensures ComesTo(run + Working(task, after), Outcome(v, task), last, after, snapshots)
  {
    WorkingJoins(run, Final(NewStore, run).state, task, after);
    WorkingRests(Final(NewStore, run).state, task, after);
  }

  // ----- the run -----

  function Put(user: UserKey, sequence: Sequence): Entry {
    Entry(InternalKey(user, sequence, Value), [7])
  }

  function Deleted(user: UserKey, sequence: Sequence): Entry {
    Entry(InternalKey(user, sequence, Deletion), [])
  }

  function FileOf(number: nat, s: seq<Entry>): File
    requires s != []
  {
    File(number, 1, s[0].key, s[|s| - 1].key, s)
  }

  const Old := FileOf(5, [Put(4.0, 1), Put(5.0, 2)])
  const Tombstone := FileOf(7, [Deleted(5.0, 3)])
  const First := FileOf(8, [Put(4.0, 1), Deleted(5.0, 3)])
  const Second := FileOf(9, [Put(5.0, 2)])
  const Top := FileOf(11, [Put(4.0, 4)])
  const Output := FileOf(12, [Put(4.0, 4)])

  /** Two keys are written and a snapshot is taken... */
  function Loading(run: seq<Action>): seq<Action> {
    run + Writing(Batch(1, Old.entries)) + [TakeSnapshot] + Switching(FlushTo(2, Old), 6)
  }

  /** ... one of them is deleted... */
  function Deleting(run: seq<Action>): seq<Action> {
    run + Writing(Batch(3, Tombstone.entries)) + Switching(FlushTo(1, Tombstone), 8)
  }

  const Both := Selection([Tombstone], [Old], [], Tombstone.smallest, Tombstone.largest)

  /** ... and a compaction puts the tombstone and the value, which the snapshot still sees, into different files. */
  function Splitting(run: seq<Action>): seq<Action> {
    run + Working(Compact(1, Both, [First, Second], 2), 10)
  }

  /** The snapshot goes, and another write of the other key is flushed. */
  function Covering(run: seq<Action>): seq<Action> {
    run + [ReleaseSnapshot(0)] + Writing(Batch(4, Top.entries)) + Switching(FlushTo(1, Top), 12)
  }

  function TheRun(): seq<Action> {
    Covering(Splitting(Deleting(Loading([Open([], 3, 0)]))))
  }

  const Loaded: Version := [[], [], [Old], [], [], [], []]
  const WithTombstone: Version := [[], [Tombstone], [Old], [], [], [], []]
  const Split: Version := [[], [], [First, Second], [], [], [], []]
  const Covered: Version := [[], [Top], [First, Second], [], [], [], []]

  lemma {:induction false} NothingRecovered()
    ensures RecoversTo(NewStore.disk, []) && NewLog(NewStore.disk, [], 3) && IsLast(NewStore.disk, 0)
  {
    NewStoreManifest();
    NoFilesOk();
    var none: Level := [];
    assert Union(none) == {} && LogEntries(NewStore.disk.logs, 0) == {};
  }

  lemma {:induction false} OpenGoes(w: World, files: Level, newLog: nat, q: Sequence)
    requires w.Down? && RecoversTo(w.disk, files) && NewLog(w.disk, files, newLog) && IsLast(w.disk, q)
    ensures Possible(w, [Open(files, newLog, q)])
    ensures Final(w, [Open(files, newLog, q)]) == Up(Opened(w.disk, w.history, w.floor, files, newLog, q))
  {
    OneStep(w, Open(files, newLog, q));
  }

  lemma {:induction false} OpenedRests(w: World, newLog: nat, q: Sequence)
    requires w.Down? && With(Recovered(w.disk), []) == NoFiles
    ensures Rests(Opened(w.disk, w.history, w.floor, [], newLog, q), NoFiles, q, newLog + 1, [])
  {
  }

  lemma {:induction false} OpensEmpty(w: World, newLog: nat, q: Sequence)
    requires w.Down? && RecoversTo(w.disk, []) && NewLog(w.disk, [], newLog) && IsLast(w.disk, q)
    requires With(Recovered(w.disk), []) == NoFiles
    ensures var end := Final(w, [Open([], newLog, q)]);
            Possible(w, [Open([], newLog, q)]) && end.Up? && Rests(end.state, NoFiles, q, newLog + 1, [])
  {
    OpenGoes(w, [], newLog, q);
    OpenedRests(w, newLog, q);
  }

  lemma {:induction false} NothingWith()
    ensures With(Recovered(NewStore.disk), []) == NoFiles
  {
    NewStoreManifest();
    NoFilesAdded(NoFiles);
  }

  lemma {:induction false} Opens()
    ensures ComesTo([Open([], 3, 0)], NoFiles, 0, 4, [])
  {
    NothingRecovered();
    NothingWith();
    OpensEmpty(NewStore, 3, 0);
  }

  lemma {:induction false} InsertsOne(e: Entry)
    ensures InsertAll([], [e]) == [e]
  {
    var none: seq<Entry> := [];
    assert [e][..0] == none && InsertAll([], none) == [];
  }

  lemma {:induction false} InsertsTwo(a: Entry, b: Entry)
    requires Before(a.key, b.key)
    ensures InsertAll([], [a, b]) == [a, b]
  {
    InsertsOne(a);
    assert [a, b][..1] == [a] && [a][1..] == [] && !Before(b.key, a.key);
    assert InsertEntry([], b) == [b] && InsertEntry([a], b) == [a] + [b];
  }

  /** A level that has just one file. */
  lemma {:induction false} OnlyFile(files: Level, f: File)
    requires Ordered(files) && forall g :: g in files <==> g == f
    ensures files == [f]
  {
    OrderedUnique(files, [f]);
  }

  lemma {:induction false} FlushToEmpty(v: Version, level: nat, f: File)
    requires CanFlush(v, level, f) && v[level] == []
    ensures Applied(v, FlushEdit(level, f)) == v[level := [f]]
  {
    FlushedLevels(v, level, f);
    OnlyFile(Applied(v, FlushEdit(level, f))[level], f);
  }

  lemma {:induction false} FlushesToEmpty(run: seq<Action>, v: Version, last: Sequence, next: nat,
                                          snapshots: seq<Sequence>, level: nat, f: File)
    requires Possible(NewStore, run) && Final(NewStore, run).Up?
    requires Fills(Final(NewStore, run).state, f.entries, v, last, next, snapshots)
    requires level < NUM_LEVELS && f.Ok() && f.number == next + 1 && NoneDownTo(v, level, f) && v[level] == []
    ensures ComesTo(run + Switching(FlushTo(level, f), f.number + 1), v[level := [f]], last, next + 2, snapshots)
  {
    RunIsSound(run);
    MemtableFlushes(Final(NewStore, run).state, level, f);
    FlushToEmpty(v, level, f);
    Flushes(run, v, last, next, snapshots, level, f);
  }

  lemma {:induction false} Loads(run: seq<Action>)
    requires ComesTo(run, NoFiles, 0, 4, [])
    ensures ComesTo(Loading(run), Loaded, 2, 6, [2])
  {
    LoadsMemtable(run);
    FlushesToEmpty(run + Writing(Batch(1, Old.entries)) + [TakeSnapshot], NoFiles, 2, 4, [2], 2, Old);
    assert NoFiles[2 := [Old]] == Loaded;
  }

  lemma {:induction false} LoadsMemtable(run: seq<Action>)
    requires ComesTo(run, NoFiles, 0, 4, [])
    ensures var loaded := run + Writing(Batch(1, Old.entries)) + [TakeSnapshot];
            && Possible(NewStore, loaded) && Final(NewStore, loaded).Up?
            && Fills(Final(NewStore, loaded).state, Old.entries, NoFiles, 2, 4, [2])
  {
    var b := Batch(1, Old.entries);
    InsertsTwo(Put(4.0, 1), Put(5.0, 2));
    BatchWritten(run, NoFiles, 0, 4, [], b);
    SnapshotTaken(run + Writing(b), Old.entries, NoFiles, 2, 4, []);
    assert [] + [2] == [2];
  }

  lemma {:induction false} Deletes(run: seq<Action>)
    requires ComesTo(run, Loaded, 2, 6, [2])
    ensures ComesTo(Deleting(run), WithTombstone, 3, 8, [2])
  {
    var b := Batch(3, Tombstone.entries);
    InsertsOne(Deleted(5.0, 3));
    BatchWritten(run, Loaded, 2, 6, [2], b);
    FlushesToEmpty(run + Writing(b), Loaded, 3, 6, [2], 1, Tombstone);
    assert Loaded[1 := [Tombstone]] == WithTombstone;
  }

  lemma {:induction false} MergesFirst(a: seq<Entry>, b: seq<Entry>)
    requires a != [] && b != [] && Before(a[0].key, b[0].key)
    ensures Merge(a, b) == [a[0]] + Merge(a[1..], b)
  {
  }

  lemma {:induction false} MergesSecond(a: seq<Entry>, b: seq<Entry>)
    requires a != [] && b != [] && !Before(a[0].key, b[0].key)
    ensures Merge(a, b) == [b[0]] + Merge(a, b[1..])
  {
  }

  lemma {:induction false} ConcatOne(f: File)
    ensures Concat([f]) == f.entries
  {
    assert [f][..0] == [] && [] + f.entries == f.entries;
  }

  lemma {:induction false} ConcatTwo(f: File, g: File)
    ensures Concat([f, g]) == f.entries + g.entries
  {
    ConcatOne(f);
    assert [f, g][..1] == [f];
  }

  lemma {:induction false} MergeOfTwo(sel: Selection, f: File, g: File)
    requires sel.inputs0 == [f] && sel.inputs1 == [g]
    ensures MergeAll(InputRuns(1, sel)) == Merge(f.entries, g.entries)
  {
    ConcatOne(f);
    ConcatOne(g);
    var a, b := f.entries, g.entries;
    assert InputRuns(1, sel) == [a, b];
    var none: seq<seq<Entry>> := [];
    assert [a, b][1..] == [b] && [b][1..] == none;
    assert MergeAll([b]) == Merge(b, MergeAll(none)) == b;
  }

  lemma {:induction false} BothMerged()
    ensures MergeAll(InputRuns(1, Both)) == [Put(4.0, 1), Deleted(5.0, 3), Put(5.0, 2)]
  {
    MergeOfTwo(Both, Tombstone, Old);
    var d, a, b := Deleted(5.0, 3), Put(4.0, 1), Put(5.0, 2);
    MergesSecond([d], [a, b]);
    assert [a, b][1..] == [b] && [d][1..] == [];
    MergesFirst([d], [b]);
    assert [a] + ([d] + [b]) == [a, d, b];
  }

  /** The snapshot at 2 sees the old value, so nothing is dropped. */
  lemma {:induction false} BothKept()
    requires VersionOk(WithTombstone)
    ensures Compacted(WithTombstone, 1, Both, 2, [First, Second])
  {
    BothSelected();
    MergedInputs(WithTombstone, 1, Both);
    NothingDropped();
    CompactedBy(WithTombstone, 1, Both, 2, [First, Second], MergeAll(InputRuns(1, Both)));
  }

  lemma {:induction false} NothingDropped()
    ensures Concat([First, Second]) == KeptOf(WithTombstone, 1, 2, MergeAll(InputRuns(1, Both)))
  {
    BothMerged();
    ConcatTwo(First, Second);
    var s, p := MergeAll(InputRuns(1, Both)), PolicyOf(WithTombstone, 1, 2);
    assert !Drops(s, p, 0) && !Drops(s, p, 1) && !Drops(s, p, 2);
    assert Kept(s, p, 0) == [] && Kept(s, p, 1) == [s[0]] && Kept(s, p, 2) == [s[0], s[1]] &&
        Kept(s, p, 3) == [s[0], s[1], s[2]];
  }

  lemma {:induction false} OneSelected(v: Version, sel: Selection, f: File)
    requires Shaped(v) && v[1] == [f] && sel.inputs0 == [f] && sel.smallest == f.smallest && sel.largest == f.largest
    requires sel.inputs1 == Meeting(v[2], f.smallest, f.largest)
    ensures Selected(1, v, sel)
  {
    assert v[1][0..1] == [f];
    assert CleanCut(v[1], [f], 0, 1);
    assert sel.inputs0[0].largest == sel.largest && sel.inputs0[0].smallest == sel.smallest;
  }

  lemma {:induction false} BothSelected()
    requires Shaped(WithTombstone)
    ensures Selected(1, WithTombstone, Both)
  {
    var none: Level := [];
    assert [Old][1..] == none && Overlapping(none, At(5.0), At(5.0)) == none;
    OneSelected(WithTombstone, Both, Tombstone);
  }

  lemma {:induction false} HalvesShaped()
    ensures Disjoint([First, Second]) && Numbered([First, Second]) && Foreign(WithTombstone[2], [First, Second])
  {
  }

  lemma {:induction false} BothReplaced()
    requires VersionOk(WithTombstone) && UniqueNumbers(WithTombstone)
    ensures CanReplace(WithTombstone, 1, Both, [First, Second])
  {
    BothSelected();
    BothKept();
    HalvesShaped();
    MergedInputs(WithTombstone, 1, Both);
    CompactedUnion(WithTombstone, 1, Both, 2, [First, Second], MergeAll(InputRuns(1, Both)));
  }

  lemma {:induction false} NoFileBehind()
    ensures NothingFollows(WithTombstone, 1, Both) && NumbersBelow(WithTombstone, 8)
  {
    assert forall l :: 0 <= l < NUM_LEVELS && l != 1 && l != 2 ==> WithTombstone[l] == [];
    assert forall f :: f in WithTombstone[1] ==> f == Tombstone;
    assert forall f :: f in WithTombstone[2] ==> f == Old;
  }

  lemma {:induction false} SplitterOk()
    requires VersionOk(WithTombstone) && UniqueNumbers(WithTombstone)
    ensures Judged(WithTombstone, Compact(1, Both, [First, Second], 2)) == Sound
  {
    BothReplaced();
    BothKept();
    NoFileBehind();
  }

  lemma {:induction false} NoneLeft(v: Version, sel: Selection, outputs: Level)
    requires CanReplace(v, 1, sel, outputs) && v[1] == sel.inputs0
    ensures Replaced(v, 1, sel, outputs)[1] == []
  {
    ReplacedHere(v, 1, sel, outputs);
    OrderedUnique(Replaced(v, 1, sel, outputs)[1], []);
  }

  lemma {:induction false} OnlyOutputs(v: Version, sel: Selection, outputs: Level)
    requires CanReplace(v, 1, sel, outputs) && v[2] == sel.inputs1
    ensures Replaced(v, 1, sel, outputs)[2] == outputs
  {
    ReplacedNext(v, 1, sel, outputs);
    OutputsOrdered(v, sel, outputs);
    JustOutputs(Replaced(v, 1, sel, outputs)[2], v[2], outputs);
  }

  lemma {:induction false} OutputsOrdered(v: Version, sel: Selection, outputs: Level)
    requires CanReplace(v, 1, sel, outputs)
    ensures Ordered(outputs)
  {
    DisjointOrdered(outputs);
  }

  lemma {:induction false} JustOutputs(files: Level, gone: Level, outputs: Level)
    requires Ordered(files) && Ordered(outputs)
    requires forall f :: f in files <==> (f in gone && f !in gone) || f in outputs
    ensures files == outputs
  {
    OrderedUnique(files, outputs);
  }

  lemma {:induction false} RestUntouched(v: Version, sel: Selection, outputs: Level)
    requires CanReplace(v, 1, sel, outputs)
    ensures forall l: nat :: l < NUM_LEVELS && l != 1 && l != 2 ==> Replaced(v, 1, sel, outputs)[l] == v[l]
  {
    forall l: nat | l < NUM_LEVELS && l != 1 && l != 2 ensures Replaced(v, 1, sel, outputs)[l] == v[l] {
      ReplacedElsewhere(v, 1, sel, outputs, l);
    }
  }

  lemma {:induction false} SameVersion(v: Version, w: Version)
    requires forall l: nat :: l < NUM_LEVELS ==> v[l] == w[l]
    ensures v == w
  {
  }

  /** All files of levels 1 and 2 are replaced. */
  lemma {:induction false} AllReplaced(v: Version, sel: Selection, outputs: Level, w: Version)
    requires CanReplace(v, 1, sel, outputs) && v[1] == sel.inputs0 && v[2] == sel.inputs1
    requires w[1] == [] && w[2] == outputs && forall l: nat :: l < NUM_LEVELS && l != 1 && l != 2 ==> w[l] == v[l]
    ensures Replaced(v, 1, sel, outputs) == w
  {
    NoneLeft(v, sel, outputs);
    OnlyOutputs(v, sel, outputs);
    RestUntouched(v, sel, outputs);
    SameVersion(Replaced(v, 1, sel, outputs), w);
  }

  lemma {:induction false} SplitterMakes()
    requires VersionOk(WithTombstone) && UniqueNumbers(WithTombstone)
    ensures Outcome(WithTombstone, Compact(1, Both, [First, Second], 2)) == Split
  {
    BothReplaced();
    AllReplaced(WithTombstone, Both, [First, Second], Split);
  }

  lemma {:induction false} VersionSound(run: seq<Action>, v: Version, last: Sequence, next: nat,
                                        snapshots: seq<Sequence>)
    requires ComesTo(run, v, last, next, snapshots)
    ensures Runs.Db(Final(NewStore, run).state) == Lookup.Db([], [], v) && Lookup.Db([], [], v).Ok()
    ensures VersionOk(v) && UniqueNumbers(v)
  {
    RunIsSound(run);
    DbInOrder(Final(NewStore, run).state);
  }

  lemma {:induction false} Splits(run: seq<Action>)
    requires ComesTo(run, WithTombstone, 3, 8, [2])
    ensures ComesTo(Splitting(run), Split, 3, 10, [2])
  {
    var task := Compact(1, Both, [First, Second], 2);
    VersionSound(run, WithTombstone, 3, 8, [2]);
    SplitterMakes();
    SplitterOk();
    CompactStarts(Final(NewStore, run).state, task, 10);
    Compacts(run, WithTombstone, 3, 8, [2], task, 10);
  }

  lemma {:induction false} Covers(run: seq<Action>)
    requires ComesTo(run, Split, 3, 10, [2])
    ensures ComesTo(Covering(run), Covered, 4, 12, [])
  {
    SnapshotReleased(run, Split, 3, 10, [2]);
    CoversReleased(run + [ReleaseSnapshot(0)]);
  }

  lemma {:induction false} CoversReleased(run: seq<Action>)
    requires ComesTo(run, Split, 3, 10, [])
    ensures ComesTo(run + Writing(Batch(4, Top.entries)) + Switching(FlushTo(1, Top), 12), Covered, 4, 12, [])
  {
    var b := Batch(4, Top.entries);
    InsertsOne(Put(4.0, 4));
    BatchWritten(run, Split, 3, 10, [], b);
    FlushesToEmpty(run + Writing(b), Split, 4, 10, [], 1, Top);
    assert Split[1 := [Top]] == Covered;
  }

  lemma {:induction false} TheRunCovers()
    ensures ComesTo(TheRun(), Covered, 4, 12, [])
  {
    Opens();
    Loads([Open([], 3, 0)]);
    Deletes(Loading([Open([], 3, 0)]));
    Splits(Deleting(Loading([Open([], 3, 0)])));
    Covers(Splitting(Deleting(Loading([Open([], 3, 0)]))));
  }

  // ----- the compaction that follows -----

  const Picked := Selection([Top], [First], [], Top.smallest, Top.largest)

  lemma {:induction false} PickedMerged()
    ensures MergeAll(InputRuns(1, Picked)) == [Put(4.0, 4), Put(4.0, 1), Deleted(5.0, 3)]
  {
    MergeOfTwo(Picked, Top, First);
    var c, a, d := Put(4.0, 4), Put(4.0, 1), Deleted(5.0, 3);
    MergesFirst([c], [a, d]);
    assert [c][1..] == [] && [c] + [a, d] == [c, a, d];
  }

  lemma {:induction false} PickedKept()
    requires VersionOk(Covered)
    ensures Compacted(Covered, 1, Picked, 4, [Output])
  {
    PickedSelected();
    MergedInputs(Covered, 1, Picked);
    TwoDropped();
    CompactedBy(Covered, 1, Picked, 4, [Output], MergeAll(InputRuns(1, Picked)));
  }

  lemma {:induction false} TwoDropped()
    ensures Concat([Output]) == KeptOf(Covered, 1, 4, MergeAll(InputRuns(1, Picked)))
  {
    PickedMerged();
    ConcatOne(Output);
    var s, p := MergeAll(InputRuns(1, Picked)), PolicyOf(Covered, 1, 4);
    assert BaseLevel(Covered, 1, 5.0);
    assert !Drops(s, p, 0) && Drops(s, p, 1) && Drops(s, p, 2);
    assert Kept(s, p, 0) == [] && Kept(s, p, 1) == [s[0]] && Kept(s, p, 2) == [s[0]] && Kept(s, p, 3) == [s[0]];
  }

  lemma {:induction false} PickedSelected()
    requires Shaped(Covered)
    ensures Selected(1, Covered, Picked)
  {
    var none: Level := [];
    assert Overlapping([Second], At(4.0), At(4.0)) == none;
    assert [First, Second][1..] == [Second] && [Second][1..] == none;
    OneSelected(Covered, Picked, Top);
  }

  const Tables := Lookup.Db([], [], Covered)

  lemma {:induction false} PickedCompacts()
    requires Tables.Ok() && UniqueNumbers(Covered)
    ensures CanCompact(Tables, 1, Picked, 4, [Output])
  {
    PickedSelected();
    PickedKept();
  }

  lemma {:induction false} DeletedBefore()
    requires Tables.Ok()
    ensures ReadAt(Tables.All(), 5.0, 4) == NotFound
  {
    CoveredHolds();
    assert Tables.All() == Deep(Covered, 0);
    FourEntries(Tables.All());
  }

  lemma {:induction false} CoveredHolds()
    ensures Deep(Covered, 0) == {Put(4.0, 4), Put(4.0, 1), Deleted(5.0, 3), Put(5.0, 2)}
  {
    assert Top in Covered[1] && First in Covered[2] && Second in Covered[2];
    assert forall l :: 0 <= l < NUM_LEVELS && l != 1 && l != 2 ==> Covered[l] == [];
    InDeep(Covered, 1, Top, Top.entries[0]);
    InDeep(Covered, 2, First, First.entries[0]);
    InDeep(Covered, 2, First, First.entries[1]);
    InDeep(Covered, 2, Second, Second.entries[0]);
  }

  lemma {:induction false} FourEntries(all: set<Entry>)
    requires all == {Put(4.0, 4), Put(4.0, 1), Deleted(5.0, 3), Put(5.0, 2)} && Distinct(all)
    ensures ReadAt(all, 5.0, 4) == NotFound
  {
    assert Newest(all, 5.0, 4, Deleted(5.0, 3));
    ReadNewest(all, 5.0, 4, Deleted(5.0, 3));
  }

  lemma {:induction false} TwoEntries(all: set<Entry>)
    requires all == {Put(5.0, 2), Put(4.0, 4)}
    ensures ReadAt(all, 5.0, 4) == Found([7])
  {
    assert Newest(all, 5.0, 4, Put(5.0, 2));
    ReadNewest(all, 5.0, 4, Put(5.0, 2));
  }

  lemma {:induction false} FoundIn(db: Lookup.Db, sel: Selection, outputs: Level)
    requires CanCompact(db, 1, sel, 4, outputs)
    requires Reorganise.Rest(db, 1, sel) == {Put(5.0, 2)} && Union(outputs) == {Put(4.0, 4)}
    ensures ReadAt(CompactedDb(db, 1, sel, outputs).All(), 5.0, 4) == Found([7])
  {
    CanCompactReplace(db, 1, sel, 4, outputs);
    AllBeforeAndAfter(db, 1, sel, outputs);
    TwoEntries(CompactedDb(db, 1, sel, outputs).All());
  }

  lemma {:induction false} FoundAfter()
    requires CanCompact(Tables, 1, Picked, 4, [Output])
    ensures ReadAt(CompactedDb(Tables, 1, Picked, [Output]).All(), 5.0, 4) == Found([7])
  {
    RestIs();
    OutputHolds();
    FoundIn(Tables, Picked, [Output]);
  }

  lemma {:induction false} OutputHolds()
    ensures Union([Output]) == {Put(4.0, 4)}
  {
    assert Output in [Output] && Output.entries[0] in Output.entries;
  }

  /** Only the second half of the split key stays. */
  lemma {:induction false} RestIs()
    ensures Reorganise.Rest(Tables, 1, Picked) == {Put(5.0, 2)}
  {
    assert forall l :: 0 <= l < NUM_LEVELS && l != 1 && l != 2 ==> Covered[l] == [];
    assert Top in Picked.inputs0 && First in Picked.inputs1;
    assert Second in Covered[2] && Stays(1, Picked, 2, Second) && Second.entries[0] in Second.entries;
    assert Put(5.0, 2) in Others(Covered, 1, Picked);
    forall e | e in Others(Covered, 1, Picked) ensures e == Put(5.0, 2) {
      var l, f :| 0 <= l < NUM_LEVELS && f in Covered[l] && Stays(1, Picked, l, f) && e in f.entries;
      assert f == Second;
    }
  }

  lemma {:induction false} SecondFollows()
    ensures !NothingFollows(Covered, 1, Picked)
  {
    assert First in Picked.inputs1 && Second in Covered[2] && IsBehind(Picked, Second);
  }

  /** A store that has run from its creation, without a crash, may select a compaction that turns a deleted key, read at
      the last sequence, into a found one. */
  lemma {:induction false} DeletedValueComesBack()
    ensures Possible(NewStore, TheRun()) && Final(NewStore, TheRun()).Up?
    ensures var s := Final(NewStore, TheRun()).state;
            && s.work.Idle? && OldestSnapshot(s) == s.lastSequence == 4
            && CanCompact(Runs.Db(s), 1, Picked, OldestSnapshot(s), [Output]) && !NothingFollows(s.version, 1, Picked)
            && ReadAt(Runs.Db(s).All(), 5.0, s.lastSequence) == NotFound
            && ReadAt(CompactedDb(Runs.Db(s), 1, Picked, [Output]).All(), 5.0, s.lastSequence) == Found([7])
  {
    TheRunCovers();
    VersionSound(TheRun(), Covered, 4, 12, []);
    PickedCompacts();
    DeletedBefore();
    FoundAfter();
    SecondFollows();
  }
}
