/** Every run of the store, crashes included: what is read is always the newest write that a reader may see. */
module Runs {
  import opened Keys
  import opened Cursors
  import opened Reads
  import opened Versions
  import opened Compactions
  import opened Builders
  import opened Installs
  import opened Manifests
  import opened Lookup
  import opened Tasks
  import opened Disks
  import opened Store
  import opened Writes
  import opened Background
  import opened Recovery

  datatype World = Up(state: State) | Down(disk: Disk, history: set<Entry>, floor: Sequence)

  datatype Action =
    // the foreground
    | LogBatch(batch: Batch)
    | InsertBatch
    | SwitchMemtable
    | TakeSnapshot
    | ReleaseSnapshot(index: nat)
    | OpenIterator
    | CloseIterator(version: Version)
    // the background thread
    | StartJob(task: Task, next: nat)
    | RecordJob
    | InstallJob
    | RemoveLogs(numbers: set<nat>)
    | RemoveManifests(numbers: set<nat>)
    | RemoveTables(numbers: set<nat>)
    // crashes, recovery that is itself cut short after some of its steps, and recovery that completes
    | Crash
    | WriteRecoveredTables(files: Level)
    | CreateLog(number: nat)
    | WriteManifest(records: seq<Record>)
    | Open(tables: Level, newLog: nat, lastSequence: Sequence)

  ghost predicate WorldOk(w: World) {
    match w
    case Up(s) => Inv(s)
    case Down(d, H, floor) => DiskOk(d, H, floor)
  }

  ghost predicate Can(w: World, a: Action) {
    match a
    case LogBatch(b) => w.Up? && CanAppend(w.state, b)
    case InsertBatch => w.Up?
    case SwitchMemtable => w.Up? && CanSwitch(w.state)
    case TakeSnapshot => w.Up?
    case ReleaseSnapshot(_) => w.Up?
    case OpenIterator => w.Up?
    case CloseIterator(_) => w.Up?
    case StartJob(task, next) => w.Up? && CanStart(w.state, task, next)
    case RecordJob => w.Up? && w.state.work.Ready?
    case InstallJob => w.Up? && w.state.work.Logged?
    case RemoveLogs(N) => w.Up? && LogsAreObsolete(w.state, N)
    case RemoveManifests(N) => w.Up? && ManifestsAreObsolete(w.state, N)
    case RemoveTables(N) => w.Up? && TablesAreObsolete(w.state, N)
    case Crash => true
    case WriteRecoveredTables(files) => w.Down? && NumberedFrom(files, Counters(w.disk).nextFile)
    case CreateLog(n) => w.Down? && Counters(w.disk).logNumber <= n && forall m :: m in w.disk.logs ==> m < n
    case WriteManifest(_) => w.Down?
    case Open(files, newLog, q) =>
      w.Down? && RecoversTo(w.disk, files) && NewLog(w.disk, files, newLog) && IsLast(w.disk, q)
  }

  ghost function Do(w: World, a: Action): World {
    match w
    case Up(s) => DoUp(s, a)
    case Down(d, H, floor) => DoDown(d, H, floor, a)
  }

  ghost function DoUp(s: State, a: Action): World {
    match a
    case LogBatch(b) => Up(Append(s, b))
    case InsertBatch => Up(Apply(s))
    case SwitchMemtable => Up(Switch(s))
    case TakeSnapshot => Up(Snap(s))
    case ReleaseSnapshot(i) => Up(Release(s, i))
    case OpenIterator => Up(Pin(s))
    case CloseIterator(v) => Up(Unpin(s, v))
    case StartJob(task, next) => Up(Start(s, task, next))
    case RecordJob => Up(LogEdit(s))
    case InstallJob => Up(Install(s))
    case RemoveLogs(N) => Up(DeleteLogs(s, N))
    case RemoveManifests(N) => Up(DeleteManifests(s, N))
    case RemoveTables(N) => Up(DeleteTables(s, N))
    case _ => Down(s.disk, s.history, s.floor)
  }

  ghost function DoDown(d: Disk, H: set<Entry>, floor: Sequence, a: Action): World {
    match a
    case WriteRecoveredTables(files) => Down(d.(tables := WithTables(d.tables, files)), H, floor)
    case CreateLog(n) => Down(d.(logs := d.logs[n := []]), H, floor)
    case WriteManifest(records) => Down(d.(manifests := d.manifests[Counters(d).nextFile := records]), H, floor)
    case Open(files, newLog, q) => Up(Opened(d, H, floor, files, newLog, q))
    case _ => Down(d, H, floor)
  }

  predicate Foreground(a: Action) {
    a.LogBatch? || a.InsertBatch? || a.SwitchMemtable? || a.TakeSnapshot? || a.ReleaseSnapshot? || a.OpenIterator? ||
    a.CloseIterator?
  }

  lemma {:induction false} ForegroundKeeps(s: State, a: Action)
    requires Inv(s) && Can(Up(s), a) && Foreground(a)
    ensures WorldOk(DoUp(s, a))
  {
    match a
    case LogBatch(b) => AppendKeeps(s, b);
    case InsertBatch => ApplyKeeps(s);
    case SwitchMemtable => SwitchKeeps(s);
    case TakeSnapshot => SnapKeeps(s);
    case ReleaseSnapshot(i) => ReleaseKeeps(s, i);
    case OpenIterator => PinKeeps(s, s.version);
    case CloseIterator(v) => PinKeeps(s, v);
  }

  lemma {:induction false} BackgroundKeeps(s: State, a: Action)
    requires Inv(s) && Can(Up(s), a) && !Foreground(a)
    ensures WorldOk(DoUp(s, a))
  {
    match a
    case StartJob(task, next) => StartKeeps(s, task, next);
    case RecordJob => LogEditKeeps(s);
    case InstallJob => InstallKeeps(s);
    case RemoveLogs(N) => DeleteLogsKeeps(s, N);
    case RemoveManifests(N) => DeleteManifestsKeeps(s, N);
    case RemoveTables(N) => DeleteTablesKeeps(s, N);
    case Crash => CrashSafe(s);
  }

  lemma {:induction false} DownKeeps(d: Disk, H: set<Entry>, floor: Sequence, a: Action)
    requires DiskOk(d, H, floor) && Can(Down(d, H, floor), a)
    ensures WorldOk(DoDown(d, H, floor, a))
  {
    match a
    case Crash =>
    case WriteRecoveredTables(files) => TablesWritten(d, H, floor, files);
    case CreateLog(n) => LogCreated(d, H, floor, n);
    case WriteManifest(records) => ManifestWritten(d, H, floor, records);
    case Open(files, newLog, q) => OpenedKeeps(d, H, floor, files, newLog, q);
  }

  lemma {:induction false} StepKeeps(w: World, a: Action)
    requires WorldOk(w) && Can(w, a)
    ensures WorldOk(Do(w, a))
  {
    match w
    case Up(s) => if Foreground(a) { ForegroundKeeps(s, a); } else { BackgroundKeeps(s, a); }
    case Down(d, H, floor) => DownKeeps(d, H, floor, a);
  }

  // ----- runs -----

  ghost predicate Possible(w: World, run: seq<Action>)
    decreases |run|
  {
    run == [] || (Can(w, run[0]) && Possible(Do(w, run[0]), run[1..]))
  }

  ghost function Final(w: World, run: seq<Action>): World
    decreases |run|
  {
    if run == [] then w else Final(Do(w, run[0]), run[1..])
  }

  /** The invariant holds at every point of every run, however the steps interleave and wherever it crashes. */
  lemma {:induction false} RunKeeps(w: World, run: seq<Action>)
    requires WorldOk(w) && Possible(w, run)
    ensures WorldOk(Final(w, run))
    decreases |run|
  {
    if run != [] {
      StepKeeps(w, run[0]);
      RunKeeps(Do(w, run[0]), run[1..]);
    }
  }

  ghost function History(w: World): set<Entry> {
    if w.Up? then w.state.history else w.history
  }

  /** Every write of every batch that reaches a log during the run. */
  ghost function Written(run: seq<Action>): set<Entry> {
    if run == [] then {} else (if run[0].LogBatch? then Set(run[0].batch.entries) else {}) + Written(run[1..])
  }

  lemma {:induction false} HistoryStep(w: World, a: Action)
    requires Can(w, a)
    ensures History(Do(w, a)) == History(w) + if a.LogBatch? then Set(a.batch.entries) else {}
  {
  }

  lemma {:induction false} HistoryIsWritten(w: World, run: seq<Action>)
    requires Possible(w, run)
    ensures History(Final(w, run)) == History(w) + Written(run)
    decreases |run|
  {
    if run != [] {
      HistoryStep(w, run[0]);
      HistoryIsWritten(Do(w, run[0]), run[1..]);
    }
  }

  // ----- what clients hold -----

  /** What clients hold of snapshots after a step: those taken and not released; a crash ends all clients. */
  ghost function HeldAfter(w: World, a: Action, held: multiset<Sequence>): multiset<Sequence> {
    match a
    case TakeSnapshot => if w.Up? then held + multiset{w.state.lastSequence} else held
    case ReleaseSnapshot(i) =>
      if w.Up? && i < |w.state.snapshots| then held - multiset{w.state.snapshots[i]} else held
    case Crash => multiset{}
    case _ => held
  }

  ghost function Held(w: World, run: seq<Action>, held: multiset<Sequence>): multiset<Sequence>
    decreases |run|
  {
    if run == [] then held else Held(Do(w, run[0]), run[1..], HeldAfter(w, run[0], held))
  }

  function Snapshots(w: World): multiset<Sequence> {
    if w.Up? then multiset(w.state.snapshots) else multiset{}
  }

  lemma {:induction false} StepHolds(w: World, a: Action)
    requires Can(w, a)
    ensures Snapshots(Do(w, a)) == HeldAfter(w, a, Snapshots(w))
  {
    if a.TakeSnapshot? {
      SnapAdds(w.state);
    } else if a.ReleaseSnapshot? && a.index < |w.state.snapshots| {
      ReleaseRemoves(w.state, a.index);
    }
  }

  /** The store has just the snapshots that clients hold. */
  lemma {:induction false} RunHolds(w: World, run: seq<Action>, held: multiset<Sequence>)
    requires Possible(w, run) && Snapshots(w) == held
    ensures Snapshots(Final(w, run)) == Held(w, run, held)
    decreases |run|
  {
    if run != [] {
      StepHolds(w, run[0]);
      RunHolds(Do(w, run[0]), run[1..], HeldAfter(w, run[0], held));
    }
  }

  /** The versions that iterators hold after a step. */
  ghost function OpenAfter(w: World, a: Action, open: set<Version>): set<Version> {
    match a
    case OpenIterator => if w.Up? then open + {w.state.version} else open
    case CloseIterator(v) => open - {v}
    case Crash => {}
    case _ => open
  }

  ghost function StillOpen(w: World, run: seq<Action>, open: set<Version>): set<Version>
    decreases |run|
  {
    if run == [] then open else StillOpen(Do(w, run[0]), run[1..], OpenAfter(w, run[0], open))
  }

  function Pinned(w: World): set<Version> {
    if w.Up? then w.state.pinned else {}
  }

  lemma {:induction false} StepPinned(w: World, a: Action)
    requires Can(w, a)
    ensures Pinned(Do(w, a)) == OpenAfter(w, a, Pinned(w))
  {
  }

  /** The store holds on to just the versions of open iterators. */
  lemma {:induction false} RunPinned(w: World, run: seq<Action>, open: set<Version>)
    requires Possible(w, run) && Pinned(w) == open
    ensures Pinned(Final(w, run)) == StillOpen(w, run, open)
    decreases |run|
  {
    if run != [] {
      StepPinned(w, run[0]);
      RunPinned(Do(w, run[0]), run[1..], OpenAfter(w, run[0], open));
    }
  }

  /** NewDB: an empty manifest with number 1, and nothing else. */
  const NewStore := Down(Disk(map[], map[], map[1 := [Change(Edit({}, []), 0, 2, 0)]], 1), {}, 0)

  // ----- what a reader gets -----

  /** What Get looks through: the memtables and the current version. */
  function Db(s: State): Lookup.Db {
    Lookup.Db(s.mem, s.ImmEntries(), s.version)
  }

  lemma {:induction false} DbParts(s: State)
    requires MemoryOk(s) && SequencesOk(s)
    ensures s.View().All() == Db(s).All() + if s.pending.Logging? then Set(s.pending.batch.entries) else {}
    ensures Set(s.mem) <= Set(s.Full())
  {
    FullIs(s);
  }

  lemma {:induction false} DbInOrder(s: State)
    requires MemoryOk(s) && SequencesOk(s)
    ensures Db(s).Ok()
  {
    DbParts(s);
    SubsetDistinct(s.View().All(), Db(s).All());
  }

  /** A batch being written is not visible yet. */
  lemma {:induction false} PendingUnseen(s: State, user: UserKey, snapshot: Sequence)
    requires MemoryOk(s) && SequencesOk(s) && snapshot <= s.lastSequence
    ensures ReadAt(Db(s).All(), user, snapshot) == ReadAt(s.View().All(), user, snapshot)
  {
    DbParts(s);
    if s.pending.Logging? {
      var N := Set(s.pending.batch.entries);
      forall e | e in N ensures !Sees(e, user, snapshot) {
        BatchRange(s.pending.batch, e);
      }
      OnlyRest(Db(s).All(), N, user, snapshot);
    }
  }

  lemma {:induction false} LiveReads(s: State, user: UserKey, snapshot: Sequence)
    requires Inv(s) && s.floor <= snapshot <= s.lastSequence
    ensures Db(s).Ok() && ReadAt(Db(s).All(), user, snapshot) == ReadAt(s.history, user, snapshot)
  {
    DbInOrder(s);
    PendingUnseen(s, user, snapshot);
    assert ReadAt(s.View().All(), user, snapshot) == ReadAt(s.history, user, snapshot);
  }

  /** DBImpl::Get with its own locking: at any point of a run it answers from everything ever written. */
  method Get(s: State, user: UserKey, snapshot: Sequence) returns (r: Answer)
    requires Inv(s) && s.floor <= snapshot <= s.lastSequence
    ensures r == ReadAt(s.history, user, snapshot)
  {
    LiveReads(s, user, snapshot);
    r := Lookup.Get(Db(s), user, snapshot);
  }

  lemma {:induction false} NoFilesOk()
    ensures VersionOk(NoFiles) && UniqueNumbers(NoFiles) && Deep(NoFiles, 0) == {}
    ensures forall l :: 0 <= l < NUM_LEVELS ==> NoFiles[l] == []
  {
    assert forall l :: 0 <= l < NUM_LEVELS ==> NoFiles[l] == [] && Union(NoFiles[l]) == {};
    forall i, j | 0 <= i < j < NUM_LEVELS ensures NewerLevel(NoFiles, i, j) {
    }
  }

  lemma {:induction false} NewStoreLeads()
    ensures LeadsTo(CurrentManifest(NewStore.disk), NoFiles)
    ensures forall l :: AllAdded(Edits(CurrentManifest(NewStore.disk)), l) == []
  {
    NoFilesOk();
    var records := CurrentManifest(NewStore.disk);
    assert Edits(records) == [Edit({}, [])] && Edits(records)[..0] == [];
    forall l: nat ensures AllAdded(Edits(records), l) == [] && OneByOne([], Edits(records), l) == [] {
      assert AllAdded([], l) == [] && AddedAt([], l) == [];
      assert DeletedAt(Edit({}, []), l) == {};
      assert ApplyEdit(Nothing, Edit({}, []), l) == Nothing;
    }
  }

  lemma {:induction false} NewStoreManifest()
    ensures Recovered(NewStore.disk) == NoFiles && ManifestOk(NewStore.disk, NoFiles)
    ensures Counters(NewStore.disk) == Change(Edit({}, []), 0, 2, 0)
  {
    NoFilesOk();
    NewStoreLeads();
    RecoverySame(CurrentManifest(NewStore.disk), NoFiles);
  }

  lemma {:induction false} NothingThere()
    ensures TablesThere(map[], NoFiles) && NumbersBelow(NoFiles, 2) && LogEntries(map[], 0) == {} && LogsOk(map[], 0)
  {
    NoFilesOk();
  }

  lemma {:induction false} NewStoreOk()
    ensures WorldOk(NewStore)
  {
    var d := NewStore.disk;
    NoFilesOk();
    NewStoreManifest();
    NothingThere();
    assert Deep(NoFiles, 0) + LogEntries(d.logs, 0) == {};
  }

  /** However the store is run from its creation, and wherever it crashes, its invariant holds whenever it is up. */
  lemma {:induction false} RunIsSound(run: seq<Action>)
    requires Possible(NewStore, run) && Final(NewStore, run).Up?
    ensures Checked(Final(NewStore, run).state) == Sound
  {
    NewStoreOk();
    RunKeeps(NewStore, run);
  }

  /** The main theorem: run the store in any way from its creation, with any number of crashes.  Whenever it is up,
      a read at the last sequence or at a snapshot that some client has taken and not released gives the newest write
      not after it, among all the writes of all the batches that reached a log. */
  lemma {:induction false} EveryRun(run: seq<Action>, user: UserKey, snapshot: Sequence)
    requires Possible(NewStore, run) && Final(NewStore, run).Up?
    requires snapshot == Final(NewStore, run).state.lastSequence || snapshot in Held(NewStore, run, multiset{})
    ensures ReadAt(Db(Final(NewStore, run).state).All(), user, snapshot) == ReadAt(Written(run), user, snapshot)
  {
    RunIsSound(run);
    RunHolds(NewStore, run, multiset{});
    HistoryIsWritten(NewStore, run);
    var s := Final(NewStore, run).state;
    assert s.history == {} + Written(run);
    LiveReads(s, user, snapshot);
  }

  /** And every table that an iterator may still read is there. */
  lemma {:induction false} EveryTable(run: seq<Action>, v: Version)
    requires Possible(NewStore, run) && Final(NewStore, run).Up? && v in StillOpen(NewStore, run, {})
    ensures TablesThere(Final(NewStore, run).state.disk.tables, v)
  {
    RunIsSound(run);
    RunPinned(NewStore, run, {});
  }
}
