/** DBImpl::NewIterator: the runs of the whole store merged, and what the user's view of them holds. */
module Iterators {
  import opened Keys
  import opened Cursors
  import opened Reads
  import opened Versions
  import opened Merging
  import opened Installs
  import opened Lookup
  import opened Reorganise
  import opened Runs
  import D = DbIterator

  // ----- the children of the internal iterator -----

  /** Version::AddIterators: one run for each level from the given one on that has files. */
  function LevelRuns(v: Version, level: nat): seq<seq<Entry>>
    decreases NUM_LEVELS - level
  {
    if level >= NUM_LEVELS then [] else ConcatRun(v[level]) + LevelRuns(v, level + 1)
  }

  /** Each file of level 0, and the deeper levels. */
  function TableRuns(v: Version): seq<seq<Entry>> {
    FileRuns(v[0]) + LevelRuns(v, 1)
  }

  /** The memtables and the tables. */
  function StoreRuns(db: Lookup.Db): seq<seq<Entry>> {
    [db.mem] + ([db.imm] + TableRuns(db.version))
  }

  lemma {:induction false} NewerIsApart(A: set<Entry>, B: set<Entry>)
    requires NewerThan(A, B)
    ensures KeysApart(A, B)
  {
  }

  lemma {:induction false} LevelJoins(v: Version, level: nat, runs: seq<seq<Entry>>, deeper: seq<seq<Entry>>)
    requires VersionOk(v) && level < NUM_LEVELS && RunsOf(runs, Union(v[level])) && RunsOf(deeper, Deep(v, level + 1))
    ensures RunsOf(runs + deeper, Deep(v, level))
  {
    DeepSplits(v, level);
    NewerIsApart(Union(v[level]), Deep(v, level + 1));
    RunsJoin(runs, Union(v[level]), deeper, Deep(v, level + 1));
  }

  lemma {:induction false} LevelRunsOf(v: Version, level: nat)
    requires VersionOk(v) && 1 <= level <= NUM_LEVELS
    ensures RunsOf(LevelRuns(v, level), Deep(v, level))
    decreases NUM_LEVELS - level
  {
    if level < NUM_LEVELS {
      LevelRunsOf(v, level + 1);
      LevelOrdered(v, level);
      ConcatRuns(v[level]);
      LevelJoins(v, level, ConcatRun(v[level]), LevelRuns(v, level + 1));
    } else {
      assert Deep(v, level) == {};
    }
  }

  lemma {:induction false} FileRunsOf(v: Version)
    requires VersionOk(v)
    ensures RunsOf(FileRuns(v[0]), Union(v[0]))
  {
    Level0Runs(v[0]);
  }

  lemma {:induction false} TableRunsOf(v: Version)
    requires VersionOk(v)
    ensures RunsOf(TableRuns(v), Deep(v, 0))
  {
    FileRunsOf(v);
    LevelRunsOf(v, 1);
    LevelJoins(v, 0, FileRuns(v[0]), LevelRuns(v, 1));
  }

  /** The runs are sorted, no key is in two of them, and together they hold the whole store. */
  lemma {:induction false} StoreRunsOf(db: Lookup.Db)
    requires db.Ok()
    ensures RunsOf(StoreRuns(db), db.All())
  {
    var tables := TableRuns(db.version);
    TableRunsOf(db.version);
    OneRun(db.imm);
    NewerIsApart(Set(db.imm), db.Tables());
    RunsJoin([db.imm], Set(db.imm), tables, db.Tables());
    OneRun(db.mem);
    NewerIsApart(Set(db.mem), Set(db.imm) + db.Tables());
    RunsJoin([db.mem], Set(db.mem), [db.imm] + tables, Set(db.imm) + db.Tables());
  }

  lemma {:induction false} MergedStore(db: Lookup.Db)
    requires db.Ok()
    ensures Sorted(MergeAll(StoreRuns(db))) && Set(MergeAll(StoreRuns(db))) == db.All()
  {
    StoreRunsOf(db);
    MergeAllSorted(StoreRuns(db));
    forall e ensures e in MergeAll(StoreRuns(db)) <==> e in db.All() {
      MergeAllHas(StoreRuns(db), e);
    }
  }

  /** NewInternalIterator: a merging iterator that walks all entries of the store in order. */
  method NewInternalIterator(db: Lookup.Db) returns (internal: MergingIterator)
    requires db.Ok()
    ensures internal.Ok() && fresh(internal) && fresh(internal.children)
    ensures Sorted(internal.merged) && Set(internal.merged) == db.All() && internal.merged == MergeAll(StoreRuns(db))
  {
    StoreRunsOf(db);
    MergedStore(db);
    var children := CursorsOver(StoreRuns(db));
    internal := new MergingIterator(children);
  }

  // ----- the view -----

  lemma {:induction false} SequencesDiffer(s: seq<Entry>)
    requires Sorted(s) && Distinct(Set(s))
    ensures forall i, j :: 0 <= i < j < |s| && s[i].key.user == s[j].key.user ==> s[i].key.sequence != s[j].key.sequence
  {
    forall i, j | 0 <= i < j < |s| && s[i].key.user == s[j].key.user ensures s[i].key.sequence != s[j].key.sequence {
      assert s[i] in Set(s) && s[j] in Set(s) && Before(s[i].key, s[j].key);
    }
  }

  lemma {:induction false} NewestHere(s: seq<Entry>, user: UserKey, snapshot: Sequence, i: nat)
    requires i < |s|
    ensures D.NewestIn(s, snapshot, user, i) <==> Newest(Set(s), user, snapshot, s[i])
  {
    assert s[i] in Set(s);
    if D.NewestIn(s, snapshot, user, i) {
      forall f | f in Set(s) && Sees(f, user, snapshot) ensures f.key.sequence <= s[i].key.sequence {
        var j :| 0 <= j < |s| && s[j] == f;
        assert D.Visible(s, snapshot, j);
      }
    }
    if Newest(Set(s), user, snapshot, s[i]) {
      forall j | 0 <= j < |s| && s[j].key.user == user && D.Visible(s, snapshot, j)
        ensures s[j].key.sequence <= s[i].key.sequence
      {
        assert s[j] in Set(s) && Sees(s[j], user, snapshot);
      }
    }
  }

  /** What an iterator shows of a sorted run is what lookups find in it. */
  lemma {:induction false} ViewIsReads(s: seq<Entry>, snapshot: Sequence, pair: D.Pair)
    requires Sorted(s) && Distinct(Set(s))
    ensures pair in D.View(s, snapshot, |s|) <==> ReadAt(Set(s), pair.key, snapshot) == Found(pair.value)
  {
    SequencesDiffer(s);
    D.ViewMeaning(s, snapshot, pair);
    if i :| 0 <= i < |s| && D.NewestIn(s, snapshot, pair.key, i) && s[i].key.kind.Value? && s[i].value == pair.value {
      NewestHere(s, pair.key, snapshot, i);
      ReadNewest(Set(s), pair.key, snapshot, s[i]);
    }
    if ReadAt(Set(s), pair.key, snapshot) == Found(pair.value) {
      var e :| Newest(Set(s), pair.key, snapshot, e);
      ReadNewest(Set(s), pair.key, snapshot, e);
      var i :| 0 <= i < |s| && s[i] == e;
      NewestHere(s, pair.key, snapshot, i);
    }
  }

  datatype Order = InOrder | OutOfOrder

  /** Ok of a store as a value: its levels and memtables are in order and layered. */
  ghost function OrderOf(db: Lookup.Db): Order {
    if db.Ok() then InOrder else OutOfOrder
  }

  /** A pair is in the user's view of the merged store exactly when Get finds its value for its key. */
  lemma {:induction false} StoreView(db: Lookup.Db, s: seq<Entry>, snapshot: Sequence, pair: D.Pair)
    requires OrderOf(db) == InOrder && s == MergeAll(StoreRuns(db))
    ensures pair in D.View(s, snapshot, |s|) <==> ReadAt(db.All(), pair.key, snapshot) == Found(pair.value)
  {
    MergedStore(db);
    ViewIsReads(s, snapshot, pair);
  }

  /** So in every run of the store an iterator shows, key by key, the newest writes that its snapshot may see. */
  lemma {:induction false} EveryIterator(run: seq<Action>, snapshot: Sequence, pair: D.Pair)
    requires Possible(NewStore, run) && Final(NewStore, run).Up?
    requires snapshot == Final(NewStore, run).state.lastSequence || snapshot in Held(NewStore, run, multiset{})
    ensures var s := MergeAll(StoreRuns(Runs.Db(Final(NewStore, run).state)));
            pair in D.View(s, snapshot, |s|) <==> ReadAt(Written(run), pair.key, snapshot) == Found(pair.value)
  {
    EveryRun(run, pair.key, snapshot);
    RunIsSound(run);
    DbInOrder(Final(NewStore, run).state);
    var db := Runs.Db(Final(NewStore, run).state);
    StoreView(db, MergeAll(StoreRuns(db)), snapshot, pair);
  }
}
