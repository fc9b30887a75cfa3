/** An iterator that is kept open while files come and go: it shows what it showed when it was opened. */
module HeldIterators {
  import opened Keys
  import opened Cursors
  import opened Reads
  import opened Versions
  import opened Compactions
  import opened Merging
  import opened Installs
  import opened Lookup
  import opened Disks
  import opened Store
  import opened Writes
  import opened Background
  import opened Runs
  import opened Iterators
  import D = DbIterator

  /** What happens while an iterator over the version stays open. */
  ghost predicate KeptOpen(run: seq<Action>, v: Version) {
    run == [] || (run[0] != Crash && run[0] != CloseIterator(v) && KeptOpen(run[1..], v))
  }

  /** The memtable that was current at first: it takes more writes until another takes its place. */
  ghost function HeldMem(w: World, run: seq<Action>): seq<Entry>
    requires w.Up?
    decreases |run|
  {
    if run == [] || run[0].SwitchMemtable? || Do(w, run[0]).Down? then w.state.mem
    else HeldMem(Do(w, run[0]), run[1..])
  }

  /** A memtable with nothing but later writes added. */
  ghost predicate Extends(mem: seq<Entry>, more: seq<Entry>, last: Sequence) {
    && Sorted(more) && Distinct(Set(more)) && Set(mem) <= Set(more)
    && forall e :: e in more ==> e in mem || last < e.key.sequence
  }

  // ----- one step -----

  lemma {:induction false} AppliedExtends(s: State)
    requires MemoryOk(s) && SequencesOk(s)
    ensures Set(s.mem) <= Set(Apply(s).mem) && s.lastSequence <= Apply(s).lastSequence
    ensures forall e :: e in Apply(s).mem ==> e in s.mem || s.lastSequence < e.key.sequence
  {
    FullIs(s);
    if s.pending.Logging? {
      forall e | e in s.Full() ensures e in s.mem || s.lastSequence < e.key.sequence {
        assert e in Set(s.Full());
        if e in s.pending.batch.entries {
          BatchRange(s.pending.batch, e);
        }
      }
    }
  }

  lemma {:induction false} StepExtends(s: State, a: Action)
    requires MemoryOk(s) && SequencesOk(s) && !a.SwitchMemtable? && DoUp(s, a).Up?
    ensures var t := DoUp(s, a).state;
            && Set(s.mem) <= Set(t.mem) && s.lastSequence <= t.lastSequence
            && forall e :: e in t.mem ==> e in s.mem || s.lastSequence < e.key.sequence
  {
    if a.InsertBatch? {
      AppliedExtends(s);
    }
  }

  lemma {:induction false} StepPins(s: State, a: Action, v: Version)
    requires v in s.pinned && a != Crash && a != CloseIterator(v) && Can(Up(s), a)
    ensures DoUp(s, a).Up? && v in DoUp(s, a).state.pinned
  {
  }

  lemma {:induction false} MemIsDistinct(s: State)
    requires MemoryOk(s) && SequencesOk(s)
    ensures Sorted(s.mem) && Distinct(Set(s.mem))
  {
    DbInOrder(s);
    SubsetDistinct(Runs.Db(s).All(), Set(s.mem));
  }

  // ----- any steps -----

  lemma {:induction false} HeldExtends(w: World, run: seq<Action>)
    requires WorldOk(w) && w.Up? && Possible(w, run)
    ensures Extends(w.state.mem, HeldMem(w, run), w.state.lastSequence)
    decreases |run|
  {
    if run == [] || run[0].SwitchMemtable? || Do(w, run[0]).Down? {
      MemIsDistinct(w.state);
    } else {
      StepExtends(w.state, run[0]);
      StepKeeps(w, run[0]);
      HeldExtends(Do(w, run[0]), run[1..]);
    }
  }

  lemma {:induction false} StaysPinned(w: World, run: seq<Action>, v: Version)
    requires w.Up? && v in w.state.pinned && Possible(w, run) && KeptOpen(run, v)
    ensures Final(w, run).Up? && v in Final(w, run).state.pinned
    decreases |run|
  {
    if run != [] {
      StepPins(w.state, run[0], v);
      StaysPinned(Do(w, run[0]), run[1..], v);
    }
  }

  // ----- what it shows -----

  lemma {:induction false} ExtendedInOrder(db: Lookup.Db, more: seq<Entry>, last: Sequence)
    requires db.Ok() && Extends(db.mem, more, last) && AtMost(db.All(), last)
    ensures db.(mem := more).Ok()
  {
    var after := db.(mem := more);
    forall a, b | a in after.All() && b in after.All() && a.key.user == b.key.user && a.key.sequence == b.key.sequence
      ensures a == b
    {
      if a in more && b in more {
        assert a in Set(more) && b in Set(more);
      }
    }
  }

  /** Later writes are out of the snapshot's sight. */
  lemma {:induction false} ExtendedReads(db: Lookup.Db, more: seq<Entry>, last: Sequence, user: UserKey,
                                         snapshot: Sequence)
    requires db.Ok() && db.(mem := more).Ok() && Extends(db.mem, more, last) && snapshot <= last
    ensures ReadAt(db.(mem := more).All(), user, snapshot) == ReadAt(db.All(), user, snapshot)
  {
    var N := set e | e in more && last < e.key.sequence;
    assert db.(mem := more).All() == db.All() + N;
    OnlyRest(db.All(), N, user, snapshot);
  }

  lemma {:induction false} HeldReads(s: State, later: seq<Action>, user: UserKey, snapshot: Sequence)
    requires Checked(s) == Sound && Possible(Up(s), later) && snapshot <= s.lastSequence
    ensures var db := Runs.Db(s).(mem := HeldMem(Up(s), later));
            OrderOf(db) == InOrder && ReadAt(db.All(), user, snapshot) == ReadAt(Runs.Db(s).All(), user, snapshot)
  {
    DbInOrder(s);
    HeldExtends(Up(s), later);
    ExtendedInOrder(Runs.Db(s), HeldMem(Up(s), later), s.lastSequence);
    ExtendedReads(Runs.Db(s), HeldMem(Up(s), later), s.lastSequence, user, snapshot);
  }

  lemma {:induction false} HeldTables(s: State, later: seq<Action>, v: Version)
    requires Checked(s) == Sound && Possible(Up(s), later) && v in s.pinned && KeptOpen(later, v)
    ensures Final(Up(s), later).Up? && TablesThere(Final(Up(s), later).state.disk.tables, v)
  {
    RunKeeps(Up(s), later);
    StaysPinned(Up(s), later, v);
  }

  lemma {:induction false} SnapshotSeen(s: State, snapshot: Sequence)
    requires Checked(s) == Sound && (snapshot == s.lastSequence || snapshot in s.snapshots)
    ensures snapshot <= s.lastSequence
  {
  }

  /** Keep an iterator open that was made at any moment of any run, over the last sequence or a live snapshot of that
      moment.  Whatever happens next, short of a crash, its tables stay and it shows the writes of that moment. */
  lemma {:induction false} KeptIterator(run: seq<Action>, later: seq<Action>, s: State, held: seq<Entry>,
                                        snapshot: Sequence, pair: D.Pair)
    requires Possible(NewStore, run) && Final(NewStore, run) == Up(s) && s.version in StillOpen(NewStore, run, {})
    requires Possible(Up(s), later) && KeptOpen(later, s.version)
    requires snapshot == s.lastSequence || snapshot in Held(NewStore, run, multiset{})
    requires held == MergeAll(StoreRuns(Lookup.Db(HeldMem(Up(s), later), s.ImmEntries(), s.version)))
    ensures Final(Up(s), later).Up? && TablesThere(Final(Up(s), later).state.disk.tables, s.version)
    ensures pair in D.View(held, snapshot, |held|) <==> ReadAt(Written(run), pair.key, snapshot) == Found(pair.value)
  {
    EveryRun(run, pair.key, snapshot);
    RunIsSound(run);
    RunHolds(NewStore, run, multiset{});
    RunPinned(NewStore, run, {});
    SnapshotSeen(s, snapshot);
    HeldTables(s, later, s.version);
    HeldReads(s, later, pair.key, snapshot);
    StoreView(Runs.Db(s).(mem := HeldMem(Up(s), later)), held, snapshot, pair);
  }
}
