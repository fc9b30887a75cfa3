/** The manifest (version_set): a log of edits that recovery folds into the current version. */
module Manifests {
  import opened Keys
  import opened Versions
  import opened Builders
  import opened Installs

  /** WriteSnapshot's record names files only; LogAndApply's records carry the numbers too. */
  datatype Record =
    | Base(edit: Edit)
    | Change(edit: Edit, logNumber: nat, nextFile: nat, lastSequence: Sequence)

  function Edits(records: seq<Record>): seq<Edit> {
    seq(|records|, i requires 0 <= i < |records| => records[i].edit)
  }

  /** VersionSet::Recover: all records into one builder, saved once. */
  ghost function RecoveredVersion(records: seq<Record>): Version {
    seq(NUM_LEVELS, l requires 0 <= l < NUM_LEVELS => Save([], ApplyAll(Nothing, Edits(records), l)))
  }

  /** The numbers that count are those of the last record that has them; the last one always does. */
  ghost predicate Complete(records: seq<Record>) {
    records != [] && records[|records| - 1].Change?
  }

  ghost function Last(records: seq<Record>): Record
    requires Complete(records)
    ensures Last(records).Change?
  {
    records[|records| - 1]
  }

  /** The records lead to v one by one, and never add a number twice to a level. */
  ghost predicate LeadsTo(records: seq<Record>, v: Version) {
    forall l :: 0 <= l < NUM_LEVELS ==>
      NeverReadded([], Edits(records), l) && OneByOne([], Edits(records), l) == v[l]
  }

  /** All numbers added so far are below n. */
  ghost predicate AddedBelow(records: seq<Record>, n: nat) {
    forall l, f {:trigger f in AllAdded(Edits(records), l)} ::
      0 <= l < NUM_LEVELS && f in AllAdded(Edits(records), l) ==> f.number < n
  }

  /** Files only ever move down: a file's number has not been at a deeper level before. */
  ghost predicate Sinking(records: seq<Record>, v: Version) {
    forall l, k, f, g {:trigger Placed(v, l, f), g in AllAdded(Edits(records), k)} ::
      0 <= l < k < NUM_LEVELS && Placed(v, l, f) && g in AllAdded(Edits(records), k) ==> f.number != g.number
  }

  lemma {:induction false} RecoverySame(records: seq<Record>, v: Version)
    requires LeadsTo(records, v)
    ensures RecoveredVersion(records) == v
  {
    forall l | 0 <= l < NUM_LEVELS ensures RecoveredVersion(records)[l] == v[l] {
      BuilderFolds([], Edits(records), l);
    }
  }

  /** The edit adds no number to a level that has had it. */
  ghost predicate Admissible(records: seq<Record>, edit: Edit) {
    forall l :: 0 <= l < NUM_LEVELS ==>
      Numbered(AddedAt(edit.added, l)) && Foreign(AllAdded(Edits(records), l), AddedAt(edit.added, l))
  }

  lemma {:induction false} AllAddedSnoc(records: seq<Record>, r: Record, l: nat)
    ensures AllAdded(Edits(records + [r]), l) == AllAdded(Edits(records), l) + AddedAt(r.edit.added, l)
    ensures l < NUM_LEVELS ==>
            OneByOne([], Edits(records + [r]), l) ==
            Save(OneByOne([], Edits(records), l), ApplyEdit(Nothing, r.edit, l))
  {
    assert Edits(records + [r]) == Edits(records) + [r.edit];
    assert Edits(records + [r])[..|records|] == Edits(records);
  }

  lemma {:induction false} JoinNumbered(a: Level, b: Level)
    requires Numbered(a) && Numbered(b) && Foreign(a, b)
    ensures Numbered(a + b)
  {
  }

  /** Appending a record leads to the version that its edit makes. */
  lemma {:induction false} RecordAppended(records: seq<Record>, v: Version, r: Record)
    requires LeadsTo(records, v) && Admissible(records, r.edit)
    ensures LeadsTo(records + [r], Applied(v, r.edit))
  {
    forall l | 0 <= l < NUM_LEVELS
      ensures NeverReadded([], Edits(records + [r]), l)
      ensures OneByOne([], Edits(records + [r]), l) == Applied(v, r.edit)[l]
    {
      AllAddedSnoc(records, r, l);
      var a, b := AllAdded(Edits(records), l), AddedAt(r.edit.added, l);
      assert [] + a == a && [] + (a + b) == a + b;
      JoinNumbered(a, b);
    }
  }

  lemma {:induction false} AddedBelowAppended(records: seq<Record>, r: Record, n: nat, m: nat)
    requires AddedBelow(records, n) && n <= m
    requires forall l, f {:trigger f in AddedAt(r.edit.added, l)} ::
             0 <= l < NUM_LEVELS && f in AddedAt(r.edit.added, l) ==> f.number < m
    ensures AddedBelow(records + [r], m)
  {
    forall l, f | 0 <= l < NUM_LEVELS && f in AllAdded(Edits(records + [r]), l) ensures f.number < m {
      AllAddedSnoc(records, r, l);
    }
  }

  /** Every added file, whether old or new, keeps off the deeper levels' numbers. */
  lemma {:induction false} SinkingAppended(records: seq<Record>, v: Version, r: Record, v': Version)
    requires Sinking(records, v)
    requires forall l, f {:trigger Placed(v', l, f)} :: 0 <= l < NUM_LEVELS && Placed(v', l, f) ==>
               Placed(v, l, f) || NewAt(records, r.edit, l, f)
    requires forall l, k, f, g {:trigger Placed(v', l, f), g in AddedAt(r.edit.added, k)} ::
               0 <= l < k < NUM_LEVELS && Placed(v', l, f) && g in AddedAt(r.edit.added, k) ==> f.number != g.number
    ensures Sinking(records + [r], v')
  {
    forall l, k, f, g | 0 <= l < k < NUM_LEVELS && Placed(v', l, f) && g in AllAdded(Edits(records + [r]), k)
      ensures f.number != g.number
    {
      AllAddedSnoc(records, r, k);
      assert Placed(v, l, f) || NewAt(records, r.edit, l, f);
    }
  }

  /** The edit puts the file at a level, above all where its number has been. */
  ghost predicate NewAt(records: seq<Record>, edit: Edit, l: nat, f: File) {
    f in AddedAt(edit.added, l) && forall k, g :: l < k < NUM_LEVELS && g in AllAdded(Edits(records), k) ==>
        f.number != g.number
  }

  /** What WriteSnapshot records: every file of the version. */
  function SnapshotFiles(v: Version, n: nat): seq<(nat, File)>
    requires n <= NUM_LEVELS
  {
    if n == 0 then [] else SnapshotFiles(v, n - 1) + AtLevel(n - 1, v[n - 1])
  }

  function AtLevel(l: nat, files: Level): seq<(nat, File)> {
    seq(|files|, i requires 0 <= i < |files| => (l, files[i]))
  }

  function SnapshotEdit(v: Version): Edit {
    Edit({}, SnapshotFiles(v, NUM_LEVELS))
  }

  lemma {:induction false} AddedAtJoin(a: seq<(nat, File)>, b: seq<(nat, File)>, l: nat)
    ensures AddedAt(a + b, l) == AddedAt(a, l) + AddedAt(b, l)
  {
    if b == [] {
      assert a + b == a;
    } else {
      var n := |b| - 1;
      AddedAtJoin(a, b[..n], l);
      assert (a + b)[..|a + b| - 1] == a + b[..n];
    }
  }

  lemma {:induction false} AddedAtLevel(k: nat, files: Level, l: nat)
    ensures AddedAt(AtLevel(k, files), l) == if l == k then files else []
  {
    if files != [] {
      var n := |files| - 1;
      AddedAtLevel(k, files[..n], l);
      assert AtLevel(k, files)[..n] == AtLevel(k, files[..n]);
      assert files == files[..n] + [files[n]];
    }
  }

  lemma {:induction false} SnapshotAt(v: Version, n: nat, l: nat)
    requires n <= NUM_LEVELS && l < NUM_LEVELS
    ensures AddedAt(SnapshotFiles(v, n), l) == if l < n then v[l] else []
  {
    if n > 0 {
      SnapshotAt(v, n - 1, l);
      AddedAtJoin(SnapshotFiles(v, n - 1), AtLevel(n - 1, v[n - 1]), l);
      AddedAtLevel(n - 1, v[n - 1], l);
    }
  }

  const NoFiles: Version := [[], [], [], [], [], [], []]

  lemma {:induction false} NumberedLevel(v: Version, l: nat)
    requires Shaped(v) && UniqueNumbers(v) && l < NUM_LEVELS
    ensures Numbered(v[l])
  {
    LevelOrdered(v, l);
    forall i, j | 0 <= i < j < |v[l]| ensures v[l][i].number != v[l][j].number {
      assert Placed(v, l, v[l][i]) && Placed(v, l, v[l][j]) && Less(v[l][i], v[l][j]);
    }
  }

  lemma {:induction false} SnapshotApplied(v: Version, l: nat)
    requires Shaped(v) && UniqueNumbers(v) && l < NUM_LEVELS
    ensures Applied(NoFiles, SnapshotEdit(v))[l] == v[l]
  {
    SnapshotAt(v, NUM_LEVELS, l);
    NumberedLevel(v, l);
    LevelOrdered(v, l);
    assert forall k :: 0 <= k < NUM_LEVELS ==> NoFiles[k] == [];
    EditedLevel(NoFiles, SnapshotEdit(v), l);
    OrderedUnique(Applied(NoFiles, SnapshotEdit(v))[l], v[l]);
  }

  lemma {:induction false} SnapshotAdds(v: Version, l: nat)
    requires l < NUM_LEVELS
    ensures AllAdded(Edits([Base(SnapshotEdit(v))]), l) == v[l]
  {
    AllAddedSnoc([], Base(SnapshotEdit(v)), l);
    assert [] + [Base(SnapshotEdit(v))] == [Base(SnapshotEdit(v))];
    SnapshotAt(v, NUM_LEVELS, l);
  }

  /** A manifest that starts with a snapshot of v leads to v. */
  lemma {:induction false} SnapshotLeads(v: Version)
    requires Shaped(v) && UniqueNumbers(v)
    ensures LeadsTo([Base(SnapshotEdit(v))], v) && Sinking([Base(SnapshotEdit(v))], v)
  {
    var r := Base(SnapshotEdit(v));
    assert [] + [r] == [r];
    forall l | 0 <= l < NUM_LEVELS ensures NeverReadded([], Edits([r]), l) && OneByOne([], Edits([r]), l) == v[l] {
      SnapshotAdds(v, l);
      SnapshotApplied(v, l);
      NumberedLevel(v, l);
      AllAddedSnoc([], r, l);
      assert [] + v[l] == v[l];
    }
    forall l, k, f, g | 0 <= l < k < NUM_LEVELS && Placed(v, l, f) && g in AllAdded(Edits([r]), k)
      ensures f.number != g.number
    {
      SnapshotAdds(v, k);
      assert Placed(v, k, g);
    }
  }
}
