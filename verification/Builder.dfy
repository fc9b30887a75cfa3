/** Applying version edits (version_set): one Builder over many edits gives the levels that applying the edits one
    version at a time would give, when no edit adds a file again to a level that it was in before. */
module Builders {
  import opened Versions

  /** What a VersionEdit says about files: (level, number) pairs to delete and (level, file) pairs to add. */
  datatype Edit = Edit(deleted: set<(nat, nat)>, added: seq<(nat, File)>)

  // ----- the set of added files -----

  /** std::set::insert: an equivalent element already there is kept. */
  function InsertFile(files: Level, f: File): Level {
    if files == [] || Less(f, files[0]) then [f] + files
    else if Less(files[0], f) then [files[0]] + InsertFile(files[1..], f)
    else files
  }

  lemma {:induction false} InsertOrdered(files: Level, f: File)
    requires Ordered(files) && forall g :: g in files ==> g.number != f.number
    ensures Ordered(InsertFile(files, f)) && forall g :: g in InsertFile(files, f) <==> g == f || g in files
  {
    if files != [] && !Less(f, files[0]) {
      InsertOrdered(files[1..], f);
      assert files == [files[0]] + files[1..];
      forall j | 0 < j < |InsertFile(files, f)| ensures Less(files[0], InsertFile(files, f)[j]) {
        assert InsertFile(files, f)[j] in InsertFile(files[1..], f);
      }
    }
  }

  /** Two strictly ordered lists of the same files are the same list. */
  lemma {:induction false} OrderedUnique(a: Level, b: Level)
    requires Ordered(a) && Ordered(b) && forall f :: f in a <==> f in b
    ensures a == b
  {
    assert forall i :: 0 <= i < |a| ==> a[i] in b;
    assert forall i :: 0 <= i < |b| ==> b[i] in a;
    if a != [] && b != [] {
      assert a[0] == b[0];
      forall f ensures f in a[1..] <==> f in b[1..] {
        TailHas(a, f);
        TailHas(b, f);
      }
      OrderedUnique(a[1..], b[1..]);
      assert a == [a[0]] + a[1..] && b == [b[0]] + b[1..];
    }
  }

  lemma {:induction false} TailHas(a: Level, f: File)
    requires Ordered(a) && a != []
    ensures f in a[1..] <==> f in a && f != a[0]
  {
    assert a == [a[0]] + a[1..];
    assert forall i :: 1 <= i < |a| ==> a[1..][i - 1] == a[i] && Less(a[0], a[i]);
  }

  // ----- one level of a builder -----

  datatype LevelState = LevelState(deleted: set<nat>, added: Level)

  const Nothing := LevelState({}, [])

  function AddFile(st: LevelState, f: File): LevelState {
    LevelState(st.deleted - {f.number}, InsertFile(st.added, f))
  }

  function AddFiles(st: LevelState, added: seq<(nat, File)>, level: nat): LevelState {
    if added == [] then st
    else
      var n := |added| - 1;
      var before := AddFiles(st, added[..n], level);
      if added[n].0 == level then AddFile(before, added[n].1) else before
  }

  function DeletedAt(edit: Edit, level: nat): set<nat> {
    set d | d in edit.deleted && d.0 == level :: d.1
  }

  function ApplyEdit(st: LevelState, edit: Edit, level: nat): LevelState {
    AddFiles(st.(deleted := st.deleted + DeletedAt(edit, level)), edit.added, level)
  }

  function ApplyAll(st: LevelState, edits: seq<Edit>, level: nat): LevelState {
    if edits == [] then st else ApplyEdit(ApplyAll(st, edits[..|edits| - 1], level), edits[|edits| - 1], level)
  }

  /** The base files and the added ones in order; of equivalent files the base one comes first. */
  function MergeFiles(base: Level, added: Level): Level {
    if base == [] then added
    else if added == [] then base
    else if Less(added[0], base[0]) then [added[0]] + MergeFiles(base, added[1..])
    else [base[0]] + MergeFiles(base[1..], added)
  }

  function Undeleted(files: Level, deleted: set<nat>): Level {
    if files == [] then []
    else (if files[0].number in deleted then [] else [files[0]]) + Undeleted(files[1..], deleted)
  }

  function Save(base: Level, st: LevelState): Level {
    Undeleted(MergeFiles(base, st.added), st.deleted)
  }

  // ----- what saving yields -----

  ghost predicate Foreign(a: Level, b: Level) {
    forall f, g :: f in a && g in b ==> f.number != g.number
  }

  ghost predicate LessThanAll(f: File, files: Level) {
    forall g :: g in files ==> Less(f, g)
  }

  lemma {:induction false} FirstOrdered(f: File, files: Level)
    requires Ordered(files) && LessThanAll(f, files)
    ensures Ordered([f] + files)
  {
  }

  lemma {:induction false} MergeHas(base: Level, added: Level, f: File)
    ensures f in MergeFiles(base, added) <==> f in base || f in added
  {
    if base != [] && added != [] {
      assert base == [base[0]] + base[1..] && added == [added[0]] + added[1..];
      if Less(added[0], base[0]) {
        MergeHas(base, added[1..], f);
      } else {
        MergeHas(base[1..], added, f);
      }
    }
  }

  lemma {:induction false} MergedFiles(base: Level, added: Level)
    requires Ordered(base) && Ordered(added) && Foreign(base, added)
    ensures Ordered(MergeFiles(base, added))
  {
    if base != [] && added != [] {
      if Less(added[0], base[0]) {
        MergedFiles(base, added[1..]);
        forall g | g in MergeFiles(base, added[1..]) ensures Less(added[0], g) {
          MergeHas(base, added[1..], g);
        }
        FirstOrdered(added[0], MergeFiles(base, added[1..]));
      } else {
        assert base[0].number != added[0].number;
        MergedFiles(base[1..], added);
        forall g | g in MergeFiles(base[1..], added) ensures Less(base[0], g) {
          MergeHas(base[1..], added, g);
        }
        FirstOrdered(base[0], MergeFiles(base[1..], added));
      }
    }
  }

  lemma {:induction false} UndeletedFiles(files: Level, deleted: set<nat>)
    requires Ordered(files)
    ensures Ordered(Undeleted(files, deleted))
    ensures forall f :: f in Undeleted(files, deleted) <==> f in files && f.number !in deleted
  {
    if files != [] {
      UndeletedFiles(files[1..], deleted);
      assert files == [files[0]] + files[1..];
      FirstOrdered(files[0], Undeleted(files[1..], deleted));
    }
  }

  /** The saved level is ordered and has just the base and added files that are not deleted. */
  lemma {:induction false} SavedFiles(base: Level, st: LevelState)
    requires Ordered(base) && Ordered(st.added) && Foreign(base, st.added)
    ensures Ordered(Save(base, st))
    ensures forall f :: f in Save(base, st) <==> (f in base || f in st.added) && f.number !in st.deleted
  {
    MergedFiles(base, st.added);
    forall f { MergeHas(base, st.added, f); }
    UndeletedFiles(MergeFiles(base, st.added), st.deleted);
  }

  // ----- many edits at once -----

  /** The files that an edit adds to a level, in order. */
  function AddedAt(added: seq<(nat, File)>, level: nat): Level {
    if added == [] then []
    else AddedAt(added[..|added| - 1], level) + if added[|added| - 1].0 == level then [added[|added| - 1].1] else []
  }

  function AllAdded(edits: seq<Edit>, level: nat): Level {
    if edits == [] then [] else AllAdded(edits[..|edits| - 1], level) + AddedAt(edits[|edits| - 1].added, level)
  }

  ghost function Numbers(files: Level): set<nat> {
    set f | f in files :: f.number
  }

  lemma {:induction false} NumberedParts(a: Level, b: Level)
    requires Numbered(a + b)
    ensures Numbered(a) && Numbered(b) && Foreign(a, b)
  {
    assert forall i :: 0 <= i < |a| ==> (a + b)[i] == a[i];
    assert forall i :: 0 <= i < |b| ==> (a + b)[|a| + i] == b[i];
  }

  /** Adding files with new numbers: nothing is ignored, and their numbers are no longer deleted. */
  lemma {:induction false} AddedFiles(st: LevelState, added: seq<(nat, File)>, level: nat)
    requires Ordered(st.added) && Numbered(AddedAt(added, level)) && Foreign(st.added, AddedAt(added, level))
    ensures Ordered(AddFiles(st, added, level).added)
    ensures forall f :: f in AddFiles(st, added, level).added <==> f in st.added || f in AddedAt(added, level)
    ensures AddFiles(st, added, level).deleted == st.deleted - Numbers(AddedAt(added, level))
  {
    if added != [] {
      var n := |added| - 1;
      if added[n].0 == level {
        NumberedParts(AddedAt(added[..n], level), [added[n].1]);
        assert forall g :: g in AddedAt(added[..n], level) ==> g in AddedAt(added, level);
        AddedFiles(st, added[..n], level);
        var f := added[n].1;
        assert f in [f] && f in AddedAt(added, level);
        InsertOrdered(AddFiles(st, added[..n], level).added, f);
        assert Numbers(AddedAt(added, level)) == Numbers(AddedAt(added[..n], level)) + {f.number};
      } else {
        assert AddedAt(added, level) == AddedAt(added[..n], level);
        AddedFiles(st, added[..n], level);
      }
    }
  }

  /** One version per edit. */
  function OneByOne(base: Level, edits: seq<Edit>, level: nat): Level {
    if edits == [] then base
    else Save(OneByOne(base, edits[..|edits| - 1], level), ApplyEdit(Nothing, edits[|edits| - 1], level))
  }

  /** No edit adds a file with a number that the level has had before. */
  ghost predicate NeverReadded(base: Level, edits: seq<Edit>, level: nat) {
    Numbered(base + AllAdded(edits, level))
  }

  ghost predicate SameFiles(a: Level, b: Level) {
    forall f :: f in a <==> f in b
  }

  lemma {:induction false} ReaddSplits(base: Level, edits: seq<Edit>, level: nat)
    requires NeverReadded(base, edits, level) && edits != []
    ensures var last := AddedAt(edits[|edits| - 1].added, level);
            && NeverReadded(base, edits[..|edits| - 1], level) && Numbered(last)
            && Foreign(base, last) && Foreign(AllAdded(edits[..|edits| - 1], level), last)
  {
    var last := AddedAt(edits[|edits| - 1].added, level);
    var earlier := AllAdded(edits[..|edits| - 1], level);
    assert base + AllAdded(edits, level) == (base + earlier) + last;
    NumberedParts(base + earlier, last);
    assert forall f :: f in base || f in earlier ==> f in base + earlier;
  }

  /** What a builder has gathered after all edits. */
  lemma {:induction false} Gathered(base: Level, edits: seq<Edit>, level: nat)
    requires NeverReadded(base, edits, level)
    ensures Ordered(ApplyAll(Nothing, edits, level).added)
    ensures SameFiles(ApplyAll(Nothing, edits, level).added, AllAdded(edits, level))
  {
    if edits != [] {
      var n := |edits| - 1;
      ReaddSplits(base, edits, level);
      Gathered(base, edits[..n], level);
      var st := ApplyAll(Nothing, edits[..n], level);
      AddedFiles(st.(deleted := st.deleted + DeletedAt(edits[n], level)), edits[n].added, level);
    }
  }

  lemma {:induction false} ForeignToGathered(base: Level, edits: seq<Edit>, level: nat)
    requires NeverReadded(base, edits, level)
    ensures Foreign(base, ApplyAll(Nothing, edits, level).added)
  {
    NumberedParts(base, AllAdded(edits, level));
    Gathered(base, edits, level);
  }

  lemma {:induction false} OneByOneFiles(base: Level, edits: seq<Edit>, level: nat)
    requires Ordered(base) && NeverReadded(base, edits, level)
    ensures Ordered(OneByOne(base, edits, level))
    ensures forall f :: f in OneByOne(base, edits, level) ==> f in base || f in AllAdded(edits, level)
  {
    if edits != [] {
      var n := |edits| - 1;
      ReaddSplits(base, edits, level);
      OneByOneFiles(base, edits[..n], level);
      AddedFiles(Nothing.(deleted := DeletedAt(edits[n], level)), edits[n].added, level);
      assert {} + DeletedAt(edits[n], level) == DeletedAt(edits[n], level);
      SavedFiles(OneByOne(base, edits[..n], level), ApplyEdit(Nothing, edits[n], level));
    }
  }

  /** Applying all edits to one Builder and saving once yields, level by level, the same list of files as
      making a version after every edit. */
  lemma {:induction false} BuilderFolds(base: Level, edits: seq<Edit>, level: nat)
    requires Ordered(base) && NeverReadded(base, edits, level)
    ensures Save(base, ApplyAll(Nothing, edits, level)) == OneByOne(base, edits, level)
  {
    ForeignToGathered(base, edits, level);
    Gathered(base, edits, level);
    SavedFiles(base, ApplyAll(Nothing, edits, level));
    OneByOneFiles(base, edits, level);
    SameAfterAll(base, edits, level);
    OrderedUnique(Save(base, ApplyAll(Nothing, edits, level)), OneByOne(base, edits, level));
  }

  lemma {:induction false} SameAfterAll(base: Level, edits: seq<Edit>, level: nat)
    requires Ordered(base) && NeverReadded(base, edits, level)
    ensures SameFiles(Save(base, ApplyAll(Nothing, edits, level)), OneByOne(base, edits, level))
  {
    ForeignToGathered(base, edits, level);
    Gathered(base, edits, level);
    SavedFiles(base, ApplyAll(Nothing, edits, level));
    if edits != [] {
      var n := |edits| - 1;
      ReaddSplits(base, edits, level);
      SameAfterAll(base, edits[..n], level);
      LastEdit(base, edits, level);
    }
  }

  lemma {:induction false} LastEdit(base: Level, edits: seq<Edit>, level: nat)
    requires Ordered(base) && NeverReadded(base, edits, level) && edits != []
    requires SameFiles(Save(base, ApplyAll(Nothing, edits[..|edits| - 1], level)),
             OneByOne(base, edits[..|edits| - 1], level))
    ensures SameFiles(Save(base, ApplyAll(Nothing, edits, level)), OneByOne(base, edits, level))
  {
    var n := |edits| - 1;
    var e, earlier := edits[n], edits[..n];
    var st := ApplyAll(Nothing, earlier, level);
    ReaddSplits(base, edits, level);
    OneByOneFiles(base, earlier, level);
    Gathered(base, earlier, level);
    Gathered(base, edits, level);
    ForeignToGathered(base, edits, level);
    ForeignToGathered(base, earlier, level);
    AddedFiles(st.(deleted := st.deleted + DeletedAt(e, level)), e.added, level);
    AddedFiles(Nothing.(deleted := {} + DeletedAt(e, level)), e.added, level);
    SavedFiles(base, st);
    SavedFiles(base, ApplyAll(Nothing, edits, level));
    SavedFiles(OneByOne(base, earlier, level), ApplyEdit(Nothing, e, level));
  }

  // ----- the builder itself -----

  class Builder {
    const base: Version
    const deletedFiles: array<set<nat>>
    const addedFiles: array<Level>

    ghost predicate Ok()
      reads this
    {
      deletedFiles.Length == NUM_LEVELS && addedFiles.Length == NUM_LEVELS
    }

    ghost function State(level: nat): LevelState
      requires Ok() && level < NUM_LEVELS
      reads this, deletedFiles, addedFiles
    {
      LevelState(deletedFiles[level], addedFiles[level])
    }

    constructor (base: Version)
      ensures Ok() && this.base == base && fresh(deletedFiles) && fresh(addedFiles)
      ensures forall l :: 0 <= l < NUM_LEVELS ==> State(l) == Nothing
    {
      this.base := base;
      deletedFiles := new set<nat>[NUM_LEVELS](_ => {});
      addedFiles := new Level[NUM_LEVELS](_ => []);
    }

    /** Deletions first, then additions, which take back a deletion of the same number. */
    method Apply(edit: Edit)
      requires Ok() && forall i :: 0 <= i < |edit.added| ==> edit.added[i].0 < NUM_LEVELS
      modifies deletedFiles, addedFiles
      ensures forall l :: 0 <= l < NUM_LEVELS ==> State(l) == ApplyEdit(old(State(l)), edit, l)
    {
      for l := 0 to NUM_LEVELS
        invariant forall k :: 0 <= k < NUM_LEVELS ==> addedFiles[k] == old(addedFiles[k])
        invariant forall k :: 0 <= k < NUM_LEVELS ==>
                    deletedFiles[k] == if k < l then old(deletedFiles[k]) + DeletedAt(edit, k) else old(deletedFiles[k])
      {
        deletedFiles[l] := deletedFiles[l] + DeletedAt(edit, l);
      }
      ghost var start := seq(NUM_LEVELS, l requires 0 <= l < NUM_LEVELS => LevelState(old(deletedFiles[l]) +
          DeletedAt(edit, l), old(addedFiles[l])));
      for i := 0 to |edit.added|
        invariant forall l :: 0 <= l < NUM_LEVELS ==> State(l) == AddFiles(start[l], edit.added[..i], l)
      {
        assert edit.added[..i + 1][..i] == edit.added[..i];
        var level, f := edit.added[i].0, edit.added[i].1;
        deletedFiles[level] := deletedFiles[level] - {f.number};
        addedFiles[level] := InsertFile(addedFiles[level], f);
      }
      assert edit.added[..|edit.added|] == edit.added;
    }

    method SaveTo() returns (v: Version)
      requires Ok()
      ensures forall l :: 0 <= l < NUM_LEVELS ==> v[l] == Save(base[l], State(l))
    {
      var levels: seq<Level> := [];
      for l := 0 to NUM_LEVELS
        invariant |levels| == l && forall k :: 0 <= k < l ==> levels[k] == Save(base[k], State(k))
      {
        var files := SaveLevel(base[l], addedFiles[l], deletedFiles[l]);
        levels := levels + [files];
      }
      v := levels;
    }

    static method MaybeAddFile(files: Level, f: File, deleted: set<nat>) returns (r: Level)
      ensures r == files + Undeleted([f], deleted)
    {
      r := if f.number in deleted then files else files + [f];
      assert Undeleted([], deleted) == [];
      assert [f][1..] == [];
    }

    /** Takes over the base files that do not come after added file j, or all that are left. */
    static method TakeBase(base: Level, i: nat, added: Level, j: nat, deleted: set<nat>, files: Level)
      returns (files': Level, i': nat)
      requires i <= |base| && j <= |added|
      ensures i' <= |base| && files' + Rest(base, i', added, j, deleted) == files + Rest(base, i, added, j, deleted)
      ensures i' < |base| ==> j < |added| && Less(added[j], base[i'])
    {
      files', i' := files, i;
      while i' < |base| && (j == |added| || !Less(added[j], base[i']))
        invariant i' <= |base|
        invariant files' + Rest(base, i', added, j, deleted) == files + Rest(base, i, added, j, deleted)
      {
        BaseNext(base, i', added, j, deleted);
        files' := MaybeAddFile(files', base[i'], deleted);
        i' := i' + 1;
      }
    }

    /** Merges the added files into the base ones, and drops the deleted. */
    static method SaveLevel(base: Level, added: Level, deleted: set<nat>) returns (files: Level)
      ensures files == Save(base, LevelState(deleted, added))
    {
      var i: nat := 0;
      files := [];
      assert base[0..] == base && added[0..] == added;
      for j := 0 to |added|
        invariant i <= |base|
        invariant files + Rest(base, i, added, j, deleted) == Save(base, LevelState(deleted, added))
      {
        files, i := TakeBase(base, i, added, j, deleted, files);
        AddedNext(base, i, added, j, deleted);
        files := MaybeAddFile(files, added[j], deleted);
      }
      files, i := TakeBase(base, i, added, |added|, deleted, files);
    }
  }

  /** What is left to save, with i base files and j added files dealt with. */
  ghost function Rest(base: Level, i: nat, added: Level, j: nat, deleted: set<nat>): Level
    requires i <= |base| && j <= |added|
  {
    Undeleted(MergeFiles(base[i..], added[j..]), deleted)
  }

  lemma {:induction false} BaseNext(base: Level, i: nat, added: Level, j: nat, deleted: set<nat>)
    requires i < |base| && j <= |added| && (j < |added| ==> !Less(added[j], base[i]))
    ensures Rest(base, i, added, j, deleted) == Undeleted([base[i]], deleted) + Rest(base, i + 1, added, j, deleted)
  {
    assert base[i..] == [base[i]] + base[i + 1..];
    assert MergeFiles(base[i..], added[j..]) == [base[i]] + MergeFiles(base[i + 1..], added[j..]);
    UndeletedFirst(base[i], MergeFiles(base[i + 1..], added[j..]), deleted);
  }

  lemma {:induction false} AddedNext(base: Level, i: nat, added: Level, j: nat, deleted: set<nat>)
    requires i <= |base| && j < |added| && (i < |base| ==> Less(added[j], base[i]))
    ensures Rest(base, i, added, j, deleted) == Undeleted([added[j]], deleted) + Rest(base, i, added, j + 1, deleted)
  {
    assert added[j..] == [added[j]] + added[j + 1..];
    assert MergeFiles(base[i..], added[j..]) == [added[j]] + MergeFiles(base[i..], added[j + 1..]);
    UndeletedFirst(added[j], MergeFiles(base[i..], added[j + 1..]), deleted);
  }

  lemma {:induction false} UndeletedFirst(f: File, files: Level, deleted: set<nat>)
    ensures Undeleted([f] + files, deleted) == Undeleted([f], deleted) + Undeleted(files, deleted)
  {
    assert ([f] + files)[1..] == files && [f][1..] == [];
  }
}
