/** A whole compaction (db_impl): what it reads, what it installs, and that no live snapshot can tell. */
module Reorganise {
  import opened Keys
  import opened Cursors
  import opened Reads
  import opened Versions
  import opened Merging
  import opened Inputs
  import opened Compactions
  import opened Builders
  import opened Installs
  import opened Lookup

  // ----- the merged inputs -----

  /** One run for each level-0 file, and one for each deeper level. */
  function InputRuns(level: nat, sel: Selection): seq<seq<Entry>> {
    (if level == 0 then FileRuns(sel.inputs0) else ConcatRun(sel.inputs0)) + ConcatRun(sel.inputs1)
  }

  function FileRuns(files: Level): seq<seq<Entry>> {
    seq(|files|, i requires 0 <= i < |files| => files[i].entries)
  }

  function ConcatRun(files: Level): seq<seq<Entry>> {
    if files == [] then [] else [Concat(files)]
  }

  /** The runs together hold E; they are sorted, and no key occurs in two of them. */
  ghost predicate RunsOf(runs: seq<seq<Entry>>, E: set<Entry>) {
    Covering(runs, E) == Yes
  }

  /** RunsOf as a value: the runs can be merged, and the set is what is in them. */
  ghost function Covering(runs: seq<seq<Entry>>, E: set<Entry>): Verdict {
    if Mergeable(runs) && forall e :: e in E <==> exists i :: 0 <= i < |runs| && e in runs[i] then Yes else No
  }

  ghost predicate KeysApart(A: set<Entry>, B: set<Entry>) {
    forall a, b :: a in A && b in B ==> a.key != b.key
  }

  lemma {:induction false} RunsJoin(r: seq<seq<Entry>>, R: set<Entry>, s: seq<seq<Entry>>, S: set<Entry>)
    requires RunsOf(r, R) && RunsOf(s, S) && KeysApart(R, S)
    ensures RunsOf(r + s, R + S)
  {
    forall i, j | 0 <= i < j < |r + s| ensures Apart((r + s)[i], (r + s)[j]) {
      if i < |r| <= j {
        forall x, y | x in r[i] && y in s[j - |r|] ensures x.key != y.key {
          assert x in R && y in S;
        }
      }
    }
    forall e ensures e in R + S <==> exists i :: 0 <= i < |r + s| && e in (r + s)[i] {
      if i :| 0 <= i < |r| && e in r[i] { assert e in (r + s)[i]; }
      if i :| 0 <= i < |s| && e in s[i] { assert e in (r + s)[|r| + i]; }
    }
  }

  lemma {:induction false} ConcatSorted(files: Level)
    requires Disjoint(files)
    ensures Sorted(Concat(files))
  {
    if files != [] {
      var n := |files| - 1;
      ConcatSorted(files[..n]);
      forall x, y | x in Concat(files[..n]) && y in files[n].entries ensures Before(x.key, y.key) {
        ConcatHas(files[..n], x);
        var f :| f in files[..n] && x in f.entries;
        EntryInRange(f, x);
        EntryInRange(files[n], y);
      }
      JoinSorted(Concat(files[..n]), files[n].entries);
    }
  }

  lemma {:induction false} JoinSorted(a: seq<Entry>, b: seq<Entry>)
    requires Sorted(a) && Sorted(b) && forall x, y :: x in a && y in b ==> Before(x.key, y.key)
    ensures Sorted(a + b)
  {
    forall i, j | 0 <= i < j < |a + b| ensures Before((a + b)[i].key, (a + b)[j].key) {
      assert i < |a| ==> a[i] in a;
      assert j >= |a| ==> b[j - |a|] in b;
    }
  }

  lemma {:induction false} ConcatRuns(files: Level)
    requires Disjoint(files)
    ensures RunsOf(ConcatRun(files), Union(files))
  {
    ConcatSorted(files);
    forall e ensures e in Concat(files) <==> e in Union(files) {
      ConcatHas(files, e);
    }
    assert Set(Concat(files)) == Union(files);
    if files == [] {
      NoRuns(Union(files));
    } else {
      OneRun(Concat(files));
    }
  }

  lemma {:induction false} NoRuns(E: set<Entry>)
    requires E == {}
    ensures RunsOf([], E)
  {
  }

  lemma {:induction false} OneRun(s: seq<Entry>)
    requires Sorted(s)
    ensures RunsOf([s], Set(s))
  {
    assert forall e :: e in Set(s) <==> e in [s][0];
  }

  lemma {:induction false} Level0Runs(files: Level)
    requires FilesOk(files) && NewestByNumber(files) && Numbered(files)
    ensures RunsOf(FileRuns(files), Union(files))
  {
    var runs := FileRuns(files);
    forall i, j | 0 <= i < j < |runs| ensures Apart(runs[i], runs[j]) {
      var f, g := files[i], files[j];
      assert if f.number > g.number then NewerFile(f, g) else NewerFile(g, f);
      assert forall e :: e in runs[i] ==> e in Set(f.entries);
      assert forall e :: e in runs[j] ==> e in Set(g.entries);
    }
    forall e ensures e in Union(files) <==> exists i :: 0 <= i < |runs| && e in runs[i] {
      if f :| f in files && e in f.entries {
        var i :| 0 <= i < |files| && files[i] == f;
        assert e in runs[i];
      }
      if i :| 0 <= i < |runs| && e in runs[i] {
        assert files[i] in files;
      }
    }
  }

  /** A sub-list of a level that keeps its order. */
  lemma {:induction false} OverlappingOrdered(files: Level, b: Bound, e: Bound)
    requires Ordered(files)
    ensures Ordered(Overlapping(files, b, e))
  {
    if files != [] {
      OverlappingOrdered(files[1..], b, e);
      forall g | g in Overlapping(files[1..], b, e) ensures Less(files[0], g) {
        OverlappingHas(files[1..], b, e, g);
      }
      FirstOrdered(files[0], Overlapping(files[1..], b, e));
    }
  }

  lemma {:induction false} ChosenOrdered(v: Version, level: nat, sel: Selection)
    requires Shaped(v) && level + 1 < NUM_LEVELS && Selected(level, v, sel)
    ensures Ordered(sel.inputs0) && Ordered(sel.inputs1)
  {
    LevelOrdered(v, level);
    LevelOrdered(v, level + 1);
    OverlappingOrdered(v[level + 1], At(sel.smallest.user), At(sel.largest.user));
    if level == 0 {
      var b, e :| Closed(v[0], b, e) && sel.inputs0 == Overlapping(v[0], b, e);
      OverlappingOrdered(v[0], b, e);
    }
  }

  lemma {:induction false} InputsShaped(v: Version, level: nat, sel: Selection)
    requires VersionOk(v) && level + 1 < NUM_LEVELS && Selected(level, v, sel)
    ensures if level == 0 then FilesOk(sel.inputs0) && NewestByNumber(sel.inputs0) &&
            Numbered(sel.inputs0) else Disjoint(sel.inputs0)
    ensures Disjoint(sel.inputs1)
  {
    ChosenOrdered(v, level, sel);
    forall f ensures (f in sel.inputs0 ==> f in v[level]) && (f in sel.inputs1 ==> f in v[level + 1]) {
      InputsAreFiles(v, level, sel, f);
    }
    LevelOrdered(v, level);
    FewerFiles(v[level], sel.inputs0);
    FewerFiles(v[level + 1], sel.inputs1);
  }

  lemma {:induction false} InputsApart(v: Version, level: nat, sel: Selection)
    requires VersionOk(v) && level + 1 < NUM_LEVELS && Selected(level, v, sel)
    ensures KeysApart(Union(sel.inputs0), Union(sel.inputs1))
  {
    assert NewerLevel(v, level, level + 1);
    forall a, b | a in Union(sel.inputs0) && b in Union(sel.inputs1) ensures a.key != b.key {
      var f, g :| f in sel.inputs0 && a in f.entries && g in sel.inputs1 && b in g.entries;
      InputsAreFiles(v, level, sel, f);
      InputsAreFiles(v, level, sel, g);
      InDeep(v, level, f, a);
      InDeep(v, level + 1, g, b);
    }
  }

  lemma {:induction false} InputRunsMergeable(v: Version, level: nat, sel: Selection)
    requires VersionOk(v) && level + 1 < NUM_LEVELS && Selected(level, v, sel)
    ensures RunsOf(InputRuns(level, sel), InputEntries(sel))
  {
    InputsShaped(v, level, sel);
    InputsApart(v, level, sel);
    if level == 0 { Level0Runs(sel.inputs0); } else { ConcatRuns(sel.inputs0); }
    ConcatRuns(sel.inputs1);
    RunsJoin(if level == 0 then FileRuns(sel.inputs0) else ConcatRun(sel.inputs0), Union(sel.inputs0),
             ConcatRun(sel.inputs1), Union(sel.inputs1));
  }

  /** All entries of the inputs, in order. */
  ghost predicate IsMerge(sel: Selection, s: seq<Entry>) {
    Sorted(s) && Set(s) == InputEntries(sel)
  }

  /** The merging iterator over the inputs walks all their entries in order. */
  lemma {:induction false} MergedInputs(v: Version, level: nat, sel: Selection)
    requires VersionOk(v) && level + 1 < NUM_LEVELS && Selected(level, v, sel)
    ensures IsMerge(sel, MergeAll(InputRuns(level, sel)))
  {
    InputRunsMergeable(v, level, sel);
    MergeAllSorted(InputRuns(level, sel));
    forall e ensures e in MergeAll(InputRuns(level, sel)) <==> e in InputEntries(sel) {
      MergeAllHas(InputRuns(level, sel), e);
    }
  }

  method CursorsOver(runs: seq<seq<Entry>>) returns (children: seq<Cursor>)
    requires forall i :: 0 <= i < |runs| ==> Sorted(runs[i])
    ensures fresh(children) && Runs(children) == runs
    ensures forall j, k :: 0 <= j < k < |children| ==> children[j] != children[k]
    ensures forall j :: 0 <= j < |children| ==> children[j].Ok()
  {
    children := [];
    for i := 0 to |runs|
      invariant |children| == i && fresh(children)
      invariant forall j :: 0 <= j < i ==> children[j].Ok() && children[j].entries == runs[j]
      invariant forall j, k :: 0 <= j < k < i ==> children[j] != children[k]
    {
      var child := new Cursor(runs[i]);
      children := children + [child];
    }
  }

  method MakeInputIterator(ghost v: Version, level: nat, sel: Selection) returns (input: MergingIterator)
    requires VersionOk(v) && level + 1 < NUM_LEVELS && Selected(level, v, sel)
    ensures input.Ok() && fresh(input) && fresh(input.children) && input.merged == MergeAll(InputRuns(level, sel))
  {
    InputRunsMergeable(v, level, sel);
    var children := CursorsOver(InputRuns(level, sel));
    input := new MergingIterator(children);
  }

  // ----- reads before and after -----

  /** A file of the output level beyond everything that was compacted. */
  predicate IsBehind(sel: Selection, g: File) {
    sel.largest.user < g.smallest.user
  }

  /** No file behind the inputs at the output level starts with the user key that they end with.  SetupOtherInputs does
      not ensure it: it adds boundary files at the compacted level only. */
  ghost predicate NothingFollows(v: Version, level: nat, sel: Selection)
    requires level + 1 < NUM_LEVELS
  {
    forall f, g :: f in sel.inputs1 && g in v[level + 1] && IsBehind(sel, g) ==> f.largest.user != g.smallest.user
  }

  ghost function BehindEntries(v: Version, level: nat, sel: Selection): set<Entry>
    requires level + 1 < NUM_LEVELS
  {
    set g, e | g in v[level + 1] && IsBehind(sel, g) && e in g.entries :: e
  }

  /** What the compaction of a selection drops. */
  ghost function PolicyOf(v: Version, level: nat, smallestSnapshot: Sequence): Policy {
    Policy(smallestSnapshot, BaseKeys(v, level))
  }

  /** What is kept of the merged inputs. */
  ghost function KeptOf(v: Version, level: nat, smallestSnapshot: Sequence, s: seq<Entry>): seq<Entry> {
    Kept(s, PolicyOf(v, level, smallestSnapshot), |s|)
  }

  /** Outputs with just that. */
  ghost predicate Compacted(v: Version, level: nat, sel: Selection, smallestSnapshot: Sequence, outputs: Level)
  {
    forall s {:trigger IsMerge(sel, s)} :: IsMerge(sel, s) ==> Concat(outputs) == KeptOf(v, level, smallestSnapshot, s)
  }

  /** There is only one order. */
  lemma {:induction false} SameMerge(a: seq<Entry>, b: seq<Entry>)
    requires Sorted(a) && Sorted(b) && Set(a) == Set(b)
    ensures a == b
  {
    if a != [] {
      SameFirst(a, b);
      WithoutFirst(a);
      WithoutFirst(b);
      SameMerge(a[1..], b[1..]);
      assert a == [a[0]] + a[1..] && b == [b[0]] + b[1..];
    } else if b != [] {
      SameFirst(b, a);
    }
  }

  lemma {:induction false} SameFirst(a: seq<Entry>, b: seq<Entry>)
    requires Sorted(a) && Sorted(b) && Set(a) == Set(b) && a != []
    ensures b != [] && a[0] == b[0]
  {
    assert a[0] in Set(b);
    var i :| 0 <= i < |b| && b[i] == a[0];
    assert b[0] in Set(a);
    var j :| 0 <= j < |a| && a[j] == b[0];
  }

  lemma {:induction false} WithoutFirst(a: seq<Entry>)
    requires Sorted(a) && a != []
    ensures Sorted(a[1..]) && Set(a[1..]) == Set(a) - {a[0]}
  {
    assert a == [a[0]] + a[1..];
    forall e | e in a[1..] ensures e != a[0] {
      var i :| 0 <= i < |a[1..]| && a[1..][i] == e;
      assert Before(a[0].key, a[i + 1].key);
    }
  }

  lemma {:induction false} CompactedBy(v: Version, level: nat, sel: Selection, smallestSnapshot: Sequence,
                                       outputs: Level, s: seq<Entry>)
    requires IsMerge(sel, s) && Concat(outputs) == KeptOf(v, level, smallestSnapshot, s)
    ensures Compacted(v, level, sel, smallestSnapshot, outputs)
  {
    forall t | IsMerge(sel, t) ensures Concat(outputs) == KeptOf(v, level, smallestSnapshot, t) {
      SameMerge(s, t);
    }
  }

  lemma {:induction false} CompactedUnion(v: Version, level: nat, sel: Selection, smallestSnapshot: Sequence,
                                          outputs: Level, s: seq<Entry>)
    requires Compacted(v, level, sel, smallestSnapshot, outputs) && IsMerge(sel, s)
    ensures Union(outputs) == Set(KeptOf(v, level, smallestSnapshot, s)) && Union(outputs) <= InputEntries(sel)
  {
    var p := PolicyOf(v, level, smallestSnapshot);
    forall e ensures e in Union(outputs) <==> e in Kept(s, p, |s|) {
      ConcatHas(outputs, e);
    }
    forall e | e in Kept(s, p, |s|) ensures e in s {
      KeptHas(s, p, |s|, e);
    }
  }

  /** A user key at its base level has no entry further down. */
  lemma {:induction false} NothingDeeper(v: Version, level: nat, user: UserKey, l: nat, g: File, r: Entry)
    requires Shaped(v) && BaseLevel(v, level, user) && level + 2 <= l < NUM_LEVELS && g in v[l] && r in g.entries
    ensures r.key.user != user
  {
    LevelOrdered(v, l);
    EntryInRange(g, r);
    var i :| 0 <= i < |v[l]| && v[l][i] == g;
    assert !Covers(v[l][i], user);
  }

  lemma {:induction false} HigherIsNewer(v: Version, l: nat, g: File, r: Entry, k: nat, f: File, d: Entry)
    requires Layered(v) && l < k < NUM_LEVELS && g in v[l] && r in g.entries && f in v[k] && d in f.entries
    requires r.key.user == d.key.user
    ensures r.key.sequence > d.key.sequence
  {
    assert NewerLevel(v, l, k);
    InDeep(v, k, f, d);
    InDeep(v, l, g, r);
  }

  /** An unselected file at the output level that is not behind the inputs lies before them. */
  lemma {:induction false} LeftAtNext(v: Version, level: nat, sel: Selection, g: File, r: Entry, d: Entry)
    requires VersionOk(v) && level + 1 < NUM_LEVELS && Selected(level, v, sel) && d in InputEntries(sel)
    requires g in v[level + 1] && g !in sel.inputs1 && !IsBehind(sel, g) && r in g.entries && r.key.user == d.key.user
    ensures r.key.sequence > d.key.sequence
  {
    LeftIsBefore(v, level, sel, g, r, d);
    InDeep(v, level + 1, g, r);
    SplitBefore(v, level, sel);
    EarlierIsNewer(Deep(v, 0), r, d);
  }

  lemma {:induction false} EarlierIsNewer(E: set<Entry>, r: Entry, d: Entry)
    requires Distinct(E) && r in E && d in E && Before(r.key, d.key) && r.key.user == d.key.user
    ensures r.key.sequence > d.key.sequence
  {
  }

  lemma {:induction false} LeftIsBefore(v: Version, level: nat, sel: Selection, g: File, r: Entry, d: Entry)
    requires Shaped(v) && level + 1 < NUM_LEVELS && Selected(level, v, sel) && d in InputEntries(sel)
    requires g in v[level + 1] && g !in sel.inputs1 && !IsBehind(sel, g) && r in g.entries
    ensures Before(r.key, d.key)
  {
    OverlappingHas(v[level + 1], At(sel.smallest.user), At(sel.largest.user), g);
    AfterLeftFile(v, level, sel, g, d);
    LevelOrdered(v, level + 1);
    EntryInRange(g, r);
  }

  lemma {:induction false} HigherStaysNewer(v: Version, level: nat, sel: Selection, l: nat, g: File, f: File, d: Entry,
                                            r: Entry)
    requires VersionOk(v) && l <= level && level + 1 < NUM_LEVELS && Selected(level, v, sel)
    requires g in v[l] && Stays(level, sel, l, g) && r in g.entries && (f in sel.inputs0 || f in sel.inputs1)
    requires d in f.entries && r.key.user == d.key.user
    ensures r.key.sequence > d.key.sequence
  {
    InputsAreFiles(v, level, sel, f);
    var k := if f in sel.inputs0 then level else level + 1;
    if l == k {
      LeftIsNewer(v, level, sel, g, r, d);
    } else {
      HigherIsNewer(v, l, g, r, k, f, d);
    }
  }

  lemma {:induction false} InputIsInput(sel: Selection, f: File, d: Entry)
    requires (f in sel.inputs0 || f in sel.inputs1) && d in f.entries
    ensures d in InputEntries(sel)
  {
  }

  lemma {:induction false} FileStaysNewer(v: Version, level: nat, sel: Selection, l: nat, g: File, f: File, d: Entry,
                                          r: Entry)
    requires VersionOk(v) && level + 1 < NUM_LEVELS && Selected(level, v, sel) && l < NUM_LEVELS
    requires g in v[l] && Stays(level, sel, l, g) && r in g.entries && (f in sel.inputs0 || f in sel.inputs1)
    requires d in f.entries
    requires BaseLevel(v, level, d.key.user) && r.key.user == d.key.user && !(l == level + 1 && IsBehind(sel, g))
    ensures r.key.sequence > d.key.sequence
  {
    if l > level + 1 {
      NothingDeeper(v, level, d.key.user, l, g, r);
    } else if l == level + 1 {
      InputIsInput(sel, f, d);
      LeftAtNext(v, level, sel, g, r, d);
    } else {
      HigherStaysNewer(v, level, sel, l, g, f, d, r);
    }
  }

  lemma {:induction false} StayingFile(v: Version, level: nat, sel: Selection, r: Entry) returns (l: nat, g: File)
    requires level + 1 < NUM_LEVELS && r in Others(v, level, sel) && r !in BehindEntries(v, level, sel)
    ensures l < NUM_LEVELS && g in v[l] && Stays(level, sel, l, g) && r in g.entries
    ensures !(l == level + 1 && IsBehind(sel, g))
  {
    l, g :| 0 <= l < NUM_LEVELS && g in v[l] && Stays(level, sel, l, g) && r in g.entries;
  }

  lemma {:induction false} InputFile(sel: Selection, d: Entry) returns (f: File)
    requires d in InputEntries(sel)
    ensures (f in sel.inputs0 || f in sel.inputs1) && d in f.entries
  {
    f :| (f in sel.inputs0 || f in sel.inputs1) && d in f.entries;
  }

  lemma {:induction false} AtBaseLevel(v: Version, level: nat, snapshot: Sequence, d: Entry)
    requires Obsolete(d, PolicyOf(v, level, snapshot))
    ensures BaseLevel(v, level, d.key.user)
  {
  }

  /** What stays in the store, but for the files behind the inputs, is newer than any obsolete tombstone of its user key
      among the inputs. */
  lemma {:induction false} StaysNewer(v: Version, level: nat, sel: Selection, snapshot: Sequence, d: Entry, r: Entry)
    requires VersionOk(v) && level + 1 < NUM_LEVELS && Selected(level, v, sel)
    requires d in InputEntries(sel) && Obsolete(d, PolicyOf(v, level, snapshot))
    requires r in Others(v, level, sel) && r.key.user == d.key.user && r !in BehindEntries(v, level, sel)
    ensures r.key.sequence > d.key.sequence
  {
    var l, g := StayingFile(v, level, sel, r);
    var f := InputFile(sel, d);
    AtBaseLevel(v, level, snapshot, d);
    FileStaysNewer(v, level, sel, l, g, f, d, r);
  }

  /** With the guard, the files behind the inputs have none of their user keys. */
  lemma {:induction false} BehindIsOther(v: Version, level: nat, sel: Selection, d: Entry, r: Entry)
    requires VersionOk(v) && level + 1 < NUM_LEVELS && Selected(level, v, sel) && NothingFollows(v, level, sel)
    requires d in InputEntries(sel) && r in BehindEntries(v, level, sel)
    ensures r.key.user != d.key.user
  {
    var g :| g in v[level + 1] && IsBehind(sel, g) && r in g.entries;
    var f :| (f in sel.inputs0 || f in sel.inputs1) && d in f.entries;
    InputsAreFiles(v, level, sel, f);
    LevelOrdered(v, level);
    LevelOrdered(v, level + 1);
    EntryInRange(g, r);
    EntryInRange(f, d);
    if f in sel.inputs0 {
      HullHas(sel.inputs0, sel.smallest, sel.largest, f);
    } else {
      OverlappingHas(v[level + 1], At(sel.smallest.user), At(sel.largest.user), f);
      ClearIn(v[level + 1], f, g);
      EntryInRange(g, g.entries[0]);
    }
  }

  /** Everything that a compaction neither reads nor writes. */
  ghost function Rest(db: Db, level: nat, sel: Selection): set<Entry> {
    Set(db.mem) + Set(db.imm) + Others(db.version, level, sel)
  }

  ghost predicate CanCompact(db: Db, level: nat, sel: Selection, smallestSnapshot: Sequence, outputs: Level) {
    Compactable(db, level, sel, smallestSnapshot, outputs) == Yes
  }

  /** CanCompact as a value: the selection is right, and the outputs are what a compaction of it makes, under new
      numbers. */
  ghost function Compactable(db: Db, level: nat, sel: Selection, smallestSnapshot: Sequence, outputs: Level): Verdict {
    if db.Ok() && UniqueNumbers(db.version) && level + 1 < NUM_LEVELS && Selected(level, db.version, sel)
       && Compacted(db.version, level, sel, smallestSnapshot, outputs)
       && Disjoint(outputs) && Numbered(outputs) && Foreign(db.version[level + 1], outputs)
       && smallestSnapshot < MAX_SEQUENCE
    then Yes else No
  }

  ghost function CompactedDb(db: Db, level: nat, sel: Selection, outputs: Level): Db {
    db.(version := Replaced(db.version, level, sel, outputs))
  }

  lemma {:induction false} CanCompactReplace(db: Db, level: nat, sel: Selection, smallestSnapshot: Sequence,
                                             outputs: Level)
    requires CanCompact(db, level, sel, smallestSnapshot, outputs)
    ensures CanReplace(db.version, level, sel, outputs)
  {
    MergedInputs(db.version, level, sel);
    CompactedUnion(db.version, level, sel, smallestSnapshot, outputs, MergeAll(InputRuns(level, sel)));
  }

  lemma {:induction false} AllBeforeAndAfter(db: Db, level: nat, sel: Selection, outputs: Level)
    requires CanReplace(db.version, level, sel, outputs)
    ensures db.All() == Rest(db, level, sel) + InputEntries(sel)
    ensures CompactedDb(db, level, sel, outputs).All() == Rest(db, level, sel) + Union(outputs)
  {
    SplitBefore(db.version, level, sel);
    SplitAfter(db.version, level, sel, outputs);
  }

  /** The store stays in order. */
  lemma {:induction false} CompactionKeepsOrder(db: Db, level: nat, sel: Selection, smallestSnapshot: Sequence,
                                                outputs: Level)
    requires CanCompact(db, level, sel, smallestSnapshot, outputs)
    ensures CompactedDb(db, level, sel, outputs).Ok()
    ensures CompactedDb(db, level, sel, outputs).All() <= db.All()
  {
    CanCompactReplace(db, level, sel, smallestSnapshot, outputs);
    ReplacedOk(db.version, level, sel, outputs);
    SplitBefore(db.version, level, sel);
    SplitAfter(db.version, level, sel, outputs);
    AllBeforeAndAfter(db, level, sel, outputs);
    SubsetDistinct(db.All(), CompactedDb(db, level, sel, outputs).All());
  }

  /** Whatever the selection, a live read changes exactly when a dropped tombstone exposes an older value. */
  lemma {:induction false} CompactionReads(db: Db, level: nat, sel: Selection, smallestSnapshot: Sequence,
                                           outputs: Level,
                        user: UserKey, snapshot: Sequence)
    requires CanCompact(db, level, sel, smallestSnapshot, outputs)
    requires smallestSnapshot <= snapshot
    ensures ReadAt(CompactedDb(db, level, sel, outputs).All(), user, snapshot) == ReadAt(db.All(), user, snapshot) <==>
            !Exposes(Rest(db, level, sel), MergeAll(InputRuns(level, sel)),
                PolicyOf(db.version, level, smallestSnapshot), user, snapshot)
  {
    CanCompactReplace(db, level, sel, smallestSnapshot, outputs);
    AllBeforeAndAfter(db, level, sel, outputs);
    MergedInputs(db.version, level, sel);
    CompactedUnion(db.version, level, sel, smallestSnapshot, outputs, MergeAll(InputRuns(level, sel)));
    ReadsPreserved(Rest(db, level, sel), MergeAll(InputRuns(level, sel)),
        PolicyOf(db.version, level, smallestSnapshot), user, snapshot);
  }

  /** Dropping tombstone d uncovers value e of a file behind the inputs: d is the newest entry of its user key at the
      oldest live snapshot, and e the newest one there. */
  ghost predicate Uncovers(db: Db, level: nat, sel: Selection, smallestSnapshot: Sequence, d: Entry, e: Entry)
    requires level + 1 < NUM_LEVELS
  {
    && d in InputEntries(sel) && Obsolete(d, PolicyOf(db.version, level, smallestSnapshot))
    && Newest(db.All(), d.key.user, smallestSnapshot, d)
    && Newest(BehindEntries(db.version, level, sel), d.key.user, smallestSnapshot, e) && e.key.kind.Value?
  }

  ghost predicate NoneUncovered(db: Db, level: nat, sel: Selection, smallestSnapshot: Sequence)
    requires level + 1 < NUM_LEVELS
  {
    forall d, e :: !Uncovers(db, level, sel, smallestSnapshot, d, e)
  }

  /** Entries that come in later can only take away what would be uncovered. */
  lemma {:induction false} NoneUncoveredLater(db: Db, later: Db, level: nat, sel: Selection,
                                              smallestSnapshot: Sequence)
    requires level + 1 < NUM_LEVELS && Shaped(db.version) && Selected(level, db.version, sel)
    requires NoneUncovered(db, level, sel, smallestSnapshot)
    requires later.version == db.version && db.All() <= later.All()
    ensures NoneUncovered(later, level, sel, smallestSnapshot)
  {
    forall d, e ensures !Uncovers(later, level, sel, smallestSnapshot, d, e) {
      SplitBefore(db.version, level, sel);
      if Uncovers(later, level, sel, smallestSnapshot, d, e) {
        assert d in db.Tables();
        assert Uncovers(db, level, sel, smallestSnapshot, d, e);
      }
    }
  }

  ghost predicate KeepsReads(db: Db, level: nat, sel: Selection, smallestSnapshot: Sequence, outputs: Level) {
    forall user: UserKey, snapshot: Sequence :: smallestSnapshot <= snapshot ==>
      ReadAt(CompactedDb(db, level, sel, outputs).All(), user, snapshot) == ReadAt(db.All(), user, snapshot)
  }

  /** What a reader finds behind a newest tombstone of the inputs stands in a file behind them. */
  lemma {:induction false} OlderIsBehind(db: Db, level: nat, sel: Selection, smallestSnapshot: Sequence, d: Entry,
                                         r: Entry,
                                         snapshot: Sequence)
    requires db.Ok() && level + 1 < NUM_LEVELS && Selected(level, db.version, sel)
    requires d in InputEntries(sel) && Obsolete(d, PolicyOf(db.version, level, smallestSnapshot))
    requires Newest(db.All(), d.key.user, snapshot, d) && r in Rest(db, level, sel) && Sees(r, d.key.user, snapshot)
    ensures r in BehindEntries(db.version, level, sel) && r.key.sequence <= smallestSnapshot
  {
    SplitBefore(db.version, level, sel);
    assert d in db.Tables();
    assert r in db.All() && r.key.sequence <= d.key.sequence;
    if r in Others(db.version, level, sel) && r !in BehindEntries(db.version, level, sel) {
      StaysNewer(db.version, level, sel, smallestSnapshot, d, r);
    }
  }

  lemma {:induction false} BehindStays(v: Version, level: nat, sel: Selection, e: Entry)
    requires level + 1 < NUM_LEVELS && Selected(level, v, sel) && e in BehindEntries(v, level, sel)
    ensures e in Others(v, level, sel)
  {
    var g :| g in v[level + 1] && IsBehind(sel, g) && e in g.entries;
    OverlappingHas(v[level + 1], At(sel.smallest.user), At(sel.largest.user), g);
    assert Stays(level, sel, level + 1, g);
  }

  /** An exposed value is one that is uncovered at the oldest live snapshot... */
  lemma {:induction false} ExposedIsUncovered(db: Db, level: nat, sel: Selection, smallestSnapshot: Sequence,
                                              d: Entry, e: Entry,
                                              snapshot: Sequence)
    requires db.Ok() && level + 1 < NUM_LEVELS && Selected(level, db.version, sel) && smallestSnapshot <= snapshot
    requires d in InputEntries(sel) && Obsolete(d, PolicyOf(db.version, level, smallestSnapshot))
    requires Newest(db.All(), d.key.user, snapshot, d)
    requires Newest(Rest(db, level, sel), d.key.user, snapshot, e) && e.key.kind.Value?
    ensures Uncovers(db, level, sel, smallestSnapshot, d, e)
  {
    OlderIsBehind(db, level, sel, smallestSnapshot, d, e, snapshot);
    forall f | f in BehindEntries(db.version, level, sel) && Sees(f, d.key.user, smallestSnapshot)
      ensures f.key.sequence <= e.key.sequence
    {
      BehindStays(db.version, level, sel, f);
    }
  }

  /** ... and the other way round. */
  lemma {:induction false} UncoveredIsExposed(db: Db, level: nat, sel: Selection, smallestSnapshot: Sequence,
                                              d: Entry, e: Entry)
    requires db.Ok() && level + 1 < NUM_LEVELS && Selected(level, db.version, sel)
    requires Uncovers(db, level, sel, smallestSnapshot, d, e)
    ensures Newest(Rest(db, level, sel), d.key.user, smallestSnapshot, e)
  {
    BehindStays(db.version, level, sel, e);
    forall r | r in Rest(db, level, sel) && Sees(r, d.key.user, smallestSnapshot)
      ensures r.key.sequence <= e.key.sequence
    {
      OlderIsBehind(db, level, sel, smallestSnapshot, d, r, smallestSnapshot);
    }
  }

  lemma {:induction false} UncoveredExposes(db: Db, level: nat, sel: Selection, smallestSnapshot: Sequence,
                                            outputs: Level, d: Entry, e: Entry)
    requires CanReplace(db.version, level, sel, outputs) && db.Ok()
    requires Uncovers(db, level, sel, smallestSnapshot, d, e)
    ensures Exposes(Rest(db, level, sel), MergeAll(InputRuns(level, sel)),
                    PolicyOf(db.version, level, smallestSnapshot), d.key.user, smallestSnapshot)
  {
    var rest, s := Rest(db, level, sel), MergeAll(InputRuns(level, sel));
    AllBeforeAndAfter(db, level, sel, outputs);
    MergedInputs(db.version, level, sel);
    UncoveredIsExposed(db, level, sel, smallestSnapshot, d, e);
    SubsetDistinct(db.All(), rest);
    ReadNewest(rest, d.key.user, smallestSnapshot, e);
    assert d in Set(s);
    var i :| 0 <= i < |s| && s[i] == d;
    assert Newest(rest + Set(s), d.key.user, smallestSnapshot, s[i]);
  }

  lemma {:induction false} UncoveredChangesReads(db: Db, level: nat, sel: Selection, smallestSnapshot: Sequence,
                                                 outputs: Level, d: Entry, e: Entry)
    requires CanCompact(db, level, sel, smallestSnapshot, outputs)
    requires Uncovers(db, level, sel, smallestSnapshot, d, e)
    ensures !KeepsReads(db, level, sel, smallestSnapshot, outputs)
  {
    CanCompactReplace(db, level, sel, smallestSnapshot, outputs);
    UncoveredExposes(db, level, sel, smallestSnapshot, outputs, d, e);
    CompactionReads(db, level, sel, smallestSnapshot, outputs, d.key.user, smallestSnapshot);
  }

  lemma {:induction false} CoveredKeepsRead(db: Db, level: nat, sel: Selection, smallestSnapshot: Sequence,
                                            outputs: Level,
                                            user: UserKey, snapshot: Sequence)
    requires CanCompact(db, level, sel, smallestSnapshot, outputs)
    requires smallestSnapshot <= snapshot && NoneUncovered(db, level, sel, smallestSnapshot)
    ensures ReadAt(CompactedDb(db, level, sel, outputs).All(), user, snapshot) == ReadAt(db.All(), user, snapshot)
  {
    var rest, s, p := Rest(db, level, sel), MergeAll(InputRuns(level, sel)),
        PolicyOf(db.version, level, smallestSnapshot);
    CompactionReads(db, level, sel, smallestSnapshot, outputs, user, snapshot);
    CanCompactReplace(db, level, sel, smallestSnapshot, outputs);
    AllBeforeAndAfter(db, level, sel, outputs);
    MergedInputs(db.version, level, sel);
    SubsetDistinct(db.All(), rest);
    forall i | 0 <= i < |s| && Obsolete(s[i], p) && Newest(rest + Set(s), user, snapshot, s[i])
      ensures ReadAt(rest, user, snapshot) == NotFound
    {
      assert s[i] in Set(s);
      NewestExists(rest, user, snapshot);
      if e :| Newest(rest, user, snapshot, e) {
        ReadNewest(rest, user, snapshot, e);
        if e.key.kind.Value? {
          ExposedIsUncovered(db, level, sel, smallestSnapshot, s[i], e, snapshot);
        }
      }
    }
  }

  /** A compaction keeps every live read exactly when no tombstone that it drops uncovers a value in a file behind its
      inputs. */
  lemma {:induction false} CompactionKeepsReadsIff(db: Db, level: nat, sel: Selection, smallestSnapshot: Sequence,
                                                   outputs: Level)
    requires CanCompact(db, level, sel, smallestSnapshot, outputs)
    ensures KeepsReads(db, level, sel, smallestSnapshot, outputs) <==>
            NoneUncovered(db, level, sel, smallestSnapshot)
  {
    if d, e :| Uncovers(db, level, sel, smallestSnapshot, d, e) {
      UncoveredChangesReads(db, level, sel, smallestSnapshot, outputs, d, e);
    } else {
      forall user: UserKey, snapshot: Sequence | smallestSnapshot <= snapshot
        ensures ReadAt(CompactedDb(db, level, sel, outputs).All(), user, snapshot) == ReadAt(db.All(), user, snapshot)
      {
        CoveredKeepsRead(db, level, sel, smallestSnapshot, outputs, user, snapshot);
      }
    }
  }

  lemma {:induction false} NothingFollowsCovers(db: Db, level: nat, sel: Selection, smallestSnapshot: Sequence)
    requires VersionOk(db.version) && level + 1 < NUM_LEVELS && Selected(level, db.version, sel)
    requires NothingFollows(db.version, level, sel)
    ensures NoneUncovered(db, level, sel, smallestSnapshot)
  {
    forall d, e ensures !Uncovers(db, level, sel, smallestSnapshot, d, e) {
      if d in InputEntries(sel) && e in BehindEntries(db.version, level, sel) {
        BehindIsOther(db.version, level, sel, d, e);
      }
    }
  }

  /** A guard on the files alone: when none behind the inputs starts with the user key that they end with, every live
      read stays the same. */
  lemma {:induction false} CompactionKeepsReads(db: Db, level: nat, sel: Selection, smallestSnapshot: Sequence,
                                                outputs: Level)
    requires CanCompact(db, level, sel, smallestSnapshot, outputs)
    requires NothingFollows(db.version, level, sel)
    ensures KeepsReads(db, level, sel, smallestSnapshot, outputs)
  {
    NothingFollowsCovers(db, level, sel, smallestSnapshot);
    CompactionKeepsReadsIff(db, level, sel, smallestSnapshot, outputs);
  }
}
