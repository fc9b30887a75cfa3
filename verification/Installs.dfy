/** What installing an edit does to a version (version_set, db_impl): flushes, compactions and trivial moves keep
    every level of the version in shape, and the levels layered from new to old. */
module Installs {
  import opened Keys
  import opened Cursors
  import opened Reads
  import opened Versions
  import opened Builders
  import opened Inputs

  /** LogAndApply's next version. */
  ghost function Applied(v: Version, edit: Edit): Version {
    seq(NUM_LEVELS, l requires 0 <= l < NUM_LEVELS => Save(v[l], ApplyEdit(Nothing, edit, l)))
  }

  ghost predicate Placed(v: Version, l: nat, f: File)
    requires l < NUM_LEVELS
  {
    f in v[l]
  }

  /** A file number stands for one file at one level. */
  ghost predicate UniqueNumbers(v: Version) {
    forall k, l, f, g {:trigger Placed(v, k, f), Placed(v, l, g)} :: 0 <= k < NUM_LEVELS && 0 <= l < NUM_LEVELS ==>
      Placed(v, k, f) && Placed(v, l, g) && f.number == g.number ==> k == l && f == g
  }

  ghost predicate NumbersBelow(v: Version, next: nat) {
    forall l, f {:trigger f in v[l]} :: 0 <= l < NUM_LEVELS && f in v[l] ==> f.number < next
  }

  lemma {:induction false} DisjointOrdered(files: Level)
    requires Disjoint(files)
    ensures Ordered(files)
  {
    forall i, j | 0 <= i < j < |files| ensures Less(files[i], files[j]) {
      EntryInRange(files[i], files[i].entries[0]);
    }
  }

  predicate Clear(f: File, g: File) {
    Before(f.largest, g.smallest) || Before(g.largest, f.smallest)
  }

  ghost predicate PairwiseClear(files: Level) {
    forall f, g {:trigger Clear(f, g)} :: f in files && g in files && f != g ==> Clear(f, g)
  }

  lemma {:induction false} DisjointFrom(files: Level)
    requires FilesOk(files) && Ordered(files) && PairwiseClear(files)
    ensures Disjoint(files)
  {
    forall i, j | 0 <= i < j < |files| ensures Before(files[i].largest, files[j].smallest) {
      EntryInRange(files[j], files[j].entries[0]);
      assert Less(files[i], files[j]) && Clear(files[i], files[j]);
    }
  }

  lemma {:induction false} ClearIn(files: Level, f: File, g: File)
    requires Disjoint(files) && f in files && g in files && f != g
    ensures Clear(f, g)
  {
  }

  lemma {:induction false} OkIn(files: Level, f: File)
    requires FilesOk(files) && f in files
    ensures f.Ok()
  {
  }

  lemma {:induction false} LevelOrdered(v: Version, l: nat)
    requires Shaped(v) && l < NUM_LEVELS
    ensures Ordered(v[l]) && FilesOk(v[l])
  {
    if l > 0 {
      DisjointOrdered(v[l]);
    }
  }

  /** The files of a level after an edit that adds only new numbers there. */
  lemma {:induction false} EditedLevel(v: Version, edit: Edit, l: nat)
    requires Shaped(v) && l < NUM_LEVELS
    requires Numbered(AddedAt(edit.added, l)) && Foreign(v[l], AddedAt(edit.added, l))
    ensures Ordered(Applied(v, edit)[l])
    ensures forall f :: f in Applied(v, edit)[l] <==>
              (f in v[l] && f.number !in DeletedAt(edit, l)) || f in AddedAt(edit.added, l)
  {
    LevelOrdered(v, l);
    assert {} + DeletedAt(edit, l) == DeletedAt(edit, l);
    AddedFiles(Nothing.(deleted := DeletedAt(edit, l)), edit.added, l);
    SavedFiles(v[l], ApplyEdit(Nothing, edit, l));
  }

  lemma {:induction false} UntouchedLevel(v: Version, edit: Edit, l: nat)
    requires Shaped(v) && l < NUM_LEVELS && AddedAt(edit.added, l) == [] && DeletedAt(edit, l) == {}
    ensures Applied(v, edit)[l] == v[l]
  {
    LevelOrdered(v, l);
    EditedLevel(v, edit, l);
    OrderedUnique(Applied(v, edit)[l], v[l]);
  }

  lemma {:induction false} InDeep(v: Version, l: nat, f: File, e: Entry)
    requires l < NUM_LEVELS && f in v[l] && e in f.entries
    ensures e in Union(v[l]) && e in Deep(v, 0)
  {
  }

  // ----- flush -----

  function FlushEdit(level: nat, f: File): Edit {
    Edit({}, [(level, f)])
  }

  /** A new table with entries newer than all tables, at a level that PickLevelForMemTableOutput may pick. */
  ghost predicate CanFlush(v: Version, level: nat, f: File) {
    && VersionOk(v) && level < NUM_LEVELS && f.Ok() && NumbersBelow(v, f.number)
    && NewerThan(Set(f.entries), Deep(v, 0)) && Distinct(Set(f.entries) + Deep(v, 0))
    && (level > 0 ==> forall l :: 0 <= l <= level ==> !AnyOverlap(v[l], At(f.smallest.user), At(f.largest.user)))
  }

  lemma {:induction false} FlushedLevels(v: Version, level: nat, f: File)
    requires CanFlush(v, level, f)
    ensures forall l :: 0 <= l < NUM_LEVELS && l != level ==> Applied(v, FlushEdit(level, f))[l] == v[l]
    ensures Ordered(Applied(v, FlushEdit(level, f))[level])
    ensures forall g :: g in Applied(v, FlushEdit(level, f))[level] <==> g in v[level] || g == f
  {
    forall l | 0 <= l < NUM_LEVELS && l != level ensures Applied(v, FlushEdit(level, f))[l] == v[l] {
      AddedOne(level, f, l);
      UntouchedLevel(v, FlushEdit(level, f), l);
    }
    AddedOne(level, f, level);
    EditedLevel(v, FlushEdit(level, f), level);
  }

  lemma {:induction false} AddedOne(level: nat, f: File, l: nat)
    ensures AddedAt(FlushEdit(level, f).added, l) == if l == level then [f] else []
    ensures DeletedAt(FlushEdit(level, f), l) == {}
  {
    assert [(level, f)][..0] == [];
  }

  /** Entries of files that do not meet a user-key range are outside it. */
  lemma {:induction false} OutOfRange(files: Level, f: File, g: File, x: Entry, y: Entry)
    requires FilesOk(files) && g in files && f.Ok() && !AnyOverlap(files, At(f.smallest.user), At(f.largest.user))
    requires x in g.entries && y in f.entries
    ensures x.key.user != y.key.user && Clear(f, g)
  {
    var i :| 0 <= i < |files| && files[i] == g;
    assert !Overlaps(files[i], At(f.smallest.user), At(f.largest.user));
    EntryInRange(f, y);
    EntryInRange(g, x);
  }

  lemma {:induction false} FlushedLevel0(v: Version, f: File)
    requires CanFlush(v, 0, f)
    ensures FilesOk(Applied(v, FlushEdit(0, f))[0]) && Numbered(Applied(v, FlushEdit(0, f))[0])
    ensures NewestByNumber(Applied(v, FlushEdit(0, f))[0])
  {
    FlushedLevels(v, 0, f);
    var files := Applied(v, FlushEdit(0, f))[0];
    forall i | 0 <= i < |files| ensures files[i].Ok() {
      assert files[i] in files;
    }
    NumbersDiffer(v[0], files, f);
    forall a, b | a in files && b in files && a.number > b.number ensures NewerFile(a, b) {
      if a != f {
        assert a in v[0] && b in v[0];
      } else {
        assert b in v[0];
        forall e | e in b.entries ensures e in Deep(v, 0) {
          InDeep(v, 0, b, e);
        }
      }
    }
  }

  lemma {:induction false} NumbersDiffer(before: Level, files: Level, f: File)
    requires Numbered(before) && Ordered(files) && (forall g :: g in before ==> g.number < f.number)
    requires forall g :: g in files <==> g in before || g == f
    ensures Numbered(files)
  {
    forall i, j | 0 <= i < j < |files| ensures files[i].number != files[j].number {
      assert Less(files[i], files[j]) && files[i] in files && files[j] in files;
    }
  }

  lemma {:induction false} FlushedDeeper(v: Version, level: nat, f: File)
    requires CanFlush(v, level, f) && level > 0
    ensures Disjoint(Applied(v, FlushEdit(level, f))[level])
  {
    FlushedLevels(v, level, f);
    var files := Applied(v, FlushEdit(level, f))[level];
    forall i | 0 <= i < |files| ensures files[i].Ok() {
      assert files[i] in files;
    }
    forall a, b | a in files && b in files && a != b ensures Clear(a, b) {
      if a == f || b == f {
        var g := if a == f then b else a;
        assert g.Ok();
        OutOfRange(v[level], f, g, g.entries[0], f.entries[0]);
      } else {
        ClearIn(v[level], a, b);
      }
    }
    DisjointFrom(files);
  }

  lemma {:induction false} FlushedUnions(v: Version, level: nat, f: File)
    requires CanFlush(v, level, f)
    ensures var v' := Applied(v, FlushEdit(level, f));
            && Union(v'[level]) == Set(f.entries) + Union(v[level])
            && Deep(v', 0) == Set(f.entries) + Deep(v, 0)
  {
    FlushedLevels(v, level, f);
  }

  /** A flush keeps the version in order and adds just the entries of the new table. */
  lemma {:induction false} Flushed(v: Version, level: nat, f: File)
    requires CanFlush(v, level, f)
    ensures VersionOk(Applied(v, FlushEdit(level, f)))
    ensures Deep(Applied(v, FlushEdit(level, f)), 0) == Set(f.entries) + Deep(v, 0)
  {
    var v' := Applied(v, FlushEdit(level, f));
    FlushedLevels(v, level, f);
    FlushedUnions(v, level, f);
    if level == 0 { FlushedLevel0(v, f); } else { FlushedDeeper(v, level, f); }
    forall i, j | 0 <= i < j < NUM_LEVELS ensures NewerLevel(v', i, j) {
      FlushedNewer(v, level, f, i, j);
    }
  }

  lemma {:induction false} FlushedNewer(v: Version, level: nat, f: File, i: nat, j: nat)
    requires CanFlush(v, level, f) && i < j < NUM_LEVELS
    ensures NewerLevel(Applied(v, FlushEdit(level, f)), i, j)
  {
    FlushedLevels(v, level, f);
    FlushedUnions(v, level, f);
    assert NewerLevel(v, i, j);
    assert forall e :: e in Union(v[j]) ==> e in Deep(v, 0);
    if j == level {
      LevelOrdered(v, i);
      forall a, b | a in Union(v[i]) && b in f.entries ensures a.key.user != b.key.user {
        var g :| g in v[i] && a in g.entries;
        OutOfRange(v[i], f, g, a, b);
      }
    }
  }

  // ----- compactions and trivial moves -----

  /** Everything the inputs hold. */
  ghost function InputEntries(sel: Selection): set<Entry> {
    Union(sel.inputs0) + Union(sel.inputs1)
  }

  function ReplaceEdit(level: nat, sel: Selection, outputs: Level): Edit {
    Edit((set f | f in sel.inputs0 :: (level, f.number)) + (set f | f in sel.inputs1 :: (level + 1, f.number)),
         seq(|outputs|, i requires 0 <= i < |outputs| => (level + 1, outputs[i])))
  }

  /** Selected inputs are to be replaced by files, in the next level, that hold some of their entries. */
  ghost predicate CanReplace(v: Version, level: nat, sel: Selection, outputs: Level) {
    Replaceable(v, level, sel, outputs) == Yes
  }

  /** CanReplace as a value: the version and the selection are in order, and the outputs are made of its entries. */
  ghost function Replaceable(v: Version, level: nat, sel: Selection, outputs: Level): Verdict {
    if VersionOk(v) && UniqueNumbers(v) && level + 1 < NUM_LEVELS && Selected(level, v, sel)
       && Disjoint(outputs) && Numbered(outputs) && Foreign(v[level + 1], outputs)
       && Union(outputs) <= InputEntries(sel)
    then Yes else No
  }

  ghost function Replaced(v: Version, level: nat, sel: Selection, outputs: Level): Version {
    Applied(v, ReplaceEdit(level, sel, outputs))
  }

  lemma {:induction false} AddedOutputs(level: nat, sel: Selection, outputs: Level, n: nat, l: nat)
    requires n <= |outputs|
    ensures AddedAt(ReplaceEdit(level, sel, outputs).added[..n], l) == if l == level + 1 then outputs[..n] else []
  {
    var added := ReplaceEdit(level, sel, outputs).added;
    if n > 0 {
      AddedOutputs(level, sel, outputs, n - 1, l);
      assert added[..n][..n - 1] == added[..n - 1];
      assert outputs[..n] == outputs[..n - 1] + [outputs[n - 1]];
    }
  }

  lemma {:induction false} EditParts(level: nat, sel: Selection, outputs: Level, l: nat)
    ensures AddedAt(ReplaceEdit(level, sel, outputs).added, l) == if l == level + 1 then outputs else []
    ensures DeletedAt(ReplaceEdit(level, sel, outputs), l) ==
            (if l == level then Numbers(sel.inputs0) else {}) + (if l == level + 1 then Numbers(sel.inputs1) else {})
  {
    var edit := ReplaceEdit(level, sel, outputs);
    AddedOutputs(level, sel, outputs, |outputs|, l);
    assert edit.added[..|outputs|] == edit.added && outputs[..|outputs|] == outputs;
    forall n ensures n in DeletedAt(edit, l) <==>
                       (l == level && n in Numbers(sel.inputs0)) || (l == level + 1 && n in Numbers(sel.inputs1)) {
      assert n in DeletedAt(edit, l) <==> (l, n) in edit.deleted;
    }
  }

  lemma {:induction false} InputsAreFiles(v: Version, level: nat, sel: Selection, f: File)
    requires level + 1 < NUM_LEVELS && Selected(level, v, sel)
    ensures f in sel.inputs0 ==> f in v[level]
    ensures f in sel.inputs1 ==> f in v[level + 1]
  {
    ChosenFrom(level, v[level], sel.inputs0);
    OverlappingHas(v[level + 1], At(sel.smallest.user), At(sel.largest.user), f);
  }

  lemma {:induction false} NumberIsFile(v: Version, l: nat, files: Level, f: File)
    requires UniqueNumbers(v) && l < NUM_LEVELS && f in v[l] && forall g :: g in files ==> g in v[l]
    ensures f.number in Numbers(files) <==> f in files
  {
    if f.number in Numbers(files) {
      var g :| g in files && g.number == f.number;
      assert Placed(v, l, f) && Placed(v, l, g);
    }
  }

  lemma {:induction false} ReplacedElsewhere(v: Version, level: nat, sel: Selection, outputs: Level, l: nat)
    requires CanReplace(v, level, sel, outputs) && l < NUM_LEVELS && l != level && l != level + 1
    ensures Replaced(v, level, sel, outputs)[l] == v[l]
  {
    EditParts(level, sel, outputs, l);
    UntouchedLevel(v, ReplaceEdit(level, sel, outputs), l);
  }

  lemma {:induction false} ReplacedHere(v: Version, level: nat, sel: Selection, outputs: Level)
    requires CanReplace(v, level, sel, outputs)
    ensures Ordered(Replaced(v, level, sel, outputs)[level])
    ensures forall f :: f in Replaced(v, level, sel, outputs)[level] <==> f in v[level] && f !in sel.inputs0
  {
    EditParts(level, sel, outputs, level);
    EditedLevel(v, ReplaceEdit(level, sel, outputs), level);
    ChosenFrom(level, v[level], sel.inputs0);
    forall f | f in v[level] ensures f.number in Numbers(sel.inputs0) <==> f in sel.inputs0 {
      NumberIsFile(v, level, sel.inputs0, f);
    }
  }

  lemma {:induction false} ReplacedNext(v: Version, level: nat, sel: Selection, outputs: Level)
    requires CanReplace(v, level, sel, outputs)
    ensures Ordered(Replaced(v, level, sel, outputs)[level + 1])
    ensures forall f :: f in Replaced(v, level, sel, outputs)[level + 1] <==>
              (f in v[level + 1] && f !in sel.inputs1) || f in outputs
  {
    forall f | f in sel.inputs1 ensures f in v[level + 1] { InputsAreFiles(v, level, sel, f); }
    NextLevelFiles(v, level, sel, outputs);
  }

  lemma {:induction false} NextLevelFiles(v: Version, level: nat, sel: Selection, outputs: Level)
    requires Shaped(v) && UniqueNumbers(v) && level + 1 < NUM_LEVELS
    requires forall f :: f in sel.inputs1 ==> f in v[level + 1]
    requires Numbered(outputs) && Foreign(v[level + 1], outputs)
    ensures Ordered(Replaced(v, level, sel, outputs)[level + 1])
    ensures forall f :: f in Replaced(v, level, sel, outputs)[level + 1] <==>
              (f in v[level + 1] && f !in sel.inputs1) || f in outputs
  {
    EditParts(level, sel, outputs, level + 1);
    EditedLevel(v, ReplaceEdit(level, sel, outputs), level + 1);
    assert {} + Numbers(sel.inputs1) == Numbers(sel.inputs1);
    forall f | f in v[level + 1] ensures f.number in Numbers(sel.inputs1) <==> f in sel.inputs1 {
      NumberIsFile(v, level + 1, sel.inputs1, f);
    }
  }

  // ----- the outputs fit between the files left at their level -----

  /** A file left at the output level lies on one side of all that the inputs hold. */
  lemma {:induction false} OneSide(v: Version, level: nat, sel: Selection, g: File)
    requires Shaped(v) && level + 1 < NUM_LEVELS && Selected(level, v, sel) && g in v[level + 1] && g !in sel.inputs1
    ensures || (forall e :: e in InputEntries(sel) ==> Before(g.largest, e.key))
            || (forall e :: e in InputEntries(sel) ==> Before(e.key, g.smallest))
  {
    OverlappingHas(v[level + 1], At(sel.smallest.user), At(sel.largest.user), g);
    if g.largest.user < sel.smallest.user {
      forall e | e in InputEntries(sel) ensures Before(g.largest, e.key) {
        AfterLeftFile(v, level, sel, g, e);
      }
    } else {
      forall e | e in InputEntries(sel) ensures Before(e.key, g.smallest) {
        BeforeRightFile(v, level, sel, g, e);
      }
    }
  }

  lemma {:induction false} AfterLeftFile(v: Version, level: nat, sel: Selection, g: File, e: Entry)
    requires Shaped(v) && level + 1 < NUM_LEVELS && Selected(level, v, sel) && g in v[level + 1]
    requires g.largest.user < sel.smallest.user && e in InputEntries(sel)
    ensures Before(g.largest, e.key)
  {
    LevelOrdered(v, level);
    var h :| (h in sel.inputs0 || h in sel.inputs1) && e in h.entries;
    InputsAreFiles(v, level, sel, h);
    EntryInRange(h, e);
    if h in sel.inputs0 {
      HullHas(sel.inputs0, sel.smallest, sel.largest, h);
    } else {
      OverlappingHas(v[level + 1], At(sel.smallest.user), At(sel.largest.user), h);
      EntryInRange(g, g.entries[0]);
      ClearIn(v[level + 1], g, h);
    }
  }

  lemma {:induction false} BeforeRightFile(v: Version, level: nat, sel: Selection, g: File, e: Entry)
    requires Shaped(v) && level + 1 < NUM_LEVELS && Selected(level, v, sel) && g in v[level + 1]
    requires sel.largest.user < g.smallest.user && e in InputEntries(sel)
    ensures Before(e.key, g.smallest)
  {
    LevelOrdered(v, level);
    var h :| (h in sel.inputs0 || h in sel.inputs1) && e in h.entries;
    InputsAreFiles(v, level, sel, h);
    EntryInRange(h, e);
    if h in sel.inputs0 {
      HullHas(sel.inputs0, sel.smallest, sel.largest, h);
    } else {
      OverlappingHas(v[level + 1], At(sel.smallest.user), At(sel.largest.user), h);
      EntryInRange(g, g.entries[0]);
      ClearIn(v[level + 1], g, h);
    }
  }

  lemma {:induction false} OutputClear(v: Version, level: nat, sel: Selection, outputs: Level, o: File, g: File)
    requires CanReplace(v, level, sel, outputs) && o in outputs && g in v[level + 1] && g !in sel.inputs1
    ensures Clear(o, g)
  {
    OneSide(v, level, sel, g);
    var first, last := o.entries[0], o.entries[|o.entries| - 1];
    assert first in o.entries && last in o.entries;
    assert first in Union(outputs) && last in Union(outputs);
  }

  lemma {:induction false} PairIsClear(v: Version, level: nat, sel: Selection, outputs: Level, f: File, g: File)
    requires CanReplace(v, level, sel, outputs) && f != g
    requires (f in v[level + 1] && f !in sel.inputs1) || f in outputs
    requires (g in v[level + 1] && g !in sel.inputs1) || g in outputs
    ensures Clear(f, g)
  {
    if f in outputs {
      if g in outputs { ClearIn(outputs, f, g); } else { OutputClear(v, level, sel, outputs, f, g); }
    } else {
      if g in outputs { OutputClear(v, level, sel, outputs, g, f); } else { ClearIn(v[level + 1], f, g); }
    }
  }

  lemma {:induction false} ReplacedDisjoint(v: Version, level: nat, sel: Selection, outputs: Level)
    requires CanReplace(v, level, sel, outputs)
    ensures Disjoint(Replaced(v, level, sel, outputs)[level + 1])
  {
    var files := Replaced(v, level, sel, outputs)[level + 1];
    ReplacedNext(v, level, sel, outputs);
    forall i | 0 <= i < |files| ensures files[i].Ok() {
      assert files[i] in files;
      OkIn(if files[i] in outputs then outputs else v[level + 1], files[i]);
    }
    forall f, g | f in files && g in files && f != g ensures Clear(f, g) {
      PairIsClear(v, level, sel, outputs, f, g);
    }
    DisjointFrom(files);
  }

  lemma {:induction false} FewerFiles(files: Level, fewer: Level)
    requires FilesOk(files) && Ordered(fewer) && forall f :: f in fewer ==> f in files
    ensures FilesOk(fewer)
    ensures Disjoint(files) ==> Disjoint(fewer)
    ensures Numbered(files) ==> Numbered(fewer)
    ensures NewestByNumber(files) ==> NewestByNumber(fewer)
  {
    forall i | 0 <= i < |fewer| ensures fewer[i].Ok() {
      assert fewer[i] in files;
    }
    if Disjoint(files) {
      forall f, g | f in fewer && g in fewer && f != g ensures Clear(f, g) {
        ClearIn(files, f, g);
      }
      DisjointFrom(fewer);
    }
    if Numbered(files) {
      forall i, j | 0 <= i < j < |fewer| ensures fewer[i].number != fewer[j].number {
        assert Less(fewer[i], fewer[j]) && fewer[i] in files && fewer[j] in files;
      }
    }
  }

  lemma {:induction false} ReplacedShaped(v: Version, level: nat, sel: Selection, outputs: Level)
    requires CanReplace(v, level, sel, outputs)
    ensures Shaped(Replaced(v, level, sel, outputs)) && NewestByNumber(Replaced(v, level, sel, outputs)[0])
  {
    var v' := Replaced(v, level, sel, outputs);
    ReplacedHere(v, level, sel, outputs);
    ReplacedDisjoint(v, level, sel, outputs);
    LevelOrdered(v, level);
    FewerFiles(v[level], v'[level]);
    forall l | 0 <= l < NUM_LEVELS && l != level && l != level + 1 ensures v'[l] == v[l] {
      ReplacedElsewhere(v, level, sel, outputs, l);
    }
  }

  // ----- what is read stays layered -----

  /** The entries of the files that stay. */
  ghost function Others(v: Version, level: nat, sel: Selection): set<Entry> {
    set l, f, e | 0 <= l < NUM_LEVELS && f in v[l] && Stays(level, sel, l, f) && e in f.entries :: e
  }

  predicate Stays(level: nat, sel: Selection, l: nat, f: File) {
    !(l == level && f in sel.inputs0) && !(l == level + 1 && f in sel.inputs1)
  }

  lemma {:induction false} SplitBefore(v: Version, level: nat, sel: Selection)
    requires level + 1 < NUM_LEVELS && Selected(level, v, sel)
    ensures Deep(v, 0) == Others(v, level, sel) + InputEntries(sel)
  {
    forall e ensures e in Deep(v, 0) <==> e in Others(v, level, sel) + InputEntries(sel) {
      if e in Deep(v, 0) {
        var l, f :| 0 <= l < NUM_LEVELS && f in v[l] && e in f.entries;
        assert Stays(level, sel, l, f) || f in sel.inputs0 || f in sel.inputs1;
      } else if e in InputEntries(sel) {
        var f :| (f in sel.inputs0 || f in sel.inputs1) && e in f.entries;
        InputsAreFiles(v, level, sel, f);
        InDeep(v, if f in sel.inputs0 then level else level + 1, f, e);
      } else if e in Others(v, level, sel) {
        var l, f :| 0 <= l < NUM_LEVELS && f in v[l] && Stays(level, sel, l, f) && e in f.entries;
        InDeep(v, l, f, e);
      }
    }
  }

  lemma {:induction false} FileAfter(v: Version, level: nat, sel: Selection, outputs: Level, l: nat, f: File)
    requires CanReplace(v, level, sel, outputs) && l < NUM_LEVELS
    ensures f in Replaced(v, level, sel, outputs)[l] <==>
            (f in v[l] && Stays(level, sel, l, f)) || (l == level + 1 && f in outputs)
  {
    if l == level {
      ReplacedHere(v, level, sel, outputs);
    } else if l == level + 1 {
      ReplacedNext(v, level, sel, outputs);
    } else {
      ReplacedElsewhere(v, level, sel, outputs, l);
    }
  }

  lemma {:induction false} SplitAfter(v: Version, level: nat, sel: Selection, outputs: Level)
    requires CanReplace(v, level, sel, outputs)
    ensures Deep(Replaced(v, level, sel, outputs), 0) == Others(v, level, sel) + Union(outputs)
  {
    var v' := Replaced(v, level, sel, outputs);
    forall e | e in Deep(v', 0) ensures e in Others(v, level, sel) + Union(outputs) {
      var l, f :| 0 <= l < NUM_LEVELS && f in v'[l] && e in f.entries;
      FileAfter(v, level, sel, outputs, l, f);
    }
    forall e | e in Others(v, level, sel) ensures e in Deep(v', 0) {
      var l, f :| 0 <= l < NUM_LEVELS && f in v[l] && Stays(level, sel, l, f) && e in f.entries;
      FileAfter(v, level, sel, outputs, l, f);
      InDeep(v', l, f, e);
    }
    forall e | e in Union(outputs) ensures e in Deep(v', 0) {
      var f :| f in outputs && e in f.entries;
      FileAfter(v, level, sel, outputs, level + 1, f);
      InDeep(v', level + 1, f, e);
    }
  }

  /** Where an entry of the new version was before: at its level, or at the compacted level among the inputs. */
  lemma {:induction false} WasAt(v: Version, level: nat, sel: Selection, outputs: Level, l: nat, e: Entry)
    returns (k: nat)
    requires CanReplace(v, level, sel, outputs) && l < NUM_LEVELS && e in Union(Replaced(v, level, sel, outputs)[l])
    ensures k < NUM_LEVELS && e in Union(v[k]) && (k == l || (l == level + 1 && k == level && e in Union(sel.inputs0)))
    ensures l == level ==> exists g :: g in v[level] && g !in sel.inputs0 && e in g.entries
  {
    var f :| f in Replaced(v, level, sel, outputs)[l] && e in f.entries;
    FileAfter(v, level, sel, outputs, l, f);
    k := l;
    if f in v[l] && Stays(level, sel, l, f) {
      InDeep(v, l, f, e);
    } else {
      assert e in Union(outputs);
      var h :| (h in sel.inputs0 || h in sel.inputs1) && e in h.entries;
      InputsAreFiles(v, level, sel, h);
      k := if h in sel.inputs0 then level else level + 1;
      InDeep(v, k, h, e);
    }
  }

  lemma {:induction false} LeftIsNewer(v: Version, level: nat, sel: Selection, g: File, a: Entry, b: Entry)
    requires VersionOk(v) && level + 1 < NUM_LEVELS && Selected(level, v, sel)
    requires g in v[level] && g !in sel.inputs0 && a in g.entries && b in Union(sel.inputs0) && a.key.user == b.key.user
    ensures a.key.sequence > b.key.sequence
  {
    var f :| f in sel.inputs0 && b in f.entries;
    LevelOrdered(v, level);
    SubsetDistinct(Deep(v, 0), Union(v[level]));
    CleanLeavesNewer(level, v[level], sel.inputs0, f, g);
    assert a in Set(g.entries) && b in Set(f.entries);
  }

  lemma {:induction false} StillNewer(v: Version, level: nat, sel: Selection, outputs: Level, i: nat, j: nat)
    requires CanReplace(v, level, sel, outputs) && i < j < NUM_LEVELS
    ensures NewerLevel(Replaced(v, level, sel, outputs), i, j)
  {
    var v' := Replaced(v, level, sel, outputs);
    forall a, b | a in Union(v'[i]) && b in Union(v'[j]) && a.key.user == b.key.user
      ensures a.key.sequence > b.key.sequence
    {
      var k := WasAt(v, level, sel, outputs, i, a);
      var l := WasAt(v, level, sel, outputs, j, b);
      if k < l {
        assert NewerLevel(v, k, l);
      } else {
        var g :| g in v[level] && g !in sel.inputs0 && a in g.entries;
        LeftIsNewer(v, level, sel, g, a, b);
      }
    }
  }

  /** A compaction keeps the version in order: what it replaces changes level, but never hops over newer entries. */
  lemma {:induction false} ReplacedOk(v: Version, level: nat, sel: Selection, outputs: Level)
    requires CanReplace(v, level, sel, outputs)
    ensures VersionOk(Replaced(v, level, sel, outputs))
  {
    var v' := Replaced(v, level, sel, outputs);
    ReplacedShaped(v, level, sel, outputs);
    SplitBefore(v, level, sel);
    SplitAfter(v, level, sel, outputs);
    forall i, j | 0 <= i < j < NUM_LEVELS ensures NewerLevel(v', i, j) {
      StillNewer(v, level, sel, outputs, i, j);
    }
    SubsetDistinct(Deep(v, 0), Deep(v', 0));
  }

  lemma {:induction false} SubsetDistinct(E: set<Entry>, F: set<Entry>)
    requires Distinct(E) && F <= E
    ensures Distinct(F)
  {
  }
}
