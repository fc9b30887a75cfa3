/** Reading one key: memtable, then immutable memtable, then level by level (db_impl, memtable, version_set). */
module Lookup {
  import opened Keys
  import opened Cursors
  import opened Reads
  import opened Versions

  /** What one source says: nothing at all about the key, or the final answer. */
  datatype Saved = Missing | Done(answer: Answer)

  ghost predicate Says(E: set<Entry>, user: UserKey, snapshot: Sequence, r: Saved) {
    && (r.Missing? <==> Blank(E, user, snapshot))
    && (r.Done? ==> r.answer == ReadAt(E, user, snapshot))
  }

  /** MemTable::Get, and InternalGet with SaveValue on a table: seek, then match the user key. */
  method GetFromRun(run: seq<Entry>, user: UserKey, snapshot: Sequence) returns (r: Saved)
    requires Sorted(run) && Distinct(Set(run))
    ensures Says(Set(run), user, snapshot, r)
  {
    var iter := new Cursor(run);
    iter.Seek(SeekKey(user, snapshot));
    SeekFindsNewest(run, user, snapshot, iter.pos);
    r := Missing;
    if iter.Valid() && iter.Key().user == user {
      ReadNewest(Set(run), user, snapshot, run[iter.pos]);
      r := Done(AnswerOf(run[iter.pos]));
    }
  }

  // ----- level 0: every file whose range has the key, newest first -----

  function Candidates(files: Level, user: UserKey): Level {
    if files == [] then []
    else (if Covers(files[0], user) then [files[0]] else []) + Candidates(files[1..], user)
  }

  ghost predicate NewestFirst(files: Level) {
    forall i, j :: 0 <= i < j < |files| ==> files[i].number > files[j].number
  }

  function Insert(f: File, files: Level): Level {
    if files == [] || f.number > files[0].number then [f] + files else [files[0]] + Insert(f, files[1..])
  }

  function SortNewestFirst(files: Level): Level {
    if files == [] then [] else Insert(files[0], SortNewestFirst(files[1..]))
  }

  lemma {:induction false} InsertKeeps(f: File, files: Level)
    requires NewestFirst(files) && forall i :: 0 <= i < |files| ==> files[i].number != f.number
    ensures NewestFirst(Insert(f, files)) && (forall g :: g in Insert(f, files) <==> g == f || g in files)
  {
    if files != [] && f.number < files[0].number {
      InsertKeeps(f, files[1..]);
      assert files == [files[0]] + files[1..];
      forall j | 0 < j < |Insert(f, files)| ensures files[0].number > Insert(f, files)[j].number {
        assert Insert(f, files)[j] in Insert(f, files[1..]);
      }
    }
  }

  lemma {:induction false} SortedNewestFirst(files: Level)
    requires Numbered(files)
    ensures NewestFirst(SortNewestFirst(files)) && (forall g :: g in SortNewestFirst(files) <==> g in files)
  {
    if files != [] {
      SortedNewestFirst(files[1..]);
      forall i | 0 <= i < |SortNewestFirst(files[1..])|
        ensures SortNewestFirst(files[1..])[i].number != files[0].number
      {
        assert SortNewestFirst(files[1..])[i] in files[1..];
      }
      InsertKeeps(files[0], SortNewestFirst(files[1..]));
      assert files == [files[0]] + files[1..];
    }
  }

  lemma {:induction false} CandidatesAre(files: Level, user: UserKey)
    requires Numbered(files)
    ensures Numbered(Candidates(files, user))
    ensures forall f :: f in Candidates(files, user) <==> f in files && Covers(f, user)
  {
    if files != [] {
      CandidatesAre(files[1..], user);
      assert files == [files[0]] + files[1..];
      forall j | 0 <= j < |Candidates(files[1..], user)|
        ensures Candidates(files[1..], user)[j].number != files[0].number
      {
        assert Candidates(files[1..], user)[j] in files[1..];
      }
    }
  }

  /** Files of level 0 that do not cover the key do not matter, and neither does the order they are kept in. */
  lemma {:induction false} SameCandidates(files: Level, chosen: Level, user: UserKey, snapshot: Sequence)
    requires FilesOk(files) && Distinct(Union(files))
    requires forall f :: f in chosen <==> f in files && Covers(f, user)
    ensures Blank(Union(files), user, snapshot) <==> Blank(Union(chosen), user, snapshot)
    ensures ReadAt(Union(files), user, snapshot) == ReadAt(Union(chosen), user, snapshot)
  {
    forall e ensures e in Union(files) && Sees(e, user, snapshot) <==> e in Union(chosen) && Sees(e, user, snapshot) {
      if f :| e in Union(files) && Sees(e, user, snapshot) && f in files && e in f.entries {
        EntryInRange(f, e);
        assert f in chosen;
      }
    }
    assert forall e :: Newest(Union(files), user, snapshot, e) <==> Newest(Union(chosen), user, snapshot, e);
  }

  /** The files to search at level 0, in the order to search them. */
  method PickCandidates(files: Level, user: UserKey) returns (chosen: Level)
    requires Numbered(files)
    ensures NewestFirst(chosen) && forall f :: f in chosen <==> f in files && Covers(f, user)
  {
    chosen := [];
    for i := 0 to |files|
      invariant chosen == Candidates(files[..i], user)
    {
      CandidatesSnoc(files[..i], files[i], user);
      assert files[..i + 1] == files[..i] + [files[i]];
      if files[i].smallest.user <= user && user <= files[i].largest.user {
        chosen := chosen + [files[i]];
      }
    }
    assert files[..|files|] == files;
    CandidatesAre(files, user);
    SortedNewestFirst(chosen);
    chosen := SortNewestFirst(chosen);
  }

  method GetFromLevel0(files: Level, user: UserKey, snapshot: Sequence) returns (r: Saved)
    requires FilesOk(files) && Numbered(files) && NewestByNumber(files) && Distinct(Union(files))
    ensures Says(Union(files), user, snapshot, r)
  {
    var chosen := PickCandidates(files, user);
    SomeFiles(files, chosen);
    SameCandidates(files, chosen, user, snapshot);
    r := GetFirst(chosen, user, snapshot);
  }

  lemma {:induction false} SomeFiles(files: Level, chosen: Level)
    requires FilesOk(files) && NewestByNumber(files) && Distinct(Union(files)) && forall f :: f in chosen ==> f in files
    ensures FilesOk(chosen) && NewestByNumber(chosen) && Distinct(Union(chosen))
  {
    assert forall e :: e in Union(chosen) ==> e in Union(files);
    forall i | 0 <= i < |chosen| ensures chosen[i].Ok() {
      assert chosen[i] in files;
    }
  }

  lemma {:induction false} CandidatesSnoc(files: Level, f: File, user: UserKey)
    ensures Candidates(files + [f], user) == Candidates(files, user) + if Covers(f, user) then [f] else []
  {
    if files != [] {
      CandidatesSnoc(files[1..], f, user);
      assert (files + [f])[1..] == files[1..] + [f];
    }
  }

  lemma {:induction false} UnionSplits(files: Level, i: nat)
    requires i < |files|
    ensures Union(files[i..]) == Set(files[i].entries) + Union(files[i + 1..])
  {
    assert files[i..] == [files[i]] + files[i + 1..];
  }

  /** Both say the same about the key. */
  ghost predicate Alike(A: set<Entry>, B: set<Entry>, user: UserKey, snapshot: Sequence) {
    && (Blank(A, user, snapshot) <==> Blank(B, user, snapshot))
    && ReadAt(A, user, snapshot) == ReadAt(B, user, snapshot)
  }

  /** Searches files in order until one has something to say. */
  method GetFirst(files: Level, user: UserKey, snapshot: Sequence) returns (r: Saved)
    requires FilesOk(files) && NewestFirst(files) && NewestByNumber(files) && Distinct(Union(files))
    ensures Says(Union(files), user, snapshot, r)
  {
    var i := 0;
    r := Missing;
    assert files[0..] == files;
    while i < |files| && r.Missing?
      invariant 0 <= i <= |files|
      invariant r.Missing? ==> Alike(Union(files), Union(files[i..]), user, snapshot)
      invariant r.Done? ==> Says(Union(files), user, snapshot, r)
    {
      FirstIsNewest(files, i);
      r := GetFromRun(files[i].entries, user, snapshot);
      SearchStep(Set(files[i].entries), Union(files[i + 1..]), user, snapshot, r);
      i := i + 1;
    }
  }

  /** A layer on top of another one: whatever it says holds for both, and when it says nothing look below. */
  lemma {:induction false} SearchStep(A: set<Entry>, B: set<Entry>, user: UserKey, snapshot: Sequence, r: Saved)
    requires Distinct(A + B) && NewerThan(A, B) && Says(A, user, snapshot, r)
    ensures r.Done? ==> Says(A + B, user, snapshot, r)
    ensures r.Missing? ==> Alike(A + B, B, user, snapshot)
  {
    ReadLayered(A, B, user, snapshot);
    assert Blank(A + B, user, snapshot) <==> Blank(A, user, snapshot) && Blank(B, user, snapshot);
  }

  lemma {:induction false} FirstIsNewest(files: Level, i: nat)
    requires NewestFirst(files) && NewestByNumber(files) && Distinct(Union(files)) && i < |files|
    ensures NewerThan(Set(files[i].entries), Union(files[i + 1..]))
    ensures Union(files[i..]) == Set(files[i].entries) + Union(files[i + 1..])
    ensures Distinct(Set(files[i].entries)) && Distinct(Set(files[i].entries) + Union(files[i + 1..]))
  {
    UnionSplits(files, i);
    assert forall e :: e in Union(files[i..]) ==> e in Union(files);
    forall a, b | a in files[i].entries && b in Union(files[i + 1..]) && a.key.user == b.key.user
      ensures a.key.sequence > b.key.sequence
    {
      var g :| g in files[i + 1..] && b in g.entries;
      assert NewerFile(files[i], g);
    }
  }

  // ----- deeper levels: at most one file -----

  /** What FindFile skips cannot be seen; what comes after its file is older, or about a later user key. */
  lemma {:induction false} OneFileIsEnough(files: Level, user: UserKey, snapshot: Sequence, index: nat, g: File,
                                           e: Entry)
    requires Disjoint(files) && FirstNotBefore(files, SeekKey(user, snapshot), index)
    requires g in files && e in g.entries && Sees(e, user, snapshot)
    ensures index < |files| && files[index].smallest.user <= user
    ensures g == files[index] ||
            exists d :: d in files[index].entries && Sees(d, user, snapshot) &&
                Before(d.key, e.key)
  {
    var j :| 0 <= j < |files| && files[j] == g;
    EntryInRange(g, e);
    assert index <= j;
    if index < j {
      var f := files[index];
      var last := f.entries[|f.entries| - 1];
      assert Before(last.key, e.key) && last in f.entries;
      assert Sees(last, user, snapshot);
      EntryInRange(f, last);
    }
  }

  lemma {:induction false} LevelIsFile(files: Level, user: UserKey, snapshot: Sequence, index: nat)
    requires Disjoint(files) && Distinct(Union(files)) && FirstNotBefore(files, SeekKey(user, snapshot), index)
    ensures index < |files| && files[index].smallest.user <= user ==>
              Distinct(Set(files[index].entries)) && Alike(Union(files), Set(files[index].entries), user, snapshot)
    ensures !(index < |files| && files[index].smallest.user <= user) ==> Blank(Union(files), user, snapshot)
  {
    if index < |files| && files[index].smallest.user <= user {
      var E := Set(files[index].entries);
      assert forall e :: e in E ==> files[index] in files && e in Union(files);
      NewestExists(E, user, snapshot);
      if Blank(E, user, snapshot) {
        BlankWithoutFile(files, user, snapshot, index);
      } else {
        var e :| Newest(E, user, snapshot, e);
        NewestInFile(files, user, snapshot, index, e);
        ReadNewest(E, user, snapshot, e);
        ReadNewest(Union(files), user, snapshot, e);
      }
    } else {
      BlankWithoutFile(files, user, snapshot, index);
    }
  }

  lemma {:induction false} BlankWithoutFile(files: Level, user: UserKey, snapshot: Sequence, index: nat)
    requires Disjoint(files) && FirstNotBefore(files, SeekKey(user, snapshot), index)
    requires index < |files| && files[index].smallest.user <= user ==> Blank(Set(files[index].entries), user, snapshot)
    ensures Blank(Union(files), user, snapshot)
  {
    forall e | e in Union(files) ensures !Sees(e, user, snapshot) {
      var g :| g in files && e in g.entries;
      if Sees(e, user, snapshot) {
        OneFileIsEnough(files, user, snapshot, index, g, e);
      }
    }
  }

  lemma {:induction false} NewestInFile(files: Level, user: UserKey, snapshot: Sequence, index: nat, e: Entry)
    requires Disjoint(files) && FirstNotBefore(files, SeekKey(user, snapshot), index)
    requires index < |files| && Newest(Set(files[index].entries), user, snapshot, e)
    ensures Newest(Union(files), user, snapshot, e)
  {
    assert files[index] in files;
    forall f | f in Union(files) && Sees(f, user, snapshot) ensures f.key.sequence <= e.key.sequence {
      var g :| g in files && f in g.entries;
      OneFileIsEnough(files, user, snapshot, index, g, f);
      if g != files[index] {
        var d :| d in files[index].entries && Sees(d, user, snapshot) && Before(d.key, f.key);
        assert d in Set(files[index].entries);
      } else {
        assert f in Set(files[index].entries);
      }
    }
  }

  method GetFromLevel(files: Level, user: UserKey, snapshot: Sequence) returns (r: Saved)
    requires Disjoint(files) && Distinct(Union(files))
    ensures Says(Union(files), user, snapshot, r)
  {
    var index := FindFile(files, SeekKey(user, snapshot));
    r := Missing;
    LevelIsFile(files, user, snapshot, index);
    if index < |files| && files[index].smallest.user <= user {
      r := GetFromRun(files[index].entries, user, snapshot);
    }
  }

  // ----- all levels -----

  lemma {:induction false} DeepSplits(v: Version, level: nat)
    requires VersionOk(v) && level < NUM_LEVELS
    ensures Deep(v, level) == Union(v[level]) + Deep(v, level + 1)
    ensures NewerThan(Union(v[level]), Deep(v, level + 1))
    ensures Distinct(Union(v[level])) && Distinct(Union(v[level]) + Deep(v, level + 1))
  {
    assert forall e :: e in Deep(v, level) ==> e in Deep(v, 0);
    forall a, b | a in Union(v[level]) && b in Deep(v, level + 1) && a.key.user == b.key.user
      ensures a.key.sequence > b.key.sequence
    {
      var k :| level < k < NUM_LEVELS && b in Union(v[k]);
      assert NewerLevel(v, level, k);
    }
  }

  method GetAtLevel(v: Version, level: nat, user: UserKey, snapshot: Sequence) returns (r: Saved)
    requires VersionOk(v) && level < NUM_LEVELS
    ensures r.Done? ==> Says(Deep(v, level), user, snapshot, r)
    ensures r.Missing? ==> Alike(Deep(v, level), Deep(v, level + 1), user, snapshot)
  {
    DeepSplits(v, level);
    if level == 0 {
      r := GetFromLevel0(v[0], user, snapshot);
    } else {
      r := GetFromLevel(v[level], user, snapshot);
    }
    SearchStep(Union(v[level]), Deep(v, level + 1), user, snapshot, r);
  }

  /** Version::Get: later levels are irrelevant once a smaller one has the key. */
  method GetFromVersion(v: Version, user: UserKey, snapshot: Sequence) returns (r: Saved)
    requires VersionOk(v)
    ensures Says(Deep(v, 0), user, snapshot, r)
  {
    var level := 0;
    r := Missing;
    while level < NUM_LEVELS && r.Missing?
      invariant 0 <= level <= NUM_LEVELS
      invariant r.Missing? ==> Alike(Deep(v, 0), Deep(v, level), user, snapshot)
      invariant r.Done? ==> Says(Deep(v, 0), user, snapshot, r)
    {
      r := GetAtLevel(v, level, user, snapshot);
      AlikeTrans(Deep(v, 0), Deep(v, level), Deep(v, level + 1), user, snapshot, r);
      level := level + 1;
    }
  }

  lemma {:induction false} AlikeTrans(A: set<Entry>, B: set<Entry>, C: set<Entry>, user: UserKey, snapshot: Sequence,
                                      r: Saved)
    requires Alike(A, B, user, snapshot)
    ensures r.Done? && Says(B, user, snapshot, r) ==> Says(A, user, snapshot, r)
    ensures Alike(B, C, user, snapshot) ==> Alike(A, C, user, snapshot)
  {
  }

  // ----- the whole store -----

  /** What the store consists of: a memtable, possibly one being flushed, and the current version. */
  datatype Db = Db(mem: seq<Entry>, imm: seq<Entry>, version: Version) {
    ghost function Tables(): set<Entry> {
      Deep(version, 0)
    }

    ghost function All(): set<Entry> {
      Set(mem) + (Set(imm) + Tables())
    }

    ghost predicate Ok() {
      && Sorted(mem) && Sorted(imm) && VersionOk(version)
      && NewerThan(Set(mem), Set(imm) + Tables()) && NewerThan(Set(imm), Tables())
      && Distinct(All())
    }
  }

  /** DBImpl::Get finds the newest entry visible at the snapshot among all entries of the store. */
  method Get(db: Db, user: UserKey, snapshot: Sequence) returns (r: Answer)
    requires db.Ok()
    ensures r == ReadAt(db.All(), user, snapshot)
  {
    ghost var below := Set(db.imm) + db.Tables();
    DbDistinct(db);
    var saved := GetFromRun(db.mem, user, snapshot);
    SearchStep(Set(db.mem), below, user, snapshot, saved);
    if saved.Missing? {
      saved := GetFromRun(db.imm, user, snapshot);
      SearchStep(Set(db.imm), db.Tables(), user, snapshot, saved);
    }
    if saved.Missing? {
      saved := GetFromVersion(db.version, user, snapshot);
    }
    r := if saved.Missing? then NotFound else saved.answer;
  }

  lemma {:induction false} DbDistinct(db: Db)
    requires db.Ok()
    ensures Distinct(Set(db.mem)) && Distinct(Set(db.imm)) && Distinct(Set(db.imm) + db.Tables())
  {
    assert forall e :: e in Set(db.imm) + db.Tables() ==> e in db.All();
    assert forall e :: e in Set(db.mem) ==> e in db.All();
  }
}
