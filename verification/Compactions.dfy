/** Running a compaction (db_impl, version_set): which merged entries are dropped, why no live snapshot can tell, and
    exactly when one could; and the loop that writes the rest. */
module Compactions {
  import opened Keys
  import opened Cursors
  import opened Merging
  import opened Reads
  import opened Versions
  import opened Inputs
  import opened Cuts

  // ----- what is dropped -----

  /** What decides about dropping: the oldest live snapshot, and the user keys with no data further down. */
  datatype Policy = Policy(smallestSnapshot: Sequence, base: iset<UserKey>)

  /** last_sequence_for_key on reaching entry i: that of the entry before it, if of the same user key. */
  function LastSequence(s: seq<Entry>, i: nat): Sequence
    requires i < |s|
  {
    if i > 0 && s[i - 1].key.user == s[i].key.user then s[i - 1].key.sequence else MAX_SEQUENCE
  }

  predicate Hidden(s: seq<Entry>, p: Policy, i: nat)
    requires i < |s|
  {
    LastSequence(s, i) <= p.smallestSnapshot
  }

  ghost predicate Obsolete(e: Entry, p: Policy) {
    e.key.kind.Deletion? && e.key.sequence <= p.smallestSnapshot && e.key.user in p.base
  }

  ghost predicate Drops(s: seq<Entry>, p: Policy, i: nat)
    requires i < |s|
  {
    Hidden(s, p, i) || Obsolete(s[i], p)
  }

  lemma {:induction false} HiddenMeans(s: seq<Entry>, p: Policy, i: nat)
    requires Sorted(s) && i < |s| && p.smallestSnapshot < MAX_SEQUENCE
    ensures Hidden(s, p, i) <==>
            exists j :: 0 <= j < i && s[j].key.user == s[i].key.user && s[j].key.sequence <= p.smallestSnapshot
  {
    if j :| 0 <= j < i && s[j].key.user == s[i].key.user && s[j].key.sequence <= p.smallestSnapshot {
      assert Before(s[i - 1].key, s[i].key);
      assert j == i - 1 || Before(s[j].key, s[i - 1].key);
    }
  }

  /** An entry is hidden exactly when it is not the newest one of its user key at any live snapshot. */
  lemma {:induction false} HiddenFromAll(s: seq<Entry>, p: Policy, i: nat)
    requires Sorted(s) && Distinct(Set(s)) && i < |s| && p.smallestSnapshot < MAX_SEQUENCE
    ensures Hidden(s, p, i) <==> forall snapshot: Sequence :: p.smallestSnapshot <= snapshot ==>
              !Newest(Set(s), s[i].key.user, snapshot, s[i])
  {
    var e := s[i];
    HiddenMeans(s, p, i);
    if Hidden(s, p, i) {
      var j :| 0 <= j < i && s[j].key.user == e.key.user && s[j].key.sequence <= p.smallestSnapshot;
      OlderInRun(s, j, i);
    } else {
      var snapshot := if e.key.sequence < p.smallestSnapshot then p.smallestSnapshot else e.key.sequence;
      forall f | f in Set(s) && Sees(f, e.key.user, snapshot) ensures f.key.sequence <= e.key.sequence {
        var j :| 0 <= j < |s| && s[j] == f;
        if j < i {
          OlderInRun(s, j, i);
        } else if i < j {
          OlderInRun(s, i, j);
        }
      }
      assert Newest(Set(s), e.key.user, snapshot, e);
    }
  }

  lemma {:induction false} OlderInRun(s: seq<Entry>, i: nat, j: nat)
    requires Sorted(s) && Distinct(Set(s)) && i < j < |s| && s[i].key.user == s[j].key.user
    ensures s[i].key.sequence > s[j].key.sequence && s[i] in Set(s)
  {
    assert s[i] in Set(s) && s[j] in Set(s) && Before(s[i].key, s[j].key);
  }

  /** Dropped are the hidden ones, and deletions that no reader needs and that cover nothing further down. */
  lemma {:induction false} DroppedWhen(s: seq<Entry>, p: Policy, i: nat)
    requires Sorted(s) && Distinct(Set(s)) && i < |s| && p.smallestSnapshot < MAX_SEQUENCE
    ensures Drops(s, p, i) <==>
            || (forall snapshot: Sequence :: p.smallestSnapshot <= snapshot ==>
                  !Newest(Set(s), s[i].key.user, snapshot, s[i]))
            || (s[i].key.kind == Deletion && s[i].key.sequence <= p.smallestSnapshot && s[i].key.user in p.base)
  {
    HiddenFromAll(s, p, i);
  }

  /** The first n entries of s without the dropped ones. */
  ghost function Kept(s: seq<Entry>, p: Policy, n: nat): (r: seq<Entry>)
    requires n <= |s|
  {
    if n == 0 then [] else Kept(s, p, n - 1) + if Drops(s, p, n - 1) then [] else [s[n - 1]]
  }

  lemma {:induction false} KeptHas(s: seq<Entry>, p: Policy, n: nat, e: Entry)
    requires n <= |s|
    ensures e in Kept(s, p, n) <==> exists i :: 0 <= i < n && s[i] == e && !Drops(s, p, i)
  {
    if n > 0 {
      KeptHas(s, p, n - 1, e);
    }
  }

  lemma {:induction false} KeptSorted(s: seq<Entry>, p: Policy, n: nat)
    requires n <= |s| && Sorted(s)
    ensures Sorted(Kept(s, p, n))
  {
    if n > 0 {
      KeptSorted(s, p, n - 1);
      forall e | e in Kept(s, p, n - 1) ensures Before(e.key, s[n - 1].key) {
        KeptHas(s, p, n - 1, e);
      }
    }
  }

  // ----- reads -----

  /** A tombstone that gets dropped although it is what hides an older value outside the inputs. */
  ghost predicate Exposes(rest: set<Entry>, s: seq<Entry>, p: Policy, user: UserKey, snapshot: Sequence) {
    exists i :: 0 <= i < |s| && Obsolete(s[i], p) && Newest(rest + Set(s), user, snapshot, s[i])
                && ReadAt(rest, user, snapshot) != NotFound
  }

  /** The newest visible entry is never dropped as hidden. */
  lemma {:induction false} NewestNotHidden(rest: set<Entry>, s: seq<Entry>, p: Policy, user: UserKey,
                                           snapshot: Sequence, i: nat)
    requires Distinct(rest + Set(s)) && Sorted(s) && p.smallestSnapshot < MAX_SEQUENCE
    requires p.smallestSnapshot <= snapshot && i < |s| && Newest(rest + Set(s), user, snapshot, s[i])
    ensures !Hidden(s, p, i)
  {
    if i > 0 && s[i - 1].key.user == s[i].key.user {
      assert s[i - 1] in rest + Set(s) && Before(s[i - 1].key, s[i].key);
    }
  }

  /** Everything in the run behind a dropped tombstone of its user key is dropped as hidden. */
  lemma {:induction false} BehindObsolete(s: seq<Entry>, p: Policy, i: nat, j: nat)
    requires Sorted(s) && i < j < |s| && Obsolete(s[i], p) && s[j].key.user == s[i].key.user
    ensures Hidden(s, p, j)
  {
    assert i < j - 1 ==> Before(s[i].key, s[j - 1].key);
    assert Before(s[j - 1].key, s[j].key);
  }

  lemma {:induction false} NothingElseKept(rest: set<Entry>, s: seq<Entry>, p: Policy, user: UserKey,
                                           snapshot: Sequence, i: nat)
    requires Distinct(rest + Set(s)) && Sorted(s)
    requires i < |s| && Obsolete(s[i], p) && Newest(rest + Set(s), user, snapshot, s[i])
    ensures Blank(Set(Kept(s, p, |s|)), user, snapshot)
  {
    forall e | e in Kept(s, p, |s|) ensures !Sees(e, user, snapshot) {
      KeptHas(s, p, |s|, e);
      var j :| 0 <= j < |s| && s[j] == e && !Drops(s, p, j);
      SeenAreBehind(rest, s, user, snapshot, i, j);
      if i < j && s[j].key.user == s[i].key.user {
        BehindObsolete(s, p, i, j);
      }
    }
  }

  lemma {:induction false} SeenAreBehind(rest: set<Entry>, s: seq<Entry>, user: UserKey, snapshot: Sequence, i: nat,
                                         j: nat)
    requires Distinct(rest + Set(s)) && Sorted(s) && i < |s| && j < |s|
    requires Newest(rest + Set(s), user, snapshot, s[i])
    ensures Sees(s[j], user, snapshot) ==> i <= j && s[j].key.user == s[i].key.user
  {
    assert s[i] in rest + Set(s) && s[j] in rest + Set(s);
    assert j < i ==> Before(s[j].key, s[i].key);
  }

  /** For every user key and every snapshot that is still live, a read of the store gives the same before and
      after, exactly when the compaction does not expose an older value by dropping its tombstone. */
  lemma {:induction false} ReadsPreserved(rest: set<Entry>, s: seq<Entry>, p: Policy, user: UserKey, snapshot: Sequence)
    requires Distinct(rest + Set(s)) && Sorted(s) && p.smallestSnapshot < MAX_SEQUENCE && p.smallestSnapshot <= snapshot
    ensures ReadAt(rest + Set(Kept(s, p, |s|)), user, snapshot) == ReadAt(rest + Set(s), user, snapshot)
            <==> !Exposes(rest, s, p, user, snapshot)
  {
    var all, kept := rest + Set(s), Set(Kept(s, p, |s|));
    forall e | e in kept ensures e in Set(s) { KeptHas(s, p, |s|, e); }
    NewestExists(all, user, snapshot);
    if Blank(all, user, snapshot) {
      assert Blank(rest + kept, user, snapshot);
    } else {
      var d :| Newest(all, user, snapshot, d);
      ReadNewest(all, user, snapshot, d);
      if d in rest + kept {
        assert Newest(rest + kept, user, snapshot, d);
        ReadNewest(rest + kept, user, snapshot, d);
        KeptExposesNothing(rest, s, p, user, snapshot, d);
      } else {
        var i :| 0 <= i < |s| && s[i] == d;
        NewestNotHidden(rest, s, p, user, snapshot, i);
        KeptHas(s, p, |s|, d);
        NothingElseKept(rest, s, p, user, snapshot, i);
        OnlyRest(rest, kept, user, snapshot);
      }
    }
  }

  lemma {:induction false} KeptExposesNothing(rest: set<Entry>, s: seq<Entry>, p: Policy, user: UserKey,
                                              snapshot: Sequence, d: Entry)
    requires Distinct(rest + Set(s)) && Sorted(s)
    requires Newest(rest + Set(s), user, snapshot, d) && d in rest + Set(Kept(s, p, |s|))
    ensures !Exposes(rest, s, p, user, snapshot)
  {
    if i :| 0 <= i < |s| && Obsolete(s[i], p) && Newest(rest + Set(s), user, snapshot, s[i])
            && ReadAt(rest, user, snapshot) != NotFound {
      assert s[i] == d;
      KeptHas(s, p, |s|, d);
      assert forall j :: 0 <= j < |s| && s[j] == d ==>
          j == i || Before(s[i].key, s[j].key) || Before(s[j].key, s[i].key);
      ReadNewest(rest, user, snapshot, d);
      assert false;
    }
  }

  lemma {:induction false} OnlyRest(rest: set<Entry>, kept: set<Entry>, user: UserKey, snapshot: Sequence)
    requires Distinct(rest + kept) && Blank(kept, user, snapshot)
    ensures ReadAt(rest + kept, user, snapshot) == ReadAt(rest, user, snapshot)
  {
    NewestExists(rest, user, snapshot);
    if Blank(rest, user, snapshot) {
      assert Blank(rest + kept, user, snapshot);
    } else {
      var e :| Newest(rest, user, snapshot, e);
      ReadNewest(rest, user, snapshot, e);
      ReadNewest(rest + kept, user, snapshot, e);
    }
  }

  // ----- the base level -----

  /** No file below the output level has the key in its range. */
  ghost predicate BaseLevel(v: Version, level: nat, user: UserKey) {
    forall l, i {:trigger v[l][i]} :: level + 2 <= l < NUM_LEVELS && 0 <= i < |v[l]| ==> !Covers(v[l][i], user)
  }

  ghost function BaseKeys(v: Version, level: nat): iset<UserKey> {
    iset user | BaseLevel(v, level, user)
  }

  ghost predicate PassedOnly(files: Level, n: nat, user: UserKey) {
    n <= |files| && forall i :: 0 <= i < n ==> files[i].largest.user < user
  }

  ghost predicate PassedFrom(v: Version, level: nat, ptrs: seq<nat>, user: UserKey)
    requires |ptrs| == NUM_LEVELS
    decreases NUM_LEVELS - level
  {
    level < NUM_LEVELS ==> PassedOnly(v[level], ptrs[level], user) && PassedFrom(v, level + 1, ptrs, user)
  }

  lemma {:induction false} PassedAt(v: Version, level: nat, ptrs: seq<nat>, user: UserKey, l: nat)
    requires |ptrs| == NUM_LEVELS && level <= l < NUM_LEVELS && PassedFrom(v, level, ptrs, user)
    ensures PassedOnly(v[l], ptrs[l], user)
    decreases NUM_LEVELS - level
  {
    if level < l {
      PassedAt(v, level + 1, ptrs, user, l);
    }
  }

  lemma {:induction false} PassedLater(v: Version, level: nat, ptrs: seq<nat>, user: UserKey, later: UserKey)
    requires |ptrs| == NUM_LEVELS && PassedFrom(v, level, ptrs, user) && user <= later
    ensures PassedFrom(v, level, ptrs, later)
    decreases NUM_LEVELS - level
  {
    if level < NUM_LEVELS {
      PassedLater(v, level + 1, ptrs, user, later);
    }
  }

  lemma {:induction false} PassOne(v: Version, level: nat, ptrs: seq<nat>, user: UserKey, l: nat)
    requires |ptrs| == NUM_LEVELS && l < NUM_LEVELS && PassedFrom(v, level, ptrs, user)
    requires ptrs[l] < |v[l]| && v[l][ptrs[l]].largest.user < user
    ensures PassedFrom(v, level, ptrs[l := ptrs[l] + 1], user)
    decreases NUM_LEVELS - level
  {
    if level < NUM_LEVELS {
      PassOne(v, level + 1, ptrs, user, l);
    }
  }

  lemma {:induction false} PassedNone(v: Version, level: nat, ptrs: seq<nat>, user: UserKey)
    requires |ptrs| == NUM_LEVELS && forall l :: 0 <= l < NUM_LEVELS ==> ptrs[l] == 0
    ensures PassedFrom(v, level, ptrs, user)
    decreases NUM_LEVELS - level
  {
    if level < NUM_LEVELS {
      PassedNone(v, level + 1, ptrs, user);
    }
  }

  /** A running compaction: what it reads from, and the places it has reached in the levels further down. */
  class Compaction {
    const version: Version
    const level: nat
    const grandparents: Level
    const sizes: Sizes
    const levelPtrs: array<nat>
    var grandparentIndex: nat
    var seenKey: bool
    var overlappedBytes: nat

    ghost predicate Ok()
      reads this, levelPtrs
    {
      && Shaped(version) && level + 1 < NUM_LEVELS && levelPtrs.Length == NUM_LEVELS
      && grandparentIndex <= |grandparents| && overlappedBytes <= sizes.MaxGrandParentOverlapBytes()
    }

    /** Pointers have only passed files that end before the user key. */
    ghost predicate Behind(user: UserKey)
      requires levelPtrs.Length == NUM_LEVELS
      reads this, levelPtrs
    {
      PassedFrom(version, level + 2, levelPtrs[..], user)
    }

    constructor (version: Version, level: nat, grandparents: Level, sizes: Sizes)
      requires Shaped(version) && level + 1 < NUM_LEVELS
      ensures Ok() && fresh(levelPtrs) && (forall user :: Behind(user))
      ensures this.version == version && this.level == level && this.grandparents == grandparents && this.sizes == sizes
      ensures Count() == Overlap(0, false, 0)
    {
      this.version, this.level, this.grandparents, this.sizes := version, level, grandparents, sizes;
      levelPtrs := new nat[NUM_LEVELS](_ => 0);
      grandparentIndex, seenKey, overlappedBytes := 0, false, 0;
      new;
      forall user ensures Behind(user) {
        PassedNone(version, level + 2, levelPtrs[..], user);
      }
    }

    /** The pointers never move back, so over a sorted input each level is walked once. */
    method IsBaseLevelForKey(user: UserKey) returns (r: bool)
      requires Ok() && Behind(user)
      modifies levelPtrs
      ensures Ok() && Behind(user)
      ensures r <==> BaseLevel(version, level, user)
    {
      for lvl := level + 2 to NUM_LEVELS
        invariant Ok() && Behind(user)
        invariant forall l, i {:trigger version[l][i]} :: level + 2 <= l < lvl && 0 <= i < |version[l]| ==>
                  !Covers(version[l][i], user)
      {
        var covered := Walk(lvl, user);
        if covered {
          return false;
        }
      }
      r := true;
    }

    method Walk(lvl: nat, user: UserKey) returns (covered: bool)
      requires Ok() && Behind(user) && level + 2 <= lvl < NUM_LEVELS
      modifies levelPtrs
      ensures Ok() && Behind(user)
      ensures covered <==> exists i :: 0 <= i < |version[lvl]| && Covers(version[lvl][i], user)
    {
      ghost var files := version[lvl];
      PassedAt(version, level + 2, levelPtrs[..], user, lvl);
      while levelPtrs[lvl] < |version[lvl]|
        invariant Ok() && Behind(user) && PassedOnly(files, levelPtrs[lvl], user)
        decreases |version[lvl]| - levelPtrs[lvl]
      {
        var f := version[lvl][levelPtrs[lvl]];
        if user <= f.largest.user {
          SmallestOrdered(files, levelPtrs[lvl]);
          covered := f.smallest.user <= user;
          assert covered ==> Covers(f, user);
          return;
        }
        PassOne(version, level + 2, levelPtrs[..], user, lvl);
        ghost var moved := levelPtrs[..][lvl := levelPtrs[lvl] + 1];
        levelPtrs[lvl] := levelPtrs[lvl] + 1;
        assert levelPtrs[..] == moved;
      }
      covered := false;
    }

    function Count(): Overlap
      reads this
    {
      Overlap(grandparentIndex, seenKey, overlappedBytes)
    }

    /** Counts the grandparent bytes that the current output reaches over, and stops it when they are too many. */
    method ShouldStopBefore(key: Key) returns (r: bool)
      requires Ok()
      modifies this
      ensures Ok() && r == Stops(grandparents, sizes.MaxGrandParentOverlapBytes(), old(Count()), key)
      ensures Count() == Next(grandparents, sizes.MaxGrandParentOverlapBytes(), old(Count()), key)
    {
      while grandparentIndex < |grandparents| && Before(grandparents[grandparentIndex].largest, key)
        invariant old(grandparentIndex) <= grandparentIndex <= |grandparents| && seenKey == old(seenKey)
        invariant Reach(grandparents, grandparentIndex, key) == Reach(grandparents, old(grandparentIndex), key)
        invariant overlappedBytes == old(overlappedBytes) + if seenKey
                  then PassedBytes(grandparents, old(grandparentIndex), grandparentIndex) else 0
      {
        if seenKey {
          overlappedBytes := overlappedBytes + grandparents[grandparentIndex].size;
        }
        grandparentIndex := grandparentIndex + 1;
      }
      seenKey := true;
      if overlappedBytes > sizes.MaxGrandParentOverlapBytes() {
        overlappedBytes := 0;
        return true;
      }
      return false;
    }

    /** Whether entry i of the sorted input is dropped; also moves the running key state on to it. */
    method Decide(ghost s: seq<Entry>, ghost i: nat, key: Key, currentUserKey: Bound, last: Sequence,
                  smallestSnapshot: Sequence)
      returns (drop: bool)
      requires Ok() && i < |s| && key == s[i].key && Behind(key.user)
      requires currentUserKey == CurrentUserKey(s, i) && last == SequenceBefore(s, i)
      modifies levelPtrs
      ensures Ok() && Behind(key.user)
      ensures drop <==> Drops(s, Policy(smallestSnapshot, BaseKeys(version, level)), i)
    {
      var lastSequenceForKey := if currentUserKey != At(key.user) then MAX_SEQUENCE else last;
      drop := false;
      if lastSequenceForKey <= smallestSnapshot {
        // every live snapshot sees the entry before, which has the same user key
        drop := true;
      } else if key.kind == Deletion && key.sequence <= smallestSnapshot {
        drop := IsBaseLevelForKey(key.user);
      }
    }
  }

  /** current_user_key, before entry i is looked at. */
  ghost function CurrentUserKey(s: seq<Entry>, i: nat): Bound
    requires i <= |s|
  {
    if i == 0 then Unbounded else At(s[i - 1].key.user)
  }

  /** last_sequence_for_key, before entry i is looked at. */
  ghost function SequenceBefore(s: seq<Entry>, i: nat): Sequence
    requires i <= |s|
  {
    if i == 0 then MAX_SEQUENCE else s[i - 1].key.sequence
  }

  // ----- output files -----

  function Concat(files: Level): seq<Entry> {
    if files == [] then [] else Concat(files[..|files| - 1]) + files[|files| - 1].entries
  }

  lemma {:induction false} ConcatHas(files: Level, e: Entry)
    ensures e in Concat(files) <==> exists f :: f in files && e in f.entries
  {
    if files != [] {
      var n := |files| - 1;
      ConcatHas(files[..n], e);
      assert files == files[..n] + [files[n]];
    }
  }

  lemma {:induction false} CutsAreDisjoint(files: Level)
    requires FilesOk(files) && Sorted(Concat(files))
    ensures Disjoint(files)
  {
    if files != [] {
      var n := |files| - 1;
      SortedHead(Concat(files[..n]), files[n].entries);
      CutsAreDisjoint(files[..n]);
      forall i | 0 <= i < n ensures Before(files[i].largest, files[n].smallest) {
        var last := files[i].entries[|files[i].entries| - 1];
        assert files[..n][i] == files[i] && last in files[i].entries;
        ConcatHas(files[..n], last);
        LeftBeforeRight(Concat(files[..n]), files[n].entries, last);
      }
    }
  }

  lemma {:induction false} SortedHead(a: seq<Entry>, b: seq<Entry>)
    requires Sorted(a + b)
    ensures Sorted(a)
  {
    assert forall i :: 0 <= i < |a| ==> (a + b)[i] == a[i];
  }

  lemma {:induction false} LeftBeforeRight(a: seq<Entry>, b: seq<Entry>, x: Entry)
    requires Sorted(a + b) && x in a && b != []
    ensures Before(x.key, b[0].key)
  {
    var i :| 0 <= i < |a| && a[i] == x;
    assert (a + b)[i] == x && (a + b)[|a|] == b[0];
  }

  /** An output takes its last entry only while it is below the limit. */
  ghost predicate AlmostFull(fileSize: seq<Entry> -> nat, maxSize: nat, s: seq<Entry>) {
    |s| > 1 ==> fileSize(s[..|s| - 1]) < maxSize
  }

  /** The output side of a compaction: finished files, and the one being built. */
  class Outputs {
    const fileSize: seq<Entry> -> nat
    const maxSize: nat
    const firstNumber: nat
    var outputs: Level
    var building: seq<Entry>
    var number: nat
    var nextFileNumber: nat

    ghost predicate Building()
      reads this
    {
      && FilesOk(outputs) && Sorted(Written())
      && (forall i :: 0 <= i < |outputs| ==>
          outputs[i].number == firstNumber + i &&
          outputs[i].size == fileSize(outputs[i].entries))
      && (forall i :: 0 <= i < |outputs| ==> AlmostFull(fileSize, maxSize, outputs[i].entries))
      && AlmostFull(fileSize, maxSize, building)
      && nextFileNumber == firstNumber + |outputs| + (if building == [] then 0 else 1)
      && (building != [] ==> number == firstNumber + |outputs|)
    }

    ghost predicate Ok()
      reads this
    {
      Building() && (building != [] ==> fileSize(building) < maxSize)
    }

    ghost function Written(): seq<Entry>
      reads this
    {
      Concat(outputs) + building
    }

    constructor (fileSize: seq<Entry> -> nat, maxSize: nat, nextFileNumber: nat)
      ensures Ok() && Written() == [] && firstNumber == nextFileNumber && outputs == []
      ensures this.fileSize == fileSize && this.maxSize == maxSize
    {
      this.fileSize, this.maxSize, firstNumber := fileSize, maxSize, nextFileNumber;
      outputs, building, number, this.nextFileNumber := [], [], 0, nextFileNumber;
    }

    method FinishCompactionOutputFile()
      requires Building() && building != []
      modifies this
      ensures Ok() && Written() == old(Written()) && building == [] && |outputs| == |old(outputs)| + 1
      ensures outputs[..|outputs| - 1] == old(outputs) && BuiltOf(outputs[|outputs| - 1], old(building))
    {
      outputs := outputs + [File(number, fileSize(building), building[0].key, building[|building| - 1].key, building)];
      ghost var n := |outputs| - 1;
      assert outputs[..n] == old(outputs);
      SortedTail(Concat(old(outputs)), building);
      building := [];
      assert Written() == old(Written());
    }

    method Add(e: Entry)
      requires Ok() && Sorted(Written() + [e])
      modifies this
      ensures Ok() && Written() == old(Written()) + [e]
      ensures if fileSize(old(building) + [e]) >= maxSize
              then building == [] && |outputs| == |old(outputs)| + 1 && outputs[..|outputs| - 1] == old(outputs) &&
                   BuiltOf(outputs[|outputs| - 1], old(building) + [e])
              else outputs == old(outputs) && building == old(building) + [e]
    {
      if building == [] {
        number := nextFileNumber;
        nextFileNumber := nextFileNumber + 1;
      }
      ghost var was := building;
      building := building + [e];
      assert building[..|building| - 1] == was;
      assert Written() == old(Written()) + [e];
      if fileSize(building) >= maxSize {
        FinishCompactionOutputFile();
      }
    }

    method Finish() returns (files: Level, next: nat)
      requires Ok()
      modifies this
      ensures Concat(files) == old(Written()) && Disjoint(files) && next == firstNumber + |files|
      ensures if old(building) == [] then files == old(outputs)
              else |files| == |old(outputs)| + 1 && files[..|files| - 1] == old(outputs) &&
                   BuiltOf(files[|files| - 1], old(building))
      ensures forall i :: 0 <= i < |files| ==>
              files[i].number == firstNumber + i &&
              files[i].size == fileSize(files[i].entries)
      ensures forall i :: 0 <= i < |files| ==> AlmostFull(fileSize, maxSize, files[i].entries)
    {
      if building != [] {
        FinishCompactionOutputFile();
      }
      files, next := outputs, nextFileNumber;
      assert Written() == Concat(outputs);
      CutsAreDisjoint(outputs);
    }
  }

  lemma {:induction false} SortedTail(a: seq<Entry>, b: seq<Entry>)
    requires Sorted(a + b)
    ensures Sorted(b)
  {
    forall i, j | 0 <= i < j < |b| ensures Before(b[i].key, b[j].key) {
      assert (a + b)[|a| + i] == b[i] && (a + b)[|a| + j] == b[j];
    }
  }

  // ----- the loop -----

  ghost function LimitsOf(c: Compaction, compact: Outputs): Limits {
    Limits(c.grandparents, c.sizes.MaxGrandParentOverlapBytes(), compact.fileSize, compact.maxSize)
  }

  /** What has been written comes before what is still to come. */
  lemma {:induction false} WrittenBefore(s: seq<Entry>, p: Policy, i: nat, outputs: Level, building: seq<Entry>)
    requires Sorted(s) && i < |s| && FilesOk(outputs) && Concat(outputs) + building == Kept(s, p, i)
    ensures AllBefore(outputs, building, s[i].key)
  {
    forall e | e in Kept(s, p, i) ensures Before(e.key, s[i].key) {
      KeptHas(s, p, i, e);
    }
    forall f | f in outputs ensures Before(f.largest, s[i].key) {
      var k :| 0 <= k < |outputs| && outputs[k] == f;
      var last := f.entries[|f.entries| - 1];
      assert last in f.entries;
      ConcatHas(outputs, last);
      assert last in Concat(outputs) + building;
    }
    forall e | e in building ensures Before(e.key, s[i].key) {
      assert e in Concat(outputs) + building;
    }
  }

  lemma {:induction false} Parted(outputs: Level, before: Level)
    requires outputs != [] && outputs[..|outputs| - 1] == before
    ensures outputs == before + [outputs[|outputs| - 1]]
  {
  }

  /** The output ends before the entry if it would reach over too much with it. */
  method EndBefore(c: Compaction, compact: Outputs, ghost s: seq<Entry>, ghost p: Policy, ghost i: nat, e: Entry)
    requires Sorted(s) && i < |s| && e == s[i] && c.Ok() && compact.Ok() && compact.Written() == Kept(s, p, i)
    requires c.Count() == OverlapAfter(c.grandparents, c.sizes.MaxGrandParentOverlapBytes(), s, i)
    requires CutSoFar(LimitsOf(c, compact), s, i, compact.outputs, compact.building)
    modifies c, compact
    ensures c.Ok() && compact.Ok() && compact.Written() == old(compact.Written())
    ensures c.Count() == OverlapAfter(c.grandparents, c.sizes.MaxGrandParentOverlapBytes(), s, i + 1)
    ensures CutSoFar(LimitsOf(c, compact), s, i + 1, compact.outputs, compact.building)
  {
    WrittenBefore(s, p, i, compact.outputs, compact.building);
    ghost var limits, outputs, building := LimitsOf(c, compact), compact.outputs, compact.building;
    var stop := c.ShouldStopBefore(e.key);
    if stop && compact.building != [] {
      compact.FinishCompactionOutputFile();
      Parted(compact.outputs, outputs);
      CutByStop(limits, s, i, outputs, building, compact.outputs[|outputs|]);
    } else {
      NotCut(limits, s, i, outputs, building);
    }
  }

  /** The entry is written, and the output ends if that fills it. */
  method Write(compact: Outputs, ghost limits: Limits, ghost s: seq<Entry>, ghost i: nat, e: Entry)
    requires Sorted(s) && i < |s| && e == s[i] && compact.Ok() && Sorted(compact.Written() + [e])
    requires limits.fileSize == compact.fileSize && limits.maxSize == compact.maxSize
    requires CutSoFar(limits, s, i + 1, compact.outputs, compact.building)
    modifies compact
    ensures compact.Ok() && compact.Written() == old(compact.Written()) + [e]
    ensures CutSoFar(limits, s, i + 1, compact.outputs, compact.building)
  {
    ghost var outputs, building := compact.outputs, compact.building;
    OneWritten(limits, s, i, outputs, building);
    compact.Add(e);
    if compact.fileSize(building + [e]) >= compact.maxSize {
      Parted(compact.outputs, outputs);
      CutFull(limits, s, i + 1, outputs, building + [e], compact.outputs[|outputs|]);
    }
  }

  method WriteUnless(drop: bool, compact: Outputs, ghost limits: Limits, ghost s: seq<Entry>, ghost p: Policy,
                     ghost i: nat, e: Entry)
    requires Sorted(s) && i < |s| && e == s[i] && compact.Ok() && compact.Written() == Kept(s, p, i)
    requires drop <==> Drops(s, p, i)
    requires limits.fileSize == compact.fileSize && limits.maxSize == compact.maxSize
    requires CutSoFar(limits, s, i + 1, compact.outputs, compact.building)
    modifies compact
    ensures compact.Ok() && compact.Written() == Kept(s, p, i + 1)
    ensures CutSoFar(limits, s, i + 1, compact.outputs, compact.building)
  {
    KeptSorted(s, p, i + 1);
    if !drop {
      Write(compact, limits, s, i, e);
    }
  }

  lemma {:induction false} BehindNext(c: Compaction, s: seq<Entry>, i: nat)
    requires c.Ok() && Sorted(s) && i + 1 < |s| && c.Behind(s[i].key.user)
    ensures c.Behind(s[i + 1].key.user)
  {
    assert Before(s[i].key, s[i + 1].key);
    PassedLater(c.version, c.level + 2, c.levelPtrs[..], s[i].key.user, s[i + 1].key.user);
  }

  /** One entry: end the output if it reaches over too much below, then drop the entry or write it. */
  method Handle(c: Compaction, compact: Outputs, ghost s: seq<Entry>, ghost i: nat, e: Entry,
                currentUserKey: Bound, last: Sequence, smallestSnapshot: Sequence)
    returns (currentUserKey': Bound, last': Sequence)
    requires Sorted(s) && i < |s| && e == s[i]
    requires StageOf(c, compact, s, i, currentUserKey, last, smallestSnapshot) == Dealt(i)
    modifies c, c.levelPtrs, compact
    ensures StageOf(c, compact, s, i + 1, currentUserKey', last', smallestSnapshot) == Dealt(i + 1)
  {
    EndBefore(c, compact, s, Policy(smallestSnapshot, BaseKeys(c.version, c.level)), i, e);
    var drop := c.Decide(s, i, e.key, currentUserKey, last, smallestSnapshot);
    WriteUnless(drop, compact, LimitsOf(c, compact), s, Policy(smallestSnapshot, BaseKeys(c.version, c.level)), i, e);
    currentUserKey', last' := At(e.key.user), e.key.sequence;
    if i + 1 < |s| {
      BehindNext(c, s, i);
    }
  }

  ghost predicate UpTo(c: Compaction, compact: Outputs, s: seq<Entry>, i: nat, currentUserKey: Bound, last: Sequence,
                       smallestSnapshot: Sequence)
    requires c.Ok() && i <= |s|
    reads c, c.levelPtrs, compact
  {
    && currentUserKey == CurrentUserKey(s, i) && last == SequenceBefore(s, i)
    && (i < |s| ==> c.Behind(s[i].key.user))
    && compact.Written() == Kept(s, Policy(smallestSnapshot, BaseKeys(c.version, c.level)), i)
    && c.Count() == OverlapAfter(c.grandparents, c.sizes.MaxGrandParentOverlapBytes(), s, i)
    && CutSoFar(LimitsOf(c, compact), s, i, compact.outputs, compact.building)
  }

  datatype Stage = Dealt(upTo: nat) | Astray

  ghost function StageOf(c: Compaction, compact: Outputs, s: seq<Entry>, i: nat, currentUserKey: Bound,
                         last: Sequence, smallestSnapshot: Sequence): Stage
    reads c, c.levelPtrs, compact
  {
    if c.Ok() && compact.Ok() && i <= |s| && UpTo(c, compact, s, i, currentUserKey, last, smallestSnapshot)
    then Dealt(i) else Astray
  }

  /** The merged inputs up to where the iterator stands have been dealt with. */
  ghost predicate Underway(c: Compaction, compact: Outputs, input: MergingIterator, currentUserKey: Bound,
                           last: Sequence, smallestSnapshot: Sequence)
    reads c, c.levelPtrs, compact, input, input.children
  {
    && input.Ok()
    && StageOf(c, compact, input.merged, input.at, currentUserKey, last, smallestSnapshot) == Dealt(input.at)
  }

  /** Moving the input on leaves what has been dealt with as it was. */
  method Advance(c: Compaction, compact: Outputs, input: MergingIterator, ghost currentUserKey: Bound,
                 ghost last: Sequence, ghost smallestSnapshot: Sequence)
    requires input.Valid() && input.Ok()
    requires var i := input.at + 1;
             StageOf(c, compact, input.merged, i, currentUserKey, last, smallestSnapshot) == Dealt(i)
    modifies input, input.children
    ensures Underway(c, compact, input, currentUserKey, last, smallestSnapshot) && input.at == old(input.at) + 1
  {
    input.Next();
  }

  method HandleNext(c: Compaction, compact: Outputs, input: MergingIterator, currentUserKey: Bound, last: Sequence,
                    smallestSnapshot: Sequence)
    returns (currentUserKey': Bound, last': Sequence)
    requires Underway(c, compact, input, currentUserKey, last, smallestSnapshot) && input.Valid()
    modifies c, c.levelPtrs, compact, input, input.children
    ensures Underway(c, compact, input, currentUserKey', last', smallestSnapshot) && input.at == old(input.at) + 1
  {
    var e := Entry(input.Key(), input.Value());
    input.InOrder();
    currentUserKey', last' :=
      Handle(c, compact, input.merged, input.at, e, currentUserKey, last, smallestSnapshot);
    Advance(c, compact, input, currentUserKey', last', smallestSnapshot);
  }

  /** The last output ends with the input. */
  method FinishAll(c: Compaction, compact: Outputs, ghost s: seq<Entry>) returns (files: Level, next: nat)
    requires compact.Ok() && CutSoFar(LimitsOf(c, compact), s, |s|, compact.outputs, compact.building)
    modifies compact
    ensures Concat(files) == old(compact.Written()) && Disjoint(files) && next == compact.firstNumber + |files|
    ensures forall i :: 0 <= i < |files| ==>
              files[i].number == compact.firstNumber + i && files[i].size == compact.fileSize(files[i].entries)
    ensures forall i :: 0 <= i < |files| ==> AlmostFull(compact.fileSize, compact.maxSize, files[i].entries)
    ensures CutRight(LimitsOf(c, compact), s, files)
  {
    ghost var outputs, building := compact.outputs, compact.building;
    files, next := compact.Finish();
    if building == [] {
      NothingOpen(LimitsOf(c, compact), s, outputs);
    } else {
      Parted(files, outputs);
      LastCut(LimitsOf(c, compact), s, outputs, building, files[|outputs|]);
    }
  }

  method Open(c: Compaction, ghost s: seq<Entry>, ghost smallestSnapshot: Sequence, fileSize: seq<Entry> -> nat,
              nextFileNumber: nat) returns (compact: Outputs)
    requires c.Ok() && (forall user :: c.Behind(user)) && c.Count() == Overlap(0, false, 0)
    ensures fresh(compact) && compact.Ok() && UpTo(c, compact, s, 0, Unbounded, MAX_SEQUENCE, smallestSnapshot)
    ensures compact.fileSize == fileSize && compact.maxSize == c.sizes.maxFileSize
    ensures compact.firstNumber == nextFileNumber
  {
    compact := new Outputs(fileSize, c.sizes.maxFileSize, nextFileNumber);
  }

  /** DoCompactionWork: walks the merged inputs and writes what is not dropped into new files. */
  method DoCompactionWork(c: Compaction, input: MergingIterator, smallestSnapshot: Sequence,
                          fileSize: seq<Entry> -> nat, nextFileNumber: nat)
    returns (outputs: Level, next: nat)
    requires c.Ok() && (forall user :: c.Behind(user)) && c.Count() == Overlap(0, false, 0) && input.Ok()
    modifies c, c.levelPtrs, input, input.children
    ensures Concat(outputs) == Kept(input.merged, Policy(smallestSnapshot, BaseKeys(c.version, c.level)),
            |input.merged|)
    ensures Disjoint(outputs) && next == nextFileNumber + |outputs|
    ensures forall i :: 0 <= i < |outputs| ==> outputs[i].number == nextFileNumber + i
    ensures forall i :: 0 <= i < |outputs| ==> outputs[i].size == fileSize(outputs[i].entries)
    ensures forall i :: 0 <= i < |outputs| ==> AlmostFull(fileSize, c.sizes.maxFileSize, outputs[i].entries)
    ensures CutRight(Limits(c.grandparents, 10 * c.sizes.maxFileSize, fileSize, c.sizes.maxFileSize), input.merged,
                     outputs)
  {
    input.SeekToFirst();
    input.InOrder();
    var compact := Open(c, input.merged, smallestSnapshot, fileSize, nextFileNumber);
    var currentUserKey: Bound, last: Sequence := Unbounded, MAX_SEQUENCE;
    while input.Valid()
      invariant fresh(compact) && Underway(c, compact, input, currentUserKey, last, smallestSnapshot)
      decreases |input.merged| - input.at
    {
      currentUserKey, last := HandleNext(c, compact, input, currentUserKey, last, smallestSnapshot);
    }
    outputs, next := FinishAll(c, compact, input.merged);
  }
}
