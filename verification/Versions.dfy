/** Table files and levels (version_set): the search in a level and the overlap tests. */
module Versions {
  import opened Keys
  import opened Cursors
  import opened Reads

  const NUM_LEVELS := 7
  const MAX_MEM_COMPACT_LEVEL := 2

  type Key = InternalKey<UserKey>

  /** A table file: its FileMetaData, and the entries that it holds. */
  datatype File = File(number: nat, size: nat, smallest: Key, largest: Key, entries: seq<Entry>) {
    /** A table is built from at least one entry, in strictly increasing order. */
    ghost predicate Ok() {
      entries != [] && Sorted(entries) && smallest == entries[0].key && largest == entries[|entries| - 1].key
    }
  }

  type Level = seq<File>

  ghost predicate FilesOk(files: Level) {
    forall i :: 0 <= i < |files| ==> files[i].Ok()
  }

  /** The order that files are kept in: by smallest key, ties broken by number. */
  predicate Less(f: File, g: File) {
    Before(f.smallest, g.smallest) || (f.smallest == g.smallest && f.number < g.number)
  }

  ghost predicate Ordered(files: Level) {
    forall i, j :: 0 <= i < j < |files| ==> Less(files[i], files[j])
  }

  /** Levels below 0: files sorted and disjoint in internal-key order. */
  ghost predicate Disjoint(files: Level) {
    && FilesOk(files)
    && forall i, j :: 0 <= i < j < |files| ==> Before(files[i].largest, files[j].smallest)
  }

  lemma {:induction false} EntryInRange(f: File, e: Entry)
    requires f.Ok() && e in f.entries
    ensures AtOrBefore(f.smallest, e.key) && AtOrBefore(e.key, f.largest)
  {
    var i :| 0 <= i < |f.entries| && f.entries[i] == e;
  }

  /** The first file whose largest key is at or after the key, or |files|. */
  ghost predicate FirstNotBefore(files: Level, key: Key, r: int)
  {
    && 0 <= r <= |files|
    && (forall i :: 0 <= i < r ==> Before(files[i].largest, key))
    && (forall i :: r <= i < |files| ==> AtOrBefore(key, files[i].largest))
  }

  method FindFile(files: Level, key: Key) returns (r: nat)
    requires Disjoint(files)
    ensures FirstNotBefore(files, key, r)
  {
    var left, right := 0, |files|;
    while left < right
      invariant 0 <= left <= right <= |files|
      invariant forall i :: 0 <= i < left ==> Before(files[i].largest, key)
      invariant forall i :: right <= i < |files| ==> AtOrBefore(key, files[i].largest)
    {
      var mid := (left + right) / 2;
      LargestOrdered(files, mid);
      if Before(files[mid].largest, key) {
        left := mid + 1;
      } else {
        right := mid;
      }
    }
    r := right;
  }

  lemma {:induction false} LargestOrdered(files: Level, m: nat)
    requires Disjoint(files) && m < |files|
    ensures forall i :: 0 <= i < m ==> Before(files[i].largest, files[m].largest)
    ensures forall i :: m < i < |files| ==> Before(files[m].largest, files[i].largest)
  {
    forall i | 0 <= i < |files| ensures AtOrBefore(files[i].smallest, files[i].largest) {
      EntryInRange(files[i], files[i].entries[0]);
    }
  }

  lemma {:induction false} SmallestOrdered(files: Level, m: nat)
    requires Disjoint(files) && m < |files|
    ensures forall i :: m <= i < |files| ==> AtOrBefore(files[m].smallest, files[i].smallest)
  {
    EntryInRange(files[m], files[m].entries[0]);
  }

  // ----- overlap -----

  /** A user-key range; an absent bound is unbounded on that side. */
  datatype Bound = Unbounded | At(user: UserKey)

  predicate AfterFile(user: Bound, f: File)
  {
    user.At? && user.user > f.largest.user
  }

  predicate BeforeFile(user: Bound, f: File)
  {
    user.At? && user.user < f.smallest.user
  }

  predicate Overlaps(f: File, begin: Bound, end: Bound)
  {
    !AfterFile(begin, f) && !BeforeFile(end, f)
  }

  ghost predicate AnyOverlap(files: Level, begin: Bound, end: Bound) {
    exists i :: 0 <= i < |files| && Overlaps(files[i], begin, end)
  }

  /** The earliest internal key of a user key. */
  function EarliestKey(user: UserKey): Key {
    InternalKey(user, MAX_SEQUENCE, Value)
  }

  lemma {:induction false} SearchDecides(files: Level, begin: Bound, end: Bound, index: nat)
    requires Disjoint(files)
    requires if begin.At? then FirstNotBefore(files, EarliestKey(begin.user), index) else index == 0
    ensures AnyOverlap(files, begin, end) <==> index < |files| && !BeforeFile(end, files[index])
  {
    if index < |files| {
      SmallestOrdered(files, index);
      assert Overlaps(files[index], begin, end) <==> !BeforeFile(end, files[index]);
    }
  }

  method SomeFileOverlapsRange(disjoint: bool, files: Level, smallest: Bound, largest: Bound) returns (r: bool)
    requires FilesOk(files) && (disjoint ==> Disjoint(files))
    ensures r <==> AnyOverlap(files, smallest, largest)
  {
    if !disjoint {
      for i := 0 to |files|
        invariant forall j :: 0 <= j < i ==> !Overlaps(files[j], smallest, largest)
      {
        if !AfterFile(smallest, files[i]) && !BeforeFile(largest, files[i]) {
          return true;
        }
      }
      return false;
    }
    var index := 0;
    if smallest.At? {
      index := FindFile(files, EarliestKey(smallest.user));
    }
    SearchDecides(files, smallest, largest, index);
    if index >= |files| {
      return false;
    }
    return !BeforeFile(largest, files[index]);
  }

  predicate Covers(f: File, user: UserKey) {
    f.smallest.user <= user <= f.largest.user
  }

  // ----- versions -----

  type Version = v: seq<Level> | |v| == NUM_LEVELS witness [[], [], [], [], [], [], []]

  ghost function Union(files: Level): set<Entry> {
    set f, e | f in files && e in f.entries :: e
  }

  /** Everything at a level or below it. */
  ghost function Deep(v: Version, level: nat): set<Entry> {
    set k, e | level <= k < NUM_LEVELS && e in Union(v[k]) :: e
  }

  ghost predicate Numbered(files: Level) {
    forall i, j :: 0 <= i < j < |files| ==> files[i].number != files[j].number
  }

  ghost predicate NewerFile(f: File, g: File) {
    NewerThan(Set(f.entries), Set(g.entries))
  }

  ghost predicate NewerLevel(v: Version, i: nat, j: nat)
    requires i < NUM_LEVELS && j < NUM_LEVELS
  {
    NewerThan(Union(v[i]), Union(v[j]))
  }

  /** Level 0: files may overlap, and a higher number means newer. */
  ghost predicate NewestByNumber(files: Level) {
    forall f, g {:trigger NewerFile(f, g)} :: f in files && g in files && f.number > g.number ==> NewerFile(f, g)
  }

  /** Entries never hop across levels: for each user key a smaller level is newer. */
  ghost predicate Layered(v: Version) {
    forall i, j {:trigger NewerLevel(v, i, j)} :: 0 <= i < j < NUM_LEVELS ==> NewerLevel(v, i, j)
  }

  ghost predicate Shaped(v: Version) {
    && FilesOk(v[0]) && Ordered(v[0]) && Numbered(v[0])
    && forall l :: 1 <= l < NUM_LEVELS ==> Disjoint(v[l])
  }

  ghost predicate VersionOk(v: Version) {
    Shaped(v) && NewestByNumber(v[0]) && Layered(v) && Distinct(Deep(v, 0))
  }
}
