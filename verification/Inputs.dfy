/** Choosing what a compaction reads (version_set): overlapping files, boundary files, and the files that go with them
    in the next levels; as loops, each proved against what the choice has to have. */
module Inputs {
  import opened Keys
  import opened Cursors
  import opened Reads
  import opened Versions

  // ----- overlapping inputs -----

  /** The files of a level that meet a user-key range, in their order. */
  function Overlapping(files: Level, begin: Bound, end: Bound): Level {
    if files == [] then []
    else (if Overlaps(files[0], begin, end) then [files[0]] else []) + Overlapping(files[1..], begin, end)
  }

  lemma {:induction false} OverlappingSnoc(files: Level, f: File, begin: Bound, end: Bound)
    ensures Overlapping(files + [f], begin, end) ==
            Overlapping(files, begin, end) + if Overlaps(f, begin, end) then [f] else []
  {
    if files != [] {
      OverlappingSnoc(files[1..], f, begin, end);
      assert (files + [f])[1..] == files[1..] + [f];
    }
  }

  lemma {:induction false} OverlappingHas(files: Level, begin: Bound, end: Bound, f: File)
    ensures f in Overlapping(files, begin, end) <==> f in files && Overlaps(f, begin, end)
  {
    if files != [] {
      OverlappingHas(files[1..], begin, end, f);
      assert files == [files[0]] + files[1..];
    }
  }

  /** Each side of the first range is inside the second. */
  predicate Within(begin: Bound, end: Bound, b: Bound, e: Bound) {
    && (b.Unbounded? || (begin.At? && b.user <= begin.user))
    && (e.Unbounded? || (end.At? && end.user <= e.user))
  }

  predicate FileWithin(f: File, b: Bound, e: Bound) {
    Within(At(f.smallest.user), At(f.largest.user), b, e)
  }

  /** Every file that meets the range lies in it. */
  ghost predicate Closed(files: Level, b: Bound, e: Bound) {
    forall i :: 0 <= i < |files| && Overlaps(files[i], b, e) ==> FileWithin(files[i], b, e)
  }

  /** Inside every closed range around [begin, end]. */
  ghost predicate Least(files: Level, begin: Bound, end: Bound, b: Bound, e: Bound) {
    forall b', e' {:trigger Within(begin, end, b', e')} ::
      Within(begin, end, b', e') && Closed(files, b', e') ==> Within(b, e, b', e')
  }

  /** How many files still stick out of the range on either side. */
  function Outside(files: Level, b: Bound, e: Bound): nat {
    if files == [] then 0
    else Outside(files[1..], b, e)
         + (if b.At? && files[0].smallest.user < b.user then 1 else 0)
         + (if e.At? && files[0].largest.user > e.user then 1 else 0)
  }

  /** The range is widened on one side, as far as a file that sticks out of it there. */
  predicate Widens(f: File, b: Bound, e: Bound, b': Bound, e': Bound) {
    || (b.At? && f.smallest.user < b.user && b' == At(f.smallest.user) && e' == e)
    || (e.At? && f.largest.user > e.user && e' == At(f.largest.user) && b' == b)
  }

  lemma {:induction false} WideningTakesIn(files: Level, b: Bound, e: Bound, b': Bound, e': Bound, f: File)
    requires Widens(f, b, e, b', e')
    ensures Outside(files, b', e') <= Outside(files, b, e)
    ensures f in files ==> Outside(files, b', e') < Outside(files, b, e)
  {
    if files != [] {
      WideningTakesIn(files[1..], b, e, b', e', f);
      assert files == [files[0]] + files[1..];
    }
  }

  /** At level 0 the search restarts with a wider range whenever a file sticks out of it. */
  method GetOverlappingInputs(level: nat, files: Level, begin: Bound, end: Bound)
    returns (inputs: Level, ghost b: Bound, ghost e: Bound)
    requires FilesOk(files)
    ensures inputs == Overlapping(files, b, e)
    ensures if level == 0 then Within(begin, end, b, e) && Closed(files, b, e) && Least(files, begin, end, b, e)
            else b == begin && e == end
  {
    inputs := [];
    var userBegin, userEnd := begin, end;
    var i := 0;
    while i < |files|
      invariant 0 <= i <= |files|
      invariant level > 0 ==> userBegin == begin && userEnd == end
      invariant Within(begin, end, userBegin, userEnd) && Least(files, begin, end, userBegin, userEnd)
      invariant inputs == Overlapping(files[..i], userBegin, userEnd)
      invariant level == 0 ==>
        forall j :: 0 <= j < i && Overlaps(files[j], userBegin, userEnd) ==> FileWithin(files[j], userBegin, userEnd)
      decreases Outside(files, userBegin, userEnd), |files| - i
    {
      var f := files[i];
      ghost var b0, e0 := userBegin, userEnd;
      OverlappingSnoc(files[..i], f, userBegin, userEnd);
      assert files[..i + 1] == files[..i] + [f];
      i := i + 1;
      if !AfterFile(userBegin, f) && !BeforeFile(userEnd, f) {
        inputs := inputs + [f];
        if level == 0 {
          EntryInRange(f, f.entries[0]);
          if userBegin.At? && f.smallest.user < userBegin.user {
            userBegin := At(f.smallest.user);
            inputs := [];
            i := 0;
            MustWiden(files, begin, end, b0, e0, f, userBegin, userEnd);
          } else if userEnd.At? && f.largest.user > userEnd.user {
            userEnd := At(f.largest.user);
            inputs := [];
            i := 0;
            MustWiden(files, begin, end, b0, e0, f, userBegin, userEnd);
          }
        }
      }
    }
    assert files[..|files|] == files;
    b, e := userBegin, userEnd;
  }

  /** A closed range around one that meets f has room for f. */
  lemma {:induction false} MustWiden(files: Level, begin: Bound, end: Bound, b: Bound, e: Bound, f: File, b': Bound,
                                     e': Bound)
    requires Least(files, begin, end, b, e) && f in files && Overlaps(f, b, e) && Widens(f, b, e, b', e')
    ensures Least(files, begin, end, b', e') && Outside(files, b', e') < Outside(files, b, e)
  {
    WideningTakesIn(files, b, e, b', e', f);
    forall b'', e'' | Within(begin, end, b'', e'') && Closed(files, b'', e'') ensures Within(b', e', b'', e'') {
      RoomFor(files, f, b'', e'');
    }
  }

  lemma {:induction false} RoomFor(files: Level, f: File, b: Bound, e: Bound)
    requires Closed(files, b, e) && f in files && Overlaps(f, b, e)
    ensures FileWithin(f, b, e)
  {
  }

  // ----- a contiguous or overlap-closed choice of files -----

  lemma {:induction false} NothingOverlaps(files: Level, begin: Bound, end: Bound)
    requires forall i :: 0 <= i < |files| ==> !Overlaps(files[i], begin, end)
    ensures Overlapping(files, begin, end) == []
  {
    if files != [] {
      NothingOverlaps(files[1..], begin, end);
    }
  }

  lemma {:induction false} OverlappingPrefix(files: Level, begin: Bound, end: Bound) returns (n: nat)
    requires Disjoint(files) && forall i :: 0 <= i < |files| ==> !AfterFile(begin, files[i])
    ensures n <= |files| && Overlapping(files, begin, end) == files[..n]
  {
    n := 0;
    if files != [] {
      if BeforeFile(end, files[0]) {
        SmallestOrdered(files, 0);
        NothingOverlaps(files, begin, end);
      } else {
        n := OverlappingPrefix(files[1..], begin, end);
        n := n + 1;
        assert files[..n] == [files[0]] + files[1..][..n - 1];
      }
    }
  }

  lemma {:induction false} SliceShift(files: Level, lo: nat, hi: nat)
    requires files != [] && lo <= hi < |files|
    ensures files[1..][lo..hi] == files[lo + 1..hi + 1]
  {
  }

  /** Deeper levels: what meets a range is a run of neighbouring files. */
  lemma {:induction false} OverlappingSlice(files: Level, begin: Bound, end: Bound) returns (lo: nat, hi: nat)
    requires Disjoint(files)
    ensures lo <= hi <= |files| && Overlapping(files, begin, end) == files[lo..hi]
  {
    lo, hi := 0, 0;
    if files != [] {
      if AfterFile(begin, files[0]) {
        lo, hi := OverlappingSlice(files[1..], begin, end);
        SliceShift(files, lo, hi);
        lo, hi := lo + 1, hi + 1;
      } else {
        LargestOrdered(files, 0);
        hi := OverlappingPrefix(files, begin, end);
      }
    }
  }

  /** Level 0: all files that meet a closed range.  Deeper levels: some neighbouring files. */
  ghost predicate Choice(level: nat, files: Level, inputs: Level) {
    && inputs != []
    && if level == 0 then exists b, e :: Closed(files, b, e) && inputs == Overlapping(files, b, e)
       else exists lo, hi :: 0 <= lo < hi <= |files| && inputs == files[lo..hi]
  }

  // ----- boundary files -----

  ghost predicate IsLargest(files: Level, key: Key) {
    && (exists i :: 0 <= i < |files| && files[i].largest == key)
    && forall i :: 0 <= i < |files| ==> AtOrBefore(files[i].largest, key)
  }

  method FindLargestKey(files: Level) returns (found: bool, largest: Key)
    ensures found <==> files != []
    ensures found ==> IsLargest(files, largest)
  {
    if files == [] {
      return false, InternalKey(0.0, 0, Deletion);
    }
    largest := files[0].largest;
    for i := 1 to |files|
      invariant exists j :: 0 <= j < i && files[j].largest == largest
      invariant forall j :: 0 <= j < i ==> AtOrBefore(files[j].largest, largest)
    {
      if Before(largest, files[i].largest) {
        largest := files[i].largest;
      }
    }
    found := true;
  }

  /** The file goes on with the user key that `key` ends with. */
  predicate IsBoundary(f: File, key: Key) {
    Before(key, f.smallest) && f.smallest.user == key.user
  }

  ghost predicate SmallestBoundary(files: Level, key: Key, f: File) {
    && f in files && IsBoundary(f, key)
    && forall g :: g in files && IsBoundary(g, key) ==> AtOrBefore(f.smallest, g.smallest)
  }

  ghost predicate NoBoundary(files: Level, key: Key) {
    forall g :: g in files ==> !IsBoundary(g, key)
  }

  datatype FileOption = NoFile | JustFile(file: File)

  method FindSmallestBoundaryFile(files: Level, key: Key) returns (r: FileOption)
    ensures if r.NoFile? then NoBoundary(files, key) else SmallestBoundary(files, key, r.file)
  {
    r := NoFile;
    for i := 0 to |files|
      invariant r.NoFile? ==> forall j :: 0 <= j < i ==> !IsBoundary(files[j], key)
      invariant r.JustFile? ==> r.file in files && IsBoundary(r.file, key)
      invariant r.JustFile? ==> forall j :: 0 <= j < i && IsBoundary(files[j], key) ==>
                AtOrBefore(r.file.smallest, files[j].smallest)
    {
      if IsBoundary(files[i], key) && (r.NoFile? || Before(files[i].smallest, r.file.smallest)) {
        r := JustFile(files[i]);
      }
    }
  }

  ghost function LastKey(key: Key, added: Level): Key {
    if added == [] then key else added[|added| - 1].largest
  }

  /** Each added file is the smallest boundary file of what was there before it. */
  ghost predicate Chained(files: Level, key: Key, added: Level) {
    added == [] || (Chained(files, key, Front(added)) &&
        SmallestBoundary(files, LastKey(key, Front(added)), Back(added)))
  }

  ghost function Front(s: Level): Level
    requires s != []
  {
    s[..|s| - 1]
  }

  ghost function Back(s: Level): File
    requires s != []
  {
    s[|s| - 1]
  }

  /** ... and no further one is left. */
  ghost predicate Chain(files: Level, key: Key, added: Level) {
    Chained(files, key, added) && NoBoundary(files, LastKey(key, added))
  }

  function Beyond(files: Level, key: Key): nat {
    if files == [] then 0 else Beyond(files[1..], key) + if Before(key, files[0].smallest) then 1 else 0
  }

  lemma {:induction false} BeyondShrinks(files: Level, key: Key, f: File)
    requires Before(key, f.smallest) && f.Ok()
    ensures Beyond(files, f.largest) <= Beyond(files, key)
    ensures f in files ==> Beyond(files, f.largest) < Beyond(files, key)
  {
    EntryInRange(f, f.entries[0]);
    if files != [] {
      BeyondShrinks(files[1..], key, f);
      assert files == [files[0]] + files[1..];
    }
  }

  method AddBoundaryInputs(files: Level, compactionFiles: Level)
    returns (r: Level, ghost first: Key, ghost added: Level)
    requires FilesOk(files)
    ensures r == compactionFiles + added
    ensures if compactionFiles == [] then added == []
            else IsLargest(compactionFiles, first) && Chain(files, first, added)
  {
    var found, largest := FindLargestKey(compactionFiles);
    r, first, added := compactionFiles, largest, [];
    if !found {
      return;
    }
    var continueSearching := true;
    while continueSearching
      invariant r == compactionFiles + added && largest == LastKey(first, added)
      invariant Chained(files, first, added)
      invariant !continueSearching ==> NoBoundary(files, largest)
      decreases continueSearching, Beyond(files, largest)
    {
      var boundary := FindSmallestBoundaryFile(files, largest);
      if boundary.JustFile? {
        BeyondShrinks(files, largest, boundary.file);
        ghost var more := added + [boundary.file];
        assert Front(more) == added;
        added := more;
        r := r + [boundary.file];
        largest := boundary.file.largest;
      } else {
        continueSearching := false;
      }
    }
  }

  // ----- what adding boundary files achieves -----

  /** A choice after which no user key is split: the file after it starts with another one. */
  ghost predicate CleanChoice(level: nat, files: Level, inputs: Level) {
    && Choice(level, files, inputs)
    && (level > 0 ==> exists lo, hi :: CleanCut(files, inputs, lo, hi))
  }

  ghost predicate CleanCut(files: Level, inputs: Level, lo: int, hi: int) {
    && 0 <= lo < hi <= |files| && inputs == files[lo..hi]
    && (hi < |files| ==> files[hi - 1].largest.user != files[hi].smallest.user)
  }

  lemma {:induction false} LargestOfSlice(files: Level, lo: nat, hi: nat, key: Key)
    requires Disjoint(files) && lo < hi <= |files| && IsLargest(files[lo..hi], key)
    ensures key == files[hi - 1].largest
  {
    var i :| 0 <= i < hi - lo && files[lo..hi][i].largest == key;
    assert files[lo..hi][hi - lo - 1] == files[hi - 1];
    LargestOrdered(files, hi - 1);
  }

  lemma {:induction false} BoundaryIsNext(files: Level, hi: nat, f: File)
    requires Disjoint(files) && 0 < hi <= |files| && SmallestBoundary(files, files[hi - 1].largest, f)
    ensures hi < |files| && f == files[hi]
  {
    var j :| 0 <= j < |files| && files[j] == f;
    LargestOrdered(files, hi - 1);
    EntryInRange(f, f.entries[0]);
    if j > hi {
      SmallestOrdered(files, hi);
      EntryInRange(files[hi], files[hi].entries[0]);
      assert IsBoundary(files[hi], files[hi - 1].largest);
    }
  }

  lemma {:induction false} ChainIsSlice(files: Level, lo: nat, hi: nat, key: Key, added: Level)
    requires Disjoint(files) && lo < hi <= |files| && key == files[hi - 1].largest && Chained(files, key, added)
    ensures hi + |added| <= |files| && files[lo..hi] + added == files[lo..hi + |added|]
    ensures LastKey(key, added) == files[hi + |added| - 1].largest
  {
    if added == [] {
      assert files[lo..hi] + added == files[lo..hi];
    } else {
      ChainIsSlice(files, lo, hi, key, Front(added));
      BoundaryIsNext(files, hi + |added| - 1, Back(added));
      SliceSnoc(files, lo, hi, added);
    }
  }

  lemma {:induction false} SliceSnoc(files: Level, lo: nat, hi: nat, added: Level)
    requires added != [] && lo < hi && hi + |added| <= |files| && Back(added) == files[hi + |added| - 1]
    requires files[lo..hi] + Front(added) == files[lo..hi + |added| - 1]
    ensures files[lo..hi] + added == files[lo..hi + |added|]
  {
    assert files[lo..hi] + added == (files[lo..hi] + Front(added)) + [Back(added)];
  }

  lemma {:induction false} CleanedAtDepth(files: Level, inputs: Level, first: Key, added: Level, lo: nat, hi: nat)
    requires Disjoint(files) && lo < hi <= |files| && inputs == files[lo..hi]
    requires IsLargest(inputs, first) && Chain(files, first, added)
    ensures CleanCut(files, inputs + added, lo, hi + |added|)
  {
    LargestOfSlice(files, lo, hi, first);
    ChainIsSlice(files, lo, hi, first, added);
    var end := hi + |added|;
    if end < |files| {
      LargestOrdered(files, end - 1);
      EntryInRange(files[end], files[end].entries[0]);
      assert files[end] in files && !IsBoundary(files[end], files[end - 1].largest);
    }
  }

  /** An overlap-closed choice needs no boundary files. */
  lemma {:induction false} NotBoundary(files: Level, inputs: Level, b: Bound, e: Bound, f: File, g: File)
    requires FilesOk(files) && Closed(files, b, e) && inputs == Overlapping(files, b, e)
    requires IsLargest(inputs, f.largest) && f in inputs && g in files
    ensures !IsBoundary(g, f.largest)
  {
    OverlappingHas(files, b, e, f);
    OverlappingHas(files, b, e, g);
    RoomFor(files, f, b, e);
    EntryInRange(f, f.entries[0]);
    EntryInRange(g, g.entries[0]);
    if g in inputs {
      var j :| 0 <= j < |inputs| && inputs[j] == g;
      assert AtOrBefore(g.largest, f.largest);
    }
  }

  lemma {:induction false} NothingToAdd(files: Level, inputs: Level, first: Key, added: Level)
    requires FilesOk(files) && Choice(0, files, inputs) && IsLargest(inputs, first) && Chained(files, first, added)
    ensures added == []
    decreases |added|
  {
    if added != [] {
      NothingToAdd(files, inputs, first, Front(added));
      var b, e :| Closed(files, b, e) && inputs == Overlapping(files, b, e);
      var i :| 0 <= i < |inputs| && inputs[i].largest == first;
      NotBoundary(files, inputs, b, e, inputs[i], Back(added));
      assert false;
    }
  }

  lemma {:induction false} Cleaned(level: nat, files: Level, inputs: Level, first: Key, added: Level)
    requires FilesOk(files) && (level > 0 ==> Disjoint(files))
    requires Choice(level, files, inputs) && IsLargest(inputs, first) && Chain(files, first, added)
    ensures CleanChoice(level, files, inputs + added)
    ensures level == 0 ==> added == []
  {
    if level == 0 {
      NothingToAdd(files, inputs, first, added);
      assert inputs + added == inputs;
    } else {
      var lo, hi :| 0 <= lo < hi <= |files| && inputs == files[lo..hi];
      CleanedAtDepth(files, inputs, first, added, lo, hi);
    }
  }

  /** After a clean choice no file left at the level holds an entry older than a chosen one of its user key. */
  lemma {:induction false} CleanLeavesNewer(level: nat, files: Level, inputs: Level, f: File, g: File)
    requires FilesOk(files) && (level > 0 ==> Disjoint(files)) && Distinct(Union(files))
    requires CleanChoice(level, files, inputs) && f in inputs && g in files && g !in inputs
    ensures f in files && NewerFile(g, f)
  {
    if level == 0 {
      var b, e :| Closed(files, b, e) && inputs == Overlapping(files, b, e);
      OverlappingHas(files, b, e, f);
      OverlappingHas(files, b, e, g);
      ApartFromClosed(files, b, e, f, g);
    } else {
      var lo, hi :| CleanCut(files, inputs, lo, hi);
      var i := IndexInSlice(files, lo, hi, f);
      var j := IndexOutOfSlice(files, lo, hi, g);
      if j < lo {
        EarlierIsNewer(files, j, i);
      } else {
        LaterIsApart(files, i, hi, j);
      }
    }
  }

  lemma {:induction false} IndexInSlice(files: Level, lo: int, hi: int, f: File) returns (i: nat)
    requires 0 <= lo < hi <= |files| && f in files[lo..hi]
    ensures lo <= i < hi && files[i] == f
  {
    var k :| 0 <= k < hi - lo && files[lo..hi][k] == f;
    i := lo + k;
  }

  lemma {:induction false} IndexOutOfSlice(files: Level, lo: int, hi: int, g: File) returns (j: nat)
    requires 0 <= lo < hi <= |files| && g in files && g !in files[lo..hi]
    ensures j < |files| && files[j] == g && (j < lo || hi <= j)
  {
    j :| 0 <= j < |files| && files[j] == g;
    assert forall k :: lo <= k < hi ==> files[lo..hi][k - lo] == files[k];
  }

  lemma {:induction false} ApartFromClosed(files: Level, b: Bound, e: Bound, f: File, g: File)
    requires FilesOk(files) && Closed(files, b, e) && f in files && g in files && Overlaps(f, b, e)
    requires !Overlaps(g, b, e)
    ensures NewerFile(g, f)
  {
    RoomFor(files, f, b, e);
    forall x, y | x in g.entries && y in f.entries ensures x.key.user != y.key.user {
      EntryInRange(g, x);
      EntryInRange(f, y);
    }
  }

  lemma {:induction false} EarlierIsNewer(files: Level, j: nat, i: nat)
    requires Disjoint(files) && Distinct(Union(files)) && j < i < |files|
    ensures NewerFile(files[j], files[i])
  {
    forall x, y | x in files[j].entries && y in files[i].entries && x.key.user == y.key.user
      ensures x.key.sequence > y.key.sequence
    {
      EntryInRange(files[j], x);
      EntryInRange(files[i], y);
      assert files[i] in files && files[j] in files && x in Union(files) && y in Union(files);
      assert Before(x.key, y.key);
    }
  }

  lemma {:induction false} LaterIsApart(files: Level, i: nat, hi: nat, j: nat)
    requires Disjoint(files) && i < hi <= j < |files| && files[hi - 1].largest.user != files[hi].smallest.user
    ensures NewerFile(files[j], files[i])
  {
    LargestOrdered(files, hi - 1);
    SmallestOrdered(files, hi);
    forall x, y | x in files[j].entries && y in files[i].entries ensures x.key.user != y.key.user {
      EntryInRange(files[j], x);
      EntryInRange(files[i], y);
    }
  }

  // ----- ranges and sizes -----

  /** The smallest range of internal keys around all the files. */
  ghost predicate Hull(files: Level, smallest: Key, largest: Key) {
    && IsLargest(files, largest)
    && (exists i :: 0 <= i < |files| && files[i].smallest == smallest)
    && forall i :: 0 <= i < |files| ==> AtOrBefore(smallest, files[i].smallest)
  }

  method GetRange(inputs: Level) returns (smallest: Key, largest: Key)
    requires inputs != []
    ensures Hull(inputs, smallest, largest)
  {
    smallest, largest := inputs[0].smallest, inputs[0].largest;
    for i := 1 to |inputs|
      invariant exists j :: 0 <= j < i && inputs[j].largest == largest
      invariant exists j :: 0 <= j < i && inputs[j].smallest == smallest
      invariant forall j :: 0 <= j < i ==>
                AtOrBefore(inputs[j].largest, largest) &&
                AtOrBefore(smallest, inputs[j].smallest)
    {
      if Before(inputs[i].smallest, smallest) {
        smallest := inputs[i].smallest;
      }
      if Before(largest, inputs[i].largest) {
        largest := inputs[i].largest;
      }
    }
  }

  function TotalFileSize(files: Level): nat {
    if files == [] then 0 else files[0].size + TotalFileSize(files[1..])
  }

  /** The files of a level that meet the user keys between two internal keys. */
  function Meeting(files: Level, smallest: Key, largest: Key): Level {
    Overlapping(files, At(smallest.user), At(largest.user))
  }

  /** A wider range meets at least as many files, and the same ones if as many. */
  lemma {:induction false} WiderMeetsMore(files: Level, b: Bound, e: Bound, b': Bound, e': Bound)
    requires Within(b, e, b', e')
    ensures |Overlapping(files, b, e)| <= |Overlapping(files, b', e')|
    ensures |Overlapping(files, b, e)| == |Overlapping(files, b', e')| ==>
            Overlapping(files, b, e) == Overlapping(files, b', e')
  {
    if files != [] {
      WiderMeetsMore(files[1..], b, e, b', e');
      assert Overlaps(files[0], b, e) ==> Overlaps(files[0], b', e');
    }
  }

  lemma {:induction false} HullHas(files: Level, smallest: Key, largest: Key, f: File)
    requires Hull(files, smallest, largest) && f in files
    ensures smallest.user <= f.smallest.user && f.largest.user <= largest.user
  {
  }

  lemma {:induction false} HullGrows(files: Level, smallest: Key, largest: Key, more: Level, smallest': Key,
                                     largest': Key)
    requires Hull(files, smallest, largest) && Hull(more, smallest', largest') && forall f :: f in files ==> f in more
    ensures smallest'.user <= smallest.user && largest.user <= largest'.user
  {
    var i, j :| 0 <= i < |files| && files[i].smallest == smallest && 0 <= j < |files| && files[j].largest == largest;
    HullHas(more, smallest', largest', files[i]);
    HullHas(more, smallest', largest', files[j]);
  }

  // ----- the rest of a compaction's inputs -----

  /** The sizes of the options that input selection looks at. */
  datatype Sizes = Sizes(maxFileSize: nat) {
    function ExpandedCompactionByteSizeLimit(): nat { 25 * maxFileSize }
    function MaxGrandParentOverlapBytes(): nat { 10 * maxFileSize }
  }

  datatype Selection = Selection(inputs0: Level, inputs1: Level, grandparents: Level, smallest: Key, largest: Key)

  /** What a condition with many parts comes to.  The solver takes `Chosen(..) == Yes` as one fact, where a predicate
      would be spelled out in every proof that only hands it on. */
  datatype Verdict = Yes | No

  /** Selected as a value: the choice cleaned, and all it meets in the next level. */
  ghost function Chosen(level: nat, v: Version, s: Selection): Verdict
    requires level + 1 < NUM_LEVELS
  {
    if CleanChoice(level, v[level], s.inputs0) && Hull(s.inputs0, s.smallest, s.largest)
       && s.inputs1 == Meeting(v[level + 1], s.smallest, s.largest)
    then Yes else No
  }

  ghost predicate Selected(level: nat, v: Version, s: Selection)
    requires level + 1 < NUM_LEVELS
  {
    Chosen(level, v, s) == Yes
  }

  /** A choice with the boundary files that it takes, and no others. */
  ghost predicate Completed(files: Level, inputs: Level, r: Level) {
    exists first, added :: r == inputs + added && IsLargest(inputs, first) && Chain(files, first, added)
  }

  method CleanUp(level: nat, files: Level, inputs: Level) returns (r: Level, smallest: Key, largest: Key)
    requires FilesOk(files) && (level > 0 ==> Disjoint(files)) && Choice(level, files, inputs)
    ensures CleanChoice(level, files, r) && inputs <= r && Hull(r, smallest, largest)
    ensures Completed(files, inputs, r) && (level == 0 ==> r == inputs)
  {
    ghost var first, added;
    r, first, added := AddBoundaryInputs(files, inputs);
    Cleaned(level, files, inputs, first, added);
    smallest, largest := GetRange(r);
  }

  /** What GetOverlappingInputs finds for the range: at level 0, for the least closed range around it. */
  ghost predicate MetBy(level: nat, files: Level, start: Key, limit: Key, met: Level) {
    if level > 0 then met == Meeting(files, start, limit)
    else exists b, e :: Within(At(start.user), At(limit.user), b, e) && Closed(files, b, e) &&
           Least(files, At(start.user), At(limit.user), b, e) && met == Overlapping(files, b, e)
  }

  /** The files chosen already meet any range around them, so overlapping inputs for it include them. */
  method Meet(level: nat, files: Level, inputs: Level, start: Key, limit: Key) returns (met: Level)
    requires FilesOk(files) && (level > 0 ==> Disjoint(files)) && inputs != []
    requires forall f :: f in inputs ==> f in files && start.user <= f.smallest.user && f.largest.user <= limit.user
    ensures MetBy(level, files, start, limit, met) && Choice(level, files, met) && forall f :: f in inputs ==> f in met
  {
    ghost var b, e;
    met, b, e := GetOverlappingInputs(level, files, At(start.user), At(limit.user));
    forall f | f in inputs ensures f in met {
      EntryInRange(f, f.entries[0]);
      OverlappingHas(files, b, e, f);
    }
    assert inputs[0] in met;
    if level > 0 {
      ghost var lo, hi := OverlappingSlice(files, b, e);
    }
  }

  /** The choice that could be made instead: everything at the level that the first choice and what it meets in the
      next level reach over, with its boundary files. */
  ghost predicate Widened(v: Version, level: nat, base: Selection, wider: Selection)
    requires level + 1 < NUM_LEVELS
  {
    && CleanChoice(level, v[level], wider.inputs0) && Hull(wider.inputs0, wider.smallest, wider.largest)
    && exists start, limit, met :: Hull(base.inputs0 + base.inputs1, start, limit) &&
         MetBy(level, v[level], start, limit, met) && Completed(v[level], met, wider.inputs0)
  }

  /** It is made when that gives more files, all of them are below the limit, and it meets no more in the next level. */
  ghost predicate Grows(sizes: Sizes, v: Version, level: nat, base: Selection, wider: Selection)
    requires level + 1 < NUM_LEVELS
  {
    && |wider.inputs0| > |base.inputs0|
    && TotalFileSize(base.inputs1) + TotalFileSize(wider.inputs0) < 25 * sizes.maxFileSize
    && |Meeting(v[level + 1], wider.smallest, wider.largest)| == |base.inputs1|
  }

  /** The wider choice where it is allowed, and else the first one. */
  ghost predicate BestOf(sizes: Sizes, v: Version, level: nat, base: Selection, wider: Selection, s: Selection)
    requires level + 1 < NUM_LEVELS
  {
    if base.inputs1 == [] then s.inputs0 == base.inputs0
    else Widened(v, level, base, wider)
         && s.inputs0 == if Grows(sizes, v, level, base, wider) then wider.inputs0 else base.inputs0
  }

  /** What the two levels' inputs reach over, and the files of the level below that it meets. */
  ghost predicate Reaching(v: Version, level: nat, s: Selection)
    requires level + 2 < NUM_LEVELS
  {
    exists start, limit ::
      Hull(s.inputs0 + s.inputs1, start, limit) && s.grandparents == Meeting(v[level + 2], start, limit)
  }

  method SetupOtherInputs(sizes: Sizes, v: Version, level: nat, inputs: Level)
    returns (s: Selection, ghost base: Selection, ghost wider: Selection)
    requires Shaped(v) && level + 1 < NUM_LEVELS && Choice(level, v[level], inputs)
    ensures Selected(level, v, s) && Selected(level, v, base) && Completed(v[level], inputs, base.inputs0)
    ensures (forall f :: f in base.inputs0 ==> f in s.inputs0) && s.inputs1 == base.inputs1
    ensures BestOf(sizes, v, level, base, wider, s)
    ensures level + 2 < NUM_LEVELS ==> Reaching(v, level, s)
  {
    var inputs0, smallest, largest := CleanUp(level, v[level], inputs);
    var inputs1, _, _ := GetOverlappingInputs(level + 1, v[level + 1], At(smallest.user), At(largest.user));
    s := Selection(inputs0, inputs1, [], smallest, largest);
    base, wider := s, s;
    if inputs1 != [] {
      s, wider := Grow(sizes, v, level, s);
    }
    if level + 2 < NUM_LEVELS {
      var allStart, allLimit := GetRange(s.inputs0 + s.inputs1);
      var grandparents, _, _ := GetOverlappingInputs(level + 2, v[level + 2], At(allStart.user), At(allLimit.user));
      s := s.(grandparents := grandparents);
    }
  }

  method Widen(v: Version, level: nat, base: Selection) returns (wider: Selection)
    requires Shaped(v) && level + 1 < NUM_LEVELS && Selected(level, v, base)
    ensures Widened(v, level, base, wider) && forall f :: f in base.inputs0 ==> f in wider.inputs0
  {
    var allStart, allLimit := GetRange(base.inputs0 + base.inputs1);
    HullOfSome(base.inputs0, base.inputs1, allStart, allLimit);
    ChosenFrom(level, v[level], base.inputs0);
    var met := Meet(level, v[level], base.inputs0, allStart, allLimit);
    var expanded0, newStart, newLimit := CleanUp(level, v[level], met);
    wider := Selection(expanded0, [], [], newStart, newLimit);
  }

  /** Takes more files at the level when that costs no more files in the next one. */
  method Grow(sizes: Sizes, v: Version, level: nat, base: Selection) returns (s: Selection, ghost wider: Selection)
    requires Shaped(v) && level + 1 < NUM_LEVELS && Selected(level, v, base) && base.inputs1 != []
    ensures Selected(level, v, s) && BestOf(sizes, v, level, base, wider, s)
    ensures (forall f :: f in base.inputs0 ==> f in s.inputs0) && s.inputs1 == base.inputs1
  {
    s := base;
    var w := Widen(v, level, base);
    wider := w;
    if |w.inputs0| > |base.inputs0| &&
       TotalFileSize(base.inputs1) + TotalFileSize(w.inputs0) < sizes.ExpandedCompactionByteSizeLimit() {
      var expanded1, _, _ := GetOverlappingInputs(level + 1, v[level + 1], At(w.smallest.user), At(w.largest.user));
      if |expanded1| == |base.inputs1| {
        HullGrows(base.inputs0, base.smallest, base.largest, w.inputs0, w.smallest, w.largest);
        WiderMeetsMore(v[level + 1], At(base.smallest.user), At(base.largest.user), At(w.smallest.user),
                       At(w.largest.user));
        s := w.(inputs1 := expanded1);
      }
    }
  }

  lemma {:induction false} HullOfSome(a: Level, b: Level, start: Key, limit: Key)
    requires Hull(a + b, start, limit)
    ensures forall f :: f in a ==> start.user <= f.smallest.user && f.largest.user <= limit.user
  {
    forall f | f in a ensures start.user <= f.smallest.user && f.largest.user <= limit.user {
      assert f in a + b;
      HullHas(a + b, start, limit, f);
    }
  }

  lemma {:induction false} ChosenFrom(level: nat, files: Level, inputs: Level)
    requires Choice(level, files, inputs)
    ensures forall f :: f in inputs ==> f in files
  {
    if level == 0 {
      var b, e :| Closed(files, b, e) && inputs == Overlapping(files, b, e);
      forall f | f in inputs ensures f in files {
        OverlappingHas(files, b, e, f);
      }
    }
  }

  // ----- where compactions start -----

  /** As many of the files as it takes to reach the limit. */
  method CutShort(inputs: Level, limit: nat) returns (r: Level)
    ensures r <= inputs && (inputs != [] ==> r != [])
    ensures |r| < |inputs| ==> TotalFileSize(r) >= limit
  {
    var total := 0;
    for i := 0 to |inputs|
      invariant total == TotalFileSize(inputs[..i])
    {
      TotalSnoc(inputs[..i], inputs[i]);
      assert inputs[..i + 1] == inputs[..i] + [inputs[i]];
      total := total + inputs[i].size;
      if total >= limit {
        return inputs[..i + 1];
      }
    }
    return inputs;
  }

  lemma {:induction false} PrefixOfSlice(files: Level, lo: nat, hi: nat, r: Level)
    requires lo <= hi <= |files| && r <= files[lo..hi]
    ensures r == files[lo..lo + |r|]
  {
  }

  /** CompactRange's choice at a level: what overlaps, cut short by size below level 0. */
  method ChooseRange(level: nat, files: Level, begin: Bound, end: Bound, limit: nat) returns (inputs: Level)
    requires FilesOk(files) && (level > 0 ==> Disjoint(files))
    ensures inputs != [] ==> Choice(level, files, inputs)
    ensures level > 0 ==> inputs <= Overlapping(files, begin, end)
    ensures inputs == [] ==> forall f :: f in files ==> !Overlaps(f, begin, end)
    ensures level > 0 && |inputs| < |Overlapping(files, begin, end)| ==> TotalFileSize(inputs) >= limit
  {
    ghost var b, e;
    inputs, b, e := GetOverlappingInputs(level, files, begin, end);
    forall f | f in files && inputs == [] ensures !Overlaps(f, begin, end) {
      OverlappingHas(files, b, e, f);
    }
    if level > 0 {
      ghost var lo, hi := OverlappingSlice(files, b, e);
      inputs := CutShort(inputs, limit);
      PrefixOfSlice(files, lo, hi, inputs);
    }
  }

  lemma {:induction false} TotalSnoc(files: Level, f: File)
    ensures TotalFileSize(files + [f]) == TotalFileSize(files) + f.size
  {
    if files != [] {
      TotalSnoc(files[1..], f);
      assert (files + [f])[1..] == files[1..] + [f];
    }
  }

  datatype Pointer = FromStart | Past(key: Key)

  /** PickCompaction's choice for a size compaction: the first file that ends after the pointer, round robin. */
  method ChooseNext(level: nat, files: Level, pointer: Pointer) returns (inputs: Level, ghost picked: File)
    requires FilesOk(files) && (level > 0 ==> Disjoint(files)) && files != []
    ensures Choice(level, files, inputs) && picked in inputs
    ensures level > 0 && pointer.Past? && Before(pointer.key, picked.largest) ==>
              forall f :: f in files && Before(pointer.key, f.largest) ==> AtOrBefore(picked.largest, f.largest)
    ensures pointer.Past? && !Before(pointer.key, picked.largest) ==> forall f :: f in files ==>
            !Before(pointer.key, f.largest)
  {
    var i := 0;
    while i < |files| && pointer.Past? && !Before(pointer.key, files[i].largest)
      invariant 0 <= i <= |files|
      invariant forall j :: 0 <= j < i ==> pointer.Past? && !Before(pointer.key, files[j].largest)
    {
      i := i + 1;
    }
    // no file is beyond the pointer: start over with the first one
    var f := if i < |files| then files[i] else files[0];
    picked := f;
    inputs := [f];
    if level == 0 {
      var smallest, largest := GetRange(inputs);
      ghost var b, e;
      inputs, b, e := GetOverlappingInputs(0, files, At(smallest.user), At(largest.user));
      EntryInRange(f, f.entries[0]);
      OverlappingHas(files, b, e, f);
    } else {
      ghost var k := if i < |files| then i else 0;
      assert inputs == files[k..k + 1];
      LargestOrdered(files, k);
    }
  }

  // ----- where a flushed memtable goes -----

  predicate CrowdedBelow(sizes: Sizes, v: Version, level: nat, smallest: UserKey, largest: UserKey) {
    level + 2 < NUM_LEVELS && TotalFileSize(Overlapping(v[level + 2], At(smallest),
        At(largest))) > 10 * sizes.maxFileSize
  }

  /** A flushed table goes below level 0 only past levels that it does not overlap, and as deep as that allows. */
  method PickLevelForMemTableOutput(sizes: Sizes, v: Version, smallest: UserKey, largest: UserKey) returns (level: nat)
    requires Shaped(v)
    ensures level <= MAX_MEM_COMPACT_LEVEL
    ensures level > 0 ==> forall l :: 0 <= l <= level ==> !AnyOverlap(v[l], At(smallest), At(largest))
    ensures level < MAX_MEM_COMPACT_LEVEL ==>
              || (level == 0 && AnyOverlap(v[0], At(smallest), At(largest)))
              || AnyOverlap(v[level + 1], At(smallest), At(largest))
              || CrowdedBelow(sizes, v, level, smallest, largest)
  {
    level := 0;
    var overlap := SomeFileOverlapsRange(false, v[0], At(smallest), At(largest));
    if !overlap {
      while level < MAX_MEM_COMPACT_LEVEL
        invariant level <= MAX_MEM_COMPACT_LEVEL
        invariant forall l :: 0 <= l <= level ==> !AnyOverlap(v[l], At(smallest), At(largest))
      {
        overlap := SomeFileOverlapsRange(true, v[level + 1], At(smallest), At(largest));
        if overlap {
          break;
        }
        if level + 2 < NUM_LEVELS {
          var overlaps, _, _ := GetOverlappingInputs(level + 2, v[level + 2], At(smallest), At(largest));
          if TotalFileSize(overlaps) > sizes.MaxGrandParentOverlapBytes() {
            break;
          }
        }
        level := level + 1;
      }
    }
  }
}
