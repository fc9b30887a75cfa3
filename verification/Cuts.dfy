/** Where a compaction cuts its output (version_set: ShouldStopBefore; db_impl: DoCompactionWork): a file ends when it
    is full, and before an entry at which it would reach over too much of the level below. */
module Cuts {
  import opened Keys
  import opened Cursors
  import opened Versions

  // ----- counting the grandparents that have been passed -----

  /** How far the search among the grandparents has come, whether it has seen a key at all, and the bytes passed since
      the output was last cut for them. */
  datatype Overlap = Overlap(index: nat, seen: bool, bytes: nat)

  /** The first grandparent from index i on that does not end before the key. */
  function Reach(grandparents: Level, i: nat, key: Key): (j: nat)
    requires i <= |grandparents|
    ensures i <= j <= |grandparents|
    ensures forall k :: i <= k < j ==> Before(grandparents[k].largest, key)
    ensures j < |grandparents| ==> AtOrBefore(key, grandparents[j].largest)
    decreases |grandparents| - i
  {
    if i < |grandparents| && Before(grandparents[i].largest, key) then Reach(grandparents, i + 1, key) else i
  }

  /** The bytes of the grandparents from index i up to index j. */
  function PassedBytes(grandparents: Level, i: nat, j: nat): nat
    requires i <= j <= |grandparents|
  {
    if i == j then 0 else PassedBytes(grandparents, i, j - 1) + grandparents[j - 1].size
  }

  /** What is known once the key has been looked at. */
  function Counted(grandparents: Level, o: Overlap, key: Key): (r: Overlap)
    requires o.index <= |grandparents|
    ensures r.index <= |grandparents|
  {
    var j := Reach(grandparents, o.index, key);
    Overlap(j, true, o.bytes + if o.seen then PassedBytes(grandparents, o.index, j) else 0)
  }

  predicate Stops(grandparents: Level, max: nat, o: Overlap, key: Key)
    requires o.index <= |grandparents|
  {
    Counted(grandparents, o, key).bytes > max
  }

  /** A stop starts the count again. */
  function Next(grandparents: Level, max: nat, o: Overlap, key: Key): (r: Overlap)
    requires o.index <= |grandparents|
    ensures r.index <= |grandparents| && r.bytes <= max
  {
    var r := Counted(grandparents, o, key);
    if r.bytes > max then r.(bytes := 0) else r
  }

  function OverlapAfter(grandparents: Level, max: nat, s: seq<Entry>, i: nat): (r: Overlap)
    requires i <= |s|
    ensures r.index <= |grandparents| && r.bytes <= max
  {
    if i == 0 then Overlap(0, false, 0)
    else Next(grandparents, max, OverlapAfter(grandparents, max, s, i - 1), s[i - 1].key)
  }

  predicate StopsAt(grandparents: Level, max: nat, s: seq<Entry>, i: nat)
    requires i < |s|
  {
    Stops(grandparents, max, OverlapAfter(grandparents, max, s, i), s[i].key)
  }

  lemma {:induction false} PassedJoin(grandparents: Level, i: nat, j: nat, k: nat)
    requires i <= j <= k <= |grandparents|
    ensures PassedBytes(grandparents, i, k) == PassedBytes(grandparents, i, j) + PassedBytes(grandparents, j, k)
  {
    if j < k {
      PassedJoin(grandparents, i, j, k - 1);
    }
  }

  /** Bytes counted since some earlier point. */
  ghost predicate CountedFrom(grandparents: Level, from: Overlap, to: Overlap) {
    && to.seen && from.index <= to.index <= |grandparents|
    && from.bytes + PassedBytes(grandparents, from.index, to.index) == to.bytes
  }

  lemma {:induction false} CountedOn(grandparents: Level, max: nat, from: Overlap, o: Overlap, key: Key)
    requires CountedFrom(grandparents, from, o) && !Stops(grandparents, max, o, key)
    ensures CountedFrom(grandparents, from, Next(grandparents, max, o, key))
  {
    PassedJoin(grandparents, from.index, o.index, Next(grandparents, max, o, key).index);
  }

  lemma {:induction false} OneNext(grandparents: Level, max: nat, s: seq<Entry>, i: nat)
    requires i < |s|
    ensures var o := OverlapAfter(grandparents, max, s, i + 1);
            o == Next(grandparents, max, OverlapAfter(grandparents, max, s, i), s[i].key) && o.seen
  {
  }

  /** From one entry to a later one without a stop in between, not too many bytes are passed. */
  lemma {:induction false} NoStopMeans(grandparents: Level, max: nat, s: seq<Entry>, a: nat, b: nat)
    requires a <= b < |s| && forall i :: a < i <= b ==> !StopsAt(grandparents, max, s, i)
    ensures var from, to := OverlapAfter(grandparents, max, s, a + 1), OverlapAfter(grandparents, max, s, b + 1);
            CountedFrom(grandparents, from, to) && to.bytes <= max
  {
    var from, o := OverlapAfter(grandparents, max, s, a + 1), OverlapAfter(grandparents, max, s, b);
    OneNext(grandparents, max, s, b);
    if a < b {
      NoStopMeans(grandparents, max, s, a, b - 1);
      assert !StopsAt(grandparents, max, s, b);
      CountedOn(grandparents, max, from, o, s[b].key);
    }
  }

  /** The search stands at the first grandparent that does not end before the last key. */
  lemma {:induction false} IndexMeans(grandparents: Level, max: nat, s: seq<Entry>, i: nat)
    requires i < |s| && Sorted(s)
    ensures OverlapAfter(grandparents, max, s, i + 1).index == Reach(grandparents, 0, s[i].key)
  {
    if i > 0 {
      IndexMeans(grandparents, max, s, i - 1);
      ReachFurther(grandparents, 0, s[i - 1].key, s[i].key);
    }
  }

  lemma {:induction false} ReachFurther(grandparents: Level, i: nat, key: Key, later: Key)
    requires i <= |grandparents| && AtOrBefore(key, later)
    ensures Reach(grandparents, Reach(grandparents, i, key), later) == Reach(grandparents, i, later)
    decreases |grandparents| - i
  {
    if i < |grandparents| && Before(grandparents[i].largest, key) {
      ReachFurther(grandparents, i + 1, key, later);
    }
  }

  // ----- the files that are cut -----

  /** What decides on a cut: the grandparents, how much of them may be passed, and how big a file gets. */
  datatype Limits = Limits(grandparents: Level, max: nat, fileSize: seq<Entry> -> nat, maxSize: nat)

  ghost predicate Stop(c: Limits, s: seq<Entry>, i: nat)
    requires i < |s|
  {
    StopsAt(c.grandparents, c.max, s, i)
  }

  /** No stop between the first key of a file, exclusively, and its last. */
  ghost predicate Unbroken(c: Limits, s: seq<Entry>, n: nat, first: Key, last: Key)
    requires n <= |s|
  {
    forall j: nat :: j < n && Stop(c, s, j) ==> !(Before(first, s[j].key) && AtOrBefore(s[j].key, last))
  }

  /** A file was ended because it was full, or by a stop behind it, and before the file that comes next. */
  ghost predicate Ended(c: Limits, s: seq<Entry>, n: nat, f: File, next: seq<Key>)
    requires n <= |s|
  {
    || c.fileSize(f.entries) >= c.maxSize
    || exists j: nat :: j < n && Stop(c, s, j) && Before(f.largest, s[j].key) &&
         (next != [] ==> AtOrBefore(s[j].key, next[0]))
  }

  /** Where the file behind output k starts, if there is one. */
  ghost function After(outputs: Level, building: seq<Entry>, k: nat): seq<Key>
    requires k < |outputs|
  {
    if k + 1 < |outputs| then [outputs[k + 1].smallest] else if building == [] then [] else [building[0].key]
  }

  /** All the entries so far come before the key. */
  ghost predicate AllBefore(outputs: Level, building: seq<Entry>, key: Key) {
    (forall f :: f in outputs ==> Before(f.largest, key)) && forall e :: e in building ==> Before(e.key, key)
  }

  ghost predicate CutSoFar(c: Limits, s: seq<Entry>, n: nat, outputs: Level, building: seq<Entry>)
    requires n <= |s|
  {
    && (forall k :: 0 <= k < |outputs| ==> Unbroken(c, s, n, outputs[k].smallest, outputs[k].largest))
    && (forall k :: 0 <= k < |outputs| ==> Ended(c, s, n, outputs[k], After(outputs, building, k)))
    && (building != [] ==> forall j: nat :: j < n && Stop(c, s, j) ==> !Before(building[0].key, s[j].key))
  }

  /** The file that is built of some entries. */
  ghost predicate BuiltOf(f: File, building: seq<Entry>) {
    && building != [] && f.entries == building
    && f.smallest == building[0].key && f.largest == building[|building| - 1].key
  }

  /** An entry at which there is a stop: the file being built ends. */
  lemma {:induction false} CutByStop(c: Limits, s: seq<Entry>, i: nat, outputs: Level, building: seq<Entry>, f: File)
    requires i < |s| && CutSoFar(c, s, i, outputs, building) && AllBefore(outputs, building, s[i].key)
    requires BuiltOf(f, building) && Stop(c, s, i)
    ensures CutSoFar(c, s, i + 1, outputs + [f], [])
  {
    var outputs' := outputs + [f];
    assert building[|building| - 1] in building;
    forall k | 0 <= k < |outputs'|
      ensures Unbroken(c, s, i + 1, outputs'[k].smallest, outputs'[k].largest)
      ensures Ended(c, s, i + 1, outputs'[k], After(outputs', [], k))
    {
      if k < |outputs| {
        assert outputs[k] in outputs;
        EndedLater(c, s, i, outputs[k], After(outputs, building, k));
      }
    }
  }

  lemma {:induction false} EndedLater(c: Limits, s: seq<Entry>, n: nat, f: File, next: seq<Key>)
    requires n < |s| && Ended(c, s, n, f, next)
    ensures Ended(c, s, n + 1, f, next)
  {
  }

  /** Without a stop, or with no file to end, everything stays. */
  lemma {:induction false} NotCut(c: Limits, s: seq<Entry>, i: nat, outputs: Level, building: seq<Entry>)
    requires i < |s| && CutSoFar(c, s, i, outputs, building) && AllBefore(outputs, building, s[i].key)
    requires building != [] ==> !Stop(c, s, i)
    ensures CutSoFar(c, s, i + 1, outputs, building)
  {
    forall k | 0 <= k < |outputs|
      ensures Unbroken(c, s, i + 1, outputs[k].smallest, outputs[k].largest)
      ensures Ended(c, s, i + 1, outputs[k], After(outputs, building, k))
    {
      assert outputs[k] in outputs;
      EndedLater(c, s, i, outputs[k], After(outputs, building, k));
    }
  }

  /** The entry is written. */
  lemma {:induction false} OneWritten(c: Limits, s: seq<Entry>, i: nat, outputs: Level, building: seq<Entry>)
    requires i < |s| && Sorted(s) && CutSoFar(c, s, i + 1, outputs, building)
    ensures CutSoFar(c, s, i + 1, outputs, building + [s[i]])
  {
    forall k | 0 <= k < |outputs| ensures Ended(c, s, i + 1, outputs[k], After(outputs, building + [s[i]], k)) {
      if k + 1 == |outputs| && building == [] {
        assert forall j: nat :: j < i + 1 ==> AtOrBefore(s[j].key, s[i].key);
      } else {
        assert After(outputs, building + [s[i]], k) == After(outputs, building, k);
      }
    }
  }

  /** A full file ends. */
  lemma {:induction false} CutFull(c: Limits, s: seq<Entry>, n: nat, outputs: Level, building: seq<Entry>, f: File)
    requires n <= |s| && CutSoFar(c, s, n, outputs, building) && BuiltOf(f, building)
    requires c.fileSize(building) >= c.maxSize
    ensures CutSoFar(c, s, n, outputs + [f], [])
  {
    var outputs' := outputs + [f];
    forall k | 0 <= k < |outputs'| ensures Ended(c, s, n, outputs'[k], After(outputs', [], k)) {
      if k < |outputs| {
        assert After(outputs', [], k) == After(outputs, building, k);
      }
    }
  }

  // ----- what has come of it -----

  /** No output goes on over a stop, and each but the last was ended by one or was full. */
  ghost predicate CutRight(c: Limits, s: seq<Entry>, outputs: Level) {
    && (forall k :: 0 <= k < |outputs| ==> Unbroken(c, s, |s|, outputs[k].smallest, outputs[k].largest))
    && forall k :: 0 <= k < |outputs| - 1 ==> Ended(c, s, |s|, outputs[k], [outputs[k + 1].smallest])
  }

  lemma {:induction false} NothingOpen(c: Limits, s: seq<Entry>, outputs: Level)
    requires CutSoFar(c, s, |s|, outputs, [])
    ensures CutRight(c, s, outputs)
  {
    forall k | 0 <= k < |outputs| - 1 ensures Ended(c, s, |s|, outputs[k], [outputs[k + 1].smallest]) {
      assert After(outputs, [], k) == [outputs[k + 1].smallest];
    }
  }

  lemma {:induction false} LastCut(c: Limits, s: seq<Entry>, outputs: Level, building: seq<Entry>, f: File)
    requires CutSoFar(c, s, |s|, outputs, building) && BuiltOf(f, building)
    ensures CutRight(c, s, outputs + [f])
  {
    var outputs' := outputs + [f];
    forall k | 0 <= k < |outputs'| - 1 ensures Ended(c, s, |s|, outputs'[k], [outputs'[k + 1].smallest]) {
      assert After(outputs, building, k) == [outputs'[k + 1].smallest];
    }
  }

  /** So no output reaches over more of the grandparents than it may: those that end at or after its first key and
      before its last add up to no more than the limit. */
  lemma {:induction false} ReachesOverLittle(c: Limits, s: seq<Entry>, outputs: Level, k: nat, a: nat, b: nat)
    requires Sorted(s) && CutRight(c, s, outputs) && k < |outputs| && a <= b < |s|
    requires outputs[k].smallest == s[a].key && outputs[k].largest == s[b].key
    ensures var from, to := Reach(c.grandparents, 0, outputs[k].smallest), Reach(c.grandparents, 0, outputs[k].largest);
            from <= to && PassedBytes(c.grandparents, from, to) <= c.max
  {
    forall i | a < i <= b ensures !StopsAt(c.grandparents, c.max, s, i) {
      assert Stop(c, s, i) ==> !(Before(s[a].key, s[i].key) && AtOrBefore(s[i].key, s[b].key));
      assert i == b || Before(s[i].key, s[b].key);
    }
    NoStopMeans(c.grandparents, c.max, s, a, b);
    IndexMeans(c.grandparents, c.max, s, a);
    IndexMeans(c.grandparents, c.max, s, b);
  }
}
