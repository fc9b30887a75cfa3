/** MergingIterator (table/merger): many sorted runs walked as one, in both directions.  Every operation is proved
    against the merge of the runs as one sorted sequence, also when the direction changes and the other children
    have to be turned round. */
module Merging {
  import opened Keys
  import opened Cursors

  // ----- the merged run -----

  function Merge(a: seq<Entry>, b: seq<Entry>): seq<Entry> {
    if a == [] then b
    else if b == [] then a
    else if Before(a[0].key, b[0].key) then [a[0]] + Merge(a[1..], b)
    else [b[0]] + Merge(a, b[1..])
  }

  function MergeAll(runs: seq<seq<Entry>>): seq<Entry> {
    if runs == [] then [] else Merge(runs[0], MergeAll(runs[1..]))
  }

  ghost predicate Apart(a: seq<Entry>, b: seq<Entry>) {
    forall x, y :: x in a && y in b ==> x.key != y.key
  }

  /** Each run is sorted, and no internal key occurs in two of them. */
  ghost predicate Mergeable(runs: seq<seq<Entry>>) {
    && (forall i :: 0 <= i < |runs| ==> Sorted(runs[i]))
    && forall i, j :: 0 <= i < j < |runs| ==> Apart(runs[i], runs[j])
  }

  lemma {:induction false} MergeHas(a: seq<Entry>, b: seq<Entry>, e: Entry)
    ensures e in Merge(a, b) <==> e in a || e in b
  {
    if a != [] && b != [] {
      if Before(a[0].key, b[0].key) {
        MergeHas(a[1..], b, e);
        assert a == [a[0]] + a[1..];
      } else {
        MergeHas(a, b[1..], e);
        assert b == [b[0]] + b[1..];
      }
    }
  }

  /** x comes before everything in s. */
  ghost predicate Heads(x: Entry, s: seq<Entry>) {
    forall e :: e in s ==> Before(x.key, e.key)
  }

  lemma {:induction false} ConsSorted(x: Entry, s: seq<Entry>)
    requires Sorted(s) && Heads(x, s)
    ensures Sorted([x] + s)
  {
  }

  lemma {:induction false} MergeSorted(a: seq<Entry>, b: seq<Entry>)
    requires Sorted(a) && Sorted(b) && Apart(a, b)
    ensures Sorted(Merge(a, b))
  {
    if a != [] && b != [] {
      if Before(a[0].key, b[0].key) {
        MergeSorted(a[1..], b);
        forall e | e in Merge(a[1..], b) ensures Before(a[0].key, e.key) { MergeHas(a[1..], b, e); }
        ConsSorted(a[0], Merge(a[1..], b));
      } else {
        assert a[0].key != b[0].key;
        MergeSorted(a, b[1..]);
        forall e | e in Merge(a, b[1..]) ensures Before(b[0].key, e.key) { MergeHas(a, b[1..], e); }
        ConsSorted(b[0], Merge(a, b[1..]));
      }
    }
  }

  lemma {:induction false} MergeAllHas(runs: seq<seq<Entry>>, e: Entry)
    ensures e in MergeAll(runs) <==> exists i :: 0 <= i < |runs| && e in runs[i]
  {
    if runs != [] {
      MergeHas(runs[0], MergeAll(runs[1..]), e);
      MergeAllHas(runs[1..], e);
      if i :| 0 <= i < |runs| && e in runs[i] {
        assert i == 0 || runs[1..][i - 1] == runs[i];
      }
      if i :| 0 <= i < |runs[1..]| && e in runs[1..][i] {
        assert e in runs[i + 1];
      }
    }
  }

  lemma {:induction false} MergeAllSorted(runs: seq<seq<Entry>>)
    requires Mergeable(runs)
    ensures Sorted(MergeAll(runs))
  {
    if runs != [] {
      assert Mergeable(runs[1..]);
      MergeAllSorted(runs[1..]);
      forall x, y | x in runs[0] && y in MergeAll(runs[1..]) ensures x.key != y.key {
        MergeAllHas(runs[1..], y);
        var i :| 0 <= i < |runs[1..]| && y in runs[1..][i];
        assert Apart(runs[0], runs[i + 1]);
      }
      MergeSorted(runs[0], MergeAll(runs[1..]));
    }
  }

  lemma {:induction false} PlaceOf(s: seq<Entry>, p: nat, q: nat)
    requires Sorted(s) && p < |s| && q < |s|
    ensures Before(s[p].key, s[q].key) <==> p < q
    ensures s[p].key == s[q].key <==> p == q
  {
  }

  datatype Direction = Forward | Reverse

  ghost predicate Part(s: seq<Entry>, merged: seq<Entry>) {
    forall e :: e in s ==> e in merged
  }

  /** The first n entries of run s lie among the first lo merged entries, the others after them. */
  ghost predicate Cut(s: seq<Entry>, n: int, merged: seq<Entry>, lo: int) {
    && 0 <= n <= |s| && 0 <= lo <= |merged|
    && (0 < n ==> 0 < lo && forall i :: 0 <= i < n ==> AtOrBefore(s[i].key, merged[lo - 1].key))
    && (n < |s| ==> lo < |merged| && forall i :: n <= i < |s| ==> AtOrBefore(merged[lo].key, s[i].key))
  }

  lemma {:induction false} IndexIn(s: seq<Entry>, i: nat, merged: seq<Entry>) returns (q: nat)
    requires i < |s| && Part(s, merged)
    ensures q < |merged| && merged[q] == s[i]
  {
    assert s[i] in merged;
    q :| 0 <= q < |merged| && merged[q] == s[i];
  }

  /** Seeking a run and the merged run to the same target cuts one at the other. */
  lemma {:induction false} SeekCuts(s: seq<Entry>, p: int, merged: seq<Entry>, target: InternalKey<UserKey>, lo: int)
    requires Sorted(s) && Sorted(merged) && Part(s, merged)
    requires SeeksTo(s, target, p) && SeeksTo(merged, target, lo)
    ensures Cut(s, p, merged, lo)
  {
    if 0 < p { var q := IndexIn(s, p - 1, merged); }
    if p < |s| { var q := IndexIn(s, p, merged); }
  }

  /** Where the target is merged[lo] itself, the cut after it starts behind the run's own copy, if any. */
  lemma {:induction false} SeekCutsAfter(s: seq<Entry>, p: int, merged: seq<Entry>, lo: int)
    requires Sorted(s) && Sorted(merged) && Part(s, merged) && 0 <= lo < |merged|
    requires SeeksTo(s, merged[lo].key, p)
    ensures if p < |s| && s[p].key == merged[lo].key then Cut(s, p + 1, merged, lo + 1) else Cut(s, p, merged, lo + 1)
  {
    if p < |s| { var q := IndexIn(s, p, merged); }
    if p + 1 < |s| { var q := IndexIn(s, p + 1, merged); }
  }

  lemma {:induction false} EndsCut(s: seq<Entry>, merged: seq<Entry>)
    requires Sorted(s) && Sorted(merged) && Part(s, merged)
    ensures Cut(s, 0, merged, 0) && Cut(s, |s|, merged, |merged|)
  {
    if s != [] {
      var q := IndexIn(s, 0, merged);
      q := IndexIn(s, |s| - 1, merged);
    }
  }

  /** A run that does not hold merged[lo] is cut after it where it was cut before it. */
  lemma {:induction false} OthersCut(s: seq<Entry>, n: int, merged: seq<Entry>, lo: int, other: seq<Entry>)
    requires Sorted(s) && Sorted(merged) && Part(s, merged)
    requires 0 <= lo < |merged| && merged[lo] in other && Apart(s, other)
    ensures Cut(s, n, merged, lo) <==> Cut(s, n, merged, lo + 1)
  {
    if 0 < n <= |s| {
      assert s[n - 1] in s;
      var q := IndexIn(s, n - 1, merged);
    }
    if 0 <= n < |s| {
      assert s[n] in s;
      var q := IndexIn(s, n, merged);
    }
  }

  class MergingIterator {
    const children: seq<Cursor>
    /** The index of the child the iterator stands on; -1 is the source's null current_. */
    var current: int
    var direction: Direction
    ghost const merged: seq<Entry>
    /** The place in the merged run, |merged| when not valid. */
    ghost var at: nat

    /** What never changes. */
    ghost predicate Fixed() {
      && (forall i, j :: 0 <= i < j < |children| ==> children[i] != children[j])
      && (forall i :: 0 <= i < |children| ==> Sorted(children[i].entries))
      && Mergeable(Runs(children)) && merged == MergeAll(Runs(children))
    }

    lemma {:induction false} PartOf(i: nat)
      requires Fixed() && i < |children|
      ensures Sorted(merged) && Part(children[i].entries, merged)
    {
      var runs := Runs(children);
      MergeAllSorted(runs);
      forall e | e in children[i].entries ensures e in merged {
        assert e in runs[i];
        MergeAllHas(runs, e);
      }
    }

    /** Every merged entry comes from some child. */
    lemma {:induction false} Owner(q: nat) returns (i: nat, k: nat)
      requires Fixed() && q < |merged|
      ensures i < |children| && k < |children[i].entries| && children[i].entries[k] == merged[q]
    {
      var runs := Runs(children);
      MergeAllHas(runs, merged[q]);
      i :| 0 <= i < |runs| && merged[q] in runs[i];
      k :| 0 <= k < |runs[i]| && runs[i][k] == merged[q];
    }

    ghost predicate Shape()
      reads children
    {
      Fixed() && forall i :: 0 <= i < |children| ==> children[i].pos <= |children[i].entries|
    }

    /** How many entries of a child lie behind it when moving in direction d. */
    ghost function Passed(d: Direction, c: Cursor): int
      reads c
    {
      if d == Forward then c.pos else if c.Valid() then c.pos + 1 else 0
    }

    /** Every child but `except` is cut where the merged run is cut at lo. */
    ghost predicate AllCut(d: Direction, lo: int, except: int)
      reads children
    {
      forall i :: 0 <= i < |children| && i != except ==> Cut(children[i].entries, Passed(d, children[i]), merged, lo)
    }

    ghost predicate Standing()
      reads this, children
    {
      && 0 <= current < |children| && at < |merged| && children[current].Valid()
      && merged[at] == children[current].entries[children[current].pos]
    }

    ghost predicate Ok()
      reads this, children
    {
      && Shape()
      && (if current == -1 then at == |merged|
          else Standing() && AllCut(direction, if direction == Forward then at + 1 else at, current))
    }

    /** It walks a sorted run, and stands at its end when it is not valid. */
    lemma {:induction false} InOrder()
      requires Ok()
      ensures Sorted(merged) && at <= |merged| && (Valid() <==> at < |merged|)
    {
      MergeAllSorted(Runs(children));
    }

    constructor (children: seq<Cursor>)
      requires forall i, j :: 0 <= i < j < |children| ==> children[i] != children[j]
      requires forall i :: 0 <= i < |children| ==> children[i].Ok()
      requires Mergeable(Runs(children))
      ensures Ok() && this.children == children && !Valid()
      ensures merged == MergeAll(Runs(children))
    {
      this.children := children;
      current, direction := -1, Forward;
      ghost var m := MergeAll(Runs(children));
      merged, at := m, |m|;
      assert forall i :: 0 <= i < |children| ==> children[i].entries == Runs(children)[i];
    }

    predicate Valid()
      reads this
    {
      current != -1
    }

    function Key(): (k: InternalKey<UserKey>)
      requires Ok() && Valid()
      reads this, children
      ensures at < |merged| && k == merged[at].key
    {
      children[current].Key()
    }

    function Value(): (v: Bytes)
      requires Ok() && Valid()
      reads this, children
      ensures at < |merged| && v == merged[at].value
    {
      children[current].Value()
    }

    /** The next merged entry is at the front of some child, and each front is at or after it. */
    lemma {:induction false} Fronts(lo: nat)
      requires Shape() && AllCut(Forward, lo, -1) && lo <= |merged|
      ensures forall i :: 0 <= i < |children| && children[i].Valid() ==>
                lo < |merged| && AtOrBefore(merged[lo].key, children[i].Key())
                && (children[i].Key() == merged[lo].key ==> children[i].entries[children[i].pos] == merged[lo])
      ensures lo < |merged| ==>
              exists i :: 0 <= i < |children| && children[i].Valid() &&
                  children[i].Key() == merged[lo].key
    {
      forall i | 0 <= i < |children| && children[i].Valid() && lo < |merged| && children[i].Key() == merged[lo].key
        ensures children[i].entries[children[i].pos] == merged[lo]
      {
        PartOf(i);
        var q := IndexIn(children[i].entries, children[i].pos, merged);
      }
      if lo < |merged| {
        var i, k := Owner(lo);
        FrontIs(children[i].entries, children[i].pos, lo, k);
      }
    }

    lemma {:induction false} FrontIs(s: seq<Entry>, n: int, lo: nat, k: nat)
      requires Sorted(s) && lo < |merged| && Cut(s, n, merged, lo) && k < |s| && s[k] == merged[lo]
      requires Fixed()
      ensures n == k
    {
      MergeAllSorted(Runs(children));
      if n < |s| { PlaceOf(s, n, k); }
      if 0 < lo { PlaceOf(merged, lo - 1, lo); }
    }

    method SmallestChild() returns (smallest: int)
      requires Shape()
      ensures smallest == -1 || (0 <= smallest < |children| && children[smallest].Valid())
      ensures forall i :: 0 <= i < |children| && children[i].Valid() ==>
                smallest != -1 && AtOrBefore(children[smallest].Key(), children[i].Key())
    {
      smallest := -1;
      for i := 0 to |children|
        invariant smallest == -1 || (0 <= smallest < i && children[smallest].Valid())
        invariant forall j :: 0 <= j < i && children[j].Valid() ==>
                    smallest != -1 && AtOrBefore(children[smallest].Key(), children[j].Key())
      {
        if children[i].Valid() {
          if smallest == -1 {
            smallest := i;
          } else if Before(children[i].Key(), children[smallest].Key()) {
            smallest := i;
          }
        }
      }
    }

    /** Moving the cut across merged[p], which `chosen` holds, leaves every other child cut. */
    lemma {:induction false} AllButCut(d: Direction, chosen: int, p: int, lo: nat)
      requires Shape() && AllCut(d, lo, -1) && (lo == p || lo == p + 1) && 0 <= p < |merged|
      requires 0 <= chosen < |children| && merged[p] in children[chosen].entries
      ensures AllCut(d, p, chosen) && AllCut(d, p + 1, chosen)
    {
      forall i | 0 <= i < |children| && i != chosen
        ensures Cut(children[i].entries, Passed(d, children[i]), merged, p)
        ensures Cut(children[i].entries, Passed(d, children[i]), merged, p + 1)
      {
        PartOf(i);
        assert Apart(children[i].entries, children[chosen].entries) by {
          assert Apart(Runs(children)[if i < chosen then i else chosen],
              Runs(children)[if i < chosen then chosen else i]);
        }
        OthersCut(children[i].entries, Passed(d, children[i]), merged, p, children[chosen].entries);
      }
    }

    /** Chooses the child with the least key: the merged run goes on at lo. */
    method FindSmallest(ghost lo: nat)
      requires Shape() && direction == Forward && AllCut(Forward, lo, -1) && lo <= |merged|
      modifies this`current, this`at
      ensures Ok() && at == lo
    {
      var smallest := SmallestChild();
      Fronts(lo);
      if smallest != -1 {
        AllButCut(Forward, smallest, lo, lo);
      }
      current := smallest;
      at := lo;
    }

    /** The last merged entry before lo is at the back of some child, and each back is at or before it. */
    lemma {:induction false} Backs(lo: nat)
      requires Shape() && AllCut(Reverse, lo, -1) && lo <= |merged|
      ensures forall i :: 0 <= i < |children| && children[i].Valid() ==>
                0 < lo && AtOrBefore(children[i].Key(), merged[lo - 1].key)
                && (children[i].Key() == merged[lo - 1].key ==> children[i].entries[children[i].pos] == merged[lo - 1])
      ensures 0 < lo ==>
              exists i :: 0 <= i < |children| && children[i].Valid() &&
                  children[i].Key() == merged[lo - 1].key
    {
      forall i | 0 <= i < |children| && children[i].Valid() && 0 < lo && children[i].Key() == merged[lo - 1].key
        ensures children[i].entries[children[i].pos] == merged[lo - 1]
      {
        PartOf(i);
        var q := IndexIn(children[i].entries, children[i].pos, merged);
      }
      if 0 < lo {
        var i, k := Owner(lo - 1);
        BackIs(children[i].entries, Passed(Reverse, children[i]), lo, k);
      }
    }

    lemma {:induction false} BackIs(s: seq<Entry>, n: int, lo: nat, k: nat)
      requires Sorted(s) && 0 < lo <= |merged| && Cut(s, n, merged, lo) && k < |s| && s[k] == merged[lo - 1]
      requires Fixed()
      ensures n == k + 1
    {
      MergeAllSorted(Runs(children));
      if 0 < n { PlaceOf(s, n - 1, k); }
      if lo < |merged| { PlaceOf(merged, lo - 1, lo); }
    }

    method LargestChild() returns (largest: int)
      requires Shape()
      ensures largest == -1 || (0 <= largest < |children| && children[largest].Valid())
      ensures forall i :: 0 <= i < |children| && children[i].Valid() ==>
                largest != -1 && AtOrBefore(children[i].Key(), children[largest].Key())
    {
      largest := -1;
      for i := |children| downto 0
        invariant largest == -1 || (i <= largest < |children| && children[largest].Valid())
        invariant forall j :: i <= j < |children| && children[j].Valid() ==>
                    largest != -1 && AtOrBefore(children[j].Key(), children[largest].Key())
      {
        if children[i].Valid() {
          if largest == -1 {
            largest := i;
          } else if Before(children[largest].Key(), children[i].Key()) {
            largest := i;
          }
        }
      }
    }

    /** Chooses the child with the greatest key: the merged run goes on, backward, below lo. */
    method FindLargest(ghost lo: nat)
      requires Shape() && direction == Reverse && AllCut(Reverse, lo, -1) && lo <= |merged|
      modifies this`current, this`at
      ensures Ok() && at == if lo == 0 then |merged| else lo - 1
    {
      var largest := LargestChild();
      Backs(lo);
      if largest != -1 {
        AllButCut(Reverse, largest, lo - 1, lo);
      }
      current := largest;
      at := if lo == 0 then |merged| else lo - 1;
    }

    method SeekToFirst()
      requires Ok()
      modifies this, children
      ensures Ok() && at == 0
    {
      for i := 0 to |children|
        invariant Shape() && forall j :: 0 <= j < i ==> children[j].pos == 0
      {
        children[i].SeekToFirst();
      }
      direction := Forward;
      forall i | 0 <= i < |children| ensures Cut(children[i].entries, 0, merged, 0) {
        PartOf(i);
        EndsCut(children[i].entries, merged);
      }
      FindSmallest(0);
    }

    method SeekToLast()
      requires Ok()
      modifies this, children
      ensures Ok() && at == LastPosition(merged)
    {
      for i := 0 to |children|
        invariant Shape() && forall j :: 0 <= j < i ==> children[j].pos == LastPosition(children[j].entries)
      {
        children[i].SeekToLast();
      }
      direction := Reverse;
      forall i | 0 <= i < |children| ensures Cut(children[i].entries, |children[i].entries|, merged, |merged|) {
        PartOf(i);
        EndsCut(children[i].entries, merged);
      }
      FindLargest(|merged|);
    }

    method Seek(target: InternalKey<UserKey>)
      requires Ok()
      modifies this, children
      ensures Ok() && SeeksTo(merged, target, at)
    {
      for i := 0 to |children|
        invariant Shape() && forall j :: 0 <= j < i ==> SeeksTo(children[j].entries, target, children[j].pos)
      {
        children[i].Seek(target);
      }
      assert Sorted(merged) by { MergeAllSorted(Runs(children)); }
      ghost var lo := SeekPlace(merged, target);
      direction := Forward;
      forall i | 0 <= i < |children| ensures Cut(children[i].entries, children[i].pos, merged, lo) {
        PartOf(i);
        SeekCuts(children[i].entries, children[i].pos, merged, target, lo);
      }
      FindSmallest(lo);
    }

    method Next()
      requires Ok() && Valid()
      modifies this, children
      ensures Ok() && at == old(at) + 1
    {
      FaceForward();
      Advance();
      FindSmallest(at + 1);
    }

    method FaceForward()
      requires Ok() && Valid()
      modifies this`direction, children
      ensures Shape() && Standing() && direction == Forward && AllCut(Forward, at + 1, current)
    {
      if direction != Forward {
        TurnForward();
        direction := Forward;
      }
    }

    /** Moves the current child past the current entry. */
    method Advance()
      requires Shape() && Standing() && AllCut(Forward, at + 1, current)
      modifies children
      ensures Shape() && AllCut(Forward, at + 1, -1)
    {
      CurrentCut();
      children[current].Next();
    }

    method Prev()
      requires Ok() && Valid()
      modifies this, children
      ensures Ok() && at == PrevPosition(merged, old(at))
    {
      if direction != Reverse {
        TurnBack();
        direction := Reverse;
      }
      CurrentCut();
      children[current].Prev();
      FindLargest(at);
    }

    /** Positions every child but the current one after key(). */
    method TurnForward()
      requires Shape() && Standing()
      modifies children
      ensures Shape() && Standing() && AllCut(Forward, at + 1, current)
    {
      var key := children[current].Key();
      for i := 0 to |children|
        invariant Shape() && children[current].pos == old(children[current].pos)
        invariant forall j :: 0 <= j < i && j != current ==>
                  Cut(children[j].entries, Passed(Forward, children[j]), merged, at + 1)
      {
        if i != current {
          assert Sorted(merged) && Part(children[i].entries, merged) by { PartOf(i); }
          PlaceAfter(children[i], key);
        }
      }
    }

    /** Positions every child but the current one before key(). */
    method TurnBack()
      requires Shape() && Standing()
      modifies children
      ensures Shape() && Standing() && AllCut(Reverse, at, current)
    {
      var key := children[current].Key();
      for i := 0 to |children|
        invariant Shape() && children[current].pos == old(children[current].pos)
        invariant forall j :: 0 <= j < i && j != current ==>
                  Cut(children[j].entries, Passed(Reverse, children[j]), merged, at)
      {
        if i != current {
          assert Sorted(merged) && Part(children[i].entries, merged) by { PartOf(i); }
          PlaceBefore(children[i], key);
        }
      }
    }

    /** Ensures that the child is positioned after key. */
    method PlaceAfter(child: Cursor, key: InternalKey<UserKey>)
      requires child.Ok() && Sorted(merged) && Part(child.entries, merged)
      requires at < |merged| && merged[at].key == key
      modifies child
      ensures child.Ok() && Cut(child.entries, Passed(Forward, child), merged, at + 1)
    {
      child.Seek(key);
      SeekCutsAfter(child.entries, child.pos, merged, at);
      if child.Valid() && child.Key() == key {
        child.Next();
      }
    }

    /** Ensures that the child is positioned before key. */
    method PlaceBefore(child: Cursor, key: InternalKey<UserKey>)
      requires child.Ok() && Sorted(merged) && Part(child.entries, merged)
      requires at < |merged| && merged[at].key == key
      modifies child
      ensures child.Ok() && Cut(child.entries, Passed(Reverse, child), merged, at)
    {
      child.Seek(key);
      SeekCuts(child.entries, child.pos, merged, key, at);
      if child.Valid() {
        // it stands past the key now, so its last entry before the key is one back
        child.Prev();
      } else {
        // all of its entries come before the key
        child.SeekToLast();
      }
    }

    /** The current child itself is cut on both sides of its entry. */
    lemma {:induction false} CurrentCut()
      requires Shape() && Standing()
      ensures Cut(children[current].entries, children[current].pos, merged, at)
      ensures Cut(children[current].entries, children[current].pos + 1, merged, at + 1)
    {
      PartOf(current);
      SeekCuts(children[current].entries, children[current].pos, merged, merged[at].key, at);
      SeekCutsAfter(children[current].entries, children[current].pos, merged, at);
    }
  }

  ghost function Runs(children: seq<Cursor>): seq<seq<Entry>> {
    seq(|children|, i requires 0 <= i < |children| => children[i].entries)
  }
}
