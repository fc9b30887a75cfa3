/** Entries, sorted runs of entries, and the plain index that every iterator of the store refines. */
module Cursors {
  import opened Keys

  datatype Entry = Entry(key: InternalKey<UserKey>, value: Bytes)

  ghost predicate Sorted(s: seq<Entry>) {
    forall i, j :: 0 <= i < j < |s| ==> Before(s[i].key, s[j].key)
  }

  /** p is where Seek(target) lands: the first entry at or after target, or |s| (not valid). */
  ghost predicate SeeksTo(s: seq<Entry>, target: InternalKey<UserKey>, p: int) {
    && 0 <= p <= |s|
    && (forall i :: 0 <= i < p ==> Before(s[i].key, target))
    && (forall i :: p <= i < |s| ==> AtOrBefore(target, s[i].key))
  }

  /** Every target has such a place. */
  lemma {:induction false} SeekPlace(s: seq<Entry>, target: InternalKey<UserKey>) returns (p: nat)
    requires Sorted(s)
    ensures SeeksTo(s, target, p)
  {
    p := 0;
    while p < |s| && Before(s[p].key, target)
      invariant p <= |s| && forall i :: 0 <= i < p ==> Before(s[i].key, target)
    {
      p := p + 1;
    }
  }

  /** Positions are 0..|s|, and |s| stands for "not valid" on either side, as in LevelFileNumIterator. */
  function LastPosition(s: seq<Entry>): nat {
    if s == [] then 0 else |s| - 1
  }

  function PrevPosition(s: seq<Entry>, p: nat): nat {
    if p == 0 then |s| else p - 1
  }

  /** An iterator over one sorted run: the interface in include/leveldb/iterator.h by its meaning. */
  class Cursor {
    const entries: seq<Entry>
    var pos: nat

    ghost predicate Ok()
      reads this
    {
      Sorted(entries) && pos <= |entries|
    }

    constructor (entries: seq<Entry>)
      requires Sorted(entries)
      ensures Ok() && this.entries == entries && pos == |entries|
    {
      this.entries := entries;
      pos := |entries|;
    }

    predicate Valid()
      reads this
    {
      pos < |entries|
    }

    function Key(): InternalKey<UserKey>
      requires Valid()
      reads this
    {
      entries[pos].key
    }

    function Value(): Bytes
      requires Valid()
      reads this
    {
      entries[pos].value
    }

    method SeekToFirst()
      requires Ok()
      modifies this
      ensures Ok() && pos == 0
    {
      pos := 0;
    }

    method SeekToLast()
      requires Ok()
      modifies this
      ensures Ok() && pos == LastPosition(entries)
    {
      pos := if entries == [] then 0 else |entries| - 1;
    }

    method Next()
      requires Ok() && Valid()
      modifies this
      ensures Ok() && pos == old(pos) + 1
    {
      pos := pos + 1;
    }

    method Prev()
      requires Ok() && Valid()
      modifies this
      ensures Ok() && pos == PrevPosition(entries, old(pos))
    {
      pos := if pos == 0 then |entries| else pos - 1;
    }

    method Seek(target: InternalKey<UserKey>)
      requires Ok()
      modifies this
      ensures Ok() && SeeksTo(entries, target, pos)
    {
      var left, right := 0, |entries|;
      while left < right
        invariant 0 <= left <= right <= |entries|
        invariant forall i :: 0 <= i < left ==> Before(entries[i].key, target)
        invariant forall i :: right <= i < |entries| ==> AtOrBefore(target, entries[i].key)
      {
        var mid := (left + right) / 2;
        if Before(entries[mid].key, target) {
          left := mid + 1;
        } else {
          right := mid;
        }
      }
      pos := right;
    }
  }
}
