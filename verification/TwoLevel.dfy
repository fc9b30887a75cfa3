/** TwoLevelIterator (table/two_level_iterator): an index run whose values name blocks, walked as the concatenation of
    the blocks, over blocks that are empty and past blocks that are exhausted. */
module TwoLevel {
  import opened Keys
  import opened Cursors

  /** block_function: what block an index value stands for. */
  type BlockFunction = Bytes -> seq<Entry>

  ghost function Flat(index: seq<Entry>, block: BlockFunction): seq<Entry> {
    if index == [] then []
    else Flat(index[..|index| - 1], block) + block(index[|index| - 1].value)
  }

  /** Where block i starts in the concatenation. */
  ghost function Offset(index: seq<Entry>, block: BlockFunction, i: nat): nat
    requires i <= |index|
  {
    |Flat(index[..i], block)|
  }

  /** Index key i is at or after every key of block i, and every key of block i is after index key i - 1. */
  ghost predicate Tile(index: seq<Entry>, block: BlockFunction, i: int)
    requires 0 <= i < |index|
  {
    && Sorted(block(index[i].value))
    && (forall e :: e in block(index[i].value) ==> AtOrBefore(e.key, index[i].key))
    && (0 < i ==> forall e :: e in block(index[i].value) ==> Before(index[i - 1].key, e.key))
  }

  ghost predicate TiledUpTo(index: seq<Entry>, block: BlockFunction, n: nat)
    requires n <= |index|
  {
    n == 0 || (TiledUpTo(index, block, n - 1) && Tile(index, block, n - 1))
  }

  ghost predicate Tiled(index: seq<Entry>, block: BlockFunction) {
    Sorted(index) && TiledUpTo(index, block, |index|)
  }

  lemma {:induction false} TileAt(index: seq<Entry>, block: BlockFunction, n: nat, i: nat)
    requires i < n <= |index| && TiledUpTo(index, block, n)
    ensures Tile(index, block, i)
  {
    if i < n - 1 {
      TileAt(index, block, n - 1, i);
    }
  }

  lemma {:induction false} OffsetStep(index: seq<Entry>, block: BlockFunction, i: nat)
    requires i < |index|
    ensures Offset(index, block, i + 1) == Offset(index, block, i) + |block(index[i].value)|
    ensures Flat(index[..i + 1], block) == Flat(index[..i], block) + block(index[i].value)
  {
    assert index[..i + 1][..i] == index[..i];
  }

  lemma {:induction false} FlatPrefix(index: seq<Entry>, block: BlockFunction, i: nat, j: nat)
    requires i <= j <= |index|
    ensures Flat(index[..i], block) <= Flat(index[..j], block)
    decreases j
  {
    if i < j {
      FlatPrefix(index, block, i, j - 1);
      OffsetStep(index, block, j - 1);
    }
  }

  /** Entry k of block i is entry Offset(i) + k of the concatenation. */
  lemma {:induction false} FlatAt(index: seq<Entry>, block: BlockFunction, i: nat, k: nat)
    requires i < |index| && k < |block(index[i].value)|
    ensures Offset(index, block, i) + k < |Flat(index, block)|
    ensures Flat(index, block)[Offset(index, block, i) + k] == block(index[i].value)[k]
  {
    OffsetStep(index, block, i);
    FlatPrefix(index, block, i + 1, |index|);
    assert index[..|index|] == index;
  }

  lemma {:induction false} FlatBelow(index: seq<Entry>, block: BlockFunction, n: nat, f: nat)
    requires Tiled(index, block) && n <= |index| && f < |Flat(index[..n], block)|
    ensures 0 < n && AtOrBefore(Flat(index[..n], block)[f].key, index[n - 1].key)
    decreases n
  {
    if 0 < n {
      OffsetStep(index, block, n - 1);
      if f < Offset(index, block, n - 1) {
        FlatBelow(index, block, n - 1, f);
        assert Before(index[n - 2].key, index[n - 1].key);
      } else {
        TileAt(index, block, |index|, n - 1);
      }
    }
  }

  lemma {:induction false} FlatSorted(index: seq<Entry>, block: BlockFunction, n: nat)
    requires Tiled(index, block) && n <= |index|
    ensures Sorted(Flat(index[..n], block))
    decreases n
  {
    if n == 0 {
      assert index[..n] == [];
    } else {
      FlatSorted(index, block, n - 1);
      TileAt(index, block, |index|, n - 1);
      OffsetStep(index, block, n - 1);
      var front, last := Flat(index[..n - 1], block), block(index[n - 1].value);
      forall x, y | x in front && y in last ensures Before(x.key, y.key) {
        FrontBefore(index, block, n - 1, x, y);
      }
      AppendSorted(front, last);
    }
  }

  lemma {:induction false} FrontBefore(index: seq<Entry>, block: BlockFunction, n: nat, x: Entry, y: Entry)
    requires Tiled(index, block) && n < |index|
    requires x in Flat(index[..n], block) && y in block(index[n].value)
    ensures Before(x.key, y.key)
  {
    var f :| 0 <= f < |Flat(index[..n], block)| && Flat(index[..n], block)[f] == x;
    FlatBelow(index, block, n, f);
    TileAt(index, block, |index|, n);
  }

  lemma {:induction false} AppendSorted(a: seq<Entry>, b: seq<Entry>)
    requires Sorted(a) && Sorted(b)
    requires forall x, y :: x in a && y in b ==> Before(x.key, y.key)
    ensures Sorted(a + b)
  {
    forall i, j | 0 <= i < j < |a + b| ensures Before((a + b)[i].key, (a + b)[j].key) {
      if i < |a| <= j {
        assert a[i] in a && b[j - |a|] in b;
      }
    }
  }

  /** The index seek and then the block seek split the concatenation at the target. */
  lemma {:induction false} SeekSplits(index: seq<Entry>, block: BlockFunction, target: InternalKey<UserKey>, i: nat,
                                      p: nat)
    requires Tiled(index, block) && SeeksTo(index, target, i)
    requires i < |index| ==> SeeksTo(block(index[i].value), target, p)
    ensures SeeksTo(Flat(index, block), target, if i < |index| then Offset(index, block, i) + p
            else |Flat(index, block)|)
  {
    var all := Flat(index, block);
    assert index[..|index|] == index;
    if i < |index| {
      OffsetStep(index, block, i);
      FlatPrefix(index, block, i + 1, |index|);
    }
    forall f | 0 <= f < |all|
      ensures Before(all[f].key, target) <==> i == |index| || f < Offset(index, block, i) + p
    {
      SeekSide(index, block, target, i, p, f);
    }
  }

  lemma {:induction false} SeekSide(index: seq<Entry>, block: BlockFunction, target: InternalKey<UserKey>, i: nat,
                                    p: nat, f: nat)
    requires Tiled(index, block) && SeeksTo(index, target, i) && f < |Flat(index, block)|
    requires i < |index| ==> SeeksTo(block(index[i].value), target, p)
    ensures Before(Flat(index, block)[f].key, target) <==> i == |index| || f < Offset(index, block, i) + p
  {
    assert index[..|index|] == index;
    if f < Offset(index, block, i) {
      SeekSideBelow(index, block, target, i, f);
    } else if i < |index| {
      OffsetStep(index, block, i);
      if f < Offset(index, block, i + 1) {
        FlatAt(index, block, i, f - Offset(index, block, i));
      } else {
        SeekSideAbove(index, block, target, i, f);
      }
    }
  }

  lemma {:induction false} SeekSideBelow(index: seq<Entry>, block: BlockFunction, target: InternalKey<UserKey>,
                                         i: nat, f: nat)
    requires Tiled(index, block) && i <= |index| && f < Offset(index, block, i) && f < |Flat(index, block)|
    requires 0 < i ==> Before(index[i - 1].key, target)
    ensures Before(Flat(index, block)[f].key, target)
  {
    assert index[..|index|] == index;
    FlatPrefix(index, block, i, |index|);
    FlatBelow(index, block, i, f);
  }

  lemma {:induction false} SeekSideAbove(index: seq<Entry>, block: BlockFunction, target: InternalKey<UserKey>,
                                         i: nat, f: nat)
    requires Tiled(index, block) && i < |index| && Offset(index, block, i + 1) <= f < |Flat(index, block)|
    requires AtOrBefore(target, index[i].key)
    ensures !Before(Flat(index, block)[f].key, target)
  {
    assert index[..|index|] == index;
    FlatAbove(index, block, i + 1, |index|, f);
  }

  /** The block that entry f of the concatenation of the first n is in. */
  lemma {:induction false} BlockOf(index: seq<Entry>, block: BlockFunction, n: nat, f: nat) returns (j: nat)
    requires n <= |index| && f < |Flat(index[..n], block)|
    ensures j < n && f < Offset(index, block, j + 1) && Flat(index[..n], block)[f] in block(index[j].value)
  {
    j := n - 1;
    OffsetStep(index, block, n - 1);
    if f < Offset(index, block, n - 1) {
      j := BlockOf(index, block, n - 1, f);
    } else {
      assert Flat(index[..n], block)[f] == block(index[n - 1].value)[f - Offset(index, block, n - 1)];
    }
  }

  /** What follows block i - 1 in the concatenation is after that block's index key. */
  lemma {:induction false} FlatAbove(index: seq<Entry>, block: BlockFunction, i: nat, n: nat, f: nat)
    requires Tiled(index, block) && 0 < i <= n <= |index|
    requires Offset(index, block, i) <= f < |Flat(index[..n], block)|
    ensures Before(index[i - 1].key, Flat(index[..n], block)[f].key)
  {
    var j := BlockOf(index, block, n, f);
    if j < i {
      FlatPrefix(index, block, j + 1, i);
    }
    BlockAbove(index, block, i, j, Flat(index[..n], block)[f]);
  }

  lemma {:induction false} BlockAbove(index: seq<Entry>, block: BlockFunction, i: nat, j: nat, e: Entry)
    requires Tiled(index, block) && 0 < i <= j < |index| && e in block(index[j].value)
    ensures Before(index[i - 1].key, e.key)
  {
    TileAt(index, block, |index|, j);
    assert i == j || Before(index[i - 1].key, index[j - 1].key);
  }

  class TwoLevelIterator {
    const index: Cursor
    const block: BlockFunction
    var data: Cursor?
    var handle: Bytes
    /** The place in the concatenation; its length when not valid. */
    ghost var at: nat

    ghost function All(): seq<Entry> {
      Flat(index.entries, block)
    }

    /** data stands in the block the index stands on, or there is neither. */
    ghost predicate Shape()
      reads this, index, data
    {
      && Tiled(index.entries, block) && index.Ok()
      && (data == null <==> !index.Valid())
      && (data != null ==>
            && data != index && data.Ok() && handle == index.entries[index.pos].value
            && data.entries == block(handle))
    }

    ghost predicate Ok()
      reads this, index, data
    {
      && Tiled(index.entries, block) && index.Ok()
      && (if data == null then at == |All()|
          else Shape() && data.Valid() && at == Offset(index.entries, block, index.pos) + data.pos)
    }

    constructor (index: Cursor, block: BlockFunction)
      requires Tiled(index.entries, block) && index.Ok()
      ensures Ok() && this.index == index && this.block == block && !Valid()
    {
      this.index, this.block := index, block;
      data, handle := null, [];
      at := |Flat(index.entries, block)|;
    }

    predicate Valid()
      reads this, data
    {
      data != null && data.Valid()
    }

    lemma {:induction false} Here()
      requires Ok() && Valid()
      ensures at < |All()| && All()[at] == data.entries[data.pos]
    {
      FlatAt(index.entries, block, index.pos, data.pos);
    }

    function Key(): (k: InternalKey<UserKey>)
      requires Ok() && Valid()
      reads this, index, data
      ensures at < |All()| && k == All()[at].key
    {
      Here();
      data.Key()
    }

    function Value(): (v: Bytes)
      requires Ok() && Valid()
      reads this, index, data
      ensures at < |All()| && v == All()[at].value
    {
      Here();
      data.Value()
    }

    /** Makes data stand in the block the index stands on, keeping the old iterator for the same block. */
    method InitDataBlock()
      requires Tiled(index.entries, block) && index.Ok()
      requires data != null ==> data != index && data.Ok() && data.entries == block(handle)
      modifies this`data, this`handle
      ensures Shape() && (data == null || data == old(data) || fresh(data))
    {
      if !index.Valid() {
        data := null;
      } else {
        var h := index.Value();
        if data == null || h != handle {
          TileAt(index.entries, block, |index.entries|, index.pos);
          data := new Cursor(block(h));
          handle := h;
        }
      }
    }

    /** lo is where the walk goes on: the first entry not yet passed. */
    method SkipEmptyDataBlocksForward(ghost lo: nat)
      requires Shape()
      requires lo == if data == null then |All()| else Offset(index.entries, block, index.pos) + data.pos
      modifies this, index, data
      ensures Ok() && at == lo && (data == null || data == old(data) || fresh(data))
    {
      while data == null || !data.Valid()
        invariant Shape() && (data == null || data == old(data) || fresh(data))
        invariant lo == if data == null then |All()| else Offset(index.entries, block, index.pos) + data.pos
        decreases |index.entries| - index.pos
      {
        if !index.Valid() {
          data := null;
          at := lo;
          return;
        }
        NextBlock();
      }
      at := lo;
    }

    method NextBlock()
      requires Shape() && data != null && data.pos == |data.entries|
      modifies this`data, this`handle, index, data
      ensures Shape() && index.pos == old(index.pos) + 1 && (data == null || data == old(data) || fresh(data))
      ensures data == null ==> |All()| == Offset(index.entries, block, old(index.pos)) + old(data.pos)
      ensures data != null ==> data.pos == 0
      ensures data != null ==>
                Offset(index.entries, block, index.pos) == Offset(index.entries, block, old(index.pos)) + old(data.pos)
    {
      OffsetStep(index.entries, block, index.pos);
      assert index.entries[..|index.entries|] == index.entries;
      index.Next();
      InitDataBlock();
      if data != null {
        data.SeekToFirst();
      }
    }

    /** lo is how many entries are not yet passed by the backward walk. */
    ghost predicate Left(lo: nat)
      requires Shape()
      reads this, index, data
    {
      lo == if data == null then 0
            else Offset(index.entries, block, index.pos) + if data.Valid() then data.pos + 1 else 0
    }

    method SkipEmptyDataBlocksBackward(ghost lo: nat)
      requires Shape() && Left(lo)
      modifies this, index, data
      ensures Ok() && at == (if lo == 0 then |All()| else lo - 1) && (data == null || data == old(data) || fresh(data))
    {
      while data == null || !data.Valid()
        invariant Shape() && Left(lo) && (data == null || data == old(data) || fresh(data))
        decreases if index.Valid() then index.pos + 1 else 0
      {
        if !index.Valid() {
          data := null;
          at := |All()|;
          return;
        }
        PrevBlock(lo);
      }
      at := lo - 1;
    }

    method PrevBlock(ghost lo: nat)
      requires Shape() && Left(lo) && data != null && !data.Valid()
      modifies this`data, this`handle, index, data
      ensures Shape() && Left(lo) && (data == null || data == old(data) || fresh(data))
      ensures if old(index.pos) == 0 then !index.Valid() else index.Valid() && index.pos == old(index.pos) - 1
    {
      if 0 < index.pos {
        OffsetStep(index.entries, block, index.pos - 1);
      }
      index.Prev();
      InitDataBlock();
      if data != null {
        data.SeekToLast();
      }
    }

    method Seek(target: InternalKey<UserKey>)
      requires Ok()
      modifies this, index, data
      ensures Ok() && SeeksTo(All(), target, at) && (data == null || data == old(data) || fresh(data))
    {
      index.Seek(target);
      InitDataBlock();
      if data != null {
        data.Seek(target);
      }
      SeekSplits(index.entries, block, target, index.pos, if data == null then 0 else data.pos);
      SkipEmptyDataBlocksForward(if data == null then |All()| else Offset(index.entries, block, index.pos) + data.pos);
    }

    method SeekToFirst()
      requires Ok()
      modifies this, index, data
      ensures Ok() && at == 0 && (data == null || data == old(data) || fresh(data))
    {
      index.SeekToFirst();
      InitDataBlock();
      if data != null {
        data.SeekToFirst();
      }
      SkipEmptyDataBlocksForward(0);
    }

    method SeekToLast()
      requires Ok()
      modifies this, index, data
      ensures Ok() && at == LastPosition(All()) && (data == null || data == old(data) || fresh(data))
    {
      index.SeekToLast();
      InitDataBlock();
      if data != null {
        data.SeekToLast();
        OffsetStep(index.entries, block, index.pos);
        assert index.entries[..|index.entries|] == index.entries;
      }
      SkipEmptyDataBlocksBackward(|All()|);
    }

    method Next()
      requires Ok() && Valid()
      modifies this, index, data
      ensures Ok() && at == old(at) + 1 && (data == null || data == old(data) || fresh(data))
    {
      data.Next();
      SkipEmptyDataBlocksForward(at + 1);
    }

    method Prev()
      requires Ok() && Valid()
      modifies this, index, data
      ensures Ok() && at == PrevPosition(All(), old(at)) && (data == null || data == old(data) || fresh(data))
    {
      data.Prev();
      SkipEmptyDataBlocksBackward(at);
    }
  }
}
