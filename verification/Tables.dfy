/** TableBuilder and Table::InternalGet: blocks cut anywhere, index keys shortened, lookups unchanged. */
module Tables {
  import opened Keys
  import opened Cursors
  import opened TwoLevel

  type Key = InternalKey<UserKey>

  /** What the comparator and the block writer contribute: any separator and successor with the property
      that `Bytewise` proves of the shipped comparator, any size of a finished block, any rule for when
      a block is full, and any handle encoding that can be decoded. */
  datatype AnyOptions = Options(
    separator: (Key, Key) -> Key,
    successor: Key -> Key,
    sizeOf: seq<Entry> -> nat,
    full: seq<Entry> -> bool,
    encode: (nat, nat) -> Bytes,
    decodeOffset: Bytes -> nat)
  {
    ghost predicate Lawful() {
      && (forall a, b {:trigger separator(a, b)} :: Before(a, b) ==> 
            AtOrBefore(a, separator(a, b)) && Before(separator(a, b), b) &&
                (separator(a, b) == a || separator(a, b).user < b.user))
      && (forall a {:trigger successor(a)} :: AtOrBefore(a, successor(a)))
      && (forall o, s :: decodeOffset(encode(o, s)) == o)
    }
  }

  type Options = o: AnyOptions | o.Lawful()
    ghost witness Options((a, b) => a, a => a, s => 0, s => true, (o: nat, s: nat) => seq(o, _ => 0 as Byte), h => |h|)

  const BLOCK_TRAILER_SIZE := 5

  /** A table file: what is read back at each offset. */
  datatype Contents = Contents(blocks: map<nat, seq<Entry>>, decodeOffset: Bytes -> nat) {
    function Write(offset: nat, block: seq<Entry>): Contents {
      this.(blocks := blocks[offset := block])
    }
  }

  /** ReadBlock through an encoded handle. */
  function Reader(contents: Contents): BlockFunction {
    h => if contents.decodeOffset(h) in contents.blocks then contents.blocks[contents.decodeOffset(h)] else []
  }

  /** Index key `key` of a block lets entry e follow: it is before e, and it is either the block's own last
      key or has a smaller user key than e. */
  ghost predicate LetsFollow(key: Key, block: seq<Entry>, e: Entry) {
    Before(key, e.key) && (key.user < e.key.user || (block != [] && block[|block| - 1].key == key))
  }

  /** Block j is not empty and follows block j - 1. */
  ghost predicate Linked(index: seq<Entry>, block: BlockFunction, j: int)
    requires 0 <= j < |index|
  {
    && block(index[j].value) != []
    && (0 < j ==> LetsFollow(index[j - 1].key, block(index[j - 1].value), block(index[j].value)[0]))
  }

  ghost predicate LinkedUpTo(index: seq<Entry>, block: BlockFunction, n: nat)
    requires n <= |index|
  {
    n == 0 || (LinkedUpTo(index, block, n - 1) && Linked(index, block, n - 1))
  }

  lemma {:induction false} LinkedAt(index: seq<Entry>, block: BlockFunction, n: nat, j: nat)
    requires j < n <= |index| && LinkedUpTo(index, block, n)
    ensures Linked(index, block, j)
  {
    if j < n - 1 {
      LinkedAt(index, block, n - 1, j);
    }
  }

  /** Both only look at the first n index entries and at their blocks. */
  lemma {:induction false} SameUpTo(a: seq<Entry>, f: BlockFunction, b: seq<Entry>, g: BlockFunction, n: nat)
    requires n <= |a| && n <= |b| && a[..n] == b[..n]
    requires TiledUpTo(a, f, n) && LinkedUpTo(a, f, n)
    requires forall i :: 0 <= i < n ==> f(a[i].value) == g(a[i].value)
    ensures TiledUpTo(b, g, n) && LinkedUpTo(b, g, n)
  {
    if 0 < n {
      assert a[..n - 1] == a[..n][..n - 1] && b[..n - 1] == b[..n][..n - 1];
      SameUpTo(a, f, b, g, n - 1);
      assert a[n - 1] == a[..n][n - 1] && b[n - 1] == b[..n][n - 1];
      assert n == 1 || (a[n - 2] == a[..n][n - 2] && b[n - 2] == b[..n][n - 2]);
    }
  }

  datatype Meaning = Malformed | Table(entries: seq<Entry>)

  /** What a table file and its index hold, when the blocks are cut by safe index keys. */
  ghost function Holds(index: seq<Entry>, contents: Contents): Meaning {
    var all := Flat(index, Reader(contents));
    if Tiled(index, Reader(contents)) && LinkedUpTo(index, Reader(contents), |index|) && Sorted(all) then Table(all)
    else Malformed
  }

  /** Writing another block leaves what is already indexed as it was. */
  lemma {:induction false} WriteBlock(index: seq<Entry>, contents: Contents, s: seq<Entry>, offset: nat,
                                      block: seq<Entry>)
    requires Holds(index, contents) == Table(s) && offset !in contents.blocks
    ensures Holds(index, contents.Write(offset, block)) == Table(s)
    ensures forall j :: 0 <= j < |index| ==>
              Reader(contents.Write(offset, block))(index[j].value) == Reader(contents)(index[j].value)
  {
    var more := contents.Write(offset, block);
    forall j | 0 <= j < |index|
      ensures Reader(more)(index[j].value) == Reader(contents)(index[j].value)
    {
      LinkedAt(index, Reader(contents), |index|, j);
    }
    SameFlat(index, Reader(contents), Reader(more));
    SameUpTo(index, Reader(contents), index, Reader(more), |index|);
  }

  lemma {:induction false} SameFlat(index: seq<Entry>, f: BlockFunction, g: BlockFunction)
    requires forall i :: 0 <= i < |index| ==> f(index[i].value) == g(index[i].value)
    ensures Flat(index, f) == Flat(index, g)
  {
    if index != [] {
      SameFlat(index[..|index| - 1], f, g);
    }
  }

  /** Indexing the block that follows, under a key at or after its last key. */
  lemma {:induction false} IndexBlock(index: seq<Entry>, contents: Contents, s: seq<Entry>, block: seq<Entry>, e: Entry)
    requires Holds(index, contents) == Table(s) && Sorted(s + block)
    requires block != [] && Reader(contents)(e.value) == block && AtOrBefore(block[|block| - 1].key, e.key)
    requires index != [] ==> LetsFollow(index[|index| - 1].key, Reader(contents)(index[|index| - 1].value), block[0])
    ensures Holds(index + [e], contents) == Table(s + block)
  {
    var more, read := index + [e], Reader(contents);
    assert more[..|index|] == index;
    LastTile(index, read, s, block, e);
    assert index[..|index|] == index;
    SameUpTo(index, read, more, read, |index|);
    assert Linked(more, read, |index|);
    if index != [] {
      forall i | 0 <= i < |index| ensures Before(index[i].key, e.key) {
        assert i == |index| - 1 || Before(index[i].key, index[|index| - 1].key);
      }
    }
  }

  lemma {:induction false} LastTile(index: seq<Entry>, read: BlockFunction, s: seq<Entry>, block: seq<Entry>, e: Entry)
    requires Sorted(s + block) && block != [] && read(e.value) == block && AtOrBefore(block[|block| - 1].key, e.key)
    requires index != [] ==> Before(index[|index| - 1].key, block[0].key)
    ensures Tile(index + [e], read, |index|)
    ensures index != [] ==> Before(index[|index| - 1].key, e.key)
  {
    SortedParts(s, block);
    forall d | d in block ensures AtOrBefore(d.key, e.key) && AtOrBefore(block[0].key, d.key) {
      var k :| 0 <= k < |block| && block[k] == d;
    }
    assert block[0] in block;
  }

  lemma {:induction false} SortedParts(a: seq<Entry>, b: seq<Entry>)
    requires Sorted(a + b)
    ensures Sorted(a) && Sorted(b)
  {
    assert forall i :: 0 <= i < |a| ==> a[i] == (a + b)[i];
    assert forall i :: 0 <= i < |b| ==> b[i] == (a + b)[|a| + i];
  }

  lemma {:induction false} SortedSnoc(a: seq<Entry>, e: Entry)
    requires Sorted(a) && (a != [] ==> Before(a[|a| - 1].key, e.key))
    ensures Sorted(a + [e])
  {
    forall i | 0 <= i < |a| ensures Before(a[i].key, e.key) {
      assert i == |a| - 1 || Before(a[i].key, a[|a| - 1].key);
    }
  }

  /** What has been written, and the block that is being filled. */
  datatype Image = Image(contents: Contents, offset: nat, dataBlock: seq<Entry>)

  function Flushed(options: Options, i: Image): Image {
    if i.dataBlock == [] then i
    else Image(i.contents.Write(i.offset, i.dataBlock), i.offset + options.sizeOf(i.dataBlock) + BLOCK_TRAILER_SIZE, [])
  }

  function WithEntry(options: Options, i: Image, e: Entry): Image {
    var more := i.(dataBlock := i.dataBlock + [e]);
    if options.full(more.dataBlock) then Flushed(options, more) else more
  }

  class TableBuilder {
    const options: Options
    var index: seq<Entry>
    var dataBlock: seq<Entry>
    var lastKey: Key
    var pendingIndexEntry: bool
    /** The handle of the block to be indexed: its offset and size. */
    var pendingHandle: (nat, nat)
    var offset: nat
    var contents: Contents
    var closed: bool
    /** The entries already indexed, and those added since. */
    ghost var done: seq<Entry>
    ghost var rest: seq<Entry>

    ghost function Added(): seq<Entry>
      reads this
    {
      done + rest
    }

    ghost function Now(): Image
      reads this
    {
      Image(contents, offset, dataBlock)
    }

    ghost predicate WrittenBelow()
      reads this
    {
      && contents.decodeOffset == options.decodeOffset
      && forall o :: o in contents.blocks ==> o < offset
    }

    /** The block that is written and not yet indexed. */
    ghost predicate Pending(block: seq<Entry>)
      reads this
    {
      block != [] && pendingHandle.0 in contents.blocks && contents.blocks[pendingHandle.0] == block
    }

    /** The index so far may be followed by e. */
    ghost predicate CanFollow(e: Entry)
      requires index != []
      reads this
    {
      LetsFollow(index[|index| - 1].key, Reader(contents)(index[|index| - 1].value), e)
    }

    ghost predicate Ok()
      reads this
    {
      && WrittenBelow()
      && Sorted(Added()) && Holds(index, contents) == Table(done)
      && (rest != [] ==> lastKey == rest[|rest| - 1].key)
      && (if pendingIndexEntry then dataBlock == [] && Pending(rest)
          else dataBlock == rest)
      && (rest == [] ==> index == [] && done == [])
      && (index != [] ==> CanFollow(rest[0]))
    }

    constructor (options: Options)
      ensures Ok() && Added() == [] && !closed && this.options == options
      ensures Now() == Image(Contents(map[], options.decodeOffset), 0, [])
    {
      this.options := options;
      index, dataBlock, lastKey := [], [], InternalKey(0.0, 0, Deletion);
      pendingIndexEntry, pendingHandle, offset, closed := false, (0, 0), 0, false;
      contents := Contents(map[], options.decodeOffset);
      done, rest := [], [];
    }

    method Add(key: Key, value: Bytes)
      requires Ok() && !closed
      requires Added() != [] ==> Before(Added()[|Added()| - 1].key, key)
      modifies this
      ensures Ok() && !closed && Added() == old(Added()) + [Entry(key, value)]
      ensures Now() == WithEntry(options, old(Now()), Entry(key, value))
    {
      Put(Entry(key, value));
      if options.full(dataBlock) {
        Flush();
      }
    }

    method Put(next: Entry)
      requires Ok() && (Added() != [] ==> Before(Added()[|Added()| - 1].key, next.key))
      modifies this`index, this`pendingIndexEntry, this`lastKey, this`dataBlock, this`done, this`rest
      ensures Ok() && Added() == old(Added()) + [next] && Now() == old(Now()).(dataBlock := old(dataBlock) + [next])
    {
      Prepare(next);
      Append(next);
    }

    ghost predicate Ready(next: Entry)
      reads this
    {
      && WrittenBelow() && Holds(index, contents) == Table(done)
      && !pendingIndexEntry && dataBlock == rest && Sorted(done + (rest + [next]))
      && (index != [] ==> CanFollow((rest + [next])[0]))
    }

    /** Deals with a pending index entry, now that the next key is known. */
    method Prepare(next: Entry)
      requires Ok() && (Added() != [] ==> Before(Added()[|Added()| - 1].key, next.key))
      modifies this`index, this`pendingIndexEntry, this`lastKey, this`done, this`rest
      ensures Ready(next) && done + (rest + [next]) == old(Added()) + [next]
    {
      SortedSnoc(Added(), next);
      if pendingIndexEntry {
        SeparateFrom(next);
      }
      assert done + (rest + [next]) == old(Added()) + [next];
    }

    method Append(next: Entry)
      requires Ready(next)
      modifies this`lastKey, this`dataBlock, this`rest
      ensures Ok() && Added() == done + (old(rest) + [next]) && dataBlock == old(dataBlock) + [next]
    {
      lastKey := next.key;
      dataBlock := dataBlock + [next];
      rest := rest + [next];
    }

    /** Indexes the pending block under the shortest separator from the entry about to be added. */
    method SeparateFrom(next: Entry)
      requires Ok() && pendingIndexEntry && Before(lastKey, next.key)
      modifies this`index, this`pendingIndexEntry, this`lastKey, this`done, this`rest
      ensures !pendingIndexEntry && rest == [] && done == old(Added())
      ensures Holds(index, contents) == Table(done) && index != [] && CanFollow(next)
    {
      var shorter := options.separator(lastKey, next.key);
      assert LetsFollow(shorter, rest, next);
      var entry := IndexEntry(shorter);
      IndexPending(entry);
    }

    /** The index entry of the pending block, under a key at or after its last one. */
    method IndexEntry(key: Key) returns (e: Entry)
      requires Holds(index, contents) == Table(done) && Sorted(Added())
      requires WrittenBelow() && Pending(rest) && AtOrBefore(rest[|rest| - 1].key, key)
      requires index != [] ==> CanFollow(rest[0])
      ensures e == Entry(key, options.encode(pendingHandle.0, pendingHandle.1))
      ensures Reader(contents)(e.value) == rest && Holds(index + [e], contents) == Table(Added())
    {
      e := Entry(key, options.encode(pendingHandle.0, pendingHandle.1));
      IndexBlock(index, contents, done, rest, e);
    }

    /** The pending block goes into the index. */
    method IndexPending(e: Entry)
      requires pendingIndexEntry
      modifies this`index, this`pendingIndexEntry, this`lastKey, this`done, this`rest
      ensures index == old(index) + [e] && lastKey == e.key && !pendingIndexEntry
      ensures done == old(Added()) && rest == []
    {
      index, lastKey, pendingIndexEntry := index + [e], e.key, false;
      done, rest := Added(), [];
    }

    method Flush()
      requires Ok() && !closed
      modifies this
      ensures Ok() && !closed && Added() == old(Added()) && dataBlock == [] && Now() == Flushed(options, old(Now()))
    {
      if dataBlock != [] {
        WriteOut();
      }
    }

    method WriteOut()
      requires Ok() && dataBlock != []
      modifies this`pendingHandle, this`contents, this`dataBlock, this`offset, this`pendingIndexEntry
      ensures Ok() && Added() == old(Added()) && dataBlock == [] && Now() == Flushed(options, old(Now()))
    {
      var size := options.sizeOf(dataBlock);
      pendingHandle := (offset, size);
      WriteBlock(index, contents, done, offset, dataBlock);
      contents := contents.Write(offset, dataBlock);
      dataBlock := [];
      offset := offset + size + BLOCK_TRAILER_SIZE;
      pendingIndexEntry := true;
    }

    method Finish()
      requires Ok() && !closed
      modifies this
      ensures closed && rest == [] && done == old(Added()) && Holds(index, contents) == Table(done)
      ensures Now() == Flushed(options, old(Now()))
    {
      Flush();
      closed := true;
      if pendingIndexEntry {
        var entry := IndexEntry(options.successor(lastKey));
        IndexPending(entry);
      } else {
        assert done + rest == done;
      }
    }
  }

  /** A block is written as soon as it is full. */
  lemma {:induction false} NeverFull(options: Options, i: Image, e: Entry)
    requires !options.full([])
    ensures !options.full(WithEntry(options, i, e).dataBlock)
  {
  }

  datatype Found = Nothing | Just(entry: Entry)

  /** What a linear scan hands on: the first entry at or after the key, if it has the same user key. */
  ghost predicate Scan(s: seq<Entry>, key: Key, r: Found) {
    exists p :: SeeksTo(s, key, p) && r == if p < |s| && s[p].key.user == key.user then Just(s[p]) else Nothing
  }

  /** InternalGet looks into one block only; matching by user key, that finds what the scan finds. */
  method InternalGet(index: seq<Entry>, contents: Contents, ghost all: seq<Entry>, key: Key) returns (r: Found)
    requires Holds(index, contents) == Table(all)
    ensures Scan(all, key, if r.Just? && r.entry.key.user == key.user then r else Nothing)
  {
    var indexIter := new Cursor(index);
    indexIter.Seek(key);
    r := Nothing;
    ghost var i, p := indexIter.pos, 0;
    if indexIter.Valid() {
      TileAt(index, Reader(contents), |index|, i);
      var blockIter := new Cursor(Reader(contents)(indexIter.Value()));
      blockIter.Seek(key);
      p := blockIter.pos;
      if blockIter.Valid() {
        r := Just(blockIter.entries[blockIter.pos]);
      }
    }
    OneBlockIsEnough(index, contents, all, key, i, p);
  }

  lemma {:induction false} OneBlockIsEnough(index: seq<Entry>, contents: Contents, all: seq<Entry>, key: Key, i: nat,
                                            p: nat)
    requires Holds(index, contents) == Table(all) && SeeksTo(index, key, i)
    requires i < |index| ==> SeeksTo(Reader(contents)(index[i].value), key, p)
    ensures var block := if i < |index| then Reader(contents)(index[i].value) else [];
            Scan(all, key, if i < |index| && p < |block| &&
                block[p].key.user == key.user then Just(block[p]) else Nothing)
  {
    var read := Reader(contents);
    var at := if i < |index| then Offset(index, read, i) + p else |all|;
    SeekSplits(index, read, key, i, p);
    assert SeeksTo(all, key, at);
    if i < |index| {
      if p < |read(index[i].value)| {
        FlatAt(index, read, i, p);
      } else {
        NothingBehind(index, contents, all, key, i);
      }
    }
  }

  /** When block i ends before the key, the entry behind it in the table, if any, has another user key. */
  lemma {:induction false} NothingBehind(index: seq<Entry>, contents: Contents, all: seq<Entry>, key: Key, i: nat)
    requires Holds(index, contents) == Table(all) && i < |index| && AtOrBefore(key, index[i].key)
    requires var block := Reader(contents)(index[i].value); SeeksTo(block, key, |block|)
    ensures var at := Offset(index, Reader(contents), i) + |Reader(contents)(index[i].value)|;
            at == |all| || (at < |all| && all[at].key.user != key.user)
  {
    var read := Reader(contents);
    OffsetStep(index, read, i);
    if i + 1 < |index| {
      LinkedAt(index, read, |index|, i + 1);
      FlatAt(index, read, i + 1, 0);
      NextBlockDiffers(index, read, key, i);
    } else {
      assert index[..i + 1] == index;
    }
  }

  /** When block i ends before the key, the next block starts with another user key. */
  lemma {:induction false} NextBlockDiffers(index: seq<Entry>, block: BlockFunction, key: Key, i: nat)
    requires i + 1 < |index| && Linked(index, block, i + 1) && AtOrBefore(key, index[i].key)
    requires SeeksTo(block(index[i].value), key, |block(index[i].value)|)
    ensures key.user < block(index[i + 1].value)[0].key.user
  {
  }
}
