/** Tables with a filter block: what the builder adds to the filter, and why asking it first never changes the answer
    of InternalGet. */
module FilteredTables {
  import opened Keys
  import opened Cursors
  import opened Separators
  import opened TwoLevel
  import opened Tables
  import opened Bytewise
  import opened FilterBlock

  // ----- what the filter has been given -----

  /** The user key was added while the block at the offset was being filled. */
  ghost predicate Has(added: seq<Added>, offset: nat, user: UserKey) {
    exists k :: 0 <= k < |added| && added[k].offset == offset && Rank(added[k].key) == user
  }

  ghost predicate HasBlock(added: seq<Added>, offset: nat, block: seq<Entry>) {
    forall i :: 0 <= i < |block| ==> Has(added, offset, block[i].key.user)
  }

  /** Every user key of every block, and of the block that is being filled. */
  ghost predicate HasAll(added: seq<Added>, image: Image) {
    && HasBlock(added, image.offset, image.dataBlock)
    && forall o :: o in image.contents.blocks ==> HasBlock(added, o, image.contents.blocks[o])
  }

  lemma {:induction false} HasMore(added: seq<Added>, a: Added, offset: nat, user: UserKey)
    requires Has(added, offset, user)
    ensures Has(added + [a], offset, user)
  {
    var k :| 0 <= k < |added| && added[k].offset == offset && Rank(added[k].key) == user;
    assert (added + [a])[k] == added[k];
  }

  lemma {:induction false} BlockHasMore(added: seq<Added>, a: Added, offset: nat, block: seq<Entry>)
    requires HasBlock(added, offset, block)
    ensures HasBlock(added + [a], offset, block)
  {
    forall i | 0 <= i < |block| ensures Has(added + [a], offset, block[i].key.user) {
      HasMore(added, a, offset, block[i].key.user);
    }
  }

  lemma {:induction false} HasNext(added: seq<Added>, image: Image, key: Bytes, e: Entry)
    requires HasAll(added, image) && Rank(key) == e.key.user
    ensures HasAll(added + [Added(image.offset, key)], image.(dataBlock := image.dataBlock + [e]))
  {
    var a := Added(image.offset, key);
    BlockHasMore(added, a, image.offset, image.dataBlock);
    assert (added + [a])[|added|] == a;
    forall o | o in image.contents.blocks ensures HasBlock(added + [a], o, image.contents.blocks[o]) {
      BlockHasMore(added, a, o, image.contents.blocks[o]);
    }
  }

  lemma {:induction false} HasFlushed(added: seq<Added>, options: Options, image: Image)
    requires HasAll(added, image)
    ensures HasAll(added, Flushed(options, image))
  {
  }

  // ----- building -----

  /** TableBuilder with its filter_block. */
  class FilteredTableBuilder {
    const table: TableBuilder
    const filter: FilterBlockBuilder

    ghost predicate Ok()
      reads this, table, filter
    {
      && table.Ok() && filter.Ok() && |filter.groups| == FilterIndex(table.offset) && HasAll(filter.added, table.Now())
    }

    constructor (options: Options, policy: FilterPolicy)
      ensures Ok() && fresh(table) && fresh(filter) && table.Added() == [] && !table.closed && filter.policy == policy
    {
      table := new TableBuilder(options);
      filter := new FilterBlockBuilder(policy);
      new;
      filter.StartBlock(0);
    }

    /** When no block was flushed, the filter stays where it is. */
    method Add(key: ByteKey, value: Bytes)
      requires Ok() && !table.closed
      requires table.Added() != [] ==> Before(table.Added()[|table.Added()| - 1].key, Ranked(key))
      modifies table, filter
      ensures Ok() && !table.closed && table.Added() == old(table.Added()) + [Entry(Ranked(key), value)]
    {
      ghost var was, e := table.Now(), Entry(Ranked(key), value);
      filter.AddKey(key.user, table.offset);
      HasNext(old(filter.added), was, key.user, e);
      table.Add(Ranked(key), value);
      HasFlushed(filter.added, table.options, was.(dataBlock := was.dataBlock + [e]));
      filter.StartBlock(table.offset);
    }

    method Finish() returns (contents: Bytes)
      requires Ok() && !table.closed && filter.policy.Lawful() && filter.Size() < 0x1_0000_0000
      modifies table, filter
      ensures table.closed && Holds(table.index, table.contents) == Table(old(table.Added()))
      ensures NoMisses(filter.policy, contents, table.contents)
    {
      ghost var was := table.Now();
      table.Finish();
      HasFlushed(filter.added, table.options, was);
      filter.StartBlock(table.offset);
      ghost var list;
      contents, list := filter.Finish();
      AddedAreFound(filter.policy, contents, filter.added, table.Now());
    }
  }

  // ----- asking first -----

  /** No entry of a block is missed by the filter at the block's offset. */
  ghost predicate NoMisses(policy: FilterPolicy, filter: Bytes, contents: Contents) {
    forall o: nat, key: Bytes {:trigger Ask(policy, filter, o, key)} ::
      o in contents.blocks && !Ask(policy, filter, o, key) ==> Lacks(contents.blocks[o], Rank(key))
  }

  ghost predicate Lacks(block: seq<Entry>, user: UserKey) {
    forall i :: 0 <= i < |block| ==> block[i].key.user != user
  }

  lemma {:induction false} AddedAreFound(policy: FilterPolicy, filter: Bytes, added: seq<Added>, image: Image)
    requires HasAll(added, image) && forall k :: 0 <= k < |added| ==> Ask(policy, filter, added[k].offset, added[k].key)
    ensures NoMisses(policy, filter, image.contents)
  {
    forall o: nat, key: Bytes | o in image.contents.blocks && !Ask(policy, filter, o, key)
      ensures Lacks(image.contents.blocks[o], Rank(key))
    {
      var block := image.contents.blocks[o];
      forall i | 0 <= i < |block| ensures block[i].key.user != Rank(key) {
        assert Has(added, o, block[i].key.user);
        var k :| 0 <= k < |added| && added[k].offset == o && Rank(added[k].key) == block[i].key.user;
        RankOrder(added[k].key, key);
      }
    }
  }

  datatype FilterOption = NoFilter | HasFilter(policy: FilterPolicy, filter: Bytes)

  ghost predicate Sound(f: FilterOption, contents: Contents) {
    f.NoFilter? || NoMisses(f.policy, f.filter, contents)
  }

  method SeekIn(block: seq<Entry>, key: Key) returns (r: Found, ghost p: nat)
    requires Sorted(block)
    ensures SeeksTo(block, key, p) && r == if p < |block| then Just(block[p]) else Nothing
  {
    var iter := new Cursor(block);
    iter.Seek(key);
    p := iter.pos;
    r := if iter.Valid() then Just(iter.entries[iter.pos]) else Nothing;
  }

  /** InternalGet with the filter: when it says no, the block is not even read, and the answer is the same. */
  method FilteredGet(index: seq<Entry>, contents: Contents, ghost all: seq<Entry>, f: FilterOption, key: ByteKey)
    returns (r: Found)
    requires Holds(index, contents) == Table(all) && Sound(f, contents)
    ensures Scan(all, Ranked(key), if r.Just? && r.entry.key.user == Rank(key.user) then r else Nothing)
  {
    var indexIter := new Cursor(index);
    indexIter.Seek(Ranked(key));
    r := Nothing;
    ghost var i, p := indexIter.pos, 0;
    if indexIter.Valid() {
      TileAt(index, Reader(contents), |index|, i);
      var offset := contents.decodeOffset(indexIter.Value());
      if f.HasFilter? && !Ask(f.policy, f.filter, offset, key.user) {
        p := SeekPlace(Reader(contents)(indexIter.Value()), Ranked(key));
      } else {
        r, p := SeekIn(Reader(contents)(indexIter.Value()), Ranked(key));
      }
    }
    OneBlockIsEnough(index, contents, all, Ranked(key), i, p);
  }
}
