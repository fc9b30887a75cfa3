/** The memtable (db/memtable) on its skip list: to the store it is a sorted run of entries, which Add extends by one
    entry, Get searches as a run is searched, and the iterator walks in both directions. */
module MemTable {
  import opened Keys
  import opened Cursors
  import opened Reads
  import opened Lookup
  import opened Store
  import opened SkipList
  import L = SkipList

  /** What a node holds; a value is the rest of its key's bytes. */
  function EntryOf(a: Arena, n: nat, values: map<InternalKey<UserKey>, Bytes>): Entry {
    var key := KeyOf(a, n);
    Entry(key, if key in values then values[key] else [])
  }

  function EntriesOf(a: Arena, s: seq<nat>, values: map<InternalKey<UserKey>, Bytes>): (r: seq<Entry>)
    ensures |r| == |s| && forall i :: 0 <= i < |s| ==> r[i] == EntryOf(a, s[i], values)
  {
    if s == [] then [] else [EntryOf(a, s[0], values)] + EntriesOf(a, s[1..], values)
  }

  /** A key that comes behind p entries is inserted there. */
  lemma {:induction false} InsertsAt(mem: seq<Entry>, e: Entry, p: nat)
    requires p <= |mem| && (forall i :: 0 <= i < p ==> Before(mem[i].key, e.key))
    requires p < |mem| ==> Before(e.key, mem[p].key)
    ensures InsertEntry(mem, e) == mem[..p] + [e] + mem[p..]
    decreases p
  {
    if p > 0 {
      InsertsAt(mem[1..], e, p - 1);
      Spliced(mem, e, p);
    }
  }

  lemma {:induction false} Spliced(mem: seq<Entry>, e: Entry, p: nat)
    requires 0 < p <= |mem|
    ensures [mem[0]] + (mem[1..][..p - 1] + [e] + mem[1..][p - 1..]) == mem[..p] + [e] + mem[p..]
  {
  }

  lemma {:induction false} EntriesJoin(a: Arena, s: seq<nat>, t: seq<nat>, values: map<InternalKey<UserKey>, Bytes>)
    ensures EntriesOf(a, s + t, values) == EntriesOf(a, s, values) + EntriesOf(a, t, values)
  {
  }

  /** The nodes that were there hold what they held. */
  lemma {:induction false} SameEntries(a: Arena, a': Arena, s: seq<nat>, values: map<InternalKey<UserKey>, Bytes>,
                                       e: Entry)
    requires forall n :: n in s ==> KeyOf(a, n) != e.key && KeyOf(a', n) == KeyOf(a, n)
    ensures EntriesOf(a', s, values[e.key := e.value]) == EntriesOf(a, s, values)
  {
    if s != [] {
      SameEntries(a, a', s[1..], values, e);
    }
  }

  lemma {:induction false} Halves(E: seq<Entry>, A: seq<Entry>, B: seq<Entry>, p: nat)
    requires E == A + B && |A| == p
    ensures E[..p] == A && E[p..] == B
  {
  }

  lemma {:induction false} OneMoreEntry(a: Arena, s: seq<nat>, values: map<InternalKey<UserKey>, Bytes>, x: nat,
                                        e: Entry, p: nat)
    requires p <= |s| && EntryOf(a, x, values) == e
    ensures var E := EntriesOf(a, s, values); EntriesOf(a, Inserted(s, p, x), values) == E[..p] + [e] + E[p..]
  {
    EntriesBetween(a, s[..p], x, s[p..], values);
    EntriesJoin(a, s[..p], s[p..], values);
    assert s[..p] + s[p..] == s;
    Halves(EntriesOf(a, s, values), EntriesOf(a, s[..p], values), EntriesOf(a, s[p..], values), p);
  }

  lemma {:induction false} EntriesBetween(a: Arena, s: seq<nat>, x: nat, t: seq<nat>,
                                          values: map<InternalKey<UserKey>, Bytes>)
    ensures EntriesOf(a, s + [x] + t, values) ==
            EntriesOf(a, s, values) + [EntryOf(a, x, values)] + EntriesOf(a, t, values)
  {
    EntriesJoin(a, s + [x], t, values);
    EntriesJoin(a, s, [x], values);
    assert EntriesOf(a, [x], values) == [EntryOf(a, x, values)];
  }

  lemma {:induction false} PlacedEntries(a: Arena, lists: seq<seq<nat>>, values: map<InternalKey<UserKey>, Bytes>,
                                         e: Entry, p: nat)
    requires Linked(a, lists) && Absent(a, lists, e.key) && Place(a, lists[0], e.key, p)
    ensures var E := EntriesOf(a, lists[0], values); InsertEntry(E, e) == E[..p] + [e] + E[p..]
  {
    var E := EntriesOf(a, lists[0], values);
    forall i | p <= i < |E| ensures Before(e.key, E[i].key) {
      assert lists[0][i] in lists[0];
    }
    InsertsAt(E, e, p);
  }

  /** What is new in the list is new in the run, at its place. */
  lemma {:induction false} InsertedEntries(a: Arena, lists: seq<seq<nat>>, a': Arena, s: seq<nat>,
                                           values: map<InternalKey<UserKey>, Bytes>, e: Entry)
    requires Linked(a, lists) && Absent(a, lists, e.key) && NowHas(a, lists[0], e.key, a', s)
    ensures EntriesOf(a', s, values[e.key := e.value]) == InsertEntry(EntriesOf(a, lists[0], values), e)
  {
    var p :| Place(a, lists[0], e.key, p) && s == Inserted(lists[0], p, |a.nodes|);
    PlacedEntries(a, lists, values, e, p);
    assert LevelOk(a, 0, lists[0]);
    SameEntries(a, a', lists[0], values, e);
    OneMoreEntry(a', lists[0], values[e.key := e.value], |a.nodes|, e, p);
  }

  lemma {:induction false} EntriesSorted(a: Arena, lists: seq<seq<nat>>, values: map<InternalKey<UserKey>, Bytes>)
    requires Linked(a, lists)
    ensures Sorted(EntriesOf(a, lists[0], values))
  {
    assert LevelOk(a, 0, lists[0]);
  }

  /** The node that a search finds is where a seek in the run ends. */
  lemma {:induction false} FoundAt(a: Arena, lists: seq<seq<nat>>, values: map<InternalKey<UserKey>, Bytes>,
                                   target: InternalKey<UserKey>, found: Link) returns (p: nat)
    requires Linked(a, lists) && FirstFrom(a, lists, target, found)
    ensures SeeksTo(EntriesOf(a, lists[0], values), target, p)
    ensures found == if p < |lists[0]| then To(lists[0][p]) else Null
  {
    p :| Place(a, lists[0], target, p) && found == if p < |lists[0]| then To(lists[0][p]) else Null;
  }

  class MemTable {
    const table: SkipList
    var values: map<InternalKey<UserKey>, Bytes>

    ghost predicate Ok()
      reads this, table
    {
      table.Ok()
    }

    ghost function Contents(): seq<Entry>
      requires Ok()
      reads this, table
    {
      EntriesOf(table.arena, table.Nodes(), values)
    }

    constructor ()
      ensures Ok() && fresh(table) && Contents() == []
    {
      table := new SkipList();
      values := map[];
    }

    /** Add: the run that the store knows, with one entry more. */
    method Add(e: Entry, height: nat)
      requires Ok() && 1 <= height <= MAX_HEIGHT && forall f :: f in Contents() ==> f.key != e.key
      modifies this, table
      ensures Ok() && Contents() == InsertEntry(old(Contents()), e)
    {
      ghost var a, lists := table.arena, table.lists;
      NotThere(e.key);
      table.Insert(e.key, height);
      InsertedEntries(a, lists, table.arena, table.Nodes(), values, e);
      values := values[e.key := e.value];
    }

    lemma {:induction false} NotThere(key: InternalKey<UserKey>)
      requires Ok() && forall f :: f in Contents() ==> f.key != key
      ensures Absent(table.arena, table.lists, key)
    {
      forall n | n in table.lists[0] ensures KeyOf(table.arena, n) != key {
        var i :| 0 <= i < |table.lists[0]| && table.lists[0][i] == n;
        assert Contents()[i] in Contents();
      }
    }

    /** Get says what a search of the run says. */
    method Get(user: UserKey, snapshot: Sequence) returns (r: Saved)
      requires Ok() && Distinct(Set(Contents()))
      ensures Says(Set(Contents()), user, snapshot, r)
    {
      var found, prev := table.FindGreaterOrEqual(SeekKey(user, snapshot));
      EntriesSorted(table.arena, table.lists, values);
      ghost var p := FoundAt(table.arena, table.lists, values, SeekKey(user, snapshot), found);
      SeekFindsNewest(Contents(), user, snapshot, p);
      r := Missing;
      if found.To? && KeyOf(table.arena, found.node).user == user {
        var e := EntryOf(table.arena, found.node, values);
        ReadNewest(Set(Contents()), user, snapshot, e);
        r := Done(AnswerOf(e));
      }
    }
  }

  // ----- walking the memtable -----

  lemma {:induction false} StandsAt(a: Arena, lists: seq<seq<nat>>, i: nat)
    requires Linked(a, lists) && i <= |lists[0]|
    ensures Next(a, At(lists[0], i), 0) == LinkAt(lists[0], i)
    ensures i < |lists[0]| ==> 0 < lists[0][i] && At(lists[0], i + 1) == lists[0][i]
  {
    assert LevelOk(a, 0, lists[0]);
  }

  lemma {:induction false} StepOn(a: Arena, lists: seq<seq<nat>>, i: nat)
    requires Linked(a, lists) && i < |lists[0]|
    ensures Next(a, lists[0][i], 0) == LinkAt(lists[0], i + 1)
  {
    StandsAt(a, lists, i);
    StandsAt(a, lists, i + 1);
  }

  lemma {:induction false} OnePlace(a: Arena, s: seq<nat>, key: InternalKey<UserKey>, p: nat, i: nat)
    requires Place(a, s, key, p) && Place(a, s, key, i)
    ensures p == i
  {
    assert p < |s| ==> AtOrBefore(key, KeyOf(a, s[p]));
    assert i < |s| ==> AtOrBefore(key, KeyOf(a, s[i]));
  }

  lemma {:induction false} OwnPlace(a: Arena, s: seq<nat>, i: nat)
    requires Ascending(a, s) && i < |s|
    ensures Place(a, s, KeyOf(a, s[i]), i)
  {
  }

  /** Behind the last node before a node of the list comes that node itself. */
  lemma {:induction false} BeforeIt(a: Arena, s: seq<nat>, i: nat, x: nat)
    requires Ascending(a, s) && i < |s| && (forall k :: 0 <= k < |s| ==> s[k] > 0) && Prev(a, s, KeyOf(a, s[i]), x)
    ensures x == At(s, i) && LinkTo(x) == LinkAt(s, PrevIndex(|s|, i))
  {
    var p :| Place(a, s, KeyOf(a, s[i]), p) && x == At(s, p);
    OwnPlace(a, s, i);
    OnePlace(a, s, KeyOf(a, s[i]), p, i);
  }

  function PrevIndex(n: nat, i: nat): nat {
    if i == 0 then n else i - 1
  }

  function LinkAt(s: seq<nat>, i: nat): Link {
    if i < |s| then To(s[i]) else Null
  }

  /** The head stands for no node. */
  function LinkTo(x: nat): Link {
    if x == 0 then Null else To(x)
  }

  lemma {:induction false} LastOne(s: seq<nat>)
    requires forall k :: 0 <= k < |s| ==> s[k] > 0
    ensures LinkTo(At(s, |s|)) == LinkAt(s, if s == [] then 0 else |s| - 1)
  {
  }

  lemma {:induction false} BottomInOrder(a: Arena, lists: seq<seq<nat>>)
    requires Linked(a, lists)
    ensures Ascending(a, lists[0]) && forall k :: 0 <= k < |lists[0]| ==> lists[0][k] > 0
  {
    assert LevelOk(a, 0, lists[0]);
  }

  /** SkipList::Iterator, as MemTableIterator uses it: an index into the run. */
  class MemTableIterator {
    const mem: MemTable
    var node: Link
    ghost var at: nat

    /** It stands on node `at` of the list, or past its end. */
    ghost predicate Stands()
      reads this, mem.table
    {
      |mem.table.lists| > 0 && at <= |mem.table.lists[0]| && node == LinkAt(mem.table.lists[0], at)
    }

    constructor (mem: MemTable)
      requires mem.Ok()
      ensures Stands() && this.mem == mem && !Valid()
    {
      this.mem, node, at := mem, Null, |mem.table.lists[0]|;
    }

    predicate Valid()
      reads this
    {
      node.To?
    }

    function Current(): (e: Entry)
      requires mem.Ok() && Stands() && Valid()
      reads this, mem, mem.table
      ensures at < |mem.Contents()| && e == mem.Contents()[at]
    {
      EntryOf(mem.table.arena, node.node, mem.values)
    }

    method Next()
      requires mem.Ok() && Stands() && Valid()
      modifies this
      ensures Stands() && at == old(at) + 1
    {
      var next := Follower();
      node, at := next, at + 1;
    }

    method Follower() returns (next: Link)
      requires mem.Ok() && Stands() && Valid()
      ensures at < |mem.table.Nodes()| && next == LinkAt(mem.table.Nodes(), at + 1)
    {
      StepOn(mem.table.arena, mem.table.lists, at);
      next := L.Next(mem.table.arena, node.node, 0);
    }

    /** There are no links back: it searches for the last node before this one. */
    method Prev()
      requires mem.Ok() && Stands() && Valid()
      modifies this
      ensures Stands() && at == PrevPosition(mem.Contents(), old(at))
    {
      var x := mem.table.FindLessThan(KeyOf(mem.table.arena, node.node));
      BottomInOrder(mem.table.arena, mem.table.lists);
      BeforeIt(mem.table.arena, mem.table.lists[0], at, x);
      node, at := LinkTo(x), PrevPosition(mem.Contents(), at);
    }

    method Seek(target: InternalKey<UserKey>)
      requires mem.Ok() && Stands()
      modifies this
      ensures Stands() && SeeksTo(mem.Contents(), target, at)
    {
      var prev;
      node, prev := mem.table.FindGreaterOrEqual(target);
      at := FoundAt(mem.table.arena, mem.table.lists, mem.values, target, node);
    }

    method SeekToFirst()
      requires mem.Ok() && Stands()
      modifies this
      ensures Stands() && at == 0
    {
      StandsAt(mem.table.arena, mem.table.lists, 0);
      node, at := L.Next(mem.table.arena, 0, 0), 0;
    }

    method SeekToLast()
      requires mem.Ok() && Stands()
      modifies this
      ensures Stands() && at == LastPosition(mem.Contents())
    {
      var x := mem.table.FindLast();
      BottomInOrder(mem.table.arena, mem.table.lists);
      LastOne(mem.table.Nodes());
      node, at := LinkTo(x), LastPosition(mem.Contents());
    }
  }
}
