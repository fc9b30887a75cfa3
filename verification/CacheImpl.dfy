/** LRUCache as an object over its hash table (util/cache), tied to the books of LruCache: its methods update the
    fields in the order in which the code does, and at their end the fields are what the books say. */
module CacheImpl {
  import opened Keys
  import opened LruCache
  import HandleTable

  class LRUCache {
    const capacity: nat
    var usage: int
    var lru: seq<Id>
    var inUse: seq<Id>
    const table: HandleTable.HandleTable
    var handles: map<Id, Handle>
    var next: Id
    ghost var held: multiset<Id>
    ghost var deleted: seq<Id>

    ghost function Now(): Shard
      reads this, table
    {
      Shard(capacity, usage, lru, inUse, table.contents, handles, next, held, deleted)
    }

    ghost predicate TableFine()
      reads table
    {
      table.Valid() && table.elems <= |table.list|
    }

    ghost predicate Ok()
      reads this, table
    {
      TableFine() && Inv(Now())
    }

    constructor (capacity: nat)
      ensures Ok() && Now() == Start(capacity) && fresh(table)
    {
      this.capacity, usage, lru, inUse, handles, next := capacity, 0, [], [], map[], 0;
      held, deleted := multiset{}, [];
      table := new HandleTable.HandleTable();
      new;
      StartKeeps(capacity);
    }

    /** Takes e off whichever list it is on. */
    method LRURemove(e: Id)
      modifies this
      ensures Now() == old(Now()).(lru := Without(old(lru), e), inUse := Without(old(inUse), e))
    {
      lru, inUse := Without(lru, e), Without(inUse, e);
    }

    method Ref(e: Id)
      requires e in handles
      modifies this
      ensures Now() == LruCache.Ref(old(Now()), e)
    {
      if handles[e].refs == 1 && handles[e].inCache {
        LRURemove(e);
        inUse := inUse + [e];
      }
      handles := handles[e := handles[e].(refs := handles[e].refs + 1)];
    }

    method Unref(e: Id)
      requires e in handles && handles[e].refs > 0
      modifies this
      ensures Now() == LruCache.Unref(old(Now()), e)
    {
      var entry := handles[e].(refs := handles[e].refs - 1);
      if entry.refs == 0 {
        handles, deleted := handles - {e}, deleted + [e];
      } else {
        handles := handles[e := entry];
        if entry.inCache && entry.refs == 1 {
          LRURemove(e);
          lru := lru + [e];
        }
      }
    }

    method FinishErase(e: Id)
      requires e in handles && handles[e].refs > 0
      modifies this
      ensures Now() == LruCache.FinishErase(old(Now()), e)
    {
      LRURemove(e);
      var charge := handles[e].charge;
      handles := handles[e := handles[e].(inCache := false)];
      usage := usage - charge;
      Unref(e);
    }

    method LookupEntry(name: Name) returns (r: HandleTable.Handle)
      requires TableFine() && (name in table.contents ==> table.contents[name] in handles)
      modifies this
      ensures Now() == LruCache.Lookup(old(Now()), name) && r == HandleTable.Get(table.contents, name)
    {
      r := table.Lookup(name);
      if r.Handle? {
        Ref(r.id);
        held := held + multiset{r.id};
      }
    }

    method Lookup(name: Name) returns (r: HandleTable.Handle)
      requires Ok()
      modifies this
      ensures Ok() && Now() == LruCache.Lookup(old(Now()), name) && r == HandleTable.Get(table.contents, name)
    {
      LookupKeeps(Now(), name);
      r := LookupEntry(name);
    }

    method Release(h: Id)
      requires Ok() && h in held
      modifies this
      ensures Ok() && Now() == LruCache.Release(old(Now()), h)
    {
      ReleaseKeeps(Now(), h);
      Unref(h);
      held := held - multiset{h};
    }

    /** Remove from the table and FinishErase. */
    method Drop(name: Name) returns (erased: bool)
      requires TableFine() && CanDrop(Now(), name)
      modifies this, table
      ensures TableFine() && Now() == LruCache.Erase(old(Now()), name) && erased == (name in old(table.contents))
    {
      var r := table.Remove(name);
      if r.Handle? {
        FinishErase(r.id);
      } else {
        assert old(table.contents) - {name} == old(table.contents);
      }
      erased := r.Handle?;
    }

    method Erase(name: Name)
      requires Ok()
      modifies this, table
      ensures Ok() && Now() == LruCache.Erase(old(Now()), name)
    {
      EraseKeeps(Now(), name);
      var erased := Drop(name);
    }

    method MakeEntry(name: Name, value: Bytes, charge: nat) returns (e: Id)
      modifies this
      ensures e == old(next) && Now() == Link(old(Now()), name, value, charge).(table := old(table.contents))
    {
      e := next;
      next, held := next + 1, held + multiset{e};
      handles := handles[e := Handle(name, value, charge, true, 2)];
      inUse := inUse + [e];
      usage := usage + charge;
    }

    method LinkEntry(name: Name, value: Bytes, charge: nat) returns (e: Id, r: HandleTable.Handle)
      requires TableFine()
      modifies this, table
      ensures TableFine() && e == old(next) && Now() == Link(old(Now()), name, value, charge)
      ensures r == HandleTable.Get(old(table.contents), name)
    {
      e := MakeEntry(name, value, charge);
      r := table.Insert(name, e);
    }

    /** The old entry, if there is one, is let go once the new one is linked. */
    method AddCached(name: Name, value: Bytes, charge: nat) returns (e: Id)
      requires TableFine() && CanDrop(Now(), name) && capacity > 0
      modifies this, table
      ensures TableFine() && e == old(next) && Now() == LruCache.Add(old(Now()), name, value, charge)
    {
      var r: HandleTable.Handle;
      e, r := LinkEntry(name, value, charge);
      if r.Handle? {
        FinishErase(r.id);
      }
    }

    /** Insert up to the eviction loop. */
    method AddEntry(name: Name, value: Bytes, charge: nat) returns (e: Id)
      requires TableFine() && CanDrop(Now(), name)
      modifies this, table
      ensures TableFine() && e == old(next) && Now() == LruCache.Add(old(Now()), name, value, charge)
    {
      if capacity > 0 {
        e := AddCached(name, value, charge);
      } else {
        e := next;
        next, held := next + 1, held + multiset{e};
        handles := handles[e := Handle(name, value, charge, false, 1)];
      }
    }

    method EvictWhile(all: bool)
      requires Ok()
      modifies this, table
      ensures Ok() && Now() == LruCache.Evict(old(Now()), all)
    {
      while (all || usage > capacity) && lru != []
        invariant Ok() && Evict(Now(), all) == Evict(old(Now()), all)
        decreases |lru|
      {
        EvictOneKeeps(Now());
        assert lru[0] in lru;
        var erased := Drop(handles[lru[0]].name);
        assert erased;
      }
    }

    method Insert(name: Name, value: Bytes, charge: nat) returns (e: Id)
      requires Ok()
      modifies this, table
      ensures Ok() && Now() == LruCache.Insert(old(Now()), name, value, charge) && e == old(next)
    {
      AddKeeps(Now(), name, value, charge);
      e := AddEntry(name, value, charge);
      EvictWhile(false);
    }

    method Prune()
      requires Ok()
      modifies this, table
      ensures Ok() && Now() == LruCache.Evict(old(Now()), true)
    {
      EvictWhile(true);
    }
  }
}
