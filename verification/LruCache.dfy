/** The LRU cache's books (util/cache): handles, reference counts, the two lists and the table; what every operation
    keeps of them, and what it means for the lookups that come after it. */
module LruCache {
  import opened Keys
  import opened Coding

  /** A key with its hash; the table compares both. */
  datatype Name = Name(key: Bytes, hash: Word)

  type Id = nat

  datatype Handle = Handle(name: Name, value: Bytes, charge: nat, inCache: bool, refs: nat)

  /** `held` are the handles clients have and have not released; `deleted` are the handles whose deleter has run. */
  datatype Shard = Shard(capacity: nat, usage: int, lru: seq<Id>, inUse: seq<Id>, table: map<Name, Id>,
                         handles: map<Id, Handle>, next: Id, held: multiset<Id>, deleted: seq<Id>)

  // ----- lists -----

  /** LRU_Remove. */
  function Without(s: seq<Id>, x: Id): seq<Id> {
    if s == [] then [] else if s[0] == x then Without(s[1..], x) else [s[0]] + Without(s[1..], x)
  }

  ghost predicate NoDup(s: seq<Id>) {
    forall i, j :: 0 <= i < j < |s| ==> s[i] != s[j]
  }

  function Charges(handles: map<Id, Handle>, s: seq<Id>): nat {
    if s == [] then 0 else (if s[0] in handles then handles[s[0]].charge else 0) + Charges(handles, s[1..])
  }

  lemma {:induction false} WithoutContents(s: seq<Id>, x: Id)
    ensures forall y :: y in Without(s, x) <==> y in s && y != x
    ensures NoDup(s) ==> NoDup(Without(s, x))
  {
    if s != [] {
      WithoutContents(s[1..], x);
      if NoDup(s) && s[0] != x {
        var w := [s[0]] + Without(s[1..], x);
        forall i, j | 0 <= i < j < |w| ensures w[i] != w[j] {
          assert w[j] in Without(s[1..], x);
        }
      }
    }
  }

  lemma {:induction false} WithoutAbsent(s: seq<Id>, x: Id)
    requires x !in s
    ensures Without(s, x) == s
  {
    if s != [] {
      WithoutAbsent(s[1..], x);
    }
  }

  lemma {:induction false} WithoutCharges(handles: map<Id, Handle>, s: seq<Id>, x: Id)
    requires NoDup(s) && x in s && x in handles
    ensures Charges(handles, Without(s, x)) == Charges(handles, s) - handles[x].charge
  {
    if s[0] == x {
      WithoutAbsent(s[1..], x);
    } else {
      WithoutCharges(handles, s[1..], x);
      assert Without(s, x)[1..] == Without(s[1..], x);
    }
  }

  lemma {:induction false} ChargesSnoc(handles: map<Id, Handle>, s: seq<Id>, x: Id)
    ensures Charges(handles, s + [x]) == Charges(handles, s) + if x in handles then handles[x].charge else 0
  {
    if s != [] {
      ChargesSnoc(handles, s[1..], x);
      assert (s + [x])[1..] == s[1..] + [x];
    }
  }

  lemma {:induction false} SameCharges(a: map<Id, Handle>, b: map<Id, Handle>, s: seq<Id>)
    requires forall x :: x in s ==> x in a && x in b && a[x].charge == b[x].charge
    ensures Charges(a, s) == Charges(b, s)
  {
    if s != [] {
      SameCharges(a, b, s[1..]);
    }
  }

  lemma {:induction false} WithoutSnoc(s: seq<Id>, x: Id, y: Id)
    requires x != y
    ensures Without(s + [y], x) == Without(s, x) + [y]
  {
    if s != [] {
      WithoutSnoc(s[1..], x, y);
      assert (s + [y])[1..] == s[1..] + [y];
    }
  }

  lemma {:induction false} WithoutFirst(s: seq<Id>)
    requires NoDup(s) && s != []
    ensures Without(s, s[0]) == s[1..]
  {
    WithoutAbsent(s[1..], s[0]);
  }

  // ----- the operations -----

  function Ref(s: Shard, h: Id): Shard
    requires h in s.handles
  {
    var e := s.handles[h];
    var moved := if e.refs == 1 && e.inCache then s.(lru := Without(s.lru, h), inUse := Without(s.inUse, h) + [h])
        else s;
    moved.(handles := s.handles[h := e.(refs := e.refs + 1)])
  }

  function Unref(s: Shard, h: Id): Shard
    requires h in s.handles && s.handles[h].refs > 0
  {
    var e := s.handles[h].(refs := s.handles[h].refs - 1);
    if e.refs == 0 then s.(handles := s.handles - {h}, deleted := s.deleted + [h])
    else
      var moved := if e.inCache && e.refs == 1 then s.(lru := Without(s.lru, h) + [h], inUse := Without(s.inUse, h))
          else s;
      moved.(handles := s.handles[h := e])
  }

  function FinishErase(s: Shard, h: Id): Shard
    requires h in s.handles && s.handles[h].refs > 0
  {
    var e := s.handles[h];
    Unref(s.(lru := Without(s.lru, h), inUse := Without(s.inUse, h), handles := s.handles[h := e.(inCache := false)],
             usage := s.usage - e.charge), h)
  }

  predicate CanDrop(s: Shard, name: Name) {
    name in s.table ==> s.table[name] in s.handles && s.handles[s.table[name]].refs > 0
  }

  /** Erase, and the removal that Insert and Prune do. */
  function Erase(s: Shard, name: Name): Shard
    requires CanDrop(s, name)
  {
    if name in s.table then FinishErase(s.(table := s.table - {name}), s.table[name]) else s
  }

  function Lookup(s: Shard, name: Name): Shard
    requires name in s.table ==> s.table[name] in s.handles
  {
    if name in s.table then var h := s.table[name]; Ref(s, h).(held := s.held + multiset{h}) else s
  }

  function Release(s: Shard, h: Id): Shard
    requires h in s.handles && s.handles[h].refs > 0
  {
    Unref(s, h).(held := s.held - multiset{h})
  }

  /** The new entry, linked, counted and in the table. */
  function Link(s: Shard, name: Name, value: Bytes, charge: nat): Shard {
    s.(handles := s.handles[s.next := Handle(name, value, charge, true, 2)], inUse := s.inUse + [s.next],
       table := s.table[name := s.next], usage := s.usage + charge, next := s.next + 1, held :=
           s.held + multiset{s.next})
  }

  /** Insert without the eviction behind it. */
  function Add(s: Shard, name: Name, value: Bytes, charge: nat): Shard
    requires CanDrop(s, name)
  {
    if s.capacity == 0 then
      s.(handles := s.handles[s.next := Handle(name, value, charge, false, 1)], next := s.next + 1,
         held := s.held + multiset{s.next})
    else
      var linked := Link(s, name, value, charge);
      if name in s.table then FinishErase(linked, s.table[name]) else linked
  }

  // ----- the invariant -----

  /** A reference for the cache, one for each handle a client holds, and no more. */
  ghost predicate RefsOk(s: Shard) {
    && (forall h :: h in s.handles ==> s.handles[h].refs == s.held[h] + (if s.handles[h].inCache then 1 else 0))
    && (forall h :: h in s.handles ==> s.handles[h].refs > 0)
    && forall h :: h in s.held ==> h in s.handles
  }

  /** Cached and only cached: on the LRU list; cached and held: on the in-use list; else on neither. */
  ghost predicate ListsOk(s: Shard) {
    && NoDup(s.lru) && NoDup(s.inUse)
    && (forall h :: h in s.lru <==> h in s.handles && s.handles[h].inCache && s.handles[h].refs == 1)
    && forall h :: h in s.inUse <==> h in s.handles && s.handles[h].inCache && s.handles[h].refs >= 2
  }

  /** The table has exactly the cached handles, under their names. */
  ghost predicate TableOk(s: Shard) {
    && (forall n :: n in s.table ==>
        s.table[n] in s.handles && s.handles[s.table[n]].name == n &&
        s.handles[s.table[n]].inCache)
    && forall h :: h in s.handles && s.handles[h].inCache ==>
        s.handles[h].name in s.table && s.table[s.handles[h].name] == h
  }

  ghost predicate UsageOk(s: Shard) {
    s.usage == Charges(s.handles, s.lru) + Charges(s.handles, s.inUse)
  }

  /** Every handle ever made is alive or has been deleted, once. */
  ghost predicate LivesOk(s: Shard) {
    && NoDup(s.deleted)
    && (forall h: Id :: h < s.next <==> h in s.handles || h in s.deleted)
    && forall h :: h in s.handles ==> h !in s.deleted
  }

  ghost predicate Inv(s: Shard) {
    RefsOk(s) && ListsOk(s) && TableOk(s) && UsageOk(s) && LivesOk(s)
  }

  // ----- each operation keeps it -----

  lemma {:induction false} NoDupSnoc(s: seq<Id>, x: Id)
    requires NoDup(s) && x !in s
    ensures NoDup(s + [x])
  {
  }

  lemma {:induction false} LookupRefs(s: Shard, h: Id)
    requires RefsOk(s) && h in s.handles
    ensures RefsOk(Ref(s, h).(held := s.held + multiset{h}))
  {
  }

  lemma {:induction false} LookupLists(s: Shard, h: Id)
    requires RefsOk(s) && ListsOk(s) && h in s.handles
    ensures ListsOk(Ref(s, h))
  {
    WithoutContents(s.lru, h);
    WithoutContents(s.inUse, h);
    NoDupSnoc(Without(s.inUse, h), h);
  }

  lemma {:induction false} LookupUsage(s: Shard, h: Id)
    requires ListsOk(s) && UsageOk(s) && h in s.handles
    ensures UsageOk(Ref(s, h))
  {
    var t := Ref(s, h);
    SameCharges(s.handles, t.handles, s.lru);
    SameCharges(s.handles, t.handles, s.inUse);
    if s.handles[h].refs == 1 && s.handles[h].inCache {
      WithoutCharges(t.handles, s.lru, h);
      WithoutAbsent(s.inUse, h);
      ChargesSnoc(t.handles, s.inUse, h);
    }
  }

  lemma {:induction false} LookupTable(s: Shard, h: Id)
    requires TableOk(s) && LivesOk(s) && h in s.handles
    ensures TableOk(Ref(s, h)) && LivesOk(Ref(s, h))
  {
  }

  lemma {:induction false} LookupKeeps(s: Shard, name: Name)
    requires Inv(s)
    ensures Inv(Lookup(s, name))
  {
    if name in s.table {
      var h := s.table[name];
      LookupRefs(s, h);
      LookupLists(s, h);
      LookupUsage(s, h);
      LookupTable(s, h);
    }
  }

  lemma {:induction false} ReleaseRefs(s: Shard, h: Id)
    requires RefsOk(s) && h in s.held
    ensures RefsOk(Release(s, h))
  {
  }

  lemma {:induction false} ReleaseTable(s: Shard, h: Id)
    requires RefsOk(s) && TableOk(s) && h in s.held
    ensures TableOk(Release(s, h))
  {
  }

  lemma {:induction false} ReleaseLives(s: Shard, h: Id)
    requires RefsOk(s) && LivesOk(s) && h in s.held
    ensures LivesOk(Release(s, h))
  {
    NoDupSnoc(s.deleted, h);
  }

  lemma {:induction false} ReleaseLists(s: Shard, h: Id)
    requires RefsOk(s) && ListsOk(s) && h in s.held
    ensures ListsOk(Release(s, h))
  {
    WithoutContents(s.lru, h);
    WithoutContents(s.inUse, h);
    NoDupSnoc(Without(s.lru, h), h);
  }

  lemma {:induction false} ReleaseUsage(s: Shard, h: Id)
    requires Inv(s) && h in s.held
    ensures UsageOk(Release(s, h))
  {
    var t := Release(s, h);
    SameCharges(s.handles, t.handles, s.lru);
    SameCharges(s.handles, t.handles, s.inUse);
    if s.handles[h].inCache && s.handles[h].refs == 2 {
      WithoutCharges(t.handles, s.inUse, h);
      WithoutAbsent(s.lru, h);
      ChargesSnoc(t.handles, s.lru, h);
    }
  }

  lemma {:induction false} ReleaseKeeps(s: Shard, h: Id)
    requires Inv(s) && h in s.held
    ensures Inv(Release(s, h))
  {
    ReleaseRefs(s, h);
    ReleaseTable(s, h);
    ReleaseLives(s, h);
    ReleaseLists(s, h);
    ReleaseUsage(s, h);
  }

  lemma {:induction false} EraseRefs(s: Shard, name: Name)
    requires RefsOk(s) && TableOk(s) && name in s.table
    ensures RefsOk(Erase(s, name))
  {
  }

  lemma {:induction false} EraseTable(s: Shard, name: Name)
    requires RefsOk(s) && TableOk(s) && name in s.table
    ensures TableOk(Erase(s, name))
  {
  }

  lemma {:induction false} EraseLives(s: Shard, name: Name)
    requires RefsOk(s) && TableOk(s) && LivesOk(s) && name in s.table
    ensures LivesOk(Erase(s, name))
  {
    NoDupSnoc(s.deleted, s.table[name]);
  }

  lemma {:induction false} EraseLists(s: Shard, name: Name)
    requires RefsOk(s) && TableOk(s) && ListsOk(s) && name in s.table
    ensures ListsOk(Erase(s, name))
  {
    WithoutContents(s.lru, s.table[name]);
    WithoutContents(s.inUse, s.table[name]);
  }

  /** A cached handle is on one list only. */
  lemma {:induction false} OnOneList(handles: map<Id, Handle>, lru: seq<Id>, inUse: seq<Id>, h: Id)
    requires NoDup(lru) && NoDup(inUse) && h in handles && (h in lru <==> h !in inUse)
    ensures Charges(handles, Without(lru, h)) + Charges(handles, Without(inUse, h)) ==
            Charges(handles, lru) + Charges(handles, inUse) - handles[h].charge
  {
    if h in lru {
      WithoutCharges(handles, lru, h);
      WithoutAbsent(inUse, h);
    } else {
      WithoutCharges(handles, inUse, h);
      WithoutAbsent(lru, h);
    }
  }

  lemma {:induction false} ChargesKept(s: Shard, name: Name, list: seq<Id>)
    requires RefsOk(s) && TableOk(s) && name in s.table
    requires forall x :: x in list ==> x in s.handles && x != s.table[name]
    ensures Charges(Erase(s, name).handles, list) == Charges(s.handles, list)
  {
    SameCharges(s.handles, Erase(s, name).handles, list);
  }

  lemma {:induction false} EraseUsage(s: Shard, name: Name)
    requires RefsOk(s) && TableOk(s) && ListsOk(s) && UsageOk(s) && name in s.table
    ensures UsageOk(Erase(s, name))
  {
    var h := s.table[name];
    OnOneList(s.handles, s.lru, s.inUse, h);
    WithoutContents(s.lru, h);
    WithoutContents(s.inUse, h);
    ChargesKept(s, name, Without(s.lru, h));
    ChargesKept(s, name, Without(s.inUse, h));
  }

  lemma {:induction false} EraseKeeps(s: Shard, name: Name)
    requires Inv(s)
    ensures Inv(Erase(s, name))
  {
    if name in s.table {
      EraseRefs(s, name);
      EraseTable(s, name);
      EraseLives(s, name);
      EraseLists(s, name);
      EraseUsage(s, name);
    }
  }

  lemma {:induction false} LinkRefs(s: Shard, name: Name, value: Bytes, charge: nat)
    requires RefsOk(s) && LivesOk(s)
    ensures RefsOk(Link(s, name, value, charge)) && LivesOk(Link(s, name, value, charge))
  {
    assert s.next !in s.held;
  }

  lemma {:induction false} LinkTable(s: Shard, name: Name, value: Bytes, charge: nat)
    requires TableOk(s) && LivesOk(s) && name !in s.table
    ensures TableOk(Link(s, name, value, charge))
  {
  }

  lemma {:induction false} LinkLists(s: Shard, name: Name, value: Bytes, charge: nat)
    requires ListsOk(s) && LivesOk(s)
    ensures ListsOk(Link(s, name, value, charge))
  {
    NoDupSnoc(s.inUse, s.next);
  }

  lemma {:induction false} LinkUsage(s: Shard, name: Name, value: Bytes, charge: nat)
    requires ListsOk(s) && LivesOk(s) && UsageOk(s)
    ensures UsageOk(Link(s, name, value, charge))
  {
    var t := Link(s, name, value, charge);
    SameCharges(s.handles, t.handles, s.lru);
    SameCharges(s.handles, t.handles, s.inUse);
    ChargesSnoc(t.handles, s.inUse, s.next);
  }

  lemma {:induction false} LinkKeeps(s: Shard, name: Name, value: Bytes, charge: nat)
    requires Inv(s) && name !in s.table
    ensures Inv(Link(s, name, value, charge))
  {
    LinkRefs(s, name, value, charge);
    LinkTable(s, name, value, charge);
    LinkLists(s, name, value, charge);
    LinkUsage(s, name, value, charge);
  }

  lemma {:induction false} KeptApart(m: map<Id, Handle>, n: Id, added: Handle, w: Id, e: Handle, f: Handle)
    requires n != w
    ensures m[n := added][w := e][w := f] == m[w := e][w := f][n := added]
  {
  }

  lemma {:induction false} DroppedApart(m: map<Id, Handle>, n: Id, added: Handle, w: Id, e: Handle)
    requires n != w
    ensures m[n := added][w := e] - {w} == (m[w := e] - {w})[n := added]
  {
  }

  lemma {:induction false} Renamed(m: map<Name, Id>, name: Name, x: Id)
    ensures m[name := x] == (m - {name})[name := x]
  {
  }

  /** Linking the new entry before the old one under its name is let go, as the code does, or after, is the same. */
  lemma {:induction false} LinkThenErase(s: Shard, name: Name, value: Bytes, charge: nat)
    requires RefsOk(s) && ListsOk(s) && TableOk(s) && LivesOk(s) && name in s.table
    ensures FinishErase(Link(s, name, value, charge), s.table[name]) == Link(Erase(s, name), name, value, charge)
  {
    var was := s.table[name];
    var e := s.handles[was].(inCache := false);
    var added := Handle(name, value, charge, true, 2);
    WithoutSnoc(s.inUse, was, s.next);
    Renamed(s.table, name, s.next);
    if e.refs == 1 {
      DroppedApart(s.handles, s.next, added, was, e);
    } else {
      KeptApart(s.handles, s.next, added, was, e, e.(refs := e.refs - 1));
    }
  }

  lemma {:induction false} UncachedRefs(s: Shard, name: Name, value: Bytes, charge: nat)
    requires RefsOk(s) && LivesOk(s) && TableOk(s) && s.capacity == 0
    ensures RefsOk(Add(s, name, value, charge))
  {
    assert s.next !in s.held;
  }

  lemma {:induction false} UncachedLives(s: Shard, name: Name, value: Bytes, charge: nat)
    requires LivesOk(s) && CanDrop(s, name) && s.capacity == 0
    ensures LivesOk(Add(s, name, value, charge))
  {
  }

  lemma {:induction false} UncachedTable(s: Shard, name: Name, value: Bytes, charge: nat)
    requires LivesOk(s) && TableOk(s) && CanDrop(s, name) && s.capacity == 0
    ensures TableOk(Add(s, name, value, charge))
  {
  }

  lemma {:induction false} UncachedBooks(s: Shard, name: Name, value: Bytes, charge: nat)
    requires RefsOk(s) && LivesOk(s) && TableOk(s) && s.capacity == 0
    ensures var t := Add(s, name, value, charge); RefsOk(t) && LivesOk(t) && TableOk(t)
  {
    UncachedRefs(s, name, value, charge);
    UncachedLives(s, name, value, charge);
    UncachedTable(s, name, value, charge);
  }

  lemma {:induction false} UncachedLists(s: Shard, name: Name, value: Bytes, charge: nat)
    requires RefsOk(s) && TableOk(s) && ListsOk(s) && LivesOk(s) && UsageOk(s) && s.capacity == 0
    ensures var t := Add(s, name, value, charge); ListsOk(t) && UsageOk(t)
  {
    SameCharges(s.handles, Add(s, name, value, charge).handles, s.lru);
    SameCharges(s.handles, Add(s, name, value, charge).handles, s.inUse);
  }

  lemma {:induction false} AddKeeps(s: Shard, name: Name, value: Bytes, charge: nat)
    requires Inv(s)
    ensures Inv(Add(s, name, value, charge))
  {
    if s.capacity == 0 {
      UncachedBooks(s, name, value, charge);
      UncachedLists(s, name, value, charge);
    } else if name in s.table {
      LinkThenErase(s, name, value, charge);
      EraseKeeps(s, name);
      LinkKeeps(Erase(s, name), name, value, charge);
    } else {
      LinkKeeps(s, name, value, charge);
    }
  }

  // ----- eviction -----

  /** The oldest entry that no client holds goes. */
  function EvictOne(s: Shard): Shard
    requires Inv(s) && s.lru != []
  {
    assert s.lru[0] in s.lru;
    Erase(s, s.handles[s.lru[0]].name)
  }

  lemma {:induction false} EvictOneMeans(s: Shard)
    requires Inv(s) && s.lru != []
    ensures var t, h := EvictOne(s), s.lru[0];
            && h in s.handles && t.lru == s.lru[1..] && t.inUse == s.inUse && t.handles == s.handles - {h}
            && t.deleted == s.deleted + [h] && t.usage == s.usage - s.handles[h].charge
            && t.held == s.held && t.capacity == s.capacity && t.next == s.next
            && t.table == s.table - {s.handles[h].name}
  {
    var h := s.lru[0];
    assert h in s.lru;
    WithoutFirst(s.lru);
    WithoutAbsent(s.inUse, h);
    var m := s.handles[h := s.handles[h].(inCache := false)];
    assert m - {h} == s.handles - {h};
  }

  lemma {:induction false} EvictOneKeeps(s: Shard)
    requires Inv(s) && s.lru != []
    ensures Inv(EvictOne(s)) && |EvictOne(s).lru| < |s.lru|
  {
    EvictOneMeans(s);
    assert s.lru[0] in s.lru;
    EraseKeeps(s, s.handles[s.lru[0]].name);
  }

  /** The loop of Insert, down to `capacity`; Prune's is the same down to nothing. */
  function Evict(s: Shard, all: bool): (t: Shard)
    requires Inv(s)
    ensures Inv(t)
    decreases |s.lru|
  {
    if s.lru == [] || (!all && s.usage <= s.capacity) then s
    else
      EvictOneKeeps(s);
      Evict(EvictOne(s), all)
  }

  ghost predicate HandlesLeft(before: map<Id, Handle>, gone: seq<Id>, after: map<Id, Handle>) {
    && (forall h :: h in after <==> h in before && h !in gone)
    && forall h :: h in after ==> after[h] == before[h]
  }

  ghost predicate NamesLeft(before: map<Name, Id>, gone: seq<Id>, after: map<Name, Id>) {
    && (forall n :: n in after <==> n in before && before[n] !in gone)
    && forall n :: n in after ==> after[n] == before[n]
  }

  /** Eviction runs the deleters of the oldest k unheld entries, in that order, and touches nothing else. */
  ghost predicate Evicted(s: Shard, t: Shard, k: nat) {
    && k <= |s.lru| && t.lru == s.lru[k..] && t.inUse == s.inUse && t.deleted == s.deleted + s.lru[..k]
    && t.held == s.held && t.capacity == s.capacity && t.next == s.next
    && t.usage == s.usage - Charges(s.handles, s.lru[..k])
    && HandlesLeft(s.handles, s.lru[..k], t.handles) && NamesLeft(s.table, s.lru[..k], t.table)
  }

  lemma {:induction false} ListsNext(lru: seq<Id>, deleted: seq<Id>, k: nat)
    requires k < |lru|
    ensures lru[..k + 1] == [lru[0]] + lru[1..][..k] && lru[1..][k..] == lru[k + 1..]
    ensures deleted + [lru[0]] + lru[1..][..k] == deleted + lru[..k + 1]
  {
  }

  lemma {:induction false} HandlesNext(before: map<Id, Handle>, x: Id, gone: seq<Id>, after: map<Id, Handle>)
    requires HandlesLeft(before - {x}, gone, after)
    ensures HandlesLeft(before, [x] + gone, after)
  {
  }

  lemma {:induction false} NamesNext(before: map<Name, Id>, name: Name, x: Id, gone: seq<Id>, after: map<Name, Id>)
    requires NamesLeft(before - {name}, gone, after) && forall n :: n in before ==> (before[n] == x <==> n == name)
    ensures NamesLeft(before, [x] + gone, after)
  {
  }

  lemma {:induction false} ChargesNext(s: Shard, k: nat)
    requires Inv(s) && k < |s.lru|
    ensures s.lru[0] in s.handles
    ensures Charges(s.handles, s.lru[..k + 1]) == s.handles[s.lru[0]].charge +
            Charges(EvictOne(s).handles, s.lru[1..][..k])
  {
    var h := s.lru[0];
    EvictOneMeans(s);
    assert h in s.lru;
    ListsNext(s.lru, [], k);
    assert forall x :: x in s.lru[1..][..k] ==> x in s.lru && x != h;
    SameCharges(s.handles, EvictOne(s).handles, s.lru[1..][..k]);
  }

  lemma {:induction false} EvictedNext(s: Shard, t: Shard, k: nat)
    requires Inv(s) && s.lru != [] && Evicted(EvictOne(s), t, k)
    ensures Evicted(s, t, k + 1)
  {
    var h := s.lru[0];
    EvictOneMeans(s);
    ChargesNext(s, k);
    ListsNext(s.lru, s.deleted, k);
    HandlesNext(s.handles, h, s.lru[1..][..k], t.handles);
    assert h in s.lru;
    NamesNext(s.table, s.handles[h].name, h, s.lru[1..][..k], t.table);
  }

  lemma {:induction false} EvictedNone(s: Shard)
    ensures Evicted(s, s, 0)
  {
    assert s.lru[..0] == [] && s.deleted + [] == s.deleted;
  }

  lemma {:induction false} Before(s: Shard, j: nat)
    requires Inv(s) && j < |s.lru|
    ensures s.usage - Charges(s.handles, s.lru[..j]) ==
            if j == 0 then s.usage else EvictOne(s).usage - Charges(EvictOne(s).handles, s.lru[1..][..j - 1])
  {
    EvictOneMeans(s);
    if j > 0 {
      ChargesNext(s, j - 1);
    }
  }

  /** No more than needed: before the last one went the cache was over its capacity. */
  lemma {:induction false} EvictMeans(s: Shard, all: bool) returns (k: nat)
    requires Inv(s)
    ensures Evicted(s, Evict(s, all), k)
    ensures k == |s.lru| || (!all && Evict(s, all).usage <= s.capacity)
    ensures k > 0 && !all ==> s.usage - Charges(s.handles, s.lru[..k - 1]) > s.capacity
    decreases |s.lru|
  {
    if s.lru == [] || (!all && s.usage <= s.capacity) {
      k := 0;
      EvictedNone(s);
    } else {
      EvictOneMeans(s);
      EvictOneKeeps(s);
      var j := EvictMeans(EvictOne(s), all);
      EvictedNext(s, Evict(s, all), j);
      k := j + 1;
      Before(s, j);
    }
  }

  // ----- what clients see -----

  function Insert(s: Shard, name: Name, value: Bytes, charge: nat): (t: Shard)
    requires Inv(s)
    ensures Inv(t)
  {
    AddKeeps(s, name, value, charge);
    Evict(Add(s, name, value, charge), false)
  }

  datatype Found = Missing | Hit(value: Bytes)

  function At(s: Shard, name: Name): Found {
    if name in s.table && s.table[name] in s.handles then Hit(s.handles[s.table[name]].value) else Missing
  }

  /** The new entry is there, held by its client and, if there is room for anything, by the cache. */
  ghost predicate HasNew(s: Shard, name: Name, value: Bytes, charge: nat, t: Shard) {
    && t.next == s.next + 1 && t.held == s.held + multiset{s.next} && t.capacity == s.capacity
    && s.next in t.handles
    && t.handles[s.next] == Handle(name, value, charge, s.capacity > 0, if s.capacity > 0 then 2 else 1)
    && (s.capacity > 0 ==> name in t.table && t.table[name] == s.next)
  }

  lemma {:induction false} LinkMeans(s: Shard, name: Name, value: Bytes, charge: nat)
    requires Inv(s) && s.capacity > 0 && name !in s.table
    ensures HasNew(s, name, value, charge, Link(s, name, value, charge))
    ensures forall n :: n != name ==> At(Link(s, name, value, charge), n) == At(s, n)
  {
  }

  lemma {:induction false} UncachedMeans(s: Shard, name: Name, value: Bytes, charge: nat)
    requires Inv(s) && s.capacity == 0
    ensures HasNew(s, name, value, charge, Add(s, name, value, charge))
    ensures forall n :: At(Add(s, name, value, charge), n) == At(s, n)
  {
  }

  lemma {:induction false} EraseSameBooks(s: Shard, name: Name)
    requires Inv(s)
    ensures var t := Erase(s, name);
            t.next == s.next && t.held == s.held && t.capacity == s.capacity && name !in t.table
  {
  }

  lemma {:induction false} AddMeans(s: Shard, name: Name, value: Bytes, charge: nat)
    requires Inv(s)
    ensures HasNew(s, name, value, charge, Add(s, name, value, charge))
    ensures forall n :: n != name || s.capacity == 0 ==> At(Add(s, name, value, charge), n) == At(s, n)
  {
    if s.capacity == 0 {
      UncachedMeans(s, name, value, charge);
    } else if name in s.table {
      var e := Erase(s, name);
      LinkThenErase(s, name, value, charge);
      EraseKeeps(s, name);
      EraseSameBooks(s, name);
      LinkMeans(e, name, value, charge);
      forall n | n != name ensures At(e, n) == At(s, n) {
        EraseMeans(s, name, n);
      }
    } else {
      LinkMeans(s, name, value, charge);
    }
  }

  lemma {:induction false} EvictedAt(s: Shard, t: Shard, k: nat, name: Name)
    requires Inv(s) && Evicted(s, t, k)
    ensures At(t, name) == At(s, name) || At(t, name) == Missing
    ensures name in s.table && s.table[name] !in s.lru ==> name in t.table && t.table[name] == s.table[name]
  {
  }

  /** The new entry is there and held; the cache is within its capacity unless clients hold all of it; any other
      entry is as it was or has been evicted. */
  lemma {:induction false} InsertMeans(s: Shard, name: Name, value: Bytes, charge: nat)
    requires Inv(s)
    ensures var t := Insert(s, name, value, charge);
            && t.next == s.next + 1 && t.held == s.held + multiset{s.next} && t.capacity == s.capacity
            && s.next in t.handles && t.handles[s.next].value == value && t.handles[s.next].name == name
            && (s.capacity > 0 ==> name in t.table && t.table[name] == s.next)
            && (t.usage <= t.capacity || t.lru == [])
            && forall n :: n != name || s.capacity == 0 ==> At(t, n) == At(s, n) || At(t, n) == Missing
  {
    var added := Add(s, name, value, charge);
    AddKeeps(s, name, value, charge);
    AddMeans(s, name, value, charge);
    var k := EvictMeans(added, false);
    assert s.next !in added.lru;
    forall n ensures n != name || s.capacity == 0 ==>
        At(Evict(added, false), n) == At(s, n) ||
        At(Evict(added, false), n) == Missing {
      EvictedAt(added, Evict(added, false), k, n);
    }
    EvictedAt(added, Evict(added, false), k, name);
  }

  lemma {:induction false} LookupMeans(s: Shard, name: Name, n: Name)
    requires Inv(s)
    ensures At(Lookup(s, name), n) == At(s, n)
    ensures Lookup(s, name).held == s.held + if name in s.table then multiset{s.table[name]} else multiset{}
  {
  }

  lemma {:induction false} ReleaseMeans(s: Shard, h: Id, n: Name)
    requires Inv(s) && h in s.held
    ensures At(Release(s, h), n) == At(s, n)
  {
  }

  lemma {:induction false} EraseMeans(s: Shard, name: Name, n: Name)
    requires Inv(s)
    ensures At(Erase(s, name), n) == if n == name then Missing else At(s, n)
  {
  }

  function Start(capacity: nat): Shard {
    Shard(capacity, 0, [], [], map[], map[], 0, multiset{}, [])
  }

  lemma {:induction false} StartKeeps(capacity: nat)
    ensures Inv(Start(capacity))
  {
  }
}
