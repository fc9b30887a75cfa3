/** In every run of a cache shard (util/cache) the entry let go longest ago is the next to be evicted. */
module CacheOrder {
  import opened Keys
  import opened LruCache
  import opened CacheRuns

  // ----- what an operation does to the list of unheld entries -----

  lemma {:induction false} LookupLru(s: Shard, name: Name)
    requires Inv(s)
    ensures Lookup(s, name).lru == if name in s.table then Without(s.lru, s.table[name]) else s.lru
  {
    if name in s.table {
      var h := s.table[name];
      if s.handles[h].refs != 1 {
        WithoutAbsent(s.lru, h);
      }
    }
  }

  /** An entry that its last client lets go comes behind all others. */
  lemma {:induction false} ReleaseLru(s: Shard, h: Id)
    requires Inv(s) && h in s.held
    ensures Release(s, h).lru == if s.handles[h].inCache && s.handles[h].refs == 2 then s.lru + [h] else s.lru
  {
    WithoutAbsent(s.lru, h);
  }

  lemma {:induction false} EraseLru(s: Shard, name: Name)
    requires Inv(s)
    ensures Erase(s, name).lru == if name in s.table then Without(s.lru, s.table[name]) else s.lru
  {
  }

  lemma {:induction false} AddLru(s: Shard, name: Name, value: Bytes, charge: nat)
    requires Inv(s)
    ensures Add(s, name, value, charge).lru ==
            if s.capacity > 0 && name in s.table then Without(s.lru, s.table[name]) else s.lru
  {
  }

  /** Eviction takes entries from the front. */
  lemma {:induction false} EvictLru(s: Shard, all: bool) returns (k: nat)
    requires Inv(s)
    ensures k <= |s.lru| && Evict(s, all).lru == s.lru[k..]
  {
    k := EvictMeans(s, all);
  }

  // ----- when an entry was let go -----

  /** The last time that a client released the handle, or -1. */
  function LastRelease(actions: seq<Action>, h: Id): int {
    if actions == [] then -1
    else if actions[|actions| - 1] == DoRelease(h) then |actions| - 1
    else LastRelease(actions[..|actions| - 1], h)
  }

  lemma {:induction false} LastReleaseMeans(actions: seq<Action>, h: Id)
    ensures var t := LastRelease(actions, h);
            && -1 <= t < |actions| && (t >= 0 ==> actions[t] == DoRelease(h))
            && forall i :: t < i < |actions| ==> actions[i] != DoRelease(h)
  {
    if actions != [] && actions[|actions| - 1] != DoRelease(h) {
      LastReleaseMeans(actions[..|actions| - 1], h);
    }
  }

  /** Listed by the time of the last release, the earliest first. */
  ghost predicate InOrder(actions: seq<Action>, s: seq<Id>) {
    && (forall i :: 0 <= i < |s| ==> 0 <= LastRelease(actions, s[i]))
    && forall i, j :: 0 <= i < j < |s| ==> LastRelease(actions, s[i]) < LastRelease(actions, s[j])
  }

  lemma {:induction false} InOrderTail(actions: seq<Action>, s: seq<Id>, k: nat)
    requires InOrder(actions, s) && k <= |s|
    ensures InOrder(actions, s[k..])
  {
  }

  lemma {:induction false} InOrderHead(actions: seq<Action>, x: Id, s: seq<Id>)
    requires InOrder(actions, s) && 0 <= LastRelease(actions, x)
    requires forall y :: y in s ==> LastRelease(actions, x) < LastRelease(actions, y)
    ensures InOrder(actions, [x] + s)
  {
    forall j | 0 <= j < |s| ensures LastRelease(actions, x) < LastRelease(actions, s[j]) {
      assert s[j] in s;
    }
  }

  lemma {:induction false} HeadIsFirst(actions: seq<Action>, s: seq<Id>, y: Id)
    requires InOrder(actions, s) && s != [] && y in s[1..]
    ensures LastRelease(actions, s[0]) < LastRelease(actions, y)
  {
    var k :| 0 <= k < |s[1..]| && s[1..][k] == y;
    assert s[k + 1] == y;
  }

  lemma {:induction false} InOrderWithout(actions: seq<Action>, s: seq<Id>, x: Id)
    requires InOrder(actions, s)
    ensures InOrder(actions, Without(s, x))
  {
    if s != [] {
      InOrderTail(actions, s, 1);
      InOrderWithout(actions, s[1..], x);
      WithoutContents(s[1..], x);
      forall y | y in Without(s[1..], x) ensures LastRelease(actions, s[0]) < LastRelease(actions, y) {
        HeadIsFirst(actions, s, y);
      }
      InOrderHead(actions, s[0], Without(s[1..], x));
    }
  }

  /** One more action does not matter, unless it releases one of them. */
  lemma {:induction false} InOrderLater(actions: seq<Action>, a: Action, s: seq<Id>)
    requires InOrder(actions, s) && (a.DoRelease? ==> a.h !in s)
    ensures InOrder(actions + [a], s)
  {
    assert (actions + [a])[..|actions|] == actions;
    forall h | h in s ensures LastRelease(actions + [a], h) == LastRelease(actions, h) {
    }
    forall i | 0 <= i < |s| ensures LastRelease(actions + [a], s[i]) == LastRelease(actions, s[i]) {
      assert s[i] in s;
    }
  }

  lemma {:induction false} InOrderReleased(actions: seq<Action>, s: seq<Id>, h: Id)
    requires InOrder(actions, s) && h !in s
    ensures InOrder(actions + [DoRelease(h)], s + [h])
  {
    InOrderLater(actions, DoRelease(h), s);
    forall i | 0 <= i < |s| ensures LastRelease(actions + [DoRelease(h)], s[i]) < |actions| {
      assert (actions + [DoRelease(h)])[..|actions|] == actions;
      assert s[i] in s;
      LastReleaseMeans(actions, s[i]);
    }
  }

  // ----- runs -----

  lemma {:induction false} StepInOrder(s: Shard, actions: seq<Action>, a: Action)
    requires Inv(s) && Can(s, a) && InOrder(actions, s.lru)
    ensures InOrder(actions + [a], Do(s, a).lru)
  {
    match a
    case DoInsert(name, value, charge) =>
      AddLru(s, name, value, charge);
      AddKeeps(s, name, value, charge);
      if name in s.table {
        InOrderWithout(actions, s.lru, s.table[name]);
      }
      var k := EvictLru(Add(s, name, value, charge), false);
      InOrderTail(actions, Add(s, name, value, charge).lru, k);
      InOrderLater(actions, a, Do(s, a).lru);
    case DoLookup(name) =>
      LookupLru(s, name);
      if name in s.table {
        InOrderWithout(actions, s.lru, s.table[name]);
      }
      InOrderLater(actions, a, Do(s, a).lru);
    case DoRelease(h) =>
      ReleaseLru(s, h);
      if s.handles[h].inCache && s.handles[h].refs == 2 {
        InOrderReleased(actions, s.lru, h);
      } else {
        InOrderLater(actions, a, s.lru);
      }
    case DoErase(name) =>
      EraseLru(s, name);
      if name in s.table {
        InOrderWithout(actions, s.lru, s.table[name]);
      }
      InOrderLater(actions, a, Do(s, a).lru);
    case DoPrune =>
      var k := EvictLru(s, true);
      InOrderTail(actions, s.lru, k);
      InOrderLater(actions, a, Do(s, a).lru);
  }

  /** In every run the entries that nobody holds are listed by the time of their last release. */
  lemma {:induction false} EveryOrder(capacity: nat, actions: seq<Action>)
    requires Run(capacity, actions).Reached?
    ensures InOrder(actions, Run(capacity, actions).shard.lru)
    decreases |actions|
  {
    if actions != [] {
      var n := |actions| - 1;
      EveryOrder(capacity, actions[..n]);
      StepInOrder(Run(capacity, actions[..n]).shard, actions[..n], actions[n]);
      assert actions[..n] + [actions[n]] == actions;
    }
  }

  lemma {:induction false} FrontIsEarlier(actions: seq<Action>, lru: seq<Id>, k: nat, gone: Id, kept: Id)
    requires InOrder(actions, lru) && k <= |lru| && gone in lru[..k] && kept in lru[k..]
    ensures LastRelease(actions, gone) < LastRelease(actions, kept)
  {
    var i :| 0 <= i < k && lru[..k][i] == gone;
    var j :| 0 <= j < |lru[k..]| && lru[k..][j] == kept;
    assert lru[i] == gone && lru[k + j] == kept;
  }

  lemma {:induction false} InFront(s: seq<Id>, k: nat, x: Id)
    requires k <= |s| && x in s && x !in s[k..]
    ensures x in s[..k]
  {
    assert s == s[..k] + s[k..];
  }

  /** So when an insertion or pruning takes entries out, each that goes was let go before each that stays. */
  lemma {:induction false} OldestGoFirst(capacity: nat, actions: seq<Action>, s: Shard, all: bool, gone: Id, kept: Id)
    requires Run(capacity, actions).Reached? && s == Run(capacity, actions).shard
    requires gone in s.lru && gone !in Evict(s, all).lru && kept in Evict(s, all).lru
    ensures LastRelease(actions, gone) < LastRelease(actions, kept)
  {
    EveryOrder(capacity, actions);
    var k := EvictLru(s, all);
    InFront(s.lru, k, gone);
    FrontIsEarlier(actions, s.lru, k, gone, kept);
  }

  // ----- what clients hold -----

  /** Clients hold what they have inserted or looked up and not released, each as often. */
  ghost function HeldAfter(s: Shard, a: Action, held: multiset<Id>): multiset<Id> {
    match a
    case DoInsert(_, _, _) => held + multiset{s.next}
    case DoLookup(name) => if name in s.table then held + multiset{s.table[name]} else held
    case DoRelease(h) => held - multiset{h}
    case _ => held
  }

  ghost function ClientsHold(capacity: nat, actions: seq<Action>): multiset<Id>
    requires Run(capacity, actions).Reached?
    decreases |actions|
  {
    if actions == [] then multiset{}
    else
      var n := |actions| - 1;
      HeldAfter(Run(capacity, actions[..n]).shard, actions[n], ClientsHold(capacity, actions[..n]))
  }

  lemma {:induction false} StepHolds(s: Shard, a: Action)
    requires Inv(s) && Can(s, a)
    ensures Do(s, a).held == HeldAfter(s, a, s.held)
  {
    match a
    case DoInsert(name, value, charge) => InsertMeans(s, name, value, charge);
    case DoLookup(name) => LookupMeans(s, name, name);
    case DoRelease(h) =>
    case DoErase(name) =>
    case DoPrune => var k := EvictMeans(s, true);
  }

  /** The shard counts just these references. */
  lemma {:induction false} EveryHold(capacity: nat, actions: seq<Action>)
    requires Run(capacity, actions).Reached?
    ensures Run(capacity, actions).shard.held == ClientsHold(capacity, actions)
    decreases |actions|
  {
    if actions != [] {
      var n := |actions| - 1;
      EveryHold(capacity, actions[..n]);
      StepHolds(Run(capacity, actions[..n]).shard, actions[n]);
    }
  }
}
