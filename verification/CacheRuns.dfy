/** Every run of a cache shard (util/cache): lookups are fresh and nothing is lost or deleted twice. */
module CacheRuns {
  import opened Keys
  import opened LruCache

  datatype Action =
    | DoInsert(name: Name, value: Bytes, charge: nat)
    | DoLookup(name: Name)
    | DoRelease(h: Id)
    | DoErase(name: Name)
    | DoPrune

  /** A client releases only what it holds. */
  predicate Can(s: Shard, a: Action) {
    a.DoRelease? ==> a.h in s.held
  }

  function Do(s: Shard, a: Action): Shard
    requires Inv(s) && Can(s, a)
  {
    match a
    case DoInsert(name, value, charge) => Insert(s, name, value, charge)
    case DoLookup(name) => Lookup(s, name)
    case DoRelease(h) => Release(s, h)
    case DoErase(name) => Erase(s, name)
    case DoPrune => Evict(s, true)
  }

  /** What was last inserted under each name and not erased since. */
  function Latest(latest: map<Name, Bytes>, a: Action): map<Name, Bytes> {
    match a
    case DoInsert(name, value, _) => latest[name := value]
    case DoErase(name) => latest - {name}
    case _ => latest
  }

  /** A lookup finds the latest value or nothing, never an old one. */
  ghost predicate Fresh(s: Shard, latest: map<Name, Bytes>) {
    && (forall n :: At(s, n) == Missing || (n in latest && At(s, n) == Hit(latest[n])))
    && (s.capacity == 0 ==> s.table == map[])
  }

  lemma {:induction false} DoKeeps(s: Shard, a: Action)
    requires Inv(s) && Can(s, a)
    ensures Inv(Do(s, a))
  {
    match a
    case DoInsert(name, value, charge) =>
    case DoLookup(name) => LookupKeeps(s, name);
    case DoRelease(h) => ReleaseKeeps(s, h);
    case DoErase(name) => EraseKeeps(s, name);
    case DoPrune =>
  }

  lemma {:induction false} Staler(s: Shard, t: Shard, latest: map<Name, Bytes>, latest': map<Name, Bytes>,
                                  except: set<Name>)
    requires Fresh(s, latest) && t.capacity == s.capacity && (s.capacity == 0 ==> t.table == map[])
    requires forall n :: n !in except ==> At(t, n) == At(s, n) || At(t, n) == Missing
    requires forall n :: n !in except && n in latest ==> n in latest' && latest'[n] == latest[n]
    requires forall n :: n in except ==> At(t, n) == Missing || (n in latest' && At(t, n) == Hit(latest'[n]))
    ensures Fresh(t, latest')
  {
  }

  lemma {:induction false} InsertStaysFresh(s: Shard, name: Name, value: Bytes, charge: nat, latest: map<Name, Bytes>)
    requires Inv(s) && Fresh(s, latest)
    ensures Fresh(Insert(s, name, value, charge), latest[name := value])
  {
    var t := Insert(s, name, value, charge);
    InsertMeans(s, name, value, charge);
    if s.capacity == 0 {
      forall n ensures n !in t.table {
        assert At(t, n) == Missing;
      }
    }
    Staler(s, t, latest, latest[name := value], {name});
  }

  lemma {:induction false} PruneStaysFresh(s: Shard, latest: map<Name, Bytes>)
    requires Inv(s) && Fresh(s, latest)
    ensures Fresh(Evict(s, true), latest)
  {
    var k := EvictMeans(s, true);
    var t := Evict(s, true);
    forall n ensures At(t, n) == At(s, n) || At(t, n) == Missing {
      EvictedAt(s, t, k, n);
    }
    Staler(s, t, latest, latest, {});
  }

  lemma {:induction false} EraseStaysFresh(s: Shard, name: Name, latest: map<Name, Bytes>)
    requires Inv(s) && Fresh(s, latest)
    ensures Fresh(Erase(s, name), latest - {name})
  {
    forall n ensures At(Erase(s, name), n) == if n == name then Missing else At(s, n) {
      EraseMeans(s, name, n);
    }
    Staler(s, Erase(s, name), latest, latest - {name}, {name});
  }

  lemma {:induction false} DoStaysFresh(s: Shard, a: Action, latest: map<Name, Bytes>)
    requires Inv(s) && Can(s, a) && Fresh(s, latest)
    ensures Fresh(Do(s, a), Latest(latest, a))
  {
    match a
    case DoInsert(name, value, charge) => InsertStaysFresh(s, name, value, charge, latest);
    case DoLookup(name) =>
      forall n ensures At(Lookup(s, name), n) == At(s, n) {
        LookupMeans(s, name, n);
      }
      Staler(s, Lookup(s, name), latest, latest, {});
    case DoRelease(h) =>
      forall n ensures At(Release(s, h), n) == At(s, n) {
        ReleaseMeans(s, h, n);
      }
      Staler(s, Release(s, h), latest, latest, {});
    case DoErase(name) => EraseStaysFresh(s, name, latest);
    case DoPrune => PruneStaysFresh(s, latest);
  }

  lemma {:induction false} StartIsFresh(capacity: nat)
    ensures Fresh(Start(capacity), map[])
  {
    assert forall n :: At(Start(capacity), n) == Missing;
  }

  datatype Outcome = Refused | Reached(shard: Shard, latest: map<Name, Bytes>)

  /** The state that a run leads to, with what clients may expect of it, unless a client releases what it does not
      hold. */
  ghost function Run(capacity: nat, actions: seq<Action>): (r: Outcome)
    ensures r.Reached? ==> Inv(r.shard)
    decreases |actions|
  {
    if actions == [] then
      StartKeeps(capacity);
      Reached(Start(capacity), map[])
    else
      var a := actions[|actions| - 1];
      match Run(capacity, actions[..|actions| - 1])
      case Refused => Refused
      case Reached(p, before) => if Can(p, a) then DoKeeps(p, a); Reached(Do(p, a), Latest(before, a)) else Refused
  }

  /** In every run the books are right, the deleters of all dead handles have run once, and lookups are fresh. */
  lemma {:induction false} EveryRun(capacity: nat, actions: seq<Action>)
    ensures var r := Run(capacity, actions); r.Reached? ==> Inv(r.shard) && Fresh(r.shard, r.latest)
    decreases |actions|
  {
    if actions == [] {
      StartIsFresh(capacity);
    } else {
      var a, p := actions[|actions| - 1], Run(capacity, actions[..|actions| - 1]);
      EveryRun(capacity, actions[..|actions| - 1]);
      if p.Reached? && Can(p.shard, a) {
        DoStaysFresh(p.shard, a, p.latest);
      }
    }
  }

  lemma {:induction false} FirstIn(s: seq<Id>)
    ensures s == [] || s[0] in s
  {
  }

  lemma {:induction false} NothingLeft(s: Shard)
    requires Inv(s) && s.held == multiset{} && s.lru == []
    ensures s.handles == map[] && s.usage == 0
  {
    assert forall h :: h in s.handles ==> s.handles[h].refs == 1 && s.handles[h].inCache;
    assert forall h :: h !in s.lru;
    assert s.handles.Keys == {};
    FirstIn(s.inUse);
  }

  /** Once clients have released everything, pruning leaves nothing behind... */
  lemma {:induction false} NothingInTheEnd(s: Shard)
    requires Inv(s) && s.held == multiset{}
    ensures Evict(s, true).handles == map[] && Evict(s, true).usage == 0
  {
    var k := EvictMeans(s, true);
    NothingLeft(Evict(s, true));
  }

  /** ... and has deleted every handle there ever was, each one once. */
  lemma {:induction false} AllDeletedInTheEnd(s: Shard, t: Shard)
    requires Inv(s) && s.held == multiset{} && t == Evict(s, true)
    ensures NoDup(t.deleted)
    ensures t.next == s.next && forall h: Id :: h in t.deleted <==> h < s.next
  {
    var k := EvictMeans(s, true);
    NothingInTheEnd(s);
  }
}
