/** The cache's hash table with chains (util/cache): it agrees with a map, through every growth.  A chain is a sequence
    of slots, and a name hangs in the bucket that its hash picks for the current length. */
module HandleTable {
  import opened Coding
  import opened LruCache

  datatype Slot = Slot(name: Name, handle: Id)

  /** hash & (length - 1), for a length that is a power of two. */
  function Bucket(hash: Word, length: nat): (b: nat)
    requires length > 0
    ensures b < length
  {
    hash % length
  }

  predicate PowerOfTwo(n: nat) {
    n == 1 || (n > 1 && n % 2 == 0 && PowerOfTwo(n / 2))
  }

  // ----- chains -----

  ghost predicate NoTwice(chain: seq<Slot>) {
    forall j, k :: 0 <= j < k < |chain| ==> chain[j].name != chain[k].name
  }

  /** The chain of bucket b has only entries of m that belong there. */
  ghost predicate ChainOk(chain: seq<Slot>, b: nat, length: nat, m: map<Name, Id>)
    requires length > 0
  {
    && NoTwice(chain)
    && forall s :: s in chain ==> Bucket(s.name.hash, length) == b && s.name in m && m[s.name] == s.handle
  }

  ghost predicate Holds(buckets: seq<seq<Slot>>, m: map<Name, Id>) {
    && |buckets| > 0
    && (forall b :: 0 <= b < |buckets| ==> ChainOk(buckets[b], b, |buckets|, m))
    && forall n :: n in m ==> Slot(n, m[n]) in buckets[Bucket(n.hash, |buckets|)]
  }

  /** How a chain may change for m to become m': its own entries, and nobody else's. */
  lemma {:induction false} OneChain(buckets: seq<seq<Slot>>, m: map<Name, Id>, name: Name, chain: seq<Slot>,
                                    m': map<Name, Id>)
    requires Holds(buckets, m)
    requires forall n :: n != name ==> (n in m <==> n in m') && (n in m ==> m[n] == m'[n])
    requires var b := Bucket(name.hash, |buckets|);
             && ChainOk(chain, b, |buckets|, m')
             && (forall s :: s in buckets[b] && s.name != name ==> s in chain)
             && (name in m' ==> Slot(name, m'[name]) in chain)
    ensures Holds(buckets[Bucket(name.hash, |buckets|) := chain], m')
  {
    var b := Bucket(name.hash, |buckets|);
    var now := buckets[b := chain];
    forall c | 0 <= c < |now| ensures ChainOk(now[c], c, |now|, m') {
      if c != b {
        assert ChainOk(buckets[c], c, |buckets|, m);
        assert forall s :: s in buckets[c] ==> s.name != name;
      }
    }
    forall n | n in m' ensures Slot(n, m'[n]) in now[Bucket(n.hash, |now|)] {
      if n != name {
        assert Slot(n, m[n]) in buckets[Bucket(n.hash, |buckets|)];
      }
    }
  }

  lemma {:induction false} Replaced(chain: seq<Slot>, b: nat, length: nat, m: map<Name, Id>, i: nat, h: Id)
    requires length > 0 && ChainOk(chain, b, length, m) && i < |chain|
    ensures var name := chain[i].name;
            && ChainOk(chain[i := Slot(name, h)], b, length, m[name := h])
            && (forall s :: s in chain && s.name != name ==> s in chain[i := Slot(name, h)])
            && Slot(name, h) in chain[i := Slot(name, h)]
  {
    var name := chain[i].name;
    var now := chain[i := Slot(name, h)];
    assert now[i] == Slot(name, h);
    forall s | s in now ensures Bucket(s.name.hash, length) == b && s.name in m[name := h] &&
        m[name := h][s.name] == s.handle {
      var k :| 0 <= k < |now| && now[k] == s;
      assert chain[k] in chain;
    }
    forall s | s in chain && s.name != name ensures s in now {
      var k :| 0 <= k < |chain| && chain[k] == s;
      assert now[k] == s;
    }
  }

  lemma {:induction false} Appended(chain: seq<Slot>, b: nat, length: nat, m: map<Name, Id>, name: Name, h: Id)
    requires length > 0 && ChainOk(chain, b, length, m) && Bucket(name.hash, length) == b
    requires forall k :: 0 <= k < |chain| ==> chain[k].name != name
    ensures ChainOk(chain + [Slot(name, h)], b, length, m[name := h])
    ensures ChainOk([Slot(name, h)] + chain, b, length, m[name := h])
  {
  }

  lemma {:induction false} Removed(chain: seq<Slot>, b: nat, length: nat, m: map<Name, Id>, i: nat)
    requires length > 0 && ChainOk(chain, b, length, m) && i < |chain|
    ensures var name := chain[i].name;
            && ChainOk(chain[..i] + chain[i + 1..], b, length, m - {name})
            && forall s :: s in chain && s.name != name ==> s in chain[..i] + chain[i + 1..]
  {
    var name := chain[i].name;
    var now := chain[..i] + chain[i + 1..];
    assert forall k :: 0 <= k < |now| ==> now[k] == chain[if k < i then k else k + 1];
    forall s | s in chain && s.name != name ensures s in now {
      var k :| 0 <= k < |chain| && chain[k] == s;
      assert now[if k < i then k else k - 1] == s;
    }
  }

  lemma {:induction false} NotThere(buckets: seq<seq<Slot>>, m: map<Name, Id>, name: Name)
    requires Holds(buckets, m)
    requires forall k :: 0 <= k < |buckets[Bucket(name.hash, |buckets|)]| ==>
             buckets[Bucket(name.hash, |buckets|)][k].name != name
    ensures name !in m
  {
  }

  lemma {:induction false} RemoveOne(m: map<Name, Id>, name: Name)
    requires name in m
    ensures |m - {name}| == |m| - 1
  {
    assert (m - {name}).Keys == m.Keys - {name};
    assert |m.Keys - {name}| == |m.Keys| - 1;
    assert |m - {name}| == |(m - {name}).Keys| && |m| == |m.Keys|;
  }

  lemma {:induction false} AddOne(m: map<Name, Id>, name: Name, h: Id)
    ensures |m[name := h]| == if name in m then |m| else |m| + 1
  {
    assert m[name := h].Keys == m.Keys + {name};
    assert |m[name := h]| == |m[name := h].Keys| && |m| == |m.Keys|;
  }

  /** FindPointer's answer: the entry with this name, or the end of the chain. */
  method FindPointer(chain: seq<Slot>, name: Name) returns (i: nat)
    ensures i <= |chain| && (i < |chain| ==> chain[i].name == name)
    ensures forall k :: 0 <= k < i ==> chain[k].name != name
  {
    i := 0;
    while i < |chain| && chain[i].name != name
      invariant i <= |chain| && forall k :: 0 <= k < i ==> chain[k].name != name
    {
      i := i + 1;
    }
  }

  datatype Handle = NoHandle | Handle(id: Id)

  function Get(m: map<Name, Id>, name: Name): Handle {
    if name in m then Handle.Handle(m[name]) else NoHandle
  }

  /** Which entries of the old table Resize has moved: those of the first i chains and the first j of the next. */
  ghost predicate Moved(buckets: seq<seq<Slot>>, s: Slot, i: nat, j: nat)
    requires |buckets| > 0
  {
    var b := Bucket(s.name.hash, |buckets|);
    b < i || (b == i && s in buckets[b][..if j <= |buckets[b]| then j else |buckets[b]|])
  }

  ghost predicate Moving(buckets: seq<seq<Slot>>, m: map<Name, Id>, done: map<Name, Id>, i: nat, j: nat)
    requires |buckets| > 0
  {
    && (forall n :: n in done ==> n in m && done[n] == m[n])
    && forall n :: n in m ==> (n in done <==> Moved(buckets, Slot(n, m[n]), i, j))
  }

  lemma {:induction false} MoveOne(buckets: seq<seq<Slot>>, m: map<Name, Id>, done: map<Name, Id>, i: nat, j: nat)
    requires Holds(buckets, m) && Moving(buckets, m, done, i, j) && i < |buckets| && j < |buckets[i]|
    ensures var s := buckets[i][j]; s.name !in done && Moving(buckets, m, done[s.name := s.handle], i, j + 1)
  {
    var s, chain := buckets[i][j], buckets[i];
    assert ChainOk(chain, i, |buckets|, m);
    assert s in chain;
    assert chain[..j + 1] == chain[..j] + [s];
    assert forall k :: 0 <= k < j ==> chain[..j][k].name != s.name;
  }

  lemma {:induction false} MoveChain(buckets: seq<seq<Slot>>, m: map<Name, Id>, done: map<Name, Id>, i: nat)
    requires Holds(buckets, m) && i < |buckets| && Moving(buckets, m, done, i, |buckets[i]|)
    ensures Moving(buckets, m, done, i + 1, 0)
  {
    assert buckets[i][..|buckets[i]|] == buckets[i];
    forall n | n in m ensures Moved(buckets, Slot(n, m[n]), i, |buckets[i]|) <==>
        Moved(buckets, Slot(n, m[n]), i + 1, 0) {
      assert Slot(n, m[n]) in buckets[Bucket(n.hash, |buckets|)];
    }
  }

  lemma {:induction false} AllMoved(buckets: seq<seq<Slot>>, m: map<Name, Id>, done: map<Name, Id>)
    requires Holds(buckets, m) && Moving(buckets, m, done, |buckets|, 0)
    ensures done == m
  {
    assert forall n :: n in m ==> n in done;
  }

  lemma {:induction false} EmptyHolds(buckets: seq<seq<Slot>>)
    requires |buckets| > 0 && forall b :: 0 <= b < |buckets| ==> buckets[b] == []
    ensures Holds(buckets, map[])
  {
  }

  class HandleTable {
    var list: seq<seq<Slot>>
    var elems: nat
    ghost var contents: map<Name, Id>

    ghost predicate Valid()
      reads this
    {
      PowerOfTwo(|list|) && Holds(list, contents) && elems == |contents|
    }

    constructor ()
      ensures Valid() && contents == map[] && elems <= |list|
    {
      elems, contents := 0, map[];
      list := [[], [], [], []];
      new;
      assert PowerOfTwo(4) by {
        assert PowerOfTwo(2);
      }
      EmptyHolds(list);
    }

    method Lookup(name: Name) returns (r: Handle)
      requires Valid()
      ensures r == Get(contents, name)
    {
      var b := Bucket(name.hash, |list|);
      var i := FindPointer(list[b], name);
      assert ChainOk(list[b], b, |list|, contents);
      if i < |list[b]| {
        assert list[b][i] in list[b];
        return Handle.Handle(list[b][i].handle);
      }
      NotThere(list, contents, name);
      return NoHandle;
    }
  
    method Replace(name: Name, h: Id, b: nat, i: nat) returns (r: Handle)
      requires Valid() && elems <= |list| && b == Bucket(name.hash, |list|)
      requires i < |list[b]| && list[b][i].name == name
      modifies this
      ensures Valid() && elems <= |list|
      ensures r == Get(old(contents), name) && contents == old(contents)[name := h]
    {
      ghost var before := list;
      assert ChainOk(before[b], b, |before|, contents) && list[b][i] in list[b];
      AddOne(contents, name, h);
      r := Handle.Handle(list[b][i].handle);
      Replaced(before[b], b, |before|, contents, i, h);
      OneChain(before, contents, name, before[b][i := Slot(name, h)], contents[name := h]);
      list := list[b := list[b][i := Slot(name, h)]];
      contents := contents[name := h];
    }

    method Append(name: Name, h: Id, b: nat)
      requires Valid() && elems <= |list| && b == Bucket(name.hash, |list|)
      requires forall k :: 0 <= k < |list[b]| ==> list[b][k].name != name
      modifies this
      ensures Valid() && elems <= |list| && name !in old(contents) && contents == old(contents)[name := h]
    {
      ghost var before := list;
      assert ChainOk(before[b], b, |before|, contents);
      AddOne(contents, name, h);
      NotThere(before, contents, name);
      Appended(before[b], b, |before|, contents, name, h);
      OneChain(before, contents, name, before[b] + [Slot(name, h)], contents[name := h]);
      list := list[b := list[b] + [Slot(name, h)]];
      contents := contents[name := h];
      elems := elems + 1;
      if elems > |list| {
        Resize();
      }
    }

    /** The entry under the same name, if there is one, gives way. */
    method Insert(name: Name, h: Id) returns (r: Handle)
      requires Valid() && elems <= |list|
      modifies this
      ensures Valid() && elems <= |list|
      ensures r == Get(old(contents), name) && contents == old(contents)[name := h]
    {
      var b := Bucket(name.hash, |list|);
      var i := FindPointer(list[b], name);
      if i < |list[b]| {
        r := Replace(name, h, b, i);
      } else {
        r := NoHandle;
        Append(name, h, b);
      }
    }

    method Remove(name: Name) returns (r: Handle)
      requires Valid() && elems <= |list|
      modifies this
      ensures Valid() && elems <= |list| && |list| == |old(list)|
      ensures r == Get(old(contents), name) && contents == old(contents) - {name}
    {
      var b := Bucket(name.hash, |list|);
      var i := FindPointer(list[b], name);
      ghost var before := list;
      assert ChainOk(before[b], b, |before|, contents);
      if i < |list[b]| {
        assert list[b][i] in list[b];
        r := Handle.Handle(list[b][i].handle);
        Removed(before[b], b, |before|, contents, i);
        OneChain(before, contents, name, before[b][..i] + before[b][i + 1..], contents - {name});
        RemoveOne(contents, name);
        list := list[b := list[b][..i] + list[b][i + 1..]];
        contents := contents - {name};
        elems := elems - 1;
      } else {
        r := NoHandle;
        NotThere(before, contents, name);
        assert contents - {name} == contents;
      }
    }

    method Resize()
      requires Valid()
      modifies this
      ensures Valid() && elems <= |list| && contents == old(contents)
    {
      var length := NewLength(elems);
      var count: nat;
      list, count := Rehash(list, length, contents);
      assert elems == count;
    }
  }

  /** Every entry moves to the front of its new chain. */
  method Rehash(list: seq<seq<Slot>>, length: nat, ghost m: map<Name, Id>) returns (bigger: seq<seq<Slot>>, count: nat)
    requires length > 0 && Holds(list, m)
    ensures |bigger| == length && Holds(bigger, m) && count == |m|
  {
    bigger := seq(length, _ => []);
    EmptyHolds(bigger);
    ghost var done := map[];
    count := 0;
    for i := 0 to |list|
      invariant |bigger| == length && Holds(bigger, done)
      invariant Moving(list, m, done, i, 0) && count == |done|
    {
      bigger, count, done := MoveEach(list, i, bigger, count, m, done);
    }
    AllMoved(list, m, done);
  }

  method MoveEach(list: seq<seq<Slot>>, i: nat, now: seq<seq<Slot>>, before: nat, ghost m: map<Name, Id>,
                  ghost done: map<Name, Id>)
    returns (now': seq<seq<Slot>>, count: nat, ghost done': map<Name, Id>)
    requires Holds(list, m) && i < |list| && Holds(now, done) && Moving(list, m, done, i, 0) && before == |done|
    ensures |now'| == |now| && Holds(now', done') && Moving(list, m, done', i + 1, 0) && count == |done'|
  {
    now', count, done' := now, before, done;
    var chain := list[i];
    for j := 0 to |chain|
      invariant |now'| == |now| && Holds(now', done') && Moving(list, m, done', i, j) && count == |done'|
    {
      var s := chain[j];
      var b := Bucket(s.name.hash, |now'|);
      MoveOne(list, m, done', i, j);
      PushFront(now', s, done');
      now', done' := now'[b := [s] + now'[b]], done'[s.name := s.handle];
      count := count + 1;
    }
    MoveChain(list, m, done', i);
  }

  lemma {:induction false} PushFront(now: seq<seq<Slot>>, s: Slot, m: map<Name, Id>)
    requires Holds(now, m) && s.name !in m
    ensures var b := Bucket(s.name.hash, |now|); Holds(now[b := [s] + now[b]], m[s.name := s.handle])
    ensures |m[s.name := s.handle]| == |m| + 1
  {
    var b := Bucket(s.name.hash, |now|);
    assert ChainOk(now[b], b, |now|, m);
    forall k | 0 <= k < |now[b]| ensures now[b][k].name != s.name {
      assert now[b][k] in now[b];
    }
    Appended(now[b], b, |now|, m, s.name, s.handle);
    OneChain(now, m, s.name, [Slot(s.name, s.handle)] + now[b], m[s.name := s.handle]);
    AddOne(m, s.name, s.handle);
  }

  method NewLength(elems: nat) returns (length: nat)
    ensures length >= elems && length >= 4 && PowerOfTwo(length)
  {
    length := 4;
    assert PowerOfTwo(4) by {
      assert PowerOfTwo(2);
    }
    while length < elems
      invariant length >= 4 && PowerOfTwo(length)
    {
      length := length * 2;
    }
  }
}
